/** C code for native function bodies (mypyc/emitfunc.py): the function
    header, each op's rendering, and the assembly of declarations and body. */
module EmitFunc {
  import opened Wrappers
  import opened Strings
  import opened RTypes
  import opened Ops
  import opened Environment
  import opened IR
  import opened Emit

  /** What the visitor of one function reads: the function's registers,
      the emitter's renderings, and the function name and source path for
      traceback lines. */
  datatype FuncContext = FuncContext(env: EnvState, h: Helpers, funcName: string, sourcePath: string)

  /** `emitter.reg`: a register's C variable. */
  function Reg(c: FuncContext, r: Register): string
    requires r in c.env.names
  {
    c.h.regPrefix + c.env.names[r]
  }

  function Regs(c: FuncContext, regs: seq<Register>): (r: seq<string>)
    requires Named(c, regs)
    ensures |r| == |regs| && forall k :: 0 <= k < |regs| ==> r[k] == Reg(c, regs[k])
  {
    if regs == [] then [] else [Reg(c, regs[0])] + Regs(c, regs[1..])
  }

  predicate Named(c: FuncContext, regs: seq<Register>) {
    forall k :: 0 <= k < |regs| ==> regs[k] in c.env.names
  }

  predicate NamedDest(c: FuncContext, d: Option<Register>) {
    d.Some? ==> d.value in c.env.names
  }

  /** Every register whose name or type the op's rendering looks up is in
      the environment: the code indexes the name and type dictionaries
      directly. */
  predicate Renderable(c: FuncContext, op: Op) {
    var names := c.env.names;
    match op
    case Goto(_, _) => true
    case Branch(l, r, _, _, k, _, _, _) =>
      l in names && (IsIntComparison(k) ==> r in names) && (k == IsError ==> l in c.env.types)
    case Return(reg, _) => reg in names && reg in c.env.types
    case Unreachable(_) => true
    case IncRef(d, _, _) => d in names
    case DecRef(d, _, _) => d in names
    case Call(d, _, args, _) => NamedDest(c, d) && Named(c, args)
    case MethodCall(_, _, _, _, _, _) => true
    case PyCall(d, f, args, _) => NamedDest(c, d) && f in names && Named(c, args)
    case PyMethodCall(d, obj, m, args, _) => NamedDest(c, d) && obj in names && m in names && Named(c, args)
    case PyGetAttr(h, _, l, _, _) => OpRegister(h) in names && l in names
    case PrimitiveOp(d, args, desc, _) =>
      NamedDest(c, d)
      && (desc.kind == PrimNewList || desc.kind == PrimNewTuple ==> Named(c, args))
      && (desc.kind == PrimNewTuple && d.Some? ==> d.value in c.env.types)
    case Assign(d, s, _) => d in names && s in names
    case LoadInt(d, _, _) => d in names
    case LoadErrorValue(h, _, _) => OpRegister(h) in names
    case GetAttr(h, obj, _, _, _) => OpRegister(h) in names && obj in names
    case SetAttr(h, obj, _, s, _, _) => OpRegister(h) in names && obj in names && s in names
    case LoadStatic(h, _, _, _) => OpRegister(h) in names
    case TupleSet(_, _, _, _) => true
    case TupleGet(h, s, _, _, _) => OpRegister(h) in names && s in names
    case Cast(h, s, _, _) => OpRegister(h) in names && s in names
    case Box(h, s, _, _) => OpRegister(h) in names && s in names
    case Unbox(h, s, _, _) => OpRegister(h) in names && s in names
  }

  // ---------------------------------------------------------------- header

  /** `'{}{}{}'.format(arg.type.ctype_spaced(), REG_PREFIX, arg.name)`. */
  function ArgDeclaration(h: Helpers, a: RuntimeArg): (r: string)
    ensures |r| > 0
  {
    CtypeSpaced(a.rtype) + h.regPrefix + a.name
  }

  function ArgDeclarations(h: Helpers, args: seq<RuntimeArg>): (r: seq<string>)
    ensures |r| == |args| && forall k :: 0 <= k < |args| ==> r[k] == ArgDeclaration(h, args[k])
  {
    if args == [] then [] else [ArgDeclaration(h, args[0])] + ArgDeclarations(h, args[1..])
  }

  /** `', '.join(args) or 'void'`. */
  function ParameterList(h: Helpers, args: seq<RuntimeArg>): string {
    var joined := Join(ArgDeclarations(h, args), ", ");
    if joined == "" then "void" else joined
  }

  /** `native_function_header`. */
  function NativeFunctionHeader(fn: FuncIR, h: Helpers): string {
    "static " + CtypeSpaced(fn.retType) + h.nativePrefix + CName(fn) + "(" + ParameterList(h, fn.args) + ")"
  }

  /** A join of texts is empty only when there is nothing to join. */
  lemma {:induction false} JoinEmpty(parts: seq<string>, sep: string)
    requires forall k :: 0 <= k < |parts| ==> |parts[k]| > 0
    ensures Join(parts, sep) == "" <==> parts == []
  {
    if |parts| > 1 {
      assert |Join(parts, sep)| >= |parts[0]|;
    }
  }

  /** The parameter list is `void` exactly when the function takes no
      arguments; no argument declaration can read `void`, since each has a
      blank or a star between its type and its name. */
  lemma ParameterListVoid(h: Helpers, args: seq<RuntimeArg>)
    ensures ParameterList(h, args) == "void" <==> args == []
    ensures args != [] ==> ParameterList(h, args) == Join(ArgDeclarations(h, args), ", ")
  {
    var decls := ArgDeclarations(h, args);
    JoinEmpty(decls, ", ");
    if args != [] {
      var joined := Join(decls, ", ");
      var first := decls[0];
      var spaced := CtypeSpaced(args[0].rtype);
      assert first[..|spaced|] == spaced;
      JoinPrefix(decls, ", ");
      assert joined[..|first|] == first;
      var sep := joined[|spaced| - 1];
      assert sep == spaced[|spaced| - 1];
      assert sep == '*' || sep == ' ';
      assert |joined| != 4 || sep != "void"[|spaced| - 1];
    }
  }

  /** A join starts with its first part. */
  lemma JoinPrefix(parts: seq<string>, sep: string)
    requires parts != []
    ensures |Join(parts, sep)| >= |parts[0]| && Join(parts, sep)[..|parts[0]|] == parts[0]
  {
    if |parts| > 1 {
      var r := Join(parts, sep);
      assert r == parts[0] + (sep + Join(parts[1..], sep));
    }
  }

  // ---------------------------------------------------------------- branch

  /** `BRANCH_OP_MAP`. */
  function ComparisonFunction(k: BranchKind): string
    requires IsIntComparison(k)
  {
    match k
    case IntEq => "CPyTagged_IsEq"
    case IntNe => "CPyTagged_IsNe"
    case IntLt => "CPyTagged_IsLt"
    case IntLe => "CPyTagged_IsLe"
    case IntGt => "CPyTagged_IsGt"
    case IntGe => "CPyTagged_IsGe"
  }

  function Comparator(negated: bool): string {
    if negated then "!=" else "=="
  }

  /** The registers a branch condition reads are named, and an error
      check's register has a type. */
  predicate ConditionReadable(c: FuncContext, kind: BranchKind, left: Register, right: Register) {
    left in c.env.names && (IsIntComparison(kind) ==> right in c.env.names) && (kind == IsError ==> left in c.env.types)
  }

  /** The C condition of a branch (`visit_branch`, before the `unlikely`
      wrapper). An error check on a tuple compares its first field; on an
      empty tuple there is none, and a type without a single-expression
      sentinel has no error value to compare with. */
  function Condition(c: FuncContext, kind: BranchKind, left: Register, right: Register, negated: bool): Result<string>
    requires ConditionReadable(c, kind, left, right)
  {
    var neg := if negated then "!" else "";
    match kind
    case BoolExpr => Ok(neg + ("(" + Reg(c, left) + ")"))
    case IsNone => Ok(Reg(c, left) + " " + Comparator(negated) + " Py_None")
    case IsError =>
      var typ := c.env.types[left];
      if typ.RTuple? then
        if typ.types == [] then Fail("list index out of range")
        else
          var ev :- CErrorValue(typ.types[0]);
          Ok(Reg(c, left) + ".f0" + " " + Comparator(negated) + " " + ev)
      else
        var ev :- CErrorValue(typ);
        Ok(Reg(c, left) + " " + Comparator(negated) + " " + ev)
    case _ =>
      Ok(neg + (ComparisonFunction(kind) + "(" + Reg(c, left) + ", " + Reg(c, right) + ")"))
  }

  function BranchCondition(c: FuncContext, b: Op): Result<string>
    requires b.Branch? && Renderable(c, b)
  {
    Condition(c, b.kind, b.left, b.right, b.negated)
  }

  /** For a truth test and an integer comparison, negation only puts a `!`
      in front of the condition. */
  lemma NegationPrefixesBang(c: FuncContext, kind: BranchKind, left: Register, right: Register)
    requires ConditionReadable(c, kind, left, right) && (kind == BoolExpr || IsIntComparison(kind))
    ensures Condition(c, kind, left, right, false).Ok? && Condition(c, kind, left, right, true).Ok?
    ensures Condition(c, kind, left, right, true).value == "!" + Condition(c, kind, left, right, false).value
  {
    var t := if kind == BoolExpr then "(" + Reg(c, left) + ")"
             else ComparisonFunction(kind) + "(" + Reg(c, left) + ", " + Reg(c, right) + ")";
    assert Condition(c, kind, left, right, false) == Ok("" + t);
    assert Condition(c, kind, left, right, true) == Ok("!" + t);
    assert "" + t == t;
  }

  /** The two texts are equal but for one position, which holds `=` in the
      first and `!` in the second. */
  ghost predicate OneFlip(plain: string, negated: string) {
    |plain| == |negated|
    && exists k :: 0 <= k < |plain| && plain[k] == '=' && negated[k] == '!'
                   && plain[..k] == negated[..k] && plain[k + 1..] == negated[k + 1..]
  }

  lemma ComparatorFlip(head: string, tail: string)
    ensures OneFlip(head + Comparator(false) + tail, head + Comparator(true) + tail)
  {
    var plain, negated := head + "==" + tail, head + "!=" + tail;
    var k := |head|;
    assert plain[k] == '=' && negated[k] == '!';
    assert plain[..k] == head == negated[..k];
    assert plain[k + 1..] == "=" + tail == negated[k + 1..];
  }

  /** For `is None` and error checks, negation leaves the condition as it
      is except for the comparator, which turns from `==` into `!=`. */
  lemma NegationFlipsComparator(c: FuncContext, kind: BranchKind, left: Register, right: Register)
    requires ConditionReadable(c, kind, left, right) && (kind == IsNone || kind == IsError)
    ensures Condition(c, kind, left, right, false).Ok? <==> Condition(c, kind, left, right, true).Ok?
    ensures Condition(c, kind, left, right, false).Ok? ==>
      OneFlip(Condition(c, kind, left, right, false).value, Condition(c, kind, left, right, true).value)
  {
    if Condition(c, kind, left, right, false).Ok? {
      if kind == IsNone {
        ComparatorFlip(Reg(c, left) + " ", " Py_None");
      } else {
        var typ := c.env.types[left];
        var head := if typ.RTuple? then Reg(c, left) + ".f0" + " " else Reg(c, left) + " ";
        var ev := if typ.RTuple? then CErrorValue(typ.types[0]).value else CErrorValue(typ).value;
        assert Condition(c, kind, left, right, false).value == head + Comparator(false) + " " + ev;
        assert Condition(c, kind, left, right, true).value == head + Comparator(true) + " " + ev;
        AppendAssoc(head + Comparator(false), " ", ev);
        AppendAssoc(head + Comparator(true), " ", ev);
        ComparatorFlip(head, " " + ev);
      }
    }
  }

  /** An error check on a tuple-typed register never compares the whole
      tuple: it compares field `f0` with the first item's error value, and
      fails when there is no first item or it has no such value. */
  lemma TupleErrorCheck(c: FuncContext, left: Register, right: Register, negated: bool)
    requires ConditionReadable(c, IsError, left, right) && c.env.types[left].RTuple?
    ensures var ts := c.env.types[left].types;
      Condition(c, IsError, left, right, negated).Ok? <==> ts != [] && CErrorValue(ts[0]).Ok?
    ensures Condition(c, IsError, left, right, negated).Ok? ==>
      var prefix := Reg(c, left) + ".f0 ";
      |Condition(c, IsError, left, right, negated).value| > |prefix|
      && Condition(c, IsError, left, right, negated).value[..|prefix|] == prefix
  {
    var r := Condition(c, IsError, left, right, negated);
    if r.Ok? {
      var prefix := Reg(c, left) + ".f0 ";
      var ts := c.env.types[left].types;
      assert r.value == prefix + (Comparator(negated) + " " + CErrorValue(ts[0]).value);
    }
  }

  /** `'CPy_AddTraceback("%s", "%s", %d, _globals);'`, with the branch's own line. */
  function TracebackLine(c: FuncContext, b: Op): string
    requires b.Branch?
  {
    "CPy_AddTraceback(\"" + c.sourcePath + "\", \"" + c.funcName + "\", " + IntToString(b.line) + ", _globals);"
  }

  /** The lines `visit_branch` writes for a condition. */
  function BranchLines(c: FuncContext, b: Op, cond: string): seq<string>
    requires b.Branch?
  {
    var tb := b.traceback.Some?;
    ["if (" + (if tb then "unlikely(" + cond + ")" else cond) + ") {"]
      + (if tb then [TracebackLine(c, b)] else [])
      + ["goto " + c.h.labelName(b.trueLabel) + ";", "} else", "    goto " + c.h.labelName(b.falseLabel) + ";"]
  }

  /** The shape of a rendered branch: the test line, the traceback line
      exactly when the branch records an error location (and then the test
      is marked unlikely), then the jump to the true label and, after
      `} else`, the jump to the false label. Negating the branch changes
      only the test line. */
  lemma BranchLinesShape(c: FuncContext, b: Op, cond: string)
    requires b.Branch?
    ensures var lines := BranchLines(c, b, cond);
      && |lines| == (if b.traceback.Some? then 5 else 4)
      && (b.traceback.Some? <==> lines[0] == "if (unlikely(" + cond + ")) {")
      && (b.traceback.Some? ==> lines[1] == TracebackLine(c, b))
      && (b.traceback.None? ==> lines[0] == "if (" + cond + ") {")
      && lines[|lines| - 3] == "goto " + c.h.labelName(b.trueLabel) + ";"
      && lines[|lines| - 2] == "} else"
      && lines[|lines| - 1] == "    goto " + c.h.labelName(b.falseLabel) + ";"
    ensures forall negated: bool :: BranchLines(c, b.(negated := negated), cond)[1..] == BranchLines(c, b, cond)[1..]
  {
    var wrapped := "if (unlikely(" + cond + ")) {";
    var plain := "if (" + cond + ") {";
    assert |plain| < |wrapped|;
  }

  /** `visit_branch`. */
  function BranchCode(c: FuncContext, b: Op): Result<seq<string>>
    requires b.Branch? && Renderable(c, b)
  {
    var cond :- BranchCondition(c, b);
    Ok(BranchLines(c, b, cond))
  }

  // -------------------------------------------------------- primitive ops

  function IncRefLine(reg: string): string {
    "Py_INCREF(" + reg + ");"
  }

  function SetItemLine(dest: string, i: nat, reg: string): string {
    "PyList_SET_ITEM(" + dest + ", " + IntToString(i) + ", " + reg + ");"
  }

  /** `Py_INCREF(arg)` for each item. */
  function IncRefLines(regs: seq<string>): (r: seq<string>)
    ensures |r| == |regs| && forall k :: 0 <= k < |regs| ==> r[k] == IncRefLine(regs[k])
  {
    seq(|regs|, k requires 0 <= k < |regs| => IncRefLine(regs[k]))
  }

  /** `PyList_SET_ITEM(dest, i, arg)` for each item, at its own position. */
  function SetItemLines(dest: string, regs: seq<string>): (r: seq<string>)
    ensures |r| == |regs| && forall k :: 0 <= k < |regs| ==> r[k] == SetItemLine(dest, k, regs[k])
  {
    seq(|regs|, k requires 0 <= k < |regs| => SetItemLine(dest, k, regs[k]))
  }

  /** The lines of a `NEW_LIST` primitive. */
  function NewListLines(dest: string, regs: seq<string>): seq<string> {
    [dest + " = PyList_New(" + IntToString(|regs|) + "); "] + IncRefLines(regs)
      + ["if (" + dest + " != NULL) {"] + SetItemLines(dest, regs) + ["}"]
  }

  /** A list of n items is allocated with room for n, every item gets a
      reference in argument order, and only if the allocation succeeded
      does item i go to position i, again in argument order. */
  lemma NewListLayout(dest: string, regs: seq<string>)
    ensures var lines, n := NewListLines(dest, regs), |regs|;
      && |lines| == 2 * n + 3
      && lines[0] == dest + " = PyList_New(" + IntToString(n) + "); "
      && (forall k :: 0 <= k < n ==> lines[1 + k] == IncRefLine(regs[k]))
      && lines[n + 1] == "if (" + dest + " != NULL) {"
      && (forall k :: 0 <= k < n ==>
            lines[n + 2 + k] == SetItemLine(dest, k, regs[k]))
      && lines[2 * n + 2] == "}"
  {
    var lines, n := NewListLines(dest, regs), |regs|;
    var incs, sets := IncRefLines(regs), SetItemLines(dest, regs);
    assert lines == [lines[0]] + incs + [lines[n + 1]] + sets + ["}"];
    forall k | 0 <= k < n
      ensures lines[1 + k] == incs[k] && lines[n + 2 + k] == SetItemLine(dest, k, regs[k])
    {
    }
  }

  function FieldAssignment(dest: string, i: nat, reg: string): string {
    dest + ".f" + IntToString(i) + " = " + reg + ";"
  }

  /** `'{}.f{} = {};'` for each item of a `NEW_TUPLE`, in field order. */
  function TupleFieldAssignments(dest: string, regs: seq<string>): (r: seq<string>)
    ensures |r| == |regs| && forall k :: 0 <= k < |regs| ==> r[k] == FieldAssignment(dest, k, regs[k])
  {
    seq(|regs|, k requires 0 <= k < |regs| => FieldAssignment(dest, k, regs[k]))
  }

  /** `visit_primitive_op`. A void description, a missing destination, a
      `NEW_TUPLE` whose destination is not tuple-typed and a description the
      emitter does not know are assertion failures. */
  function PrimitiveCode(c: FuncContext, op: Op): Result<seq<string>>
    requires op.PrimitiveOp? && Renderable(c, op)
  {
    if op.desc.isVoid then Fail("No is_void ops implemented yet")
    else if op.result.None? then Fail("primitive op without a destination")
    else
      var d := Reg(c, op.result.value);
      match op.desc.kind
      case PrimNone => Ok([d + " = Py_None;", "Py_INCREF(" + d + ");"])
      case PrimTrue => Ok([d + " = 1;"])
      case PrimFalse => Ok([d + " = 0;"])
      case PrimNewList => Ok(NewListLines(d, Regs(c, op.args)))
      case PrimNewTuple =>
        var t := c.env.types[op.result.value];
        if !t.RTuple? then Fail("NEW_TUPLE destination is not a tuple")
        else Ok(TupleFieldAssignments(d, Regs(c, op.args)) + c.h.incRef(d, t))
      case PrimNewDict => Ok([d + " = PyDict_New();"])
      case OtherPrimitive => Fail("Unexpected primitive op: " + op.desc.name)
  }

  // ------------------------------------------------------------ other ops

  /** `c_undefined_value` of each tuple item. */
  function UndefinedValues(ts: seq<RType>): (r: Result<seq<string>>)
    ensures r.Ok? <==> forall k :: 0 <= k < |ts| ==> CUndefinedValue(ts[k]).Ok?
    ensures r.Ok? ==> |r.value| == |ts| && forall k :: 0 <= k < |ts| ==> r.value[k] == CUndefinedValue(ts[k]).value
  {
    if ts == [] then Ok([])
    else
      var first :- CUndefinedValue(ts[0]);
      var rest :- UndefinedValues(ts[1..]);
      Ok([first] + rest)
  }

  /** Whether rendering the op takes a temporary name. */
  predicate UsesTemp(op: Op) {
    op.LoadErrorValue? && op.rtype.RTuple? && UndefinedValues(op.rtype.types).Ok?
  }

  /** `visit_load_error_value`: a tuple is built in a temporary from its
      items' undefined values; any other type takes its error value. */
  function LoadErrorValueCode(c: FuncContext, op: Op, tmp: string): Result<seq<string>>
    requires op.LoadErrorValue? && Renderable(c, op)
  {
    var d := Reg(c, OpRegister(op.handle));
    if op.rtype.RTuple? then
      var values :- UndefinedValues(op.rtype.types);
      Ok([Ctype(op.rtype) + " " + tmp + " = { " + Join(values, ", ") + " };", d + " = " + tmp + ";"])
    else
      var ev :- CErrorValue(op.rtype);
      Ok([d + " = " + ev + ";"])
  }

  /** `'{} = '` in front of a call with a destination. */
  function DestPrefix(c: FuncContext, d: Option<Register>): string
    requires d.Some? ==> d.value in c.env.names
  {
    if d.Some? then Reg(c, d.value) + " = " else ""
  }

  /** The arguments of a variadic Python call, each followed by `, `. */
  function VarArgs(regs: seq<string>): string {
    var args := Join(regs, ", ");
    if args != "" then args + ", " else args
  }

  /** `visit_get_attr`. */
  function GetAttrCode(c: FuncContext, op: Op): Result<seq<string>>
    requires op.GetAttr? && Renderable(c, op)
  {
    var getter :- GetterIndex(op.classType, op.attr);
    var t :- AttrType(op.classType, op.attr);
    Ok([Reg(c, OpRegister(op.handle)) + " = CPY_GET_ATTR(" + Reg(c, op.obj) + ", " + IntToString(getter) + ", "
        + InstanceStructName(op.classType) + ", " + Ctype(t) + ");"])
  }

  /** `visit_set_attr`. */
  function SetAttrCode(c: FuncContext, op: Op): Result<seq<string>>
    requires op.SetAttr? && Renderable(c, op)
  {
    var setter :- SetterIndex(op.classType, op.attr);
    var t :- AttrType(op.classType, op.attr);
    Ok([Reg(c, OpRegister(op.handle)) + " = CPY_SET_ATTR(" + Reg(c, op.obj) + ", " + IntToString(setter) + ", "
        + Reg(c, op.src) + ", " + InstanceStructName(op.classType) + ", " + Ctype(t) + ");"])
  }

  /** The C lines of an op, one `visit_*` method per variant; `tmp` is the
      temporary name the emitter hands out if the op takes one. Ops without
      a visit method of their own write nothing. */
  function OpCode(c: FuncContext, op: Op, tmp: string): Result<seq<string>>
    requires Renderable(c, op)
  {
    match op
    case Goto(l, _) => Ok(["goto " + c.h.labelName(l) + ";"])
    case Branch(_, _, _, _, _, _, _, _) => BranchCode(c, op)
    case Return(reg, _) => Ok(["return " + Reg(c, reg) + ";"])
    case Unreachable(_) => Ok([])
    case IncRef(d, t, _) => Ok(c.h.incRef(Reg(c, d), t))
    case DecRef(d, t, _) => Ok(c.h.decRef(Reg(c, d), t))
    case Call(d, fn, args, _) =>
      Ok([DestPrefix(c, d) + c.h.nativePrefix + fn + "(" + Join(Regs(c, args), ", ") + ");"])
    case MethodCall(_, _, _, _, _, _) => Ok([])
    case PyCall(d, f, args, _) =>
      Ok([DestPrefix(c, d) + "PyObject_CallFunctionObjArgs(" + Reg(c, f) + ", " + VarArgs(Regs(c, args)) + "NULL);"])
    case PyMethodCall(d, obj, m, args, _) =>
      Ok([DestPrefix(c, d) + "PyObject_CallMethodObjArgs(" + Reg(c, obj) + ", " + Reg(c, m) + ", "
          + VarArgs(Regs(c, args)) + "NULL);"])
    case PyGetAttr(h, _, l, attr, _) =>
      Ok([Reg(c, OpRegister(h)) + " = CPyObject_GetAttrString(" + Reg(c, l) + ", \"" + attr + "\");"])
    case PrimitiveOp(_, _, _, _) => PrimitiveCode(c, op)
    case Assign(d, s, _) => Ok([Reg(c, d) + " = " + Reg(c, s) + ";"])
    case LoadInt(d, v, _) => Ok([Reg(c, d) + " = " + IntToString(v * 2) + ";"])
    case LoadErrorValue(_, _, _) => LoadErrorValueCode(c, op, tmp)
    case GetAttr(_, _, _, _, _) => GetAttrCode(c, op)
    case SetAttr(_, _, _, _, _, _) => SetAttrCode(c, op)
    case LoadStatic(h, _, ident, _) => Ok([Reg(c, OpRegister(h)) + " = " + ident + ";"])
    case TupleSet(_, _, _, _) => Ok([])
    case TupleGet(h, s, index, t, _) =>
      var d := Reg(c, OpRegister(h));
      Ok([d + " = " + Reg(c, s) + ".f" + IntToString(index) + ";"] + c.h.incRef(d, t))
    case Cast(_, _, _, _) => CastCode(c, op)
    case Box(h, s, _, _) => Ok(c.h.box(Reg(c, s), Reg(c, OpRegister(h)), ObjectRPrimitive))
    case Unbox(h, s, t, _) => Ok(c.h.unbox(Reg(c, s), Reg(c, OpRegister(h)), t))
  }

  /** `visit_cast` as written: it passes `op.typ`, an attribute that `Cast`
      does not have (its type is `op.type`), so every cast fails. */
  function CastCodeAsWritten(c: FuncContext, op: Op): (r: Result<seq<string>>)
    requires op.Cast? && Renderable(c, op)
    ensures r.Fail?
  {
    Fail("'Cast' object has no attribute 'typ'")
  }

  /** `visit_cast` reading the cast's target type, as evidently intended:
      the cast helper receives the source, the destination and the cast's
      own type. */
  function CastCode(c: FuncContext, op: Op): (r: Result<seq<string>>)
    requires op.Cast? && Renderable(c, op)
    ensures r == Ok(c.h.cast(Reg(c, op.src), Reg(c, OpRegister(op.handle)), op.rtype))
  {
    Ok(c.h.cast(Reg(c, op.src), Reg(c, OpRegister(op.handle)), op.rtype))
  }

  /** The rendering of a cast differs between the two: the written code
      never yields any line, while the intended one, which the op rendering
      uses, always yields what the cast helper writes. */
  lemma CastDiscrepancy(c: FuncContext, op: Op, tmp: string)
    requires op.Cast? && Renderable(c, op)
    ensures CastCodeAsWritten(c, op).Fail?
    ensures OpCode(c, op, tmp) == Ok(c.h.cast(Reg(c, op.src), Reg(c, OpRegister(op.handle)), op.rtype))
  {
  }

  /** `visit_load_int`: the constant is stored tagged, as twice its value;
      the written literal reads back as that number, so `21` becomes `42`. */
  lemma LoadIntTagged(c: FuncContext, op: Op, tmp: string)
    requires op.LoadInt? && Renderable(c, op)
    ensures OpCode(c, op, tmp).Ok? && |OpCode(c, op, tmp).value| == 1
    ensures var line, prefix := OpCode(c, op, tmp).value[0], Reg(c, op.dest) + " = ";
      && |line| > |prefix| + 1 && line[..|prefix|] == prefix && line[|line| - 1] == ';'
      && ParseInt(line[|prefix|..|line| - 1]) == Some(2 * op.value)
  {
    var prefix, lit := Reg(c, op.dest) + " = ", IntToString(op.value * 2);
    var line := OpCode(c, op, tmp).value[0];
    assert line == prefix + lit + ";";
    assert line[|prefix|..|line| - 1] == lit;
    ParseIntToString(op.value * 2);
  }

  /** `join` of texts followed by one more item is the join of the longer list. */
  lemma {:induction false} JoinAppend(parts: seq<string>, last: string, sep: string)
    ensures Join(parts + [last], sep) == if parts == [] then last else Join(parts, sep) + sep + last
  {
    if |parts| > 1 {
      assert (parts + [last])[1..] == parts[1..] + [last];
      JoinAppend(parts[1..], last, sep);
    } else if |parts| == 1 {
      assert (parts + [last])[1..] == [last];
    }
  }

  /** The variadic argument text followed by `NULL` is the join of the
      register texts with `NULL` appended (register texts are never empty
      when the register prefix is not). */
  lemma VarArgsNull(x: string, regs: seq<string>)
    requires forall k :: 0 <= k < |regs| ==> |regs[k]| > 0
    ensures x + VarArgs(regs) + "NULL);" == x + Join(regs + ["NULL"], ", ") + ");"
  {
    JoinAppend(regs, "NULL", ", ");
    JoinEmpty(regs, ", ");
    assert VarArgs(regs) + "NULL" == Join(regs + ["NULL"], ", ");
  }

  /** Variadic Python calls always end their argument list with `NULL`:
      the arguments after the callee are exactly the register texts with
      `NULL` appended, joined by `, `, so a separator precedes `NULL` only
      when there are arguments. */
  lemma PyCallNullTerminated(c: FuncContext, op: Op, tmp: string)
    requires op.PyCall? && Renderable(c, op) && c.h.regPrefix != ""
    ensures OpCode(c, op, tmp) == Ok([DestPrefix(c, op.result) + "PyObject_CallFunctionObjArgs(" + Reg(c, op.callee) + ", "
                                      + Join(Regs(c, op.args) + ["NULL"], ", ") + ");"])
  {
    VarArgsNull(DestPrefix(c, op.result) + "PyObject_CallFunctionObjArgs(" + Reg(c, op.callee) + ", ", Regs(c, op.args));
  }

  /** The same for method calls, whose arguments follow the object and the
      method name. */
  lemma PyMethodCallNullTerminated(c: FuncContext, op: Op, tmp: string)
    requires op.PyMethodCall? && Renderable(c, op) && c.h.regPrefix != ""
    ensures OpCode(c, op, tmp) == Ok([DestPrefix(c, op.result) + "PyObject_CallMethodObjArgs(" + Reg(c, op.obj) + ", "
                                      + Reg(c, op.methodReg) + ", " + Join(Regs(c, op.args) + ["NULL"], ", ") + ");"])
  {
    VarArgsNull(DestPrefix(c, op.result) + "PyObject_CallMethodObjArgs(" + Reg(c, op.obj) + ", " + Reg(c, op.methodReg) + ", ",
                Regs(c, op.args));
  }

  /** Only an error value of tuple type reads the temporary name. */
  lemma OpCodeIgnoresTemp(c: FuncContext, op: Op, t1: string, t2: string)
    requires Renderable(c, op) && !op.LoadErrorValue?
    ensures OpCode(c, op, t1) == OpCode(c, op, t2)
  {
  }

  // ------------------------------------------------------ whole functions

  /** One op's lines, or the `KeyError` of a register missing from the
      environment. */
  function OpStep(c: FuncContext, op: Op, tmp: string): Result<seq<string>> {
    if Renderable(c, op) then OpCode(c, op, tmp) else Fail("KeyError")
  }

  /** The temporaries an op takes. */
  function TempsOf(op: Op): nat {
    if UsesTemp(op) then 1 else 0
  }

  /** The temporary counter after rendering `ops` from `counter`. */
  function OpsCounter(ops: seq<Op>, counter: nat): nat {
    if ops == [] then counter else OpsCounter(ops[..|ops| - 1], counter) + TempsOf(ops[|ops| - 1])
  }

  /** The lines of a sequence of ops, each taking the next temporary name. */
  function OpsCode(c: FuncContext, ops: seq<Op>, counter: nat): Result<seq<string>> {
    if ops == [] then Ok([])
    else
      var init := ops[..|ops| - 1];
      var prev :- OpsCode(c, init, counter);
      var last :- OpStep(c, ops[|ops| - 1], c.h.tempName(OpsCounter(init, counter)));
      Ok(prev + last)
  }

  /** A failure in a prefix of the ops is a failure of them all. */
  lemma {:induction false} OpsCodeFailExtends(c: FuncContext, ops: seq<Op>, i: nat, counter: nat)
    requires i <= |ops| && OpsCode(c, ops[..i], counter).Fail?
    ensures OpsCode(c, ops, counter).Fail?
  {
    if i < |ops| {
      var longer := ops[..|ops| - 1];
      assert longer[..i] == ops[..i];
      OpsCodeFailExtends(c, longer, i, counter);
    } else {
      assert ops[..i] == ops;
    }
  }

  /** The lines of each block: its label line, then its ops. */
  function BlocksCode(c: FuncContext, blocks: seq<BasicBlock>, counter: nat): Result<seq<string>> {
    if blocks == [] then Ok([])
    else
      var init := blocks[..|blocks| - 1];
      var last := blocks[|blocks| - 1];
      var prev :- BlocksCode(c, init, counter);
      var code :- OpsCode(c, last.ops, BlocksCounter(init, counter));
      Ok(prev + [c.h.labelLine(last.blockLabel)] + code)
  }

  function BlocksCounter(blocks: seq<BasicBlock>, counter: nat): nat {
    if blocks == [] then counter
    else OpsCounter(blocks[|blocks| - 1].ops, BlocksCounter(blocks[..|blocks| - 1], counter))
  }

  lemma {:induction false} BlocksCodeFailExtends(c: FuncContext, blocks: seq<BasicBlock>, i: nat, counter: nat)
    requires i <= |blocks| && BlocksCode(c, blocks[..i], counter).Fail?
    ensures BlocksCode(c, blocks, counter).Fail?
  {
    if i < |blocks| {
      var longer := blocks[..|blocks| - 1];
      assert longer[..i] == blocks[..i];
      BlocksCodeFailExtends(c, longer, i, counter);
    } else {
      assert blocks[..i] == blocks;
    }
  }

  /** The declaration of the register numbered `i`: its C type, then its
      prefixed name. */
  function LocalDeclaration(env: EnvState, h: Helpers, i: nat): Result<string> {
    var reg := CRegister(i);
    if reg !in env.types || reg !in env.names then Fail("KeyError")
    else Ok(Ctype(env.types[reg]) + " " + h.regPrefix + env.names[reg] + ";")
  }

  /** The declarations of the registers numbered `lo` up to `hi`. */
  function LocalDeclarations(env: EnvState, h: Helpers, lo: nat, hi: nat): Result<seq<string>>
    decreases hi
  {
    if hi <= lo then Ok([])
    else
      var prev :- LocalDeclarations(env, h, lo, hi - 1);
      var line :- LocalDeclaration(env, h, hi - 1);
      Ok(prev + [line])
  }

    /** The local declarations are one line per register numbered from the
      argument count up to the register count, in order: the registers
      before them are the arguments, declared in the header. */
  lemma {:induction false} LocalDeclarationsExactly(env: EnvState, h: Helpers, lo: nat, hi: nat)
    ensures LocalDeclarations(env, h, lo, hi).Ok? <==> forall i :: lo <= i < hi ==> LocalDeclaration(env, h, i).Ok?
    ensures LocalDeclarations(env, h, lo, hi).Ok? ==>
      var lines := LocalDeclarations(env, h, lo, hi).value;
      |lines| == (if hi <= lo then 0 else hi - lo)
      && forall k :: 0 <= k < |lines| ==> lines[k] == LocalDeclaration(env, h, lo + k).value
    decreases hi
  {
    if lo < hi {
      LocalDeclarationsExactly(env, h, lo, hi - 1);
    }
  }

  lemma AppendFive<T>(s: seq<T>, a: seq<T>, b: seq<T>, c: seq<T>, d: seq<T>, e: seq<T>)
    ensures s + a + b + c + d + e == s + (a + b + c + d + e)
  {
  }

  /** `FunctionEmitterVisitor`: writes each op's lines to the body emitter. */
  class FunctionEmitterVisitor {
    const emitter: Emitter
    const declarations: Emitter
    const ctx: FuncContext

    constructor(emitter: Emitter, declarations: Emitter, env: EnvState, h: Helpers, funcName: string, sourcePath: string)
      ensures this.emitter == emitter && this.declarations == declarations
      ensures ctx == FuncContext(env, h, funcName, sourcePath)
    {
      this.emitter := emitter;
      this.declarations := declarations;
      ctx := FuncContext(env, h, funcName, sourcePath);
    }

    /** `op.accept(visitor)`: appends the op's lines and, for an error value
        of tuple type, takes one temporary. */
    method Visit(op: Op) returns (outcome: Outcome)
      modifies emitter, emitter.context`tempCounter
      ensures outcome.Pass? <==> OpStep(ctx, op, ctx.h.tempName(old(emitter.context.tempCounter))).Ok?
      ensures outcome.Pass? ==>
        emitter.lines == old(emitter.lines) + OpStep(ctx, op, ctx.h.tempName(old(emitter.context.tempCounter))).value
        && emitter.context.tempCounter == old(emitter.context.tempCounter) + TempsOf(op)
    {
      if !Renderable(ctx, op) {
        return Failed("KeyError");
      }
      if op.PrimitiveOp? {
        outcome := VisitPrimitiveOp(op);
      } else if op.LoadErrorValue? {
        outcome := VisitLoadErrorValue(op);
      } else {
        OpCodeIgnoresTemp(ctx, op, "", ctx.h.tempName(emitter.context.tempCounter));
        var r := OpCode(ctx, op, "");
        if r.Fail? {
          return Failed(r.msg);
        }
        emitter.EmitLines(r.value);
        outcome := Pass;
      }
    }

    /** `visit_load_error_value`. */
    method VisitLoadErrorValue(op: Op) returns (outcome: Outcome)
      requires op.LoadErrorValue? && Renderable(ctx, op)
      modifies emitter, emitter.context`tempCounter
      ensures outcome.Pass? <==> LoadErrorValueCode(ctx, op, ctx.h.tempName(old(emitter.context.tempCounter))).Ok?
      ensures outcome.Pass? ==>
        emitter.lines == old(emitter.lines) + LoadErrorValueCode(ctx, op, ctx.h.tempName(old(emitter.context.tempCounter))).value
        && emitter.context.tempCounter == old(emitter.context.tempCounter) + TempsOf(op)
    {
      var d := Reg(ctx, OpRegister(op.handle));
      if op.rtype.RTuple? {
        var values := UndefinedValues(op.rtype.types);
        if values.Fail? {
          return Failed(values.msg);
        }
        var tmp := emitter.TempName(ctx.h);
        emitter.EmitLine(Ctype(op.rtype) + " " + tmp + " = { " + Join(values.value, ", ") + " };");
        emitter.EmitLine(d + " = " + tmp + ";");
      } else {
        var ev := CErrorValue(op.rtype);
        if ev.Fail? {
          return Failed(ev.msg);
        }
        emitter.EmitLine(d + " = " + ev.value + ";");
      }
      outcome := Pass;
    }

    /** `visit_primitive_op`. */
    method VisitPrimitiveOp(op: Op) returns (outcome: Outcome)
      requires op.PrimitiveOp? && Renderable(ctx, op)
      modifies emitter
      ensures outcome.Pass? <==> PrimitiveCode(ctx, op).Ok?
      ensures outcome.Pass? ==> emitter.lines == old(emitter.lines) + PrimitiveCode(ctx, op).value
    {
      if op.desc.isVoid {
        return Failed("No is_void ops implemented yet");
      }
      if op.result.None? {
        return Failed("primitive op without a destination");
      }
      var d := Reg(ctx, op.result.value);
      match op.desc.kind {
        case PrimNone =>
          emitter.EmitLines([d + " = Py_None;", "Py_INCREF(" + d + ");"]);
        case PrimTrue =>
          emitter.EmitLine(d + " = 1;");
        case PrimFalse =>
          emitter.EmitLine(d + " = 0;");
        case PrimNewList =>
          EmitNewList(d, op.args);
        case PrimNewTuple =>
          var t := ctx.env.types[op.result.value];
          if !t.RTuple? {
            return Failed("NEW_TUPLE destination is not a tuple");
          }
          EmitFieldAssignments(d, Regs(ctx, op.args));
          emitter.EmitLines(ctx.h.incRef(d, t));
        case PrimNewDict =>
          emitter.EmitLine(d + " = PyDict_New();");
        case OtherPrimitive =>
          return Failed("Unexpected primitive op: " + op.desc.name);
      }
      outcome := Pass;
    }

    /** The `NEW_LIST` lines: allocation, one reference per item, then the
        stores guarded by the allocation's success. */
    method EmitNewList(d: string, args: seq<Register>)
      requires Named(ctx, args)
      modifies emitter
      ensures emitter.lines == old(emitter.lines) + NewListLines(d, Regs(ctx, args))
    {
      var regs := Regs(ctx, args);
      var first := d + " = PyList_New(" + IntToString(|args|) + "); ";
      var guard := "if (" + d + " != NULL) {";
      emitter.EmitLine(first);
      EmitIncRefs(regs);
      emitter.EmitLine(guard);
      EmitSetItems(d, regs);
      emitter.EmitLine("}");
      AppendFive(old(emitter.lines), [first], IncRefLines(regs), [guard], SetItemLines(d, regs), ["}"]);
    }

    method EmitIncRefs(regs: seq<string>)
      modifies emitter
      ensures emitter.lines == old(emitter.lines) + IncRefLines(regs)
    {
      var i := 0;
      while i < |regs|
        invariant 0 <= i <= |regs|
        invariant emitter.lines == old(emitter.lines) + IncRefLines(regs)[..i]
      {
        emitter.EmitLine(IncRefLine(regs[i]));
        NextOfPrefix(old(emitter.lines), IncRefLines(regs), i);
        i := i + 1;
      }
      assert IncRefLines(regs)[..i] == IncRefLines(regs);
    }

    method EmitSetItems(d: string, regs: seq<string>)
      modifies emitter
      ensures emitter.lines == old(emitter.lines) + SetItemLines(d, regs)
    {
      var i := 0;
      while i < |regs|
        invariant 0 <= i <= |regs|
        invariant emitter.lines == old(emitter.lines) + SetItemLines(d, regs)[..i]
      {
        emitter.EmitLine(SetItemLine(d, i, regs[i]));
        NextOfPrefix(old(emitter.lines), SetItemLines(d, regs), i);
        i := i + 1;
      }
      assert SetItemLines(d, regs)[..i] == SetItemLines(d, regs);
    }

    /** The `NEW_TUPLE` field stores, in field order. */
    method EmitFieldAssignments(d: string, regs: seq<string>)
      modifies emitter
      ensures emitter.lines == old(emitter.lines) + TupleFieldAssignments(d, regs)
    {
      var i := 0;
      while i < |regs|
        invariant 0 <= i <= |regs|
        invariant emitter.lines == old(emitter.lines) + TupleFieldAssignments(d, regs)[..i]
      {
        emitter.EmitLine(FieldAssignment(d, i, regs[i]));
        NextOfPrefix(old(emitter.lines), TupleFieldAssignments(d, regs), i);
        i := i + 1;
      }
      assert TupleFieldAssignments(d, regs)[..i] == TupleFieldAssignments(d, regs);
    }
  }

  /** The ops of one block, visited in order. */
  method EmitOps(visitor: FunctionEmitterVisitor, ops: seq<Op>) returns (outcome: Outcome)
    modifies visitor.emitter, visitor.emitter.context`tempCounter
    ensures outcome.Pass? <==> OpsCode(visitor.ctx, ops, old(visitor.emitter.context.tempCounter)).Ok?
    ensures outcome.Pass? ==>
      visitor.emitter.lines == old(visitor.emitter.lines) + OpsCode(visitor.ctx, ops, old(visitor.emitter.context.tempCounter)).value
      && visitor.emitter.context.tempCounter == OpsCounter(ops, old(visitor.emitter.context.tempCounter))
  {
    var counter := visitor.emitter.context.tempCounter;
    var i := 0;
    while i < |ops|
      invariant 0 <= i <= |ops|
      invariant OpsCode(visitor.ctx, ops[..i], counter).Ok?
      invariant visitor.emitter.lines == old(visitor.emitter.lines) + OpsCode(visitor.ctx, ops[..i], counter).value
      invariant visitor.emitter.context.tempCounter == OpsCounter(ops[..i], counter)
    {
      assert ops[..i + 1] == ops[..i] + [ops[i]];
      outcome := EmitOpAt(visitor, ops[..i], ops[i], old(visitor.emitter.lines), counter);
      if outcome.Failed? {
        OpsCodeFailExtends(visitor.ctx, ops, i + 1, counter);
        return;
      }
      i := i + 1;
    }
    assert ops[..i] == ops;
    outcome := Pass;
  }

  /** One step of `EmitOps`: the op after `prefix` extends the lines and
      the counter of the prefix, or fails. */
  method EmitOpAt(visitor: FunctionEmitterVisitor, prefix: seq<Op>, op: Op, ghost start: seq<string>, ghost counter: nat)
    returns (outcome: Outcome)
    requires OpsCode(visitor.ctx, prefix, counter).Ok?
    requires visitor.emitter.lines == start + OpsCode(visitor.ctx, prefix, counter).value
    requires visitor.emitter.context.tempCounter == OpsCounter(prefix, counter)
    modifies visitor.emitter, visitor.emitter.context`tempCounter
    ensures outcome.Failed? ==> OpsCode(visitor.ctx, prefix + [op], counter).Fail?
    ensures outcome.Pass? ==>
      && OpsCode(visitor.ctx, prefix + [op], counter).Ok?
      && visitor.emitter.lines == start + OpsCode(visitor.ctx, prefix + [op], counter).value
      && visitor.emitter.context.tempCounter == OpsCounter(prefix + [op], counter)
  {
    OpsCounterSnoc(prefix, op, counter);
    ghost var before := visitor.emitter.lines;
    outcome := visitor.Visit(op);
    if outcome.Pass? {
      OpsCodeExtends(visitor.ctx, prefix, op, counter, start, before, visitor.emitter.lines);
    } else {
      OpsCodeFailsAt(visitor.ctx, prefix, op, counter);
    }
  }

  /** The counter after `prefix` and one more op. */
  lemma OpsCounterSnoc(prefix: seq<Op>, op: Op, counter: nat)
    ensures OpsCounter(prefix + [op], counter) == OpsCounter(prefix, counter) + TempsOf(op)
  {
    var ops := prefix + [op];
    assert ops[..|ops| - 1] == prefix;
  }

  /** An op whose code renders after a prefix that renders extends the
      prefix's code by its own. */
  lemma OpsCodeExtends(c: FuncContext, prefix: seq<Op>, op: Op, counter: nat, start: seq<string>,
                       before: seq<string>, after: seq<string>)
    requires OpsCode(c, prefix, counter).Ok? && before == start + OpsCode(c, prefix, counter).value
    requires OpStep(c, op, c.h.tempName(OpsCounter(prefix, counter))).Ok?
    requires after == before + OpStep(c, op, c.h.tempName(OpsCounter(prefix, counter))).value
    ensures OpsCode(c, prefix + [op], counter).Ok?
    ensures after == start + OpsCode(c, prefix + [op], counter).value
  {
    OpsCodeSnocOk(c, prefix, op, counter);
    AppendAssoc(start, OpsCode(c, prefix, counter).value, OpStep(c, op, c.h.tempName(OpsCounter(prefix, counter))).value);
  }

  /** The code of a prefix that renders and one more op that renders. */
  lemma OpsCodeSnocOk(c: FuncContext, prefix: seq<Op>, op: Op, counter: nat)
    requires OpsCode(c, prefix, counter).Ok?
    requires OpStep(c, op, c.h.tempName(OpsCounter(prefix, counter))).Ok?
    ensures OpsCode(c, prefix + [op], counter)
      == Ok(OpsCode(c, prefix, counter).value + OpStep(c, op, c.h.tempName(OpsCounter(prefix, counter))).value)
  {
    var ops := prefix + [op];
    assert ops[..|ops| - 1] == prefix;
  }

  /** An op whose code fails after a prefix that renders makes the
      extended sequence fail. */
  lemma OpsCodeFailsAt(c: FuncContext, prefix: seq<Op>, op: Op, counter: nat)
    requires OpsCode(c, prefix, counter).Ok?
    requires OpStep(c, op, c.h.tempName(OpsCounter(prefix, counter))).Fail?
    ensures OpsCode(c, prefix + [op], counter).Fail?
  {
    var ops := prefix + [op];
    assert ops[..|ops| - 1] == prefix;
  }

  /** The local declarations, one per register from the first index after
      the arguments up to the register count. */
  method EmitLocalDeclarations(env: EnvState, h: Helpers, lo: nat, target: Emitter) returns (outcome: Outcome)
    modifies target
    ensures outcome.Pass? <==> LocalDeclarations(env, h, lo, |env.regs|).Ok?
    ensures outcome.Pass? ==> target.lines == old(target.lines) + LocalDeclarations(env, h, lo, |env.regs|).value
  {
    var i := lo;
    while i < |env.regs|
      invariant lo <= i && (i <= |env.regs| || i == lo)
      invariant LocalDeclarations(env, h, lo, i).Ok?
      invariant target.lines == old(target.lines) + LocalDeclarations(env, h, lo, i).value
    {
      var reg := CRegister(i);
      if reg !in env.types || reg !in env.names {
        assert LocalDeclaration(env, h, i).Fail?;
        LocalDeclarationsExactly(env, h, lo, |env.regs|);
        return Failed("KeyError");
      }
      target.EmitLine(Ctype(env.types[reg]) + " " + h.regPrefix + env.names[reg] + ";");
      i := i + 1;
    }
    outcome := Pass;
  }

  /** Each block's label line, then its ops. */
  method EmitBlocks(visitor: FunctionEmitterVisitor, blocks: seq<BasicBlock>) returns (outcome: Outcome)
    modifies visitor.emitter, visitor.emitter.context`tempCounter
    ensures outcome.Pass? <==> BlocksCode(visitor.ctx, blocks, old(visitor.emitter.context.tempCounter)).Ok?
    ensures outcome.Pass? ==>
      visitor.emitter.lines == old(visitor.emitter.lines) + BlocksCode(visitor.ctx, blocks, old(visitor.emitter.context.tempCounter)).value
      && visitor.emitter.context.tempCounter == BlocksCounter(blocks, old(visitor.emitter.context.tempCounter))
  {
    var counter := visitor.emitter.context.tempCounter;
    var j := 0;
    while j < |blocks|
      invariant 0 <= j <= |blocks|
      invariant BlocksCode(visitor.ctx, blocks[..j], counter).Ok?
      invariant visitor.emitter.lines == old(visitor.emitter.lines) + BlocksCode(visitor.ctx, blocks[..j], counter).value
      invariant visitor.emitter.context.tempCounter == BlocksCounter(blocks[..j], counter)
    {
      assert blocks[..j + 1] == blocks[..j] + [blocks[j]];
      outcome := EmitBlockAt(visitor, blocks[..j], blocks[j], old(visitor.emitter.lines), counter);
      if outcome.Failed? {
        BlocksCodeFailExtends(visitor.ctx, blocks, j + 1, counter);
        return;
      }
      j := j + 1;
    }
    assert blocks[..j] == blocks;
    outcome := Pass;
  }

  /** One step of `EmitBlocks`: the label line and the ops of the block
      after `prefix`. */
  method EmitBlockAt(visitor: FunctionEmitterVisitor, prefix: seq<BasicBlock>, block: BasicBlock,
                     ghost start: seq<string>, ghost counter: nat)
    returns (outcome: Outcome)
    requires BlocksCode(visitor.ctx, prefix, counter).Ok?
    requires visitor.emitter.lines == start + BlocksCode(visitor.ctx, prefix, counter).value
    requires visitor.emitter.context.tempCounter == BlocksCounter(prefix, counter)
    modifies visitor.emitter, visitor.emitter.context`tempCounter
    ensures outcome.Failed? ==> BlocksCode(visitor.ctx, prefix + [block], counter).Fail?
    ensures outcome.Pass? ==>
      && BlocksCode(visitor.ctx, prefix + [block], counter).Ok?
      && visitor.emitter.lines == start + BlocksCode(visitor.ctx, prefix + [block], counter).value
      && visitor.emitter.context.tempCounter == BlocksCounter(prefix + [block], counter)
  {
    BlocksCounterSnoc(prefix, block, counter);
    var labelText := visitor.ctx.h.labelLine(block.blockLabel);
    visitor.emitter.EmitLine(labelText);
    ghost var before := visitor.emitter.lines;
    outcome := EmitOps(visitor, block.ops);
    if outcome.Pass? {
      BlocksCodeExtends(visitor.ctx, prefix, block, counter, start, before, visitor.emitter.lines);
    } else {
      BlocksCodeFailsAt(visitor.ctx, prefix, block, counter);
    }
  }

  /** The counter after `prefix` and one more block. */
  lemma BlocksCounterSnoc(prefix: seq<BasicBlock>, block: BasicBlock, counter: nat)
    ensures BlocksCounter(prefix + [block], counter) == OpsCounter(block.ops, BlocksCounter(prefix, counter))
  {
    var blocks := prefix + [block];
    assert blocks[..|blocks| - 1] == prefix;
  }

  /** A block whose ops render after a prefix that renders extends the
      prefix's code by its label line and its ops' code. */
  lemma BlocksCodeExtends(c: FuncContext, prefix: seq<BasicBlock>, block: BasicBlock, counter: nat,
                          start: seq<string>, before: seq<string>, after: seq<string>)
    requires BlocksCode(c, prefix, counter).Ok?
    requires before == start + BlocksCode(c, prefix, counter).value + [c.h.labelLine(block.blockLabel)]
    requires OpsCode(c, block.ops, BlocksCounter(prefix, counter)).Ok?
    requires after == before + OpsCode(c, block.ops, BlocksCounter(prefix, counter)).value
    ensures BlocksCode(c, prefix + [block], counter).Ok?
    ensures after == start + BlocksCode(c, prefix + [block], counter).value
  {
    var blocks := prefix + [block];
    assert blocks[..|blocks| - 1] == prefix;
    var prev := BlocksCode(c, prefix, counter).value;
    var code := OpsCode(c, block.ops, BlocksCounter(prefix, counter)).value;
    var header := [c.h.labelLine(block.blockLabel)];
    AppendAssoc(start, prev, header);
    AppendAssoc(start, prev + header, code);
  }

  /** A block whose ops fail after a prefix that renders makes the
      extended sequence fail. */
  lemma BlocksCodeFailsAt(c: FuncContext, prefix: seq<BasicBlock>, block: BasicBlock, counter: nat)
    requires BlocksCode(c, prefix, counter).Ok?
    requires OpsCode(c, block.ops, BlocksCounter(prefix, counter)).Fail?
    ensures BlocksCode(c, prefix + [block], counter).Fail?
  {
    var blocks := prefix + [block];
    assert blocks[..|blocks| - 1] == prefix;
  }

  /** What `generate_native_function` writes from the given temporary
      counter, and the counter it leaves. */
  function NativeFunctionText(fn: FuncIR, h: Helpers, sourcePath: string, counter: nat): Result<(seq<string>, nat)> {
    var decls :- LocalDeclarations(fn.env, h, |fn.args|, |fn.env.regs|);
    var code :- BlocksCode(FuncContext(fn.env, h, fn.name, sourcePath), fn.blocks, counter);
    Ok((([NativeFunctionHeader(fn, h) + " {"] + decls) + (code + ["}"]), BlocksCounter(fn.blocks, counter)))
  }

  /** `generate_native_function`: the header and local declarations go to
      one buffer and the labelled blocks to another, and the target emitter
      receives the declarations first, then the body and the closing brace.
      When a register is missing or an op cannot be rendered, the target
      receives nothing. */
  method GenerateNativeFunction(fn: FuncIR, emitter: Emitter, sourcePath: string, h: Helpers) returns (outcome: Outcome)
    modifies emitter, emitter.context`tempCounter
    ensures var t := NativeFunctionText(fn, h, sourcePath, old(emitter.context.tempCounter));
      && (outcome.Pass? <==> t.Ok?)
      && (outcome.Pass? ==> emitter.lines == old(emitter.lines) + t.value.0 && emitter.context.tempCounter == t.value.1)
    ensures outcome.Failed? ==> emitter.lines == old(emitter.lines)
  {
    ghost var start := emitter.lines;
    ghost var decls := LocalDeclarations(fn.env, h, |fn.args|, |fn.env.regs|);
    ghost var code := BlocksCode(FuncContext(fn.env, h, fn.name, sourcePath), fn.blocks, emitter.context.tempCounter);
    var declarations := new Emitter(emitter.context);
    var body := new Emitter(emitter.context);
    var visitor := new FunctionEmitterVisitor(body, declarations, fn.env, h, fn.name, sourcePath);
    var header := NativeFunctionHeader(fn, h) + " {";
    declarations.EmitLine(header);
    assert declarations.lines == [header];
    outcome := EmitLocalDeclarations(fn.env, h, |fn.args|, declarations);
    if outcome.Failed? {
      return;
    }
    ghost var declLines := declarations.lines;
    assert declLines == [header] + decls.value;
    outcome := EmitBlocks(visitor, fn.blocks);
    if outcome.Failed? {
      return;
    }
    assert body.lines == [] + code.value;
    assert [] + code.value == code.value;
    body.EmitLine("}");
    ghost var bodyLines := body.lines;
    assert bodyLines == code.value + ["}"];
    emitter.EmitFrom(declarations);
    assert emitter.lines == start + declLines;
    emitter.EmitFrom(body);
    assert emitter.lines == start + declLines + bodyLines;
  }

}
