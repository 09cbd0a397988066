/** The IR containers (mypyc/ops.py): basic blocks, functions, classes and
    modules, the one-line text of each op, and the textual listing of a
    function's blocks. */
module IR {
  import opened Wrappers
  import opened Strings
  import opened RTypes
  import opened Ops
  import opened Environment

  datatype BasicBlock = BasicBlock(blockLabel: Label, ops: seq<Op>)

  datatype RuntimeArg = RuntimeArg(name: string, rtype: RType)

  datatype FuncIR = FuncIR(
    name: string,
    className: Option<string>,
    args: seq<RuntimeArg>,
    retType: RType,
    blocks: seq<BasicBlock>,
    env: EnvState)

  /** `FuncIR.cname`: a method's C name is prefixed with its class name and
      three underscores; a function outside a class (no class name, or an
      empty one) keeps its own name. */
  function CName(f: FuncIR): (r: string)
    ensures |r| >= |f.name| && r[|r| - |f.name|..] == f.name
    ensures f.className.None? || f.className.value == "" ==> r == f.name
    ensures f.className.Some? && f.className.value != "" ==>
      |r| == |f.className.value| + 3 + |f.name| && r[..|f.className.value|] == f.className.value
      && r[|f.className.value|..|f.className.value| + 3] == "___"
  {
    match f.className
    case Some(c) =>
      if c == "" then f.name
      else
        var r := c + "___" + f.name;
        assert r[|r| - |f.name|..] == f.name;
        assert r[..|c|] == c;
        assert r[|c|..|c| + 3] == "___";
        r
    case None => f.name
  }

  /** Names are not escaped: a top-level function named `b___c` and the
      method `c` of class `b` receive the same C name. */
  lemma CNameCollision(env: EnvState, t: RType)
    ensures CName(FuncIR("b___c", None, [], t, [], env)) == CName(FuncIR("c", Some("b"), [], t, [], env))
  {
  }

  datatype ClassIR = ClassIR(name: string, attributes: seq<Attribute>, methods: seq<FuncIR>)

  /** `ClassIR.struct_name`. */
  function ClassStructName(c: ClassIR): string {
    InstanceStructName(Layout(c))
  }

  /** `type_struct_name` and `ClassIR.type_struct`. */
  function TypeStructName(className: string): string {
    className + "Type"
  }

  function MethodNames(methods: seq<FuncIR>): (r: seq<string>)
    ensures |r| == |methods| && forall k :: 0 <= k < |methods| ==> r[k] == methods[k].name
  {
    if methods == [] then [] else [methods[0].name] + MethodNames(methods[1..])
  }

  /** The part of a class that its `RInstance` type reads. */
  function Layout(c: ClassIR): ClassLayout {
    ClassLayout(c.name, c.attributes, MethodNames(c.methods))
  }

  /** The first of `methods` with the given name, if any. */
  function FindMethod(methods: seq<FuncIR>, name: string): (r: Option<FuncIR>)
    ensures r.None? <==> forall k :: 0 <= k < |methods| ==> methods[k].name != name
    ensures r.Some? ==> r.value in methods && r.value.name == name
  {
    if methods == [] then None
    else if methods[0].name == name then Some(methods[0])
    else FindMethod(methods[1..], name)
  }

  /** `ClassIR.get_method`. */
  function GetMethod(c: ClassIR, name: string): (r: Option<FuncIR>)
    ensures r.None? <==> forall k :: 0 <= k < |c.methods| ==> c.methods[k].name != name
    ensures r.Some? ==> r.value in c.methods && r.value.name == name
  {
    FindMethod(c.methods, name)
  }

  /** The search returns the earliest method of that name. */
  lemma {:induction false} FindMethodFirst(methods: seq<FuncIR>, name: string, k: nat)
    requires k < |methods| && methods[k].name == name
    requires forall j :: 0 <= j < k ==> methods[j].name != name
    ensures FindMethod(methods, name) == Some(methods[k])
  {
    if k > 0 {
      FindMethodFirst(methods[1..], name, k - 1);
    }
  }

  /** `get_method` and the method slot of the instance type agree: a class
      has a method exactly when the method has a slot, and the slot holds
      the method `get_method` returns. */
  lemma GetMethodMatchesSlot(c: ClassIR, name: string)
    ensures GetMethod(c, name).Some? <==> MethodIndex(Layout(c), name).Ok?
    ensures GetMethod(c, name).Some? ==>
      c.methods[MethodIndex(Layout(c), name).value - 2 * |c.attributes|] == GetMethod(c, name).value
  {
    var names := MethodNames(c.methods);
    if name in names {
      var slot := MethodIndex(Layout(c), name).value - 2 * |c.attributes|;
      FindMethodFirst(c.methods, name, slot);
    } else {
      assert forall k :: 0 <= k < |c.methods| ==> c.methods[k].name != name by {
        forall k | 0 <= k < |c.methods|
          ensures c.methods[k].name != name
        {
          assert names[k] == c.methods[k].name;
        }
      }
    }
  }

  /** A module-level literal, keyed by its value. `OtherLiteral` stands for
      a value that is not an instance of `int`, `float` or `str`, named by
      its type; a `bool` is an instance of `int` and is not one of them. */
  datatype Literal = IntLiteral(i: int) | FloatLiteral(text: string) | StrLiteral(s: string) | OtherLiteral(typeName: string)

  datatype ModuleIR = ModuleIR(
    imports: seq<string>,
    literals: seq<(Literal, string)>,
    functions: seq<FuncIR>,
    classes: seq<ClassIR>)

  /** `ModuleIR.__init__`: the given imports are kept in order, and
      `builtins` is inserted at the front when it is not among them. */
  function NewModuleIR(imports: seq<string>, literals: seq<(Literal, string)>,
                       functions: seq<FuncIR>, classes: seq<ClassIR>): (m: ModuleIR)
    ensures "builtins" in m.imports
    ensures |m.imports| == |imports| + (if "builtins" in imports then 0 else 1)
    ensures m.imports[|m.imports| - |imports|..] == imports
    ensures "builtins" !in imports ==> m.imports[0] == "builtins"
    ensures m.literals == literals && m.functions == functions && m.classes == classes
  {
    var imps := if "builtins" !in imports then ["builtins"] + imports else imports;
    assert imps[|imps| - |imports|..] == imports;
    ModuleIR(imps, literals, functions, classes)
  }

  /** Normalising the imports a second time changes nothing. */
  lemma NewModuleIRIdempotent(imports: seq<string>, literals: seq<(Literal, string)>,
                              functions: seq<FuncIR>, classes: seq<ClassIR>)
    ensures var m := NewModuleIR(imports, literals, functions, classes);
      NewModuleIR(m.imports, m.literals, m.functions, m.classes) == m
  {
    var m := NewModuleIR(imports, literals, functions, classes);
    assert "builtins" in m.imports;
  }

  /** `desc.format_str.format(dest=..., args=..., comma_args=...)` for a
      primitive op: the format string, the destination text if any, and the
      argument texts. */
  type PrimitiveFormatter = (string, Option<string>, seq<string>) -> string

  /** `env.format('%r', reg)` for each register. */
  function RegTexts(names: map<Register, string>, regs: seq<Register>): (r: Result<seq<string>>)
    ensures r.Ok? <==> forall k :: 0 <= k < |regs| ==> regs[k] in names
    ensures r.Ok? ==> |r.value| == |regs| && forall k :: 0 <= k < |regs| ==> r.value[k] == names[regs[k]]
  {
    if regs == [] then Ok([])
    else
      var first :- FormatSpec(names, "%r", [RegArg(regs[0])]);
      var rest :- RegTexts(names, regs[1..]);
      Ok([first] + rest)
  }

  /** `env.format('%r = ', dest)` in front of a call with an optional destination. */
  function WithDest(names: map<Register, string>, dest: Option<Register>, s: string): Result<string> {
    match dest
    case None => Ok(s)
    case Some(d) =>
      var prefix :- FormatSpec(names, "%r = ", [RegArg(d)]);
      Ok(prefix + s)
  }

  function BinaryOpSymbol(k: BranchKind): string
    requires IsIntComparison(k)
  {
    match k
    case IntEq => "=="
    case IntNe => "!="
    case IntLt => "<"
    case IntLe => "<="
    case IntGt => ">"
    case IntGe => ">="
  }

  /** The condition format of a branch and the type shown after it. */
  function BranchFormat(k: BranchKind, negated: bool): (string, string) {
    if IsIntComparison(k) then
      ((if negated then "not " else "") + "%r" + (" " + BinaryOpSymbol(k) + " ") + "%r", "int")
    else
      var (fmt, typ) := match k
        case BoolExpr => ("%r", "bool")
        case IsNone => ("%r is None", "object")
        case _ => ("is_error(%r)", "");
      ((if negated then "not " + fmt else fmt), typ)
  }

  /** `' (error at %s:%d)' % traceback_entry`, or nothing. */
  function TracebackText(tb: Option<TracebackEntry>): string {
    match tb
    case Some(e) => " (error at " + e.funcName + ":" + IntToString(e.line) + ")"
    case None => ""
  }

  /** `ref ... :: int` suffix shared by `inc_ref` and `dec_ref`. */
  function RefSuffix(t: RType): string {
    if IsBoolRPrimitive(t) || IsIntRPrimitive(t) then " :: " + ShortName(t.name) else ""
  }

  function TypeSuffix(typ: string): string {
    if typ != "" then " :: " + typ else ""
  }

  /** `Branch.to_str`: the condition is formatted first, and its text is
      then part of the second format string, with the two labels. */
  function BranchText(b: Op, names: map<Register, string>): Result<string>
    requires b.Branch?
  {
    var (fmt, typ) := BranchFormat(b.kind, b.negated);
    var cond :- FormatSpec(names, fmt, [RegArg(b.left), RegArg(b.right)]);
    var full := "if " + cond + " goto " + "%l" + (TracebackText(b.traceback) + " else goto ") + "%l" + TypeSuffix(typ);
    FormatSpec(names, full, [IntArg(b.trueLabel), IntArg(b.falseLabel)])
  }

  /** `Op.to_str`: the one-line text of each op. */
  function OpText(op: Op, names: map<Register, string>, primFormat: PrimitiveFormatter): Result<string> {
    match op
    case Goto(l, _) => FormatSpec(names, "goto %l", [IntArg(l)])
    case Branch(_, _, _, _, _, _, _, _) => BranchText(op, names)
    case Return(reg, _) => FormatSpec(names, "return %r", [RegArg(reg)])
    case Unreachable(_) => Ok("unreachable")
    case IncRef(d, t, _) =>
      var s :- FormatSpec(names, "inc_ref %r", [RegArg(d)]);
      Ok(s + RefSuffix(t))
    case DecRef(d, t, _) =>
      var s :- FormatSpec(names, "dec_ref %r", [RegArg(d)]);
      Ok(s + RefSuffix(t))
    case Call(dest, fn, args, _) =>
      var texts :- RegTexts(names, args);
      WithDest(names, dest, fn + "(" + Join(texts, ", ") + ")")
    case MethodCall(dest, obj, m, args, _, _) =>
      var texts :- RegTexts(names, args);
      var s :- FormatSpec(names, "%r.%s(%s)", [RegArg(obj), StrArg(m), StrArg(Join(texts, ", "))]);
      WithDest(names, dest, s)
    case PyCall(dest, callee, args, _) =>
      var texts :- RegTexts(names, args);
      var s :- FormatSpec(names, "%r(%s)", [RegArg(callee), StrArg(Join(texts, ", "))]);
      var full :- WithDest(names, dest, s);
      Ok(full + " :: py")
    case PyMethodCall(dest, obj, m, args, _) =>
      var texts :- RegTexts(names, args);
      var s :- FormatSpec(names, "%r.%r(%s)", [RegArg(obj), RegArg(m), StrArg(Join(texts, ", "))]);
      var full :- WithDest(names, dest, s);
      Ok(full + " :: py")
    case PyGetAttr(h, _, left, attr, _) =>
      FormatSpec(names, "%r = %r.%s", [RegArg(OpRegister(h)), RegArg(left), StrArg(attr)])
    case PrimitiveOp(dest, args, desc, _) =>
      var destText :- if dest.Some? && dest.value != InvalidRegister then
          var d :- FormatSpec(names, "%r", [RegArg(dest.value)]);
          Ok(Some(d))
        else Ok(None);
      var texts :- RegTexts(names, args);
      Ok(primFormat(desc.formatStr, destText, texts))
    case Assign(d, src, _) => FormatSpec(names, "%r = %r", [RegArg(d), RegArg(src)])
    case LoadInt(d, v, _) => FormatSpec(names, "%r = %d", [RegArg(d), IntArg(v)])
    case LoadErrorValue(h, t, _) =>
      FormatSpec(names, "%r = <error> :: %s", [RegArg(OpRegister(h)), TypeArg(t)])
    case GetAttr(h, obj, attr, _, _) =>
      FormatSpec(names, "%r = %r.%s", [RegArg(OpRegister(h)), RegArg(obj), StrArg(attr)])
    case SetAttr(h, obj, attr, src, _, _) =>
      FormatSpec(names, "%r.%s = %r; %r = is_error", [RegArg(obj), StrArg(attr), RegArg(src), RegArg(OpRegister(h))])
    case LoadStatic(h, _, ident, _) =>
      FormatSpec(names, "%r = %s :: static", [RegArg(OpRegister(h)), StrArg(ident)])
    case TupleSet(h, items, _, _) =>
      var texts :- RegTexts(names, items);
      FormatSpec(names, "%r = (%s)", [RegArg(OpRegister(h)), StrArg(Join(texts, ", "))])
    case TupleGet(h, src, index, _, _) =>
      FormatSpec(names, "%r = %r[%d]", [RegArg(OpRegister(h)), RegArg(src), IntArg(index)])
    case Cast(h, src, t, _) =>
      FormatSpec(names, "%r = cast(%s, %r)", [RegArg(OpRegister(h)), TypeArg(t), RegArg(src)])
    case Box(h, src, t, _) =>
      FormatSpec(names, "%r = box(%s, %r)", [RegArg(OpRegister(h)), TypeArg(t), RegArg(src)])
    case Unbox(h, src, t, _) =>
      FormatSpec(names, "%r = unbox(%s, %r)", [RegArg(OpRegister(h)), TypeArg(t), RegArg(src)])
  }

  /** A jump renders as `goto L<n>`. */
  lemma GotoText(names: map<Register, string>, l: Label, line: int, pf: PrimitiveFormatter)
    ensures OpText(Goto(l, line), names, pf) == Ok("goto L" + IntToString(l))
  {
    GotoFormat(names, l);
  }

  lemma GotoFormat(names: map<Register, string>, l: Label)
    ensures FormatSpec(names, "goto %l", [IntArg(l)]) == Ok("goto L" + IntToString(l))
  {
    assert "goto %l" == "goto " + (['%', 'l'] + "");
    FormatAround(names, "goto ", 'l', "", IntArg(l));
    var n := IntToString(l);
    assert "goto " + ("L" + n + "") == "goto L" + n;
  }

  /** An integer load shows the source value, not its tagged encoding. */
  lemma LoadIntText(names: map<Register, string>, d: Register, v: int, line: int, pf: PrimitiveFormatter)
    requires d in names
    ensures OpText(LoadInt(d, v, line), names, pf) == Ok(names[d] + " = " + IntToString(v))
  {
    LoadIntFormat(names, d, v);
  }

  lemma LoadIntFormat(names: map<Register, string>, d: Register, v: int)
    requires d in names
    ensures FormatSpec(names, "%r = %d", [RegArg(d), IntArg(v)]) == Ok(names[d] + " = " + IntToString(v))
  {
    assert "%r = %d" == "" + (['%', 'r'] + (" = " + (['%', 'd'] + "")));
    FormatBetween(names, "", 'r', " = ", 'd', "", RegArg(d), IntArg(v));
    var n := IntToString(v);
    assert "" + (names[d] + (" = " + (n + ""))) == names[d] + " = " + n;
  }

  /** The condition of an integer comparison branch, `[not ]x op y`. */
  function IntConditionText(b: Op, names: map<Register, string>): string
    requires b.Branch? && IsIntComparison(b.kind) && b.left in names && b.right in names
  {
    (if b.negated then "not " else "") + names[b.left] + (" " + BinaryOpSymbol(b.kind) + " ") + names[b.right]
  }

  lemma IntConditionFormat(b: Op, names: map<Register, string>)
    requires b.Branch? && IsIntComparison(b.kind) && b.left in names && b.right in names
    ensures FormatSpec(names, BranchFormat(b.kind, b.negated).0, [RegArg(b.left), RegArg(b.right)])
      == Ok(IntConditionText(b, names))
    ensures '%' !in names[b.left] && '%' !in names[b.right] ==> '%' !in IntConditionText(b, names)
    ensures BranchFormat(b.kind, b.negated).1 == "int"
  {
    var p := if b.negated then "not " else "";
    var sym := BinaryOpSymbol(b.kind);
    var nl, nr := names[b.left], names[b.right];
    var mid := " " + sym + " ";
    assert BranchFormat(b.kind, b.negated).0 + "" == BranchFormat(b.kind, b.negated).0;
    ConcatAssoc5(p, "%r", mid, "%r", "");
    FormatBetween(names, p, 'r', mid, 'r', "", RegArg(b.left), RegArg(b.right));
    ConcatAssoc5(p, nl, mid, nr, "");
    assert p + nl + mid + nr + "" == p + nl + mid + nr;
  }

  /** Whatever its kind, a branch reads `if <condition> goto Lt else goto Lf`,
      with the error location before `else` when the branch records one and
      the operand type at the end. The condition's text and the location are
      free of `%`, as they are part of the second format string. */
  lemma BranchTextFromCondition(b: Op, names: map<Register, string>, cond: string)
    requires b.Branch?
    requires FormatSpec(names, BranchFormat(b.kind, b.negated).0, [RegArg(b.left), RegArg(b.right)]) == Ok(cond)
    requires '%' !in cond && '%' !in TracebackText(b.traceback) && '%' !in BranchFormat(b.kind, b.negated).1
    ensures BranchText(b, names) == Ok("if " + cond + " goto " + "L" + IntToString(b.trueLabel)
      + (TracebackText(b.traceback) + " else goto ") + "L" + IntToString(b.falseLabel)
      + TypeSuffix(BranchFormat(b.kind, b.negated).1))
  {
    var mid := TracebackText(b.traceback) + " else goto ";
    var suffix := TypeSuffix(BranchFormat(b.kind, b.negated).1);
    var pre := "if " + cond + " goto ";
    assert '%' !in pre;
    ConcatAssoc5(pre, "%l", mid, "%l", suffix);
    FormatBetween(names, pre, 'l', mid, 'l', suffix, IntArg(b.trueLabel), IntArg(b.falseLabel));
    var lt, lf := "L" + IntToString(b.trueLabel), "L" + IntToString(b.falseLabel);
    ConcatAssoc5(pre, lt, mid, lf, suffix);
    AppendAssoc(pre, "L", IntToString(b.trueLabel));
    AppendAssoc(pre + lt + mid, "L", IntToString(b.falseLabel));
  }

  /** An integer comparison branch reads `if [not ]x op y goto Lt else goto Lf :: int`. */
  lemma BranchIntText(b: Op, names: map<Register, string>, pf: PrimitiveFormatter)
    requires b.Branch? && IsIntComparison(b.kind)
    requires b.left in names && b.right in names
    requires '%' !in names[b.left] && '%' !in names[b.right] && '%' !in TracebackText(b.traceback)
    ensures OpText(b, names, pf) == Ok("if " + IntConditionText(b, names) + " goto " + "L" + IntToString(b.trueLabel)
      + (TracebackText(b.traceback) + " else goto ") + "L" + IntToString(b.falseLabel) + " :: int")
  {
    IntConditionFormat(b, names);
    BranchTextFromCondition(b, names, IntConditionText(b, names));
    assert TypeSuffix("int") == " :: int";
  }

  /** Puts lines in front of a successful result. */
  function PrependLines(p: seq<string>, r: Result<seq<string>>): Result<seq<string>> {
    match r
    case Ok(s) => Ok(p + s)
    case Fail(_) => r
  }

  lemma PrependLinesNil(r: Result<seq<string>>)
    ensures PrependLines([], r) == r
  {
    if r.Ok? {
      assert [] + r.value == r.value;
    }
  }

  lemma PrependLinesTwice(a: seq<string>, b: seq<string>, r: Result<seq<string>>)
    ensures PrependLines(a, PrependLines(b, r)) == PrependLines(a + b, r)
  {
    if r.Ok? {
      assert a + (b + r.value) == (a + b) + r.value;
    }
  }

  /** `'    ' + op.to_str(env)` for each op, in order. */
  function OpLines(ops: seq<Op>, names: map<Register, string>, pf: PrimitiveFormatter): (r: Result<seq<string>>)
    ensures r.Ok? ==> |r.value| == |ops|
  {
    if ops == [] then Ok([])
    else
      var first :- OpText(ops[0], names, pf);
      PrependLines(["    " + first], OpLines(ops[1..], names, pf))
  }

  /** Whether block `i`'s final jump is hidden because it would only go to
      the next block. */
  predicate HidesLastGoto(blocks: seq<BasicBlock>, i: nat)
    requires i < |blocks| && blocks[i].ops != []
  {
    var last := blocks[i].ops[|blocks[i].ops| - 1];
    last.Goto? && i + 1 < |blocks| && last.target == blocks[i + 1].blockLabel
  }

  /** The listing of block `i`: its label line, its ops, and a marker when
      it does not end in a jump, branch, return or unreachable. A block
      without ops is an error. */
  function BlockText(blocks: seq<BasicBlock>, i: nat, names: map<Register, string>, pf: PrimitiveFormatter): Result<seq<string>>
    requires i < |blocks|
  {
    var head :- FormatSpec(names, "%l:", [IntArg(blocks[i].blockLabel)]);
    var allOps := blocks[i].ops;
    if allOps == [] then Fail("list index out of range")
    else
      var shown := if HidesLastGoto(blocks, i) then allOps[..|allOps| - 1] else allOps;
      var body :- OpLines(shown, names, pf);
      Ok([head] + body + (if IsExitOp(allOps[|allOps| - 1]) then [] else ["    [MISSING BLOCK EXIT OPCODE]"]))
  }

  /** The shape of one block's listing. */
  lemma BlockTextShape(blocks: seq<BasicBlock>, i: nat, names: map<Register, string>, pf: PrimitiveFormatter)
    requires i < |blocks|
    ensures blocks[i].ops == [] ==> BlockText(blocks, i, names, pf).Fail?
    ensures BlockText(blocks, i, names, pf).Ok? ==>
      var lines := BlockText(blocks, i, names, pf).value;
      var ops := blocks[i].ops;
      && lines[0] == "L" + IntToString(blocks[i].blockLabel) + ":"
      && |lines| == 1 + |ops| - (if HidesLastGoto(blocks, i) then 1 else 0)
                   + (if IsExitOp(ops[|ops| - 1]) then 0 else 1)
      && (lines[|lines| - 1] == "    [MISSING BLOCK EXIT OPCODE]" <== !IsExitOp(ops[|ops| - 1]))
  {
    var l := blocks[i].blockLabel;
    assert "%l:" == "%l" + ":";
    assert FormatSpec(names, "%l:", [IntArg(l)]) == Ok("L" + IntToString(l) + ":") by {
      FormatLiteral(names, ":", []);
    }
  }

  /** The listing of the blocks from `i` on. */
  function BlocksFrom(blocks: seq<BasicBlock>, i: nat, names: map<Register, string>, pf: PrimitiveFormatter): Result<seq<string>>
    requires i <= |blocks|
    decreases |blocks| - i
  {
    if i == |blocks| then Ok([])
    else
      var b :- BlockText(blocks, i, names, pf);
      PrependLines(b, BlocksFrom(blocks, i + 1, names, pf))
  }

  /** The op lines of one block, one op at a time. */
  method FormatOps(ops: seq<Op>, env: Environment, pf: PrimitiveFormatter) returns (r: Result<seq<string>>)
    ensures r == OpLines(ops, env.names, pf)
  {
    var body: seq<string> := [];
    PrependLinesNil(OpLines(ops, env.names, pf));
    for k := 0 to |ops|
      invariant PrependLines(body, OpLines(ops[k..], env.names, pf)) == OpLines(ops, env.names, pf)
    {
      var text := OpText(ops[k], env.names, pf);
      if text.Fail? {
        assert ops[k..][0] == ops[k];
        return Fail(text.msg);
      }
      assert ops[k..][1..] == ops[k + 1..];
      PrependLinesTwice(body, ["    " + text.value], OpLines(ops[k + 1..], env.names, pf));
      body := body + ["    " + text.value];
    }
    assert ops[|ops|..] == [];
    assert body + [] == body;
    r := Ok(body);
  }

  /** The listing of block `i`. */
  method FormatBlock(blocks: seq<BasicBlock>, i: nat, env: Environment, pf: PrimitiveFormatter) returns (r: Result<seq<string>>)
    requires i < |blocks|
    ensures r == BlockText(blocks, i, env.names, pf)
  {
    var block := blocks[i];
    var labelText := env.Format("%l:", [IntArg(block.blockLabel)]);
    if labelText.Fail? {
      return Fail(labelText.msg);
    }
    if block.ops == [] {
      return Fail("list index out of range");
    }
    var ops := block.ops;
    var last := ops[|ops| - 1];
    if last.Goto? && i + 1 < |blocks| && last.target == blocks[i + 1].blockLabel {
      ops := ops[..|ops| - 1];
    }
    assert ops == if HidesLastGoto(blocks, i) then block.ops[..|block.ops| - 1] else block.ops;
    var body := FormatOps(ops, env, pf);
    if body.Fail? {
      return Fail(body.msg);
    }
    var marker := if IsExitOp(block.ops[|block.ops| - 1]) then [] else ["    [MISSING BLOCK EXIT OPCODE]"];
    r := Ok([labelText.value] + body.value + marker);
  }

  /** `format_blocks`: the listing of all blocks, block by block. */
  method FormatBlocks(blocks: seq<BasicBlock>, env: Environment, pf: PrimitiveFormatter) returns (r: Result<seq<string>>)
    ensures r == BlocksFrom(blocks, 0, env.names, pf)
  {
    var lines: seq<string> := [];
    PrependLinesNil(BlocksFrom(blocks, 0, env.names, pf));
    for i := 0 to |blocks|
      invariant PrependLines(lines, BlocksFrom(blocks, i, env.names, pf)) == BlocksFrom(blocks, 0, env.names, pf)
    {
      var blockLines := FormatBlock(blocks, i, env, pf);
      if blockLines.Fail? {
        return Fail(blockLines.msg);
      }
      PrependLinesTwice(lines, blockLines.value, BlocksFrom(blocks, i + 1, env.names, pf));
      lines := lines + blockLines.value;
    }
    assert lines + [] == lines;
    r := Ok(lines);
  }
}
