/** The opcodes of the register-machine IR (mypyc/ops.py): registers, the
    op variants with their operands, the registers an op reads, and branch
    inversion. */
module Ops {
  import opened Wrappers
  import opened RTypes

  /** A basic-block label. */
  type Label = int

  const InvalidLabel: Label := -88888

  /** A register is either a numbered C register or an op that is its own
      result register; `handle` identifies that op. */
  datatype Register = CRegister(index: int) | OpRegister(handle: nat)

  const InvalidRegister := CRegister(-99999)

  /** The branch condition kinds: six tagged-integer comparisons, and three
      unary tests that only read `left`. */
  datatype BranchKind = IntEq | IntNe | IntLt | IntLe | IntGt | IntGe | BoolExpr | IsNone | IsError

  predicate IsIntComparison(k: BranchKind) {
    k.IntEq? || k.IntNe? || k.IntLt? || k.IntLe? || k.IntGt? || k.IntGe?
  }

  /** How an op signals an exception. */
  datatype ErrorKind = ErrNever | ErrMagic | ErrFalse

  /** The primitive descriptions the function emitter knows by identity;
      every other description is `OtherPrimitive`. */
  datatype PrimitiveKind = PrimNone | PrimTrue | PrimFalse | PrimNewList | PrimNewTuple | PrimNewDict | OtherPrimitive

  /** `OpDescription`, without the emit callback. */
  datatype OpDescription = OpDescription(
    kind: PrimitiveKind,
    name: string,
    argTypes: seq<RType>,
    resultType: Option<RType>,
    isVarArg: bool,
    errorKind: ErrorKind,
    formatStr: string,
    isVoid: bool)

  /** `(source path or function name, line)` recorded on a branch that
      leads to an error handler. */
  datatype TracebackEntry = TracebackEntry(funcName: string, line: int)

  /** The op variants. Ops that are their own result register carry the
      `handle` of that register. */
  datatype Op =
    | Goto(target: Label, line: int)
    | Branch(left: Register, right: Register, trueLabel: Label, falseLabel: Label,
             kind: BranchKind, negated: bool, traceback: Option<TracebackEntry>, line: int)
    | Return(reg: Register, line: int)
    | Unreachable(line: int)
    | IncRef(dest: Register, targetType: RType, line: int)
    | DecRef(dest: Register, targetType: RType, line: int)
    | Call(result: Option<Register>, fn: string, args: seq<Register>, line: int)
    | MethodCall(result: Option<Register>, obj: Register, methodName: string, args: seq<Register>,
                 receiverType: ClassLayout, line: int)
    | PyCall(result: Option<Register>, callee: Register, args: seq<Register>, line: int)
    | PyMethodCall(result: Option<Register>, obj: Register, methodReg: Register, args: seq<Register>, line: int)
    | PyGetAttr(handle: nat, rtype: RType, left: Register, attrName: string, line: int)
    | PrimitiveOp(result: Option<Register>, args: seq<Register>, desc: OpDescription, line: int)
    | Assign(dest: Register, src: Register, line: int)
    | LoadInt(dest: Register, value: int, line: int)
    | LoadErrorValue(handle: nat, rtype: RType, line: int)
    | GetAttr(handle: nat, obj: Register, attr: string, classType: ClassLayout, line: int)
    | SetAttr(handle: nat, obj: Register, attr: string, src: Register, classType: ClassLayout, line: int)
    | LoadStatic(handle: nat, rtype: RType, identifier: string, line: int)
    | TupleSet(handle: nat, items: seq<Register>, tupleTypes: seq<RType>, line: int)
    | TupleGet(handle: nat, src: Register, index: int, targetType: RType, line: int)
    | Cast(handle: nat, src: Register, rtype: RType, line: int)
    | Box(handle: nat, src: Register, srcType: RType, line: int)
    | Unbox(handle: nat, src: Register, rtype: RType, line: int)

  /** The ops that write a register (`RegisterOp`). */
  predicate IsRegisterOp(op: Op) {
    !(op.Goto? || op.Branch? || op.Return? || op.Unreachable?)
  }

  /** The ops whose result register must exist (`StrictRegisterOp`). */
  predicate IsStrictRegisterOp(op: Op) {
    IsRegisterOp(op) && !(op.Call? || op.MethodCall? || op.PyCall? || op.PyMethodCall? || op.PrimitiveOp?)
  }

  /** The ops that may end a basic block. */
  predicate IsExitOp(op: Op) {
    op.Goto? || op.Branch? || op.Return? || op.Unreachable?
  }

  /** What the constructors assert: a result register is never the invalid
      one, reference-count ops only name refcounted types, and a primitive
      with fixed arity gets exactly as many arguments as its description. */
  predicate Constructible(op: Op) {
    match op
    case IncRef(d, t, _) => IsRefcounted(t) && d != InvalidRegister
    case DecRef(d, t, _) => IsRefcounted(t) && d != InvalidRegister
    case Assign(d, _, _) => d != InvalidRegister
    case LoadInt(d, _, _) => d != InvalidRegister
    case Call(r, _, _, _) => r != Some(InvalidRegister)
    case MethodCall(r, _, _, _, _, _) => r != Some(InvalidRegister)
    case PyCall(r, _, _, _) => r != Some(InvalidRegister)
    case PyMethodCall(r, _, _, _, _) => r != Some(InvalidRegister)
    case PrimitiveOp(r, args, desc, _) =>
      r != Some(InvalidRegister) && (desc.isVarArg || |args| == |desc.argTypes|)
    case GetAttr(_, _, attr, cls, _) => AttrType(cls, attr).Ok?
    case _ => true
  }

  /** `RegisterOp.dest`: the explicit destination, or the op itself. */
  function Dest(op: Op): (r: Option<Register>)
    requires IsRegisterOp(op)
    ensures IsStrictRegisterOp(op) ==> r.Some?
    ensures op.Call? || op.MethodCall? || op.PyCall? || op.PyMethodCall? || op.PrimitiveOp? ==> r == op.result
  {
    match op
    case IncRef(d, _, _) => Some(d)
    case DecRef(d, _, _) => Some(d)
    case Assign(d, _, _) => Some(d)
    case LoadInt(d, _, _) => Some(d)
    case Call(r, _, _, _) => r
    case MethodCall(r, _, _, _, _, _) => r
    case PyCall(r, _, _, _) => r
    case PyMethodCall(r, _, _, _, _) => r
    case PrimitiveOp(r, _, _, _) => r
    case PyGetAttr(h, _, _, _, _) => Some(OpRegister(h))
    case LoadErrorValue(h, _, _) => Some(OpRegister(h))
    case GetAttr(h, _, _, _, _) => Some(OpRegister(h))
    case SetAttr(h, _, _, _, _, _) => Some(OpRegister(h))
    case LoadStatic(h, _, _, _) => Some(OpRegister(h))
    case TupleSet(h, _, _, _) => Some(OpRegister(h))
    case TupleGet(h, _, _, _, _) => Some(OpRegister(h))
    case Cast(h, _, _, _) => Some(OpRegister(h))
    case Box(h, _, _, _) => Some(OpRegister(h))
    case Unbox(h, _, _, _) => Some(OpRegister(h))
  }

  /** `RegisterOp.type`. The ops whose `_type` is never set report a failed
      assertion if strict, and no type otherwise; `GetAttr` takes the type
      of the attribute, which fails for an unknown attribute. */
  function TypeOf(op: Op): (r: Result<Option<RType>>)
    requires IsRegisterOp(op)
    ensures r.Ok? && r.value.None? <==>
      op.Call? || op.MethodCall? || op.PyCall? || op.PyMethodCall? || op.PrimitiveOp?
    ensures op.IncRef? || op.DecRef? || op.Assign? || op.LoadInt? ==> r.Fail?
    ensures op.Box? ==> r == Ok(Some(ObjectRPrimitive))
    ensures op.SetAttr? ==> r == Ok(Some(BoolRPrimitive))
    ensures op.GetAttr? ==> (r.Ok? <==> AttrType(op.classType, op.attr).Ok?)
  {
    match op
    case IncRef(_, _, _) => Fail("type of a strict register op is not set")
    case DecRef(_, _, _) => Fail("type of a strict register op is not set")
    case Assign(_, _, _) => Fail("type of a strict register op is not set")
    case LoadInt(_, _, _) => Fail("type of a strict register op is not set")
    case Call(_, _, _, _) => Ok(None)
    case MethodCall(_, _, _, _, _, _) => Ok(None)
    case PyCall(_, _, _, _) => Ok(None)
    case PyMethodCall(_, _, _, _, _) => Ok(None)
    case PrimitiveOp(_, _, _, _) => Ok(None)
    case PyGetAttr(_, t, _, _, _) => Ok(Some(t))
    case LoadErrorValue(_, t, _) => Ok(Some(t))
    case GetAttr(_, _, attr, cls, _) =>
      var t :- AttrType(cls, attr);
      Ok(Some(t))
    case SetAttr(_, _, _, _, _, _) => Ok(Some(BoolRPrimitive))
    case LoadStatic(_, t, _, _) => Ok(Some(t))
    case TupleSet(_, _, ts, _) => Ok(Some(RTuple(ts)))
    case TupleGet(_, _, _, t, _) => Ok(Some(t))
    case Cast(_, _, t, _) => Ok(Some(t))
    case Box(_, _, _, _) => Ok(Some(ObjectRPrimitive))
    case Unbox(_, _, t, _) => Ok(Some(t))
  }

  /** `RegisterOp.can_raise`: every op except those that never signal errors. */
  function ErrorKindOf(op: Op): ErrorKind
    requires IsRegisterOp(op)
  {
    match op
    case PrimitiveOp(_, _, desc, _) => desc.errorKind
    case Call(_, _, _, _) => ErrMagic
    case MethodCall(_, _, _, _, _, _) => ErrMagic
    case PyCall(_, _, _, _) => ErrMagic
    case PyMethodCall(_, _, _, _, _) => ErrMagic
    case PyGetAttr(_, _, _, _, _) => ErrMagic
    case GetAttr(_, _, _, _, _) => ErrMagic
    case Cast(_, _, _, _) => ErrMagic
    case Unbox(_, _, _, _) => ErrMagic
    case SetAttr(_, _, _, _, _, _) => ErrFalse
    case _ => ErrNever
  }

  /** `can_raise`: control ops never raise; a `PyGetAttr` always may; any
      other register op may exactly when its error kind is not `ErrNever`. */
  function CanRaise(op: Op): (r: bool)
    ensures !IsRegisterOp(op) ==> !r
    ensures op.PyGetAttr? ==> r
    ensures op.Assign? || op.LoadInt? || op.IncRef? || op.DecRef? || op.TupleGet? || op.Box? ==> !r
    ensures op.LoadErrorValue? || op.LoadStatic? || op.TupleSet? ==> !r
    ensures op.Call? || op.MethodCall? || op.PyCall? || op.PyMethodCall? ==> r
    ensures op.GetAttr? || op.SetAttr? || op.Cast? || op.Unbox? ==> r
    ensures op.PrimitiveOp? ==> (r <==> op.desc.errorKind != ErrNever)
  {
    if !IsRegisterOp(op) then false
    else if op.PyGetAttr? then true
    else ErrorKindOf(op) != ErrNever
  }

  /** `sources()`: the registers an op reads, in the order the source lists
      them. Only branches and register ops define it. */
  function Sources(op: Op): (r: seq<Register>)
    requires op.Branch? || IsRegisterOp(op)
    ensures op.Branch? ==> r == if op.right != InvalidRegister then [op.left, op.right] else [op.left]
    ensures op.Call? || op.PrimitiveOp? ==> r == op.args
    ensures op.MethodCall? ==> r == op.args + [op.obj]
    ensures op.PyMethodCall? ==> r == op.args + [op.obj, op.methodReg]
    ensures op.PyCall? ==> r == op.args + [op.callee]
    ensures op.TupleSet? ==> r == op.items
    ensures op.IncRef? || op.DecRef? ==> r == [op.dest]
    ensures op.Assign? || op.TupleGet? || op.Cast? || op.Box? || op.Unbox? ==> r == [op.src]
    ensures op.PyGetAttr? ==> r == [op.left]
    ensures op.GetAttr? ==> r == [op.obj]
    ensures op.SetAttr? ==> r == [op.obj, op.src]
    ensures op.LoadInt? || op.LoadErrorValue? || op.LoadStatic? ==> r == []
  {
    match op
    case Branch(l, rt, _, _, _, _, _, _) => if rt != InvalidRegister then [l, rt] else [l]
    case IncRef(d, _, _) => [d]
    case DecRef(d, _, _) => [d]
    case Call(_, _, args, _) => args
    case MethodCall(_, obj, _, args, _, _) => args + [obj]
    case PyCall(_, f, args, _) => args + [f]
    case PyMethodCall(_, obj, m, args, _) => args + [obj, m]
    case PyGetAttr(_, _, l, _, _) => [l]
    case PrimitiveOp(_, args, _, _) => args
    case Assign(_, src, _) => [src]
    case LoadInt(_, _, _) => []
    case LoadErrorValue(_, _, _) => []
    case GetAttr(_, obj, _, _, _) => [obj]
    case SetAttr(_, obj, _, src, _, _) => [obj, src]
    case LoadStatic(_, _, _, _) => []
    case TupleSet(_, items, _, _) => items
    case TupleGet(_, src, _, _, _) => [src]
    case Cast(_, src, _, _) => [src]
    case Box(_, src, _, _) => [src]
    case Unbox(_, src, _, _) => [src]
  }

  predicate NoDuplicates<T(==)>(s: seq<T>) {
    forall i, j :: 0 <= i < j < |s| ==> s[i] != s[j]
  }

  /** Position of the first occurrence of `x` in `s`. */
  function FirstIndex<T(==)>(s: seq<T>, x: T): (k: nat)
    requires x in s
    ensures k < |s| && s[k] == x && x !in s[..k]
  {
    if s[0] == x then 0
    else
      var k := 1 + FirstIndex(s[1..], x);
      assert s[..k] == [s[0]] + s[1..][..k - 1];
      k
  }

  /** `unique_sources`: the sources without repetition, each register at
      the place of its first occurrence. */
  method UniqueSources(op: Op) returns (result: seq<Register>)
    requires IsRegisterOp(op)
    ensures forall r :: r in result <==> r in Sources(op)
    ensures NoDuplicates(result)
    ensures forall i, j :: 0 <= i < j < |result| ==>
      FirstIndex(Sources(op), result[i]) < FirstIndex(Sources(op), result[j])
  {
    var sources := Sources(op);
    result := [];
    var k := 0;
    while k < |sources|
      invariant UniquePrefix(sources, result, k)
    {
      var reg := sources[k];
      UniqueStep(sources, result, k);
      if reg !in result {
        result := result + [reg];
      }
      k := k + 1;
    }
    assert sources[..k] == sources;
  }

  /** `result` holds the first `k` elements of `s` without repetition, in
      the order of their first occurrences. */
  ghost predicate UniquePrefix(s: seq<Register>, result: seq<Register>, k: nat) {
    && k <= |s|
    && (forall r :: r in result <==> r in s[..k])
    && NoDuplicates(result)
    && (forall i :: 0 <= i < |result| ==> result[i] in s && FirstIndex(s, result[i]) < k)
    && (forall i, j :: 0 <= i < j < |result| ==>
          result[i] in s && result[j] in s && FirstIndex(s, result[i]) < FirstIndex(s, result[j]))
  }

  /** Appending the next element when it is new keeps `UniquePrefix`. */
  lemma UniqueStep(s: seq<Register>, result: seq<Register>, k: nat)
    requires k < |s| && UniquePrefix(s, result, k)
    ensures UniquePrefix(s, if s[k] in result then result else result + [s[k]], k + 1)
  {
    var x := s[k];
    assert s[..k + 1] == s[..k] + [x];
    if x !in result {
      assert x !in s[..k];
      assert FirstIndex(s, x) == k;
      var next := result + [x];
      assert forall i :: 0 <= i < |result| ==> next[i] == result[i];
    }
  }

  /** `Branch.invert`: swap the targets and flip the negation. */
  function Invert(b: Op): (r: Op)
    requires b.Branch?
    ensures r.Branch? && r.trueLabel == b.falseLabel && r.falseLabel == b.trueLabel
    ensures r.negated == !b.negated
    ensures r.left == b.left && r.right == b.right && r.kind == b.kind
    ensures r.traceback == b.traceback && r.line == b.line
  {
    b.(trueLabel := b.falseLabel, falseLabel := b.trueLabel, negated := !b.negated)
  }

  lemma InvertTwice(b: Op)
    requires b.Branch?
    ensures Invert(Invert(b)) == b
  {
  }

  /** Where a branch transfers control when its (un-negated) condition
      evaluates to `cond`. */
  function Target(b: Op, cond: bool): Label
    requires b.Branch?
  {
    if cond != b.negated then b.trueLabel else b.falseLabel
  }

  /** Inverting a branch never changes where control goes. */
  lemma InvertKeepsTarget(b: Op, cond: bool)
    requires b.Branch?
    ensures Target(Invert(b), cond) == Target(b, cond)
    ensures Target(b, cond) != Target(b, !cond) || b.trueLabel == b.falseLabel
  {
  }
}
