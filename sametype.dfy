// Structural equality of runtime types and of function signatures
// (mypyc/sametype.py).

module SameType {
  import opened Wrappers
  import opened RTypes
  import opened IR

  // ------------------------------------------------------------ is_same_type

  /** `is_same_type(a, b)`: the visitor of `a`'s variant, which first checks
      that `b` has the same variant. */
  function IsSameType(a: RType, b: RType): bool
    decreases a, 0, 0
  {
    match a
    case RInstance(cls) => b.RInstance? && cls.name == b.cls.name
    case ROptional(v) => b.ROptional? && IsSameType(v, b.valueType)
    case RUnion(items) => b.RUnion? && UnionMatch(items, b.items)
    case RPrimitive(name, _, _, _) => b.RPrimitive? && name == b.name
    case RTuple(ts) => b.RTuple? && |b.types| == |ts| && AllSame(ts, b.types)
    case RVoid => b.RVoid?
  }

  /** `all(is_same_type(t1, t2) for t1, t2 in zip(xs, ys))`. */
  function AllSame(xs: seq<RType>, ys: seq<RType>): bool
    decreases xs, 0, 0
  {
    xs == [] || ys == [] || (IsSameType(xs[0], ys[0]) && AllSame(xs[1..], ys[1..]))
  }

  /** The index the inner loop of `visit_runion` stops at: the first right
      item from `from` on that is the same as `x`. */
  function FirstMatch(x: RType, ys: seq<RType>, from: nat): (r: Option<nat>)
    requires from <= |ys|
    decreases x, 1, |ys| - from
    ensures r.Some? ==> from <= r.value < |ys|
  {
    if from == |ys| then None
    else if IsSameType(x, ys[from]) then Some(from)
    else FirstMatch(x, ys, from + 1)
  }

  /** The outer loop of `visit_runion`: each left item removes the first
      remaining right item it is the same as, the match fails when there is
      none, and it succeeds if no right item is left over. */
  function UnionMatch(xs: seq<RType>, ys: seq<RType>): bool
    decreases xs, 0, 0
  {
    if xs == [] then ys == []
    else match FirstMatch(xs[0], ys, 0)
      case None => false
      case Some(j) => UnionMatch(xs[1..], ys[..j] + ys[j + 1..])
  }

  /** `SameTypeVisitor.visit_runion`: the loop over a copy of the right
      items that deletes each matched item. */
  method VisitRUnion(left: seq<RType>, right: RType) returns (r: bool)
    ensures r == IsSameType(RUnion(left), right)
  {
    if !right.RUnion? {
      return false;
    }
    var items := right.items;
    for i := 0 to |left|
      invariant UnionMatch(left, right.items) == UnionMatch(left[i..], items)
    {
      var j := 0;
      while j < |items| && !IsSameType(left[i], items[j])
        invariant 0 <= j <= |items|
        invariant FirstMatch(left[i], items, 0) == FirstMatch(left[i], items, j)
        decreases |items| - j
      {
        j := j + 1;
      }
      assert left[i..][0] == left[i] && left[i..][1..] == left[i + 1..];
      if j == |items| {
        return false;
      }
      items := items[..j] + items[j + 1..];
    }
    r := items == [];
  }

  // ---------------------------------------------------- per-variant meaning

  /** Two primitives are the same iff their names are, and likewise two
      instances; void is the same as void and nothing else. */
  lemma NamedVariants(a: RType, b: RType)
    ensures a.RPrimitive? && b.RPrimitive? ==> (IsSameType(a, b) <==> a.name == b.name)
    ensures a.RInstance? && b.RInstance? ==> (IsSameType(a, b) <==> a.cls.name == b.cls.name)
    ensures a.RVoid? ==> (IsSameType(a, b) <==> b.RVoid?)
    ensures b.RVoid? ==> (IsSameType(a, b) <==> a.RVoid?)
  {
  }

  /** Each variant is only ever the same as its own variant. */
  lemma DifferentVariants(a: RType, b: RType)
    requires IsSameType(a, b)
    ensures a.RPrimitive? == b.RPrimitive? && a.RTuple? == b.RTuple?
    ensures a.RInstance? == b.RInstance? && a.ROptional? == b.ROptional?
    ensures a.RUnion? == b.RUnion? && a.RVoid? == b.RVoid?
  {
  }

  /** `AllSame` on sequences of equal length is the pairwise check. */
  lemma {:induction false} AllSamePairwise(xs: seq<RType>, ys: seq<RType>)
    requires |xs| == |ys|
    ensures AllSame(xs, ys) <==> forall i :: 0 <= i < |xs| ==> IsSameType(xs[i], ys[i])
  {
    if xs != [] {
      AllSamePairwise(xs[1..], ys[1..]);
      if AllSame(xs, ys) {
        forall i | 0 <= i < |xs|
          ensures IsSameType(xs[i], ys[i])
        {
          if i > 0 {
            assert xs[1..][i - 1] == xs[i] && ys[1..][i - 1] == ys[i];
          }
        }
      } else if forall i :: 0 <= i < |xs| ==> IsSameType(xs[i], ys[i]) {
        forall i | 0 <= i < |xs| - 1
          ensures IsSameType(xs[1..][i], ys[1..][i])
        {
          assert xs[1..][i] == xs[i + 1] && ys[1..][i] == ys[i + 1];
        }
        assert false;
      }
    }
  }

  /** Two tuples are the same iff they have the same length and are the
      same item by item, in order; two optionals iff their value types are. */
  lemma TuplesAndOptionals(a: RType, b: RType)
    ensures a.RTuple? && b.RTuple? ==>
      (IsSameType(a, b) <==>
        |a.types| == |b.types| && forall i :: 0 <= i < |a.types| ==> IsSameType(a.types[i], b.types[i]))
    ensures a.ROptional? && b.ROptional? ==> (IsSameType(a, b) <==> IsSameType(a.valueType, b.valueType))
  {
    if a.RTuple? && b.RTuple? && |a.types| == |b.types| {
      AllSamePairwise(a.types, b.types);
    }
  }

  // --------------------------------------------------------- canonical form

  /** A canonical form of a runtime type for `is_same_type`: what the
      visitors compare and nothing else, with the items of a union as a
      multiset because their order does not matter. */
  datatype Shape =
    | SPrimitive(name: string)
    | STuple(items: seq<Shape>)
    | SInstance(name: string)
    | SOptional(value: Shape)
    | SUnion(members: multiset<Shape>)
    | SVoid

  function ShapeOf(t: RType): Shape
    decreases t
  {
    match t
    case RPrimitive(name, _, _, _) => SPrimitive(name)
    case RTuple(ts) => STuple(ShapesOf(ts))
    case RInstance(cls) => SInstance(cls.name)
    case ROptional(v) => SOptional(ShapeOf(v))
    case RUnion(items) => SUnion(multiset(ShapesOf(items)))
    case RVoid => SVoid
  }

  function ShapesOf(ts: seq<RType>): (r: seq<Shape>)
    decreases ts
    ensures |r| == |ts|
  {
    if ts == [] then [] else [ShapeOf(ts[0])] + ShapesOf(ts[1..])
  }

  lemma {:induction false} ShapesOfAt(ts: seq<RType>, i: int)
    requires 0 <= i < |ts|
    ensures ShapesOf(ts)[i] == ShapeOf(ts[i])
  {
    if i > 0 {
      ShapesOfAt(ts[1..], i - 1);
    }
  }

  lemma {:induction false} ShapesOfSplice(ts: seq<RType>, j: int)
    requires 0 <= j < |ts|
    ensures ShapesOf(ts[..j] + ts[j + 1..]) == ShapesOf(ts)[..j] + ShapesOf(ts)[j + 1..]
  {
    if j > 0 {
      assert (ts[..j] + ts[j + 1..])[1..] == ts[1..][..j - 1] + ts[1..][j..];
      ShapesOfSplice(ts[1..], j - 1);
    } else {
      assert ts[..j] + ts[j + 1..] == ts[1..];
    }
  }

  /** Removing the item at `j` removes one copy of it from the multiset. */
  lemma SpliceMultiset<T>(s: seq<T>, j: int)
    requires 0 <= j < |s|
    ensures multiset(s[..j] + s[j + 1..]) == multiset(s) - multiset{s[j]}
  {
    assert s == s[..j] + [s[j]] + s[j + 1..];
  }

  /** `is_same_type` holds exactly when the canonical forms are equal. */
  lemma {:induction false} SameIffShape(a: RType, b: RType)
    decreases a, 0, 0
    ensures IsSameType(a, b) <==> ShapeOf(a) == ShapeOf(b)
  {
    match a
    case ROptional(v) =>
      if b.ROptional? {
        SameIffShape(v, b.valueType);
      }
    case RUnion(items) =>
      if b.RUnion? {
        UnionMatchIff(items, b.items);
      }
    case RTuple(ts) =>
      if b.RTuple? && |b.types| == |ts| {
        AllSameIff(ts, b.types);
      }
    case _ =>
  }

  lemma {:induction false} AllSameIff(xs: seq<RType>, ys: seq<RType>)
    requires |xs| == |ys|
    decreases xs, 0, 0
    ensures AllSame(xs, ys) <==> ShapesOf(xs) == ShapesOf(ys)
  {
    if xs != [] {
      SameIffShape(xs[0], ys[0]);
      AllSameIff(xs[1..], ys[1..]);
      assert ShapesOf(xs) == [ShapeOf(xs[0])] + ShapesOf(xs[1..]);
      assert ShapesOf(ys) == [ShapeOf(ys[0])] + ShapesOf(ys[1..]);
      if ShapesOf(xs) == ShapesOf(ys) {
        assert ShapesOf(xs)[0] == ShapesOf(ys)[0];
        assert ShapesOf(xs)[1..] == ShapesOf(ys)[1..];
      }
    }
  }

  /** The first match is found iff some item from `from` on has the shape of
      `x`, and it is the first item with that shape. */
  lemma {:induction false} FirstMatchIff(x: RType, ys: seq<RType>, from: nat)
    requires from <= |ys|
    decreases x, 1, |ys| - from
    ensures FirstMatch(x, ys, from).None? <==> forall k :: from <= k < |ys| ==> ShapeOf(ys[k]) != ShapeOf(x)
    ensures FirstMatch(x, ys, from).Some? ==> ShapeOf(ys[FirstMatch(x, ys, from).value]) == ShapeOf(x)
  {
    if from < |ys| {
      SameIffShape(x, ys[from]);
      FirstMatchIff(x, ys, from + 1);
    }
  }

  /** The greedy union match succeeds iff both sides hold the same multiset
      of canonical forms: since `is_same_type` is an equivalence, the order
      in which items are consumed does not matter. */
  lemma {:induction false} UnionMatchIff(xs: seq<RType>, ys: seq<RType>)
    decreases xs, 0, 0
    ensures UnionMatch(xs, ys) <==> multiset(ShapesOf(xs)) == multiset(ShapesOf(ys))
  {
    if xs == [] {
      if ys != [] {
        assert ShapesOf(ys)[0] in multiset(ShapesOf(ys));
      }
    } else {
      FirstMatchIff(xs[0], ys, 0);
      match FirstMatch(xs[0], ys, 0)
      case None =>
        UnmatchedShape(xs, ys);
      case Some(j) =>
        UnionMatchIff(xs[1..], ys[..j] + ys[j + 1..]);
        MatchedShape(xs, ys, j);
    }
  }

  /** A left item whose canonical form no right item has makes the two
      multisets differ. */
  lemma UnmatchedShape(xs: seq<RType>, ys: seq<RType>)
    requires xs != []
    requires forall k :: 0 <= k < |ys| ==> ShapeOf(ys[k]) != ShapeOf(xs[0])
    ensures multiset(ShapesOf(xs)) != multiset(ShapesOf(ys))
  {
    var x := ShapeOf(xs[0]);
    assert ShapesOf(xs) == [x] + ShapesOf(xs[1..]);
    assert x in multiset(ShapesOf(xs));
    if x in multiset(ShapesOf(ys)) {
      var k :| 0 <= k < |ys| && ShapesOf(ys)[k] == x;
      ShapesOfAt(ys, k);
      assert false;
    }
  }

  /** Matching the first left item with a right item of the same canonical
      form takes one copy of that form from each multiset. */
  lemma MatchedShape(xs: seq<RType>, ys: seq<RType>, j: int)
    requires xs != [] && 0 <= j < |ys|
    requires ShapeOf(ys[j]) == ShapeOf(xs[0])
    ensures multiset(ShapesOf(xs)) == multiset(ShapesOf(ys)) <==>
            multiset(ShapesOf(xs[1..])) == multiset(ShapesOf(ys[..j] + ys[j + 1..]))
  {
    var x := ShapeOf(xs[0]);
    assert ShapesOf(xs) == [x] + ShapesOf(xs[1..]);
    ShapesOfAt(ys, j);
    ShapesOfSplice(ys, j);
    SpliceMultiset(ShapesOf(ys), j);
    MultisetCancel(x, multiset(ShapesOf(xs[1..])), multiset(ShapesOf(ys)));
  }

  /** One copy of `x`, which `b` holds, can be taken from both sides. */
  lemma MultisetCancel<T>(x: T, a: multiset<T>, b: multiset<T>)
    requires x in b
    ensures multiset{x} + a == b <==> a == b - multiset{x}
  {
    if multiset{x} + a == b {
      assert forall y :: (b - multiset{x})[y] == a[y];
    }
    if a == b - multiset{x} {
      assert forall y :: (multiset{x} + a)[y] == b[y];
    }
  }

  // ------------------------------------------------- an equivalence relation

  lemma SameTypeReflexive(a: RType)
    ensures IsSameType(a, a)
  {
    SameIffShape(a, a);
  }

  lemma SameTypeSymmetric(a: RType, b: RType)
    ensures IsSameType(a, b) == IsSameType(b, a)
  {
    SameIffShape(a, b);
    SameIffShape(b, a);
  }

  lemma SameTypeTransitive(a: RType, b: RType, c: RType)
    requires IsSameType(a, b) && IsSameType(b, c)
    ensures IsSameType(a, c)
  {
    SameIffShape(a, b);
    SameIffShape(b, c);
    SameIffShape(a, c);
  }

  /** The items of two unions can be listed in any order. */
  lemma UnionOrderIrrelevant(xs: seq<RType>, ys: seq<RType>)
    requires multiset(xs) == multiset(ys)
    ensures IsSameType(RUnion(xs), RUnion(ys))
  {
    MultisetShapes(xs, ys);
    UnionMatchIff(xs, ys);
  }

  lemma {:induction false} MultisetShapes(xs: seq<RType>, ys: seq<RType>)
    requires multiset(xs) == multiset(ys)
    decreases |xs|
    ensures multiset(ShapesOf(xs)) == multiset(ShapesOf(ys))
  {
    if xs != [] {
      var x := xs[0];
      assert x in multiset(ys);
      var j :| 0 <= j < |ys| && ys[j] == x;
      var rest := ys[..j] + ys[j + 1..];
      RemoveMatched(xs, ys, j);
      MultisetShapes(xs[1..], rest);
      ShapesOfSplice(ys, j);
      ShapesOfAt(ys, j);
      SpliceMultiset(ShapesOf(ys), j);
      assert ShapesOf(xs) == [ShapeOf(x)] + ShapesOf(xs[1..]);
      assert ShapesOf(ys)[j] in multiset(ShapesOf(ys));
      MultisetCancel(ShapeOf(x), multiset(ShapesOf(xs[1..])), multiset(ShapesOf(ys)));
    } else {
      assert ys == [];
    }
  }

  /** Taking the first item from one side and a matching item from the
      other keeps the two multisets equal. */
  lemma RemoveMatched<T>(xs: seq<T>, ys: seq<T>, j: int)
    requires xs != [] && 0 <= j < |ys| && ys[j] == xs[0] && multiset(xs) == multiset(ys)
    ensures multiset(xs[1..]) == multiset(ys[..j] + ys[j + 1..])
  {
    assert xs == [xs[0]] + xs[1..];
    SpliceMultiset(ys, j);
    MultisetCancel(xs[0], multiset(xs[1..]), multiset(xs));
  }

  // -------------------------------------------------------------- signatures

  /** The signature of a function: its arguments, in order, and its return
      type. */
  datatype FuncSignature = FuncSignature(args: seq<RuntimeArg>, retType: RType)

  /** `all(is_same_type(t1.type, t2.type) and t1.name == t2.name for t1, t2 in
      zip(xs, ys))`. */
  function ArgsSame(xs: seq<RuntimeArg>, ys: seq<RuntimeArg>): bool
    decreases xs
  {
    xs == [] || ys == [] ||
    (IsSameType(xs[0].rtype, ys[0].rtype) && xs[0].name == ys[0].name && ArgsSame(xs[1..], ys[1..]))
  }

  /** Python's `s[1:]`. */
  function Tail<T>(s: seq<T>): (r: seq<T>)
    ensures |r| == if s == [] then 0 else |s| - 1
    ensures forall k :: 0 <= k < |r| ==> r[k] == s[k + 1]
  {
    if s == [] then [] else s[1..]
  }

  function IsSameSignature(a: FuncSignature, b: FuncSignature): bool {
    |a.args| == |b.args| && IsSameType(a.retType, b.retType) && ArgsSame(a.args, b.args)
  }

  function IsSameMethodSignature(a: FuncSignature, b: FuncSignature): bool {
    |a.args| == |b.args| && IsSameType(a.retType, b.retType) && ArgsSame(Tail(a.args), Tail(b.args))
  }

  /** Argument `i` of the two lists has the same type and name. */
  predicate ArgSameAt(xs: seq<RuntimeArg>, ys: seq<RuntimeArg>, i: int)
    requires 0 <= i < |xs| && i < |ys|
  {
    IsSameType(xs[i].rtype, ys[i].rtype) && xs[i].name == ys[i].name
  }

  lemma {:induction false} ArgsSamePairwise(xs: seq<RuntimeArg>, ys: seq<RuntimeArg>)
    requires |xs| == |ys|
    ensures ArgsSame(xs, ys) <==> forall i :: 0 <= i < |xs| ==> ArgSameAt(xs, ys, i)
  {
    if xs != [] {
      ArgsSamePairwise(xs[1..], ys[1..]);
      if ArgsSame(xs, ys) {
        forall i | 0 <= i < |xs|
          ensures ArgSameAt(xs, ys, i)
        {
          if i > 0 {
            assert ArgSameAt(xs[1..], ys[1..], i - 1);
          }
        }
      }
      if forall i :: 0 <= i < |xs| ==> ArgSameAt(xs, ys, i) {
        forall i | 0 <= i < |xs| - 1
          ensures ArgSameAt(xs[1..], ys[1..], i)
        {
          assert ArgSameAt(xs, ys, i + 1);
        }
        assert ArgSameAt(xs, ys, 0);
      }
    }
  }

  /** `is_same_signature`: equal arity, the same return type, and the same
      type and name at every argument position. */
  lemma SameSignatureIff(a: FuncSignature, b: FuncSignature)
    ensures IsSameSignature(a, b) <==>
      |a.args| == |b.args| && IsSameType(a.retType, b.retType) &&
      forall i :: 0 <= i < |a.args| ==> ArgSameAt(a.args, b.args, i)
  {
    if |a.args| == |b.args| {
      ArgsSamePairwise(a.args, b.args);
    }
  }

  /** `is_same_method_signature`: the same check with the first argument
      (the receiver) left out of the argument comparison, while arity and
      return type are still those of the whole signatures. */
  lemma SameMethodSignatureIff(a: FuncSignature, b: FuncSignature)
    ensures IsSameMethodSignature(a, b) <==>
      |a.args| == |b.args| && IsSameType(a.retType, b.retType) &&
      forall i :: 1 <= i < |a.args| ==> ArgSameAt(a.args, b.args, i)
  {
    if |a.args| == |b.args| {
      var ta, tb := Tail(a.args), Tail(b.args);
      ArgsSamePairwise(ta, tb);
      if forall i :: 0 <= i < |ta| ==> ArgSameAt(ta, tb, i) {
        forall i | 1 <= i < |a.args|
          ensures ArgSameAt(a.args, b.args, i)
        {
          assert ArgSameAt(ta, tb, i - 1);
        }
      }
      if forall i :: 1 <= i < |a.args| ==> ArgSameAt(a.args, b.args, i) {
        forall i | 0 <= i < |ta|
          ensures ArgSameAt(ta, tb, i)
        {
          assert ArgSameAt(a.args, b.args, i + 1);
        }
      }
    }
  }

  /** Signatures that are the same are also the same as method signatures,
      and a signature is never told apart from itself. */
  lemma SignatureFacts(a: FuncSignature, b: FuncSignature)
    ensures IsSameSignature(a, b) ==> IsSameMethodSignature(a, b)
    ensures IsSameSignature(a, a) && IsSameMethodSignature(a, a)
    ensures IsSameSignature(a, b) == IsSameSignature(b, a)
    ensures IsSameMethodSignature(a, b) == IsSameMethodSignature(b, a)
  {
    SameSignatureIff(a, b);
    SameSignatureIff(b, a);
    SameSignatureIff(a, a);
    SameMethodSignatureIff(a, b);
    SameMethodSignatureIff(b, a);
    SameMethodSignatureIff(a, a);
    SameTypeReflexive(a.retType);
    SameTypeSymmetric(a.retType, b.retType);
    forall i | 0 <= i < |a.args|
      ensures ArgSameAt(a.args, a.args, i)
    {
      SameTypeReflexive(a.args[i].rtype);
    }
    if |a.args| == |b.args| {
      forall i | 0 <= i < |a.args|
        ensures ArgSameAt(a.args, b.args, i) == ArgSameAt(b.args, a.args, i)
      {
        SameTypeSymmetric(a.args[i].rtype, b.args[i].rtype);
      }
    }
  }
}
