/** The surface of the emitter (mypyc/emit.py, not part of this model) that
    the function and module generators use: a buffer of output lines, a
    shared context holding the header declarations and the temporary
    counter, and the renderings it owns, taken as parameters. */
module Emit {
  import opened Wrappers
  import opened RTypes
  import opened Ops

  /** What the emitter and the common constants contribute, as parameters:
      the register and native-function prefixes, the text of a label
      reference and of a label definition line, the name of the n-th
      temporary, and the lines that the reference-count, box, unbox and
      cast helpers write for `(source, destination, type)`. */
  datatype Helpers = Helpers(
    regPrefix: string,
    nativePrefix: string,
    labelName: Label -> string,
    labelLine: Label -> string,
    tempName: nat -> string,
    incRef: (string, RType) -> seq<string>,
    decRef: (string, RType) -> seq<string>,
    box: (string, string, RType) -> seq<string>,
    unbox: (string, string, RType) -> seq<string>,
    cast: (string, string, RType) -> seq<string>)

  /** What each element gives, in turn: the lines written for each. */
  function FlatMap<T, U>(f: T -> seq<U>, xs: seq<T>): seq<U> {
    if xs == [] then [] else FlatMap(f, xs[..|xs| - 1]) + f(xs[|xs| - 1])
  }

  /** Writing two runs of elements writes the lines of each. */
  lemma {:induction false} FlatMapAppend<T, U>(f: T -> seq<U>, xs: seq<T>, ys: seq<T>)
    ensures FlatMap(f, xs + ys) == FlatMap(f, xs) + FlatMap(f, ys)
    decreases |ys|
  {
    if ys == [] {
      assert xs + ys == xs;
    } else {
      var init := ys[..|ys| - 1];
      assert (xs + ys)[..|xs + ys| - 1] == xs + init;
      assert (xs + ys)[|xs + ys| - 1] == ys[|ys| - 1];
      FlatMapAppend(f, xs, init);
    }
  }

  /** The lines of the first `n` elements begin the lines of all. */
  lemma FlatMapPrefix<T, U>(f: T -> seq<U>, xs: seq<T>, n: nat)
    requires n <= |xs|
    ensures var p := FlatMap(f, xs[..n]);
      |p| <= |FlatMap(f, xs)| && FlatMap(f, xs)[..|p|] == p
  {
    assert xs[..n] + xs[n..] == xs;
    FlatMapAppend(f, xs[..n], xs[n..]);
  }

  /** The lines of element `k` follow those of the elements before it. */
  lemma FlatMapAt<T, U>(f: T -> seq<U>, xs: seq<T>, k: nat)
    requires k < |xs|
    ensures var lo := |FlatMap(f, xs[..k])|;
      lo + |f(xs[k])| <= |FlatMap(f, xs)| && FlatMap(f, xs)[lo..lo + |f(xs[k])|] == f(xs[k])
  {
    assert xs[..k + 1][..k] == xs[..k];
    var p := FlatMap(f, xs[..k + 1]);
    assert p == FlatMap(f, xs[..k]) + f(xs[k]);
    FlatMapPrefix(f, xs, k + 1);
    var lo := |FlatMap(f, xs[..k])|;
    assert FlatMap(f, xs)[lo..lo + |f(xs[k])|] == p[lo..lo + |f(xs[k])|];
  }

  /** When every element gives one line, line `k` is element `k`'s. */
  lemma {:induction false} FlatMapSingle<T, U>(f: T -> seq<U>, xs: seq<T>)
    requires forall k :: 0 <= k < |xs| ==> |f(xs[k])| == 1
    ensures |FlatMap(f, xs)| == |xs|
    ensures forall k :: 0 <= k < |xs| ==> FlatMap(f, xs)[k] == f(xs[k])[0]
  {
    if xs != [] {
      var init := xs[..|xs| - 1];
      forall k | 0 <= k < |init|
        ensures |f(init[k])| == 1
      {
        assert init[k] == xs[k];
      }
      FlatMapSingle(f, init);
      var m := FlatMap(f, xs);
      assert m == FlatMap(f, init) + f(xs[|xs| - 1]);
      forall k | 0 <= k < |xs|
        ensures m[k] == f(xs[k])[0]
      {
        if k < |init| {
          assert m[k] == FlatMap(f, init)[k];
          assert init[k] == xs[k];
        }
      }
    }
  }

  /** When every element gives `w` lines, `n` elements give `w * n`. */
  lemma {:induction false} FlatMapUniform<T, U>(f: T -> seq<U>, xs: seq<T>, w: nat)
    requires forall x :: |f(x)| == w
    ensures |FlatMap(f, xs)| == w * |xs|
  {
    if xs != [] {
      FlatMapUniform(f, xs[..|xs| - 1], w);
      assert w * (|xs| - 1) + w == w * |xs|;
    }
  }

  /** What the parts of an element give, part by part. */
  function Nested<T, S, U>(inner: T -> S -> seq<U>, parts: T -> seq<S>): T -> seq<U> {
    x => FlatMap(inner(x), parts(x))
  }

  /** An item is given by the run of some element. */
  lemma {:induction false} FlatMapIn<T, U>(f: T -> seq<U>, xs: seq<T>, u: U)
    ensures u in FlatMap(f, xs) <==> exists i :: 0 <= i < |xs| && u in f(xs[i])
  {
    if xs != [] {
      var init := xs[..|xs| - 1];
      FlatMapIn(f, init, u);
      if exists i :: 0 <= i < |init| && u in f(init[i]) {
        var i :| 0 <= i < |init| && u in f(init[i]);
        assert xs[i] == init[i];
      }
      if exists i :: 0 <= i < |xs| && u in f(xs[i]) {
        var i :| 0 <= i < |xs| && u in f(xs[i]);
        if i < |init| {
          assert xs[i] == init[i];
        }
      }
    }
  }

  /** An item of a run whose elements each give a run of their parts is
      given by some part of some element. */
  lemma FlatMapNestedIn<T, S, U>(outer: T -> seq<U>, parts: T -> seq<S>, f: S -> seq<U>, xs: seq<T>, u: U)
    requires forall x :: outer(x) == FlatMap(f, parts(x))
    ensures u in FlatMap(outer, xs) <==>
      exists i, j :: 0 <= i < |xs| && 0 <= j < |parts(xs[i])| && u in f(parts(xs[i])[j])
  {
    FlatMapIn(outer, xs, u);
    forall i | 0 <= i < |xs|
      ensures u in outer(xs[i]) <==> exists j :: 0 <= j < |parts(xs[i])| && u in f(parts(xs[i])[j])
    {
      FlatMapIn(f, parts(xs[i]), u);
    }
  }

  /** Two runs that give the same items element by element give the same. */
  lemma {:induction false} FlatMapPointwise<T, S, U>(f: T -> seq<U>, xs: seq<T>, g: S -> seq<U>, ys: seq<S>)
    requires |xs| == |ys| && forall k :: 0 <= k < |xs| ==> f(xs[k]) == g(ys[k])
    ensures FlatMap(f, xs) == FlatMap(g, ys)
  {
    if xs != [] {
      var n := |xs| - 1;
      forall k | 0 <= k < n
        ensures f(xs[..n][k]) == g(ys[..n][k])
      {
        assert xs[..n][k] == xs[k] && ys[..n][k] == ys[k];
      }
      FlatMapPointwise(f, xs[..n], g, ys[..n]);
    }
  }

  /** The lines written for each element in turn where each element draws
      on a counter (the temporaries it names) and leaves the next value;
      the first refusal is the result. */
  function FlatMapCounted<T>(f: (T, nat) -> Result<(seq<string>, nat)>, xs: seq<T>, counter: nat): Result<(seq<string>, nat)> {
    if xs == [] then Ok(([], counter))
    else
      var init :- FlatMapCounted(f, xs[..|xs| - 1], counter);
      var last :- f(xs[|xs| - 1], init.1);
      Ok((init.0 + last.0, last.1))
  }

  /** A refusal among the first elements is a refusal of all. */
  lemma {:induction false} FlatMapCountedFailExtends<T>(f: (T, nat) -> Result<(seq<string>, nat)>, xs: seq<T>, i: nat, counter: nat)
    requires i <= |xs| && FlatMapCounted(f, xs[..i], counter).Fail?
    ensures FlatMapCounted(f, xs, counter).Fail?
    decreases |xs| - i
  {
    if i < |xs| {
      assert xs[..i + 1][..i] == xs[..i];
      FlatMapCountedFailExtends(f, xs, i + 1, counter);
    } else {
      assert xs[..i] == xs;
    }
  }

  /** The text of a line buffer: each line followed by a newline. */
  function Text(lines: seq<string>): string {
    if lines == [] then "" else Text(lines[..|lines| - 1]) + lines[|lines| - 1] + "\n"
  }

  /** The text of two buffers is the text of the first, then the second. */
  lemma {:induction false} TextAppend(a: seq<string>, b: seq<string>)
    ensures Text(a + b) == Text(a) + Text(b)
    decreases |b|
  {
    if b == [] {
      assert a + b == a;
    } else {
      var init := b[..|b| - 1];
      assert (a + b)[..|a + b| - 1] == a + init;
      assert (a + b)[|a + b| - 1] == b[|b| - 1];
      TextAppend(a, init);
    }
  }

  /** The lines written for each element in turn, where an element can be
      refused: the first refusal is the result. */
  function MapResult<T>(f: T -> Result<seq<string>>, xs: seq<T>): Result<seq<string>> {
    if xs == [] then Ok([])
    else
      var init :- MapResult(f, xs[..|xs| - 1]);
      var last :- f(xs[|xs| - 1]);
      Ok(init + last)
  }

  /** Lines written for the first `i` elements mean none of them was
      refused. */
  lemma EarlierOk<T>(f: T -> Result<seq<string>>, xs: seq<T>, i: nat)
    requires i <= |xs| && MapResult(f, xs[..i]).Ok?
    ensures forall j :: 0 <= j < i ==> f(xs[j]).Ok?
  {
    MapResultOkIff(f, xs[..i]);
    forall j | 0 <= j < i
      ensures f(xs[j]).Ok?
    {
      assert xs[..i][j] == xs[j];
    }
  }

  /** The lines are written exactly when no element is refused. */
  lemma {:induction false} MapResultOkIff<T>(f: T -> Result<seq<string>>, xs: seq<T>)
    ensures MapResult(f, xs).Ok? <==> forall k :: 0 <= k < |xs| ==> f(xs[k]).Ok?
  {
    if xs != [] {
      var init := xs[..|xs| - 1];
      MapResultOkIff(f, init);
      if MapResult(f, xs).Ok? {
        forall k | 0 <= k < |xs|
          ensures f(xs[k]).Ok?
        {
          if k < |init| {
            assert xs[k] == init[k];
          }
        }
      } else if !MapResult(f, init).Ok? {
        var k :| 0 <= k < |init| && !f(init[k]).Ok?;
        assert xs[k] == init[k];
      }
    }
  }

  /** One more element that is written extends the lines written. */
  lemma MapResultStep<T>(f: T -> Result<seq<string>>, xs: seq<T>, i: nat)
    requires i < |xs| && MapResult(f, xs[..i]).Ok? && f(xs[i]).Ok?
    ensures MapResult(f, xs[..i + 1]) == Ok(MapResult(f, xs[..i]).value + f(xs[i]).value)
  {
    assert xs[..i + 1][..i] == xs[..i];
  }

  /** A C declaration for the shared header, with the names of the
      declarations it needs first. */
  datatype HeaderDeclaration = HeaderDeclaration(dependencies: set<string>, body: seq<string>)

  /** `EmitterContext`: the header declarations in insertion order (an
      ordered dictionary) and the temporary counter. */
  class EmitterContext {
    var declOrder: seq<string>
    var declarations: map<string, HeaderDeclaration>
    var tempCounter: nat

    /** The order lists each declared name once. */
    ghost predicate Valid()
      reads this
    {
      NoDuplicates(declOrder) && forall name :: name in declarations <==> name in declOrder
    }

    constructor()
      ensures Valid() && declOrder == [] && declarations == map[] && tempCounter == 0
    {
      declOrder := [];
      declarations := map[];
      tempCounter := 0;
    }
  }

  /** `Emitter`: a buffer of lines written for one context. */
  class Emitter {
    const context: EmitterContext
    var lines: seq<string>

    constructor(context: EmitterContext)
      ensures this.context == context && lines == []
    {
      this.context := context;
      lines := [];
    }

    method EmitLine(line: string)
      modifies this
      ensures lines == old(lines) + [line]
    {
      lines := lines + [line];
    }

    method EmitLines(more: seq<string>)
      modifies this
      ensures lines == old(lines) + more
    {
      lines := lines + more;
    }

    /** `emit_from_emitter`: appends everything another buffer holds. */
    method EmitFrom(other: Emitter)
      modifies this
      ensures lines == old(lines) + old(other.lines)
    {
      lines := lines + other.lines;
    }

    /** Writes the lines of each element in turn. */
    method EmitEach<T>(f: T -> seq<string>, xs: seq<T>)
      modifies this
      ensures lines == old(lines) + FlatMap(f, xs)
    {
      for i := 0 to |xs|
        invariant lines == old(lines) + FlatMap(f, xs[..i])
      {
        assert xs[..i + 1][..i] == xs[..i];
        lines := lines + f(xs[i]);
      }
      assert xs[..|xs|] == xs;
    }

    /** Writes, for each element in turn, the lines of each of its parts. */
    method EmitNested<T, S>(inner: T -> S -> seq<string>, parts: T -> seq<S>, xs: seq<T>)
      modifies this
      ensures lines == old(lines) + FlatMap(Nested(inner, parts), xs)
    {
      for i := 0 to |xs|
        invariant lines == old(lines) + FlatMap(Nested(inner, parts), xs[..i])
      {
        assert xs[..i + 1][..i] == xs[..i];
        EmitEach(inner(xs[i]), parts(xs[i]));
      }
      assert xs[..|xs|] == xs;
    }

    /** Writes the lines of each element in turn, stopping at the first
        element that is refused. */
    method EmitEachResult<T>(f: T -> Result<seq<string>>, xs: seq<T>) returns (outcome: Outcome)
      modifies this
      ensures outcome.Pass? <==> MapResult(f, xs).Ok?
      ensures outcome.Pass? ==> lines == old(lines) + MapResult(f, xs).value
      ensures outcome.Failed? ==>
        exists k :: 0 <= k < |xs| && f(xs[k]) == Fail(outcome.msg) && forall j :: 0 <= j < k ==> f(xs[j]).Ok?
    {
      for i := 0 to |xs|
        invariant MapResult(f, xs[..i]).Ok?
        invariant lines == old(lines) + MapResult(f, xs[..i]).value
      {
        assert xs[..i + 1][..i] == xs[..i];
        var step := f(xs[i]);
        if step.Fail? {
          MapResultOkIff(f, xs);
          EarlierOk(f, xs, i);
          return Failed(step.msg);
        }
        lines := lines + step.value;
      }
      assert xs[..|xs|] == xs;
      outcome := Pass;
    }

    /** `temp_name`: a fresh temporary from the shared counter. */
    method TempName(h: Helpers) returns (name: string)
      modifies context`tempCounter
      ensures name == h.tempName(old(context.tempCounter))
      ensures context.tempCounter == old(context.tempCounter) + 1
    {
      name := h.tempName(context.tempCounter);
      context.tempCounter := context.tempCounter + 1;
    }
  }
}
