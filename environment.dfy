/** The register environment of one function (mypyc/ops.py, `Environment`):
    an allocator that gives each register its index, display name and type,
    a symbol table from source variables to registers, the `%`-directive
    renderer used by every textual op and the grouped register listing. */
module Environment {
  import opened Wrappers
  import opened Strings
  import opened RTypes
  import opened Ops

  /** A source variable: an identity and its name. */
  datatype Var = Var(id: nat, name: string)

  /** An argument of `format`. Labels and plain numbers are `IntArg`. */
  datatype FormatArg = RegArg(reg: Register) | IntArg(n: int) | StrArg(s: string) | TypeArg(t: RType)

  /** Python's `str()` of an argument. The text of an op object used as a
      register is Python's default object rendering, which is not modelled. */
  function ArgStr(arg: FormatArg): Result<string> {
    match arg
    case IntArg(n) => Ok(IntToString(n))
    case StrArg(s) => Ok(s)
    case TypeArg(t) => Ok(TypeStr(t))
    case RegArg(CRegister(n)) => Ok(IntToString(n))
    case RegArg(OpRegister(_)) => Fail("object rendering is not modelled")
  }

  /** The integer value of an argument: a number, or a numbered C register
      (a `CRegister` is an `int`). */
  function ArgInt(arg: FormatArg): Result<int> {
    match arg
    case IntArg(n) => Ok(n)
    case RegArg(CRegister(n)) => Ok(n)
    case _ => Fail("%d format: a number is required")
  }

  /** The register an argument denotes as a dictionary key. */
  function ArgKey(arg: FormatArg): Option<Register> {
    match arg
    case RegArg(r) => Some(r)
    case IntArg(n) => Some(CRegister(n))
    case _ => None
  }

  /** One directive: `%r` is the register's name, `%d` a decimal number,
      `%l` a label, `%s` any value's text; any other letter is an error. */
  function FormatOne(names: map<Register, string>, spec: char, arg: FormatArg): (r: Result<string>)
    ensures spec !in "rdls" ==> r.Fail?
    ensures spec == 'r' ==> (r.Ok? <==> ArgKey(arg).Some? && ArgKey(arg).value in names)
    ensures spec == 'r' && r.Ok? ==> r.value == names[ArgKey(arg).value]
  {
    if spec == 'r' then
      match ArgKey(arg)
      case Some(reg) => if reg in names then Ok(names[reg]) else Fail("KeyError")
      case None => Fail("KeyError")
    else if spec == 'd' then
      var n :- ArgInt(arg);
      Ok(IntToString(n))
    else if spec == 'l' then
      var n :- ArgInt(arg);
      Ok("L" + IntToString(n))
    else if spec == 's' then
      ArgStr(arg)
    else
      Fail("Invalid format sequence %" + [spec])
  }

  /** `%d` and `%l` succeed exactly for a number; `%d` writes its decimal
      text and `%l` the same after an `L`, and that text reads back as the
      number. */
  lemma FormatNumberReadsBack(names: map<Register, string>, spec: char, arg: FormatArg)
    requires spec == 'd' || spec == 'l'
    ensures FormatOne(names, spec, arg).Ok? <==> ArgInt(arg).Ok?
    ensures FormatOne(names, spec, arg).Ok? ==>
      var text, n := FormatOne(names, spec, arg).value, ArgInt(arg).value;
      && (spec == 'd' ==> text == IntToString(n) && ParseInt(text) == Some(n))
      && (spec == 'l' ==> text == "L" + IntToString(n) && ParseInt(text[1..]) == Some(n))
  {
    if ArgInt(arg).Ok? {
      var n := ArgInt(arg).value;
      ParseIntToString(n);
      var text := "L" + IntToString(n);
      assert text[1..] == IntToString(n);
    }
  }

  /** Puts text in front of a successful result. */
  function Prepend(p: string, r: Result<string>): Result<string> {
    match r
    case Ok(s) => Ok(p + s)
    case Fail(_) => r
  }

  lemma PrependNil(r: Result<string>)
    ensures Prepend("", r) == r
  {
    if r.Ok? {
      assert "" + r.value == r.value;
    }
  }

  lemma PrependPrepend(a: string, b: string, r: Result<string>)
    ensures Prepend(a, Prepend(b, r)) == Prepend(a + b, r)
  {
    if r.Ok? {
      assert a + (b + r.value) == (a + b) + r.value;
    }
  }

  /** The messages of the `IndexError` of a trailing `%` and of the
      `IndexError` of a directive without an argument. */
  const IndexErrorMessage := "string index out of range"
  const PopErrorMessage := "pop from empty list"

  /** `Environment.format`: literal text is copied, each `%x` directive
      consumes the next argument. A `%` at the very end, running out of
      arguments, or an unknown directive is an error; surplus arguments are
      ignored. */
  function FormatSpec(names: map<Register, string>, fmt: string, args: seq<FormatArg>): Result<string>
    decreases |fmt|
  {
    if fmt == [] then Ok("")
    else if fmt[0] != '%' then Prepend([fmt[0]], FormatSpec(names, fmt[1..], args))
    else if |fmt| == 1 then Fail(IndexErrorMessage)
    else if args == [] then Fail(PopErrorMessage)
    else
      var piece :- FormatOne(names, fmt[1], args[0]);
      Prepend(piece, FormatSpec(names, fmt[2..], args[1..]))
  }

  /** The rendering from a directive at `n` on: a trailing `%` and a
      directive without an argument fail, otherwise the directive's text
      comes before the rest. */
  lemma FormatDirective(names: map<Register, string>, fmt: string, n: nat, args: seq<FormatArg>)
    requires n < |fmt| && fmt[n] == '%'
    ensures n + 1 == |fmt| ==> FormatSpec(names, fmt[n..], args) == Fail(IndexErrorMessage)
    ensures n + 1 < |fmt| && args == [] ==> FormatSpec(names, fmt[n..], args) == Fail(PopErrorMessage)
    ensures n + 1 < |fmt| && args != [] ==>
      var piece := FormatOne(names, fmt[n + 1], args[0]);
      FormatSpec(names, fmt[n..], args)
        == if piece.Fail? then Fail(piece.msg) else Prepend(piece.value, FormatSpec(names, fmt[n + 2..], args[1..]))
  {
    var rest := fmt[n..];
    assert rest[0] == '%';
    if n + 1 < |fmt| {
      assert rest[1] == fmt[n + 1];
      assert rest[2..] == fmt[n + 2..];
    }
  }

  /** The loop of `format`: a scan over the format string that copies
      literal text up to each `%` and renders the directive after it. */
  method ScanFormat(names: map<Register, string>, fmt: string, args: seq<FormatArg>) returns (r: Result<string>)
    ensures r == FormatSpec(names, fmt, args)
  {
    var result := "";
    var i := 0;
    var arglist := args;
    assert fmt[0..] == fmt;
    PrependNil(FormatSpec(names, fmt, args));
    while i < |fmt|
      invariant 0 <= i <= |fmt|
      invariant Prepend(result, FormatSpec(names, fmt[i..], arglist)) == FormatSpec(names, fmt, args)
      decreases |fmt| - i
    {
      var n := Find(fmt, '%', i);
      FormatScanStep(names, fmt, i, n, result, arglist);
      result := result + fmt[i..n];
      if n < |fmt| {
        if n + 1 == |fmt| {
          return Fail(IndexErrorMessage);
        }
        var typespec := fmt[n + 1];
        if arglist == [] {
          return Fail(PopErrorMessage);
        }
        var arg := arglist[0];
        arglist := arglist[1..];
        var piece := FormatOne(names, typespec, arg);
        if piece.Fail? {
          return Fail(piece.msg);
        }
        result := result + piece.value;
        i := n + 2;
      } else {
        i := n;
      }
    }
    assert fmt[i..] == [];
    assert result + "" == result;
    r := Ok(result);
  }

  /** One round of the scan in `format`: the literal run up to the next
      `%` (or the end) is copied, then the directive there is rendered or
      the whole format fails. `whole` is what the text accumulated so far
      and the rest of the format amount to. */
  lemma FormatScanStep(names: map<Register, string>, fmt: string, i: nat, n: nat, result: string, args: seq<FormatArg>)
    requires i <= n <= |fmt| && '%' !in fmt[i..n] && (n < |fmt| ==> fmt[n] == '%')
    ensures var whole := Prepend(result, FormatSpec(names, fmt[i..], args));
      var acc := result + fmt[i..n];
      && whole == Prepend(acc, FormatSpec(names, fmt[n..], args))
      && (n + 1 == |fmt| ==> whole == Fail(IndexErrorMessage))
      && (n + 1 < |fmt| && args == [] ==> whole == Fail(PopErrorMessage))
      && (n + 1 < |fmt| && args != [] ==>
        var piece := FormatOne(names, fmt[n + 1], args[0]);
        whole == if piece.Fail? then Fail(piece.msg)
          else Prepend(acc + piece.value, FormatSpec(names, fmt[n + 2..], args[1..])))
  {
    assert fmt[i..] == fmt[i..n] + fmt[n..];
    FormatLiteralConcat(names, fmt[i..n], fmt[n..], args);
    PrependPrepend(result, fmt[i..n], FormatSpec(names, fmt[n..], args));
    if n < |fmt| {
      FormatDirective(names, fmt, n, args);
      if n + 1 < |fmt| && args != [] {
        var piece := FormatOne(names, fmt[n + 1], args[0]);
        if piece.Ok? {
          PrependPrepend(result + fmt[i..n], piece.value, FormatSpec(names, fmt[n + 2..], args[1..]));
        }
      }
    }
  }

  /** Text without directives is reproduced unchanged, whatever the arguments. */
  lemma {:induction false} FormatLiteral(names: map<Register, string>, fmt: string, args: seq<FormatArg>)
    requires '%' !in fmt
    ensures FormatSpec(names, fmt, args) == Ok(fmt)
  {
    if fmt != [] {
      assert fmt[0] != '%';
      assert '%' !in fmt[1..] by {
        assert forall k :: 0 <= k < |fmt| - 1 ==> fmt[1..][k] == fmt[k + 1];
      }
      FormatLiteral(names, fmt[1..], args);
      assert [fmt[0]] + fmt[1..] == fmt;
    }
  }

  /** A directive with no argument left to consume is an error. */
  lemma FormatMissingArgument(names: map<Register, string>, spec: char)
    ensures FormatSpec(names, ['%', spec], []).Fail?
    ensures FormatSpec(names, "%", []).Fail?
  {
  }

  /** Literal text in front of a format string is copied in front of its
      rendering. */
  lemma {:induction false} FormatLiteralConcat(names: map<Register, string>, p: string, q: string, args: seq<FormatArg>)
    requires '%' !in p
    ensures FormatSpec(names, p + q, args) == Prepend(p, FormatSpec(names, q, args))
  {
    if p == [] {
      assert p + q == q;
      PrependNil(FormatSpec(names, q, args));
    } else {
      assert (p + q)[1..] == p[1..] + q;
      assert '%' !in p[1..] by {
        assert forall k :: 0 <= k < |p| - 1 ==> p[1..][k] == p[k + 1];
      }
      FormatLiteralHead(names, p + q, args);
      FormatLiteralConcat(names, p[1..], q, args);
      PrependPrepend([p[0]], p[1..], FormatSpec(names, q, args));
      assert [p[0]] + p[1..] == p;
    }
  }

  /** One step of the rendering of a literal character. */
  lemma FormatLiteralHead(names: map<Register, string>, fmt: string, args: seq<FormatArg>)
    requires fmt != [] && fmt[0] != '%'
    ensures FormatSpec(names, fmt, args) == Prepend([fmt[0]], FormatSpec(names, fmt[1..], args))
  {
  }

  /** A leading directive consumes the first argument and renders it in
      front of the rest. */
  lemma FormatDirectiveThen(names: map<Register, string>, spec: char, q: string, arg: FormatArg, rest: seq<FormatArg>)
    ensures FormatOne(names, spec, arg).Ok? ==>
      FormatSpec(names, ['%', spec] + q, [arg] + rest) == Prepend(FormatOne(names, spec, arg).value, FormatSpec(names, q, rest))
    ensures FormatOne(names, spec, arg).Fail? ==>
      FormatSpec(names, ['%', spec] + q, [arg] + rest) == Fail(FormatOne(names, spec, arg).msg)
  {
    var fmt := ['%', spec] + q;
    assert fmt[0] == '%' && fmt[1] == spec && fmt[2..] == q;
    assert ([arg] + rest)[0] == arg && ([arg] + rest)[1..] == rest;
  }

  /** A format string that is a single directive renders its argument. */
  lemma FormatSingle(names: map<Register, string>, spec: char, arg: FormatArg)
    ensures FormatSpec(names, ['%', spec], [arg]) == FormatOne(names, spec, arg)
  {
    FormatDirectiveThen(names, spec, "", arg, []);
    assert ['%', spec] + "" == ['%', spec];
    assert [arg] + [] == [arg];
    var r := FormatOne(names, spec, arg);
    if r.Ok? {
      assert r.value + "" == r.value;
    }
  }

  /** A format string with one directive between two literal texts. */
  lemma FormatAround(names: map<Register, string>, a: string, spec: char, e: string, x: FormatArg)
    requires '%' !in a && '%' !in e
    requires FormatOne(names, spec, x).Ok?
    ensures FormatSpec(names, a + (['%', spec] + e), [x]) == Ok(a + (FormatOne(names, spec, x).value + e))
  {
    FormatLiteralConcat(names, a, ['%', spec] + e, [x]);
    assert [x] == [x] + [];
    FormatDirectiveThen(names, spec, e, x, []);
    FormatLiteral(names, e, []);
  }

  /** A format string with two directives separated by literal texts. */
  lemma FormatBetween(names: map<Register, string>, a: string, spec1: char, b: string, spec2: char, e: string,
                      x: FormatArg, y: FormatArg)
    requires '%' !in a && '%' !in b && '%' !in e
    requires FormatOne(names, spec1, x).Ok? && FormatOne(names, spec2, y).Ok?
    ensures FormatSpec(names, a + (['%', spec1] + (b + (['%', spec2] + e))), [x, y])
      == Ok(a + (FormatOne(names, spec1, x).value + (b + (FormatOne(names, spec2, y).value + e))))
  {
    var tail := b + (['%', spec2] + e);
    FormatAround(names, b, spec2, e, y);
    assert [x, y] == [x] + [y];
    FormatDirectiveThen(names, spec1, tail, x, [y]);
    FormatLiteralConcat(names, a, ['%', spec1] + tail, [x, y]);
  }

  /** Python's `fmt.find(c, i)`, reporting `|fmt|` for "not found". */
  function Find(fmt: string, c: char, i: nat): (n: nat)
    requires i <= |fmt|
    ensures i <= n <= |fmt|
    ensures c !in fmt[i..n]
    ensures n < |fmt| ==> fmt[n] == c
    decreases |fmt| - i
  {
    if i == |fmt| || fmt[i] == c then i
    else
      var n := Find(fmt, c, i + 1);
      assert fmt[i..n] == [fmt[i]] + fmt[i + 1..n];
      n
  }

  /** The registers' names, in register order. */
  function NamesOf(regs: seq<Register>, names: map<Register, string>): (r: seq<string>)
    requires forall k :: 0 <= k < |regs| ==> regs[k] in names
    ensures |r| == |regs| && forall k :: 0 <= k < |regs| ==> r[k] == names[regs[k]]
  {
    if regs == [] then [] else [names[regs[0]]] + NamesOf(regs[1..], names)
  }

  /** The registers' types, in register order. */
  function TypesOf(regs: seq<Register>, types: map<Register, RType>): (r: seq<RType>)
    requires forall k :: 0 <= k < |regs| ==> regs[k] in types
    ensures |r| == |regs| && forall k :: 0 <= k < |regs| ==> r[k] == types[regs[k]]
  {
    if regs == [] then [] else [types[regs[0]]] + TypesOf(regs[1..], types)
  }

  /** End of the run of types, from position `j` on, equal to the head type
      at `start` under Python's `==` (taken as `types[k] == types[start]`). */
  function RunEnd(ts: seq<RType>, start: nat, j: nat): (e: nat)
    requires start < j <= |ts|
    ensures j <= e <= |ts|
    ensures forall k :: j <= k < e ==> PyEq(ts[k], ts[start])
    ensures e < |ts| ==> !PyEq(ts[e], ts[start])
    decreases |ts| - j
  {
    if j < |ts| && PyEq(ts[j], ts[start]) then RunEnd(ts, start, j + 1) else j
  }

  /** A group of consecutive registers `[start, end)` listed on one line. */
  datatype Group = Group(start: nat, end: nat)

  /** The grouping of `to_lines`: the registers from `i` on, cut into maximal
      runs whose types equal the run's first type. The groups tile `[i, |ts|)`
      in order, and no group could be extended by the register after it. */
  function GroupsFrom(ts: seq<RType>, i: nat): (gs: seq<Group>)
    requires i <= |ts|
    ensures forall k :: 0 <= k < |gs| ==> i <= gs[k].start < gs[k].end <= |ts|
    decreases |ts| - i
  {
    if i == |ts| then []
    else
      var e := RunEnd(ts, i, i + 1);
      [Group(i, e)] + GroupsFrom(ts, e)
  }

  /** The groups tile `[i, |ts|)` in order; inside a group every type equals
      the group's first type, and the register after a group does not. */
  ghost predicate Tiles(ts: seq<RType>, i: nat, gs: seq<Group>) {
    && (gs == [] <==> i == |ts|)
    && (forall k :: 0 <= k < |gs| ==> gs[k].start < gs[k].end <= |ts|)
    && (gs != [] ==> gs[0].start == i && gs[|gs| - 1].end == |ts|)
    && (forall k :: 0 <= k < |gs| - 1 ==> gs[k].end == gs[k + 1].start)
    && (forall k, m :: 0 <= k < |gs| && gs[k].start < m < gs[k].end ==> PyEq(ts[m], ts[gs[k].start]))
    && (forall k :: 0 <= k < |gs| && gs[k].end < |ts| ==> !PyEq(ts[gs[k].end], ts[gs[k].start]))
  }

  lemma {:induction false} GroupsTile(ts: seq<RType>, i: nat)
    requires i <= |ts|
    ensures Tiles(ts, i, GroupsFrom(ts, i))
    decreases |ts| - i
  {
    if i < |ts| {
      var e := RunEnd(ts, i, i + 1);
      GroupsTile(ts, e);
      TilesCons(ts, i, e, GroupsFrom(ts, e));
    }
  }

  /** A maximal run in front of a tiling of the rest tiles the whole. */
  lemma TilesCons(ts: seq<RType>, i: nat, e: nat, rest: seq<Group>)
    requires i < e <= |ts| && Tiles(ts, e, rest)
    requires forall m :: i < m < e ==> PyEq(ts[m], ts[i])
    requires e < |ts| ==> !PyEq(ts[e], ts[i])
    ensures Tiles(ts, i, [Group(i, e)] + rest)
  {
    var gs := [Group(i, e)] + rest;
    assert forall k :: 0 < k < |gs| ==> gs[k] == rest[k - 1];
  }

  /** `'%s :: %s' % (', '.join(group), types[i0])`. */
  function GroupLine(ns: seq<string>, ts: seq<RType>, g: Group): string
    requires |ns| == |ts| && g.start < g.end <= |ts|
  {
    Join(ns[g.start..g.end], ", ") + " :: " + TypeStr(ts[g.start])
  }

  function GroupLines(ns: seq<string>, ts: seq<RType>, gs: seq<Group>): (r: seq<string>)
    requires |ns| == |ts|
    requires forall k :: 0 <= k < |gs| ==> gs[k].start < gs[k].end <= |ts|
    ensures |r| == |gs|
  {
    if gs == [] then [] else [GroupLine(ns, ts, gs[0])] + GroupLines(ns, ts, gs[1..])
  }

  /** The inner loop of `to_lines`: collects the names of the run that
      starts at `i0`; `i` ends on the run's last register. */
  method ScanRun(ns: seq<string>, ts: seq<RType>, i0: nat) returns (i: nat, group: seq<string>)
    requires |ns| == |ts| && i0 < |ts|
    ensures i + 1 == RunEnd(ts, i0, i0 + 1)
    ensures group == ns[i0..i + 1]
  {
    var n := |ns|;
    i := i0;
    group := [ns[i0]];
    while i + 1 < n && PyEq(ts[i + 1], ts[i0])
      invariant i0 <= i < n
      invariant RunEnd(ts, i0, i0 + 1) == RunEnd(ts, i0, i + 1)
      invariant group == ns[i0..i + 1]
    {
      RunStep(ns, ts, i0, i);
      i := i + 1;
      group := group + [ns[i]];
    }
  }

  /** One more register of the head's type extends the run's names and
      leaves the run's end where it was. */
  lemma RunStep(ns: seq<string>, ts: seq<RType>, i0: nat, i: nat)
    requires |ns| == |ts| && i0 <= i && i + 1 < |ts| && PyEq(ts[i + 1], ts[i0])
    ensures RunEnd(ts, i0, i + 1) == RunEnd(ts, i0, i + 2)
    ensures ns[i0..i + 2] == ns[i0..i + 1] + [ns[i + 1]]
  {
    SliceSnoc(ns, i0, i + 1);
  }

  /** The outer loop of `to_lines`: `names :: type` for each maximal run
      of consecutive registers of equal type. */
  method GroupedLines(ns: seq<string>, ts: seq<RType>) returns (result: seq<string>)
    requires |ns| == |ts|
    ensures result == GroupLines(ns, ts, GroupsFrom(ts, 0))
  {
    var n := |ns|;
    result := [];
    var i := 0;
    while i < n
      invariant 0 <= i <= n
      invariant result + GroupLines(ns, ts, GroupsFrom(ts, i)) == GroupLines(ns, ts, GroupsFrom(ts, 0))
    {
      var i0 := i;
      var group;
      i, group := ScanRun(ns, ts, i0);
      i := i + 1;
      var line := Join(group, ", ") + " :: " + TypeStr(ts[i0]);
      assert GroupsFrom(ts, i0) == [Group(i0, i)] + GroupsFrom(ts, i);
      assert GroupLine(ns, ts, Group(i0, i)) == line;
      assert GroupLines(ns, ts, GroupsFrom(ts, i0)) == [line] + GroupLines(ns, ts, GroupsFrom(ts, i));
      result := result + [line];
    }
  }

  /** A value snapshot of an environment, as other components read it. */
  datatype EnvState = EnvState(
    regs: seq<Register>,
    indexes: map<Register, int>,
    names: map<Register, string>,
    types: map<Register, RType>)

  /** The three dictionaries share their keys, which are the registers
      listed once each in insertion order. */
  ghost predicate ValidTables(regs: seq<Register>, indexes: map<Register, int>, names: map<Register, string>,
                              types: map<Register, RType>) {
    NoDuplicates(regs)
    && (forall r :: r in names <==> r in regs)
    && names.Keys == types.Keys && names.Keys == indexes.Keys
  }

  /** Register `k` in insertion order has index `k`. */
  ghost predicate DenseIndexes(regs: seq<Register>, indexes: map<Register, int>) {
    forall k :: 0 <= k < |regs| ==> regs[k] in indexes && indexes[regs[k]] == k
  }

  /** Every numbered register sits at the position given by its number. */
  predicate NumberedRegs(regs: seq<Register>) {
    forall k :: 0 <= k < |regs| ==> regs[k].CRegister? ==> regs[k].index == k
  }

  /** What `add` does to the tables: a new register goes last with the next
      index; the tables stay valid, dense and numbered where they were. */
  lemma AddKeepsTables(regs: seq<Register>, indexes: map<Register, int>, names: map<Register, string>,
                       types: map<Register, RType>, reg: Register, name: string, typ: RType)
    requires ValidTables(regs, indexes, names, types)
    ensures var regs' := if reg in names then regs else regs + [reg];
      var indexes' := indexes[reg := |regs|];
      && ValidTables(regs', indexes', names[reg := name], types[reg := typ])
      && (reg !in names && DenseIndexes(regs, indexes) ==> DenseIndexes(regs', indexes'))
      && (reg !in names && NumberedRegs(regs) && (reg.CRegister? ==> reg.index == |regs|) ==> NumberedRegs(regs'))
  {
    if reg !in names {
      assert reg !in regs;
      var regs' := regs + [reg];
      assert regs'[|regs|] == reg && regs'[..|regs|] == regs;
      assert forall k :: 0 <= k < |regs| ==> regs'[k] == regs[k];
    }
  }

  /** An op that has a type names its result after its own identity. */
  lemma TypedDest(op: Op)
    requires IsRegisterOp(op) && TypeOf(op).Ok? && TypeOf(op).value.Some?
    ensures Dest(op).Some? && Dest(op).value.OpRegister?
  {
  }

  class Environment {
    /** The registers in insertion order (the key order of `names`). */
    var regs: seq<Register>
    var indexes: map<Register, int>
    var names: map<Register, string>
    var types: map<Register, RType>
    var symtable: map<Var, Register>
    var tempIndex: nat

    /** The three dictionaries share their keys, which are the registers. */
    ghost predicate Valid()
      reads this
    {
      ValidTables(regs, indexes, names, types)
    }

    /** Register `k` in insertion order has index `k`: no gaps, no repeats. */
    ghost predicate Dense()
      reads this
      requires Valid()
    {
      DenseIndexes(regs, indexes)
    }

    /** Every numbered register sits at the position given by its number. */
    predicate Numbered()
      reads this
    {
      NumberedRegs(regs)
    }

    function State(): EnvState
      reads this
    {
      EnvState(regs, indexes, names, types)
    }

    constructor()
      ensures regs == [] && indexes == map[] && names == map[] && types == map[]
      ensures symtable == map[] && tempIndex == 0
      ensures Valid() && Dense() && Numbered()
    {
      regs := [];
      indexes := map[];
      names := map[];
      types := map[];
      symtable := map[];
      tempIndex := 0;
    }

    /** `add`: the register's index is the number of registers before the
        call; a register added again keeps its place but takes the new index,
        name and type. */
    method Add(reg: Register, name: string, typ: RType)
      requires Valid()
      modifies this
      ensures Valid()
      ensures indexes == old(indexes)[reg := |old(regs)|]
      ensures names == old(names)[reg := name]
      ensures types == old(types)[reg := typ]
      ensures regs == if reg in old(names) then old(regs) else old(regs) + [reg]
      ensures symtable == old(symtable) && tempIndex == old(tempIndex)
      ensures reg !in old(names) && old(Dense()) ==> Dense()
      ensures reg !in old(names) && old(Numbered()) && (reg.CRegister? ==> reg.index == |old(regs)|) ==> Numbered()
    {
      var n := |regs|;
      AddKeepsTables(regs, indexes, names, types, reg, name, typ);
      var regs' := if reg in names then regs else regs + [reg];
      regs, indexes, names, types := regs', indexes[reg := n], names[reg := name], types[reg := typ];
    }

    /** Under `Numbered`, the next numbered register is not yet in use. */
    lemma NextRegisterFresh()
      requires Valid() && Numbered()
      ensures CRegister(|regs|) !in names
    {
      assert CRegister(|regs|) !in regs;
    }

    /** `add_local`: a new numbered register named after the variable, bound
        to it in the symbol table. */
    method AddLocal(v: Var, typ: RType) returns (reg: Register)
      requires Valid()
      modifies this
      ensures Valid()
      ensures reg == CRegister(|old(regs)|)
      ensures names == old(names)[reg := v.name] && types == old(types)[reg := typ]
      ensures indexes == old(indexes)[reg := |old(regs)|]
      ensures regs == if reg in old(names) then old(regs) else old(regs) + [reg]
      ensures symtable == old(symtable)[v := reg] && tempIndex == old(tempIndex)
      ensures Lookup(v) == Ok(reg)
      ensures forall w :: w != v ==> Lookup(w) == old(Lookup(w))
      ensures old(Numbered()) ==> Numbered() && regs == old(regs) + [reg] && (old(Dense()) ==> Dense())
    {
      reg := CRegister(|regs|);
      if Numbered() {
        NextRegisterFresh();
      }
      symtable := symtable[v := reg];
      Add(reg, v.name, typ);
    }

    /** `lookup`: the register bound to a variable; an unbound one is a `KeyError`. */
    function Lookup(v: Var): (r: Result<Register>)
      reads this
      ensures r.Ok? <==> v in symtable
    {
      if v in symtable then Ok(symtable[v]) else Fail("KeyError")
    }

    /** `add_temp`: a new numbered register named `r<temp_index>`; the temp
        counter advances by one. */
    method AddTemp(typ: RType) returns (reg: Register)
      requires Valid()
      modifies this
      ensures Valid()
      ensures reg == CRegister(|old(regs)|)
      ensures names == old(names)[reg := "r" + IntToString(old(tempIndex))]
      ensures types == old(types)[reg := typ]
      ensures indexes == old(indexes)[reg := |old(regs)|]
      ensures regs == if reg in old(names) then old(regs) else old(regs) + [reg]
      ensures tempIndex == old(tempIndex) + 1 && symtable == old(symtable)
      ensures old(Numbered()) ==> Numbered() && regs == old(regs) + [reg] && (old(Dense()) ==> Dense())
    {
      reg := CRegister(|regs|);
      if Numbered() {
        NextRegisterFresh();
      }
      AddNamedTemp(reg, typ);
    }

    /** `add_op`: registers an op under its own identity with a fresh temp
        name; nothing happens for an op without a type, and a strict op whose
        type was never set is an assertion failure. */
    method AddOp(op: Op) returns (outcome: Outcome)
      requires Valid() && IsRegisterOp(op)
      modifies this
      ensures Valid()
      ensures outcome.Pass? <==> TypeOf(op).Ok?
      ensures TypeOf(op).Fail? || TypeOf(op).value.None? ==>
        regs == old(regs) && indexes == old(indexes) && names == old(names)
        && types == old(types) && tempIndex == old(tempIndex)
      ensures TypeOf(op).Ok? && TypeOf(op).value.Some? ==>
        Dest(op).Some?
        && names == old(names)[Dest(op).value := "r" + IntToString(old(tempIndex))]
        && types == old(types)[Dest(op).value := TypeOf(op).value.value]
        && indexes == old(indexes)[Dest(op).value := |old(regs)|]
        && regs == (if Dest(op).value in old(names) then old(regs) else old(regs) + [Dest(op).value])
        && tempIndex == old(tempIndex) + 1
      ensures TypeOf(op).Ok? && TypeOf(op).value.Some? && Dest(op).value !in old(names) && old(Numbered()) ==>
        Numbered() && (old(Dense()) ==> Dense())
      ensures symtable == old(symtable)
    {
      var t := TypeOf(op);
      if t.Fail? {
        return Failed(t.msg);
      }
      if t.value.None? {
        return Pass;
      }
      TypedDest(op);
      AddNamedTemp(Dest(op).value, t.value.value);
      outcome := Pass;
    }

    /** `add` of a register under the next temp name, advancing the counter. */
    method AddNamedTemp(reg: Register, typ: RType)
      requires Valid()
      modifies this
      ensures Valid()
      ensures names == old(names)[reg := "r" + IntToString(old(tempIndex))]
      ensures types == old(types)[reg := typ]
      ensures indexes == old(indexes)[reg := |old(regs)|]
      ensures regs == if reg in old(names) then old(regs) else old(regs) + [reg]
      ensures tempIndex == old(tempIndex) + 1 && symtable == old(symtable)
      ensures reg !in old(names) && old(Numbered()) && (reg.CRegister? ==> reg.index == |old(regs)|) ==>
        Numbered() && (old(Dense()) ==> Dense())
    {
      Add(reg, "r" + IntToString(tempIndex), typ);
      tempIndex := tempIndex + 1;
    }

    /** `format`, rendered with a scan over the format string. */
    method Format(fmt: string, args: seq<FormatArg>) returns (r: Result<string>)
      ensures r == FormatSpec(names, fmt, args)
    {
      r := ScanFormat(names, fmt, args);
    }

    /** Every register in insertion order has a name and a type. */
    lemma RegistersKnown()
      requires Valid()
      ensures forall k :: 0 <= k < |regs| ==> regs[k] in names && regs[k] in types
    {
    }

    /** The grouped `names :: type` lines of the registers in insertion order. */
    ghost function Listing(): seq<string>
      reads this
      requires Valid()
    {
      RegistersKnown();
      GroupLines(NamesOf(regs, names), TypesOf(regs, types), GroupsFrom(TypesOf(regs, types), 0))
    }

    /** `to_lines`: the registers' names and types in register order,
        listed one line per maximal run of equal types. */
    method ToLines() returns (result: seq<string>)
      requires Valid()
      ensures result == Listing()
    {
      RegistersKnown();
      var ns := NamesOf(regs, names);
      var ts := TypesOf(regs, types);
      result := GroupedLines(ns, ts);
    }
  }
}
