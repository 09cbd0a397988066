/** Module assembly (mypyc/emitmodule.py): the shared header declarations
    and their topological order, the module definition and init routine of
    each module, and the order in which the pieces of the C file are
    written. */
module EmitModule {
  import opened Wrappers
  import opened Strings
  import opened RTypes
  import opened Ops
  import opened IR
  import opened Emit
  import opened EmitFunc
  import opened CString

  // ------------------------------------------------------------ declarations

  type Table = map<string, HeaderDeclaration>

  /** `MarkedDeclaration`: a declaration with the visited mark of the sort. */
  datatype MarkedDeclaration = MarkedDeclaration(declaration: HeaderDeclaration, mark: bool)

  /** `MarkedDeclaration(declaration, mark)`: the constructor ignores its
      `mark` argument and always starts unmarked. */
  function NewMarkedDeclaration(declaration: HeaderDeclaration, mark: bool): (r: MarkedDeclaration)
    ensures r.declaration == declaration && !r.mark
  {
    MarkedDeclaration(declaration, false)
  }

  /** `declare_global`: the line that declares a global of the given type. */
  function GlobalLine(typeSpaced: string, name: string, isStatic: bool): string {
    (if isStatic then "static " else "") + typeSpaced + name + ";"
  }

  /** The declaration order and table after `declare_global`: a name not
      yet declared is appended with no dependencies and its one line; a
      declared name leaves both as they were. */
  function DeclareGlobalIn(order: seq<string>, table: Table, typeSpaced: string, name: string, isStatic: bool): (r: (seq<string>, Table))
    ensures name in r.1
    ensures name in table ==> r == (order, table)
    ensures name !in table ==>
      && r.0 == order + [name]
      && r.1 == table[name := HeaderDeclaration({}, [GlobalLine(typeSpaced, name, isStatic)])]
  {
    if name in table then (order, table)
    else (order + [name], table[name := HeaderDeclaration({}, [GlobalLine(typeSpaced, name, isStatic)])])
  }

  /** Declaring the same global twice is declaring it once, whatever the
      type and static flag of the second call. */
  lemma DeclareGlobalIdempotent(order: seq<string>, table: Table, typeSpaced: string, name: string, isStatic: bool,
                                typeSpaced2: string, isStatic2: bool)
    ensures var once := DeclareGlobalIn(order, table, typeSpaced, name, isStatic);
      DeclareGlobalIn(once.0, once.1, typeSpaced2, name, isStatic2) == once
  {
  }

  /** Each declared name is in the order exactly once. */
  ghost predicate Listed(order: seq<string>, table: Table) {
    NoDuplicates(order) && forall name :: name in table <==> name in order
  }

  /** `declare_global` keeps the order listing each declared name once. */
  lemma DeclareGlobalKeepsListed(order: seq<string>, table: Table, typeSpaced: string, name: string, isStatic: bool)
    requires Listed(order, table)
    ensures var r := DeclareGlobalIn(order, table, typeSpaced, name, isStatic); Listed(r.0, r.1)
  {
  }

  /** No declaration depends on another. */
  ghost predicate Independent(table: Table) {
    forall name :: name in table ==> table[name].dependencies == {}
  }

  // ------------------------------------------------------ topological order

  /** The dependencies are acyclic, witnessed by a rank that decreases
      along every dependency. */
  ghost predicate Ranked(table: Table, rank: map<string, nat>) {
    forall n :: n in table ==>
      n in rank && forall d :: d in table[n].dependencies ==> d in rank && rank[d] < rank[n]
  }

  /** `to` is reached from `from` along zero or more dependencies. */
  ghost predicate Reaches(table: Table, rank: map<string, nat>, from: string, to: string)
    requires Ranked(table, rank) && from in rank
    decreases rank[from]
  {
    from == to || (from in table && exists d :: d in table[from].dependencies && Reaches(table, rank, d, to))
  }

  /** Some dependency names a declaration that does not exist. */
  ghost predicate MissingDependency(table: Table) {
    exists n, d :: n in table && d in table[n].dependencies && d !in table
  }

  /** The name is a dependency of some declaration. */
  ghost predicate IsDependency(table: Table, name: string) {
    exists n :: n in table && name in table[n].dependencies
  }

  /** Every dependency of a listed declaration is listed before it. */
  ghost predicate DepsBefore(table: Table, order: seq<string>) {
    (forall k :: 0 <= k < |order| ==> order[k] in table)
    && forall k, d :: 0 <= k < |order| && d in table[order[k]].dependencies ==> d in order[..k]
  }

  /** `n` is reached from one of the first `bound` roots. */
  ghost predicate ReachedBy(table: Table, rank: map<string, nat>, roots: seq<string>, bound: nat, n: string)
    requires Ranked(table, rank) && bound <= |roots| && forall j :: 0 <= j < |roots| ==> roots[j] in rank
  {
    exists j :: 0 <= j < bound && Reaches(table, rank, roots[j], n)
  }

  /** Reaching never climbs the rank. */
  lemma {:induction false} ReachesRank(table: Table, rank: map<string, nat>, from: string, to: string)
    requires Ranked(table, rank) && from in rank && Reaches(table, rank, from, to)
    ensures to in rank && rank[to] <= rank[from]
    decreases rank[from]
  {
    if from != to {
      var d :| d in table[from].dependencies && Reaches(table, rank, d, to);
      ReachesRank(table, rank, d, to);
    }
  }

  /** A listed declaration's whole reach is listed. */
  lemma {:induction false} ReachesListed(table: Table, rank: map<string, nat>, order: seq<string>, from: string, to: string)
    requires Ranked(table, rank) && DepsBefore(table, order) && from in order && Reaches(table, rank, from, to)
    ensures to in order
    decreases rank[from]
  {
    if from != to {
      var d :| d in table[from].dependencies && Reaches(table, rank, d, to);
      var k :| 0 <= k < |order| && order[k] == from;
      assert d in order[..k];
      ReachesListed(table, rank, order, d, to);
    }
  }

  /** The marked names are exactly those in the result, each once, each
      after its dependencies, and the result holds their declarations. */
  ghost predicate SortState(table: Table, rank: map<string, nat>, marks: map<string, MarkedDeclaration>,
                            result: seq<HeaderDeclaration>, order: seq<string>) {
    && Ranked(table, rank)
    && (forall n :: n in marks <==> n in table)
    && (forall n :: n in marks ==> marks[n].declaration == table[n] && (marks[n].mark <==> n in order))
    && NoDuplicates(order)
    && DepsBefore(table, order)
    && |result| == |order|
    && (forall k :: 0 <= k < |order| ==> result[k] == table[order[k]])
  }

  /** Appending an unlisted declaration whose dependencies are all listed,
      and marking it, keeps the state. */
  lemma AppendDeclaration(table: Table, rank: map<string, nat>, marks: map<string, MarkedDeclaration>,
                          result: seq<HeaderDeclaration>, order: seq<string>, name: string)
    requires SortState(table, rank, marks, result, order)
    requires name in table && name !in order
    requires forall d :: d in table[name].dependencies ==> d in order
    ensures SortState(table, rank, marks[name := MarkedDeclaration(table[name], true)],
                      result + [table[name]], order + [name])
  {
    var order2 := order + [name];
    assert order2[..|order|] == order;
    forall k | 0 <= k < |order|
      ensures order2[..k] == order[..k]
    {
    }
  }

  /** Visiting one more dependency `child` adds what `child` reaches. */
  lemma ReachStep(table: Table, rank: map<string, nat>, deps: set<string>, todo: set<string>, child: string,
                  start: seq<string>, before: seq<string>, after: seq<string>)
    requires Ranked(table, rank) && forall d :: d in deps ==> d in rank
    requires child in todo && todo <= deps
    requires forall n :: n in before <==> n in start || exists d :: d in deps && d !in todo && Reaches(table, rank, d, n)
    requires forall n :: n in after <==> n in before || Reaches(table, rank, child, n)
    ensures forall n :: n in after <==>
      n in start || exists d :: d in deps && d !in todo - {child} && Reaches(table, rank, d, n)
  {
    forall n
      ensures n in after <==>
        n in start || exists d :: d in deps && d !in todo - {child} && Reaches(table, rank, d, n)
    {
      if Reaches(table, rank, child, n) {
        assert child in deps && child !in todo - {child};
      }
    }
  }

  lemma PrefixOfPrefix<T>(a: seq<T>, b: seq<T>, c: seq<T>)
    requires |a| <= |b| && b[..|a|] == a && |b| <= |c| && c[..|b|] == b
    ensures |a| <= |c| && c[..|a|] == a
  {
    assert c[..|a|] == c[..|b|][..|a|];
  }

  /** The result of the sort names every declaration exactly once, gives
      each declaration's body in that order, lists every dependency before
      the declaration that needs it, and visits the roots in insertion
      order: the root at position `j` comes before every name that none of
      the roots up to `j` reaches. */
  ghost predicate Toposorted(table: Table, rank: map<string, nat>, keys: seq<string>, sorted: seq<string>,
                             result: seq<HeaderDeclaration>)
    requires Ranked(table, rank) && forall j :: 0 <= j < |keys| ==> keys[j] in rank
  {
    Arranged(table, sorted, result) && RootsFirst(table, rank, keys, sorted)
  }

  /** Every declaration exactly once, each after its dependencies. */
  ghost predicate Arranged(table: Table, sorted: seq<string>, result: seq<HeaderDeclaration>) {
    && NoDuplicates(sorted)
    && (forall n :: n in sorted <==> n in table)
    && |result| == |sorted|
    && (forall k :: 0 <= k < |sorted| ==> result[k] == table[sorted[k]])
    && DepsBefore(table, sorted)
  }

  /** The root at position `j` precedes every name that no root up to `j`
      reaches. */
  ghost predicate RootsFirst(table: Table, rank: map<string, nat>, keys: seq<string>, sorted: seq<string>)
    requires Ranked(table, rank) && forall j :: 0 <= j < |keys| ==> keys[j] in rank
  {
    forall j, k :: 0 <= j < |keys| && 0 <= k < |sorted| && !ReachedBy(table, rank, keys, j + 1, sorted[k]) ==>
      keys[j] in sorted[..k]
  }

  /** Without dependencies a name reaches only itself. */
  lemma IndependentReach(table: Table, rank: map<string, nat>, a: string, b: string)
    requires Ranked(table, rank) && Independent(table) && a in rank && Reaches(table, rank, a, b)
    ensures a == b
  {
  }

  /** Without dependencies, the name sorted at `k` after an agreeing
      prefix is the `k`-th inserted name. */
  lemma IndependentStep(table: Table, rank: map<string, nat>, keys: seq<string>, sorted: seq<string>,
                        result: seq<HeaderDeclaration>, k: nat)
    requires Ranked(table, rank) && Independent(table) && Listed(keys, table)
    requires Arranged(table, sorted, result) && RootsFirst(table, rank, keys, sorted)
    requires k < |keys| && k <= |sorted| && forall i :: 0 <= i < k ==> sorted[i] == keys[i]
    ensures k < |sorted| && sorted[k] == keys[k]
  {
    assert keys[k] in table;
    PrefixAgrees(keys, sorted, k);
    var x := sorted[k];
    RootReaches(table, rank, keys, sorted, k);
    var j :| 0 <= j < k + 1 && Reaches(table, rank, keys[j], x);
    IndependentReach(table, rank, keys[j], x);
    AgreeingPrefixAt(keys, sorted, k, j);
  }

  /** A name sorted before the `k`-th root is reached by one of the roots
      up to it. */
  lemma RootReaches(table: Table, rank: map<string, nat>, keys: seq<string>, sorted: seq<string>, k: nat)
    requires Ranked(table, rank) && Listed(keys, table) && RootsFirst(table, rank, keys, sorted)
    requires k < |keys| && k < |sorted| && keys[k] !in sorted[..k]
    ensures ReachedBy(table, rank, keys, k + 1, sorted[k])
  {
  }

  /** In a duplicate-free sequence agreeing with the keys before `k`, the
      name at `k` is none of the earlier keys. */
  lemma AgreeingPrefixAt(keys: seq<string>, sorted: seq<string>, k: nat, j: nat)
    requires NoDuplicates(sorted) && j <= k < |sorted| && k < |keys| && forall i :: 0 <= i < k ==> sorted[i] == keys[i]
    requires keys[j] == sorted[k]
    ensures j == k
  {
  }

  /** After a prefix on which two duplicate-free sequences agree, the next
      key is not in the prefix, and it follows the prefix when it occurs. */
  lemma PrefixAgrees(keys: seq<string>, sorted: seq<string>, k: nat)
    requires NoDuplicates(keys) && k < |keys| && k <= |sorted| && forall i :: 0 <= i < k ==> sorted[i] == keys[i]
    requires keys[k] in sorted
    ensures keys[k] !in sorted[..k] && k < |sorted|
  {
    forall i | 0 <= i < k
      ensures sorted[i] != keys[k]
    {
      assert keys[i] != keys[k];
    }
    var j :| 0 <= j < |sorted| && sorted[j] == keys[k];
    assert k <= j;
  }

  /** In a duplicate-free sequence, nothing after a prefix occurs in it. */
  lemma BeyondPrefix(sorted: seq<string>, keys: seq<string>)
    requires NoDuplicates(sorted) && |keys| <= |sorted| && forall i :: 0 <= i < |keys| ==> sorted[i] == keys[i]
    ensures forall i :: |keys| <= i < |sorted| ==> sorted[i] !in keys
    ensures |keys| < |sorted| ==> sorted[|keys|] in sorted && sorted[|keys|] !in keys
  {
    forall i | |keys| <= i < |sorted|
      ensures sorted[i] !in keys
    {
      forall j | 0 <= j < |keys|
        ensures keys[j] != sorted[i]
      {
        assert sorted[j] == keys[j];
      }
    }
  }

  /** Without dependencies the sort keeps the insertion order. */
  lemma {:induction false} IndependentKeepsOrder(table: Table, rank: map<string, nat>, keys: seq<string>, sorted: seq<string>,
                                                 result: seq<HeaderDeclaration>)
    requires Ranked(table, rank) && Independent(table) && Listed(keys, table)
    requires Toposorted(table, rank, keys, sorted, result)
    ensures sorted == keys
  {
    var k := 0;
    while k < |keys|
      invariant k <= |keys| && k <= |sorted| && forall i :: 0 <= i < k ==> sorted[i] == keys[i]
    {
      IndependentStep(table, rank, keys, sorted, result, k);
      k := k + 1;
    }
    BeyondPrefix(sorted, keys);
    assert |sorted| == |keys|;
  }

  /** The state of `_toposort_visit`: the marked declarations and the
      result list it appends to, with the names of the result in order. */
  class DeclarationSort {
    const table: Table
    ghost const rank: map<string, nat>
    var marks: map<string, MarkedDeclaration>
    var result: seq<HeaderDeclaration>
    ghost var order: seq<string>

    ghost predicate Valid()
      reads this
    {
      SortState(table, rank, marks, result, order)
    }

    constructor(table: Table, ghost rank: map<string, nat>, marks: map<string, MarkedDeclaration>)
      requires Ranked(table, rank)
      requires forall n :: n in marks <==> n in table
      requires forall n :: n in marks ==> marks[n] == MarkedDeclaration(table[n], false)
      ensures Valid() && this.table == table && this.rank == rank && order == [] && result == []
    {
      this.table := table;
      this.rank := rank;
      this.marks := marks;
      result := [];
      order := [];
    }

    /** `_toposort_visit(name)`: an unmarked declaration is appended after
        everything its dependencies reach; a marked one is left alone. The
        names appended are exactly those reached from `name` that were not
        listed yet. A missing name is a `KeyError`. */
    method Visit(name: string) returns (outcome: Outcome)
      requires Valid() && name in rank
      requires name in table || IsDependency(table, name)
      modifies this
      ensures Valid()
      ensures outcome.Failed? ==> MissingDependency(table)
      ensures outcome.Pass? ==>
        && name in order
        && |old(order)| <= |order| && order[..|old(order)|] == old(order)
        && forall n :: n in order <==> n in old(order) || Reaches(table, rank, name, n)
      decreases rank[name], 1
    {
      if name !in marks {
        return Failed("KeyError");
      }
      var decl := marks[name];
      if decl.mark {
        forall n | Reaches(table, rank, name, n)
          ensures n in order
        {
          ReachesListed(table, rank, order, name, n);
        }
        return Pass;
      }
      ghost var start := order;
      outcome := VisitDependencies(name);
      if outcome.Failed? {
        return;
      }
      AppendDeclaration(table, rank, marks, result, order, name);
      ghost var listed := order;
      result := result + [decl.declaration];
      order := order + [name];
      marks := marks[name := decl.(mark := true)];
      assert order[..|listed|] == listed;
      assert order[..|start|] == start by {
        assert listed[..|start|] == start;
      }
      forall n
        ensures n in order <==> n in start || Reaches(table, rank, name, n)
      {
        assert n in order <==> n in listed || n == name;
      }
      outcome := Pass;
    }

    /** The loop of `_toposort_visit` over the dependencies of `name`, in
        whatever order the set yields them. */
    method VisitDependencies(name: string) returns (outcome: Outcome)
      requires Valid() && name in table && name !in order
      modifies this
      ensures Valid()
      ensures outcome.Failed? ==> MissingDependency(table)
      ensures outcome.Pass? ==>
        && name !in order && marks[name] == old(marks[name])
        && |old(order)| <= |order| && order[..|old(order)|] == old(order)
        && (forall d :: d in table[name].dependencies ==> d in order)
        && forall n :: n in order <==>
             n in old(order) || exists d :: d in table[name].dependencies && Reaches(table, rank, d, n)
      decreases rank[name], 0
    {
      ghost var start := order;
      ghost var decl := marks[name];
      var todo := marks[name].declaration.dependencies;
      while todo != {}
        invariant Valid()
        invariant todo <= table[name].dependencies
        invariant name !in order && marks[name] == decl
        invariant |start| <= |order| && order[..|start|] == start
        invariant forall d :: d in table[name].dependencies && d !in todo ==> d in order
        invariant forall n :: n in order <==>
          n in start || exists d :: d in table[name].dependencies && d !in todo && Reaches(table, rank, d, n)
        decreases |todo|
      {
        var child :| child in todo;
        ghost var before := order;
        outcome := Visit(child);
        if outcome.Failed? {
          return;
        }
        forall n | Reaches(table, rank, child, n)
          ensures n != name
        {
          ReachesRank(table, rank, child, n);
        }
        ReachStep(table, rank, table[name].dependencies, todo, child, start, before, order);
        PrefixOfPrefix(start, before, order);
        todo := todo - {child};
      }
      outcome := Pass;
    }
  }

  /** `n` is reached from the first `i + 1` roots exactly when it is
      reached from the first `i` or from root `i`. */
  lemma ReachedByStep(table: Table, rank: map<string, nat>, roots: seq<string>, i: nat, n: string)
    requires Ranked(table, rank) && i < |roots| && forall j :: 0 <= j < |roots| ==> roots[j] in rank
    ensures ReachedBy(table, rank, roots, i + 1, n) <==>
      ReachedBy(table, rank, roots, i, n) || Reaches(table, rank, roots[i], n)
  {
    if ReachedBy(table, rank, roots, i + 1, n) && !Reaches(table, rank, roots[i], n) {
      var j :| 0 <= j < i + 1 && Reaches(table, rank, roots[j], n);
      assert j < i;
    }
  }

  /** The order after visiting roots up to `bound`: each root before the
      names that only later roots reach. */
  ghost predicate RootsFirstUpTo(table: Table, rank: map<string, nat>, keys: seq<string>, bound: nat, sorted: seq<string>)
    requires Ranked(table, rank) && bound <= |keys| && forall j :: 0 <= j < |keys| ==> keys[j] in rank
  {
    forall j, k :: 0 <= j < bound && 0 <= k < |sorted| && !ReachedBy(table, rank, keys, j + 1, sorted[k]) ==>
      keys[j] in sorted[..k]
  }

  /** Every root already visited is listed, since each reaches itself. */
  lemma RootsListed(table: Table, rank: map<string, nat>, keys: seq<string>, i: nat, order: seq<string>)
    requires Ranked(table, rank) && i <= |keys| && forall j :: 0 <= j < |keys| ==> keys[j] in rank
    requires forall n :: n in order <==> ReachedBy(table, rank, keys, i, n)
    ensures forall j :: 0 <= j < i ==> keys[j] in order
  {
    forall j | 0 <= j < i
      ensures keys[j] in order
    {
      assert Reaches(table, rank, keys[j], keys[j]);
    }
  }

  /** Visiting root `i` lists exactly what the first `i + 1` roots reach. */
  lemma RootsReachedStep(table: Table, rank: map<string, nat>, keys: seq<string>, i: nat,
                         before: seq<string>, after: seq<string>)
    requires Ranked(table, rank) && i < |keys| && forall j :: 0 <= j < |keys| ==> keys[j] in rank
    requires forall n :: n in before <==> ReachedBy(table, rank, keys, i, n)
    requires forall n :: n in after <==> n in before || Reaches(table, rank, keys[i], n)
    ensures forall n :: n in after <==> ReachedBy(table, rank, keys, i + 1, n)
  {
    forall n
      ensures n in after <==> ReachedBy(table, rank, keys, i + 1, n)
    {
      ReachedByStep(table, rank, keys, i, n);
    }
  }

  /** Visiting root `i` extends an order that holds every earlier root, so
      the earlier roots still come first. */
  lemma RootsFirstStep(table: Table, rank: map<string, nat>, keys: seq<string>, i: nat,
                       before: seq<string>, after: seq<string>)
    requires Ranked(table, rank) && i < |keys| && forall j :: 0 <= j < |keys| ==> keys[j] in rank
    requires RootsFirstUpTo(table, rank, keys, i, before)
    requires forall j :: 0 <= j < i ==> keys[j] in before
    requires |before| <= |after| && after[..|before|] == before
    requires forall n :: n in after ==> ReachedBy(table, rank, keys, i + 1, n)
    ensures RootsFirstUpTo(table, rank, keys, i + 1, after)
  {
    forall j, k | 0 <= j < i + 1 && 0 <= k < |after| && !ReachedBy(table, rank, keys, j + 1, after[k])
      ensures keys[j] in after[..k]
    {
      assert after[k] in after;
      if k < |before| {
        assert after[..k] == before[..k];
        assert after[k] == before[k];
      } else {
        assert keys[j] in after[..|before|];
      }
    }
  }

  /** A complete arrangement names no missing dependency. */
  lemma ArrangedComplete(table: Table, sorted: seq<string>, result: seq<HeaderDeclaration>)
    requires Arranged(table, sorted, result)
    ensures !MissingDependency(table)
  {
    forall n, d | n in table && d in table[n].dependencies
      ensures d in table
    {
      var k :| 0 <= k < |sorted| && sorted[k] == n;
      assert d in sorted[..k];
    }
  }

  // ------------------------------------------------------ module definition

  /** What module generation takes from code outside this model: the
      private name of a module (`Namer.private_name`), the prefix of the
      Python-facing wrappers (`PREFIX`), the header and the lines of a
      wrapper function (mypyc/emitwrapper.py), and the lines written for a
      class of a module (mypyc/emitclass.py). */
  datatype ModuleHelpers = ModuleHelpers(
    privateName: string -> string,
    wrapperPrefix: string,
    wrapperHeader: FuncIR -> string,
    wrapperFunction: FuncIR -> seq<string>,
    classLines: (ClassIR, string) -> seq<string>)

  const TableSentinel := "{NULL, NULL, 0, NULL}"

  /** The method table entry of a module-level function: its Python name,
      its wrapper, and the calling convention taking arguments by position
      and keyword. */
  function MethodEntry(mh: ModuleHelpers, fn: FuncIR): string {
    "{\"" + fn.name + "\", (PyCFunction)" + mh.wrapperPrefix + CName(fn)
      + ", METH_VARARGS | METH_KEYWORDS, NULL /* docstring */},"
  }

  function EntryLines(mh: ModuleHelpers): FuncIR -> seq<string> {
    fn => [MethodEntry(mh, fn)]
  }

  function MethodEntries(mh: ModuleHelpers, fns: seq<FuncIR>): seq<string> {
    FlatMap(EntryLines(mh), fns)
  }

  /** A function's entry is never the sentinel. */
  lemma EntryNotSentinel(mh: ModuleHelpers, fn: FuncIR)
    ensures MethodEntry(mh, fn) != TableSentinel
  {
    assert MethodEntry(mh, fn)[1] == '"';
  }

  function TableHead(prefix: string): string {
    "static PyMethodDef " + prefix + "module_methods[] = {"
  }

  const TableEnd: seq<string> := [TableSentinel, "};", ""]

  /** The method table: a head line, one entry per function, the
      sentinel entry and the closing line. */
  function MethodTable(mh: ModuleHelpers, prefix: string, fns: seq<FuncIR>): seq<string> {
    [TableHead(prefix)] + MethodEntries(mh, fns) + TableEnd
  }

  /** The table lists one entry per function in order, and the sentinel
      (where CPython stops reading) comes right after the last of them:
      no function entry can be mistaken for it. */
  lemma MethodTableLayout(mh: ModuleHelpers, prefix: string, fns: seq<FuncIR>)
    ensures var t := MethodTable(mh, prefix, fns);
      && |t| == |fns| + 4
      && t[0] == TableHead(prefix)
      && (forall k :: 0 <= k < |fns| ==> t[k + 1] == MethodEntry(mh, fns[k]) && t[k + 1] != TableSentinel)
      && t[|fns| + 1] == TableSentinel
  {
    var entries := MethodEntries(mh, fns);
    FlatMapSingle(EntryLines(mh), fns);
    Framed(TableHead(prefix), entries, TableEnd);
    forall k | 0 <= k < |fns|
      ensures MethodEntry(mh, fns[k]) != TableSentinel
    {
      EntryNotSentinel(mh, fns[k]);
    }
  }

  /** The module definition struct, naming the module and its table. */
  function ModuleStruct(prefix: string, moduleName: string): (r: seq<string>)
    ensures |r| == 9
  {
    ["static struct PyModuleDef " + prefix + "module = {",
     "PyModuleDef_HEAD_INIT,",
     "\"" + moduleName + "\",",
     "NULL, /* docstring */"]
      + StructSizeLines
      + [prefix + "module_methods",
         "};",
         ""]
  }

  /** The size field of the module struct, with its comment. */
  const StructSizeLines: seq<string> :=
    ["-1,       /* size of per-interpreter state of the module,",
     "             or -1 if the module keeps state in global variables. */"]

  /** The signature of the init function: the public C API entry point
      when a single module is compiled, an internal function called by a
      shim otherwise. */
  function InitDeclaration(moduleName: string, moduleCount: nat): string {
    if moduleCount == 1 then "PyMODINIT_FUNC PyInit_" + moduleName + "(void)"
    else "PyObject *x_PyInit_" + moduleName + "(void)"
  }

  /** The init function is the public entry point exactly when one module
      is compiled; either way it is `PyInit_` of the module, taking no
      arguments. */
  lemma InitDeclarationPublicIff(moduleName: string, moduleCount: nat)
    ensures StartsWith(InitDeclaration(moduleName, moduleCount), "PyMODINIT_FUNC ") <==> moduleCount == 1
    ensures var d := InitDeclaration(moduleName, moduleCount);
      var tail := "PyInit_" + moduleName + "(void)";
      |tail| <= |d| && d[|d| - |tail|..] == tail
  {
    var d := InitDeclaration(moduleName, moduleCount);
    var tail := "PyInit_" + moduleName + "(void)";
    if moduleCount == 1 {
      assert d == "PyMODINIT_FUNC " + tail;
    } else {
      assert d == "PyObject *x_" + tail;
      assert d[2] != "PyMODINIT_FUNC "[2];
    }
  }

  /** Readying the type object of a class. */
  function TypeReadyOf(cl: ClassIR): seq<string> {
    ["if (PyType_Ready(&" + TypeStructName(cl.name) + ") < 0)", "    return NULL;"]
  }

  function TypeReadyLines(classes: seq<ClassIR>): seq<string> {
    FlatMap(TypeReadyOf, classes)
  }

  function ModuleCreateLines(prefix: string): seq<string> {
    ["m = PyModule_Create(&" + prefix + "module);",
     "if (m == NULL)",
     "    return NULL;",
     "_globals = PyModule_GetDict(m);",
     "if (_globals == NULL)",
     "    return NULL;"]
  }

  /** The import of one module into its global, with the NULL check. */
  function ImportLines(imp: string): seq<string> {
    [CModuleName(imp) + " = PyImport_ImportModule(\"" + imp + "\");",
     "if (" + CModuleName(imp) + " == NULL)",
     "    return NULL;"]
  }

  function ImportsInitLines(imps: seq<string>): seq<string> {
    FlatMap(ImportLines, imps)
  }

  /** The import section is three lines per import, in the order given. */
  lemma ImportsInitLayout(imps: seq<string>, k: nat)
    requires k < |imps|
    ensures |ImportsInitLines(imps)| == 3 * |imps|
    ensures ImportsInitLines(imps)[3 * k..3 * k + 3] == ImportLines(imps[k])
  {
    FlatMapUniform(ImportLines, imps, 3);
    FlatMapUniform(ImportLines, imps[..k], 3);
    FlatMapAt(ImportLines, imps, k);
  }

  function IntLiteralLine(symbol: string, digits: string): string {
    symbol + " = PyLong_FromString(\"" + digits + "\", NULL, 10);"
  }

  /** The lines creating one literal's object: an int from its decimal
      text, a float from its text, a str from its encoded bytes and their
      number, checked for NULL. Any other kind of value is rejected. */
  function LiteralLines(literal: Literal, symbol: string): Result<seq<string>> {
    match literal
    case IntLiteral(i) => Ok([IntLiteralLine(symbol, IntToString(i))])
    case FloatLiteral(text) => Ok([FloatLiteralLine(symbol, text)])
    case StrLiteral(s) => Ok(StrLiteralLines(symbol, s))
    case OtherLiteral(typeName) => Fail(LiteralKindMessage(typeName))
  }

  /** The text of the failed assertion: `str` of the two-string tuple it
      carries, for a qualified type name without quotes. */
  function LiteralKindMessage(typeName: string): string {
    LiteralKindHead + typeName + LiteralKindTail
  }

  const LiteralKindHead := "('Literals must be integers, floating point numbers, or strings,', \"but the provided literal is of type <class '"
  const LiteralKindTail := "'>\")"

  function FloatLiteralLine(symbol: string, text: string): string {
    symbol + " = PyFloat_FromDouble(" + text + ");"
  }

  function StrLiteralLines(symbol: string, s: string): seq<string> {
    var (lit, size) := EncodeAsCString(s);
    [symbol + " = PyUnicode_FromStringAndSize(" + lit + ", " + IntToString(size) + ");",
     "if (" + symbol + " == NULL)",
     "    return NULL;"]
  }

  /** The lines of one `(value, symbol)` entry of the literal table. */
  function LiteralOf(entry: (Literal, string)): Result<seq<string>> {
    LiteralLines(entry.0, entry.1)
  }

  /** The literals section: every entry in table order. */
  function LiteralsLines(lits: seq<(Literal, string)>): Result<seq<string>> {
    MapResult(LiteralOf, lits)
  }

  /** Only a literal of another kind is refused. */
  lemma LiteralLinesOk(literal: Literal, symbol: string)
    ensures LiteralLines(literal, symbol).Ok? <==> !literal.OtherLiteral?
    ensures literal.OtherLiteral? ==>
      LiteralLines(literal, symbol) == Fail(LiteralKindMessage(literal.typeName))
  {
  }

  /** The literals section is written exactly when every literal is an
      int, a float or a str. */
  lemma LiteralsLinesOkIff(lits: seq<(Literal, string)>)
    ensures LiteralsLines(lits).Ok? <==> forall k :: 0 <= k < |lits| ==> !lits[k].0.OtherLiteral?
  {
    MapResultOkIff(LiteralOf, lits);
    forall k | 0 <= k < |lits|
      ensures LiteralOf(lits[k]).Ok? <==> !lits[k].0.OtherLiteral?
    {
      LiteralLinesOk(lits[k].0, lits[k].1);
    }
  }

  /** An int literal is created from decimal text that reads back as the
      same integer in base 10. */
  lemma IntLiteralReadsBack(i: int, symbol: string)
    ensures exists digits ::
      && LiteralLines(IntLiteral(i), symbol) == Ok([IntLiteralLine(symbol, digits)])
      && ParseInt(digits) == Some(i)
  {
    ParseIntToString(i);
    assert LiteralLines(IntLiteral(i), symbol) == Ok([IntLiteralLine(symbol, IntToString(i))]);
  }

  /** A str literal is created from a C literal that a compiler reads as
      the string's UTF-8 bytes, together with their number, and the result
      is checked for NULL. */
  lemma StrLiteralReadsBack(s: string, symbol: string)
    ensures var r := LiteralLines(StrLiteral(s), symbol);
      && r.Ok? && |r.value| == 3
      && r.value[1..] == ["if (" + symbol + " == NULL)", "    return NULL;"]
      && exists lit, n ::
        && r.value[0] == symbol + " = PyUnicode_FromStringAndSize(" + lit + ", " + IntToString(n) + ");"
        && |lit| >= 2 && lit[0] == '"' && lit[|lit| - 1] == '"'
        && CLiteralBytes(lit[1..|lit| - 1]) == Some(Utf8Bytes(s))
        && n == |Utf8Bytes(s)|
  {
    EncodeAsCStringReadsBack(s);
    var (lit, n) := EncodeAsCString(s);
    var r := LiteralLines(StrLiteral(s), symbol);
    assert r.value[0] == symbol + " = PyUnicode_FromStringAndSize(" + lit + ", " + IntToString(n) + ");";
  }

  /** Registering a class's type object in the module under its name. */
  function AddObjectOf(cl: ClassIR): seq<string> {
    ["Py_INCREF(&" + TypeStructName(cl.name) + ");",
     "PyModule_AddObject(m, \"" + cl.name + "\", (PyObject *)&" + TypeStructName(cl.name) + ");"]
  }

  function AddObjectLines(classes: seq<ClassIR>): seq<string> {
    FlatMap(AddObjectOf, classes)
  }

  /** `generate_module_def`: the method table, the module struct and the
      init function. */
  function ModuleDefLines(mh: ModuleHelpers, moduleName: string, moduleIR: ModuleIR, moduleCount: nat): Result<seq<string>> {
    var lits :- LiteralsLines(moduleIR.literals);
    Ok(ModuleDefText(mh, moduleName, moduleIR, moduleCount, lits))
  }

  /** The module definition around the given literal lines. */
  function ModuleDefText(mh: ModuleHelpers, moduleName: string, moduleIR: ModuleIR, moduleCount: nat,
                         lits: seq<string>): seq<string> {
    var prefix := mh.privateName(moduleName);
    MethodTable(mh, prefix, moduleIR.functions) + ModuleStruct(prefix, moduleName)
      + InitFunction(moduleName, moduleCount, prefix, moduleIR, lits)
  }

  /** The init function: it readies the class types, creates the module,
      fetches its globals, imports, creates the literals, adds the classes
      and returns the module. */
  function InitFunction(moduleName: string, moduleCount: nat, prefix: string, moduleIR: ModuleIR,
                        lits: seq<string>): seq<string> {
    [InitDeclaration(moduleName, moduleCount), "{", "PyObject *m;"]
      + TypeReadyLines(moduleIR.classes)
      + ModuleCreateLines(prefix)
      + ImportsInitLines(moduleIR.imports)
      + lits
      + AddObjectLines(moduleIR.classes)
      + ["return m;", "}"]
  }

  /** The module definition is written exactly when every literal can be
      created. */
  lemma ModuleDefOkIff(mh: ModuleHelpers, moduleName: string, moduleIR: ModuleIR, moduleCount: nat)
    ensures ModuleDefLines(mh, moduleName, moduleIR, moduleCount).Ok? <==>
      forall k :: 0 <= k < |moduleIR.literals| ==> !moduleIR.literals[k].0.OtherLiteral?
  {
    LiteralsLinesOkIff(moduleIR.literals);
  }

  /** The message of calling a `str`. */
  const NotCallableMessage := "'str' object is not callable"

  /** `generate_module_def`'s method table as written: each entry calls
      `fn.cname(emitter.names)`, but a function's `cname` is its C name, a
      `str`, so the first entry already raises `TypeError`; only a module
      without functions gets its table. */
  function MethodTableAsWritten(mh: ModuleHelpers, prefix: string, fns: seq<FuncIR>): (r: Result<seq<string>>)
    ensures r.Ok? <==> fns == []
    ensures r.Fail? ==> r.msg == NotCallableMessage
    ensures r.Ok? ==> |r.value| == 4 && r.value[1] == TableSentinel
  {
    if fns == [] then Ok(MethodTable(mh, prefix, [])) else Fail(NotCallableMessage)
  }

  /** `generate_module_def` as written: the table comes before the
      literals, so its failure comes first. */
  function ModuleDefLinesAsWritten(mh: ModuleHelpers, moduleName: string, moduleIR: ModuleIR, moduleCount: nat): Result<seq<string>> {
    var prefix := mh.privateName(moduleName);
    var table :- MethodTableAsWritten(mh, prefix, moduleIR.functions);
    var lits :- LiteralsLines(moduleIR.literals);
    Ok(table + ModuleStruct(prefix, moduleName) + InitFunction(moduleName, moduleCount, prefix, moduleIR, lits))
  }

  /** As written, every module with a function fails at its first table
      entry, even one whose literals the corrected definition emits; a
      module without functions gets the same definition either way. */
  lemma ModuleDefAsWrittenFails(mh: ModuleHelpers, moduleName: string, moduleIR: ModuleIR, moduleCount: nat)
    ensures moduleIR.functions != [] ==>
      ModuleDefLinesAsWritten(mh, moduleName, moduleIR, moduleCount) == Fail(NotCallableMessage)
    ensures moduleIR.functions != [] && (forall k :: 0 <= k < |moduleIR.literals| ==> !moduleIR.literals[k].0.OtherLiteral?) ==>
      ModuleDefLines(mh, moduleName, moduleIR, moduleCount).Ok?
    ensures moduleIR.functions == [] ==>
      ModuleDefLinesAsWritten(mh, moduleName, moduleIR, moduleCount) == ModuleDefLines(mh, moduleName, moduleIR, moduleCount)
  {
    ModuleDefOkIff(mh, moduleName, moduleIR, moduleCount);
  }

  /** The init function opens with its declaration and ends by returning
      the module. */
  lemma InitFunctionEnds(moduleName: string, moduleCount: nat, prefix: string, moduleIR: ModuleIR, lits: seq<string>)
    ensures var init := InitFunction(moduleName, moduleCount, prefix, moduleIR, lits);
      && |init| >= 3 && init[0] == InitDeclaration(moduleName, moduleCount)
      && init[|init| - 2..] == ["return m;", "}"]
  {
  }

  /** A module definition opens with the method table, declares the init
      function right after the table and the struct, and ends by returning
      the module. */
  lemma ModuleDefLayout(mh: ModuleHelpers, moduleName: string, moduleIR: ModuleIR, moduleCount: nat, lits: seq<string>)
    ensures var r := ModuleDefText(mh, moduleName, moduleIR, moduleCount, lits);
      var fns := |moduleIR.functions|;
      && |r| >= fns + 16
      && r[..fns + 4] == MethodTable(mh, mh.privateName(moduleName), moduleIR.functions)
      && r[fns + 13] == InitDeclaration(moduleName, moduleCount)
      && r[|r| - 2..] == ["return m;", "}"]
  {
    var prefix := mh.privateName(moduleName);
    var table := MethodTable(mh, prefix, moduleIR.functions);
    MethodTableLayout(mh, prefix, moduleIR.functions);
    var init := InitFunction(moduleName, moduleCount, prefix, moduleIR, lits);
    InitFunctionEnds(moduleName, moduleCount, prefix, moduleIR, lits);
    var front := table + ModuleStruct(prefix, moduleName);
    PrefixOfAppend(table, ModuleStruct(prefix, moduleName) + init);
    AppendAssoc(table, ModuleStruct(prefix, moduleName), init);
    SuffixOfAppend(front, init, 2);
  }

  lemma PrefixOfAppend<T>(a: seq<T>, b: seq<T>)
    ensures (a + b)[..|a|] == a
  {
  }

  lemma SuffixOfAppend<T>(a: seq<T>, b: seq<T>, n: nat)
    requires n <= |b|
    ensures (a + b)[|a + b| - n..] == b[|b| - n..]
  {
  }

  /** `s + a + b + c + d` is `s + (a + b + c + d)`. */
  lemma AppendAssoc4<T>(s: seq<T>, a: seq<T>, b: seq<T>, c: seq<T>, d: seq<T>)
    ensures s + a + b + c + d == s + (a + b + c + d)
  {
  }

  /** The lines a fresh main buffer holds before the module definitions. */
  lemma PreludeLines(mh: ModuleHelpers, h: Helpers, modules: seq<(string, ModuleIR)>, prelude: seq<string>)
    requires prelude == [] + FlatMap(Nested(FunctionDeclarationsIn(mh, h), FunctionsOf), modules)
                       + FlatMap(Nested(ClassLinesIn(mh), ClassesOf), modules) + [""]
    ensures forall defs, sections :: prelude + defs + sections == BodyLines(mh, h, modules, defs, sections)
  {
    var a := FlatMap(ModuleFunctionDeclarations(mh, h), modules);
    var b := FlatMap(ModuleClassLines(mh), modules);
    assert [] + a == a;
    assert prelude == a + b + [""];
  }

  // ------------------------------------------------------- module generator

  /** `ModuleGenerator`: the modules being compiled with their source
      paths, and the emitter context shared by all of them. */
  class ModuleGenerator {
    const modules: seq<(string, ModuleIR)>
    const sourcePaths: map<string, string>
    const context: EmitterContext

    constructor(modules: seq<(string, ModuleIR)>, sourcePaths: map<string, string>)
      ensures this.modules == modules && this.sourcePaths == sourcePaths && fresh(context)
      ensures context.Valid() && context.declOrder == [] && context.declarations == map[] && context.tempCounter == 0
    {
      this.modules := modules;
      this.sourcePaths := sourcePaths;
      context := new EmitterContext();
    }

    /** `declare_global`: records the declaration of a global unless one
        of that name exists. */
    method DeclareGlobal(typeSpaced: string, name: string, isStatic: bool)
      modifies context`declOrder, context`declarations
      ensures (context.declOrder, context.declarations) ==
        DeclareGlobalIn(old(context.declOrder), old(context.declarations), typeSpaced, name, isStatic)
    {
      var staticStr := if isStatic then "static " else "";
      if name !in context.declarations {
        context.declarations := context.declarations[name := HeaderDeclaration({}, [staticStr + typeSpaced + name + ";"])];
        context.declOrder := context.declOrder + [name];
      }
    }

    /** `generate_module_def`: writes the definition of one module; the
        init function is public exactly when this generator compiles one
        module. */
    method GenerateModuleDef(emitter: Emitter, moduleName: string, moduleIR: ModuleIR, mh: ModuleHelpers)
      returns (outcome: Outcome)
      modifies emitter
      ensures var expected := ModuleDefLines(mh, moduleName, moduleIR, |modules|);
        && (outcome.Pass? <==> expected.Ok?)
        && (outcome.Pass? ==> emitter.lines == old(emitter.lines) + expected.value)
    {
      ghost var start := emitter.lines;
      var prefix := mh.privateName(moduleName);
      emitter.EmitLine(TableHead(prefix));
      emitter.EmitEach(EntryLines(mh), moduleIR.functions);
      ghost var entries := MethodEntries(mh, moduleIR.functions);
      AppendAssoc(start, [TableHead(prefix)], entries);
      emitter.EmitLines(TableEnd);
      AppendAssoc(start, [TableHead(prefix)] + entries, TableEnd);
      ghost var table := MethodTable(mh, prefix, moduleIR.functions);
      emitter.EmitLines(ModuleStruct(prefix, moduleName));
      AppendAssoc(start, table, ModuleStruct(prefix, moduleName));
      ghost var head := table + ModuleStruct(prefix, moduleName);
      outcome := EmitInitFunction(emitter, moduleName, moduleIR, prefix);
      if outcome.Failed? {
        return;
      }
      AppendAssoc(start, head,
                  InitFunction(moduleName, |modules|, prefix, moduleIR, LiteralsLines(moduleIR.literals).value));
      assert ModuleDefLines(mh, moduleName, moduleIR, |modules|).value ==
        ModuleDefText(mh, moduleName, moduleIR, |modules|, LiteralsLines(moduleIR.literals).value);
    }

    /** The init function part of `generate_module_def`. */
    method EmitInitFunction(emitter: Emitter, moduleName: string, moduleIR: ModuleIR, prefix: string)
      returns (outcome: Outcome)
      modifies emitter
      ensures outcome.Pass? <==> LiteralsLines(moduleIR.literals).Ok?
      ensures outcome.Pass? ==>
        emitter.lines == old(emitter.lines)
          + InitFunction(moduleName, |modules|, prefix, moduleIR, LiteralsLines(moduleIR.literals).value)
    {
      ghost var start := emitter.lines;
      var declaration := if |modules| == 1 then "PyMODINIT_FUNC PyInit_" + moduleName + "(void)"
                         else "PyObject *x_PyInit_" + moduleName + "(void)";
      emitter.EmitLines([declaration, "{", "PyObject *m;"]);
      ghost var acc := [declaration, "{", "PyObject *m;"];
      emitter.EmitEach(TypeReadyOf, moduleIR.classes);
      AppendAssoc(start, acc, TypeReadyLines(moduleIR.classes));
      acc := acc + TypeReadyLines(moduleIR.classes);
      emitter.EmitLines(ModuleCreateLines(prefix));
      AppendAssoc(start, acc, ModuleCreateLines(prefix));
      acc := acc + ModuleCreateLines(prefix);
      GenerateImportsInitSection(moduleIR.imports, emitter);
      AppendAssoc(start, acc, ImportsInitLines(moduleIR.imports));
      acc := acc + ImportsInitLines(moduleIR.imports);
      outcome := emitter.EmitEachResult(LiteralOf, moduleIR.literals);
      if outcome.Failed? {
        return;
      }
      ghost var lits := LiteralsLines(moduleIR.literals).value;
      AppendAssoc(start, acc, lits);
      acc := acc + lits;
      emitter.EmitEach(AddObjectOf, moduleIR.classes);
      AppendAssoc(start, acc, AddObjectLines(moduleIR.classes));
      acc := acc + AddObjectLines(moduleIR.classes);
      emitter.EmitLines(["return m;", "}"]);
      AppendAssoc(start, acc, ["return m;", "}"]);
    }

    /** `generate_imports_init_section`: imports each module into its
        global, in order, returning NULL from the init function when an
        import fails. */
    method GenerateImportsInitSection(imps: seq<string>, emitter: Emitter)
      modifies emitter
      ensures emitter.lines == old(emitter.lines) + ImportsInitLines(imps)
    {
      for i := 0 to |imps|
        invariant emitter.lines == old(emitter.lines) + ImportsInitLines(imps[..i])
      {
        assert imps[..i + 1][..i] == imps[..i];
        ghost var before := emitter.lines;
        var imp := imps[i];
        emitter.EmitLine(CModuleName(imp) + " = PyImport_ImportModule(\"" + imp + "\");");
        emitter.EmitLine("if (" + CModuleName(imp) + " == NULL)");
        emitter.EmitLine("    return NULL;");
        assert emitter.lines == before + ImportLines(imp);
      }
      assert imps[..|imps|] == imps;
    }

    /** `declare_internal_globals`. */
    method DeclareInternalGlobals()
      modifies context`declOrder, context`declarations
      ensures (context.declOrder, context.declarations) ==
        DeclareAll((old(context.declOrder), old(context.declarations)), [InternalGlobals])
    {
      DeclareGlobal("PyObject *", "_globals", true);
      assert [InternalGlobals][..0] == [];
    }

    /** `declare_import`. */
    method DeclareImport(imp: string)
      modifies context`declOrder, context`declarations
      ensures (context.declOrder, context.declarations) ==
        DeclareAll((old(context.declOrder), old(context.declarations)), ImportDecl(imp))
    {
      DeclareGlobal("CPyModule *", CModuleName(imp), true);
      assert ImportDecl(imp)[..0] == [];
    }

    /** `declare_imports`. */
    method DeclareImports(imps: seq<string>)
      modifies context`declOrder, context`declarations
      ensures (context.declOrder, context.declarations) ==
        DeclareAll((old(context.declOrder), old(context.declarations)), FlatMap(ImportDecl, imps))
    {
      ghost var start := (context.declOrder, context.declarations);
      for i := 0 to |imps|
        invariant (context.declOrder, context.declarations) == DeclareAll(start, FlatMap(ImportDecl, imps[..i]))
      {
        DeclareAllStep(start, ImportDecl, imps, i);
        DeclareImport(imps[i]);
      }
      assert imps[..|imps|] == imps;
    }

    /** `declare_static_pyobject`. */
    method DeclareStaticPyObject(symbol: string)
      modifies context`declOrder, context`declarations
      ensures (context.declOrder, context.declarations) ==
        DeclareAll((old(context.declOrder), old(context.declarations)), [GlobalDecl("PyObject *", symbol)])
    {
      DeclareGlobal("PyObject *", symbol, true);
      assert [GlobalDecl("PyObject *", symbol)][..0] == [];
    }

    /** The loop declaring the imports of every module. */
    method DeclareModuleImports()
      modifies context`declOrder, context`declarations
      ensures (context.declOrder, context.declarations) ==
        DeclareAll((old(context.declOrder), old(context.declarations)), FlatMap(ModuleImportDecls, modules))
    {
      ghost var start := (context.declOrder, context.declarations);
      for i := 0 to |modules|
        invariant (context.declOrder, context.declarations) == DeclareAll(start, FlatMap(ModuleImportDecls, modules[..i]))
      {
        DeclareAllStep(start, ModuleImportDecls, modules, i);
        DeclareImports(modules[i].1.imports);
      }
      assert modules[..|modules|] == modules;
    }

    /** The loop declaring the symbol of every literal of one module. */
    method DeclareSymbols(lits: seq<(Literal, string)>)
      modifies context`declOrder, context`declarations
      ensures (context.declOrder, context.declarations) ==
        DeclareAll((old(context.declOrder), old(context.declarations)), FlatMap(SymbolDecl, lits))
    {
      ghost var start := (context.declOrder, context.declarations);
      for i := 0 to |lits|
        invariant (context.declOrder, context.declarations) == DeclareAll(start, FlatMap(SymbolDecl, lits[..i]))
      {
        DeclareAllStep(start, SymbolDecl, lits, i);
        DeclareStaticPyObject(lits[i].1);
      }
      assert lits[..|lits|] == lits;
    }

    /** The loop declaring the literal symbols of every module. */
    method DeclareModuleSymbols()
      modifies context`declOrder, context`declarations
      ensures (context.declOrder, context.declarations) ==
        DeclareAll((old(context.declOrder), old(context.declarations)), FlatMap(ModuleSymbolDecls, modules))
    {
      ghost var start := (context.declOrder, context.declarations);
      for i := 0 to |modules|
        invariant (context.declOrder, context.declarations) == DeclareAll(start, FlatMap(ModuleSymbolDecls, modules[..i]))
      {
        DeclareAllStep(start, ModuleSymbolDecls, modules, i);
        DeclareSymbols(modules[i].1.literals);
      }
      assert modules[..|modules|] == modules;
    }

    /** The declarations of `generate_c_for_modules` on a fresh context:
        the internal globals, every import, every literal symbol. */
    method DeclareGlobals()
      requires context.declOrder == [] && context.declarations == map[]
      modifies context`declOrder, context`declarations
      ensures (context.declOrder, context.declarations) == Globals(modules)
    {
      ghost var p := (context.declOrder, context.declarations);
      DeclareInternalGlobals();
      DeclareModuleImports();
      DeclareModuleSymbols();
      var a := FlatMap(ModuleImportDecls, modules);
      var b := FlatMap(ModuleSymbolDecls, modules);
      DeclareAllAppend(p, [InternalGlobals], a);
      DeclareAllAppend(p, [InternalGlobals] + a, b);
    }

    /** The loop writing the definition of every module. */
    method GenerateModuleDefs(emitter: Emitter, mh: ModuleHelpers) returns (outcome: Outcome)
      modifies emitter
      ensures var defs := MapResult(ModuleDefOf(mh, |modules|), modules);
        && (outcome.Pass? <==> defs.Ok?)
        && (outcome.Pass? ==> emitter.lines == old(emitter.lines) + defs.value)
    {
      ghost var start := emitter.lines;
      ghost var f := ModuleDefOf(mh, |modules|);
      for i := 0 to |modules|
        invariant MapResult(f, modules[..i]).Ok?
        invariant emitter.lines == start + MapResult(f, modules[..i]).value
      {
        outcome := GenerateModuleDef(emitter, modules[i].0, modules[i].1, mh);
        if outcome.Failed? {
          MapResultOkIff(f, modules);
          return;
        }
        MapResultStep(f, modules, i);
        AppendAssoc(start, MapResult(f, modules[..i]).value, f(modules[i]).value);
      }
      assert modules[..|modules|] == modules;
      outcome := Pass;
    }

    /** One round of the loop over the functions: a blank line, the native
        function, a blank line and the wrapper. */
    method GenerateFunctionSection(emitter: Emitter, mh: ModuleHelpers, h: Helpers, moduleName: string, fn: FuncIR)
      returns (outcome: Outcome)
      requires emitter.context == context
      modifies emitter, context`tempCounter
      ensures var e := FunctionSection(mh, h, sourcePaths, moduleName, fn, old(context.tempCounter));
        && (outcome.Pass? <==> e.Ok?)
        && (outcome.Pass? ==> emitter.lines == old(emitter.lines) + e.value.0 && context.tempCounter == e.value.1)
    {
      ghost var start := emitter.lines;
      emitter.EmitLine("");
      if moduleName !in sourcePaths {
        return Failed("KeyError: " + moduleName);
      }
      outcome := GenerateNativeFunction(fn, emitter, sourcePaths[moduleName], h);
      if outcome.Failed? {
        return;
      }
      emitter.EmitLine("");
      emitter.EmitLines(mh.wrapperFunction(fn));
      AppendAssoc4(start, [""], NativeFunctionText(fn, h, sourcePaths[moduleName], old(context.tempCounter)).value.0,
                   [""], mh.wrapperFunction(fn));
    }

    /** The loop over the functions of one module. */
    method GenerateModuleFunctions(emitter: Emitter, mh: ModuleHelpers, h: Helpers, moduleName: string, fns: seq<FuncIR>)
      returns (outcome: Outcome)
      requires emitter.context == context
      modifies emitter, context`tempCounter
      ensures var e := FlatMapCounted(FunctionSectionOf(mh, h, sourcePaths, moduleName), fns, old(context.tempCounter));
        && (outcome.Pass? <==> e.Ok?)
        && (outcome.Pass? ==> emitter.lines == old(emitter.lines) + e.value.0 && context.tempCounter == e.value.1)
    {
      ghost var start := emitter.lines;
      ghost var c0 := context.tempCounter;
      ghost var f := FunctionSectionOf(mh, h, sourcePaths, moduleName);
      for i := 0 to |fns|
        invariant FlatMapCounted(f, fns[..i], c0).Ok?
        invariant emitter.lines == start + FlatMapCounted(f, fns[..i], c0).value.0
        invariant context.tempCounter == FlatMapCounted(f, fns[..i], c0).value.1
      {
        assert fns[..i + 1][..i] == fns[..i];
        ghost var before := emitter.lines;
        outcome := GenerateFunctionSection(emitter, mh, h, moduleName, fns[i]);
        if outcome.Failed? {
          FlatMapCountedFailExtends(f, fns, i + 1, c0);
          return;
        }
        AppendAssoc(start, FlatMapCounted(f, fns[..i], c0).value.0, emitter.lines[|before|..]);
      }
      assert fns[..|fns|] == fns;
      outcome := Pass;
    }

    /** The loop over the functions of every module. */
    method GenerateFunctions(emitter: Emitter, mh: ModuleHelpers, h: Helpers) returns (outcome: Outcome)
      requires emitter.context == context
      modifies emitter, context`tempCounter
      ensures var e := FlatMapCounted(ModuleSectionsOf(mh, h, sourcePaths), modules, old(context.tempCounter));
        && (outcome.Pass? <==> e.Ok?)
        && (outcome.Pass? ==> emitter.lines == old(emitter.lines) + e.value.0 && context.tempCounter == e.value.1)
    {
      ghost var start := emitter.lines;
      ghost var c0 := context.tempCounter;
      ghost var f := ModuleSectionsOf(mh, h, sourcePaths);
      for i := 0 to |modules|
        invariant FlatMapCounted(f, modules[..i], c0).Ok?
        invariant emitter.lines == start + FlatMapCounted(f, modules[..i], c0).value.0
        invariant context.tempCounter == FlatMapCounted(f, modules[..i], c0).value.1
      {
        assert modules[..i + 1][..i] == modules[..i];
        ghost var before := emitter.lines;
        outcome := GenerateModuleFunctions(emitter, mh, h, modules[i].0, modules[i].1.functions);
        if outcome.Failed? {
          FlatMapCountedFailExtends(f, modules, i + 1, c0);
          return;
        }
        AppendAssoc(start, FlatMapCounted(f, modules[..i], c0).value.0, emitter.lines[|before|..]);
      }
      assert modules[..|modules|] == modules;
      outcome := Pass;
    }

    /** The declarations buffer: the includes, then the body of every
        header declaration in topological order, which is the insertion
        order when no declaration depends on another. */
    method EmitHeader(declarations: Emitter)
      requires context.Valid() && Independent(context.declarations)
      modifies declarations
      ensures declarations.lines ==
        old(declarations.lines) + HeaderLines((context.declOrder, context.declarations))
    {
      ghost var start := declarations.lines;
      declarations.EmitLine("#include <Python.h>");
      declarations.EmitLine("#include <CPy.h>");
      declarations.EmitLine("");
      assert declarations.lines == start + Includes;
      ghost var table := context.declarations;
      ghost var rank: map<string, nat> := map n | n in table :: 0;
      assert Ranked(table, rank);
      assert !MissingDependency(table);
      var sortedResult;
      ghost var sorted;
      sortedResult, sorted := ToposortDeclarations(rank);
      var result := sortedResult.value;
      IndependentKeepsOrder(table, rank, context.declOrder, sorted, result);
      declarations.EmitEach(DeclBody, result);
      FlatMapPointwise(DeclBody, result, BodyIn(table), sorted);
      AppendAssoc(start, Includes, FlatMap(DeclBody, result));
    }

    /** `generate_c_for_modules`, on a generator whose context has no
        declarations yet: the declarations buffer followed by the main
        buffer, or the failure of a module definition or function. */
    method GenerateCForModules(mh: ModuleHelpers, h: Helpers) returns (r: Result<string>)
      requires context.declOrder == [] && context.declarations == map[]
      modifies context
      ensures var expected := CForModules(mh, h, modules, sourcePaths, old(context.tempCounter));
        && (r.Ok? <==> expected.Ok?)
        && (r.Ok? ==> r.value == expected.value)
    {
      ghost var c0 := context.tempCounter;
      var emitter := new Emitter(context);
      DeclareGlobals();
      var outcome := EmitMain(emitter, mh, h);
      if outcome.Failed? {
        CForModulesFails(mh, h, modules, sourcePaths, c0);
        return Fail(outcome.msg);
      }
      GlobalsIndependent(modules);
      var declarations := new Emitter(context);
      EmitHeader(declarations);
      CForModulesFrom(mh, h, modules, sourcePaths, c0, declarations.lines, emitter.lines);
      r := Ok(Text(declarations.lines + emitter.lines));
    }

    /** The main buffer of `generate_c_for_modules`: the prototypes, the
        classes, a blank line, the module definitions and the function
        sections. */
    method EmitMain(emitter: Emitter, mh: ModuleHelpers, h: Helpers) returns (outcome: Outcome)
      requires emitter.context == context && emitter.lines == []
      modifies emitter, context`tempCounter
      ensures var defs := MapResult(ModuleDefOf(mh, |modules|), modules);
        var sections := FlatMapCounted(ModuleSectionsOf(mh, h, sourcePaths), modules, old(context.tempCounter));
        && (outcome.Pass? <==> defs.Ok? && sections.Ok?)
        && (outcome.Pass? ==> emitter.lines == BodyLines(mh, h, modules, defs.value, sections.value.0))
    {
      emitter.EmitNested(FunctionDeclarationsIn(mh, h), FunctionsOf, modules);
      emitter.EmitNested(ClassLinesIn(mh), ClassesOf, modules);
      emitter.EmitLine("");
      ghost var prelude := emitter.lines;
      PreludeLines(mh, h, modules, prelude);
      outcome := GenerateModuleDefs(emitter, mh);
      if outcome.Failed? {
        return;
      }
      outcome := GenerateFunctions(emitter, mh, h);
    }

    /** `toposort_declarations`: the declarations ordered by a depth-first
        walk from each declared name in insertion order. It fails exactly
        when some dependency names no declaration. The walk's recursion
        ends only on acyclic dependencies, witnessed by `rank`. */
    method ToposortDeclarations(ghost rank: map<string, nat>) returns (r: Result<seq<HeaderDeclaration>>, ghost sorted: seq<string>)
      requires context.Valid() && Ranked(context.declarations, rank)
      ensures r.Ok? <==> !MissingDependency(context.declarations)
      ensures r.Ok? ==> Toposorted(context.declarations, rank, context.declOrder, sorted, r.value)
    {
      var table := context.declarations;
      var keys := context.declOrder;
      var marks := MarkAll(table, keys);
      var sort := new DeclarationSort(table, rank, marks);
      var outcome := VisitRoots(sort, keys);
      if outcome.Failed? {
        return Fail("KeyError"), [];
      }
      SortFinished(table, rank, keys, sort.marks, sort.result, sort.order);
      r, sorted := Ok(sort.result), sort.order;
    }

    /** The unmarked copy of every declaration, built in insertion order. */
    method MarkAll(table: Table, keys: seq<string>) returns (marks: map<string, MarkedDeclaration>)
      requires Listed(keys, table)
      ensures forall n :: n in marks <==> n in table
      ensures forall n :: n in marks ==> marks[n] == MarkedDeclaration(table[n], false)
    {
      marks := map[];
      for i := 0 to |keys|
        invariant forall n :: n in marks <==> n in keys[..i]
        invariant forall n :: n in marks ==> marks[n] == MarkedDeclaration(table[n], false)
      {
        assert keys[..i + 1] == keys[..i] + [keys[i]];
        marks := marks[keys[i] := NewMarkedDeclaration(table[keys[i]], false)];
      }
      assert keys[..|keys|] == keys;
    }

    /** The loop of `toposort_declarations` over the declared names. */
    method VisitRoots(sort: DeclarationSort, keys: seq<string>) returns (outcome: Outcome)
      requires sort.Valid() && sort.order == [] && Listed(keys, sort.table)
      modifies sort
      ensures sort.Valid()
      ensures outcome.Failed? ==> MissingDependency(sort.table)
      ensures outcome.Pass? ==> RootsState(sort.table, sort.rank, keys, |keys|, sort.order)
    {
      var i := 0;
      while i < |keys|
        invariant i <= |keys|
        invariant sort.Valid() && RootsState(sort.table, sort.rank, keys, i, sort.order)
      {
        outcome := VisitRootAt(sort, keys, i);
        if outcome.Failed? {
          return;
        }
        i := i + 1;
      }
      outcome := Pass;
    }

    /** One round of that loop: the walk from root `i`. */
    method VisitRootAt(sort: DeclarationSort, keys: seq<string>, i: nat) returns (outcome: Outcome)
      requires sort.Valid() && Listed(keys, sort.table) && i < |keys|
      requires RootsState(sort.table, sort.rank, keys, i, sort.order)
      modifies sort
      ensures sort.Valid()
      ensures outcome.Failed? ==> MissingDependency(sort.table)
      ensures outcome.Pass? ==> RootsState(sort.table, sort.rank, keys, i + 1, sort.order)
    {
      ghost var before := sort.order;
      RootsListed(sort.table, sort.rank, keys, i, before);
      outcome := sort.Visit(keys[i]);
      if outcome.Failed? {
        return;
      }
      RootsReachedStep(sort.table, sort.rank, keys, i, before, sort.order);
      RootsFirstStep(sort.table, sort.rank, keys, i, before, sort.order);
    }
  }

  /** The sort after visiting the first `bound` roots: it has listed what
      they reach, each root before the names only later roots reach. */
  ghost predicate RootsState(table: Table, rank: map<string, nat>, keys: seq<string>, bound: nat, order: seq<string>)
    requires Ranked(table, rank) && bound <= |keys| && forall j :: 0 <= j < |keys| ==> keys[j] in rank
  {
    (forall n :: n in order <==> ReachedBy(table, rank, keys, bound, n))
    && RootsFirstUpTo(table, rank, keys, bound, order)
  }

  /** After every root is visited, the sort is complete and names no
      missing dependency. */
  lemma SortFinished(table: Table, rank: map<string, nat>, keys: seq<string>, marks: map<string, MarkedDeclaration>,
                     result: seq<HeaderDeclaration>, order: seq<string>)
    requires SortState(table, rank, marks, result, order) && Listed(keys, table)
    requires RootsState(table, rank, keys, |keys|, order)
    ensures Toposorted(table, rank, keys, order, result) && !MissingDependency(table)
  {
    SortComplete(table, rank, keys, order);
    ArrangedComplete(table, order, result);
  }

  /** After every root is visited, the order is a complete arrangement. */
  lemma SortComplete(table: Table, rank: map<string, nat>, keys: seq<string>, order: seq<string>)
    requires Ranked(table, rank) && Listed(keys, table) && DepsBefore(table, order)
    requires forall n :: n in order <==> ReachedBy(table, rank, keys, |keys|, n)
    ensures forall n :: n in order <==> n in table
  {
    forall n
      ensures n in order <==> n in table
    {
      if n in table {
        var j :| 0 <= j < |keys| && keys[j] == n;
        assert Reaches(table, rank, keys[j], n);
      }
    }
  }

  // ---------------------------------------------------------- global names

  /** A global to declare: its C type with the trailing space, and its name. */
  datatype GlobalDecl = GlobalDecl(typeSpaced: string, name: string)

  /** The declaration order and table after declaring each global in turn,
      all of them static. */
  function DeclareAll(p: (seq<string>, Table), decls: seq<GlobalDecl>): (seq<string>, Table) {
    if decls == [] then p
    else
      var q := DeclareAll(p, decls[..|decls| - 1]);
      var d := decls[|decls| - 1];
      DeclareGlobalIn(q.0, q.1, d.typeSpaced, d.name, true)
  }

  /** Declaring two runs of globals is declaring the first, then the second. */
  lemma {:induction false} DeclareAllAppend(p: (seq<string>, Table), a: seq<GlobalDecl>, b: seq<GlobalDecl>)
    ensures DeclareAll(p, a + b) == DeclareAll(DeclareAll(p, a), b)
    decreases |b|
  {
    if b == [] {
      assert a + b == a;
    } else {
      var init := b[..|b| - 1];
      assert (a + b)[..|a + b| - 1] == a + init;
      assert (a + b)[|a + b| - 1] == b[|b| - 1];
      DeclareAllAppend(p, a, init);
    }
  }

  /** One round of a loop declaring the globals each element names. */
  lemma DeclareAllStep<T>(p: (seq<string>, Table), f: T -> seq<GlobalDecl>, xs: seq<T>, i: nat)
    requires i < |xs|
    ensures DeclareAll(p, FlatMap(f, xs[..i + 1])) == DeclareAll(DeclareAll(p, FlatMap(f, xs[..i])), f(xs[i]))
  {
    assert xs[..i + 1][..i] == xs[..i];
    DeclareAllAppend(p, FlatMap(f, xs[..i]), f(xs[i]));
  }

  /** The names of a run of globals. */
  function DeclNames(decls: seq<GlobalDecl>): set<string> {
    if decls == [] then {} else DeclNames(decls[..|decls| - 1]) + {decls[|decls| - 1].name}
  }

  /** A name is among them when some global has it. */
  lemma {:induction false} DeclNamesIn(decls: seq<GlobalDecl>, n: string)
    ensures n in DeclNames(decls) <==> exists k :: 0 <= k < |decls| && decls[k].name == n
  {
    if decls != [] {
      var init := decls[..|decls| - 1];
      DeclNamesIn(init, n);
      if exists k :: 0 <= k < |init| && init[k].name == n {
        var k :| 0 <= k < |init| && init[k].name == n;
        assert decls[k] == init[k];
      }
      if exists k :: 0 <= k < |decls| && decls[k].name == n {
        var k :| 0 <= k < |decls| && decls[k].name == n;
        if k < |init| {
          assert decls[k] == init[k];
        }
      }
    }
  }

  /** The global at `k` is the first one named `n`. */
  ghost predicate FirstNamed(decls: seq<GlobalDecl>, k: int, n: string) {
    0 <= k < |decls| && decls[k].name == n && n !in DeclNames(decls[..k])
  }

  /** Declaring globals in turn on a table its order lists: the order only
      grows and keeps listing each name once, the names are the old ones
      and those of the globals, old declarations are kept, and a table
      without dependencies stays without. */
  lemma {:induction false} DeclareAllListed(p: (seq<string>, Table), decls: seq<GlobalDecl>)
    requires Listed(p.0, p.1)
    ensures var r := DeclareAll(p, decls);
      && Listed(r.0, r.1)
      && |p.0| <= |r.0| && r.0[..|p.0|] == p.0
      && r.1.Keys == p.1.Keys + DeclNames(decls)
      && (forall n :: n in p.1 ==> r.1[n] == p.1[n])
      && (Independent(p.1) ==> Independent(r.1))
  {
    if decls == [] {
      assert p.0[..|p.0|] == p.0;
    } else {
      var init := decls[..|decls| - 1];
      DeclareAllListed(p, init);
      var q := DeclareAll(p, init);
      var d := decls[|decls| - 1];
      DeclareGlobalGrows(q.0, q.1, d.typeSpaced, d.name, true);
      assert DeclNames(decls) == DeclNames(init) + {d.name};
      GrowthComposes(p, q, DeclareAll(p, decls), DeclNames(init), d.name);
    }
  }

  /** The facts of `DeclareAllListed` for two successive runs of
      declarations combine into those for both. */
  lemma GrowthComposes(p: (seq<string>, Table), q: (seq<string>, Table), r: (seq<string>, Table), ks: set<string>, n: string)
    requires |p.0| <= |q.0| && q.0[..|p.0|] == p.0 && q.1.Keys == p.1.Keys + ks
    requires (forall m :: m in p.1 ==> q.1[m] == p.1[m]) && (Independent(p.1) ==> Independent(q.1))
    requires Listed(r.0, r.1) && |q.0| <= |r.0| && r.0[..|q.0|] == q.0 && r.1.Keys == q.1.Keys + {n}
    requires (forall m :: m in q.1 ==> r.1[m] == q.1[m]) && (Independent(q.1) ==> Independent(r.1))
    ensures |p.0| <= |r.0| && r.0[..|p.0|] == p.0 && r.1.Keys == p.1.Keys + (ks + {n})
    ensures (forall m :: m in p.1 ==> r.1[m] == p.1[m]) && (Independent(p.1) ==> Independent(r.1))
  {
    PrefixOfPrefix(p.0, q.0, r.0);
  }

  /** One `declare_global` on a table its order lists. */
  lemma DeclareGlobalGrows(order: seq<string>, table: Table, typeSpaced: string, name: string, isStatic: bool)
    requires Listed(order, table)
    ensures var r := DeclareGlobalIn(order, table, typeSpaced, name, isStatic);
      && Listed(r.0, r.1)
      && |order| <= |r.0| && r.0[..|order|] == order
      && r.1.Keys == table.Keys + {name}
      && (forall n :: n in table ==> r.1[n] == table[n])
      && (Independent(table) ==> Independent(r.1))
  {
    DeclareGlobalKeepsListed(order, table, typeSpaced, name, isStatic);
    assert order[..|order|] == order;
    assert (order + [name])[..|order|] == order;
  }

  /** A name the globals add is declared by the first global of that name,
      as a static with one line and no dependencies. */
  lemma {:induction false} DeclareAllNew(p: (seq<string>, Table), decls: seq<GlobalDecl>, n: string)
    requires Listed(p.0, p.1)
    requires n in DeclareAll(p, decls).1 && n !in p.1
    ensures exists k :: (FirstNamed(decls, k, n) &&
      DeclareAll(p, decls).1[n] == HeaderDeclaration({}, [GlobalLine(decls[k].typeSpaced, n, true)]))
  {
    var init := decls[..|decls| - 1];
    var q := DeclareAll(p, init);
    var d := decls[|decls| - 1];
    if n in q.1 {
      DeclareAllNew(p, init, n);
      var k :| FirstNamed(init, k, n) && q.1[n] == HeaderDeclaration({}, [GlobalLine(init[k].typeSpaced, n, true)]);
      assert decls[..k] == init[..k];
      assert FirstNamed(decls, k, n);
    } else {
      DeclareAllListed(p, init);
      assert decls[..|init|] == init;
      assert FirstNamed(decls, |init|, n);
    }
  }

  /** `declare_import`: the module object of an import. */
  function ImportDecl(imp: string): seq<GlobalDecl> {
    [GlobalDecl("CPyModule *", CModuleName(imp))]
  }

  /** `declare_static_pyobject`: the object of a literal's symbol. */
  function SymbolDecl(entry: (Literal, string)): seq<GlobalDecl> {
    [GlobalDecl("PyObject *", entry.1)]
  }

  function ModuleImportDecls(m: (string, ModuleIR)): seq<GlobalDecl> {
    FlatMap(ImportDecl, m.1.imports)
  }

  function ModuleSymbolDecls(m: (string, ModuleIR)): seq<GlobalDecl> {
    FlatMap(SymbolDecl, m.1.literals)
  }

  /** `declare_internal_globals`: the globals dictionary of the module. */
  const InternalGlobals := GlobalDecl("PyObject *", "_globals")

  /** The globals of a build: the internal one, then each module's
      imports, then each module's literal symbols. */
  function GlobalDecls(modules: seq<(string, ModuleIR)>): seq<GlobalDecl> {
    [InternalGlobals] + FlatMap(ModuleImportDecls, modules) + FlatMap(ModuleSymbolDecls, modules)
  }

  /** The header declarations of a build, in insertion order. */
  function Globals(modules: seq<(string, ModuleIR)>): (seq<string>, Table) {
    DeclareAll(([], map[]), GlobalDecls(modules))
  }

  /** The globals of a build: the internal dictionary, the module of
      every import and the object of every literal symbol, and no other. */
  lemma GlobalDeclsIn(modules: seq<(string, ModuleIR)>, d: GlobalDecl)
    ensures d in GlobalDecls(modules) <==>
      || d == InternalGlobals
      || (exists i, j :: 0 <= i < |modules| && 0 <= j < |ImportsOf(modules[i])| && d in ImportDecl(ImportsOf(modules[i])[j]))
      || (exists i, j :: 0 <= i < |modules| && 0 <= j < |LiteralsOf(modules[i])| && d in SymbolDecl(LiteralsOf(modules[i])[j]))
  {
    var decls := GlobalDecls(modules);
    assert d in decls <==>
      d == InternalGlobals || d in FlatMap(ModuleImportDecls, modules) || d in FlatMap(ModuleSymbolDecls, modules);
    FlatMapNestedIn(ModuleImportDecls, ImportsOf, ImportDecl, modules, d);
    FlatMapNestedIn(ModuleSymbolDecls, LiteralsOf, SymbolDecl, modules, d);
  }

  function ImportsOf(m: (string, ModuleIR)): seq<string> {
    m.1.imports
  }

  function LiteralsOf(m: (string, ModuleIR)): seq<(Literal, string)> {
    m.1.literals
  }

  /** A build declares `_globals` first and each of its globals once, as
      a static of the type of the first global of that name, and none of
      its declarations depends on another. */
  lemma GlobalsDeclared(modules: seq<(string, ModuleIR)>)
    ensures var g := Globals(modules); var decls := GlobalDecls(modules);
      && Listed(g.0, g.1) && Independent(g.1)
      && |g.0| > 0 && g.0[0] == "_globals"
      && (forall n :: n in g.1 <==> exists k :: 0 <= k < |decls| && decls[k].name == n)
      && (forall n :: n in g.1 ==>
            exists k :: FirstNamed(decls, k, n) && g.1[n] == HeaderDeclaration({}, [GlobalLine(decls[k].typeSpaced, n, true)]))
  {
    var decls := GlobalDecls(modules);
    var g := Globals(modules);
    var p: (seq<string>, Table) := ([], map[]);
    DeclareAllListed(p, decls);
    forall n
      ensures n in g.1 <==> exists k :: 0 <= k < |decls| && decls[k].name == n
    {
      DeclNamesIn(decls, n);
    }
    forall n | n in g.1
      ensures exists k :: FirstNamed(decls, k, n) && g.1[n] == HeaderDeclaration({}, [GlobalLine(decls[k].typeSpaced, n, true)])
    {
      DeclareAllNew(p, decls, n);
    }
    assert decls == [InternalGlobals] + decls[1..];
    DeclareAllAppend(p, [InternalGlobals], decls[1..]);
    var first := DeclareAll(p, [InternalGlobals]);
    assert [InternalGlobals][..0] == [];
    assert first.0 == ["_globals"];
    DeclareAllListed(first, decls[1..]);
  }

  // -------------------------------------------------------------- the file

  /** `generate_function_declaration`: the prototypes of a function's
      native body and of its wrapper. */
  function FunctionDeclarationOf(mh: ModuleHelpers, h: Helpers): FuncIR -> seq<string> {
    fn => [NativeFunctionHeader(fn, h) + ";", mh.wrapperHeader(fn) + ";"]
  }

  function FunctionDeclarationsIn(mh: ModuleHelpers, h: Helpers): ((string, ModuleIR)) -> FuncIR -> seq<string> {
    (m: (string, ModuleIR)) => FunctionDeclarationOf(mh, h)
  }

  function FunctionsOf(m: (string, ModuleIR)): seq<FuncIR> {
    m.1.functions
  }

  /** The prototypes of every function of a module. */
  function ModuleFunctionDeclarations(mh: ModuleHelpers, h: Helpers): ((string, ModuleIR)) -> seq<string> {
    Nested(FunctionDeclarationsIn(mh, h), FunctionsOf)
  }

  /** The lines of each class of a module. */
  function ClassLinesOf(mh: ModuleHelpers, moduleName: string): ClassIR -> seq<string> {
    cl => mh.classLines(cl, moduleName)
  }

  function ClassLinesIn(mh: ModuleHelpers): ((string, ModuleIR)) -> ClassIR -> seq<string> {
    (m: (string, ModuleIR)) => ClassLinesOf(mh, m.0)
  }

  function ClassesOf(m: (string, ModuleIR)): seq<ClassIR> {
    m.1.classes
  }

  /** The lines of every class of a module. */
  function ModuleClassLines(mh: ModuleHelpers): ((string, ModuleIR)) -> seq<string> {
    Nested(ClassLinesIn(mh), ClassesOf)
  }

  function ModuleDefOf(mh: ModuleHelpers, moduleCount: nat): ((string, ModuleIR)) -> Result<seq<string>> {
    (m: (string, ModuleIR)) => ModuleDefLines(mh, m.0, m.1, moduleCount)
  }

  /** The section of one function: a blank line, its native body, a blank
      line and its wrapper. A module without a source path is a `KeyError`. */
  function FunctionSection(mh: ModuleHelpers, h: Helpers, sourcePaths: map<string, string>, moduleName: string,
                           fn: FuncIR, counter: nat): Result<(seq<string>, nat)> {
    if moduleName !in sourcePaths then Fail("KeyError: " + moduleName)
    else
      var native :- NativeFunctionText(fn, h, sourcePaths[moduleName], counter);
      Ok(([""] + native.0 + [""] + mh.wrapperFunction(fn), native.1))
  }

  function FunctionSectionOf(mh: ModuleHelpers, h: Helpers, sourcePaths: map<string, string>, moduleName: string):
    (FuncIR, nat) -> Result<(seq<string>, nat)>
  {
    (fn, counter) => FunctionSection(mh, h, sourcePaths, moduleName, fn, counter)
  }

  function ModuleSectionsOf(mh: ModuleHelpers, h: Helpers, sourcePaths: map<string, string>):
    ((string, ModuleIR), nat) -> Result<(seq<string>, nat)>
  {
    (m: (string, ModuleIR), counter) => FlatMapCounted(FunctionSectionOf(mh, h, sourcePaths, m.0), m.1.functions, counter)
  }

  const Includes := ["#include <Python.h>", "#include <CPy.h>", ""]

  /** The body of a declared name. */
  function BodyIn(table: Table): string -> seq<string> {
    n => if n in table then table[n].body else []
  }

  function DeclBody(d: HeaderDeclaration): seq<string> {
    d.body
  }

  /** The declarations buffer: the includes, then the body of every
      header declaration in insertion order. */
  function HeaderLines(g: (seq<string>, Table)): seq<string> {
    Includes + FlatMap(BodyIn(g.1), g.0)
  }

  /** The main buffer: the prototypes of every function, the classes, a
      blank line, the module definitions and the function sections. */
  function BodyLines(mh: ModuleHelpers, h: Helpers, modules: seq<(string, ModuleIR)>, defs: seq<string>, sections: seq<string>): seq<string> {
    FlatMap(ModuleFunctionDeclarations(mh, h), modules) + FlatMap(ModuleClassLines(mh), modules) + [""] + defs + sections
  }

  /** The lines of `generate_c_for_modules` from the given temporary
      counter: the declarations buffer, then the main buffer. */
  function CForModulesLines(mh: ModuleHelpers, h: Helpers, modules: seq<(string, ModuleIR)>,
                            sourcePaths: map<string, string>, counter: nat): Result<seq<string>> {
    var defs :- MapResult(ModuleDefOf(mh, |modules|), modules);
    var sections :- FlatMapCounted(ModuleSectionsOf(mh, h, sourcePaths), modules, counter);
    Ok(HeaderLines(Globals(modules)) + BodyLines(mh, h, modules, defs, sections.0))
  }

  /** `generate_c_for_modules`: the text of the C file. */
  function CForModules(mh: ModuleHelpers, h: Helpers, modules: seq<(string, ModuleIR)>,
                       sourcePaths: map<string, string>, counter: nat): Result<string> {
    var lines :- CForModulesLines(mh, h, modules, sourcePaths, counter);
    Ok(Text(lines))
  }

  /** The C file is the two buffers when the module definitions and the
      function sections are written, and is refused otherwise. */
  lemma CForModulesParts(mh: ModuleHelpers, h: Helpers, modules: seq<(string, ModuleIR)>,
                         sourcePaths: map<string, string>, counter: nat)
    ensures var r := CForModulesLines(mh, h, modules, sourcePaths, counter);
      var defs := MapResult(ModuleDefOf(mh, |modules|), modules);
      var sections := FlatMapCounted(ModuleSectionsOf(mh, h, sourcePaths), modules, counter);
      && (r.Ok? <==> defs.Ok? && sections.Ok?)
      && (r.Ok? ==> r.value == HeaderLines(Globals(modules)) + BodyLines(mh, h, modules, defs.value, sections.value.0))
  {
  }

  /** The text of `generate_c_for_modules` from a header buffer and a main
      buffer that hold the expected lines. */
  lemma CForModulesFrom(mh: ModuleHelpers, h: Helpers, modules: seq<(string, ModuleIR)>,
                        sourcePaths: map<string, string>, counter: nat, header: seq<string>, body: seq<string>)
    requires MapResult(ModuleDefOf(mh, |modules|), modules).Ok?
    requires FlatMapCounted(ModuleSectionsOf(mh, h, sourcePaths), modules, counter).Ok?
    requires header == [] + HeaderLines(Globals(modules))
    requires body == BodyLines(mh, h, modules, MapResult(ModuleDefOf(mh, |modules|), modules).value,
                               FlatMapCounted(ModuleSectionsOf(mh, h, sourcePaths), modules, counter).value.0)
    ensures CForModules(mh, h, modules, sourcePaths, counter) == Ok(Text(header + body))
  {
    CForModulesParts(mh, h, modules, sourcePaths, counter);
    assert header == HeaderLines(Globals(modules));
  }

  /** `generate_c_for_modules` fails when a module definition or a function
      section does. */
  lemma CForModulesFails(mh: ModuleHelpers, h: Helpers, modules: seq<(string, ModuleIR)>,
                         sourcePaths: map<string, string>, counter: nat)
    requires MapResult(ModuleDefOf(mh, |modules|), modules).Fail?
          || FlatMapCounted(ModuleSectionsOf(mh, h, sourcePaths), modules, counter).Fail?
    ensures CForModules(mh, h, modules, sourcePaths, counter).Fail?
  {
    CForModulesParts(mh, h, modules, sourcePaths, counter);
  }

  /** Every listed declaration is one line. */
  ghost predicate OneLine(g: (seq<string>, Table)) {
    forall k :: 0 <= k < |g.0| ==> |BodyIn(g.1)(g.0[k])| == 1
  }

  /** The globals of a build are listed once each and independent. */
  lemma GlobalsIndependent(modules: seq<(string, ModuleIR)>)
    ensures Listed(Globals(modules).0, Globals(modules).1) && Independent(Globals(modules).1)
  {
    GlobalsDeclared(modules);
  }

  /** Declaring globals in turn keeps every declaration one line. */
  lemma DeclaresOneLine(p: (seq<string>, Table), decls: seq<GlobalDecl>)
    requires Listed(p.0, p.1) && OneLine(p)
    ensures OneLine(DeclareAll(p, decls))
  {
    var g := DeclareAll(p, decls);
    DeclareAllListed(p, decls);
    forall k | 0 <= k < |g.0|
      ensures |BodyIn(g.1)(g.0[k])| == 1
    {
      var n := g.0[k];
      if n in p.1 {
        var j :| 0 <= j < |p.0| && p.0[j] == n;
      } else {
        DeclareAllNew(p, decls, n);
      }
    }
  }

  /** Every header declaration of a build is one line. */
  lemma GlobalsOneLine(modules: seq<(string, ModuleIR)>)
    ensures OneLine(Globals(modules))
  {
    var p: (seq<string>, Table) := ([], map[]);
    DeclaresOneLine(p, GlobalDecls(modules));
  }

  /** A buffer that starts with the declarations of one-line declarations
      has the includes first and then each declaration in order. */
  lemma HeaderLayout(g: (seq<string>, Table), rest: seq<string>)
    requires OneLine(g)
    ensures var lines := HeaderLines(g) + rest;
      && |lines| >= 3 + |g.0|
      && lines[..3] == Includes
      && forall k :: 0 <= k < |g.0| ==> [lines[3 + k]] == BodyIn(g.1)(g.0[k])
  {
    FlatMapSingle(BodyIn(g.1), g.0);
    var header := HeaderLines(g);
    var lines := header + rest;
    forall k | 0 <= k < |g.0|
      ensures [lines[3 + k]] == BodyIn(g.1)(g.0[k])
    {
      assert lines[3 + k] == header[3 + k];
    }
    assert lines[..3] == header[..3];
  }

  /** The C file opens with the includes and a blank line, followed by the
      one line of every global in insertion order. */
  lemma CForModulesHeader(mh: ModuleHelpers, h: Helpers, modules: seq<(string, ModuleIR)>,
                          sourcePaths: map<string, string>, counter: nat)
    requires CForModulesLines(mh, h, modules, sourcePaths, counter).Ok?
    ensures var lines := CForModulesLines(mh, h, modules, sourcePaths, counter).value; var g := Globals(modules);
      && |lines| >= 3 + |g.0|
      && lines[..3] == Includes
      && forall k :: 0 <= k < |g.0| ==> [lines[3 + k]] == BodyIn(g.1)(g.0[k])
  {
    CForModulesParts(mh, h, modules, sourcePaths, counter);
    GlobalsOneLine(modules);
    HeaderLayout(Globals(modules), BodyLines(mh, h, modules,
      MapResult(ModuleDefOf(mh, |modules|), modules).value,
      FlatMapCounted(ModuleSectionsOf(mh, h, sourcePaths), modules, counter).value.0));
  }

  /** Every element of a counted run that is written is written from some
      counter value. */
  lemma {:induction false} FlatMapCountedOk<T>(f: (T, nat) -> Result<(seq<string>, nat)>, xs: seq<T>, counter: nat, i: nat)
    requires FlatMapCounted(f, xs, counter).Ok? && i < |xs|
    ensures exists c: nat :: f(xs[i], c).Ok?
  {
    var init := xs[..|xs| - 1];
    if i < |init| {
      assert init[i] == xs[i];
      FlatMapCountedOk(f, init, counter, i);
    } else {
      var c := FlatMapCounted(f, init, counter).value.1;
      assert f(xs[i], c).Ok?;
    }
  }

  /** The module definitions are written only when every literal of every
      module is an int, a float or a str. */
  lemma ModuleDefsOk(mh: ModuleHelpers, modules: seq<(string, ModuleIR)>)
    requires MapResult(ModuleDefOf(mh, |modules|), modules).Ok?
    ensures forall i, k :: 0 <= i < |modules| && 0 <= k < |modules[i].1.literals| ==> !modules[i].1.literals[k].0.OtherLiteral?
  {
    MapResultOkIff(ModuleDefOf(mh, |modules|), modules);
    forall i | 0 <= i < |modules|
      ensures forall k :: 0 <= k < |modules[i].1.literals| ==> !modules[i].1.literals[k].0.OtherLiteral?
    {
      ModuleDefOkIff(mh, modules[i].0, modules[i].1, |modules|);
    }
  }

  /** The function sections are written only when every module with
      functions has a source path. */
  lemma SectionsHavePaths(mh: ModuleHelpers, h: Helpers, modules: seq<(string, ModuleIR)>,
                          sourcePaths: map<string, string>, counter: nat)
    requires FlatMapCounted(ModuleSectionsOf(mh, h, sourcePaths), modules, counter).Ok?
    ensures forall i :: 0 <= i < |modules| && modules[i].1.functions != [] ==> modules[i].0 in sourcePaths
  {
    forall i | 0 <= i < |modules| && modules[i].1.functions != []
      ensures modules[i].0 in sourcePaths
    {
      var f := ModuleSectionsOf(mh, h, sourcePaths);
      FlatMapCountedOk(f, modules, counter, i);
      var c: nat :| f(modules[i], c).Ok?;
      var g := FunctionSectionOf(mh, h, sourcePaths, modules[i].0);
      FlatMapCountedOk(g, modules[i].1.functions, c, 0);
    }
  }

  /** A C file is produced only when every literal of every module is an
      int, a float or a str, and every module with functions has a source
      path. */
  lemma CForModulesOk(mh: ModuleHelpers, h: Helpers, modules: seq<(string, ModuleIR)>,
                      sourcePaths: map<string, string>, counter: nat)
    requires CForModulesLines(mh, h, modules, sourcePaths, counter).Ok?
    ensures forall i, k :: 0 <= i < |modules| && 0 <= k < |modules[i].1.literals| ==> !modules[i].1.literals[k].0.OtherLiteral?
    ensures forall i :: 0 <= i < |modules| && modules[i].1.functions != [] ==> modules[i].0 in sourcePaths
  {
    CForModulesParts(mh, h, modules, sourcePaths, counter);
    ModuleDefsOk(mh, modules);
    SectionsHavePaths(mh, h, modules, sourcePaths, counter);
  }
}
