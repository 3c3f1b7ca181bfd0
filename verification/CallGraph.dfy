/** Call-graph pruning (src/compile/mod.rs:302-333, 1041-1143): a depth-first walk that removes what
    it reaches from a shared graph; whatever is left is unreachable and is dropped from its module. */
module CallGraph {
  import opened Avm

  type Path = seq<string>
  type FuncId = nat

  /** id is the function id the import goes by in the importing module. */
  datatype Import = Import(path: Path, name: string, id: Option<FuncId>)

  /** funcs maps each function to the functions it uses; names is the module's string table. */
  datatype Module = Module(path: Path, funcs: map<FuncId, seq<FuncId>>, imports: seq<Import>,
                           names: map<string, FuncId>)

  /** A call inside the module, or across to the import's module. */
  datatype Call = Call(id: FuncId, dest: Option<Import>)

  datatype Node = Node(path: Path, func: FuncId)

  type Graph = map<Node, seq<Call>>

  predicate IsLibrary(path: Path) {
    path != [] && (path[0] == "core" || path[0] == "std")
  }

  // ----- building the graph -----

  /** A later import under the same id wins. */
  function ImportIds(imports: seq<Import>): map<FuncId, Import> {
    if imports == [] then map[]
    else
      var imp, m := imports[|imports| - 1], ImportIds(imports[..|imports| - 1]);
      if imp.id.Some? then m[imp.id.value := imp] else m
  }

  /** The calls that count: calls into the library are not followed. */
  function CallsOf(ids: map<FuncId, Import>, used: seq<FuncId>): seq<Call> {
    if used == [] then []
    else
      var k := |used| - 1;
      var rest, id := CallsOf(ids, used[..k]), used[k];
      if id !in ids then rest + [Call(id, None)]
      else if IsLibrary(ids[id].path) then rest
      else rest + [Call(id, Some(ids[id]))]
  }

  function ModuleGraph(m: Module): map<FuncId, seq<Call>> {
    map f | f in m.funcs :: CallsOf(ImportIds(m.imports), m.funcs[f])
  }

  method BuildCallgraph(m: Module) returns (graph: map<FuncId, seq<Call>>)
    ensures graph == ModuleGraph(m)
  {
    var importIds: map<FuncId, Import> := map[];
    for i := 0 to |m.imports|
      invariant importIds == ImportIds(m.imports[..i])
    {
      assert m.imports[..i + 1][..i] == m.imports[..i];
      if m.imports[i].id.Some? {
        importIds := importIds[m.imports[i].id.value := m.imports[i]];
      }
    }
    assert m.imports[..|m.imports|] == m.imports;
    graph := map[];
    var todo := m.funcs.Keys;
    while todo != {}
      invariant todo <= m.funcs.Keys
      invariant graph == map f | f in m.funcs && f !in todo :: CallsOf(importIds, m.funcs[f])
      decreases |todo|
    {
      var f :| f in todo;
      var calls := CountedCalls(importIds, m.funcs[f]);
      graph := graph[f := calls];
      todo := todo - {f};
    }
  }

  method CountedCalls(importIds: map<FuncId, Import>, used: seq<FuncId>) returns (calls: seq<Call>)
    ensures calls == CallsOf(importIds, used)
  {
    calls := [];
    for i := 0 to |used|
      invariant calls == CallsOf(importIds, used[..i])
    {
      assert used[..i + 1][..i] == used[..i];
      var id := used[i];
      if id !in importIds {
        calls := calls + [Call(id, None)];
      } else if !IsLibrary(importIds[id].path) {
        calls := calls + [Call(id, Some(importIds[id]))];
      }
    }
    assert used[..|used|] == used;
  }

  // ----- reachability -----

  /** String tables by module. */
  type Tables = map<Path, map<string, FuncId>>

  /** Where a call made in a module goes; None where the walk would panic. */
  function Resolve(tables: Tables, path: Path, call: Call): Option<Node> {
    match call.dest
    case None => Some(Node(path, call.id))
    case Some(imp) =>
      if imp.path in tables && imp.name in tables[imp.path] then Some(Node(imp.path, tables[imp.path][imp.name]))
      else None
  }

  /** n calls t. */
  predicate Edge(g: Graph, tables: Tables, n: Node, t: Node) {
    n in g && exists k :: 0 <= k < |g[n]| && Resolve(tables, n.path, g[n][k]) == Some(t)
  }

  /** A chain of calls through functions outside the library. */
  ghost predicate IsChain(g: Graph, tables: Tables, p: seq<Node>) {
    && p != [] && (forall i :: 0 <= i < |p| ==> p[i] in g && !IsLibrary(p[i].path))
    && forall i :: 0 <= i < |p| - 1 ==> Edge(g, tables, p[i], p[i + 1])
  }

  ghost predicate Reachable(g: Graph, tables: Tables, from: Node, to: Node) {
    exists p :: IsChain(g, tables, p) && p[0] == from && p[|p| - 1] == to
  }

  lemma ReachSelf(g: Graph, tables: Tables, n: Node)
    requires n in g && !IsLibrary(n.path)
    ensures Reachable(g, tables, n, n)
  {
    assert IsChain(g, tables, [n]);
  }

  lemma ReachVia(g: Graph, tables: Tables, n: Node, t: Node, r: Node)
    requires n in g && !IsLibrary(n.path) && Edge(g, tables, n, t) && Reachable(g, tables, t, r)
    ensures Reachable(g, tables, n, r)
  {
    var p :| IsChain(g, tables, p) && p[0] == t && p[|p| - 1] == r;
    var q := [n] + p;
    forall i | 0 <= i < |q| - 1 ensures Edge(g, tables, q[i], q[i + 1]) {
      if i > 0 { assert Edge(g, tables, p[i - 1], p[i]); }
    }
    assert IsChain(g, tables, q);
  }

  /** A set that holds the start and, with each function, all it calls, holds all that is reachable. */
  lemma {:induction false} ClosedHoldsChain(g: Graph, tables: Tables, seen: set<Node>, p: seq<Node>, k: nat)
    requires IsChain(g, tables, p) && k < |p| && p[0] in seen
    requires forall n, t :: n in seen && Edge(g, tables, n, t) && t in g && !IsLibrary(t.path) ==> t in seen
    ensures p[k] in seen
  {
    if k > 0 {
      ClosedHoldsChain(g, tables, seen, p, k - 1);
      assert Edge(g, tables, p[k - 1], p[k]);
    }
  }

  /** Every call of a function that is reachable can be resolved. */
  ghost predicate Resolvable(g: Graph, tables: Tables, from: Node) {
    forall n, k :: n in g && Reachable(g, tables, from, n) && 0 <= k < |g[n]| ==> Resolve(tables, n.path, g[n][k]).Some?
  }

  lemma ResolvableOn(g: Graph, tables: Tables, n: Node, t: Node)
    requires n in g && !IsLibrary(n.path) && Edge(g, tables, n, t) && Resolvable(g, tables, n)
    ensures Resolvable(g, tables, t)
  {
    forall m, k | m in g && Reachable(g, tables, t, m) && 0 <= k < |g[m]|
      ensures Resolve(tables, m.path, g[m][k]).Some?
    {
      ReachVia(g, tables, n, t, m);
    }
  }

  // ----- the walk -----

  /** Part of a graph. */
  ghost predicate Within(g: Graph, whole: Graph) {
    forall n :: n in g ==> n in whole && g[n] == whole[n]
  }

  /** Calls of removed functions lead to nothing that is left. */
  ghost predicate Closed(before: Graph, after: Graph, whole: Graph, tables: Tables) {
    forall n, t :: n in before && n !in after && Edge(whole, tables, n, t) && !IsLibrary(t.path) ==> t !in after
  }

  ghost predicate AllReached(before: Graph, after: Graph, whole: Graph, tables: Tables, from: Node) {
    forall n :: n in before && n !in after ==> Reachable(whole, tables, from, n)
  }

  class Walk {
    var graph: Graph

    constructor (g: Graph)
      ensures graph == g
    {
      graph := g;
    }

    /** Removes everything reachable from a function. The graph shrinks before each descent. */
    method Descend(n: Node, tables: Tables, ghost whole: Graph)
      requires Within(graph, whole) && Resolvable(whole, tables, n)
      modifies this
      ensures Within(graph, old(graph)) && Within(graph, whole)
      ensures !IsLibrary(n.path) ==> n !in graph
      ensures AllReached(old(graph), graph, whole, tables, n) && Closed(old(graph), graph, whole, tables)
      decreases |graph.Keys|
    {
      if IsLibrary(n.path) { return; }
      if n !in graph { return; }
      var calls := graph[n];
      ghost var start := graph;
      graph := graph - {n};
      WalkStarts(start, whole, tables, n);
      for i := 0 to |calls|
        invariant Walked(start, graph, whole, tables, n, i)
      {
        ghost var before := graph;
        assert calls[i] == whole[n][i];
        ReachSelf(whole, tables, n);
        var target := Resolve(tables, n.path, calls[i]).value;
        assert Edge(whole, tables, n, target);
        ResolvableOn(whole, tables, n, target);
        Descend(target, tables, whole);
        WalkStep(start, before, graph, whole, tables, n, i, target);
      }
      WalkEnds(start, graph, whole, tables, n);
    }
  }

  /** The walk has removed n and followed its first i calls. */
  ghost predicate Walked(start: Graph, now: Graph, whole: Graph, tables: Tables, n: Node, i: nat) {
    && n in start && i <= |start[n]| && Within(start, whole)
    && Within(now, start) && Within(now, whole) && n !in now && |now.Keys| < |start.Keys|
    && AllReached(start, now, whole, tables, n)
    && ClosedBut(start, now, whole, tables, n)
    && forall k :: 0 <= k < i ==> CallGone(now, tables, n, start[n][k])
  }

  ghost predicate ClosedBut(before: Graph, after: Graph, whole: Graph, tables: Tables, n: Node) {
    forall m, t :: m in before && m !in after && m != n && Edge(whole, tables, m, t) && !IsLibrary(t.path)
      ==> t !in after
  }

  ghost predicate CallGone(now: Graph, tables: Tables, n: Node, call: Call) {
    var t := Resolve(tables, n.path, call);
    t.Some? ==> IsLibrary(t.value.path) || t.value !in now
  }

  lemma WalkStarts(start: Graph, whole: Graph, tables: Tables, n: Node)
    requires n in start && !IsLibrary(n.path) && Within(start, whole)
    ensures Walked(start, start - {n}, whole, tables, n, 0)
  {
    var now := start - {n};
    assert now.Keys == start.Keys - {n};
    ReachSelf(whole, tables, n);
  }

  lemma WalkStep(start: Graph, before: Graph, after: Graph, whole: Graph, tables: Tables, n: Node, i: nat, target: Node)
    requires Walked(start, before, whole, tables, n, i) && i < |start[n]| && !IsLibrary(n.path)
    requires Resolve(tables, n.path, start[n][i]) == Some(target)
    requires Within(after, before) && Within(after, whole) && (!IsLibrary(target.path) ==> target !in after)
    requires AllReached(before, after, whole, tables, target) && Closed(before, after, whole, tables)
    ensures Walked(start, after, whole, tables, n, i + 1)
  {
    SubsetSize(after.Keys, before.Keys);
    assert whole[n] == start[n] && Resolve(tables, n.path, whole[n][i]) == Some(target);
    ReachedOn(start, before, after, whole, tables, n, target);
    ClosedOn(start, before, after, whole, tables, n);
    CallsGoneOn(before, after, tables, n, start[n], i);
  }

  lemma ClosedOn(start: Graph, before: Graph, after: Graph, whole: Graph, tables: Tables, n: Node)
    requires ClosedBut(start, before, whole, tables, n) && Closed(before, after, whole, tables) && Within(after, before)
    ensures ClosedBut(start, after, whole, tables, n)
  {
  }

  lemma CallsGoneOn(before: Graph, after: Graph, tables: Tables, n: Node, calls: seq<Call>, i: nat)
    requires i < |calls| && Within(after, before) && CallGone(after, tables, n, calls[i])
    requires forall k :: 0 <= k < i ==> CallGone(before, tables, n, calls[k])
    ensures forall k :: 0 <= k < i + 1 ==> CallGone(after, tables, n, calls[k])
  {
    forall k | 0 <= k < i ensures CallGone(after, tables, n, calls[k]) { assert CallGone(before, tables, n, calls[k]); }
  }

  lemma ReachedOn(start: Graph, before: Graph, after: Graph, whole: Graph, tables: Tables, n: Node, target: Node)
    requires n in whole && !IsLibrary(n.path) && Edge(whole, tables, n, target)
    requires AllReached(start, before, whole, tables, n) && AllReached(before, after, whole, tables, target)
    ensures AllReached(start, after, whole, tables, n)
  {
    forall r | r in start && r !in after ensures Reachable(whole, tables, n, r) {
      if r in before { ReachVia(whole, tables, n, target, r); }
    }
  }

  lemma WalkEnds(start: Graph, now: Graph, whole: Graph, tables: Tables, n: Node)
    requires n in start && Walked(start, now, whole, tables, n, |start[n]|)
    ensures Closed(start, now, whole, tables)
  {
    forall m, t | m in start && m !in now && Edge(whole, tables, m, t) && !IsLibrary(t.path) ensures t !in now {
      if m == n {
        var k :| 0 <= k < |whole[n]| && Resolve(tables, n.path, whole[n][k]) == Some(t);
        assert CallGone(now, tables, n, start[n][k]);
      }
    }
  }

  lemma SubsetSize(a: set<Node>, b: set<Node>)
    requires a <= b
    ensures |a| <= |b|
  {
    if a != b {
      var x :| x in b && x !in a;
      SubsetSize(a, b - {x});
    }
  }

  // ----- consuming the graph of a program -----

  /** The graph of all modules together. */
  function ProgramGraph(modules: seq<Module>): Graph {
    if modules == [] then map[]
    else
      var m := modules[|modules| - 1];
      var g := ModuleGraph(m);
      ProgramGraph(modules[..|modules| - 1]) + (map f | f in g :: Node(m.path, f) := g[f])
  }

  function TablesOf(modules: seq<Module>): Tables {
    if modules == [] then map[]
    else
      var m := modules[|modules| - 1];
      TablesOf(modules[..|modules| - 1])[m.path := m.names]
  }

  /** What is left of a module when the functions in the graph are dropped. */
  function Pruned(m: Module, left: Graph): Module {
    if IsLibrary(m.path) then m
    else m.(funcs := map f | f in m.funcs && Node(m.path, f) !in left :: m.funcs[f])
  }

  function PrunedAll(modules: seq<Module>, left: Graph): (r: seq<Module>)
    ensures |r| == |modules|
  {
    seq(|modules|, i requires 0 <= i < |modules| => Pruned(modules[i], left))
  }

  /** Functions are kept exactly when they are reachable. */
  ghost predicate KeepsReachable(before: Module, after: Module, g: Graph, tables: Tables, main: Node) {
    && after.path == before.path
    && (if IsLibrary(before.path) then after == before
        else forall f :: f in after.funcs <==> f in before.funcs && Reachable(g, tables, main, Node(before.path, f)))
    && forall f :: f in after.funcs ==> after.funcs[f] == before.funcs[f]
  }

  method ConsumeCallgraph(modules: seq<Module>, mainFunc: FuncId) returns (out: seq<Module>)
    requires modules != [] && Resolvable(ProgramGraph(modules), TablesOf(modules), Node(modules[0].path, mainFunc))
    ensures |out| == |modules|
    ensures IsLibrary(modules[0].path) ==> out == modules
    ensures !IsLibrary(modules[0].path) ==>
              forall i :: 0 <= i < |modules| ==>
                KeepsReachable(modules[i], out[i], ProgramGraph(modules), TablesOf(modules),
                               Node(modules[0].path, mainFunc))
    ensures !IsLibrary(modules[0].path) ==> CallsStay(modules, out)
  {
    if IsLibrary(modules[0].path) { return modules; }
    var whole, tables, main := ProgramGraph(modules), TablesOf(modules), Node(modules[0].path, mainFunc);
    var walk := new Walk(whole);
    walk.Descend(main, tables, whole);
    out := PruneModules(modules, walk.graph);
    PruneAllKeeps(modules, whole, walk.graph, tables, main);
    PrunedIsClosed(modules, walk.graph);
  }

  method PruneModules(modules: seq<Module>, left: Graph) returns (out: seq<Module>)
    ensures out == PrunedAll(modules, left)
  {
    out := [];
    for i := 0 to |modules|
      invariant |out| == i && forall j :: 0 <= j < i ==> out[j] == Pruned(modules[j], left)
    {
      out := out + [Pruned(modules[i], left)];
    }
  }

  lemma PruneAllKeeps(modules: seq<Module>, whole: Graph, left: Graph, tables: Tables, main: Node)
    requires whole == ProgramGraph(modules)
    requires Within(left, whole) && AllReached(whole, left, whole, tables, main) && Closed(whole, left, whole, tables)
    requires !IsLibrary(main.path) && main !in left
    ensures forall i :: 0 <= i < |modules| ==> KeepsReachable(modules[i], PrunedAll(modules, left)[i], whole, tables,
                                                              main)
  {
    forall i | 0 <= i < |modules| ensures KeepsReachable(modules[i], PrunedAll(modules, left)[i], whole, tables, main) {
      PruneKeeps(modules, i, whole, left, tables, main);
    }
  }

  lemma {:induction false} GraphHas(modules: seq<Module>, i: nat, f: FuncId)
    requires i < |modules| && f in modules[i].funcs
    ensures Node(modules[i].path, f) in ProgramGraph(modules)
  {
    var k := |modules| - 1;
    if i < k { GraphHas(modules[..k], i, f); }
  }

  lemma PruneKeeps(modules: seq<Module>, i: nat, whole: Graph, left: Graph, tables: Tables, main: Node)
    requires i < |modules| && whole == ProgramGraph(modules)
    requires Within(left, whole) && AllReached(whole, left, whole, tables, main) && Closed(whole, left, whole, tables)
    requires !IsLibrary(main.path) && main !in left
    ensures KeepsReachable(modules[i], Pruned(modules[i], left), whole, tables, main)
  {
    var m := modules[i];
    if !IsLibrary(m.path) {
      forall f | f in m.funcs ensures Node(m.path, f) !in left <==> Reachable(whole, tables, main, Node(m.path, f)) {
        GraphHas(modules, i, f);
        GoneIsReachable(whole, left, tables, main, Node(m.path, f));
      }
    }
  }

  /** The walk removes exactly what is reachable. */
  lemma GoneIsReachable(whole: Graph, left: Graph, tables: Tables, main: Node, n: Node)
    requires AllReached(whole, left, whole, tables, main) && Closed(whole, left, whole, tables)
    requires !IsLibrary(main.path) && main !in left && n in whole
    ensures n !in left <==> Reachable(whole, tables, main, n)
  {
    if Reachable(whole, tables, main, n) {
      var p :| IsChain(whole, tables, p) && p[0] == main && p[|p| - 1] == n;
      var seen := set m | m in whole && m !in left;
      ClosedHoldsChain(whole, tables, seen, p, |p| - 1);
    }
  }

  // ----- the modules that are returned -----

  /** Whatever a function that was kept calls, in whichever module, is still there if it ever was. */
  ghost predicate CallsStay(modules: seq<Module>, out: seq<Module>) {
    forall n, t :: Edge(ProgramGraph(out), TablesOf(out), n, t) && !IsLibrary(n.path) && t in ProgramGraph(modules) ==>
      t in ProgramGraph(out)
  }

  lemma {:induction false} PrunedTables(modules: seq<Module>, left: Graph)
    ensures TablesOf(PrunedAll(modules, left)) == TablesOf(modules)
  {
    if modules != [] {
      var k := |modules| - 1;
      PrunedTables(modules[..k], left);
      assert PrunedAll(modules, left)[..k] == PrunedAll(modules[..k], left);
    }
  }

  /** The call graph of the returned modules is what the walk has taken from the graph. */
  lemma {:induction false} PrunedGraph(modules: seq<Module>, left: Graph, n: Node)
    ensures var g, g' := ProgramGraph(modules), ProgramGraph(PrunedAll(modules, left));
            (n in g' <==> n in g && (IsLibrary(n.path) || n !in left)) && (n in g' ==> g'[n] == g[n])
  {
    if modules != [] {
      var k := |modules| - 1;
      PrunedGraph(modules[..k], left, n);
      assert PrunedAll(modules, left)[..k] == PrunedAll(modules[..k], left);
    }
  }

  lemma PrunedIsClosed(modules: seq<Module>, left: Graph)
    requires Closed(ProgramGraph(modules), left, ProgramGraph(modules), TablesOf(modules))
    ensures CallsStay(modules, PrunedAll(modules, left))
  {
    var out, g, tables := PrunedAll(modules, left), ProgramGraph(modules), TablesOf(modules);
    PrunedTables(modules, left);
    forall n, t | Edge(ProgramGraph(out), tables, n, t) && !IsLibrary(n.path) && t in g ensures t in ProgramGraph(out) {
      PrunedGraph(modules, left, n);
      PrunedGraph(modules, left, t);
      assert Edge(g, tables, n, t);
    }
  }
}
