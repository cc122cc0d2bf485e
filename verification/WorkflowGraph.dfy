/**
 The `needs`/`spawn` graph of a task catalog, and its rendering as DOT text.
 */
module WorkflowGraph {
  import opened Options
  import opened RepoRefs

  datatype EdgeKind = Spawn | Needs | NeedsSucceeded | NeedsFailed | Join

  datatype Node = Node(name: string, scheduled: bool, external: bool)

  datatype Edge = Edge(from: string, to: string, kind: EdgeKind)

  datatype Graph = Graph(nodes: seq<Node>, edges: seq<Edge>)

  // -------------------------------------------------------------------------
  // Names in order
  // -------------------------------------------------------------------------

  predicate Le(a: string, b: string) {
    a == "" || (b != "" && (a[0] < b[0] || (a[0] == b[0] && Le(a[1..], b[1..]))))
  }

  lemma {:induction false} LeTotal(a: string, b: string)
    ensures Le(a, b) || Le(b, a)
    ensures Le(a, b) && Le(b, a) ==> a == b
  {
    if a != "" && b != "" && a[0] == b[0] {
      LeTotal(a[1..], b[1..]);
      assert a == [a[0]] + a[1..] && b == [b[0]] + b[1..];
    }
  }

  lemma {:induction false} LeTransitive(a: string, b: string, c: string)
    requires Le(a, b) && Le(b, c)
    ensures Le(a, c)
  {
    if a != "" && a[0] == b[0] && b[0] == c[0] { LeTransitive(a[1..], b[1..], c[1..]); }
  }

  /** The order of strings: a prefix comes first, else the first character that differs decides. */
  lemma {:induction false} LeIsLexicographic(a: string, b: string)
    ensures Le(a, b) <==> a <= b || exists k :: 0 <= k < |a| && k < |b| && a[..k] == b[..k] && a[k] < b[k]
  {
    if a != "" && b != "" && a[0] == b[0] {
      LeIsLexicographic(a[1..], b[1..]);
      assert a == [a[0]] + a[1..] && b == [b[0]] + b[1..];
      if k :| 0 <= k < |a[1..]| && k < |b[1..]| && a[1..][..k] == b[1..][..k] && a[1..][k] < b[1..][k] {
        assert a[..k + 1] == [a[0]] + a[1..][..k] && b[..k + 1] == [b[0]] + b[1..][..k];
        assert a[k + 1] < b[k + 1];
      }
      if k :| 0 <= k < |a| && k < |b| && a[..k] == b[..k] && a[k] < b[k] {
        assert a[1..][..k - 1] == a[..k][1..] && b[1..][..k - 1] == b[..k][1..];
        assert a[1..][k - 1] < b[1..][k - 1];
      }
    } else if a != "" && b != "" && a[0] < b[0] {
      assert a[..0] == b[..0];
    }
  }

  /** Stable insertion: in front of the first definition whose name is not smaller. */
  function Insert(def: TaskDef, defs: seq<TaskDef>): seq<TaskDef> {
    if defs == [] || Le(def.name, defs[0].name) then [def] + defs
    else [defs[0]] + Insert(def, defs[1..])
  }

  function SortByName(defs: seq<TaskDef>): seq<TaskDef> {
    if defs == [] then [] else Insert(defs[0], SortByName(defs[1..]))
  }

  ghost predicate Ordered(defs: seq<TaskDef>) {
    forall i, j :: 0 <= i < j < |defs| ==> Le(defs[i].name, defs[j].name)
  }

  /** The definitions of one name, in their order. */
  function Named(defs: seq<TaskDef>, name: string): seq<TaskDef> {
    if defs == [] then []
    else (if defs[0].name == name then [defs[0]] else []) + Named(defs[1..], name)
  }

  lemma {:induction false} InsertAdds(def: TaskDef, defs: seq<TaskDef>)
    ensures |Insert(def, defs)| == |defs| + 1 && multiset(Insert(def, defs)) == multiset{def} + multiset(defs)
  {
    if defs != [] && !Le(def.name, defs[0].name) {
      InsertAdds(def, defs[1..]);
      assert defs == [defs[0]] + defs[1..];
    }
  }

  lemma {:induction false} InsertOrders(def: TaskDef, defs: seq<TaskDef>)
    requires Ordered(defs)
    ensures var r := Insert(def, defs);
            Ordered(r) && |r| == |defs| + 1 && multiset(r) == multiset{def} + multiset(defs)
  {
    InsertAdds(def, defs);
    if defs == [] || Le(def.name, defs[0].name) {
      forall j | 0 <= j < |defs| ensures Le(def.name, defs[j].name) {
        if j > 0 { LeTransitive(def.name, defs[0].name, defs[j].name); }
      }
    } else {
      InsertOrders(def, defs[1..]);
      InsertBehind(def, defs[0], defs[1..]);
      assert Insert(def, defs) == [defs[0]] + Insert(def, defs[1..]);
    }
  }

  /** What is inserted behind the head stays behind it. */
  lemma InsertBehind(def: TaskDef, head: TaskDef, rest: seq<TaskDef>)
    requires !Le(def.name, head.name) && forall j :: 0 <= j < |rest| ==> Le(head.name, rest[j].name)
    ensures forall j :: 0 <= j < |Insert(def, rest)| ==> Le(head.name, Insert(def, rest)[j].name)
  {
    var r := Insert(def, rest);
    LeTotal(def.name, head.name);
    InsertAdds(def, rest);
    forall j | 0 <= j < |r| ensures Le(head.name, r[j].name) {
      assert r[j] in multiset(r);
      assert r[j] == def || r[j] in rest;
    }
  }

  lemma {:induction false} InsertNamed(def: TaskDef, defs: seq<TaskDef>, name: string)
    ensures Named(Insert(def, defs), name) == Named([def] + defs, name)
  {
    if defs != [] && !Le(def.name, defs[0].name) {
      InsertNamed(def, defs[1..], name);
      LeTotal(def.name, def.name);
      assert def.name != defs[0].name;
      assert ([def] + defs)[1..] == defs && ([def] + defs[1..])[1..] == defs[1..];
    }
  }

  /** A stable sort: an ordered rearrangement that leaves equal names in their order. */
  lemma {:induction false} SortIsStable(defs: seq<TaskDef>)
    ensures var r := SortByName(defs); Ordered(r) && |r| == |defs| && multiset(r) == multiset(defs)
    ensures forall n :: Named(SortByName(defs), n) == Named(defs, n)
  {
    if defs != [] {
      var rest := SortByName(defs[1..]);
      SortIsStable(defs[1..]);
      InsertOrders(defs[0], rest);
      assert defs == [defs[0]] + defs[1..];
      forall n ensures Named(SortByName(defs), n) == Named(defs, n) {
        InsertNamed(defs[0], rest, n);
        assert ([defs[0]] + rest)[1..] == rest;
      }
    }
  }

  // -------------------------------------------------------------------------
  // The graph
  // -------------------------------------------------------------------------

  function EdgeKindOf(kind: NeedsKind): EdgeKind {
    match kind
    case Finished => Needs
    case Succeeded => NeedsSucceeded
    case Failed => NeedsFailed
    case AllFinished => Join
  }

  function CatalogNodes(def: TaskDef): seq<Node> { [Node(def.name, def.schedule.Some?, false)] }

  function SpawnEdges(def: TaskDef): seq<Edge> {
    if def.spawn.Some? then [Edge(def.name, def.spawn.value, Spawn)] else []
  }

  function NeedsEdges(def: TaskDef): seq<Edge> {
    if def.needs.Some? then
      var (source, kind) := NeedsParts(def.needs.value);
      [Edge(source, def.name, EdgeKindOf(kind))]
    else []
  }

  function OwnEdges(def: TaskDef): seq<Edge> { SpawnEdges(def) + NeedsEdges(def) }

  /** The names a definition refers to. */
  function Refs(def: TaskDef): seq<string> {
    (if def.spawn.Some? then [def.spawn.value] else [])
    + (if def.needs.Some? then [NeedsParts(def.needs.value).0] else [])
  }

  function Concat<T>(f: TaskDef -> seq<T>, defs: seq<TaskDef>): seq<T> {
    if defs == [] then [] else f(defs[0]) + Concat(f, defs[1..])
  }

  /** An ordered set of names, kept strictly ascending. */
  function AddName(names: seq<string>, name: string): seq<string> {
    if names == [] then [name]
    else if names[0] == name then names
    else if Le(name, names[0]) then [name] + names
    else [names[0]] + AddName(names[1..], name)
  }

  function AddForeign(found: seq<string>, catalog: set<string>, refs: seq<string>): seq<string>
    decreases |refs|
  {
    if refs == [] then found
    else AddForeign(if refs[0] in catalog then found else AddName(found, refs[0]), catalog, refs[1..])
  }

  function ExternalNodes(names: seq<string>): seq<Node> {
    seq(|names|, i requires 0 <= i < |names| => Node(names[i], false, true))
  }

  function Foreign(defs: seq<TaskDef>): seq<string> {
    AddForeign([], Names(defs), Concat(Refs, SortByName(defs)))
  }

  function GraphOf(defs: seq<TaskDef>): Graph {
    var sorted := SortByName(defs);
    Graph(Concat(CatalogNodes, sorted) + ExternalNodes(Foreign(defs)), Concat(OwnEdges, sorted))
  }

  lemma {:induction false} ConcatAppend<T>(f: TaskDef -> seq<T>, xs: seq<TaskDef>, ys: seq<TaskDef>)
    ensures Concat(f, xs + ys) == Concat(f, xs) + Concat(f, ys)
  {
    if xs == [] {
      assert xs + ys == ys;
    } else {
      assert (xs + ys)[1..] == xs[1..] + ys;
      ConcatAppend(f, xs[1..], ys);
    }
  }

  lemma ConcatOneMore<T>(f: TaskDef -> seq<T>, defs: seq<TaskDef>, i: nat)
    requires i < |defs|
    ensures Concat(f, defs[..i + 1]) == Concat(f, defs[..i]) + f(defs[i])
  {
    assert defs[..i + 1] == defs[..i] + [defs[i]];
    ConcatAppend(f, defs[..i], [defs[i]]);
  }

  lemma {:induction false} AddForeignAppend(found: seq<string>, catalog: set<string>, xs: seq<string>, ys: seq<string>)
    ensures AddForeign(found, catalog, xs + ys) == AddForeign(AddForeign(found, catalog, xs), catalog, ys)
    decreases |xs|
  {
    if xs == [] {
      assert xs + ys == ys;
    } else {
      assert (xs + ys)[1..] == xs[1..] + ys;
      AddForeignAppend(if xs[0] in catalog then found else AddName(found, xs[0]), catalog, xs[1..], ys);
    }
  }

  lemma RefsOneByOne(found: seq<string>, catalog: set<string>, def: TaskDef)
    ensures var spawned := if def.spawn.Some? then AddForeign(found, catalog, [def.spawn.value]) else found;
            AddForeign(found, catalog, Refs(def))
            == if def.needs.Some? then AddForeign(spawned, catalog, [NeedsParts(def.needs.value).0]) else spawned
    ensures forall fs, n {:trigger AddForeign(fs, catalog, [n])} ::
              AddForeign(fs, catalog, [n]) == if n in catalog then fs else AddName(fs, n)
  {
    if def.spawn.Some? && def.needs.Some? {
      AddForeignAppend(found, catalog, [def.spawn.value], [NeedsParts(def.needs.value).0]);
    }
  }

  /** The names outside the catalog, gathered definition by definition. */
  method Externals(catalog: set<string>, sorted: seq<TaskDef>) returns (external: seq<string>)
    ensures external == AddForeign([], catalog, Concat(Refs, sorted))
  {
    external := [];
    for i := 0 to |sorted|
      invariant external == AddForeign([], catalog, Concat(Refs, sorted[..i]))
    {
      var def := sorted[i];
      ghost var before := external;
      if def.spawn.Some? && def.spawn.value !in catalog {
        external := AddName(external, def.spawn.value);
      }
      if def.needs.Some? {
        var source := NeedsParts(def.needs.value).0;
        if source !in catalog {
          external := AddName(external, source);
        }
      }
      RefsOneByOne(before, catalog, def);
      ConcatOneMore(Refs, sorted, i);
      AddForeignAppend([], catalog, Concat(Refs, sorted[..i]), Refs(def));
    }
    assert sorted[..|sorted|] == sorted;
  }

  method EdgesInOrder(sorted: seq<TaskDef>) returns (edges: seq<Edge>)
    ensures edges == Concat(OwnEdges, sorted)
  {
    edges := [];
    for i := 0 to |sorted|
      invariant edges == Concat(OwnEdges, sorted[..i])
    {
      var def := sorted[i];
      if def.spawn.Some? {
        edges := edges + [Edge(def.name, def.spawn.value, Spawn)];
      }
      if def.needs.Some? {
        var (source, kind) := NeedsParts(def.needs.value);
        edges := edges + [Edge(source, def.name, EdgeKindOf(kind))];
      }
      ConcatOneMore(OwnEdges, sorted, i);
    }
    assert sorted[..|sorted|] == sorted;
  }

  method BuildGraph(defs: seq<TaskDef>) returns (graph: Graph)
    ensures graph == GraphOf(defs)
  {
    var sorted := SortByName(defs);
    var nodes: seq<Node> := [];
    for i := 0 to |sorted|
      invariant nodes == Concat(CatalogNodes, sorted[..i])
    {
      nodes := nodes + [Node(sorted[i].name, sorted[i].schedule.Some?, false)];
      ConcatOneMore(CatalogNodes, sorted, i);
    }
    assert sorted[..|sorted|] == sorted;
    var external := Externals(Names(defs), sorted);
    var edges := EdgesInOrder(sorted);
    graph := Graph(nodes + ExternalNodes(external), edges);
  }

  // -------------------------------------------------------------------------
  // What the graph holds
  // -------------------------------------------------------------------------

  ghost predicate Ascending(names: seq<string>) {
    forall i, j :: 0 <= i < j < |names| ==> Le(names[i], names[j]) && names[i] != names[j]
  }

  lemma {:induction false} AddNameKeeps(names: seq<string>, name: string)
    requires Ascending(names)
    ensures var r := AddName(names, name);
            Ascending(r) && (forall n :: n in r <==> n in names || n == name)
  {
    var r := AddName(names, name);
    if names != [] {
      var tail := names[1..];
      LeTotal(name, names[0]);
      if names[0] != name && Le(name, names[0]) {
        forall j | 0 <= j < |names| ensures Le(name, names[j]) && name != names[j] {
          if j > 0 { LeTransitive(name, names[0], names[j]); LeTotal(names[0], names[j]); }
        }
      } else if names[0] != name {
        AddNameKeeps(tail, name);
        var added := AddName(tail, name);
        forall n ensures n in r <==> n in names || n == name {
          assert n in names <==> n == names[0] || n in tail;
        }
        forall j | 0 <= j < |added| ensures Le(names[0], added[j]) && names[0] != added[j] {
          assert added[j] in added;
          if added[j] in tail {
            var k :| 0 <= k < |tail| && tail[k] == added[j];
            assert tail[k] == names[k + 1];
          }
        }
      }
    }
  }

  lemma {:induction false} AddForeignKeeps(found: seq<string>, catalog: set<string>, refs: seq<string>)
    requires Ascending(found)
    ensures var r := AddForeign(found, catalog, refs);
            Ascending(r) && (forall n :: n in r <==> n in found || (n in refs && n !in catalog))
    decreases |refs|
  {
    if refs != [] {
      AddNameKeeps(found, refs[0]);
      var next := if refs[0] in catalog then found else AddName(found, refs[0]);
      AddForeignKeeps(next, catalog, refs[1..]);
      forall n ensures n in AddForeign(found, catalog, refs) <==> n in found || (n in refs && n !in catalog) {
        assert n in refs <==> n == refs[0] || n in refs[1..];
      }
    }
  }

  lemma {:induction false} InConcat<T>(f: TaskDef -> seq<T>, defs: seq<TaskDef>, x: T)
    ensures x in Concat(f, defs) <==> exists d :: d in defs && x in f(d)
  {
    if defs != [] {
      InConcat(f, defs[1..], x);
      assert forall d :: d in defs <==> d == defs[0] || d in defs[1..];
    }
  }

  lemma InSorted(defs: seq<TaskDef>, def: TaskDef)
    ensures def in SortByName(defs) <==> def in defs
  {
    SortIsStable(defs);
    assert def in multiset(SortByName(defs)) <==> def in multiset(defs);
  }

  lemma InConcatSorted<T>(f: TaskDef -> seq<T>, defs: seq<TaskDef>, x: T)
    ensures x in Concat(f, SortByName(defs)) <==> exists d :: d in defs && x in f(d)
  {
    InConcat(f, SortByName(defs), x);
    forall d ensures d in SortByName(defs) <==> d in defs { InSorted(defs, d); }
  }

  /** An edge is drawn exactly for a `spawn` or a `needs` of some definition. */
  lemma EdgeIff(defs: seq<TaskDef>, e: Edge)
    ensures e in GraphOf(defs).edges <==>
            exists d :: d in defs &&
                        ((d.spawn == Some(e.to) && e.from == d.name && e.kind == Spawn)
                         || (d.needs.Some? && e.to == d.name
                             && e.from == NeedsParts(d.needs.value).0
                             && e.kind == EdgeKindOf(NeedsParts(d.needs.value).1)))
  {
    InConcatSorted(OwnEdges, defs, e);
  }

  /** The kind of edge each `needs` suffix draws, from the task that is waited for to the one that waits. */
  lemma NeedsEdgeKinds(def: TaskDef, source: string)
    ensures def.needs == Some(source + ":finished") ==> NeedsEdges(def) == [Edge(source, def.name, Needs)]
    ensures def.needs == Some(source + ":terminal") ==> NeedsEdges(def) == [Edge(source, def.name, Needs)]
    ensures def.needs == Some(source + ":succeeded") ==> NeedsEdges(def) == [Edge(source, def.name, NeedsSucceeded)]
    ensures def.needs == Some(source + ":failed") ==> NeedsEdges(def) == [Edge(source, def.name, NeedsFailed)]
    ensures def.needs == Some(source + ":all_finished") ==> NeedsEdges(def) == [Edge(source, def.name, Join)]
  {
    SuffixKinds(source);
  }

  /** A definition's spawn edge stands before its needs edge. */
  lemma SpawnBeforeNeeds(def: TaskDef, e: Edge)
    requires NeedsEdges(def) == [e]
    ensures def.spawn.Some? ==> OwnEdges(def) == [Edge(def.name, def.spawn.value, Spawn), e]
    ensures def.spawn.None? ==> OwnEdges(def) == [e]
  {
  }

  /** A name is external exactly when some definition refers to it and none carries it. */
  lemma ForeignIff(defs: seq<TaskDef>, name: string)
    ensures Ascending(Foreign(defs))
    ensures name in Foreign(defs) <==> (exists d :: d in defs && name in Refs(d)) && name !in Names(defs)
  {
    AddForeignKeeps([], Names(defs), Concat(Refs, SortByName(defs)));
    InConcatSorted(Refs, defs, name);
  }

  lemma {:induction false} CatalogNodeAt(sorted: seq<TaskDef>)
    ensures var nodes := Concat(CatalogNodes, sorted);
            |nodes| == |sorted|
            && forall i :: 0 <= i < |sorted| ==> nodes[i] == Node(sorted[i].name, sorted[i].schedule.Some?, false)
  {
    if sorted != [] { CatalogNodeAt(sorted[1..]); }
  }

  /** Nodes: one for each definition, in name order, then the external names in order. */
  lemma NodesAre(defs: seq<TaskDef>)
    ensures var nodes, sorted, foreign := GraphOf(defs).nodes, SortByName(defs), Foreign(defs);
            && |nodes| == |defs| + |foreign| && |sorted| == |defs|
            && (forall i :: 0 <= i < |defs| ==>
                  nodes[i] == Node(sorted[i].name, sorted[i].schedule.Some?, false))
            && (forall i :: 0 <= i < |foreign| ==> nodes[|defs| + i] == Node(foreign[i], false, true))
  {
    var sorted, foreign := SortByName(defs), Foreign(defs);
    SortIsStable(defs);
    CatalogNodeAt(sorted);
    JoinedAt(Concat(CatalogNodes, sorted), ExternalNodes(foreign));
  }

  lemma JoinedAt<T>(a: seq<T>, b: seq<T>)
    ensures |a + b| == |a| + |b|
    ensures forall i :: 0 <= i < |a| ==> (a + b)[i] == a[i]
    ensures forall i :: 0 <= i < |b| ==> (a + b)[|a| + i] == b[i]
  {
  }

  ghost predicate DistinctNames(defs: seq<TaskDef>) {
    forall i, j :: 0 <= i < j < |defs| ==> defs[i].name != defs[j].name
  }

  ghost predicate NodesDistinct(nodes: seq<Node>) {
    forall i, j :: 0 <= i < j < |nodes| ==> nodes[i].name != nodes[j].name
  }

  lemma NamedAt(defs: seq<TaskDef>, name: string)
    ensures name in Names(defs) <==> exists d :: d in defs && d.name == name
  {
  }

  lemma {:induction false} NamedIsEmpty(defs: seq<TaskDef>, name: string)
    ensures Named(defs, name) == [] <==> forall d :: d in defs ==> d.name != name
  {
    if defs != [] {
      NamedIsEmpty(defs[1..], name);
      assert forall d :: d in defs <==> d == defs[0] || d in defs[1..];
    }
  }

  lemma {:induction false} NamedOnce(defs: seq<TaskDef>, name: string)
    requires DistinctNames(defs)
    ensures |Named(defs, name)| <= 1
  {
    if defs != [] {
      NamedOnce(defs[1..], name);
      NamedIsEmpty(defs[1..], defs[0].name);
    }
  }

  lemma {:induction false} NamedTwice(defs: seq<TaskDef>, i: nat, j: nat)
    requires i < j < |defs| && defs[i].name == defs[j].name
    ensures |Named(defs, defs[i].name)| >= 2
  {
    if i == 0 {
      NamedIsEmpty(defs[1..], defs[0].name);
      assert defs[1..][j - 1] == defs[j];
    } else {
      NamedTwice(defs[1..], i - 1, j - 1);
    }
  }

  lemma SameNamedDistinct(xs: seq<TaskDef>, ys: seq<TaskDef>)
    requires DistinctNames(xs) && forall n :: Named(xs, n) == Named(ys, n)
    ensures DistinctNames(ys)
  {
    forall i, j | 0 <= i < j < |ys| ensures ys[i].name != ys[j].name {
      NamedOnce(xs, ys[i].name);
      if ys[i].name == ys[j].name { NamedTwice(ys, i, j); }
    }
  }

  lemma DistinctSorted(defs: seq<TaskDef>)
    ensures DistinctNames(SortByName(defs)) <==> DistinctNames(defs)
  {
    SortIsStable(defs);
    if DistinctNames(defs) { SameNamedDistinct(defs, SortByName(defs)); }
    if DistinctNames(SortByName(defs)) { SameNamedDistinct(SortByName(defs), defs); }
  }

  /** Node names are unique exactly when the definitions' names are. */
  lemma NodesDistinctIff(defs: seq<TaskDef>)
    ensures NodesDistinct(GraphOf(defs).nodes) <==> DistinctNames(defs)
  {
    var nodes, sorted, foreign := GraphOf(defs).nodes, SortByName(defs), Foreign(defs);
    NodesAre(defs);
    DistinctSorted(defs);
    if NodesDistinct(nodes) {
      forall i, j | 0 <= i < j < |sorted| ensures sorted[i].name != sorted[j].name {
        assert nodes[i].name != nodes[j].name;
      }
    }
    if DistinctNames(defs) {
      forall i, j | 0 <= i < j < |nodes| ensures nodes[i].name != nodes[j].name {
        if j >= |defs| {
          ForeignIff(defs, nodes[j].name);
          assert foreign[j - |defs|] in foreign;
          if i < |defs| {
            InSorted(defs, sorted[i]);
          } else {
            assert foreign[i - |defs|] != foreign[j - |defs|];
          }
        }
      }
    }
  }

  /** Every edge ends in nodes of the graph; with distinct names each end is one node only. */
  lemma EdgeEndsAreNodes(defs: seq<TaskDef>, e: Edge, name: string)
    requires e in GraphOf(defs).edges && name in {e.from, e.to}
    ensures exists i :: 0 <= i < |GraphOf(defs).nodes| && GraphOf(defs).nodes[i].name == name
    ensures DistinctNames(defs) ==> NodesDistinct(GraphOf(defs).nodes)
  {
    NodesDistinctIff(defs);
    EdgeIff(defs, e);
    var d :| d in defs && (d.name == name || name in Refs(d));
    NameIsNode(defs, d, name);
  }

  lemma NameIsNode(defs: seq<TaskDef>, d: TaskDef, name: string)
    requires d in defs && (d.name == name || name in Refs(d))
    ensures exists i :: 0 <= i < |GraphOf(defs).nodes| && GraphOf(defs).nodes[i].name == name
  {
    var nodes, sorted := GraphOf(defs).nodes, SortByName(defs);
    NodesAre(defs);
    if name in Names(defs) {
      NamedAt(defs, name);
      var owner :| owner in defs && owner.name == name;
      InSorted(defs, owner);
      var i :| 0 <= i < |sorted| && sorted[i] == owner;
      assert nodes[i].name == name;
    } else {
      NamedAt(defs, name);
      ForeignIff(defs, name);
      var i :| 0 <= i < |Foreign(defs)| && Foreign(defs)[i] == name;
      assert nodes[|defs| + i].name == name;
    }
  }
}
