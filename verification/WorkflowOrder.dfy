/**
 When the order of the catalog shows in its graph: exactly when two definitions
 of one name differ in what they draw.
 */
module WorkflowOrder {
  import opened Options
  import opened RepoRefs
  import opened WorkflowGraph

  // -------------------------------------------------------------------------
  // Blocks placed by name
  // -------------------------------------------------------------------------

  /** Put `block`, owned by `name`, in front of the first item of a name that is not smaller. */
  function Place<T>(tag: T -> string, name: string, block: seq<T>, xs: seq<T>): seq<T> {
    if xs == [] || Le(name, tag(xs[0])) then block + xs else [xs[0]] + Place(tag, name, block, xs[1..])
  }

  ghost predicate Owned<T>(tag: T -> string, name: string, block: seq<T>) {
    forall x :: x in block ==> tag(x) == name
  }

  ghost predicate Owns<T>(tag: T -> string, f: TaskDef -> seq<T>) {
    forall d: TaskDef :: Owned(tag, d.name, f(d))
  }

  lemma {:induction false} PlaceSkips<T>(tag: T -> string, name: string, block: seq<T>, before: seq<T>, xs: seq<T>)
    requires forall x :: x in before ==> !Le(name, tag(x))
    ensures Place(tag, name, block, before + xs) == before + Place(tag, name, block, xs)
  {
    if before == [] {
      assert before + xs == xs;
    } else {
      assert (before + xs)[1..] == before[1..] + xs;
      PlaceSkips(tag, name, block, before[1..], xs);
    }
  }

  lemma PlaceStops<T>(tag: T -> string, name: string, block: seq<T>, owner: string, own: seq<T>, xs: seq<T>)
    requires Le(name, owner) && Owned(tag, owner, own) && (xs == [] || Le(name, tag(xs[0])))
    ensures Place(tag, name, block, own + xs) == block + (own + xs)
  {
    if own == [] { assert own + xs == xs; }
  }

  lemma {:induction false} PlaceTwice<T>(tag: T -> string, name: string, a: seq<T>, b: seq<T>, xs: seq<T>)
    requires Owned(tag, name, b)
    ensures Place(tag, name, a, Place(tag, name, b, xs)) == Place(tag, name, a + b, xs)
  {
    if xs == [] || Le(name, tag(xs[0])) {
      LeTotal(name, name);
      PlaceStops(tag, name, a, name, b, xs);
      assert a + (b + xs) == (a + b) + xs;
    } else {
      PlaceTwice(tag, name, a, b, xs[1..]);
    }
  }

  lemma {:induction false} PlaceInjective<T>(tag: T -> string, name: string, u: seq<T>, v: seq<T>, xs: seq<T>)
    requires |u| == |v| && Place(tag, name, u, xs) == Place(tag, name, v, xs)
    ensures u == v
  {
    if xs == [] || Le(name, tag(xs[0])) {
      assert u == (u + xs)[..|u|] && v == (v + xs)[..|v|];
    } else {
      var p, q := Place(tag, name, u, xs[1..]), Place(tag, name, v, xs[1..]);
      assert p == ([xs[0]] + p)[1..] && q == ([xs[0]] + q)[1..];
      PlaceInjective(tag, name, u, v, xs[1..]);
    }
  }

  lemma {:induction false} PlaceSmallerFirst<T>(
    tag: T -> string, n: string, a: seq<T>, m: string, b: seq<T>, xs: seq<T>)
    requires n != m && Le(n, m) && Owned(tag, n, a) && Owned(tag, m, b)
    ensures Place(tag, n, a, Place(tag, m, b, xs)) == Place(tag, m, b, Place(tag, n, a, xs))
  {
    LeTotal(n, m);
    assert forall x :: x in a ==> !Le(m, tag(x));
    if xs == [] || Le(n, tag(xs[0])) {
      PlaceSkips(tag, m, b, a, xs);
      if xs == [] || Le(m, tag(xs[0])) {
        if xs != [] { LeTransitive(n, m, tag(xs[0])); }
        PlaceStops(tag, n, a, m, b, xs);
      }
    } else {
      if Le(m, tag(xs[0])) { LeTransitive(n, m, tag(xs[0])); }
      PlaceSmallerFirst(tag, n, a, m, b, xs[1..]);
    }
  }

  lemma PlaceSwap<T>(tag: T -> string, n: string, a: seq<T>, m: string, b: seq<T>, xs: seq<T>)
    requires Owned(tag, n, a) && Owned(tag, m, b) && (n == m ==> a + b == b + a)
    ensures Place(tag, n, a, Place(tag, m, b, xs)) == Place(tag, m, b, Place(tag, n, a, xs))
  {
    if n == m {
      PlaceTwice(tag, n, a, b, xs);
      PlaceTwice(tag, n, b, a, xs);
    } else {
      LeTotal(n, m);
      if Le(n, m) { PlaceSmallerFirst(tag, n, a, m, b, xs); } else { PlaceSmallerFirst(tag, m, b, n, a, xs); }
    }
  }

  // -------------------------------------------------------------------------
  // Lists drawn from the sorted catalog
  // -------------------------------------------------------------------------

  function Drawn<T>(f: TaskDef -> seq<T>, defs: seq<TaskDef>): seq<T> { Concat(f, SortByName(defs)) }

  lemma {:induction false} InsertPlaces<T>(tag: T -> string, f: TaskDef -> seq<T>, def: TaskDef, defs: seq<TaskDef>)
    requires Owns(tag, f) && Ordered(defs)
    ensures Concat(f, Insert(def, defs)) == Place(tag, def.name, f(def), Concat(f, defs))
  {
    if defs == [] {
    } else if Le(def.name, defs[0].name) {
      var all := Concat(f, defs);
      assert ([def] + defs)[1..] == defs;
      if all != [] {
        InConcat(f, defs, all[0]);
        var d :| d in defs && all[0] in f(d);
        assert Owned(tag, d.name, f(d));
        var i :| 0 <= i < |defs| && defs[i] == d;
        LeTotal(d.name, d.name);
        assert i > 0 ==> Le(defs[0].name, defs[i].name);
        LeTransitive(def.name, defs[0].name, d.name);
      }
    } else {
      InsertPlaces(tag, f, def, defs[1..]);
      assert Owned(tag, defs[0].name, f(defs[0]));
      PlaceSkips(tag, def.name, f(def), f(defs[0]), Concat(f, defs[1..]));
    }
  }

  lemma DrawnHead<T>(tag: T -> string, f: TaskDef -> seq<T>, def: TaskDef, defs: seq<TaskDef>)
    requires Owns(tag, f)
    ensures Drawn(f, [def] + defs) == Place(tag, def.name, f(def), Drawn(f, defs))
  {
    assert ([def] + defs)[1..] == defs;
    SortIsStable(defs);
    InsertPlaces(tag, f, def, SortByName(defs));
  }

  predicate Commute<T(==)>(f: TaskDef -> seq<T>, d: TaskDef, e: TaskDef) {
    d.name == e.name ==> f(d) + f(e) == f(e) + f(d)
  }

  lemma {:induction false} MoveToFront<T>(
    tag: T -> string, f: TaskDef -> seq<T>, before: seq<TaskDef>, d: TaskDef, after: seq<TaskDef>)
    requires Owns(tag, f) && forall e :: e in before ==> Commute(f, d, e)
    ensures Drawn(f, before + ([d] + after)) == Drawn(f, [d] + (before + after))
  {
    if before == [] {
      assert before + ([d] + after) == [d] + after && before + after == after;
    } else {
      var b, rest := before[0], before[1..];
      MoveToFront(tag, f, rest, d, after);
      assert before + ([d] + after) == [b] + (rest + ([d] + after)) && before + after == [b] + (rest + after);
      DrawnHead(tag, f, b, rest + ([d] + after));
      DrawnHead(tag, f, d, rest + after);
      DrawnHead(tag, f, d, [b] + (rest + after));
      DrawnHead(tag, f, b, rest + after);
      assert Commute(f, d, b) && Owned(tag, d.name, f(d)) && Owned(tag, b.name, f(b));
      PlaceSwap(tag, b.name, f(b), d.name, f(d), Drawn(f, rest + after));
    }
  }

  lemma SplitAt(xs: seq<TaskDef>, d: TaskDef) returns (before: seq<TaskDef>, after: seq<TaskDef>)
    requires d in xs
    ensures xs == before + ([d] + after)
    ensures multiset(xs) == multiset{d} + multiset(before + after)
  {
    var k :| 0 <= k < |xs| && xs[k] == d;
    before, after := xs[..k], xs[k + 1..];
    assert xs == before + ([d] + after);
    assert multiset(before + ([d] + after)) == multiset(before) + (multiset{d} + multiset(after));
  }

  lemma TakeHead(xs: seq<TaskDef>, ys: seq<TaskDef>) returns (before: seq<TaskDef>, after: seq<TaskDef>)
    requires xs != [] && multiset(xs) == multiset(ys)
    ensures ys == before + ([xs[0]] + after) && multiset(xs[1..]) == multiset(before + after)
    ensures forall e :: e in before ==> e in xs
  {
    assert xs[0] in multiset(xs);
    assert xs[0] in ys;
    before, after := SplitAt(ys, xs[0]);
    HeadOff(xs);
    CancelOne(multiset(xs[1..]), multiset(before + after), xs[0]);
    forall e | e in before ensures e in xs { assert e in multiset(ys); }
  }

  lemma HeadOff(xs: seq<TaskDef>)
    requires xs != []
    ensures multiset(xs) == multiset{xs[0]} + multiset(xs[1..])
  {
    assert xs == [xs[0]] + xs[1..];
  }

  lemma CancelOne(a: multiset<TaskDef>, b: multiset<TaskDef>, d: TaskDef)
    requires multiset{d} + a == multiset{d} + b
    ensures a == b
  {
    assert a == multiset{d} + a - multiset{d};
    assert b == multiset{d} + b - multiset{d};
  }

  lemma {:induction false} DrawnPermuted<T>(tag: T -> string, f: TaskDef -> seq<T>, xs: seq<TaskDef>, ys: seq<TaskDef>)
    requires Owns(tag, f) && multiset(xs) == multiset(ys)
    requires forall d, e :: d in xs && e in xs ==> Commute(f, d, e)
    ensures Drawn(f, xs) == Drawn(f, ys)
  {
    if xs == [] {
      assert |multiset(ys)| == 0;
    } else {
      var d, rest := xs[0], xs[1..];
      var before, after := TakeHead(xs, ys);
      DrawnPermuted(tag, f, rest, before + after);
      MoveToFront(tag, f, before, d, after);
      DrawnHead(tag, f, d, rest);
      DrawnHead(tag, f, d, before + after);
      assert xs == [d] + rest;
    }
  }

  lemma SwapShows<T>(tag: T -> string, f: TaskDef -> seq<T>, d: TaskDef, e: TaskDef, rest: seq<TaskDef>)
    requires Owns(tag, f) && Drawn(f, [d] + ([e] + rest)) == Drawn(f, [e] + ([d] + rest))
    ensures Commute(f, d, e)
  {
    if d.name == e.name {
      var all := Drawn(f, rest);
      DrawnHead(tag, f, d, [e] + rest);
      DrawnHead(tag, f, e, rest);
      DrawnHead(tag, f, e, [d] + rest);
      DrawnHead(tag, f, d, rest);
      assert Owned(tag, d.name, f(d)) && Owned(tag, e.name, f(e));
      PlaceTwice(tag, d.name, f(d), f(e), all);
      PlaceTwice(tag, d.name, f(e), f(d), all);
      PlaceInjective(tag, d.name, f(d) + f(e), f(e) + f(d), all);
    }
  }

  // -------------------------------------------------------------------------
  // The graph
  // -------------------------------------------------------------------------

  function NodeTag(node: Node): string { node.name }

  function EdgeTag(edge: Edge): string { if edge.kind == Spawn then edge.from else edge.to }

  lemma DrawnTagged()
    ensures Owns(NodeTag, CatalogNodes) && Owns(EdgeTag, OwnEdges)
  {
    forall d: TaskDef ensures Owned(NodeTag, d.name, CatalogNodes(d)) && Owned(EdgeTag, d.name, OwnEdges(d)) {
    }
  }

  lemma HeadIsIn<T>(s: seq<T>)
    ensures s != [] ==> s[0] in s
  {
  }

  lemma {:induction false} AscendingUnique(a: seq<string>, b: seq<string>)
    requires Ascending(a) && Ascending(b) && forall n :: n in a <==> n in b
    ensures a == b
  {
    HeadIsIn(a);
    HeadIsIn(b);
    if a != [] && b != [] {
      var i :| 0 <= i < |b| && b[i] == a[0];
      var j :| 0 <= j < |a| && a[j] == b[0];
      LeTotal(a[0], b[0]);
      assert a[0] == b[0];
      forall n ensures n in a[1..] <==> n in b[1..] {
        assert n in a <==> n == a[0] || n in a[1..];
        assert n in b <==> n == b[0] || n in b[1..];
      }
      AscendingUnique(a[1..], b[1..]);
    }
  }

  lemma ForeignPermuted(xs: seq<TaskDef>, ys: seq<TaskDef>)
    requires multiset(xs) == multiset(ys)
    ensures Foreign(xs) == Foreign(ys)
  {
    forall d ensures d in xs <==> d in ys { assert d in multiset(xs) <==> d in multiset(ys); }
    forall n ensures n in Foreign(xs) <==> n in Foreign(ys) {
      NamedAt(xs, n);
      NamedAt(ys, n);
      ForeignIff(xs, n);
      ForeignIff(ys, n);
    }
    ForeignIff(xs, "");
    ForeignIff(ys, "");
    AscendingUnique(Foreign(xs), Foreign(ys));
  }

  /** Two definitions of one name draw alike: same mark, and equal edges unless one draws none. */
  predicate Interchangeable(d: TaskDef, e: TaskDef) {
    d.name == e.name ==>
      && d.schedule.Some? == e.schedule.Some?
      && (OwnEdges(d) == OwnEdges(e) || OwnEdges(d) == [] || OwnEdges(e) == [])
  }

  lemma InterchangeableIff(d: TaskDef, e: TaskDef)
    ensures Interchangeable(d, e) <==> Commute(CatalogNodes, d, e) && Commute(OwnEdges, d, e)
  {
    if d.name == e.name {
      var a, b := OwnEdges(d), OwnEdges(e);
      assert CatalogNodes(d) + CatalogNodes(e) == CatalogNodes(e) + CatalogNodes(d) <==>
             CatalogNodes(d)[0] == CatalogNodes(e)[0] by {
        assert (CatalogNodes(d) + CatalogNodes(e))[0] == CatalogNodes(d)[0];
        assert (CatalogNodes(e) + CatalogNodes(d))[0] == CatalogNodes(e)[0];
      }
      if a == [] || b == [] { assert a + b == b + a; }
      if a + b == b + a && a != [] && b != [] {
        EdgesCommute(d, e);
      }
    }
  }

  lemma EdgesCommute(d: TaskDef, e: TaskDef)
    requires OwnEdges(d) != [] && OwnEdges(e) != [] && OwnEdges(d) + OwnEdges(e) == OwnEdges(e) + OwnEdges(d)
    ensures OwnEdges(d) == OwnEdges(e)
  {
    var a, b := OwnEdges(d), OwnEdges(e);
    assert forall i :: 0 <= i < |a| + |b| ==> (a + b)[i] == (b + a)[i];
    assert (a + b)[0] == a[0] && (b + a)[0] == b[0];
    assert (a + b)[|a| + |b| - 1] == b[|b| - 1] && (b + a)[|a| + |b| - 1] == a[|a| - 1];
    assert a[|a| - 1].kind == b[|b| - 1].kind;
  }

  lemma OrderIrrelevant(xs: seq<TaskDef>, ys: seq<TaskDef>)
    requires multiset(xs) == multiset(ys)
    requires forall d, e :: d in xs && e in xs ==> Interchangeable(d, e)
    ensures GraphOf(xs) == GraphOf(ys)
  {
    forall d, e | d in xs && e in xs ensures Commute(CatalogNodes, d, e) && Commute(OwnEdges, d, e) {
      InterchangeableIff(d, e);
    }
    DrawnTagged();
    DrawnPermuted(NodeTag, CatalogNodes, xs, ys);
    DrawnPermuted(EdgeTag, OwnEdges, xs, ys);
    ForeignPermuted(xs, ys);
  }

  lemma SameGraphDrawsSame(xs: seq<TaskDef>, ys: seq<TaskDef>)
    requires |xs| == |ys| && GraphOf(xs) == GraphOf(ys)
    ensures Drawn(CatalogNodes, xs) == Drawn(CatalogNodes, ys) && Drawn(OwnEdges, xs) == Drawn(OwnEdges, ys)
  {
    SortIsStable(xs);
    SortIsStable(ys);
    CatalogNodeAt(SortByName(xs));
    CatalogNodeAt(SortByName(ys));
    assert Drawn(CatalogNodes, xs) == GraphOf(xs).nodes[..|xs|];
    assert Drawn(CatalogNodes, ys) == GraphOf(ys).nodes[..|ys|];
  }

  lemma SwapUnseen(d: TaskDef, e: TaskDef, rest: seq<TaskDef>)
    requires GraphOf([d] + ([e] + rest)) == GraphOf([e] + ([d] + rest))
    ensures Interchangeable(d, e)
  {
    SameGraphDrawsSame([d] + ([e] + rest), [e] + ([d] + rest));
    DrawnTagged();
    SwapShows(NodeTag, CatalogNodes, d, e, rest);
    SwapShows(EdgeTag, OwnEdges, d, e, rest);
    InterchangeableIff(d, e);
  }

  lemma PairInFront(xs: seq<TaskDef>, d: TaskDef, e: TaskDef) returns (rest: seq<TaskDef>)
    requires d in xs && e in xs && d != e
    ensures multiset([d] + ([e] + rest)) == multiset(xs) == multiset([e] + ([d] + rest))
  {
    var before, after := SplitAt(xs, d);
    assert e in multiset(xs);
    assert e in multiset(before + after);
    var left, right := SplitAt(before + after, e);
    rest := left + right;
    assert multiset([d] + ([e] + rest)) == multiset{d} + (multiset{e} + multiset(rest));
    assert multiset([e] + ([d] + rest)) == multiset{e} + (multiset{d} + multiset(rest));
  }

  /** No rearrangement of the catalog changes its graph. */
  ghost predicate Unordered(xs: seq<TaskDef>) {
    forall ys :: multiset(ys) == multiset(xs) ==> GraphOf(ys) == GraphOf(xs)
  }

  lemma SameGraph(xs: seq<TaskDef>, ys: seq<TaskDef>)
    requires Unordered(xs) && multiset(ys) == multiset(xs)
    ensures GraphOf(ys) == GraphOf(xs)
  {
  }

  lemma UnorderedAlike(xs: seq<TaskDef>, d: TaskDef, e: TaskDef)
    requires Unordered(xs) && d in xs && e in xs
    ensures Interchangeable(d, e)
  {
    if d != e {
      var rest := PairInFront(xs, d, e);
      SameGraph(xs, [d] + ([e] + rest));
      SameGraph(xs, [e] + ([d] + rest));
      SwapUnseen(d, e, rest);
    }
  }

  /** The catalog's order never shows, if and only if same-named definitions draw alike. */
  lemma OrderIrrelevantIff(xs: seq<TaskDef>)
    ensures Unordered(xs) <==> forall d, e :: d in xs && e in xs ==> Interchangeable(d, e)
  {
    if forall d, e :: d in xs && e in xs ==> Interchangeable(d, e) {
      forall ys | multiset(ys) == multiset(xs) ensures GraphOf(ys) == GraphOf(xs) { OrderIrrelevant(xs, ys); }
    }
    if Unordered(xs) {
      forall d, e | d in xs && e in xs ensures Interchangeable(d, e) { UnorderedAlike(xs, d, e); }
    }
  }

  /** The catalogs that are loaded have distinct names: their graph has no order. */
  lemma DistinctIsUnordered(xs: seq<TaskDef>)
    requires DistinctNames(xs)
    ensures Unordered(xs)
  {
    forall d, e | d in xs && e in xs ensures Interchangeable(d, e) {
      var i :| 0 <= i < |xs| && xs[i] == d;
      var j :| 0 <= j < |xs| && xs[j] == e;
      assert i < j || i == j || j < i;
    }
    OrderIrrelevantIff(xs);
  }

  /** Two definitions of one name, only one of them scheduled. */
  lemma DuplicateNameShows()
    ensures !Unordered([TaskDef("a", Some("0 0 8 * * *"), None, None), TaskDef("a", None, None, None)])
  {
    var a, b := TaskDef("a", Some("0 0 8 * * *"), None, None), TaskDef("a", None, None, None);
    assert !Interchangeable(a, b);
    if Unordered([a, b]) { UnorderedAlike([a, b], a, b); }
  }
}
