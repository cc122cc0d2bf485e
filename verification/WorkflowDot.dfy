/**
 The graph as DOT text: escaping, the rendering loop, and that the text
 determines the graph.
 */
module WorkflowDot {
  import opened RepoRefs
  import opened WorkflowGraph
  import opened WorkflowOrder

  // -------------------------------------------------------------------------
  // Escaping
  // -------------------------------------------------------------------------

  function Replace(s: string, c: char, with: string): string {
    if s == "" then "" else (if s[0] == c then with else [s[0]]) + Replace(s[1..], c, with)
  }

  /** Backslashes first, then quotes. */
  function DotEscape(s: string): string {
    Replace(Replace(s, '\\', "\\\\"), '"', "\\\"")
  }

  function EscapeChar(c: char): string { if c == '\\' || c == '"' then ['\\', c] else [c] }

  /** One pass: a backslash in front of each backslash and each quote. */
  function Escape(s: string): string {
    if s == "" then "" else EscapeChar(s[0]) + Escape(s[1..])
  }

  /** Drop each backslash and keep the character behind it. */
  function Unescape(s: string): string {
    if |s| >= 2 && s[0] == '\\' then [s[1]] + Unescape(s[2..])
    else if s == "" then "" else [s[0]] + Unescape(s[1..])
  }

  lemma {:induction false} ReplaceAppend(s: string, t: string, c: char, with: string)
    ensures Replace(s + t, c, with) == Replace(s, c, with) + Replace(t, c, with)
  {
    if s == "" {
      assert s + t == t;
    } else {
      assert (s + t)[1..] == s[1..] + t;
      ReplaceAppend(s[1..], t, c, with);
    }
  }

  /** The two replacement passes are one pass: the second leaves the first's backslashes alone. */
  lemma {:induction false} DotEscapeIsOnePass(s: string)
    ensures DotEscape(s) == Escape(s)
  {
    if s != "" {
      var first := if s[0] == '\\' then "\\\\" else [s[0]];
      ReplaceAppend(first, Replace(s[1..], '\\', "\\\\"), '"', "\\\"");
      DotEscapeIsOnePass(s[1..]);
      assert Replace(first, '"', "\\\"") == EscapeChar(s[0]) by {
        if s[0] == '\\' {
          assert "\\\\"[1..] == "\\" && "\\"[1..] == "";
        } else {
          assert [s[0]][1..] == "";
        }
      }
    }
  }

  lemma {:induction false} UnescapeEscape(s: string)
    ensures Unescape(DotEscape(s)) == s
  {
    DotEscapeIsOnePass(s);
    if s != "" {
      UnescapeEscape(s[1..]);
      DotEscapeIsOnePass(s[1..]);
      var e := EscapeChar(s[0]);
      assert Escape(s)[|e|..] == Escape(s[1..]);
      assert s == [s[0]] + s[1..];
    }
  }

  /** Distinct names get distinct ids. */
  lemma DotEscapeInjective(a: string, b: string)
    ensures DotEscape(a) == DotEscape(b) <==> a == b
  {
    UnescapeEscape(a);
    UnescapeEscape(b);
  }

  // -------------------------------------------------------------------------
  // Rendering
  // -------------------------------------------------------------------------

  const HEADER: string := "digraph workflow {\n  rankdir=LR;\n  node [shape=box, style=rounded];\n"

  function NodeTail(node: Node): string {
    if node.external then " (external)\", style=\"rounded,dashed\"];\n"
    else if node.scheduled then "\", peripheries=2];\n"
    else "\"];\n"
  }

  function EdgeTail(kind: EdgeKind): string {
    match kind
    case Spawn => "spawn\"];\n"
    case Needs => "needs\", style=dashed];\n"
    case NeedsSucceeded => "needs:succeeded\", style=dashed];\n"
    case NeedsFailed => "needs:failed\", style=dashed];\n"
    case Join => "join\", style=dashed];\n"
  }

  datatype Item = NodeItem(node: Node) | EdgeItem(edge: Edge)

  function FirstName(item: Item): string {
    match item
    case NodeItem(node) => node.name
    case EdgeItem(edge) => edge.from
  }

  function BehindFirstName(item: Item): string {
    match item
    case NodeItem(node) => " [label=\"" + (DotEscape(node.name) + NodeTail(node))
    case EdgeItem(edge) => " -> \"" + (DotEscape(edge.to) + ("\"" + (" [label=\"" + EdgeTail(edge.kind))))
  }

  function ItemText(item: Item): string {
    "  \"" + (DotEscape(FirstName(item)) + ("\"" + BehindFirstName(item)))
  }

  lemma FlatNode(margin: string, id: string, quote: string, mid: string, tail: string)
    ensures margin + (id + (quote + (mid + (id + tail)))) == margin + id + (quote + mid) + id + tail
  {
  }

  lemma FlatEdge(margin: string, from: string, quote: string, arrow: string, to: string, mid: string, tail: string)
    ensures margin + (from + (quote + (arrow + (to + (quote + (mid + tail))))))
            == margin + from + (quote + arrow) + to + (quote + mid + tail)
  {
  }

  lemma NodeLineIs(node: Node)
    ensures var id := DotEscape(node.name);
            ItemText(NodeItem(node)) == "  \"" + id + "\" [label=\"" + id + NodeTail(node)
  {
    FlatNode("  \"", DotEscape(node.name), "\"", " [label=\"", NodeTail(node));
    assert "\"" + " [label=\"" == "\" [label=\"";
  }

  lemma EdgeLineIs(edge: Edge)
    ensures ItemText(EdgeItem(edge)) ==
              "  \"" + DotEscape(edge.from) + "\" -> \"" + DotEscape(edge.to)
              + ("\" [label=\"" + EdgeTail(edge.kind))
  {
    FlatEdge("  \"", DotEscape(edge.from), "\"", " -> \"", DotEscape(edge.to), " [label=\"", EdgeTail(edge.kind));
    assert "\"" + " -> \"" == "\" -> \"";
    assert "\"" + " [label=\"" == "\" [label=\"";
  }

  /** The lines as the graph format spells them, for an escaped name or two. */
  lemma LinesAre(node: Node, edge: Edge)
    ensures var id := DotEscape(node.name);
            ItemText(NodeItem(node)) ==
              if node.external then "  \"" + id + "\" [label=\"" + id + " (external)\", style=\"rounded,dashed\"];\n"
              else if node.scheduled then "  \"" + id + "\" [label=\"" + id + "\", peripheries=2];\n"
              else "  \"" + id + "\" [label=\"" + id + "\"];\n"
    ensures var ends := "  \"" + DotEscape(edge.from) + "\" -> \"" + DotEscape(edge.to);
            ItemText(EdgeItem(edge)) == ends + ("\" [label=\"" +
              match edge.kind
              case Spawn => "spawn\"];\n"
              case Needs => "needs\", style=dashed];\n"
              case NeedsSucceeded => "needs:succeeded\", style=dashed];\n"
              case NeedsFailed => "needs:failed\", style=dashed];\n"
              case Join => "join\", style=dashed];\n")
  {
    NodeLineIs(node);
    EdgeLineIs(edge);
  }

  function Lines(text: Item -> string, items: seq<Item>): string {
    if items == [] then "" else text(items[0]) + Lines(text, items[1..])
  }

  function ItemsText(items: seq<Item>): string { Lines(ItemText, items) }

  function NodeItems(nodes: seq<Node>): seq<Item> {
    seq(|nodes|, i requires 0 <= i < |nodes| => NodeItem(nodes[i]))
  }

  function EdgeItems(edges: seq<Edge>): seq<Item> {
    seq(|edges|, i requires 0 <= i < |edges| => EdgeItem(edges[i]))
  }

  function DotText(graph: Graph): string {
    HEADER + (ItemsText(NodeItems(graph.nodes) + EdgeItems(graph.edges)) + "}\n")
  }

  lemma {:induction false} LinesAppend(text: Item -> string, xs: seq<Item>, ys: seq<Item>)
    ensures Lines(text, xs + ys) == Lines(text, xs) + Lines(text, ys)
  {
    if xs == [] {
      assert xs + ys == ys;
    } else {
      assert (xs + ys)[1..] == xs[1..] + ys;
      LinesAppend(text, xs[1..], ys);
    }
  }

  lemma OneMoreLine(text: Item -> string, items: seq<Item>, i: nat)
    requires i < |items|
    ensures Lines(text, items[..i + 1]) == Lines(text, items[..i]) + text(items[i])
  {
    assert items[..i + 1] == items[..i] + [items[i]];
    LinesAppend(text, items[..i], [items[i]]);
    assert [items[i]][1..] == [];
  }

  method NodeLine(node: Node) returns (line: string)
    ensures line == ItemText(NodeItem(node))
  {
    var id := DotEscape(node.name);
    if node.external {
      line := "  \"" + (id + ("\"" + (" [label=\"" + (id + " (external)\", style=\"rounded,dashed\"];\n"))));
    } else if node.scheduled {
      line := "  \"" + (id + ("\"" + (" [label=\"" + (id + "\", peripheries=2];\n"))));
    } else {
      line := "  \"" + (id + ("\"" + (" [label=\"" + (id + "\"];\n"))));
    }
  }

  method EdgeLine(edge: Edge) returns (line: string)
    ensures line == ItemText(EdgeItem(edge))
  {
    var ending: string;
    match edge.kind {
      case Spawn => ending := "spawn\"];\n";
      case Needs => ending := "needs\", style=dashed];\n";
      case NeedsSucceeded => ending := "needs:succeeded\", style=dashed];\n";
      case NeedsFailed => ending := "needs:failed\", style=dashed];\n";
      case Join => ending := "join\", style=dashed];\n";
    }
    line := "  \"" + (DotEscape(edge.from)
                      + ("\"" + (" -> \"" + (DotEscape(edge.to) + ("\"" + (" [label=\"" + ending))))));
  }

  method NodeLines(nodes: seq<Node>) returns (text: string)
    ensures text == ItemsText(NodeItems(nodes))
  {
    ghost var items := NodeItems(nodes);
    text := "";
    for i := 0 to |nodes|
      invariant text == ItemsText(items[..i])
    {
      var line := NodeLine(nodes[i]);
      text := text + line;
      OneMoreLine(ItemText, items, i);
    }
    assert items[..|items|] == items;
  }

  method EdgeLines(edges: seq<Edge>) returns (text: string)
    ensures text == ItemsText(EdgeItems(edges))
  {
    ghost var items := EdgeItems(edges);
    text := "";
    for i := 0 to |edges|
      invariant text == ItemsText(items[..i])
    {
      var line := EdgeLine(edges[i]);
      text := text + line;
      OneMoreLine(ItemText, items, i);
    }
    assert items[..|items|] == items;
  }

  method BuildDot(defs: seq<TaskDef>) returns (text: string)
    ensures text == DotText(GraphOf(defs))
  {
    var graph := BuildGraph(defs);
    var nodes := NodeLines(graph.nodes);
    var edges := EdgeLines(graph.edges);
    LinesAppend(ItemText, NodeItems(graph.nodes), EdgeItems(graph.edges));
    text := HEADER + (nodes + edges + "}\n");
  }

  // -------------------------------------------------------------------------
  // The text determines the graph
  // -------------------------------------------------------------------------

  lemma Cancel(p: string, x: string, y: string)
    requires p + x == p + y
    ensures x == y
  {
    assert x == (p + x)[|p|..];
    assert y == (p + y)[|p|..];
  }

  /** Texts that differ at one place within both stay different whatever follows. */
  lemma Apart(p: string, q: string, k: nat, x: string, y: string)
    requires k < |p| && k < |q| && p[k] != q[k]
    ensures p + x != q + y
  {
    assert (p + x)[k] == p[k];
    assert (q + y)[k] == q[k];
  }

  lemma EscapeCharDelimits(a: char, b: char, x: string, y: string)
    requires EscapeChar(a) + x == EscapeChar(b) + y
    ensures a == b && x == y
  {
    var l, r := EscapeChar(a) + x, EscapeChar(b) + y;
    assert l[0] == EscapeChar(a)[0] && r[0] == EscapeChar(b)[0];
    if |EscapeChar(a)| == 2 && |EscapeChar(b)| == 2 {
      assert l[1] == a && r[1] == b;
    }
    Cancel(EscapeChar(a), x, y);
  }

  lemma QuoteEnds(c: char, x: string, y: string)
    ensures EscapeChar(c) + x != "\"" + y
  {
    assert (EscapeChar(c) + x)[0] == EscapeChar(c)[0];
    assert ("\"" + y)[0] == '"';
  }

  /** An escaped name ends at the first quote behind it, and nowhere else. */
  lemma {:induction false} EscapeDelimits(a: string, b: string, x: string, y: string)
    requires Escape(a) + ("\"" + x) == Escape(b) + ("\"" + y)
    ensures a == b && x == y
  {
    if a == "" && b == "" {
      assert Escape(a) + ("\"" + x) == "\"" + x && Escape(b) + ("\"" + y) == "\"" + y;
      Cancel("\"", x, y);
    } else if a == "" {
      EscapeGoesOn(b, y, x);
    } else if b == "" {
      EscapeGoesOn(a, x, y);
    } else {
      EscapeHead(a, "\"" + x);
      EscapeHead(b, "\"" + y);
      EscapeCharDelimits(a[0], b[0], Escape(a[1..]) + ("\"" + x), Escape(b[1..]) + ("\"" + y));
      EscapeDelimits(a[1..], b[1..], x, y);
      assert a == [a[0]] + a[1..] && b == [b[0]] + b[1..];
    }
  }

  lemma EscapeHead(s: string, x: string)
    requires s != ""
    ensures Escape(s) + x == EscapeChar(s[0]) + (Escape(s[1..]) + x)
  {
  }

  lemma EscapeGoesOn(s: string, x: string, y: string)
    requires s != ""
    ensures Escape(s) + ("\"" + x) != "" + ("\"" + y)
  {
    EscapeHead(s, "\"" + x);
    QuoteEnds(s[0], Escape(s[1..]) + ("\"" + x), y);
    assert "" + ("\"" + y) == "\"" + y;
  }

  lemma NodeTailDelimits(n: Node, m: Node, x: string, y: string)
    requires NodeTail(n) + x == NodeTail(m) + y
    ensures n.external == m.external && (!n.external ==> n.scheduled == m.scheduled) && x == y
  {
    var p, q := NodeTail(n), NodeTail(m);
    if p == q {
      Cancel(p, x, y);
    } else if n.external != m.external {
      Apart(p, q, 0, x, y);
    } else {
      Apart(p, q, 1, x, y);
    }
  }

  lemma EdgeTailDelimits(k: EdgeKind, l: EdgeKind, x: string, y: string)
    requires EdgeTail(k) + x == EdgeTail(l) + y
    ensures k == l && x == y
  {
    var p, q := EdgeTail(k), EdgeTail(l);
    if k == l {
      Cancel(p, x, y);
    } else if p[0] != q[0] {
      Apart(p, q, 0, x, y);
    } else if p[5] != q[5] {
      Apart(p, q, 5, x, y);
    } else {
      Apart(p, q, 6, x, y);
    }
  }

  /** What a line does not show: whether an external node is scheduled. */
  predicate Plain(item: Item) {
    item.NodeItem? && item.node.external ==> !item.node.scheduled
  }

  lemma NameDelimits(head: string, a: string, b: string, x: string, y: string)
    requires head + (DotEscape(a) + ("\"" + x)) == head + (DotEscape(b) + ("\"" + y))
    ensures a == b && x == y
  {
    Cancel(head, DotEscape(a) + ("\"" + x), DotEscape(b) + ("\"" + y));
    DotEscapeIsOnePass(a);
    DotEscapeIsOnePass(b);
    EscapeDelimits(a, b, x, y);
  }

  lemma ToTheRight(p: string, q: string, r: string, x: string)
    ensures (p + (q + r)) + x == p + (q + (r + x))
  {
  }

  lemma NodeDelimits(n: Node, m: Node, x: string, y: string)
    requires n.name == m.name && BehindFirstName(NodeItem(n)) + x == BehindFirstName(NodeItem(m)) + y
    ensures n.external == m.external && (!n.external ==> n.scheduled == m.scheduled) && x == y
  {
    var head, id := " [label=\"", DotEscape(n.name);
    ToTheRight(head, id, NodeTail(n), x);
    ToTheRight(head, id, NodeTail(m), y);
    Cancel(head, id + (NodeTail(n) + x), id + (NodeTail(m) + y));
    Cancel(id, NodeTail(n) + x, NodeTail(m) + y);
    NodeTailDelimits(n, m, x, y);
  }

  lemma EdgeDelimits(d: Edge, e: Edge, x: string, y: string)
    requires d.from == e.from && BehindFirstName(EdgeItem(d)) + x == BehindFirstName(EdgeItem(e)) + y
    ensures d == e && x == y
  {
    var arrow, quote, head := " -> \"", "\"", " [label=\"";
    var p, q := head + EdgeTail(d.kind), head + EdgeTail(e.kind);
    ToTheRight(arrow, DotEscape(d.to), quote + p, x);
    ToTheRight(arrow, DotEscape(e.to), quote + q, y);
    ToTheRight(quote, head, EdgeTail(d.kind), x);
    ToTheRight(quote, head, EdgeTail(e.kind), y);
    NameDelimits(arrow, d.to, e.to, head + (EdgeTail(d.kind) + x), head + (EdgeTail(e.kind) + y));
    Cancel(head, EdgeTail(d.kind) + x, EdgeTail(e.kind) + y);
    EdgeTailDelimits(d.kind, e.kind, x, y);
  }

  lemma NodeIsNotEdge(n: Node, e: Edge, x: string, y: string)
    ensures BehindFirstName(NodeItem(n)) + x != BehindFirstName(EdgeItem(e)) + y
  {
    Apart(BehindFirstName(NodeItem(n)), BehindFirstName(EdgeItem(e)), 1, x, y);
  }

  lemma BehindFirstNameDelimits(i: Item, j: Item, x: string, y: string)
    requires Plain(i) && Plain(j) && FirstName(i) == FirstName(j)
    requires BehindFirstName(i) + x == BehindFirstName(j) + y
    ensures i == j && x == y
  {
    if i.NodeItem? && j.NodeItem? {
      NodeDelimits(i.node, j.node, x, y);
    } else if i.EdgeItem? && j.EdgeItem? {
      EdgeDelimits(i.edge, j.edge, x, y);
    } else if i.NodeItem? {
      NodeIsNotEdge(i.node, j.edge, x, y);
    } else {
      NodeIsNotEdge(j.node, i.edge, y, x);
    }
  }

  lemma ItemDelimits(i: Item, j: Item, x: string, y: string)
    requires Plain(i) && Plain(j) && ItemText(i) + x == ItemText(j) + y
    ensures i == j && x == y
  {
    var a, b := BehindFirstName(i) + x, BehindFirstName(j) + y;
    ItemTextOpens(i, x);
    ItemTextOpens(j, y);
    NameDelimits("  \"", FirstName(i), FirstName(j), a, b);
    BehindFirstNameDelimits(i, j, x, y);
  }

  lemma ItemTextOpens(i: Item, x: string)
    ensures ItemText(i) + x == "  \"" + (DotEscape(FirstName(i)) + ("\"" + (BehindFirstName(i) + x)))
  {
    ToTheRight("  \"", DotEscape(FirstName(i)), "\"" + BehindFirstName(i), x);
    ToTheRight("", "\"", BehindFirstName(i), x);
  }

  /** Lines can be told apart and cut off, and none begins like the end. */
  ghost predicate Delimited(text: Item -> string, end: string) {
    && end != ""
    && (forall i :: text(i) != "" && text(i)[0] != end[0])
    && (forall i, j, x, y :: Plain(i) && Plain(j) && text(i) + x == text(j) + y ==> i == j && x == y)
  }

  lemma ItemsDelimited()
    ensures Delimited(ItemText, "}\n")
  {
    forall i, j, x, y | Plain(i) && Plain(j) && ItemText(i) + x == ItemText(j) + y ensures i == j && x == y {
      ItemDelimits(i, j, x, y);
    }
  }

  lemma LinesHead(text: Item -> string, items: seq<Item>, end: string)
    requires items != []
    ensures Lines(text, items) + end == text(items[0]) + (Lines(text, items[1..]) + end)
  {
  }

  lemma LinesBegin(text: Item -> string, items: seq<Item>, end: string)
    requires Delimited(text, end) && items != []
    ensures Lines(text, items) + end != end
  {
    assert (Lines(text, items) + end)[0] == text(items[0])[0];
  }

  lemma {:induction false} LinesDetermined(text: Item -> string, xs: seq<Item>, ys: seq<Item>, end: string)
    requires Delimited(text, end)
    requires forall i :: i in xs || i in ys ==> Plain(i)
    requires Lines(text, xs) + end == Lines(text, ys) + end
    ensures xs == ys
  {
    assert "" + end == end;
    if xs != [] && ys != [] {
      LinesHead(text, xs, end);
      LinesHead(text, ys, end);
      LinesDetermined(text, xs[1..], ys[1..], end);
      assert xs == [xs[0]] + xs[1..] && ys == [ys[0]] + ys[1..];
    } else if xs != ys {
      LinesBegin(text, if xs == [] then ys else xs, end);
    }
  }

  lemma ItemsApart(g: Graph, h: Graph)
    requires NodeItems(g.nodes) + EdgeItems(g.edges) == NodeItems(h.nodes) + EdgeItems(h.edges)
    ensures g == h
  {
    var xs, ys := NodeItems(g.nodes) + EdgeItems(g.edges), NodeItems(h.nodes) + EdgeItems(h.edges);
    assert |g.nodes| == |h.nodes| by {
      assert |g.nodes| < |xs| ==> xs[|g.nodes|] == EdgeItem(g.edges[0]);
      assert |h.nodes| < |ys| ==> ys[|h.nodes|] == EdgeItem(h.edges[0]);
      assert forall k :: 0 <= k < |g.nodes| ==> xs[k] == NodeItem(g.nodes[k]);
      assert forall k :: 0 <= k < |h.nodes| ==> ys[k] == NodeItem(h.nodes[k]);
    }
    forall k | 0 <= k < |g.nodes| ensures g.nodes[k] == h.nodes[k] { assert xs[k] == ys[k]; }
    forall k | 0 <= k < |g.edges| ensures g.edges[k] == h.edges[k] {
      assert xs[|g.nodes| + k] == ys[|g.nodes| + k];
    }
  }

  /** The rendering loses nothing: equal texts come from equal graphs, whatever the names hold. */
  lemma DotDeterminesGraph(g: Graph, h: Graph)
    requires forall n :: n in g.nodes || n in h.nodes ==> Plain(NodeItem(n))
    ensures DotText(g) == DotText(h) <==> g == h
  {
    var xs, ys := NodeItems(g.nodes) + EdgeItems(g.edges), NodeItems(h.nodes) + EdgeItems(h.edges);
    if DotText(g) == DotText(h) {
      Cancel(HEADER, ItemsText(xs) + "}\n", ItemsText(ys) + "}\n");
      ItemsDelimited();
      LinesDetermined(ItemText, xs, ys, "}\n");
      ItemsApart(g, h);
    }
  }

  lemma CatalogDotDetermines(xs: seq<TaskDef>, ys: seq<TaskDef>)
    ensures DotText(GraphOf(xs)) == DotText(GraphOf(ys)) <==> GraphOf(xs) == GraphOf(ys)
  {
    NodesAre(xs);
    NodesAre(ys);
    DotDeterminesGraph(GraphOf(xs), GraphOf(ys));
  }

  /** No rearrangement changes the DOT text, if and only if same-named definitions draw alike. */
  lemma DotUnorderedIff(xs: seq<TaskDef>)
    ensures (forall ys :: multiset(ys) == multiset(xs) ==> DotText(GraphOf(ys)) == DotText(GraphOf(xs))) <==>
            forall d, e :: d in xs && e in xs ==> Interchangeable(d, e)
  {
    forall ys ensures DotText(GraphOf(ys)) == DotText(GraphOf(xs)) <==> GraphOf(ys) == GraphOf(xs) {
      CatalogDotDetermines(ys, xs);
    }
    OrderIrrelevantIff(xs);
  }
}
