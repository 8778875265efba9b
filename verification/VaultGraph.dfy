/** Bounded link graphs of vault-ops.ts. */
module VaultGraph {
  import opened Basics
  import opened Text

  const GRAPH_NODE_CAP := 40
  const GRAPH_EDGE_CAP := 80

  datatype Doc = Doc(id: string, title: string, path: string)

  /** A missing to_id is "". */
  datatype Link = Link(from_id: string, to_id: string, raw: string)

  datatype Node = Node(id: string, title: string, path: string)

  datatype Graph = Graph(nodes: seq<Node>, edges: seq<Link>, truncated: bool, node_cap: nat)

  // ----- what is asked for -----

  /** titleOf */
  function TitleOf(docs: seq<Doc>, id: string, fallback: string): (string, string) {
    if docs == [] then (fallback, "")
    else if docs[0].id == id then (if Trim(docs[0].title) != "" then Trim(docs[0].title) else fallback, docs[0].path)
    else TitleOf(docs[1..], id, fallback)
  }

  function SelectedNodes(selected: Option<Doc>): seq<Node> {
    if selected.None? || selected.value.id == "" then []
    else
      var d := selected.value;
      [Node(d.id, if Trim(d.title) != "" then Trim(d.title) else d.id, d.path)]
  }

  /** The node at the far end of an outbound link: a document, or a link text that leads nowhere. */
  function TargetNodes(l: Link, docs: seq<Doc>): seq<Node> {
    if l.to_id != "" then
      var t := TitleOf(docs, l.to_id, if l.raw != "" then l.raw else l.to_id);
      [Node(l.to_id, t.0, t.1)]
    else if l.raw != "" then [Node("raw:" + l.raw, l.raw, "")]
    else []
  }

  function SourceNodes(l: Link, docs: seq<Doc>): seq<Node> {
    var t := TitleOf(docs, l.from_id, l.from_id);
    if l.from_id == "" then [] else [Node(l.from_id, t.0, t.1)]
  }

  function Targets(links: seq<Link>, docs: seq<Doc>): seq<Node> {
    if links == [] then [] else Targets(links[..|links| - 1], docs) + TargetNodes(links[|links| - 1], docs)
  }

  function Sources(links: seq<Link>, docs: seq<Doc>): seq<Node> {
    if links == [] then [] else Sources(links[..|links| - 1], docs) + SourceNodes(links[|links| - 1], docs)
  }

  /** Every node that the neighbourhood could show, in the order of the source: the selected
      document, the ends of the outbound links, the beginnings of the inbound ones. */
  function Wanted(selected: Option<Doc>, inbound: seq<Link>, outbound: seq<Link>, docs: seq<Doc>): seq<Node> {
    SelectedNodes(selected) + Targets(outbound, docs) + Sources(inbound, docs)
  }

  predicate HasId(nodes: seq<Node>, id: string) {
    exists i :: 0 <= i < |nodes| && nodes[i].id == id
  }

  /** Of each id the first node. */
  function FirstOfEach(nodes: seq<Node>): seq<Node> {
    if nodes == [] then []
    else
      var rest, last := FirstOfEach(nodes[..|nodes| - 1]), nodes[|nodes| - 1];
      if HasId(rest, last.id) then rest else rest + [last]
  }

  function NodeCap(cap: int): (n: nat) {
    if cap > 0 then cap else GRAPH_NODE_CAP
  }

  /** The first distinct nodes up to the cap and the first 80 links; truncated exactly when a
      distinct node or a link has been left out. */
  ghost predicate IsNeighborhood(g: Graph, selected: Option<Doc>,
                                 inbound: seq<Link>, outbound: seq<Link>, docs: seq<Doc>)
  {
    var distinct := FirstOfEach(Wanted(selected, inbound, outbound, docs));
    && g.nodes == Take(distinct, g.node_cap)
    && g.edges == Take(outbound + inbound, GRAPH_EDGE_CAP)
    && (g.truncated <==> |distinct| > g.node_cap || |outbound + inbound| > GRAPH_EDGE_CAP)
  }

  // ----- adding nodes one by one -----

  /** The first cap distinct nodes so far, and whether a distinct one did not fit. */
  ghost predicate Holds(nodes: seq<Node>, truncated: bool, seen: set<string>, wanted: seq<Node>, cap: nat) {
    && nodes == Take(FirstOfEach(wanted), cap)
    && truncated == (|FirstOfEach(wanted)| > cap)
    && Seen(seen, nodes)
  }

  /** The set holds the ids of the list. */
  ghost predicate Seen(seen: set<string>, nodes: seq<Node>) {
    forall id :: id in seen <==> HasId(nodes, id)
  }

  lemma SeenSnoc(seen: set<string>, nodes: seq<Node>, node: Node)
    requires Seen(seen, nodes)
    ensures Seen(seen + {node.id}, nodes + [node])
  {
    HasIdSnoc(nodes, node);
    hide HasId;
  }

  lemma SeenId(seen: set<string>, nodes: seq<Node>, id: string)
    requires Seen(seen, nodes)
    ensures id in seen <==> HasId(nodes, id)
  {
  }

  lemma FirstOfEachSnoc(wanted: seq<Node>, node: Node)
    ensures FirstOfEach(wanted + [node])
         == if HasId(FirstOfEach(wanted), node.id) then FirstOfEach(wanted) else FirstOfEach(wanted) + [node]
  {
    assert (wanted + [node])[..|wanted|] == wanted;
  }

  lemma HasIdSnoc(nodes: seq<Node>, node: Node)
    ensures forall id :: HasId(nodes + [node], id) <==> HasId(nodes, id) || id == node.id
  {
    var all := nodes + [node];
    assert forall i :: 0 <= i < |nodes| ==> all[i] == nodes[i];
    assert all[|nodes|] == node;
    forall id | HasId(nodes, id) || id == node.id
      ensures HasId(all, id)
    {
      if HasId(nodes, id) {
        var i :| 0 <= i < |nodes| && nodes[i].id == id;
        assert all[i].id == id;
      }
    }
  }

  /** A new id at a full list: something distinct is left out, now or already. */
  lemma FullList(all: seq<Node>, node: Node, cap: nat)
    requires |Take(all, cap)| >= cap && !HasId(Take(all, cap), node.id)
    ensures |all| >= cap
    ensures HasId(all, node.id) ==> |all| > cap
    ensures Take(all + [node], cap) == Take(all, cap)
  {
  }

  lemma RoomLeft(all: seq<Node>, node: Node, cap: nat)
    requires |Take(all, cap)| < cap
    ensures Take(all, cap) == all && Take(all + [node], cap) == all + [node]
  {
  }

  lemma TakeHasId(all: seq<Node>, cap: nat, id: string)
    requires HasId(Take(all, cap), id)
    ensures HasId(all, id)
  {
    var i :| 0 <= i < |Take(all, cap)| && Take(all, cap)[i].id == id;
    assert all[i].id == id;
  }

  /** The closure add, on the variables it captures. */
  method Add(node: Node, cap: nat, nodes: seq<Node>, seen: set<string>, truncated: bool, ghost wanted: seq<Node>)
    returns (nodes': seq<Node>, seen': set<string>, truncated': bool)
    requires Holds(nodes, truncated, seen, wanted, cap)
    ensures Holds(nodes', truncated', seen', if node.id == "" then wanted else wanted + [node], cap)
  {
    nodes', seen', truncated' := nodes, seen, truncated;
    FirstOfEachSnoc(wanted, node);
    SeenId(seen, nodes, node.id);
    SeenSnoc(seen, nodes, node);
    ghost var all := FirstOfEach(wanted);
    hide FirstOfEach, HasId, Take, Seen;
    if node.id == "" || node.id in seen {
      if node.id != "" {
        TakeHasId(all, cap, node.id);
      }
      return;
    }
    if |nodes| >= cap {
      FullList(all, node, cap);
      truncated' := true;
      return;
    }
    RoomLeft(all, node, cap);
    seen' := seen + {node.id};
    nodes' := nodes + [node];
  }

  /** The loop over the outbound links. */
  method AddTargets(links: seq<Link>, docs: seq<Doc>, cap: nat,
                    nodes: seq<Node>, seen: set<string>, truncated: bool, ghost wanted: seq<Node>)
    returns (nodes': seq<Node>, seen': set<string>, truncated': bool)
    requires Holds(nodes, truncated, seen, wanted, cap)
    ensures Holds(nodes', truncated', seen', wanted + Targets(links, docs), cap)
  {
    nodes', seen', truncated' := nodes, seen, truncated;
    NoEnds(links, docs);
    hide Holds, Targets, TargetNodes, TitleOf;
    assert wanted + [] == wanted;
    for i := 0 to |links|
      invariant Holds(nodes', truncated', seen', wanted + Targets(links[..i], docs), cap)
    {
      var l := links[i];
      assert links[..i + 1] == links[..i] + [l];
      ghost var soFar := Targets(links[..i], docs);
      TargetsSnoc(links[..i], l, docs);
      TargetShape(l, docs);
      Assoc(wanted, soFar, TargetNodes(l, docs));
      if l.to_id != "" {
        var t := TitleOf(docs, l.to_id, if l.raw != "" then l.raw else l.to_id);
        nodes', seen', truncated' := Add(Node(l.to_id, t.0, t.1), cap, nodes', seen', truncated', wanted + soFar);
      } else if l.raw != "" {
        nodes', seen', truncated' :=
          Add(Node("raw:" + l.raw, l.raw, ""), cap, nodes', seen', truncated', wanted + soFar);
      } else {
        assert wanted + soFar + [] == wanted + soFar;
      }
    }
    assert links[..|links|] == links;
  }

  /** The loop over the inbound links. */
  method AddSources(links: seq<Link>, docs: seq<Doc>, cap: nat,
                    nodes: seq<Node>, seen: set<string>, truncated: bool, ghost wanted: seq<Node>)
    returns (nodes': seq<Node>, seen': set<string>, truncated': bool)
    requires Holds(nodes, truncated, seen, wanted, cap)
    ensures Holds(nodes', truncated', seen', wanted + Sources(links, docs), cap)
  {
    nodes', seen', truncated' := nodes, seen, truncated;
    NoEnds(links, docs);
    hide Holds, Sources, SourceNodes, TitleOf;
    assert wanted + [] == wanted;
    for i := 0 to |links|
      invariant Holds(nodes', truncated', seen', wanted + Sources(links[..i], docs), cap)
    {
      var l := links[i];
      assert links[..i + 1] == links[..i] + [l];
      ghost var soFar := Sources(links[..i], docs);
      SourcesSnoc(links[..i], l, docs);
      SourceShape(l, docs);
      Assoc(wanted, soFar, SourceNodes(l, docs));
      assert wanted + soFar + [] == wanted + soFar;
      var t := TitleOf(docs, l.from_id, l.from_id);
      nodes', seen', truncated' := Add(Node(l.from_id, t.0, t.1), cap, nodes', seen', truncated', wanted + soFar);
    }
    assert links[..|links|] == links;
  }

  /** The loop over all links. */
  method FirstLinks(links: seq<Link>, truncated: bool) returns (edges: seq<Link>, truncated': bool)
    ensures edges == Take(links, GRAPH_EDGE_CAP)
    ensures truncated' == (truncated || |links| > GRAPH_EDGE_CAP)
  {
    edges, truncated' := [], truncated;
    for i := 0 to |links|
      invariant edges == links[..i] && i <= GRAPH_EDGE_CAP && truncated' == truncated
    {
      if |edges| >= GRAPH_EDGE_CAP {
        truncated' := true;
        return;
      }
      edges := edges + [links[i]];
    }
    assert links[..|links|] == links;
  }

  /** boundNeighborhood */
  method BoundNeighborhood(selected: Option<Doc>, inbound: seq<Link>, outbound: seq<Link>, docs: seq<Doc>, cap: int)
    returns (g: Graph)
    ensures g.node_cap == NodeCap(cap)
    ensures IsNeighborhood(g, selected, inbound, outbound, docs)
  {
    hide FirstOfEach, Targets, Sources, Trim, Seen, Take;
    var nodeCap := NodeCap(cap);
    var nodes: seq<Node>, seen: set<string>, truncated := [], {}, false;
    NothingWanted(nodeCap);
    ghost var wanted := SelectedNodes(selected);
    if selected.Some? && selected.value.id != "" {
      var d := selected.value;
      nodes, seen, truncated := Add(Node(d.id, if Trim(d.title) != "" then Trim(d.title) else d.id, d.path),
                                    nodeCap, nodes, seen, truncated, []);
      assert [] + wanted == wanted;
    }
    nodes, seen, truncated := AddTargets(outbound, docs, nodeCap, nodes, seen, truncated, wanted);
    wanted := wanted + Targets(outbound, docs);
    nodes, seen, truncated := AddSources(inbound, docs, nodeCap, nodes, seen, truncated, wanted);
    var edges;
    edges, truncated := FirstLinks(outbound + inbound, truncated);
    g := Graph(nodes, edges, truncated, nodeCap);
  }

  lemma NoEnds(links: seq<Link>, docs: seq<Doc>)
    ensures Targets(links[..0], docs) == [] && Sources(links[..0], docs) == []
  {
  }

  lemma NothingWanted(cap: nat)
    ensures Holds([], false, {}, [], cap)
  {
  }

  lemma TargetsSnoc(links: seq<Link>, l: Link, docs: seq<Doc>)
    ensures Targets(links + [l], docs) == Targets(links, docs) + TargetNodes(l, docs)
  {
    assert (links + [l])[..|links|] == links;
  }

  lemma SourcesSnoc(links: seq<Link>, l: Link, docs: seq<Doc>)
    ensures Sources(links + [l], docs) == Sources(links, docs) + SourceNodes(l, docs)
  {
    assert (links + [l])[..|links|] == links;
  }

  lemma TargetShape(l: Link, docs: seq<Doc>)
    ensures l.to_id != "" ==>
              var t := TitleOf(docs, l.to_id, if l.raw != "" then l.raw else l.to_id);
              TargetNodes(l, docs) == [Node(l.to_id, t.0, t.1)]
    ensures l.to_id == "" && l.raw != "" ==> TargetNodes(l, docs) == [Node("raw:" + l.raw, l.raw, "")]
    ensures l.to_id == "" && l.raw == "" ==> TargetNodes(l, docs) == []
  {
  }

  lemma SourceShape(l: Link, docs: seq<Doc>)
    ensures var t := TitleOf(docs, l.from_id, l.from_id);
            SourceNodes(l, docs) == if l.from_id == "" then [] else [Node(l.from_id, t.0, t.1)]
  {
  }

  /** The i-th document is the first with this id. */
  ghost predicate FirstDoc(docs: seq<Doc>, id: string, i: nat) {
    i < |docs| && docs[i].id == id && forall j :: 0 <= j < i ==> docs[j].id != id
  }

  function TitleOr(title: string, other: string): string {
    if Trim(title) != "" then Trim(title) else other
  }

  lemma {:induction false} TitleFound(docs: seq<Doc>, id: string, fallback: string, i: nat)
    requires FirstDoc(docs, id, i)
    ensures TitleOf(docs, id, fallback) == (TitleOr(docs[i].title, fallback), docs[i].path)
  {
    if i > 0 {
      assert docs[0].id != id;
      TitleFound(docs[1..], id, fallback, i - 1);
    }
  }

  lemma {:induction false} TitleMissing(docs: seq<Doc>, id: string, fallback: string)
    requires forall j :: 0 <= j < |docs| ==> docs[j].id != id
    ensures TitleOf(docs, id, fallback) == (fallback, "")
  {
    if docs == [] {
    } else {
      TitleMissing(docs[1..], id, fallback);
    }
  }

  /** The title of a link's far end is the trimmed title of the first document with its id; failing
      that the text of the link, and failing that the id. */
  lemma FarEndTitle(l: Link, docs: seq<Doc>, i: nat)
    requires l.to_id != ""
    ensures var other := if l.raw != "" then l.raw else l.to_id;
            && (FirstDoc(docs, l.to_id, i) ==>
                  TargetNodes(l, docs) == [Node(l.to_id, TitleOr(docs[i].title, other), docs[i].path)])
            && ((forall j :: 0 <= j < |docs| ==> docs[j].id != l.to_id) ==>
                  TargetNodes(l, docs) == [Node(l.to_id, other, "")])
  {
    var other := if l.raw != "" then l.raw else l.to_id;
    if FirstDoc(docs, l.to_id, i) {
      TitleFound(docs, l.to_id, other, i);
    } else if forall j :: 0 <= j < |docs| ==> docs[j].id != l.to_id {
      TitleMissing(docs, l.to_id, other);
    }
  }

  /** The title of the document that an inbound link comes from, or its id. */
  lemma NearEndTitle(l: Link, docs: seq<Doc>, i: nat)
    requires l.from_id != ""
    ensures FirstDoc(docs, l.from_id, i) ==>
              SourceNodes(l, docs) == [Node(l.from_id, TitleOr(docs[i].title, l.from_id), docs[i].path)]
    ensures (forall j :: 0 <= j < |docs| ==> docs[j].id != l.from_id) ==>
              SourceNodes(l, docs) == [Node(l.from_id, l.from_id, "")]
  {
    if FirstDoc(docs, l.from_id, i) {
      TitleFound(docs, l.from_id, l.from_id, i);
    } else if forall j :: 0 <= j < |docs| ==> docs[j].id != l.from_id {
      TitleMissing(docs, l.from_id, l.from_id);
    }
  }

  // ----- what the bounds mean -----

  ghost predicate DistinctIds(nodes: seq<Node>) {
    forall i, j :: 0 <= i < j < |nodes| ==> nodes[i].id != nodes[j].id
  }

  lemma DistinctSnoc(nodes: seq<Node>, node: Node)
    requires DistinctIds(nodes) && !HasId(nodes, node.id)
    ensures DistinctIds(nodes + [node])
  {
  }

  /** The distinct nodes: each wanted id once, by the first node that has it. */
  lemma {:induction false} FirstOfEachMeaning(wanted: seq<Node>)
    ensures DistinctIds(FirstOfEach(wanted))
    ensures forall id :: HasId(FirstOfEach(wanted), id) <==> HasId(wanted, id)
    ensures forall i :: 0 <= i < |wanted| && !HasId(wanted[..i], wanted[i].id) ==> wanted[i] in FirstOfEach(wanted)
  {
    if wanted == [] {
    } else {
      var init, last := wanted[..|wanted| - 1], wanted[|wanted| - 1];
      var before := FirstOfEach(init);
      FirstOfEachMeaning(init);
      assert wanted == init + [last];
      FirstOfEachSnoc(init, last);
      HasIdSnoc(init, last);
      HasIdSnoc(before, last);
      hide FirstOfEach, HasId, DistinctIds;
      if !HasId(before, last.id) {
        DistinctSnoc(before, last);
      }
      forall i | 0 <= i < |wanted| && !HasId(wanted[..i], wanted[i].id)
        ensures wanted[i] in FirstOfEach(wanted)
      {
        if i < |init| {
          assert init[..i] == wanted[..i];
        } else {
          assert wanted[..i] == init;
        }
      }
    }
  }

  /** More wanted nodes only add to the distinct ones, at the end: they stand in the order in
      which they were wanted first. */
  lemma {:induction false} FirstOfEachGrows(wanted: seq<Node>, i: nat)
    requires i <= |wanted|
    ensures FirstOfEach(wanted[..i]) <= FirstOfEach(wanted)
  {
    if i < |wanted| {
      var init := wanted[..|wanted| - 1];
      FirstOfEachGrows(init, i);
      assert init[..i] == wanted[..i];
    } else {
      assert wanted[..i] == wanted;
    }
  }

  /** In an untruncated graph all links are there, and every node at either end of one: also the
      link texts that lead nowhere, and the selected document. */
  lemma UntruncatedIsComplete(selected: Option<Doc>, inbound: seq<Link>, outbound: seq<Link>, docs: seq<Doc>, g: Graph)
    requires IsNeighborhood(g, selected, inbound, outbound, docs) && !g.truncated
    ensures g.edges == outbound + inbound
    ensures forall l :: l in outbound && FarEnd(l) != "" ==> HasId(g.nodes, FarEnd(l))
    ensures forall l :: l in inbound && l.from_id != "" ==> HasId(g.nodes, l.from_id)
    ensures selected.Some? && selected.value.id != "" ==> HasId(g.nodes, selected.value.id)
  {
    FirstOfEachMeaning(Wanted(selected, inbound, outbound, docs));
    hide FirstOfEach, TargetNodes, SourceNodes, Targets, Sources, SelectedNodes, FarEnd, HasId, Wanted;
    forall l | l in outbound && FarEnd(l) != ""
      ensures HasId(g.nodes, FarEnd(l))
    {
      EndsAreWanted(selected, inbound, outbound, docs, l);
    }
    forall l | l in inbound && l.from_id != ""
      ensures HasId(g.nodes, l.from_id)
    {
      EndsAreWanted(selected, inbound, outbound, docs, l);
    }
    if selected.Some? && selected.value.id != "" {
      SelectedIsWanted(selected, inbound, outbound, docs);
    }
  }

  /** The id of the node at the far end of an outbound link, or "" if it has none. */
  function FarEnd(l: Link): string {
    if l.to_id != "" then l.to_id else if l.raw != "" then "raw:" + l.raw else ""
  }

  lemma FarEndNode(l: Link, docs: seq<Doc>)
    ensures FarEnd(l) != "" ==> HasId(TargetNodes(l, docs), FarEnd(l))
    ensures l.from_id != "" ==> HasId(SourceNodes(l, docs), l.from_id)
  {
    assert FarEnd(l) != "" ==> TargetNodes(l, docs)[0].id == FarEnd(l);
    assert l.from_id != "" ==> SourceNodes(l, docs)[0].id == l.from_id;
  }

  lemma SelectedIsWanted(selected: Option<Doc>, inbound: seq<Link>, outbound: seq<Link>, docs: seq<Doc>)
    requires selected.Some? && selected.value.id != ""
    ensures HasId(Wanted(selected, inbound, outbound, docs), selected.value.id)
  {
    var a, b, c := SelectedNodes(selected), Targets(outbound, docs), Sources(inbound, docs);
    assert a[0].id == selected.value.id;
    HasIdAppend(a, b, selected.value.id);
    HasIdAppend(a + b, c, selected.value.id);
    hide Targets, Sources;
  }

  lemma {:induction false} EndsAmong(links: seq<Link>, docs: seq<Doc>, l: Link)
    requires l in links
    ensures FarEnd(l) != "" ==> HasId(Targets(links, docs), FarEnd(l))
    ensures l.from_id != "" ==> HasId(Sources(links, docs), l.from_id)
  {
    hide FarEnd, TargetNodes, SourceNodes, HasId, Targets, Sources;
    var init, last := links[..|links| - 1], links[|links| - 1];
    assert links == init + [last];
    FarEndNode(l, docs);
    if l in init {
      EndsAmong(init, docs, l);
    }
    TargetsSnoc(init, last, docs);
    SourcesSnoc(init, last, docs);
    HasIdAppend(Targets(init, docs), TargetNodes(last, docs), FarEnd(l));
    HasIdAppend(Sources(init, docs), SourceNodes(last, docs), l.from_id);
  }

  lemma HasIdAppend(a: seq<Node>, b: seq<Node>, id: string)
    ensures HasId(a + b, id) <==> HasId(a, id) || HasId(b, id)
  {
    var all := a + b;
    assert forall i :: 0 <= i < |b| ==> all[|a| + i] == b[i];
    if HasId(b, id) {
      var i :| 0 <= i < |b| && b[i].id == id;
      assert all[|a| + i].id == id;
    }
    if HasId(a, id) {
      var i :| 0 <= i < |a| && a[i].id == id;
      assert all[i].id == id;
    }
  }

  lemma EndsAreWanted(selected: Option<Doc>, inbound: seq<Link>, outbound: seq<Link>, docs: seq<Doc>, l: Link)
    ensures l in outbound && FarEnd(l) != "" ==> HasId(Wanted(selected, inbound, outbound, docs), FarEnd(l))
    ensures l in inbound && l.from_id != "" ==> HasId(Wanted(selected, inbound, outbound, docs), l.from_id)
  {
    hide HasId, Targets, Sources, SelectedNodes, FarEnd;
    if l in outbound {
      EndsAmong(outbound, docs, l);
    }
    if l in inbound {
      EndsAmong(inbound, docs, l);
    }
    var a, b, c := SelectedNodes(selected), Targets(outbound, docs), Sources(inbound, docs);
    HasIdAppend(a, b, FarEnd(l));
    HasIdAppend(a + b, c, FarEnd(l));
    HasIdAppend(a + b, c, l.from_id);
  }

  // ----- graphs from the server -----

  /** One entry of the reply's node list. A field that is not a string is None. */
  datatype RawNode = OddNode | NodeRow(id: Option<string>, title: Option<string>, path: Option<string>)

  datatype RawEdge = OddEdge | EdgeRow(from_id: Option<string>, to_id: Option<string>, raw: Option<string>)

  /** A reply that is no object is NoGraph; lists that are no arrays are []; a node_cap that is
      no number is 0. */
  datatype RawGraph = NoGraph | RawGraph(nodes: seq<RawNode>, edges: seq<RawEdge>, truncated: bool, node_cap: int)

  function OrEmpty(s: Option<string>): string {
    if s.Some? then s.value else ""
  }

  function ReadNode(n: RawNode): seq<Node> {
    if n.OddNode? || OrEmpty(n.id) == "" then []
    else [RowNode(n)]
  }

  function ReadEdge(e: RawEdge): seq<Link> {
    if e.OddEdge? || OrEmpty(e.from_id) == "" then []
    else [Link(OrEmpty(e.from_id), OrEmpty(e.to_id), OrEmpty(e.raw))]
  }

  function ReadNodes(rows: seq<RawNode>): seq<Node> {
    if rows == [] then [] else ReadNodes(rows[..|rows| - 1]) + ReadNode(rows[|rows| - 1])
  }

  function ReadEdges(rows: seq<RawEdge>): seq<Link> {
    if rows == [] then [] else ReadEdges(rows[..|rows| - 1]) + ReadEdge(rows[|rows| - 1])
  }

  /** An object in the list after the 80th link that could be read, readable or not. */
  predicate RowAfterFull(rows: seq<RawEdge>) {
    exists i :: 0 <= i < |rows| && rows[i].EdgeRow? && |ReadEdges(rows[..i])| >= GRAPH_EDGE_CAP
  }

  function Normalised(raw: RawGraph, cap: int): (g: Graph) {
    var nodeCap := NodeCap(cap);
    if raw.NoGraph? then Graph([], [], false, nodeCap)
    else
      var distinct := FirstOfEach(ReadNodes(raw.nodes));
      Graph(Take(distinct, nodeCap), Take(ReadEdges(raw.edges), GRAPH_EDGE_CAP),
            raw.truncated || |distinct| > nodeCap || RowAfterFull(raw.edges),
            if raw.node_cap > 0 then raw.node_cap else nodeCap)
  }

  lemma ReadNodesSnoc(rows: seq<RawNode>, n: RawNode)
    ensures ReadNodes(rows + [n]) == ReadNodes(rows) + ReadNode(n)
  {
    assert (rows + [n])[..|rows|] == rows;
  }

  lemma ReadEdgesSnoc(rows: seq<RawEdge>, e: RawEdge)
    ensures ReadEdges(rows + [e]) == ReadEdges(rows) + ReadEdge(e)
  {
    assert (rows + [e])[..|rows|] == rows;
  }

  /** More rows keep the distinct nodes found so far, in place. */
  lemma {:induction false} DistinctGrow(rows: seq<RawNode>, i: nat)
    requires i <= |rows|
    ensures FirstOfEach(ReadNodes(rows[..i])) <= FirstOfEach(ReadNodes(rows))
    decreases |rows| - i
  {
    if i == |rows| {
      assert rows[..i] == rows;
    } else {
      DistinctGrow(rows, i + 1);
      NodeStep(rows, i);
    }
  }

  lemma {:induction false} EdgesGrow(rows: seq<RawEdge>, i: nat)
    requires i <= |rows|
    ensures ReadEdges(rows[..i]) <= ReadEdges(rows)
    decreases |rows| - i
  {
    if i == |rows| {
      assert rows[..i] == rows;
    } else {
      EdgesGrow(rows, i + 1);
      assert rows[..i + 1] == rows[..i] + [rows[i]];
      ReadEdgesSnoc(rows[..i], rows[i]);
    }
  }

  /** What one row does to the distinct nodes. */
  lemma NodeStep(rows: seq<RawNode>, i: nat)
    requires i < |rows|
    ensures FirstOfEach(ReadNodes(rows[..i + 1])) == WithNode(FirstOfEach(ReadNodes(rows[..i])), ReadNode(rows[i]))
  {
    assert rows[..i + 1] == rows[..i] + [rows[i]];
    ReadNodesSnoc(rows[..i], rows[i]);
    var before := ReadNodes(rows[..i]);
    if ReadNode(rows[i]) == [] {
      assert before + [] == before;
    } else {
      FirstOfEachSnoc(before, ReadNode(rows[i])[0]);
    }
  }

  function WithNode(nodes: seq<Node>, here: seq<Node>): seq<Node> {
    if here == [] || HasId(nodes, here[0].id) then nodes else nodes + here
  }

  lemma NodeShape(nodes: seq<Node>, n: RawNode)
    ensures n.OddNode? || OrEmpty(n.id) == "" ==> WithNode(nodes, ReadNode(n)) == nodes
    ensures n.NodeRow? && OrEmpty(n.id) != "" ==>
              WithNode(nodes, ReadNode(n)) == if HasId(nodes, OrEmpty(n.id)) then nodes else nodes + [RowNode(n)]
  {
  }

  function RowNode(n: RawNode): Node
    requires n.NodeRow?
  {
    var id := OrEmpty(n.id);
    Node(id, if n.title.Some? && Trim(n.title.value) != "" then n.title.value else id, OrEmpty(n.path))
  }

  /** The node loop of normalizeGraph. */
  method ReadDistinct(rows: seq<RawNode>, nodeCap: nat, claimed: bool) returns (nodes: seq<Node>, truncated: bool)
    ensures nodes == Take(FirstOfEach(ReadNodes(rows)), nodeCap)
    ensures truncated == (claimed || |FirstOfEach(ReadNodes(rows))| > nodeCap)
  {
    var seen: set<string> := {};
    nodes, truncated := [], claimed;
    assert FirstOfEach(ReadNodes(rows[..0])) == [] && Seen(seen, nodes);
    hide FirstOfEach, ReadNodes, HasId, Seen, WithNode, ReadNode, OrEmpty, RowNode, Take;
    for i := 0 to |rows|
      invariant nodes == FirstOfEach(ReadNodes(rows[..i])) && |nodes| <= nodeCap && truncated == claimed
      invariant Seen(seen, nodes)
    {
      var n := rows[i];
      NodeStep(rows, i);
      NodeShape(nodes, n);
      if n.NodeRow? {
        SeenId(seen, nodes, OrEmpty(n.id));
      }
      if n.OddNode? || OrEmpty(n.id) == "" || OrEmpty(n.id) in seen {
        continue;
      }
      if |nodes| >= nodeCap {
        DistinctGrow(rows, i + 1);
        TakeFull(nodes, RowNode(n), FirstOfEach(ReadNodes(rows)), nodeCap);
        truncated := true;
        return;
      }
      var node := RowNode(n);
      RowNodeId(n);
      SeenSnoc(seen, nodes, node);
      seen := seen + {node.id};
      nodes := nodes + [node];
    }
    assert rows[..|rows|] == rows;
    TakeFits(nodes, nodeCap);
  }

  lemma TakeFits<T>(s: seq<T>, n: nat)
    requires |s| <= n
    ensures Take(s, n) == s
  {
  }

  lemma TakeFull<T>(s: seq<T>, x: T, all: seq<T>, n: nat)
    requires |s| == n && s + [x] <= all
    ensures Take(all, n) == s && |all| > n
  {
    assert all[..n] == (s + [x])[..n];
  }

  lemma RowNodeId(n: RawNode)
    requires n.NodeRow?
    ensures RowNode(n).id == OrEmpty(n.id)
  {
  }

  /** What one row does to the links, and to the flag. */
  lemma EdgeStep(rows: seq<RawEdge>, i: nat)
    requires i < |rows|
    ensures ReadEdges(rows[..i + 1]) == ReadEdges(rows[..i]) + ReadEdge(rows[i])
    ensures RowAfterFull(rows[..i + 1])
       <==> RowAfterFull(rows[..i]) || (rows[i].EdgeRow? && |ReadEdges(rows[..i])| >= GRAPH_EDGE_CAP)
  {
    var here := rows[..i + 1];
    assert here == rows[..i] + [rows[i]];
    ReadEdgesSnoc(rows[..i], rows[i]);
    hide ReadEdges, ReadEdge;
    assert forall k :: 0 <= k <= i ==> here[..k] == rows[..k];
    assert forall k :: 0 <= k < i ==> rows[..i][..k] == rows[..k] && here[k] == rows[..i][k];
    assert here[i] == rows[i];
  }

  lemma AfterFullGrows(rows: seq<RawEdge>, i: nat)
    requires i <= |rows| && RowAfterFull(rows[..i])
    ensures RowAfterFull(rows)
  {
    hide ReadEdges;
    var k :| 0 <= k < i && rows[..i][k].EdgeRow? && |ReadEdges(rows[..i][..k])| >= GRAPH_EDGE_CAP;
    assert rows[..i][..k] == rows[..k] && rows[k].EdgeRow?;
  }

  /** The edge loop of normalizeGraph. */
  method ReadLinks(rows: seq<RawEdge>) returns (edges: seq<Link>, truncated: bool)
    ensures edges == Take(ReadEdges(rows), GRAPH_EDGE_CAP)
    ensures truncated == RowAfterFull(rows)
  {
    edges, truncated := [], false;
    assert ReadEdges(rows[..0]) == [] && !RowAfterFull(rows[..0]);
    hide ReadEdges, RowAfterFull;
    for i := 0 to |rows|
      invariant edges == ReadEdges(rows[..i]) && |edges| <= GRAPH_EDGE_CAP
      invariant !truncated && !RowAfterFull(rows[..i])
    {
      var e := rows[i];
      EdgeStep(rows, i);
      hide OrEmpty;
      if e.OddEdge? {
        continue;
      }
      if |edges| >= GRAPH_EDGE_CAP {
        EdgesGrow(rows, i);
        AfterFullGrows(rows, i + 1);
        truncated := true;
        return;
      }
      var from := OrEmpty(e.from_id);
      if from == "" {
        continue;
      }
      edges := edges + [Link(from, OrEmpty(e.to_id), OrEmpty(e.raw))];
    }
    assert rows[..|rows|] == rows;
  }

  method NormalizeGraph(raw: RawGraph, cap: int) returns (g: Graph)
    ensures g == Normalised(raw, cap)
  {
    var nodeCap := NodeCap(cap);
    if raw.NoGraph? {
      return Graph([], [], false, nodeCap);
    }
    var nodes, truncated := ReadDistinct(raw.nodes, nodeCap, raw.truncated);
    var edges, cut := ReadLinks(raw.edges);
    g := Graph(nodes, edges, truncated || cut, if raw.node_cap > 0 then raw.node_cap else nodeCap);
  }

  /** A distinct readable node, or a readable link, that the graph does not hold. */
  ghost predicate LeftOut(raw: RawGraph, g: Graph)
    requires raw.RawGraph?
  {
    || (exists n :: n in FirstOfEach(ReadNodes(raw.nodes)) && n !in g.nodes)
    || |ReadEdges(raw.edges)| > |g.edges|
  }

  /** Nothing is left out silently; and the flag is set in vain exactly when an unreadable row,
      and no readable one, stands behind the 80th link while all nodes fit. */
  lemma LossShows(raw: RawGraph, cap: int)
    requires raw.RawGraph? && !raw.truncated
    ensures var g := Normalised(raw, cap);
            && (LeftOut(raw, g) ==> g.truncated)
            && ((g.truncated <==> LeftOut(raw, g))
                <==> (RowAfterFull(raw.edges) ==>
                        || |ReadEdges(raw.edges)| > GRAPH_EDGE_CAP
                        || |FirstOfEach(ReadNodes(raw.nodes))| > NodeCap(cap)))
  {
    if |ReadEdges(raw.edges)| > GRAPH_EDGE_CAP {
      FindRow(raw.edges);
    }
    var distinct := FirstOfEach(ReadNodes(raw.nodes));
    FirstOfEachMeaning(ReadNodes(raw.nodes));
    hide FirstOfEach, ReadNodes, ReadEdges, RowAfterFull;
    NodeDropped(distinct, NodeCap(cap));
  }

  lemma NodeDropped(distinct: seq<Node>, cap: nat)
    requires DistinctIds(distinct)
    ensures (exists n :: n in distinct && n !in Take(distinct, cap)) <==> |distinct| > cap
  {
    if |distinct| > cap {
      assert distinct[cap] in distinct;
      assert forall i :: 0 <= i < cap ==> distinct[i].id != distinct[cap].id;
    }
  }

  /** Eighty readable links, and an object without a beginning behind them: the flag is set
      though nothing that can be read is left out. */
  lemma VainFlagExample(link: RawEdge, cap: int)
    requires link.EdgeRow? && OrEmpty(link.from_id) != ""
    ensures var rows := seq(GRAPH_EDGE_CAP, _ => link) + [EdgeRow(Some(""), None, None)];
            var raw := RawGraph([], rows, false, 0);
            Normalised(raw, cap).truncated && !LeftOut(raw, Normalised(raw, cap))
  {
    var full := seq(GRAPH_EDGE_CAP, _ => link);
    var rows := full + [EdgeRow(Some(""), None, None)];
    AllReadable(full);
    ReadEdgesSnoc(full, EdgeRow(Some(""), None, None));
    assert rows[..|full|] == full && rows[|full|].EdgeRow?;
    assert ReadEdge(EdgeRow(Some(""), None, None)) == [];
    assert FirstOfEach(ReadNodes([])) == [];
    hide ReadEdges;
    assert RowAfterFull(rows);
  }

  lemma {:induction false} AllReadable(rows: seq<RawEdge>)
    requires forall i :: 0 <= i < |rows| ==> rows[i].EdgeRow? && OrEmpty(rows[i].from_id) != ""
    ensures |ReadEdges(rows)| == |rows|
  {
    if rows == [] {
    } else {
      AllReadable(rows[..|rows| - 1]);
    }
  }

  lemma {:induction false} FindRow(rows: seq<RawEdge>)
    requires |ReadEdges(rows)| > GRAPH_EDGE_CAP
    ensures RowAfterFull(rows)
  {
    var init, last := rows[..|rows| - 1], rows[|rows| - 1];
    if |ReadEdges(init)| > GRAPH_EDGE_CAP {
      FindRow(init);
      var i :| 0 <= i < |init| && init[i].EdgeRow? && |ReadEdges(init[..i])| >= GRAPH_EDGE_CAP;
      assert rows[i].EdgeRow? && rows[..i] == init[..i];
    } else {
      assert rows[|init|].EdgeRow? && rows[..|init|] == init;
    }
  }

  // ----- normal graphs -----

  function RawNodeOf(n: Node): RawNode {
    NodeRow(Some(n.id), Some(n.title), Some(n.path))
  }

  function RawEdgeOf(l: Link): RawEdge {
    EdgeRow(Some(l.from_id), Some(l.to_id), Some(l.raw))
  }

  function RawNodesOf(nodes: seq<Node>): (rows: seq<RawNode>)
    ensures |rows| == |nodes| && forall i :: 0 <= i < |nodes| ==> rows[i] == RawNodeOf(nodes[i])
  {
    seq(|nodes|, i requires 0 <= i < |nodes| => RawNodeOf(nodes[i]))
  }

  function RawEdgesOf(edges: seq<Link>): (rows: seq<RawEdge>)
    ensures |rows| == |edges| && forall i :: 0 <= i < |edges| ==> rows[i] == RawEdgeOf(edges[i])
  {
    seq(|edges|, i requires 0 <= i < |edges| => RawEdgeOf(edges[i]))
  }

  /** A graph written out as the reply that carries it. */
  function RawOf(g: Graph): RawGraph {
    RawGraph(RawNodesOf(g.nodes), RawEdgesOf(g.edges), g.truncated, g.node_cap)
  }

  predicate NormalNode(n: Node) {
    n.id != "" && (Trim(n.title) != "" || n.title == n.id)
  }

  ghost predicate NormalNodes(nodes: seq<Node>) {
    forall i :: 0 <= i < |nodes| ==> NormalNode(nodes[i])
  }

  ghost predicate NormalLinks(edges: seq<Link>) {
    forall i :: 0 <= i < |edges| ==> edges[i].from_id != ""
  }

  /** Within the caps, with distinct ids, and every node with a title. */
  ghost predicate Normal(g: Graph, cap: int) {
    && DistinctIds(g.nodes) && NormalNodes(g.nodes) && |g.nodes| <= NodeCap(cap)
    && NormalLinks(g.edges) && |g.edges| <= GRAPH_EDGE_CAP
    && g.node_cap > 0
  }

  /** A graph comes back unchanged from its written form exactly when it is normal; so reading
      twice gives what reading once gave. */
  lemma NormalGraphs(g: Graph, cap: int)
    ensures Normalised(RawOf(g), cap) == g <==> Normal(g, cap)
  {
    NormalisedIsNormal(RawOf(g), cap);
    if Normal(g, cap) {
      NormalNodesRead(g.nodes);
      DistinctStay(g.nodes);
      NormalLinksRead(g.edges);
    }
  }

  lemma NormalisedIsNormal(raw: RawGraph, cap: int)
    ensures Normal(Normalised(raw, cap), cap)
  {
    if raw.RawGraph? {
      FirstOfEachMeaning(ReadNodes(raw.nodes));
      ReadNodesNormal(raw.nodes);
      FirstOfEachAmong(ReadNodes(raw.nodes));
      ReadEdgesNormal(raw.edges);
    }
  }

  lemma {:induction false} ReadNodesNormal(rows: seq<RawNode>)
    ensures NormalNodes(ReadNodes(rows))
  {
    if rows == [] {
    } else {
      ReadNodesNormal(rows[..|rows| - 1]);
    }
  }

  lemma {:induction false} ReadEdgesNormal(rows: seq<RawEdge>)
    ensures NormalLinks(ReadEdges(rows))
  {
    if rows == [] {
    } else {
      ReadEdgesNormal(rows[..|rows| - 1]);
    }
  }

  lemma {:induction false} FirstOfEachAmong(nodes: seq<Node>)
    requires NormalNodes(nodes)
    ensures NormalNodes(FirstOfEach(nodes))
  {
    if nodes == [] {
    } else {
      FirstOfEachAmong(nodes[..|nodes| - 1]);
    }
  }

  lemma RawSnoc(nodes: seq<Node>, n: Node, edges: seq<Link>, l: Link)
    ensures RawNodesOf(nodes + [n]) == RawNodesOf(nodes) + [RawNodeOf(n)]
    ensures RawEdgesOf(edges + [l]) == RawEdgesOf(edges) + [RawEdgeOf(l)]
  {
  }

  lemma NormalReads(n: Node, l: Link)
    ensures NormalNode(n) ==> ReadNode(RawNodeOf(n)) == [n]
    ensures l.from_id != "" ==> ReadEdge(RawEdgeOf(l)) == [l]
  {
  }

  lemma NothingRead()
    ensures ReadNodes(RawNodesOf([])) == [] && ReadEdges(RawEdgesOf([])) == [] && FirstOfEach([]) == []
    ensures !RowAfterFull(RawEdgesOf([]))
  {
  }

  lemma {:induction false} NormalNodesRead(nodes: seq<Node>)
    requires NormalNodes(nodes)
    ensures ReadNodes(RawNodesOf(nodes)) == nodes
  {
    hide ReadNodes, ReadNode, RawNodesOf, RawNodeOf, NormalNode;
    if nodes == [] {
      NothingRead();
    } else {
      var init, last := nodes[..|nodes| - 1], nodes[|nodes| - 1];
      NormalNodesRead(init);
      assert NormalNode(last) && nodes == init + [last];
      RawSnoc(init, last, [], Link("", "", ""));
      NormalReads(last, Link("", "", ""));
      ReadNodesSnoc(RawNodesOf(init), RawNodeOf(last));
    }
  }

  lemma DistinctInit(nodes: seq<Node>)
    requires DistinctIds(nodes) && nodes != []
    ensures DistinctIds(nodes[..|nodes| - 1]) && !HasId(nodes[..|nodes| - 1], nodes[|nodes| - 1].id)
  {
  }

  lemma {:induction false} DistinctStay(nodes: seq<Node>)
    requires DistinctIds(nodes)
    ensures FirstOfEach(nodes) == nodes
  {
    hide FirstOfEach, HasId, DistinctIds;
    if nodes == [] {
      NothingRead();
    } else {
      var init, last := nodes[..|nodes| - 1], nodes[|nodes| - 1];
      DistinctInit(nodes);
      DistinctStay(init);
      assert nodes == init + [last];
      FirstOfEachSnoc(init, last);
    }
  }

  lemma {:induction false} NormalLinksRead(edges: seq<Link>)
    requires NormalLinks(edges)
    ensures ReadEdges(RawEdgesOf(edges)) == edges
    ensures |edges| <= GRAPH_EDGE_CAP ==> !RowAfterFull(RawEdgesOf(edges))
  {
    hide ReadEdges, ReadEdge, RawEdgesOf, RawEdgeOf, RowAfterFull;
    if edges == [] {
      NothingRead();
    } else {
      var init, last := edges[..|edges| - 1], edges[|edges| - 1];
      NormalLinksRead(init);
      assert last.from_id != "" && edges == init + [last];
      RawSnoc([], Node("", "", ""), init, last);
      NormalReads(Node("", "", ""), last);
      LinksStep(RawEdgesOf(edges), RawEdgesOf(init), last);
    }
  }

  lemma LinksStep(rows: seq<RawEdge>, init: seq<RawEdge>, last: Link)
    requires rows == init + [RawEdgeOf(last)]
    ensures ReadEdges(rows) == ReadEdges(init) + ReadEdge(RawEdgeOf(last))
    ensures RowAfterFull(rows) <==> RowAfterFull(init) || |ReadEdges(init)| >= GRAPH_EDGE_CAP
  {
    assert rows[..|init|] == init && rows[..|rows|] == rows && rows[|init|] == RawEdgeOf(last);
    EdgeStep(rows, |init|);
    hide ReadEdges, ReadEdge, RowAfterFull;
  }
}
