/**
 * The record-to-graph formatter `to_d3_format`: query-result records become
 * a node list, deduplicated by id in first-seen order, and a link list with
 * one link per relationship triple.
 */
module GraphFormat {
  import opened Wrappers
  import opened PyValues

  /**
   * One field value of a query-result record: a dictionary (a node's
   * properties), a 3-tuple `(start node, relationship type, end node)`, or
   * anything else (a scalar, a list, a tuple of another length).
   */
  datatype Field = Dict(attrs: Attrs) | Triple(src: Attrs, rel: Scalar, tgt: Attrs) | Other

  /** A record: its field values in the order of its keys. */
  type Record = seq<Field>

  datatype NodeType = Person | Movie

  /**
   * A rendered node (`nodeLabel` is the key `label`). `year` and `centrality` are the optional keys `year`
   * and `eigenvectorCentrality`; no other key is ever added.
   */
  datatype GraphNode = GraphNode(id: Scalar, nodeLabel: Scalar, nodeType: NodeType,
                                 year: Option<Scalar>, centrality: Option<Scalar>)

  /** A rendered link (`linkLabel` is the key `label`). */
  datatype Link = Link(source: Scalar, target: Scalar, linkLabel: Scalar)

  /** The returned `{"nodes": [...], "links": [...]}`. */
  datatype Payload = Payload(nodes: seq<GraphNode>, links: seq<Link>)

  /** A dictionary is node-like when it has a `personId` or a `movieId` key. */
  predicate HasId(d: Attrs) {
    "personId" in d || "movieId" in d
  }

  /** `d.get("personId") or d.get("movieId")`. */
  function EntityId(d: Attrs): Scalar {
    Or(Get(d, "personId"), Get(d, "movieId"))
  }

  /** The node built on the first sighting of a node-like dictionary. */
  function NodeOf(d: Attrs): GraphNode {
    var t := if "personId" in d then Person else Movie;
    GraphNode(EntityId(d), Or(Get(d, "name"), Get(d, "title")), t,
              if t == Movie && "year" in d then Some(d["year"]) else None,
              if "eigenvectorCentrality" in d then Some(d["eigenvectorCentrality"]) else None)
  }

  /** The link appended for a triple. */
  function LinkOf(src: Attrs, rel: Scalar, tgt: Attrs): Link {
    Link(EntityId(src), EntityId(tgt), rel)
  }

  /** The key under which a field is stored in the node dictionary, if it is node-like. */
  function NodeKey(f: Field): Option<Scalar> {
    if f.Dict? && HasId(f.attrs) then Some(PyKey(EntityId(f.attrs))) else None
  }

  /**
   * The formatter's working state: the `nodes` dictionary as a map with
   * its insertion order beside it, and the `links` list.
   */
  datatype Acc = Acc(order: seq<Scalar>, nodes: map<Scalar, GraphNode>, links: seq<Link>)

  /** The dictionary's invariant: keys listed once each in insertion order, each the key of its node's id. */
  ghost predicate Valid(acc: Acc) {
    && (forall i, j :: 0 <= i < j < |acc.order| ==> acc.order[i] != acc.order[j])
    && (forall k :: k in acc.order <==> k in acc.nodes)
    && (forall k :: k in acc.nodes ==> PyKey(acc.nodes[k].id) == k)
  }

  /** The effect of one field value on the state (the body of the inner loop). */
  function Step(acc: Acc, f: Field): Acc {
    match f
    case Dict(d) =>
      if HasId(d) && PyKey(EntityId(d)) !in acc.nodes then
        var k := PyKey(EntityId(d));
        Acc(acc.order + [k], acc.nodes[k := NodeOf(d)], acc.links)
      else acc
    case Triple(src, rel, tgt) => acc.(links := acc.links + [LinkOf(src, rel, tgt)])
    case Other => acc
  }

  /** The state after the field values `fs`, taken in order. */
  function Fold(fs: seq<Field>): Acc {
    if fs == [] then Acc([], map[], []) else Step(Fold(fs[..|fs| - 1]), fs[|fs| - 1])
  }

  /** One more field value is one more step. */
  lemma FoldSnoc(fs: seq<Field>, f: Field)
    ensures Fold(fs + [f]) == Step(Fold(fs), f)
  {
    assert (fs + [f])[..|fs|] == fs;
  }

  /** Every state the formatter reaches keeps the dictionary's invariant. */
  lemma {:induction false} FoldValid(fs: seq<Field>)
    ensures Valid(Fold(fs))
  {
    if fs != [] {
      FoldValid(fs[..|fs| - 1]);
    }
  }

  /** All field values of all records: records in order, then fields in order. */
  function Flatten(rs: seq<Record>): seq<Field> {
    if rs == [] then [] else Flatten(rs[..|rs| - 1]) + rs[|rs| - 1]
  }

  /** `list(nodes.values())` and `links` of a state. */
  function Render(acc: Acc): Payload
    requires Valid(acc)
  {
    Payload(seq(|acc.order|, i requires 0 <= i < |acc.order| => acc.nodes[acc.order[i]]), acc.links)
  }

  /** What `to_d3_format(results)` returns. */
  function D3Format(results: seq<Record>): Payload {
    FoldValid(Flatten(results));
    Render(Fold(Flatten(results)))
  }

  /**
   * The body of the inner loop of `to_d3_format`: a node-like dictionary
   * adds its node under a new id, a triple appends its link, anything else
   * is skipped.
   */
  method AddField(order: seq<Scalar>, nodes: map<Scalar, GraphNode>, links: seq<Link>, value: Field)
    returns (order': seq<Scalar>, nodes': map<Scalar, GraphNode>, links': seq<Link>)
    ensures Acc(order', nodes', links') == Step(Acc(order, nodes, links), value)
  {
    order', nodes', links' := order, nodes, links;
    match value {
      case Dict(d) =>
        if "personId" in d || "movieId" in d {
          var nodeId := Or(Get(d, "personId"), Get(d, "movieId"));
          if PyKey(nodeId) !in nodes {
            nodes' := nodes[PyKey(nodeId) := NodeOf(d)];
            order' := order + [PyKey(nodeId)];
          }
        }
      case Triple(src, rel, tgt) =>
        links' := links + [LinkOf(src, rel, tgt)];
      case Other =>
    }
  }

  /**
   * `to_d3_format`: the nested loop over records and their fields, filling
   * the node dictionary (with its insertion order) and the link list.
   */
  method ToD3Format(results: seq<Record>) returns (out: Payload)
    ensures out == D3Format(results)
  {
    var order: seq<Scalar> := [];
    var nodes: map<Scalar, GraphNode> := map[];
    var links: seq<Link> := [];
    ghost var seen: seq<Field> := [];
    var i := 0;
    while i < |results|
      invariant 0 <= i <= |results|
      invariant seen == Flatten(results[..i])
      invariant Acc(order, nodes, links) == Fold(seen)
    {
      var record := results[i];
      ghost var done := seen;
      var j := 0;
      while j < |record|
        invariant 0 <= j <= |record|
        invariant seen == done + record[..j]
        invariant Acc(order, nodes, links) == Fold(seen)
      {
        order, nodes, links := AddField(order, nodes, links, record[j]);
        FoldSnoc(seen, record[j]);
        seen := seen + [record[j]];
        assert record[..j + 1] == record[..j] + [record[j]];
        j := j + 1;
      }
      assert record[..|record|] == record;
      assert results[..i + 1][..i] == results[..i];
      i := i + 1;
    }
    assert results[..|results|] == results;
    FoldValid(seen);
    // `list(nodes.values())`, in insertion order
    out := Render(Acc(order, nodes, links));
  }

  // ---------------------------------------------------------------------
  // Properties of the formatter

  /** Some field value of `fs` is node-like with key `k`. */
  ghost predicate Occurs(fs: seq<Field>, k: Scalar) {
    exists p :: 0 <= p < |fs| && NodeKey(fs[p]) == Some(k)
  }

  /** The position of the first node-like field value of `fs` with key `k`. */
  ghost function FirstPos(fs: seq<Field>, k: Scalar): (p: nat)
    requires Occurs(fs, k)
    ensures p < |fs| && NodeKey(fs[p]) == Some(k)
    ensures forall q :: 0 <= q < p ==> NodeKey(fs[q]) != Some(k)
  {
    var n := |fs| - 1;
    OccursSnoc(fs, k);
    if Occurs(fs[..n], k) then
      var p := FirstPos(fs[..n], k);
      assert forall q :: 0 <= q <= p ==> fs[..n][q] == fs[q];
      p
    else
      assert forall q :: 0 <= q < n ==> fs[..n][q] == fs[q];
      n
  }

  lemma OccursSnoc(fs: seq<Field>, k: Scalar)
    requires fs != []
    ensures Occurs(fs, k) <==> Occurs(fs[..|fs| - 1], k) || NodeKey(fs[|fs| - 1]) == Some(k)
  {
    var n := |fs| - 1;
    if Occurs(fs, k) && NodeKey(fs[n]) != Some(k) {
      var p :| 0 <= p < |fs| && NodeKey(fs[p]) == Some(k);
      assert fs[..n][p] == fs[p];
    }
    if Occurs(fs[..n], k) {
      var p :| 0 <= p < n && NodeKey(fs[..n][p]) == Some(k);
      assert fs[..n][p] == fs[p];
    }
  }

  /**
   * The node dictionary holds a key exactly when some node-like value has
   * it, and the node under it is built from the FIRST such value: later
   * values with the same id change nothing.
   */
  lemma {:induction false} NodesAreFirstSightings(fs: seq<Field>)
    ensures forall k :: k in Fold(fs).nodes <==> Occurs(fs, k)
    ensures forall k :: k in Fold(fs).nodes ==> Fold(fs).nodes[k] == NodeOf(fs[FirstPos(fs, k)].attrs)
  {
    if fs != [] {
      var n := |fs| - 1;
      var pre := fs[..n];
      var f := fs[n];
      NodesAreFirstSightings(pre);
      var acc0 := Fold(pre);
      assert Fold(fs) == Step(acc0, f);
      forall k
        ensures k in Fold(fs).nodes <==> Occurs(fs, k)
        ensures k in Fold(fs).nodes ==> Fold(fs).nodes[k] == NodeOf(fs[FirstPos(fs, k)].attrs)
      {
        OccursSnoc(fs, k);
        if Occurs(pre, k) {
          FirstPosSnocOld(fs, k);
          var p := FirstPos(pre, k);
          assert pre[p] == fs[p];
          assert k in acc0.nodes;
        } else if NodeKey(f) == Some(k) {
          FirstPosSnocNew(fs, k);
          assert k !in acc0.nodes;
        } else {
          assert k !in acc0.nodes;
        }
      }
    }
  }

  /** A key already seen in a prefix keeps its first position. */
  lemma FirstPosSnocOld(fs: seq<Field>, k: Scalar)
    requires fs != [] && Occurs(fs[..|fs| - 1], k)
    ensures Occurs(fs, k) && FirstPos(fs, k) == FirstPos(fs[..|fs| - 1], k)
  {
    OccursSnoc(fs, k);
  }

  /** A key first seen in the last value has that value's position. */
  lemma FirstPosSnocNew(fs: seq<Field>, k: Scalar)
    requires fs != [] && !Occurs(fs[..|fs| - 1], k) && NodeKey(fs[|fs| - 1]) == Some(k)
    ensures Occurs(fs, k) && FirstPos(fs, k) == |fs| - 1
  {
    OccursSnoc(fs, k);
  }

  /** Keys are listed in the order of their first sightings among the field values. */
  lemma {:induction false} OrderIsFirstSeen(fs: seq<Field>)
    ensures forall k :: k in Fold(fs).order ==> Occurs(fs, k)
    ensures forall i, j :: 0 <= i < j < |Fold(fs).order| ==>
      FirstPos(fs, Fold(fs).order[i]) < FirstPos(fs, Fold(fs).order[j])
  {
    NodesAreFirstSightings(fs);
    FoldValid(fs);
    if fs != [] {
      OrderIsFirstSeen(fs[..|fs| - 1]);
      OrderStep(fs);
    }
  }

  /** The order grows by the last value's key exactly when that key is new. */
  lemma OrderSnoc(fs: seq<Field>)
    requires fs != []
    ensures var pre := fs[..|fs| - 1]; var f := fs[|fs| - 1];
      Fold(fs).order == Fold(pre).order
        + (if NodeKey(f).Some? && NodeKey(f).value !in Fold(pre).nodes then [NodeKey(f).value] else [])
  {
  }

  /** The induction step of OrderIsFirstSeen: a new key goes last, and it is the latest first sighting. */
  lemma OrderStep(fs: seq<Field>)
    requires fs != []
    requires var pre := fs[..|fs| - 1];
      forall i, j :: 0 <= i < j < |Fold(pre).order| ==>
        Occurs(pre, Fold(pre).order[i]) && Occurs(pre, Fold(pre).order[j])
        && FirstPos(pre, Fold(pre).order[i]) < FirstPos(pre, Fold(pre).order[j])
    requires forall k :: k in Fold(fs).order ==> Occurs(fs, k)
    ensures forall i, j :: 0 <= i < j < |Fold(fs).order| ==>
      FirstPos(fs, Fold(fs).order[i]) < FirstPos(fs, Fold(fs).order[j])
  {
    var n := |fs| - 1;
    var pre := fs[..n];
    NodesAreFirstSightings(pre);
    FoldValid(pre);
    var acc0 := Fold(pre);
    var o0 := acc0.order;
    var o := Fold(fs).order;
    OrderSnoc(fs);
    forall i | 0 <= i < |o0|
      ensures o[i] == o0[i] && FirstPos(fs, o[i]) == FirstPos(pre, o0[i]) < n
    {
      assert o0[i] in acc0.nodes;
      FirstPosSnocOld(fs, o0[i]);
    }
    if |o| > |o0| {
      FirstPosSnocNew(fs, o[|o0|]);
    }
    forall i, j | 0 <= i < j < |o|
      ensures FirstPos(fs, o[i]) < FirstPos(fs, o[j])
    {
      if j < |o0| {
        assert FirstPos(pre, o0[i]) < FirstPos(pre, o0[j]);
      }
    }
  }

  /** A node-like value whose id was already seen leaves the state as it was. */
  lemma LaterSightingIsNoOp(fs: seq<Field>, f: Field)
    requires NodeKey(f).Some? && Occurs(fs, NodeKey(f).value)
    ensures Fold(fs + [f]) == Fold(fs)
  {
    FoldSnoc(fs, f);
    NodesAreFirstSightings(fs);
  }

  /** A value that is neither a node-like dictionary nor a triple leaves the state as it was. */
  lemma IgnoredFieldIsNoOp(fs: seq<Field>, f: Field)
    requires f.Other? || (f.Dict? && !HasId(f.attrs))
    ensures Fold(fs + [f]) == Fold(fs)
  {
    FoldSnoc(fs, f);
  }

  /** The triples among `fs`, in order. */
  function Triples(fs: seq<Field>): seq<Field> {
    if fs == [] then []
    else if fs[0].Triple? then [fs[0]] + Triples(fs[1..])
    else Triples(fs[1..])
  }

  lemma {:induction false} TriplesSnoc(fs: seq<Field>, f: Field)
    ensures Triples(fs + [f]) == Triples(fs) + (if f.Triple? then [f] else [])
  {
    if fs != [] {
      assert (fs + [f])[1..] == fs[1..] + [f];
      TriplesSnoc(fs[1..], f);
    } else {
      assert [f][1..] == [];
    }
  }

  /**
   * Every triple yields exactly one link, in encounter order and without
   * deduplication: the links are the triples' links, one for one.
   */
  lemma {:induction false} LinksFollowTriples(fs: seq<Field>)
    ensures |Fold(fs).links| == |Triples(fs)|
    ensures forall t :: 0 <= t < |Triples(fs)| ==>
      var x := Triples(fs)[t]; x.Triple? && Fold(fs).links[t] == LinkOf(x.src, x.rel, x.tgt)
  {
    if fs != [] {
      var n := |fs| - 1;
      LinksFollowTriples(fs[..n]);
      assert fs == fs[..n] + [fs[n]];
      TriplesSnoc(fs[..n], fs[n]);
      assert forall x :: x in Triples(fs[..n]) ==> x.Triple? by {
        TriplesAreTriples(fs[..n]);
      }
    }
  }

  lemma {:induction false} TriplesAreTriples(fs: seq<Field>)
    ensures forall x :: x in Triples(fs) ==> x.Triple?
  {
    if fs != [] {
      TriplesAreTriples(fs[1..]);
    }
  }

  /** The rendered node ids are pairwise different under Python's `==`. */
  lemma NodeIdsDistinct(results: seq<Record>)
    ensures var ns := D3Format(results).nodes;
      forall i, j :: 0 <= i < j < |ns| ==> !PyEq(ns[i].id, ns[j].id)
  {
    var acc := Fold(Flatten(results));
    var ns := D3Format(results).nodes;
    FoldValid(Flatten(results));
    forall i, j | 0 <= i < j < |ns|
      ensures !PyEq(ns[i].id, ns[j].id)
    {
      assert ns[i] == acc.nodes[acc.order[i]] && ns[j] == acc.nodes[acc.order[j]];
      PyKeyIsPyEq(ns[i].id, ns[j].id);
    }
  }

  /** `p` is the first node-like value among `fs` with its id. */
  ghost predicate FirstSightingAt(fs: seq<Field>, p: int) {
    0 <= p < |fs| && NodeKey(fs[p]).Some?
    && forall q :: 0 <= q < p ==> NodeKey(fs[q]) != NodeKey(fs[p])
  }

  /**
   * A rendered node takes everything from its dictionary `d`: the id and
   * label through Python's `or` fallback, type Person exactly when `d` has
   * the key `personId` (truthy or not), a year only on a Movie whose `d`
   * has `year`, a centrality only when `d` has `eigenvectorCentrality`.
   */
  ghost predicate BuiltFrom(n: GraphNode, d: Attrs) {
    && n.id == Or(Get(d, "personId"), Get(d, "movieId"))
    && n.nodeLabel == Or(Get(d, "name"), Get(d, "title"))
    && (n.nodeType == Person <==> "personId" in d)
    && (n.year.Some? <==> n.nodeType == Movie && "year" in d)
    && (n.year.Some? ==> n.year.value == d["year"])
    && (n.centrality.Some? <==> "eigenvectorCentrality" in d)
    && (n.centrality.Some? ==> n.centrality.value == d["eigenvectorCentrality"])
  }

  /** Node `n` is built from the first node-like value among `fs` with its id. */
  ghost predicate FromFirstSighting(fs: seq<Field>, n: GraphNode) {
    exists p :: FirstSightingAt(fs, p) && NodeKey(fs[p]) == Some(PyKey(n.id)) && BuiltFrom(n, fs[p].attrs)
  }

  /** Each rendered node comes from the first sighting of its id, records first and fields second. */
  lemma RenderedNodesAreFirstSightings(results: seq<Record>)
    ensures forall n :: n in D3Format(results).nodes ==> FromFirstSighting(Flatten(results), n)
  {
    var fs := Flatten(results);
    var acc := Fold(fs);
    var ns := D3Format(results).nodes;
    NodesAreFirstSightings(fs);
    FoldValid(fs);
    assert ns == Render(acc).nodes;
    forall n | n in ns
      ensures FromFirstSighting(fs, n)
    {
      var i :| 0 <= i < |ns| && ns[i] == n;
      assert n == acc.nodes[acc.order[i]];
      RenderedNodeIsFirstSighting(fs, acc, i, n);
    }
  }

  lemma RenderedNodeIsFirstSighting(fs: seq<Field>, acc: Acc, i: nat, n: GraphNode)
    requires acc == Fold(fs) && Valid(acc)
    requires forall k :: k in acc.nodes ==> Occurs(fs, k) && acc.nodes[k] == NodeOf(fs[FirstPos(fs, k)].attrs)
    requires i < |acc.order| && n == acc.nodes[acc.order[i]]
    ensures FromFirstSighting(fs, n)
  {
    var k := acc.order[i];
    var p := FirstPos(fs, k);
    NodeOfIsBuiltFrom(fs[p].attrs);
    assert FirstSightingAt(fs, p);
  }

  lemma NodeOfIsBuiltFrom(d: Attrs)
    ensures BuiltFrom(NodeOf(d), d)
  {
  }

  /** The rendered nodes are listed in the order in which their ids were first seen. */
  lemma RenderedNodesInFirstSeenOrder(results: seq<Record>, i: nat, j: nat, p: nat, q: nat)
    requires i < j < |D3Format(results).nodes|
    requires FirstSightingAt(Flatten(results), p) && FirstSightingAt(Flatten(results), q)
    requires NodeKey(Flatten(results)[p]) == Some(PyKey(D3Format(results).nodes[i].id))
    requires NodeKey(Flatten(results)[q]) == Some(PyKey(D3Format(results).nodes[j].id))
    ensures p < q
  {
    var fs := Flatten(results);
    var acc := Fold(fs);
    var ns := D3Format(results).nodes;
    NodesAreFirstSightings(fs);
    OrderIsFirstSeen(fs);
    FoldValid(fs);
    assert ns[i] == acc.nodes[acc.order[i]] && ns[j] == acc.nodes[acc.order[j]];
    var fp := FirstPos(fs, acc.order[i]);
    var fq := FirstPos(fs, acc.order[j]);
    assert !(fp < p) && !(p < fp);
    assert !(fq < q) && !(q < fq);
  }

  /** Every node-like value's id is among the rendered nodes. */
  lemma EveryIdIsRendered(results: seq<Record>, p: nat)
    requires p < |Flatten(results)| && NodeKey(Flatten(results)[p]).Some?
    ensures var ns := D3Format(results).nodes;
      exists i :: 0 <= i < |ns| && Some(PyKey(ns[i].id)) == NodeKey(Flatten(results)[p])
  {
    var fs := Flatten(results);
    var acc := Fold(fs);
    var k := NodeKey(fs[p]).value;
    NodesAreFirstSightings(fs);
    FoldValid(fs);
    assert k in acc.order;
    var i :| 0 <= i < |acc.order| && acc.order[i] == k;
    assert D3Format(results).nodes[i] == acc.nodes[k];
  }

  /** The rendered links are the links of the triples, in encounter order. */
  lemma RenderedLinksFollowTriples(results: seq<Record>)
    ensures var ls := D3Format(results).links; var ts := Triples(Flatten(results));
      |ls| == |ts| && forall t :: 0 <= t < |ts| ==> ts[t].Triple? && ls[t] == LinkOf(ts[t].src, ts[t].rel, ts[t].tgt)
  {
    LinksFollowTriples(Flatten(results));
  }

  /** No records, no nodes and no links. */
  lemma EmptyResults()
    ensures D3Format([]) == Payload([], [])
  {
  }

  /** A single record is formatted by folding its own field values. */
  lemma OneRecord(fs: Record)
    ensures Flatten([fs]) == fs
  {
    var rs: seq<Record> := [fs];
    assert rs[..0] == [];
  }

  /** A rendered state with no nodes shows only its links. */
  lemma RenderNoNodes(links: seq<Link>)
    ensures Valid(Acc([], map[], links))
    ensures Render(Acc([], map[], links)) == Payload([], links)
  {
  }

  /** A triple whose endpoints never appear as node values still yields its link. */
  lemma DanglingLinkIsKept()
    ensures D3Format([[Triple(map["personId" := Str("p1")], Str("ACTED_IN"), map["movieId" := Str("m1")])]])
      == Payload([], [Link(Str("p1"), Str("m1"), Str("ACTED_IN"))])
  {
    var t := Triple(map["personId" := Str("p1")], Str("ACTED_IN"), map["movieId" := Str("m1")]);
    var l := Link(Str("p1"), Str("m1"), Str("ACTED_IN"));
    assert Fold(Flatten([[t]])) == Acc([], map[], [l]) by {
      OneRecord([t]);
      FoldSnoc([], t);
      assert [] + [t] == [t];
      assert LinkOf(t.src, t.rel, t.tgt) == l;
    }
    RenderNoNodes([l]);
  }

  /** The scenario's movie dictionary. */
  function BigMovie(): Attrs {
    map["movieId" := Str("m1"), "title" := Str("Big"), "year" := Int(1988)]
  }

  lemma BigMovieNode()
    ensures NodeKey(Dict(BigMovie())) == Some(Str("m1"))
    ensures NodeOf(BigMovie()) == GraphNode(Str("m1"), Str("Big"), Movie, Some(Int(1988)), None)
  {
    var m := BigMovie();
    assert "personId" !in m && "name" !in m && "eigenvectorCentrality" !in m;
  }

  /** A rendered state with one node shows that node and its links. */
  lemma RenderOneNode(n: GraphNode, links: seq<Link>)
    ensures Valid(Acc([PyKey(n.id)], map[PyKey(n.id) := n], links))
    ensures Render(Acc([PyKey(n.id)], map[PyKey(n.id) := n], links)) == Payload([n], links)
  {
    PyKeyIdempotent(n.id);
  }

  /**
   * A movie value next to a triple: one node (the triple's start node is
   * not added) and one link.
   */
  lemma MovieAndTripleRecord()
    ensures D3Format([[Dict(BigMovie()), Triple(map["personId" := Str("p1")], Str("ACTED_IN"), map["movieId" := Str("m1")])]])
      == Payload([GraphNode(Str("m1"), Str("Big"), Movie, Some(Int(1988)), None)],
                 [Link(Str("p1"), Str("m1"), Str("ACTED_IN"))])
  {
    var d := Dict(BigMovie());
    var t := Triple(map["personId" := Str("p1")], Str("ACTED_IN"), map["movieId" := Str("m1")]);
    var node := GraphNode(Str("m1"), Str("Big"), Movie, Some(Int(1988)), None);
    var link := Link(Str("p1"), Str("m1"), Str("ACTED_IN"));
    var acc1 := Acc([Str("m1")], map[Str("m1") := node], []);
    assert Fold([d]) == acc1 by {
      BigMovieNode();
      FoldSnoc([], d);
      assert [] + [d] == [d];
    }
    assert Fold(Flatten([[d, t]])) == acc1.(links := [link]) by {
      OneRecord([d, t]);
      FoldSnoc([d], t);
      assert [d] + [t] == [d, t];
      assert LinkOf(t.src, t.rel, t.tgt) == link;
    }
    RenderOneNode(node, [link]);
  }

  /** An empty `personId` falls back to `movieId` for the id, yet the node is a Person. */
  lemma FalsyPersonIdFallsBack()
    ensures D3Format([[Dict(map["personId" := Str(""), "movieId" := Str("m1"), "year" := Int(1988)])]]).nodes
      == [GraphNode(Str("m1"), PyNone, Person, None, None)]
  {
    var d := Dict(map["personId" := Str(""), "movieId" := Str("m1"), "year" := Int(1988)]);
    var node := GraphNode(Str("m1"), PyNone, Person, None, None);
    assert Fold(Flatten([[d]])) == Acc([Str("m1")], map[Str("m1") := node], []) by {
      OneRecord([d]);
      FoldSnoc([], d);
      assert [] + [d] == [d];
      assert NodeOf(d.attrs) == node;
    }
    RenderOneNode(node, []);
  }
}
