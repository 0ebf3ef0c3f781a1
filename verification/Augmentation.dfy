// Host-to-switch edges added to a topology from correlated bindings, and what that yields for all of both.
module Augmentation {
  import opened Results
  import opened Topology

  datatype Quality = SingleSource | Corroborated

  // The index and the confidence are the texts the tags hold.
  datatype Binding = Binding(
    host: string,
    identity: string,
    switch: string,
    port: string,
    ifIndex: Option<string>,
    correlation: string,
    confidence: string,
    quality: Quality,
    evidence: seq<string>
  )

  type Key = (string, string)

  // ---------- The specification ----------

  function KeyOf(b: Binding): Key {
    (b.host, b.switch)
  }

  function EdgeKey(e: Edge): Key {
    (e.src, e.dst)
  }

  function TagsOf(b: Binding): Tags {
    map["switch_port" := b.port, "correlation" := b.correlation, "confidence" := b.confidence]
    + (if b.ifIndex.Some? then map["if_index" := b.ifIndex.value] else map[])
  }

  // The tags by key; of bindings with one key the last counts.
  function EdgeTags(bs: seq<Binding>): map<Key, Tags> {
    if bs == [] then map[] else EdgeTags(bs[..|bs| - 1])[KeyOf(bs[|bs| - 1]) := TagsOf(bs[|bs| - 1])]
  }

  function SwitchFor(b: Binding): Node {
    Node(b.switch, Some(b.switch), SwitchNode, None, None, map[])
  }

  function WithSwitches(nodes: seq<Node>, bs: seq<Binding>): seq<Node> {
    if bs == [] then nodes
    else
      var before := WithSwitches(nodes, bs[..|bs| - 1]);
      var b := bs[|bs| - 1];
      if b.switch in Ids(before) then before else before + [SwitchFor(b)]
  }

  function RefreshedEdge(e: Edge, tags: map<Key, Tags>): Edge {
    if EdgeKey(e) in tags then e.(tags := e.tags + tags[EdgeKey(e)]) else e
  }

  function RefreshedEdges(edges: seq<Edge>, tags: map<Key, Tags>): (r: seq<Edge>)
    ensures |r| == |edges|
    ensures forall i :: 0 <= i < |edges| ==> r[i] == RefreshedEdge(edges[i], tags)
  {
    seq(|edges|, i requires 0 <= i < |edges| => RefreshedEdge(edges[i], tags))
  }

  function EdgeKeys(edges: seq<Edge>): set<Key> {
    set i | 0 <= i < |edges| :: EdgeKey(edges[i])
  }

  function LanEdge(b: Binding, tags: map<Key, Tags>): Edge
    requires KeyOf(b) in tags
  {
    Edge(b.host, b.switch, Lan, None, tags[KeyOf(b)])
  }

  predicate AllTagged(bs: seq<Binding>, tags: map<Key, Tags>) {
    forall i :: 0 <= i < |bs| ==> KeyOf(bs[i]) in tags
  }

  // A LAN edge for each binding whose key no old edge has.
  function NewEdges(bs: seq<Binding>, seen: set<Key>, tags: map<Key, Tags>): seq<Edge>
    requires AllTagged(bs, tags)
  {
    if bs == [] then []
    else
      var b := bs[|bs| - 1];
      assert KeyOf(b) in tags;
      NewEdges(bs[..|bs| - 1], seen, tags) + (if KeyOf(b) in seen then [] else [LanEdge(b, tags)])
  }

  lemma {:induction false} TagsCover(bs: seq<Binding>)
    ensures AllTagged(bs, EdgeTags(bs))
    ensures forall key :: key in EdgeTags(bs) ==> exists i :: 0 <= i < |bs| && KeyOf(bs[i]) == key
  {
    if bs != [] {
      var n := |bs| - 1;
      TagsCover(bs[..n]);
      forall key | key in EdgeTags(bs)
        ensures exists i :: 0 <= i < |bs| && KeyOf(bs[i]) == key
      {
        if key == KeyOf(bs[n]) {
        } else {
          var i :| 0 <= i < n && KeyOf(bs[..n][i]) == key;
          assert KeyOf(bs[i]) == key;
        }
      }
      forall i | 0 <= i < |bs|
        ensures KeyOf(bs[i]) in EdgeTags(bs)
      {
        assert i < n ==> bs[..n][i] == bs[i];
      }
    }
  }

  function Augmented(g: Graph, bs: seq<Binding>): Graph {
    TagsCover(bs);
    var tags := EdgeTags(bs);
    g.(nodes := WithSwitches(g.nodes, bs),
       edges := RefreshedEdges(g.edges, tags) + NewEdges(bs, EdgeKeys(g.edges), tags))
  }

  // The nodes, the edges and the graph are built through their validators.
  function Augment(g: Graph, bs: seq<Binding>): Result<Graph> {
    var r := Augmented(g, bs);
    if Valid(r) then Ok(r) else Err(ValueError)
  }

  function Switches(bs: seq<Binding>): set<string> {
    set i | 0 <= i < |bs| :: bs[i].switch
  }

  // ---------- The nodes ----------

  lemma SwitchesOfSnoc(bs: seq<Binding>)
    requires bs != []
    ensures Switches(bs) == Switches(bs[..|bs| - 1]) + {bs[|bs| - 1].switch}
  {
    var n := |bs| - 1;
    forall id | id in Switches(bs)
      ensures id in Switches(bs[..n]) + {bs[n].switch}
    {
      var i :| 0 <= i < |bs| && bs[i].switch == id;
      assert i < n ==> bs[..n][i].switch == id;
    }
    forall id | id in Switches(bs[..n])
      ensures id in Switches(bs)
    {
      var i :| 0 <= i < n && bs[..n][i].switch == id;
      assert bs[i].switch == id;
    }
  }

  // The old nodes in place, then one switch node for each switch that was missing.
  predicate NodesGrown(was: seq<Node>, grown: seq<Node>, bs: seq<Binding>) {
    && was <= grown
    && Ids(grown) == Ids(was) + Switches(bs)
    && (UniqueIds(was) ==> UniqueIds(grown))
    && forall i :: |was| <= i < |grown| ==> IsNewSwitch(grown[i], was, bs)
  }

  predicate IsNewSwitch(node: Node, was: seq<Node>, bs: seq<Binding>) {
    && node.nodeId !in Ids(was)
    && node == Node(node.nodeId, Some(node.nodeId), SwitchNode, None, None, map[])
    && exists k :: 0 <= k < |bs| && node == SwitchFor(bs[k])
  }

  lemma NewSwitchStays(node: Node, was: seq<Node>, bs: seq<Binding>)
    requires bs != [] && IsNewSwitch(node, was, bs[..|bs| - 1])
    ensures IsNewSwitch(node, was, bs)
  {
    var k :| 0 <= k < |bs| - 1 && node == SwitchFor(bs[..|bs| - 1][k]);
    assert node == SwitchFor(bs[k]);
  }

  lemma InIds(nodes: seq<Node>, id: string)
    requires id !in Ids(nodes)
    ensures forall i :: 0 <= i < |nodes| ==> nodes[i].nodeId != id
  {
    forall i | 0 <= i < |nodes|
      ensures nodes[i].nodeId != id
    {
      assert nodes[i].nodeId in Ids(nodes);
    }
  }

  lemma {:induction false} NodesGrow(nodes: seq<Node>, bs: seq<Binding>)
    ensures NodesGrown(nodes, WithSwitches(nodes, bs), bs)
  {
    hide IsNewSwitch;
    if bs != [] {
      var n := |bs| - 1;
      var before := WithSwitches(nodes, bs[..n]);
      NodesGrow(nodes, bs[..n]);
      SwitchesOfSnoc(bs);
      IdsOfSnoc(before, SwitchFor(bs[n]));
      hide Switches;
      var after := WithSwitches(nodes, bs);
      forall i | |nodes| <= i < |before|
        ensures IsNewSwitch(before[i], nodes, bs)
      {
        NewSwitchStays(before[i], nodes, bs);
      }
      if bs[n].switch !in Ids(before) {
        InIds(before, bs[n].switch);
        LastIsNew(nodes, bs);
      }
      hide Ids;
    } else {
      assert Switches(bs) == {};
    }
  }

  lemma LastIsNew(nodes: seq<Node>, bs: seq<Binding>)
    requires bs != [] && bs[|bs| - 1].switch !in Ids(nodes)
    ensures IsNewSwitch(SwitchFor(bs[|bs| - 1]), nodes, bs)
  {
  }

  lemma {:induction false} NodesPrefix(nodes: seq<Node>, bs: seq<Binding>, n: nat)
    requires n <= |bs|
    ensures WithSwitches(nodes, bs[..n]) <= WithSwitches(nodes, bs)
    decreases |bs|
  {
    if n == |bs| {
      assert bs[..n] == bs;
    } else {
      NodesPrefix(nodes, bs[..|bs| - 1], n);
      assert bs[..|bs| - 1][..n] == bs[..n];
    }
  }

  // ---------- The edges ----------

  // A new edge stands for a binding between which there was none.
  predicate IsNewEdge(e: Edge, bs: seq<Binding>, seen: set<Key>, tags: map<Key, Tags>)
    requires AllTagged(bs, tags)
  {
    exists k :: 0 <= k < |bs| && KeyOf(bs[k]) !in seen && e == LanEdge(bs[k], tags)
  }

  lemma NewEdgeStays(e: Edge, bs: seq<Binding>, seen: set<Key>, tags: map<Key, Tags>)
    requires AllTagged(bs, tags) && bs != [] && AllTagged(bs[..|bs| - 1], tags)
    requires IsNewEdge(e, bs[..|bs| - 1], seen, tags)
    ensures IsNewEdge(e, bs, seen, tags)
  {
    var k :| 0 <= k < |bs| - 1 && KeyOf(bs[..|bs| - 1][k]) !in seen && e == LanEdge(bs[..|bs| - 1][k], tags);
    assert KeyOf(bs[k]) !in seen;
  }

  lemma {:induction false} NewEdgesAre(bs: seq<Binding>, seen: set<Key>, tags: map<Key, Tags>)
    requires AllTagged(bs, tags)
    ensures var es := NewEdges(bs, seen, tags);
      && (forall i :: 0 <= i < |es| ==> IsNewEdge(es[i], bs, seen, tags))
      && (forall k :: 0 <= k < |bs| && KeyOf(bs[k]) !in seen ==> LanEdge(bs[k], tags) in es)
  {
    if bs != [] {
      var n := |bs| - 1;
      assert AllTagged(bs[..n], tags);
      var es := NewEdges(bs, seen, tags);
      var before := NewEdges(bs[..n], seen, tags);
      NewEdgesAre(bs[..n], seen, tags);
      forall i | 0 <= i < |es|
        ensures IsNewEdge(es[i], bs, seen, tags)
      {
        if i < |before| {
          assert es[i] == before[i];
          NewEdgeStays(es[i], bs, seen, tags);
        } else {
          assert es[i] == LanEdge(bs[n], tags) && KeyOf(bs[n]) !in seen;
        }
      }
      forall k | 0 <= k < |bs| && KeyOf(bs[k]) !in seen
        ensures LanEdge(bs[k], tags) in es
      {
        if k < n {
          assert bs[..n][k] == bs[k];
          assert LanEdge(bs[k], tags) in before;
        } else {
          assert es[|before|] == LanEdge(bs[n], tags);
        }
      }
    }
  }

  predicate UniqueKeys(bs: seq<Binding>) {
    forall i, j :: 0 <= i < j < |bs| ==> KeyOf(bs[i]) != KeyOf(bs[j])
  }

  // With one binding to a key no two new edges join the same nodes.
  lemma {:induction false} NewEdgesDiffer(bs: seq<Binding>, seen: set<Key>, tags: map<Key, Tags>)
    requires AllTagged(bs, tags) && UniqueKeys(bs)
    ensures var es := NewEdges(bs, seen, tags);
      forall i, j :: 0 <= i < j < |es| ==> EdgeKey(es[i]) != EdgeKey(es[j])
  {
    if bs != [] {
      var n := |bs| - 1;
      assert AllTagged(bs[..n], tags);
      var before := NewEdges(bs[..n], seen, tags);
      NewEdgesDiffer(bs[..n], seen, tags);
      NewEdgesAre(bs[..n], seen, tags);
      forall i | 0 <= i < |before|
        ensures EdgeKey(before[i]) != KeyOf(bs[n])
      {
        assert IsNewEdge(before[i], bs[..n], seen, tags);
      }
    }
  }

  // ---------- When it succeeds ----------

  predicate Sound(g: Graph, bs: seq<Binding>, b: Binding) {
    b.switch != "" && b.host != b.switch && (b.host in Ids(g.nodes) || b.host in Switches(bs))
  }

  predicate AllSound(g: Graph, bs: seq<Binding>) {
    forall k :: 0 <= k < |bs| ==> Sound(g, bs, bs[k])
  }

  lemma NodeIsNamed(nodes: seq<Node>, id: string)
    requires id in Ids(nodes) && forall i :: 0 <= i < |nodes| ==> nodes[i].nodeId != ""
    ensures id != ""
  {
    var i :| 0 <= i < |nodes| && nodes[i].nodeId == id;
  }

  lemma NewEdgeAt(g: Graph, bs: seq<Binding>, i: nat)
    requires |g.edges| <= i < |Augmented(g, bs).edges|
    ensures AllTagged(bs, EdgeTags(bs))
    ensures var added := NewEdges(bs, EdgeKeys(g.edges), EdgeTags(bs));
      && |Augmented(g, bs).edges| == |g.edges| + |added|
      && Augmented(g, bs).edges[i] == added[i - |g.edges|]
    ensures IsNewEdge(Augmented(g, bs).edges[i], bs, EdgeKeys(g.edges), EdgeTags(bs))
  {
    hide EdgeTags;
    hide WithSwitches;
    hide EdgeKeys;
    hide IsNewEdge;
    TagsCover(bs);
    NewEdgesAre(bs, EdgeKeys(g.edges), EdgeTags(bs));
    var added := NewEdges(bs, EdgeKeys(g.edges), EdgeTags(bs));
    var n := i - |g.edges|;
    assert IsNewEdge(added[n], bs, EdgeKeys(g.edges), EdgeTags(bs));
  }

  lemma SoundIsValid(g: Graph, bs: seq<Binding>)
    requires Valid(g) && AllSound(g, bs)
    ensures Valid(Augmented(g, bs))
  {
    hide WithSwitches;
    hide NewEdges;
    hide EdgeTags;
    hide Ids;
    hide Switches;
    hide EdgeKeys;
    var r := Augmented(g, bs);
    var tags := EdgeTags(bs);
    TagsCover(bs);
    NodesGrow(g.nodes, bs);
    forall i | 0 <= i < |r.nodes|
      ensures r.nodes[i].nodeId != ""
    {
      if i >= |g.nodes| {
        assert IsNewSwitch(r.nodes[i], g.nodes, bs);
      } else {
        assert r.nodes[i] == g.nodes[i];
      }
    }
    forall i | 0 <= i < |r.edges|
      ensures EdgeOk(r.edges[i]) && Joins(r.edges[i], Ids(r.nodes))
    {
      if i < |g.edges| {
        assert EdgeOk(g.edges[i]) && Joins(g.edges[i], Ids(g.nodes));
        assert r.edges[i] == RefreshedEdge(g.edges[i], tags);
      } else {
        NewEdgeAt(g, bs, i);
        var k :| 0 <= k < |bs| && KeyOf(bs[k]) !in EdgeKeys(g.edges) && r.edges[i] == LanEdge(bs[k], tags);
        assert Sound(g, bs, bs[k]);
        SwitchIsListed(bs, k);
        NodeIsNamed(r.nodes, bs[k].host);
      }
    }
  }

  lemma SwitchIsListed(bs: seq<Binding>, k: nat)
    requires k < |bs|
    ensures bs[k].switch in Switches(bs)
  {
  }

  lemma KeyIsListed(edges: seq<Edge>, key: Key)
    ensures key in EdgeKeys(edges) <==> exists i :: 0 <= i < |edges| && EdgeKey(edges[i]) == key
  {
  }

  lemma ValidIsSound(g: Graph, bs: seq<Binding>, k: nat)
    requires Valid(g) && Valid(Augmented(g, bs)) && k < |bs|
    ensures Sound(g, bs, bs[k])
  {
    hide WithSwitches;
    hide NewEdges;
    hide EdgeTags;
    hide Ids;
    hide Switches;
    hide EdgeKeys;
    var r := Augmented(g, bs);
    var tags := EdgeTags(bs);
    TagsCover(bs);
    NodesGrow(g.nodes, bs);
    NewEdgesAre(bs, EdgeKeys(g.edges), tags);
    SwitchIsListed(bs, k);
    NodeIsNamed(r.nodes, bs[k].switch);
    KeyIsListed(g.edges, KeyOf(bs[k]));
    if KeyOf(bs[k]) in EdgeKeys(g.edges) {
      var i :| 0 <= i < |g.edges| && EdgeKey(g.edges[i]) == KeyOf(bs[k]);
      assert EdgeOk(g.edges[i]) && Joins(g.edges[i], Ids(g.nodes));
    } else {
      var es := NewEdges(bs, EdgeKeys(g.edges), tags);
      var i :| 0 <= i < |es| && es[i] == LanEdge(bs[k], tags);
      assert r.edges[|g.edges| + i] == es[i];
      assert EdgeOk(r.edges[|g.edges| + i]) && Joins(r.edges[|g.edges| + i], Ids(r.nodes));
    }
  }

  // It succeeds exactly when every binding names a switch, joins two nodes and has a known host.
  lemma SucceedsExactlyIf(g: Graph, bs: seq<Binding>)
    requires Valid(g)
    ensures Augment(g, bs).Ok? <==> AllSound(g, bs)
    ensures Augment(g, bs).Ok? ==> Valid(Augment(g, bs).value)
  {
    if AllSound(g, bs) {
      SoundIsValid(g, bs);
    }
    if Valid(Augmented(g, bs)) {
      forall k | 0 <= k < |bs|
        ensures Sound(g, bs, bs[k])
      {
        ValidIsSound(g, bs, k);
      }
    }
  }

  // ---------- What it yields ----------

  // Everything about an old edge but the tags, and no tag dropped; without a binding the edge itself.
  predicate Refines(was: Edge, refreshed: Edge, bs: seq<Binding>) {
    && refreshed.src == was.src && refreshed.dst == was.dst
    && refreshed.kind == was.kind && refreshed.capacity == was.capacity
    && was.tags.Keys <= refreshed.tags.Keys
    && ((forall k :: 0 <= k < |bs| ==> KeyOf(bs[k]) != EdgeKey(was)) ==> refreshed == was)
  }

  lemma OldEdgesKept(g: Graph, bs: seq<Binding>, i: nat)
    requires i < |g.edges|
    ensures |g.edges| <= |Augmented(g, bs).edges|
    ensures Refines(g.edges[i], Augmented(g, bs).edges[i], bs)
  {
    hide NewEdges;
    hide EdgeTags;
    hide WithSwitches;
    TagsCover(bs);
    assert Augmented(g, bs).edges[i] == RefreshedEdge(g.edges[i], EdgeTags(bs));
  }

  predicate HasEdge(edges: seq<Edge>, key: Key) {
    exists i :: 0 <= i < |edges| && EdgeKey(edges[i]) == key
  }

  lemma BoundIsJoined(g: Graph, bs: seq<Binding>, k: nat)
    requires k < |bs|
    ensures HasEdge(Augmented(g, bs).edges, KeyOf(bs[k]))
  {
    hide NewEdges;
    hide EdgeTags;
    hide WithSwitches;
    hide EdgeKeys;
    var tags := EdgeTags(bs);
    TagsCover(bs);
    NewEdgesAre(bs, EdgeKeys(g.edges), tags);
    KeyIsListed(g.edges, KeyOf(bs[k]));
    var r := Augmented(g, bs);
    if KeyOf(bs[k]) in EdgeKeys(g.edges) {
      var i :| 0 <= i < |g.edges| && EdgeKey(g.edges[i]) == KeyOf(bs[k]);
      assert r.edges[i] == RefreshedEdge(g.edges[i], tags);
      assert EdgeKey(r.edges[i]) == KeyOf(bs[k]);
    } else {
      var es := NewEdges(bs, EdgeKeys(g.edges), tags);
      var i :| 0 <= i < |es| && es[i] == LanEdge(bs[k], tags);
      assert r.edges[|g.edges| + i] == es[i];
      assert EdgeKey(r.edges[|g.edges| + i]) == KeyOf(bs[k]);
    }
  }

  // An added edge is a LAN edge of a binding whose nodes no old edge joined.
  predicate Added(e: Edge, g: Graph, bs: seq<Binding>) {
    && !HasEdge(g.edges, EdgeKey(e)) && e.kind == Lan && e.capacity.None?
    && exists k :: 0 <= k < |bs| && KeyOf(bs[k]) == EdgeKey(e)
  }

  lemma NewEdgesAdded(g: Graph, bs: seq<Binding>, i: nat)
    requires |g.edges| <= i < |Augmented(g, bs).edges|
    ensures Added(Augmented(g, bs).edges[i], g, bs)
  {
    hide NewEdges;
    hide EdgeTags;
    hide WithSwitches;
    hide EdgeKeys;
    var tags := EdgeTags(bs);
    TagsCover(bs);
    NewEdgeAt(g, bs, i);
    var e := Augmented(g, bs).edges[i];
    KeyIsListed(g.edges, EdgeKey(e));
  }

  // The old nodes first and then the missing switches; the old edges first, refreshed, and then one edge for
  // each binding that had none; an edge for every binding.
  lemma AugmentYields(g: Graph, bs: seq<Binding>)
    ensures var r := Augmented(g, bs);
      && NodesGrown(g.nodes, r.nodes, bs)
      && |g.edges| <= |r.edges|
      && (forall i :: 0 <= i < |g.edges| ==> Refines(g.edges[i], r.edges[i], bs))
      && (forall i :: |g.edges| <= i < |r.edges| ==> Added(r.edges[i], g, bs))
      && (forall k :: 0 <= k < |bs| ==> HasEdge(r.edges, KeyOf(bs[k])))
  {
    hide Refines;
    hide Added;
    hide HasEdge;
    hide NodesGrown;
    var r := Augmented(g, bs);
    NodesGrow(g.nodes, bs);
    forall i | 0 <= i < |g.edges|
      ensures Refines(g.edges[i], r.edges[i], bs)
    {
      OldEdgesKept(g, bs, i);
    }
    forall i | |g.edges| <= i < |r.edges|
      ensures Added(r.edges[i], g, bs)
    {
      NewEdgesAdded(g, bs, i);
    }
    forall k | 0 <= k < |bs|
      ensures HasEdge(r.edges, KeyOf(bs[k]))
    {
      BoundIsJoined(g, bs, k);
    }
  }

  // With one binding to a key no two added edges join the same nodes.
  lemma AddedOnce(g: Graph, bs: seq<Binding>)
    requires UniqueKeys(bs)
    ensures var es := Augmented(g, bs).edges;
      forall i, j :: |g.edges| <= i < j < |es| ==> EdgeKey(es[i]) != EdgeKey(es[j])
  {
    hide NewEdges;
    hide EdgeTags;
    hide WithSwitches;
    hide EdgeKeys;
    TagsCover(bs);
    var added := NewEdges(bs, EdgeKeys(g.edges), EdgeTags(bs));
    NewEdgesDiffer(bs, EdgeKeys(g.edges), EdgeTags(bs));
    var es := Augmented(g, bs).edges;
    forall i, j | |g.edges| <= i < j < |es|
      ensures EdgeKey(es[i]) != EdgeKey(es[j])
    {
      NewEdgeAt(g, bs, i);
      NewEdgeAt(g, bs, j);
      var m, n := i - |g.edges|, j - |g.edges|;
      assert EdgeKey(added[m]) != EdgeKey(added[n]);
    }
  }

  lemma {:induction false} OnlyTags(bs: seq<Binding>, k: nat)
    requires UniqueKeys(bs) && k < |bs|
    ensures KeyOf(bs[k]) in EdgeTags(bs) && EdgeTags(bs)[KeyOf(bs[k])] == TagsOf(bs[k])
  {
    var n := |bs| - 1;
    if k < n {
      OnlyTags(bs[..n], k);
    }
  }

  predicate ShowsTags(shown: Tags, b: Binding) {
    && "switch_port" in shown && shown["switch_port"] == b.port
    && "correlation" in shown && shown["correlation"] == b.correlation
    && "confidence" in shown && shown["confidence"] == b.confidence
    && (b.ifIndex.Some? ==> "if_index" in shown && shown["if_index"] == b.ifIndex.value)
  }

  const SHOWN_TAGS: set<string> := {"switch_port", "correlation", "confidence", "if_index"}

  // Every other tag is as it was.
  predicate KeepsTags(was: Tags, shown: Tags) {
    forall t :: t in was && t !in SHOWN_TAGS ==> t in shown && shown[t] == was[t]
  }

  lemma TagsShow(b: Binding)
    ensures ShowsTags(TagsOf(b), b) && TagsOf(b).Keys <= SHOWN_TAGS
  {
  }

  // With one binding to a key every edge between its nodes, old or new, shows its port, method, confidence
  // and index.
  lemma BoundEdgeShowsBinding(g: Graph, bs: seq<Binding>, k: nat, i: nat)
    requires UniqueKeys(bs) && k < |bs| && i < |Augmented(g, bs).edges|
    requires EdgeKey(Augmented(g, bs).edges[i]) == KeyOf(bs[k])
    ensures var shown := Augmented(g, bs).edges[i].tags;
      && (forall t :: t in TagsOf(bs[k]) ==> t in shown && shown[t] == TagsOf(bs[k])[t])
      && ShowsTags(shown, bs[k])
      && (i < |g.edges| ==> KeepsTags(g.edges[i].tags, shown))
  {
    hide NewEdges;
    hide EdgeTags;
    hide WithSwitches;
    hide EdgeKeys;
    TagsCover(bs);
    OnlyTags(bs, k);
    TagsShow(bs[k]);
    hide TagsOf;
    if i < |g.edges| {
      assert Augmented(g, bs).edges[i] == RefreshedEdge(g.edges[i], EdgeTags(bs));
    } else {
      NewEdgeAt(g, bs, i);
    }
  }

  // ---------- Twice is once ----------

  lemma {:induction false} NoMoreSwitches(nodes: seq<Node>, bs: seq<Binding>)
    requires Switches(bs) <= Ids(nodes)
    ensures WithSwitches(nodes, bs) == nodes
  {
    if bs != [] {
      SwitchesOfSnoc(bs);
      NoMoreSwitches(nodes, bs[..|bs| - 1]);
    }
  }

  lemma {:induction false} NoMoreEdges(bs: seq<Binding>, seen: set<Key>, tags: map<Key, Tags>)
    requires AllTagged(bs, tags) && forall k :: 0 <= k < |bs| ==> KeyOf(bs[k]) in seen
    ensures NewEdges(bs, seen, tags) == []
  {
    if bs != [] {
      var n := |bs| - 1;
      assert AllTagged(bs[..n], tags);
      assert forall k :: 0 <= k < n ==> bs[..n][k] == bs[k];
      NoMoreEdges(bs[..n], seen, tags);
    }
  }

  lemma RefreshedTwice(g: Graph, bs: seq<Binding>, i: nat)
    requires i < |Augmented(g, bs).edges|
    ensures RefreshedEdge(Augmented(g, bs).edges[i], EdgeTags(bs)) == Augmented(g, bs).edges[i]
  {
    hide NewEdges;
    hide EdgeTags;
    hide WithSwitches;
    hide EdgeKeys;
    var tags := EdgeTags(bs);
    TagsCover(bs);
    NewEdgesAre(bs, EdgeKeys(g.edges), tags);
    var e := Augmented(g, bs).edges[i];
    if i < |g.edges| {
      assert e == RefreshedEdge(g.edges[i], tags);
      if EdgeKey(e) in tags {
        assert g.edges[i].tags + tags[EdgeKey(e)] + tags[EdgeKey(e)] == g.edges[i].tags + tags[EdgeKey(e)];
      }
    } else {
      NewEdgeAt(g, bs, i);
      assert e.tags + e.tags == e.tags;
    }
  }

  lemma AugmentedTwice(g: Graph, bs: seq<Binding>)
    ensures Augmented(Augmented(g, bs), bs) == Augmented(g, bs)
  {
    hide NewEdges;
    hide EdgeTags;
    hide WithSwitches;
    hide EdgeKeys;
    hide RefreshedEdge;
    hide Ids;
    hide Switches;
    var once := Augmented(g, bs);
    var tags := EdgeTags(bs);
    TagsCover(bs);
    NodesGrow(g.nodes, bs);
    NoMoreSwitches(once.nodes, bs);
    forall k | 0 <= k < |bs|
      ensures KeyOf(bs[k]) in EdgeKeys(once.edges)
    {
      BoundIsJoined(g, bs, k);
      KeyIsListed(once.edges, KeyOf(bs[k]));
    }
    NoMoreEdges(bs, EdgeKeys(once.edges), tags);
    forall i | 0 <= i < |once.edges|
      ensures RefreshedEdge(once.edges[i], tags) == once.edges[i]
    {
      RefreshedTwice(g, bs, i);
    }
    assert RefreshedEdges(once.edges, tags) == once.edges;
  }

  // Augmenting the result again changes nothing, whether or not keys repeat.
  lemma AugmentIsIdempotent(g: Graph, bs: seq<Binding>)
    requires Augment(g, bs).Ok?
    ensures Augment(Augment(g, bs).value, bs) == Augment(g, bs)
  {
    AugmentedTwice(g, bs);
    hide Augmented;
  }

  // ---------- The loops ----------

  // What the edge's own validators refuse.
  predicate NoEdge(b: Binding) {
    b.host == "" || b.switch == "" || b.host == b.switch
  }

  // A node or an edge that cannot be built means the binding is not sound.
  lemma BadBindingFails(g: Graph, bs: seq<Binding>, k: nat)
    requires Valid(g) && k < |bs|
    requires NoEdge(bs[k])
    ensures Augment(g, bs) == Err(ValueError)
  {
    hide Augment;
    SucceedsExactlyIf(g, bs);
    AugmentFails(g, bs);
    if AllSound(g, bs) {
      HostIsNamed(g, bs, k);
    }
  }

  lemma HostIsNamed(g: Graph, bs: seq<Binding>, k: nat)
    requires Valid(g) && AllSound(g, bs) && k < |bs|
    ensures bs[k].host != ""
  {
    assert Sound(g, bs, bs[k]);
    if bs[k].host in Ids(g.nodes) {
      NodeIsNamed(g.nodes, bs[k].host);
    } else {
      var j :| 0 <= j < |bs| && bs[j].switch == bs[k].host;
      assert Sound(g, bs, bs[j]);
    }
  }

  lemma AugmentFails(g: Graph, bs: seq<Binding>)
    ensures !Augment(g, bs).Ok? ==> Augment(g, bs) == Err(ValueError)
  {
  }

  predicate Named(nodes: seq<Node>) {
    forall i :: 0 <= i < |nodes| ==> nodes[i].nodeId != ""
  }

  predicate EdgesOk(edges: seq<Edge>) {
    forall i :: 0 <= i < |edges| ==> EdgeOk(edges[i])
  }

  // What the constructors have not already checked is the check of the whole graph.
  lemma LeftToCheck(g: Graph, r: Graph)
    requires Valid(g) && r.name == g.name && Named(r.nodes) && EdgesOk(r.edges)
    ensures Valid(r) <==> UniqueIds(r.nodes) && forall i :: 0 <= i < |r.edges| ==> Joins(r.edges[i], Ids(r.nodes))
  {
    hide EdgeOk;
    hide Joins;
    hide UniqueIds;
  }

  lemma RefreshedOk(edges: seq<Edge>, tags: map<Key, Tags>)
    requires EdgesOk(edges)
    ensures EdgesOk(RefreshedEdges(edges, tags))
  {
  }

  // The loop over the old edges.
  method RefreshLoop(was: seq<Edge>, tags: map<Key, Tags>) returns (edges: seq<Edge>, seen: set<Key>)
    ensures edges == RefreshedEdges(was, tags)
    ensures seen == EdgeKeys(was) * tags.Keys
  {
    edges, seen := [], {};
    for n := 0 to |was|
      invariant |edges| == n && forall i :: 0 <= i < n ==> edges[i] == RefreshedEdge(was[i], tags)
      invariant forall key :: key in seen <==> key in tags && exists i :: 0 <= i < n && EdgeKey(was[i]) == key
    {
      var edge := was[n];
      var key := (edge.src, edge.dst);
      assert key == EdgeKey(was[n]);
      if key in tags {
        edges := edges + [Edge(edge.src, edge.dst, edge.kind, edge.capacity, edge.tags + tags[key])];
        seen := seen + {key};
      } else {
        edges := edges + [edge];
      }
    }
    forall key: Key
      ensures key in EdgeKeys(was) <==> exists i :: 0 <= i < |was| && EdgeKey(was[i]) == key
    {
      KeyIsListed(was, key);
    }
    assert edges == RefreshedEdges(was, tags);
  }

  // The loop over the bindings that adds switches; it fails at a switch without a name.
  method AddSwitches(was: seq<Node>, bs: seq<Binding>) returns (nodes: Result<seq<Node>>)
    requires Named(was)
    ensures nodes.Ok? ==> nodes.value == WithSwitches(was, bs) && Named(nodes.value)
    ensures nodes.Err? ==> nodes.error == ValueError && exists k :: 0 <= k < |bs| && bs[k].switch == ""
  {
    hide Ids;
    var grown := was;
    var known := Ids(grown);
    for n := 0 to |bs|
      invariant grown == WithSwitches(was, bs[..n]) && known == Ids(grown) && Named(grown)
    {
      var b := bs[n];
      assert bs[..n + 1][..n] == bs[..n];
      IdsOfSnoc(grown, SwitchFor(b));
      if b.switch !in known {
        if b.switch == "" {
          return Err(ValueError);
        }
        grown := grown + [SwitchFor(b)];
        known := known + {b.switch};
      }
    }
    assert bs[..|bs|] == bs;
    return Ok(grown);
  }

  method TagLoop(bs: seq<Binding>) returns (tags: map<Key, Tags>)
    ensures tags == EdgeTags(bs)
  {
    tags := map[];
    for n := 0 to |bs|
      invariant tags == EdgeTags(bs[..n])
    {
      assert bs[..n + 1][..n] == bs[..n];
      tags := tags[KeyOf(bs[n]) := TagsOf(bs[n])];
    }
    assert bs[..|bs|] == bs;
  }

  // The loop over the bindings that adds edges; it fails at an edge that joins no two named nodes.
  method AddEdges(bs: seq<Binding>, tags: map<Key, Tags>, seen: set<Key>) returns (edges: Result<seq<Edge>>)
    requires AllTagged(bs, tags)
    ensures edges.Ok? ==> edges.value == NewEdges(bs, seen, tags) && EdgesOk(edges.value)
    ensures edges.Err? ==> edges.error == ValueError && (exists k :: 0 <= k < |bs| && NoEdge(bs[k]))
  {
    var added: seq<Edge> := [];
    for n := 0 to |bs|
      invariant EdgesOk(added) && AllTagged(bs[..n], tags) && added == NewEdges(bs[..n], seen, tags)
    {
      var b := bs[n];
      assert bs[..n + 1][..n] == bs[..n];
      assert KeyOf(bs[n]) in tags;
      if KeyOf(b) in seen {
        continue;
      }
      if NoEdge(b) {
        return Err(ValueError);
      }
      added := added + [LanEdge(b, tags)];
    }
    assert bs[..|bs|] == bs;
    return Ok(added);
  }

  lemma {:induction false} SeenOrNot(bs: seq<Binding>, seen: set<Key>, all: set<Key>, tags: map<Key, Tags>)
    requires AllTagged(bs, tags) && seen == all * tags.Keys
    ensures NewEdges(bs, seen, tags) == NewEdges(bs, all, tags)
  {
    if bs != [] {
      assert AllTagged(bs[..|bs| - 1], tags);
      SeenOrNot(bs[..|bs| - 1], seen, all, tags);
    }
  }

  method AugmentTopologyWithBindings(g: Graph, bs: seq<Binding>) returns (r: Result<Graph>)
    requires Valid(g)
    ensures r == Augment(g, bs)
  {
    assert Named(g.nodes) && EdgesOk(g.edges) && g.name != "";
    hide Valid;
    hide Named;
    hide EdgesOk;
    hide RefreshedEdges;
    hide EdgeKeys;
    var nodes := AddSwitches(g.nodes, bs);
    if nodes.Err? {
      var k :| 0 <= k < |bs| && bs[k].switch == "";
      BadBindingFails(g, bs, k);
      return Err(ValueError);
    }
    var tags := TagLoop(bs);
    var edges, seen := RefreshLoop(g.edges, tags);
    RefreshedOk(g.edges, tags);
    TagsCover(bs);
    var added := AddEdges(bs, tags, seen);
    SeenOrNot(bs, seen, EdgeKeys(g.edges), tags);
    if added.Err? {
      var k :| 0 <= k < |bs| && NoEdge(bs[k]);
      BadBindingFails(g, bs, k);
      return Err(ValueError);
    }
    var result := g.(nodes := nodes.value, edges := edges + added.value);
    BothOk(edges, added.value);
    var ok := ValidateGraph(result);
    LeftToCheck(g, result);
    r := if ok then Ok(result) else Err(ValueError);
  }

  lemma BothOk(a: seq<Edge>, b: seq<Edge>)
    requires EdgesOk(a) && EdgesOk(b)
    ensures EdgesOk(a + b)
  {
  }
}
