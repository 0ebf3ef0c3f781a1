// The network graph and its validation.
module Topology {
  import opened Results

  datatype NodeRole = AgentNode | GatewayNode | SwitchNode | HostNode | TargetNode | ServiceNode

  datatype EdgeKind = Lan | Wan | Link

  type Tags = map<string, string>

  // title is the label of the node.
  datatype Node = Node(
    nodeId: string,
    title: Option<string>,
    role: NodeRole,
    agentId: Option<string>,
    address: Option<string>,
    tags: Tags
  )

  datatype Edge = Edge(src: string, dst: string, kind: EdgeKind, capacity: Option<real>, tags: Tags)

  datatype Graph = Graph(version: string, name: string, nodes: seq<Node>, edges: seq<Edge>)

  // ---------- Validation ----------

  function Ids(nodes: seq<Node>): set<string> {
    set i | 0 <= i < |nodes| :: nodes[i].nodeId
  }

  predicate EdgeOk(e: Edge) {
    e.src != "" && e.dst != "" && e.src != e.dst && (e.capacity.Some? ==> e.capacity.value > 0.0)
  }

  predicate UniqueIds(nodes: seq<Node>) {
    forall i, j :: 0 <= i < j < |nodes| ==> nodes[i].nodeId != nodes[j].nodeId
  }

  predicate Joins(e: Edge, known: set<string>) {
    e.src in known && e.dst in known
  }

  predicate Valid(g: Graph) {
    && g.name != ""
    && (forall i :: 0 <= i < |g.nodes| ==> g.nodes[i].nodeId != "")
    && (forall i :: 0 <= i < |g.edges| ==> EdgeOk(g.edges[i]))
    && UniqueIds(g.nodes)
    && (forall i :: 0 <= i < |g.edges| ==> Joins(g.edges[i], Ids(g.nodes)))
  }

  // validate_graph: no id twice, and every endpoint a declared node.
  method ValidateGraph(g: Graph) returns (ok: bool)
    ensures ok <==> UniqueIds(g.nodes) && forall i :: 0 <= i < |g.edges| ==> Joins(g.edges[i], Ids(g.nodes))
  {
    var known: set<string> := {};
    for n := 0 to |g.nodes|
      invariant known == Ids(g.nodes[..n])
      invariant forall i, j :: 0 <= i < j < n ==> g.nodes[i].nodeId != g.nodes[j].nodeId
    {
      if g.nodes[n].nodeId in known {
        assert !UniqueIds(g.nodes) by {
          var i :| 0 <= i < n && g.nodes[..n][i].nodeId == g.nodes[n].nodeId;
          assert g.nodes[i].nodeId == g.nodes[n].nodeId;
        }
        return false;
      }
      assert g.nodes[..n + 1] == g.nodes[..n] + [g.nodes[n]];
      IdsOfSnoc(g.nodes[..n], g.nodes[n]);
      known := known + {g.nodes[n].nodeId};
    }
    assert g.nodes[..|g.nodes|] == g.nodes;
    for n := 0 to |g.edges|
      invariant forall i :: 0 <= i < n ==> Joins(g.edges[i], Ids(g.nodes))
    {
      if g.edges[n].src !in known || g.edges[n].dst !in known {
        return false;
      }
    }
    return true;
  }

  lemma IdsOfSnoc(nodes: seq<Node>, node: Node)
    ensures Ids(nodes + [node]) == Ids(nodes) + {node.nodeId}
  {
    var more := nodes + [node];
    forall id | id in Ids(nodes)
      ensures id in Ids(more)
    {
      var i :| 0 <= i < |nodes| && nodes[i].nodeId == id;
      assert more[i].nodeId == id;
    }
    assert more[|nodes|].nodeId == node.nodeId;
  }
}
