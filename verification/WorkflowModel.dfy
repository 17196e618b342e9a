/** The workflow definition: nodes, edges and the accessors the validator and the engine share. */
module WorkflowModel {
  import opened Wrappers
  import opened Json

  const MAX_NODES := 200
  const MAX_VISITS_LIMIT := 20

  datatype NodeType = Agent | Action | Condition | Approval | WaitEvent | Timer | End

  datatype Node = Node(id: string, kind: NodeType, config: map<string, Value>, maxVisits: int)

  /** The labels an edge may carry (`EDGE_LABELS`). */
  datatype Label = IfTrue | IfFalse | Approved | Denied | TimedOut | Failed

  datatype Edge = Edge(source: string, target: string, when: Option<Label>)

  datatype Trigger = Trigger(kind: string, filter: map<string, Value>)

  datatype Position = Position(x: real, y: real)

  datatype Workflow = Workflow(
    name: string,
    trigger: Trigger,
    nodes: seq<Node>,
    edges: seq<Edge>,
    variables: map<string, map<string, Value>>,
    description: string,
    layout: map<string, Position>)

  /** The ids of `nodes`, in order. */
  function Ids(nodes: seq<Node>): (ids: seq<string>)
    ensures |ids| == |nodes|
    ensures forall i :: 0 <= i < |nodes| ==> ids[i] == nodes[i].id
  {
    seq(|nodes|, i requires 0 <= i < |nodes| => nodes[i].id)
  }

  predicate HasEdge(edges: seq<Edge>, a: string, b: string) {
    exists i :: 0 <= i < |edges| && edges[i].source == a && edges[i].target == b
  }

  /** The edges leaving `id`, in definition order. */
  function Outgoing(edges: seq<Edge>, id: string): (out: seq<Edge>)
    ensures forall e :: e in out <==> e in edges && e.source == id
  {
    if edges == [] then []
    else if edges[0].source == id then
      assert forall e :: e in edges <==> e == edges[0] || e in edges[1..];
      [edges[0]] + Outgoing(edges[1..], id)
    else
      assert forall e :: e in edges <==> e == edges[0] || e in edges[1..];
      Outgoing(edges[1..], id)
  }

  /** The edges arriving at `id`, in definition order. */
  function Incoming(edges: seq<Edge>, id: string): (out: seq<Edge>)
    ensures forall e :: e in out <==> e in edges && e.target == id
  {
    if edges == [] then []
    else if edges[0].target == id then
      assert forall e :: e in edges <==> e == edges[0] || e in edges[1..];
      [edges[0]] + Incoming(edges[1..], id)
    else
      assert forall e :: e in edges <==> e == edges[0] || e in edges[1..];
      Incoming(edges[1..], id)
  }

  function Targets(edges: seq<Edge>): (ids: seq<string>)
    ensures |ids| == |edges| && forall i :: 0 <= i < |ids| ==> ids[i] == edges[i].target
  {
    seq(|edges|, i requires 0 <= i < |edges| => edges[i].target)
  }

  function Sources(edges: seq<Edge>): (ids: seq<string>)
    ensures |ids| == |edges| && forall i :: 0 <= i < |ids| ==> ids[i] == edges[i].source
  {
    seq(|edges|, i requires 0 <= i < |edges| => edges[i].source)
  }

  /** The successor ids of `id` along `edges`. */
  function Successors(edges: seq<Edge>, id: string): (ids: seq<string>)
    ensures forall b :: b in ids <==> HasEdge(edges, id, b)
  {
    var out := Outgoing(edges, id);
    var ids := Targets(out);
    assert forall i :: 0 <= i < |out| ==> out[i] in edges;
    assert forall e :: e in edges && e.source == id ==> e in out;
    assert forall b :: HasEdge(edges, id, b) ==> b in ids by {
      forall b | HasEdge(edges, id, b) ensures b in ids {
        var i :| 0 <= i < |edges| && edges[i].source == id && edges[i].target == b;
        assert edges[i] in out;
        var j :| 0 <= j < |out| && out[j] == edges[i];
        assert ids[j] == b;
      }
    }
    ids
  }

  /** The predecessor ids of `id` along `edges`. */
  function Predecessors(edges: seq<Edge>, id: string): (ids: seq<string>)
    ensures forall a :: a in ids <==> HasEdge(edges, a, id)
  {
    var out := Incoming(edges, id);
    var ids := Sources(out);
    assert forall i :: 0 <= i < |out| ==> out[i] in edges;
    assert forall a :: HasEdge(edges, a, id) ==> a in ids by {
      forall a | HasEdge(edges, a, id) ensures a in ids {
        var i :| 0 <= i < |edges| && edges[i].source == a && edges[i].target == id;
        assert edges[i] in out;
        var j :| 0 <= j < |out| && out[j] == edges[i];
        assert ids[j] == a;
      }
    }
    ids
  }

  predicate Targeted(edges: seq<Edge>, id: string) {
    exists e :: e in edges && e.target == id
  }

  /** The nodes nothing points at. */
  function Entries(wf: Workflow): (entries: seq<Node>)
    ensures forall n :: n in entries <==> n in wf.nodes && !Targeted(wf.edges, n.id)
  {
    EntriesAmong(wf.nodes, wf.edges)
  }

  function EntriesAmong(nodes: seq<Node>, edges: seq<Edge>): (entries: seq<Node>)
    ensures forall n :: n in entries <==> n in nodes && !Targeted(edges, n.id)
  {
    if nodes == [] then []
    else
      assert forall n :: n in nodes <==> n == nodes[0] || n in nodes[1..];
      var rest := EntriesAmong(nodes[1..], edges);
      if Targeted(edges, nodes[0].id) then rest else [nodes[0]] + rest
  }

  ghost predicate HasNode(wf: Workflow, id: string) {
    exists n :: n in wf.nodes && n.id == id
  }

  /** `wf.node(id)`: the first node with that id (the source raises StopIteration when there is none). */
  function NodeById(nodes: seq<Node>, id: string): (n: Node)
    requires exists x :: x in nodes && x.id == id
    ensures n in nodes && n.id == id
  {
    if nodes[0].id == id then nodes[0]
    else
      assert forall n :: n in nodes <==> n == nodes[0] || n in nodes[1..];
      NodeById(nodes[1..], id)
  }

  ghost predicate NoDuplicateIds(wf: Workflow) {
    forall i, j :: 0 <= i < j < |wf.nodes| ==> wf.nodes[i].id != wf.nodes[j].id
  }

  ghost predicate NoDanglingEdges(wf: Workflow) {
    forall e :: e in wf.edges ==> HasNode(wf, e.source) && HasNode(wf, e.target)
  }

  /** The graph the structural checks of the validator assume. */
  ghost predicate WellFormed(wf: Workflow) {
    NoDuplicateIds(wf) && NoDanglingEdges(wf)
  }

  lemma NodeByIdIs(wf: Workflow, n: Node)
    requires NoDuplicateIds(wf) && n in wf.nodes
    ensures NodeById(wf.nodes, n.id) == n
  {
    var m := NodeById(wf.nodes, n.id);
    var i :| 0 <= i < |wf.nodes| && wf.nodes[i] == n;
    var j :| 0 <= j < |wf.nodes| && wf.nodes[j] == m;
  }
}
