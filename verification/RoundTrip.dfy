/** Writing a workflow out and reading it back: `parse` and `to_dict` are inverse on everything `parse` accepts. */
module RoundTrip {
  import opened Json
  import opened WorkflowModel
  import opened Definition

  // ---------------------------------------------------------------- to_dict

  function NodeDict(n: Node): Value {
    var fields := map["id" := Str(n.id), "type" := Str(KindName(n.kind)), "config" := Object(n.config)];
    Object(if n.maxVisits != 1 then fields["max_visits" := Int(n.maxVisits)] else fields)
  }

  function EdgeDict(e: Edge): Value {
    var fields := map["from" := Str(e.source), "to" := Str(e.target)];
    Object(if e.when.Some? then fields["when" := Str(LabelName(e.when.value))] else fields)
  }

  function TriggerDict(t: Trigger): Value {
    Object(map["type" := Str(t.kind), "filter" := Object(t.filter)])
  }

  function VariablesDict(variables: map<string, map<string, Value>>): Value {
    Object(map k | k in variables :: Object(variables[k]))
  }

  function PositionDict(p: Position): Value {
    Object(map["x" := Float(p.x), "y" := Float(p.y)])
  }

  function LayoutDict(layout: map<string, Position>): Value {
    Object(map k | k in layout :: PositionDict(layout[k]))
  }

  function NodesDict(nodes: seq<Node>): Value {
    List(seq(|nodes|, i requires 0 <= i < |nodes| => NodeDict(nodes[i])))
  }

  function EdgesDict(edges: seq<Edge>): Value {
    List(seq(|edges|, i requires 0 <= i < |edges| => EdgeDict(edges[i])))
  }

  /** `to_dict`: the canonical plain form. */
  function ToDict(wf: Workflow): map<string, Value> {
    var fields := map["schema" := Int(1), "name" := Str(wf.name), "description" := Str(wf.description),
                      "trigger" := TriggerDict(wf.trigger), "nodes" := NodesDict(wf.nodes),
                      "edges" := EdgesDict(wf.edges),
                      "variables" := VariablesDict(wf.variables)];
    if wf.layout != map[] then fields["layout" := LayoutDict(wf.layout)] else fields
  }

  // ---------------------------------------------------------------- part by part

  ghost predicate CanonicalNode(n: Node) {
    IsNodeId(n.id) && n.config.Keys <= AllowedConfig(n.kind) && 1 <= n.maxVisits <= MAX_VISITS_LIMIT
  }

  lemma EmptyOr(fields: map<string, Value>)
    ensures OrEmpty(Object(fields)) == Object(fields)
  {
  }

  lemma NodeReadsBack(n: Node)
    requires CanonicalNode(n)
    ensures NodeAccepted(NodeDict(n)) && ReadNode(NodeDict(n)) == n
  {
    hide AllowedConfig, IsNodeId, KindNamed, KindName, OrEmpty;
    NamesAreUnique(n.kind, IfTrue);
    EmptyOr(n.config);
    var d := NodeDict(n);
    assert Get(d.fields, "config") == Object(n.config);
  }

  lemma NodeReadIsCanonical(item: Value)
    requires NodeAccepted(item)
    ensures CanonicalNode(ReadNode(item))
  {
    hide AllowedConfig, IsNodeId, KindNamed, KindName, OrEmpty;
  }

  lemma EdgeReadsBack(e: Edge)
    ensures EdgeAccepted(EdgeDict(e)) && ReadEdge(EdgeDict(e)) == e
  {
    hide LabelNamed, LabelName;
    if e.when.Some? { NamesAreUnique(Agent, e.when.value); }
  }

  lemma TriggerReadsBack(t: Trigger)
    requires t.kind != ""
    ensures TriggerAccepted(TriggerDict(t)) && ReadTrigger(TriggerDict(t)) == t
  {
    EmptyOr(t.filter);
  }

  lemma VariablesReadBack(variables: map<string, map<string, Value>>)
    ensures VariablesAccepted(VariablesDict(variables)) && ReadVariables(VariablesDict(variables)) == variables
  {
    EmptyOr(VariablesDict(variables).fields);
  }

  ghost predicate CanonicalPosition(p: Position) {
    -MAX_COORDINATE <= p.x <= MAX_COORDINATE && -MAX_COORDINATE <= p.y <= MAX_COORDINATE
  }

  lemma PositionReadsBack(p: Position)
    requires CanonicalPosition(p)
    ensures PositionAccepted(PositionDict(p)) && ReadPosition(PositionDict(p)) == p
  {
    var d := PositionDict(p);
    assert d.fields.Keys == {"x", "y"};
  }

  ghost predicate CanonicalLayout(layout: map<string, Position>, known: set<string>) {
    forall k :: k in layout ==> k in known && CanonicalPosition(layout[k])
  }

  lemma LayoutReadsBack(layout: map<string, Position>, known: set<string>)
    requires CanonicalLayout(layout, known)
    ensures LayoutAccepted(LayoutDict(layout), known) && ReadLayout(LayoutDict(layout), known) == layout
  {
    hide PositionAccepted, ReadPosition, PositionDict;
    EmptyOr(LayoutDict(layout).fields);
    forall k | k in layout
        ensures PositionAccepted(PositionDict(layout[k])) && ReadPosition(PositionDict(layout[k])) == layout[k] {
      PositionReadsBack(layout[k]);
    }
  }

  lemma NodesReadBack(nodes: seq<Node>)
    requires 1 <= |nodes| <= MAX_NODES && forall i :: 0 <= i < |nodes| ==> CanonicalNode(nodes[i])
    ensures NodesAccepted(NodesDict(nodes)) && ReadNodes(NodesDict(nodes).items) == nodes
  {
    hide NodeAccepted, ReadNode, NodeDict, CanonicalNode;
    forall i | 0 <= i < |nodes| ensures NodeAccepted(NodeDict(nodes[i])) && ReadNode(NodeDict(nodes[i])) == nodes[i] {
      NodeReadsBack(nodes[i]);
    }
  }

  lemma EdgesReadBack(edges: seq<Edge>)
    ensures EdgesAccepted(EdgesDict(edges)) && ReadEdges(EdgeItems(EdgesDict(edges)).value) == edges
  {
    hide EdgeAccepted, ReadEdge, EdgeDict;
    forall i | 0 <= i < |edges| ensures EdgeAccepted(EdgeDict(edges[i])) && ReadEdge(EdgeDict(edges[i])) == edges[i] {
      EdgeReadsBack(edges[i]);
    }
  }

  // ---------------------------------------------------------------- the whole

  /** What every parsed workflow satisfies. */
  ghost predicate Canonical(wf: Workflow) {
    && IsWorkflowName(wf.name)
    && wf.trigger.kind != ""
    && 1 <= |wf.nodes| <= MAX_NODES
    && (forall i :: 0 <= i < |wf.nodes| ==> CanonicalNode(wf.nodes[i]))
    && CanonicalLayout(wf.layout, IdSet(wf.nodes))
  }

  lemma ReadingIsCanonical(raw: map<string, Value>, text: Value -> string)
    requires Acceptable(raw)
    ensures Canonical(Reading(raw, text))
  {
    hide NodeAccepted, ReadNode, CanonicalNode, EdgeAccepted, ReadEdge, IsWorkflowName;
    var items := Get(raw, "nodes").items;
    forall i | 0 <= i < |items| ensures CanonicalNode(ReadNode(items[i])) { NodeReadIsCanonical(items[i]); }
  }

  /** The fields of the plain form, one by one. */
  lemma DictFields(wf: Workflow)
    ensures var d := ToDict(wf);
            && d.Keys <= TOP_LEVEL && "schema" in d && d["schema"] == Int(1)
            && Get(d, "name") == Str(wf.name) && Get(d, "description") == Str(wf.description)
            && Get(d, "trigger") == TriggerDict(wf.trigger) && Get(d, "nodes") == NodesDict(wf.nodes)
            && Get(d, "edges") == EdgesDict(wf.edges) && Get(d, "variables") == VariablesDict(wf.variables)
            && Get(d, "layout") == (if wf.layout != map[] then LayoutDict(wf.layout) else Null)
  {
    hide TriggerDict, NodesDict, EdgesDict, VariablesDict, LayoutDict;
  }

  lemma NoLayout(known: set<string>)
    ensures LayoutAccepted(Null, known) && ReadLayout(Null, known) == map[]
  {
  }

  /** Writing out and reading back gives the same workflow. */
  lemma WriteThenRead(wf: Workflow, text: Value -> string)
    requires Canonical(wf)
    ensures Acceptable(ToDict(wf)) && Reading(ToDict(wf), text) == wf
  {
    hide TriggerDict, NodesDict, EdgesDict, VariablesDict, LayoutDict, ToDict, TriggerAccepted, ReadTrigger,
      NodesAccepted, ReadNodes, EdgesAccepted, ReadEdges, VariablesAccepted, ReadVariables, LayoutAccepted, ReadLayout,
      IsWorkflowName, CanonicalNode;
    DictFields(wf);
    TriggerReadsBack(wf.trigger);
    NodesReadBack(wf.nodes);
    EdgesReadBack(wf.edges);
    VariablesReadBack(wf.variables);
    LayoutReadsBack(wf.layout, IdSet(wf.nodes));
    NoLayout(IdSet(wf.nodes));
  }

  /** `parse(to_dict(parse(raw))) == parse(raw)`, and `to_dict` after `parse` is a fixed point. */
  lemma ReadThenWriteThenRead(raw: map<string, Value>, text: Value -> string)
    requires Acceptable(raw)
    ensures var wf := Reading(raw, text);
            Acceptable(ToDict(wf)) && Reading(ToDict(wf), text) == wf && ToDict(Reading(ToDict(wf), text)) == ToDict(wf)
  {
    hide Acceptable, Reading, ToDict, Canonical;
    ReadingIsCanonical(raw, text);
    WriteThenRead(Reading(raw, text), text);
  }

  /** No node and no edge of an accepted definition is dropped, reordered or renamed. */
  lemma NothingDropped(raw: map<string, Value>, text: Value -> string, i: nat)
    requires Acceptable(raw)
    ensures var wf := Reading(raw, text);
            && |wf.nodes| == |Get(raw, "nodes").items|
            && (i < |wf.nodes| ==> Get(Get(raw, "nodes").items[i].fields, "id") == Str(wf.nodes[i].id)
                                   && Get(Get(raw, "nodes").items[i].fields, "type") == Str(KindName(wf.nodes[i].kind)))
            && (Get(raw, "edges").List? ==> |wf.edges| == |Get(raw, "edges").items|)
            && (Get(raw, "edges").List? && i < |wf.edges| ==>
                  Get(Get(raw, "edges").items[i].fields, "from") == Str(wf.edges[i].source)
                  && Get(Get(raw, "edges").items[i].fields, "to") == Str(wf.edges[i].target))
  {
    hide AllowedConfig, IsNodeId, KindName, LabelNamed, LayoutAccepted, VariablesAccepted, TriggerAccepted;
    if i < |Get(raw, "nodes").items| { assert NodeAccepted(Get(raw, "nodes").items[i]); }
    if Get(raw, "edges").List? && i < |Get(raw, "edges").items| {
      assert EdgeAccepted(EdgeItems(Get(raw, "edges")).value[i]);
    }
  }
}
