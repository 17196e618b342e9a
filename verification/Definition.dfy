/**
 Reading and writing workflow definitions. `Parse` is the source's parser, proved to accept exactly the
 definitions that satisfy `Acceptable` and to produce their `Reading`; `ToDict` is the canonical plain form.
 */
module Definition {
  import opened Wrappers
  import opened Json
  import opened Templates
  import opened WorkflowModel

  /** The stable codes of structural problems. */
  datatype Defect =
    | UnknownField
    | SchemaVersion
    | Name
    | BadTrigger
    | TriggerFilter
    | NoNodes
    | TooManyNodes
    | NodeId
    | BadNodeType
    | Config
    | UnknownConfig
    | MaxVisits
    | BadEdge
    | EdgeLabel
    | Variables
    | Layout

  /** `Rejected` is the DefinitionError; `Raised` a TypeError from data Python cannot iterate or hash. */
  datatype Parsed = Accepted(wf: Workflow) | Rejected(defects: seq<Defect>) | Raised

  // ---------------------------------------------------------------- names

  function KindName(kind: NodeType): string {
    match kind
    case Agent => "agent"
    case Action => "action"
    case Condition => "condition"
    case Approval => "approval"
    case WaitEvent => "wait_event"
    case Timer => "timer"
    case End => "end"
  }

  /** `NodeType(name)`. */
  function KindNamed(name: string): (kind: Option<NodeType>)
    ensures kind.Some? ==> KindName(kind.value) == name
  {
    if name == "agent" then Some(Agent)
    else if name == "action" then Some(Action)
    else if name == "condition" then Some(Condition)
    else if name == "approval" then Some(Approval)
    else if name == "wait_event" then Some(WaitEvent)
    else if name == "timer" then Some(Timer)
    else if name == "end" then Some(End)
    else None
  }

  function LabelName(label': Label): string {
    match label'
    case IfTrue => "true"
    case IfFalse => "false"
    case Approved => "approved"
    case Denied => "denied"
    case TimedOut => "timeout"
    case Failed => "failed"
  }

  function LabelNamed(name: string): (r: Option<Label>)
    ensures r.Some? ==> LabelName(r.value) == name
  {
    if name == "true" then Some(IfTrue)
    else if name == "false" then Some(IfFalse)
    else if name == "approved" then Some(Approved)
    else if name == "denied" then Some(Denied)
    else if name == "timeout" then Some(TimedOut)
    else if name == "failed" then Some(Failed)
    else None
  }

  lemma NamesAreUnique(kind: NodeType, l: Label)
    ensures KindNamed(KindName(kind)) == Some(kind) && LabelNamed(LabelName(l)) == Some(l)
  {
    assert |"agent"| == 5 && |"action"| == 6 && |"condition"| == 9 && |"approval"| == 8 && |"wait_event"| == 10
        && |"timer"| == 5 && |"end"| == 3;
    assert "agent"[0] == 'a' && "timer"[0] == 't';
    assert |"true"| == 4 && |"false"| == 5 && |"approved"| == 8 && |"denied"| == 6 && |"timeout"| == 7
        && |"failed"| == 6;
    assert "denied"[0] == 'd' && "failed"[0] == 'f';
  }

  /** What each node type may carry in its config. */
  function AllowedConfig(kind: NodeType): set<string> {
    match kind
    case Agent => {"task", "repo", "provider", "model", "base_url", "overrides", "on_failure"}
    case Action => {"action", "params", "on_failure"}
    case Condition => {"if"}
    case Approval => {"message", "timeout_s"}
    case WaitEvent => {"event", "filter", "timeout_s"}
    case Timer => {"seconds"}
    case End => {"result"}
  }

  predicate IsLetter(c: char) {
    'A' <= c <= 'Z' || 'a' <= c <= 'z'
  }

  predicate IsDigit(c: char) {
    '0' <= c <= '9'
  }

  /** `[A-Za-z0-9][A-Za-z0-9 _.\-]{0,63}` */
  predicate IsWorkflowName(s: string) {
    && 1 <= |s| <= 64 && (IsLetter(s[0]) || IsDigit(s[0]))
    && forall i :: 1 <= i < |s| ==>
       IsLetter(s[i]) || IsDigit(s[i]) || s[i] == ' ' || s[i] == '_' || s[i] == '.' || s[i] == '-'
  }

  /** `[A-Za-z][A-Za-z0-9_]{0,40}` */
  predicate IsNodeId(s: string) {
    && 1 <= |s| <= 41 && IsLetter(s[0])
    && forall i :: 1 <= i < |s| ==> IsLetter(s[i]) || IsDigit(s[i]) || s[i] == '_'
  }

  // ---------------------------------------------------------------- one node

  function When(broken: bool, defect: Defect): (r: seq<Defect>)
    ensures |r| == if broken then 1 else 0
  {
    if broken then [defect] else []
  }

  /** `x or {}` for a value that should be a mapping. */
  function OrEmpty(v: Value): Value {
    if Truthy(v) then v else Object(map[])
  }

  /** What makes an item of `nodes` a node. */
  ghost predicate NodeAccepted(item: Value) {
    && item.Object?
    && Get(item.fields, "id").Str? && IsNodeId(Get(item.fields, "id").text)
    && Get(item.fields, "type").Str? && KindNamed(Get(item.fields, "type").text).Some?
    && item.fields.Keys <= {"id", "type", "config", "max_visits"}
    && OrEmpty(Get(item.fields, "config")).Object?
    && OrEmpty(Get(item.fields, "config")).fields.Keys <= AllowedConfig(KindNamed(Get(item.fields, "type").text).value)
    && ("max_visits" in item.fields ==>
       item.fields["max_visits"].Int? && 1 <= item.fields["max_visits"].n <= MAX_VISITS_LIMIT)
  }

  /** The node an accepted item describes. */
  function ReadNode(item: Value): Node
    requires NodeAccepted(item)
  {
    Node(item.fields["id"].text,
         KindNamed(item.fields["type"].text).value,
         OrEmpty(Get(item.fields, "config")).fields,
         if "max_visits" in item.fields then item.fields["max_visits"].n else 1)
  }

  /** The body of the node loop: the defects it reports and the node it appends, if any. */
  function NodeItem(item: Value): (seq<Defect>, Option<Node>) {
    if !item.Object? || !Get(item.fields, "id").Str? || !IsNodeId(Get(item.fields, "id").text) then ([NodeId], None)
    else if !Get(item.fields, "type").Str? || KindNamed(Get(item.fields, "type").text).None? then ([BadNodeType], None)
    else
      var kind := KindNamed(item.fields["type"].text).value;
      var given := OrEmpty(Get(item.fields, "config"));
      var config := if given.Object? then given.fields else map[];
      var visits := if "max_visits" in item.fields then item.fields["max_visits"] else Int(1);
      var bounded := visits.Int? && 1 <= visits.n <= MAX_VISITS_LIMIT;
      (When(!(item.fields.Keys <= {"id", "type", "config", "max_visits"}), UnknownField)
       + When(!given.Object?, Config)
       + When(!(config.Keys <= AllowedConfig(kind)), UnknownConfig)
       + When(!bounded, MaxVisits),
       Some(Node(item.fields["id"].text, kind, config, if bounded then visits.n else 1)))
  }

  lemma NodeItemExact(item: Value)
    ensures NodeItem(item).0 == [] <==> NodeAccepted(item)
    ensures NodeAccepted(item) ==> NodeItem(item).1 == Some(ReadNode(item))
  {
    hide KindNamed, AllowedConfig, IsNodeId;
  }

  // ---------------------------------------------------------------- one edge

  ghost predicate EdgeAccepted(item: Value) {
    && item.Object?
    && Get(item.fields, "from").Str? && Get(item.fields, "to").Str?
    && (Get(item.fields, "when") == Null || (Get(item.fields, "when").Str?
       && LabelNamed(Get(item.fields, "when").text).Some?))
    && item.fields.Keys <= {"from", "to", "when"}
  }

  function ReadEdge(item: Value): Edge
    requires EdgeAccepted(item)
  {
    var when := Get(item.fields, "when");
    Edge(item.fields["from"].text, item.fields["to"].text, if when == Null then None else LabelNamed(when.text))
  }

  /** An edge whose `when` Python cannot look up in a set. */
  ghost predicate EdgeRaises(item: Value) {
    item.Object? && Get(item.fields, "from").Str? && Get(item.fields, "to").Str? && !Hashable(Get(item.fields, "when"))
  }

  /** The body of the edge loop, for an item that does not raise. */
  function EdgeItem(item: Value): (seq<Defect>, Option<Edge>) {
    if !item.Object? || !Get(item.fields, "from").Str? || !Get(item.fields, "to").Str? then ([BadEdge], None)
    else
      var when := Get(item.fields, "when");
      var known := if when.Str? then LabelNamed(when.text) else None;
      (When(when != Null && known.None?, EdgeLabel) + When(!(item.fields.Keys <= {"from", "to", "when"}), UnknownField),
       Some(Edge(item.fields["from"].text, item.fields["to"].text, known)))
  }

  lemma EdgeItemExact(item: Value)
    ensures EdgeItem(item).0 == [] && !EdgeRaises(item) <==> EdgeAccepted(item)
    ensures EdgeAccepted(item) ==> EdgeItem(item).1 == Some(ReadEdge(item))
  {
    hide LabelNamed;
  }

  // ---------------------------------------------------------------- the loops

  /** Every defect of the first `k` items, and the nodes and edges made of them, in order. */
  ghost function NodeDefects(items: seq<Value>, k: nat): seq<Defect>
    requires k <= |items|
  {
    if k == 0 then [] else NodeDefects(items, k - 1) + NodeItem(items[k - 1]).0
  }

  ghost function NodesMade(items: seq<Value>, k: nat): seq<Node>
    requires k <= |items|
  {
    if k == 0 then []
    else
      var made := NodeItem(items[k - 1]).1;
      if made.Some? then NodesMade(items, k - 1) + [made.value] else NodesMade(items, k - 1)
  }

  ghost function EdgeDefects(items: seq<Value>, k: nat): seq<Defect>
    requires k <= |items|
  {
    if k == 0 then [] else EdgeDefects(items, k - 1) + EdgeItem(items[k - 1]).0
  }

  /** The node loop: no defects exactly when every item is a node, and then the nodes are theirs, in order. */
  method ParseNodes(items: seq<Value>) returns (nodes: seq<Node>, defects: seq<Defect>)
    ensures defects == [] <==> forall i :: 0 <= i < |items| ==> NodeAccepted(items[i])
    ensures defects == [] ==> |nodes| == |items| && forall i :: 0 <= i < |items| ==> nodes[i] == ReadNode(items[i])
    ensures defects == NodeDefects(items, |items|) && nodes == NodesMade(items, |items|)
  {
    hide NodeAccepted, ReadNode, NodeItem;
    nodes, defects := [], [];
    for k := 0 to |items|
      invariant defects == [] <==> forall i :: 0 <= i < k ==> NodeAccepted(items[i])
      invariant defects == [] ==> |nodes| == k && forall i :: 0 <= i < k ==> nodes[i] == ReadNode(items[i])
      invariant defects == NodeDefects(items, k) && nodes == NodesMade(items, k)
    {
      NodeItemExact(items[k]);
      var (found, node) := NodeItem(items[k]);
      if node.Some? {
        nodes := nodes + [node.value];
      }
      defects := defects + found;
    }
  }

  /** The edge loop. */
  method ParseEdges(items: seq<Value>) returns (edges: seq<Edge>, defects: seq<Defect>, raised: bool)
    ensures raised <==> exists i :: 0 <= i < |items| && EdgeRaises(items[i])
    ensures !raised ==> (defects == [] <==> forall i :: 0 <= i < |items| ==> EdgeAccepted(items[i]))
    ensures !raised && defects == [] ==> |edges| == |items| && forall i :: 0 <= i < |items| ==>
            edges[i] == ReadEdge(items[i])
    ensures !raised ==> defects == EdgeDefects(items, |items|)
  {
    hide EdgeAccepted, ReadEdge, EdgeItem;
    edges, defects, raised := [], [], false;
    for k := 0 to |items|
      invariant forall i :: 0 <= i < k ==> !EdgeRaises(items[i])
      invariant defects == [] <==> forall i :: 0 <= i < k ==> EdgeAccepted(items[i])
      invariant defects == [] ==> |edges| == k && forall i :: 0 <= i < k ==> edges[i] == ReadEdge(items[i])
      invariant defects == EdgeDefects(items, k)
    {
      var item := items[k];
      if item.Object? && Get(item.fields, "from").Str? && Get(item.fields, "to").Str?
          && !Hashable(Get(item.fields, "when")) {
        raised := true;
        return;
      }
      EdgeItemExact(item);
      var (found, edge) := EdgeItem(item);
      if edge.Some? {
        edges := edges + [edge.value];
      }
      defects := defects + found;
    }
  }

  // ---------------------------------------------------------------- layout

  const MAX_COORDINATE := 100000.0

  function Coordinate(v: Value): Option<real> {
    match v
    case Int(n) => Some(n as real)
    case Float(x) => Some(x)
    case _ => None
  }

  predicate PositionAccepted(v: Value) {
    && v.Object? && v.fields.Keys == {"x", "y"}
    && (forall k :: k in v.fields ==>
       Coordinate(v.fields[k]).Some? && -MAX_COORDINATE <= Coordinate(v.fields[k]).value <= MAX_COORDINATE)
  }

  function ReadPosition(v: Value): Position
    requires PositionAccepted(v)
  {
    Position(Coordinate(v.fields["x"]).value, Coordinate(v.fields["y"]).value)
  }

  /** The layout entries that are not a position of a known node. */
  ghost function Misplaced(entries: map<string, Value>, known: set<string>): set<string> {
    set id | id in entries && !(id in known && PositionAccepted(entries[id]))
  }

  /** As many times the same defect. */
  ghost function Times(n: nat, d: Defect): seq<Defect> {
    seq(n, i => d)
  }

  lemma TimesMore(n: nat, d: Defect)
    ensures Times(n, d) + [d] == Times(n + 1, d)
  {
  }

  /** The layout loop, in whatever order the mapping is walked. */
  method ParseLayout(entries: map<string, Value>, known: set<string>)
    returns (layout: map<string, Position>, defects: seq<Defect>)
    ensures defects == [] <==> forall id :: id in entries ==> id in known && PositionAccepted(entries[id])
    ensures defects == [] ==> layout.Keys == entries.Keys && forall id :: id in entries ==>
            layout[id] == ReadPosition(entries[id])
    ensures defects == Times(|Misplaced(entries, known)|, Layout)
  {
    hide PositionAccepted, ReadPosition, Misplaced, Times, Tallied;
    layout, defects := map[], [];
    var todo := entries.Keys;
    LayoutStart(entries, known);
    while todo != {}
      invariant todo <= entries.Keys
      invariant forall id :: id in layout ==>
                id in entries && PositionAccepted(entries[id]) && layout[id] == ReadPosition(entries[id])
      invariant defects == [] ==> layout.Keys == entries.Keys - todo
      invariant Tallied(entries, known, todo, defects)
      decreases todo
    {
      var id :| id in todo;
      assert todo - {id} + {id} == todo;
      todo := todo - {id};
      TalliedStep(entries, known, todo, id, defects);
      if id !in known || !PositionAccepted(entries[id]) {
        defects := defects + [Layout];
      } else {
        layout := layout[id := ReadPosition(entries[id])];
      }
    }
    NoneMisplaced(entries, known, defects);
  }

  /** One defect per misplaced entry walked so far. */
  ghost predicate Tallied(entries: map<string, Value>, known: set<string>, todo: set<string>, defects: seq<Defect>) {
    defects == Times(|Misplaced(entries, known) - todo|, Layout)
  }

  lemma TalliedStep(entries: map<string, Value>, known: set<string>, todo: set<string>, id: string,
      defects: seq<Defect>)
    requires id in entries && id !in todo && Tallied(entries, known, todo + {id}, defects)
    ensures var ok := id in known && PositionAccepted(entries[id]);
            Tallied(entries, known, todo, if ok then defects else defects + [Layout])
  {
    hide PositionAccepted;
    var all := Misplaced(entries, known);
    if id in all {
      assert all - todo == all - (todo + {id}) + {id};
      TimesMore(|all - (todo + {id})|, Layout);
    } else {
      assert all - todo == all - (todo + {id});
    }
  }

  lemma LayoutStart(entries: map<string, Value>, known: set<string>)
    ensures Tallied(entries, known, entries.Keys, [])
  {
    hide PositionAccepted;
    assert Misplaced(entries, known) - entries.Keys == {};
  }

  lemma NoneMisplaced(entries: map<string, Value>, known: set<string>, defects: seq<Defect>)
    requires Tallied(entries, known, {}, defects)
    ensures defects == Times(|Misplaced(entries, known)|, Layout)
    ensures defects == [] <==> forall id :: id in entries ==> id in known && PositionAccepted(entries[id])
  {
    hide PositionAccepted;
    assert Misplaced(entries, known) - {} == Misplaced(entries, known);
    assert |defects| == |Misplaced(entries, known)|;
    if forall id :: id in entries ==> id in known && PositionAccepted(entries[id]) {
      assert Misplaced(entries, known) == {};
    } else {
      var id :| id in entries && !(id in known && PositionAccepted(entries[id]));
      assert id in Misplaced(entries, known);
    }
  }

  // ---------------------------------------------------------------- the whole definition

  /** The items `for item in raw.get("edges") or []` walks; None is a TypeError. A string or a mapping
      yields strings, one per character or key (which ones does not matter: none is an edge). */
  function EdgeItems(v: Value): Option<seq<Value>> {
    if !Truthy(v) then Some([])
    else
      match v
      case List(items) => Some(items)
      case Str(s) => Some(seq(|s|, i requires 0 <= i < |s| => Str([s[i]])))
      case Object(fields) => Some(seq(|fields|, i => Str("")))
      case _ => None
  }

  ghost predicate TriggerAccepted(v: Value) {
    && v.Object? && Get(v.fields, "type").Str? && Get(v.fields, "type").text != ""
    && v.fields.Keys <= {"type", "filter"}
    && OrEmpty(Get(v.fields, "filter")).Object?
  }

  function ReadTrigger(v: Value): Trigger
    requires TriggerAccepted(v)
  {
    Trigger(v.fields["type"].text, OrEmpty(Get(v.fields, "filter")).fields)
  }

  ghost predicate NodesAccepted(v: Value) {
    v.List? && 1 <= |v.items| <= MAX_NODES && forall i :: 0 <= i < |v.items| ==> NodeAccepted(v.items[i])
  }

  function ReadNodes(items: seq<Value>): seq<Node>
    requires forall i :: 0 <= i < |items| ==> NodeAccepted(items[i])
  {
    seq(|items|, i requires 0 <= i < |items| => ReadNode(items[i]))
  }

  ghost predicate EdgesAccepted(v: Value) {
    EdgeItems(v).Some? && forall i :: 0 <= i < |EdgeItems(v).value| ==> EdgeAccepted(EdgeItems(v).value[i])
  }

  function ReadEdges(items: seq<Value>): seq<Edge>
    requires forall i :: 0 <= i < |items| ==> EdgeAccepted(items[i])
  {
    seq(|items|, i requires 0 <= i < |items| => ReadEdge(items[i]))
  }

  ghost predicate VariablesAccepted(v: Value) {
    OrEmpty(v).Object? && forall k :: k in OrEmpty(v).fields ==> OrEmpty(v).fields[k].Object?
  }

  function ReadVariables(v: Value): map<string, map<string, Value>>
    requires VariablesAccepted(v)
  {
    map k | k in OrEmpty(v).fields :: OrEmpty(v).fields[k].fields
  }

  ghost predicate LayoutAccepted(v: Value, known: set<string>) {
    OrEmpty(v).Object? && forall k :: k in OrEmpty(v).fields ==> k in known && PositionAccepted(OrEmpty(v).fields[k])
  }

  function ReadLayout(v: Value, ghost known: set<string>): map<string, Position>
    requires LayoutAccepted(v, known)
  {
    map k | k in OrEmpty(v).fields :: ReadPosition(OrEmpty(v).fields[k])
  }

  function IdSet(nodes: seq<Node>): set<string> {
    set n | n in nodes :: n.id
  }

  const TOP_LEVEL: set<string> := {"schema", "name", "description", "trigger", "nodes", "edges", "variables", "layout"}

  /** What makes plain data a workflow definition. */
  ghost predicate Acceptable(raw: map<string, Value>) {
    && raw.Keys <= TOP_LEVEL
    && ("schema" in raw ==> EqualsOne(raw["schema"]))
    && Get(raw, "name").Str? && IsWorkflowName(Get(raw, "name").text)
    && TriggerAccepted(Get(raw, "trigger"))
    && NodesAccepted(Get(raw, "nodes"))
    && EdgesAccepted(Get(raw, "edges"))
    && VariablesAccepted(Get(raw, "variables"))
    && LayoutAccepted(Get(raw, "layout"), IdSet(ReadNodes(Get(raw, "nodes").items)))
  }

  function ReadDescription(v: Value, text: Value -> string): string {
    if Truthy(v) then AsText(v, text) else ""
  }

  /** The workflow an acceptable definition describes: every node and every edge of it, in order. */
  ghost function Reading(raw: map<string, Value>, text: Value -> string): Workflow
    requires Acceptable(raw)
  {
    var nodes := ReadNodes(Get(raw, "nodes").items);
    Workflow(Get(raw, "name").text, ReadTrigger(Get(raw, "trigger")), nodes,
             ReadEdges(EdgeItems(Get(raw, "edges")).value),
             ReadVariables(Get(raw, "variables")),
             ReadDescription(Get(raw, "description"), text),
             ReadLayout(Get(raw, "layout"), IdSet(nodes)))
  }

  /** An edge list the parser cannot walk, or an edge it cannot look up. */
  ghost predicate RaisesOn(raw: map<string, Value>) {
    var items := EdgeItems(Get(raw, "edges"));
    items.None? || exists i :: 0 <= i < |items.value| && EdgeRaises(items.value[i])
  }

  /** The trigger part of the parser. */
  function TriggerItem(v: Value): (seq<Defect>, Trigger) {
    if !v.Object? || !Get(v.fields, "type").Str? || Get(v.fields, "type").text == "" then
      ([BadTrigger], Trigger("manual", map[]))
    else
      var filter := OrEmpty(Get(v.fields, "filter"));
      (When(!(v.fields.Keys <= {"type", "filter"}), UnknownField) + When(!filter.Object?, TriggerFilter),
       Trigger(v.fields["type"].text, if filter.Object? then filter.fields else map[]))
  }

  lemma TriggerItemExact(v: Value)
    ensures TriggerItem(v).0 == [] <==> TriggerAccepted(v)
    ensures TriggerAccepted(v) ==> TriggerItem(v).1 == ReadTrigger(v)
  {
  }

  /** The defects found before the lists are read. */
  function HeadDefects(raw: map<string, Value>): (defects: seq<Defect>)
    ensures defects == [] <==>
              raw.Keys <= TOP_LEVEL && ("schema" in raw ==> EqualsOne(raw["schema"]))
              && Get(raw, "name").Str? && IsWorkflowName(Get(raw, "name").text)
  {
    When(!(raw.Keys <= TOP_LEVEL), UnknownField)
    + When("schema" in raw && !EqualsOne(raw["schema"]), SchemaVersion)
    + When(!Get(raw, "name").Str? || !IsWorkflowName(Get(raw, "name").text), Name)
  }

  ghost function NodeItems(v: Value): seq<Value> {
    if !v.List? then [] else if |v.items| > MAX_NODES then v.items[..MAX_NODES] else v.items
  }

  ghost function NodeListDefects(v: Value): seq<Defect> {
    When(!v.List? || v.items == [], NoNodes) + When(v.List? && |v.items| > MAX_NODES, TooManyNodes)
    + NodeDefects(NodeItems(v), |NodeItems(v)|)
  }

  ghost function TailDefects(raw: map<string, Value>, known: set<string>): seq<Defect> {
    var places := OrEmpty(Get(raw, "layout"));
    When(!VariablesAccepted(Get(raw, "variables")), Variables)
    + if places.Object? then Times(|Misplaced(places.fields, known)|, Layout) else [Layout]
  }

  /** Every structural problem of a definition whose edges can be walked, in the order of the rules. */
  ghost function AllDefects(raw: map<string, Value>): seq<Defect>
    requires !RaisesOn(raw)
  {
    var items, made := EdgeItems(Get(raw, "edges")).value, NodeItems(Get(raw, "nodes"));
    HeadDefects(raw) + TriggerItem(Get(raw, "trigger")).0 + NodeListDefects(Get(raw, "nodes"))
        + EdgeDefects(items, |items|)
    + TailDefects(raw, IdSet(NodesMade(made, |made|)))
  }

  /** The node list part of the parser. */
  method ParseNodeList(v: Value) returns (nodes: seq<Node>, defects: seq<Defect>)
    ensures defects == [] <==> NodesAccepted(v)
    ensures defects == [] ==> nodes == ReadNodes(v.items)
    ensures defects == NodeListDefects(v) && nodes == NodesMade(NodeItems(v), |NodeItems(v)|)
  {
    hide NodeAccepted, ReadNode, NodeItem;
    var items := if v.List? then v.items else [];
    defects := When(items == [], NoNodes) + When(|items| > MAX_NODES, TooManyNodes);
    var found;
    nodes, found := ParseNodes(if |items| > MAX_NODES then items[..MAX_NODES] else items);
    defects := defects + found;
    assert |defects| == (if items == [] then 1 else 0) + (if |items| > MAX_NODES then 1 else 0) + |found|;
  }

  /** The variables and layout parts of the parser. */
  method ParseTail(raw: map<string, Value>, nodes: seq<Node>)
    returns (variables: map<string, map<string, Value>>, layout: map<string, Position>, defects: seq<Defect>)
    ensures defects == [] <==>
            VariablesAccepted(Get(raw, "variables")) && LayoutAccepted(Get(raw, "layout"), IdSet(nodes))
    ensures defects == [] ==>
            variables == ReadVariables(Get(raw, "variables")) && layout == ReadLayout(Get(raw, "layout"), IdSet(nodes))
    ensures defects == TailDefects(raw, IdSet(nodes))
  {
    hide PositionAccepted, ReadPosition, Times, Misplaced;
    var given := OrEmpty(Get(raw, "variables"));
    variables, layout, defects := map[], map[], [];
    if !given.Object? || !(forall k :: k in given.fields ==> given.fields[k].Object?) {
      defects := [Variables];
    } else {
      variables := map k | k in given.fields :: given.fields[k].fields;
    }
    var places := OrEmpty(Get(raw, "layout"));
    if !places.Object? {
      defects := defects + [Layout];
    } else {
      var found;
      layout, found := ParseLayout(places.fields, IdSet(nodes));
      defects := defects + found;
    }
  }

  /**
   `parse` accepts exactly the acceptable definitions and reads them whole; everything else is refused, with every
   structural problem listed.
   */
  method Parse(raw: map<string, Value>, text: Value -> string) returns (r: Parsed)
    ensures r.Accepted? <==> Acceptable(raw)
    ensures r.Accepted? ==> r.wf == Reading(raw, text)
    ensures r.Raised? <==> RaisesOn(raw)
    ensures r.Rejected? ==> r.defects != [] && r.defects == AllDefects(raw)
  {
    hide NodeAccepted, EdgeAccepted, TriggerAccepted, PositionAccepted, VariablesAccepted, LayoutAccepted, ReadNode,
      ReadEdge, ReadPosition, ReadTrigger, ReadVariables, ReadLayout, TriggerItem, IsWorkflowName, EqualsOne, NodesMade,
      NodeItems, NodeListDefects, EdgeDefects, TailDefects, HeadDefects;
    var head := HeadDefects(raw);
    TriggerItemExact(Get(raw, "trigger"));
    var (second, trigger) := TriggerItem(Get(raw, "trigger"));
    var nodes, third := ParseNodeList(Get(raw, "nodes"));
    var items := EdgeItems(Get(raw, "edges"));
    if items.None? {
      return Raised;
    }
    var edges, fourth, raised := ParseEdges(items.value);
    if raised {
      forall i | 0 <= i < |items.value| && EdgeRaises(items.value[i]) ensures !EdgeAccepted(items.value[i]) {
        EdgeItemExact(items.value[i]);
      }
      return Raised;
    }
    var variables, layout, fifth := ParseTail(raw, nodes);
    var defects := head + second + third + fourth + fifth;
    assert |defects| == |head| + |second| + |third| + |fourth| + |fifth|;
    if defects != [] {
      return Rejected(defects);
    }
    assert edges == ReadEdges(items.value);
    return Accepted(Workflow(Get(raw, "name").text, trigger, nodes, edges, variables,
        ReadDescription(Get(raw, "description"), text), layout));
  }
}
