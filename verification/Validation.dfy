/** Everything that can be wrong with a workflow before it runs: `validate` proved equal to what its rules mean. */
module Validation {
  import opened Wrappers
  import opened Json
  import opened Effects
  import opened WorkflowModel
  import opened Searches
  import opened Templates
  import C = Conditions

  /** The stable codes of the problems the validator reports. */
  datatype Code =
    | DuplicateNode
    | DanglingEdge
    | NoEntry
    | Unreachable
    | NoEnd
    | UnboundedLoop
    | LiteralSecret
    | MissingConfig
    | UnknownAction
    | BadCondition
    | ConditionEdges
    | EdgeLabel
    | BadConfig
    | EndHasEdges
    | BadReference
    | UnknownVariable
    | MissingApproval
    | UnboundVariable
    | VariableName

  datatype Problem = Problem(code: Code, node: Option<string>)

  /** `Raised` is a Python error other than a reported problem. */
  datatype Report = Checked(problems: seq<Problem>) | Raised

  /** What an organisation allows, and the actions it knows (None: do not check action names). */
  datatype Policy = Policy(allowUnapprovedWrites: bool, knownActions: Option<map<string, SideEffect>>)

  /** Library code the validator calls: `str` and the secret detector. */
  datatype Host = Host(text: Value -> string, configHasSecret: map<string, Value> -> bool,
      valueHasSecret: Value -> bool)

  // ---------------------------------------------------------------- walking the nodes

  /** One problem per node among the first `k` that satisfies `p`, in node order. */
  ghost function ReportsOn(nodes: seq<Node>, k: nat, p: Node -> bool, code: Code): seq<Problem>
    requires k <= |nodes|
  {
    if k == 0 then []
    else ReportsOn(nodes, k - 1, p, code) + (if p(nodes[k - 1]) then [Problem(code, Some(nodes[k - 1].id))] else [])
  }

  lemma {:induction false} ReportsOnNone(nodes: seq<Node>, k: nat, p: Node -> bool, code: Code)
    requires k <= |nodes|
    ensures ReportsOn(nodes, k, p, code) == [] <==> forall i :: 0 <= i < k ==> !p(nodes[i])
  {
    if k > 0 { ReportsOnNone(nodes, k - 1, p, code); }
  }

  ghost predicate AllOf(nodes: seq<Node>, k: nat, p: Node -> bool)
    requires k <= |nodes|
  {
    k == 0 || (AllOf(nodes, k - 1, p) && p(nodes[k - 1]))
  }

  lemma {:induction false} AllOfEach(nodes: seq<Node>, k: nat, p: Node -> bool)
    requires k <= |nodes|
    ensures AllOf(nodes, k, p) <==> forall i :: 0 <= i < k ==> p(nodes[i])
  {
    if k > 0 { AllOfEach(nodes, k - 1, p); }
  }

  // ---------------------------------------------------------------- rules that look at one node only

  /** The problems of node `id`: one per rule that is broken, in the order of the rules. */
  function Broken(rules: seq<(bool, Code)>, id: string): seq<Problem> {
    if rules == [] then []
    else (if rules[0].0 then [Problem(rules[0].1, Some(id))] else []) + Broken(rules[1..], id)
  }

  predicate HasLabel(edges: seq<Edge>, when: Label) {
    exists e :: e in edges && e.when == Some(when)
  }

  /** A Python number, booleans included. */
  function Number(v: Value): Option<real> {
    match v
    case Int(n) => Some(n as real)
    case Float(x) => Some(x)
    case Bool(flag) => Some(if flag then 1.0 else 0.0)
    case _ => None
  }

  const NINETY_DAYS := 7776000.0

  /** The part of `_check_node` that needs neither the graph nor the references: what is wrong, and its code. */
  function LocalRules(n: Node, outgoing: seq<Edge>, policy: Policy, host: Host): seq<(bool, Code)> {
    var name := Get(n.config, "action");
    var cond := Get(n.config, "if");
    var timeout := Get(n.config, "timeout_s");
    var seconds := Get(n.config, "seconds");
    var result := if "result" in n.config then n.config["result"] else Str("success");
    [ (host.configHasSecret(n.config), LiteralSecret),
      (n.kind == Agent && !Truthy(Get(n.config, "task")), MissingConfig),
      (n.kind == Action && !Truthy(name), MissingConfig),
      (n.kind == Action && Truthy(name) && policy.knownActions.Some?
           && !(name.Str? && name.text in policy.knownActions.value), UnknownAction),
      (n.kind == Condition && !cond.Object?, MissingConfig),
      (n.kind == Condition && cond.Object? && C.ValidateCondition(cond) == C.Refused, BadCondition),
      (n.kind == Condition && !(HasLabel(outgoing, IfTrue) && HasLabel(outgoing, IfFalse)), ConditionEdges),
      (n.kind != Condition && (HasLabel(outgoing, IfTrue) || HasLabel(outgoing, IfFalse)), EdgeLabel),
      (n.kind == Approval
           && (exists e :: e in outgoing && e.when !in {None, Some(Approved), Some(Denied), Some(TimedOut)}),
              EdgeLabel),
      (n.kind == Approval && timeout != Null && (Number(timeout) == None || Number(timeout).value <= 0.0), BadConfig),
      (n.kind == Timer && (seconds.Bool? || Number(seconds) == None || !(0.0 < Number(seconds).value <= NINETY_DAYS)),
          BadConfig),
      (n.kind == WaitEvent && !Truthy(Get(n.config, "event")), MissingConfig),
      (n.kind == End && outgoing != [], EndHasEdges),
      (n.kind == End && result != Str("success") && result != Str("failure"), BadConfig)]
  }

  function LocalProblems(n: Node, outgoing: seq<Edge>, policy: Policy, host: Host): seq<Problem> {
    Broken(LocalRules(n, outgoing, policy, host), n.id)
  }

  /** When `_check_node` raises instead of reporting: an unhashable action name, or a malformed condition. */
  ghost predicate NodeRaises(n: Node, policy: Policy) {
    var name, cond := Get(n.config, "action"), Get(n.config, "if");
    || (n.kind == Action && Truthy(name) && policy.knownActions.Some? && !Hashable(name))
    || (cond.Object? && ((n.kind == Condition && C.ValidateCondition(cond) == C.Failed) || !C.Readable(cond)))
  }

  // ---------------------------------------------------------------- references

  /** The second component of a dotted reference ("" when there is none). */
  function Second(parts: seq<string>): string {
    if |parts| > 1 then parts[1] else ""
  }

  /** What a template reference in node `id` may name. */
  ghost predicate ReferenceOk(wf: Workflow, id: string, ref: string) {
    var parts := Split(ref, '.');
    || parts[0] == "trigger"
    || (parts[0] == "vars" && Second(parts) in wf.variables)
    || (parts[0] == "nodes" && HasNode(wf, Second(parts)) && LeadsOn(wf.edges, Second(parts), id))
  }

  /** The reference loop of `_check_node`, in whatever order the set of references is walked. */
  method CheckReferences(wf: Workflow, n: Node, refs: set<string>, ancestors: set<string>) returns (out: seq<Problem>)
    requires forall a :: a in ancestors <==> LeadsOn(wf.edges, a, n.id)
    ensures out == [] <==> forall ref :: ref in refs ==> ReferenceOk(wf, n.id, ref)
  {
    out := [];
    var ids := set x | x in wf.nodes :: x.id;
    var todo := refs;
    while todo != {}
      invariant todo <= refs
      invariant out == [] <==>
                forall ref :: ref in refs && ref !in todo ==> ReferenceOk(wf, n.id, ref)
      decreases todo
    {
      var ref :| ref in todo;
      todo := todo - {ref};
      var parts := Split(ref, '.');
      var root, second := parts[0], Second(parts);
      var ok := true;
      if root !in {"trigger", "vars", "nodes"} {
        out, ok := out + [Problem(BadReference, Some(n.id))], false;
      } else if root == "vars" && second !in wf.variables {
        out, ok := out + [Problem(UnknownVariable, Some(n.id))], false;
      } else if root == "nodes" {
        if second !in ids {
          out, ok := out + [Problem(BadReference, Some(n.id))], false;
        } else if second !in ancestors {
          out, ok := out + [Problem(BadReference, Some(n.id))], false;
        }
      }
      assert second in ids <==> HasNode(wf, second);
      assert ok <==> ReferenceOk(wf, n.id, ref);
    }
  }

  // ---------------------------------------------------------------- structure

  /** The duplicate check: one problem per repeated id. */
  method CheckDuplicates(wf: Workflow) returns (out: seq<Problem>)
    ensures out == [] <==> NoDuplicateIds(wf)
    ensures forall id :: Problem(DuplicateNode, Some(id)) in out <==>
              exists i, j :: 0 <= i < j < |wf.nodes| && wf.nodes[i].id == wf.nodes[j].id == id
  {
    out := [];
    var known: set<string> := {};
    var dups: set<string> := {};
    for k := 0 to |wf.nodes|
      invariant forall x :: x in known <==> exists i :: 0 <= i < k && wf.nodes[i].id == x
      invariant forall x :: x in dups <==> exists i, j :: 0 <= i < j < k && wf.nodes[i].id == wf.nodes[j].id == x
    {
      if wf.nodes[k].id in known {
        dups := dups + {wf.nodes[k].id};
      }
      known := known + {wf.nodes[k].id};
    }
    forall i, j | 0 <= i < j < |wf.nodes| && wf.nodes[i].id == wf.nodes[j].id ensures wf.nodes[j].id in dups {
    }
    ghost var all := dups;
    while dups != {}
      invariant dups <= all
      invariant forall id :: Problem(DuplicateNode, Some(id)) in out <==> id in all && id !in dups
      invariant out == [] <==> dups == all
      decreases dups
    {
      var id :| id in dups;
      dups := dups - {id};
      out := out + [Problem(DuplicateNode, Some(id))];
    }
  }

  /** The dangling check: one problem per missing end of an edge. */
  method CheckDangling(wf: Workflow) returns (out: seq<Problem>)
    ensures out == [] <==> NoDanglingEdges(wf)
    ensures forall id :: Problem(DanglingEdge, Some(id)) in out <==>
              !HasNode(wf, id) && exists i ::
                  0 <= i < |wf.edges| && (wf.edges[i].source == id || wf.edges[i].target == id)
  {
    out := [];
    var known := set n | n in wf.nodes :: n.id;
    for k := 0 to |wf.edges|
      invariant forall id :: Problem(DanglingEdge, Some(id)) in out <==>
                  id !in known && exists i :: 0 <= i < k && (wf.edges[i].source == id || wf.edges[i].target == id)
      invariant out == [] <==> forall i :: 0 <= i < k ==> wf.edges[i].source in known && wf.edges[i].target in known
    {
      var e := wf.edges[k];
      if e.source !in known { out := out + [Problem(DanglingEdge, Some(e.source))]; }
      if e.target !in known { out := out + [Problem(DanglingEdge, Some(e.target))]; }
    }
  }

  ghost predicate AllReachable(wf: Workflow) {
    forall i :: 0 <= i < |wf.nodes| ==> LeadsFrom(wf.edges, Ids(Entries(wf)), wf.nodes[i].id)
  }

  /** Nodes no entry leads to, in node order. */
  method CheckReachable(wf: Workflow) returns (out: seq<Problem>)
    ensures out == ReportsOn(wf.nodes, |wf.nodes|, (n: Node) => !LeadsFrom(wf.edges, Ids(Entries(wf)), n.id),
            Unreachable)
    ensures out == [] <==> AllReachable(wf)
  {
    hide LeadsFrom;
    out := [];
    var reachable := Reachable(wf, Ids(Entries(wf)));
    ghost var cut := (n: Node) => !LeadsFrom(wf.edges, Ids(Entries(wf)), n.id);
    ReportsOnNone(wf.nodes, |wf.nodes|, cut, Unreachable);
    for k := 0 to |wf.nodes|
      invariant out == ReportsOn(wf.nodes, k, cut, Unreachable)
    {
      if wf.nodes[k].id !in reachable {
        out := out + [Problem(Unreachable, Some(wf.nodes[k].id))];
      }
    }
  }

  /** A node on a loop that does not say how often it may be entered. */
  ghost predicate LoopsUnbounded(wf: Workflow, n: Node) {
    LeadsOn(wf.edges, n.id, n.id) && n.maxVisits < 2
  }

  ghost predicate LoopsBounded(wf: Workflow) {
    forall n :: n in wf.nodes ==> !LoopsUnbounded(wf, n)
  }

  method CheckLoops(wf: Workflow) returns (out: seq<Problem>)
    requires WellFormed(wf)
    ensures out == [] <==> LoopsBounded(wf)
    ensures forall id :: Problem(UnboundedLoop, Some(id)) in out <==>
              HasNode(wf, id) && LoopsUnbounded(wf, NodeById(wf.nodes, id))
  {
    out := [];
    var todo := NodesOnCycles(wf);
    ghost var cyclic := todo;
    while todo != {}
      invariant todo <= cyclic
      invariant forall x :: Problem(UnboundedLoop, Some(x)) in out <==>
                  x in cyclic && x !in todo && NodeById(wf.nodes, x).maxVisits < 2
      invariant out == [] <==> forall x :: x in cyclic && x !in todo ==> NodeById(wf.nodes, x).maxVisits >= 2
      decreases todo
    {
      var x :| x in todo;
      todo := todo - {x};
      if NodeById(wf.nodes, x).maxVisits < 2 {
        out := out + [Problem(UnboundedLoop, Some(x))];
      }
    }
    forall n | n in wf.nodes ensures NodeById(wf.nodes, n.id) == n { NodeByIdIs(wf, n); }
  }

  /** An action node whose known effect needs a human approval. */
  predicate NeedsApproval(n: Node, policy: Policy, host: Host) {
    && n.kind == Action
    && policy.knownActions.Some?
    && var name := AsText(Get(n.config, "action"), host.text);
       name in policy.knownActions.value && policy.knownActions.value[name] in REQUIRES_APPROVAL
  }

  /** Such an action that some entry reaches past no approval. */
  ghost predicate GateMissing(wf: Workflow, n: Node, policy: Policy, host: Host) {
    !policy.allowUnapprovedWrites && NeedsApproval(n, policy, host) && UngatedTo(wf, n.id)
  }

  ghost predicate AllGated(wf: Workflow, policy: Policy, host: Host) {
    forall i :: 0 <= i < |wf.nodes| ==> !GateMissing(wf, wf.nodes[i], policy, host)
  }

  /** The body of the gate loop: does this action lack a gate? */
  method GateOpen(wf: Workflow, n: Node, policy: Policy, host: Host) returns (open: bool)
    requires WellFormed(wf) && !policy.allowUnapprovedWrites
    ensures open <==> GateMissing(wf, n, policy, host)
  {
    if !NeedsApproval(n, policy, host) {
      return false;
    }
    open := ReachableAvoidingApproval(wf, n.id);
  }

  /** `_check_approval_gates`: exactly the actions that lack a gate are reported, in node order. */
  method CheckApprovalGates(wf: Workflow, policy: Policy, host: Host) returns (out: seq<Problem>)
    requires WellFormed(wf)
    ensures out == ReportsOn(wf.nodes, |wf.nodes|, n => GateMissing(wf, n, policy, host), MissingApproval)
    ensures out == [] <==> AllGated(wf, policy, host)
  {
    hide UngatedTo, WellFormed;
    out := [];
    ghost var missing := n => GateMissing(wf, n, policy, host);
    ReportsOnNone(wf.nodes, |wf.nodes|, missing, MissingApproval);
    if policy.allowUnapprovedWrites || policy.knownActions.None? {
      return;
    }
    for k := 0 to |wf.nodes|
      invariant out == ReportsOn(wf.nodes, k, missing, MissingApproval)
    {
      var open := GateOpen(wf, wf.nodes[k], policy, host);
      if open {
        out := out + [Problem(MissingApproval, Some(wf.nodes[k].id))];
      }
    }
  }

  // ---------------------------------------------------------------- variables

  predicate IsIdentifier(s: string) {
    && s != "" && !('0' <= s[0] <= '9')
    && forall i :: 0 <= i < |s| ==> 'A' <= s[i] <= 'Z' || 'a' <= s[i] <= 'z' || '0' <= s[i] <= '9' || s[i] == '_'
  }

  function VariableProblems(wf: Workflow, name: string, spec: map<string, Value>, host: Host): seq<Problem> {
    (if wf.trigger.kind != "manual" && Truthy(Get(spec, "required")) && "default" !in spec
     then [Problem(UnboundVariable, None)] else [])
    + (if !IsIdentifier(name) then [Problem(VariableName, None)] else [])
    + (if "default" in spec && host.valueHasSecret(spec["default"]) then [Problem(LiteralSecret, None)] else [])
  }

  ghost predicate VariablesOk(wf: Workflow, host: Host) {
    forall v :: v in wf.variables ==> VariableProblems(wf, v, wf.variables[v], host) == []
  }

  method CheckVariables(wf: Workflow, host: Host) returns (out: seq<Problem>)
    ensures out == [] <==> VariablesOk(wf, host)
  {
    out := [];
    var todo := wf.variables.Keys;
    while todo != {}
      invariant todo <= wf.variables.Keys
      invariant out == [] <==>
                forall v :: v in wf.variables && v !in todo ==> VariableProblems(wf, v, wf.variables[v], host) == []
      decreases todo
    {
      var v :| v in todo;
      todo := todo - {v};
      var more := VariableProblems(wf, v, wf.variables[v], host);
      assert out + more == [] <==> out == [] && more == [];
      out := out + more;
    }
  }

  // ---------------------------------------------------------------- validate

  ghost predicate ReferencesOk(wf: Workflow, n: Node) {
    forall ref :: ref in References(Object(n.config)) ==> ReferenceOk(wf, n.id, ref)
  }

  ghost predicate NodeOk(wf: Workflow, n: Node, policy: Policy, host: Host) {
    && LocalProblems(n, Outgoing(wf.edges, n.id), policy, host) == []
    && ReferencesOk(wf, n)
  }

  ghost predicate CanEnd(wf: Workflow) {
    exists n :: n in wf.nodes && (n.kind == End || Outgoing(wf.edges, n.id) == [])
  }

  ghost predicate NodesOk(wf: Workflow, policy: Policy, host: Host) {
    forall i :: 0 <= i < |wf.nodes| ==> NodeOk(wf, wf.nodes[i], policy, host)
  }

  ghost predicate SomeNodeRaises(wf: Workflow, policy: Policy) {
    exists i :: 0 <= i < |wf.nodes| && NodeRaises(wf.nodes[i], policy)
  }

  /** The shape rules: something starts, everything can run, something ends, and every loop is bounded. */
  ghost predicate GraphOk(wf: Workflow) {
    Entries(wf) != [] && AllReachable(wf) && CanEnd(wf) && LoopsBounded(wf)
  }

  /** What the rules of the validator mean, in terms of the paths of the graph. */
  ghost predicate Valid(wf: Workflow, policy: Policy, host: Host) {
    && WellFormed(wf)
    && GraphOk(wf)
    && NodesOk(wf, policy, host)
    && AllGated(wf, policy, host)
    && VariablesOk(wf, host)
  }

  /** `_check_node`. */
  method CheckNode(wf: Workflow, n: Node, policy: Policy, host: Host) returns (r: Report)
    ensures r.Raised? <==> NodeRaises(n, policy)
    ensures r.Checked? ==> (r.problems == [] <==> NodeOk(wf, n, policy, host))
  {
    var name, cond := Get(n.config, "action"), Get(n.config, "if");
    if n.kind == Action && Truthy(name) && policy.knownActions.Some? && !Hashable(name) {
      return Raised;
    }
    var refs := References(Object(n.config));
    if cond.Object? {
      C.ReferencesCollected(cond);
      if (n.kind == Condition && C.ValidateCondition(cond) == C.Failed) || C.ConditionReferences(cond).None? {
        return Raised;
      }
      refs := refs + C.ConditionReferences(cond).value;
    }
    assert refs == References(Object(n.config));
    var ancestors := Ancestors(wf, n.id);
    var here := LocalProblems(n, Outgoing(wf.edges, n.id), policy, host);
    var named := CheckReferences(wf, n, refs, ancestors);
    assert |here + named| == |here| + |named|;
    return Checked(here + named);
  }

  method CheckNodes(wf: Workflow, policy: Policy, host: Host) returns (r: Report)
    ensures r.Raised? <==> SomeNodeRaises(wf, policy)
    ensures r.Checked? ==> (r.problems == [] <==> NodesOk(wf, policy, host))
  {
    hide NodeOk, NodeRaises;
    var out: seq<Problem> := [];
    ghost var ok, calm := n => NodeOk(wf, n, policy, host), n => !NodeRaises(n, policy);
    AllOfEach(wf.nodes, |wf.nodes|, ok);
    AllOfEach(wf.nodes, |wf.nodes|, calm);
    for k := 0 to |wf.nodes|
      invariant AllOf(wf.nodes, k, calm)
      invariant out == [] <==> AllOf(wf.nodes, k, ok)
    {
      var here := CheckNode(wf, wf.nodes[k], policy, host);
      if here.Raised? {
        return Raised;
      }
      out := out + here.problems;
    }
    return Checked(out);
  }

  /** The checks that look at the shape of a well-formed graph. */
  method CheckGraph(wf: Workflow) returns (out: seq<Problem>)
    requires WellFormed(wf)
    ensures out == [] <==> GraphOk(wf)
  {
    hide AllReachable, LoopsBounded, LoopsUnbounded, WellFormed, LeadsFrom;
    var entries := if Entries(wf) == [] then [Problem(NoEntry, None)] else [];
    var unreachable := CheckReachable(wf);
    var canEnd := exists n :: n in wf.nodes && (n.kind == End || Outgoing(wf.edges, n.id) == []);
    var ends := if canEnd then [] else [Problem(NoEnd, None)];
    var loops := CheckLoops(wf);
    out := entries + unreachable + ends + loops;
    assert |out| == |entries| + |unreachable| + |ends| + |loops|;
  }

  /**
   `validate`: the list is empty exactly when every rule holds of the workflow, said in terms of its paths;
   a workflow that is not a well-formed graph is reported and nothing further is looked at.
   */
  method Validate(wf: Workflow, policy: Policy, host: Host) returns (r: Report)
    ensures r.Raised? <==> WellFormed(wf) && SomeNodeRaises(wf, policy)
    ensures r.Checked? ==> (r.problems == [] <==> Valid(wf, policy, host))
  {
    var duplicates := CheckDuplicates(wf);
    var dangling := CheckDangling(wf);
    var structure := duplicates + dangling;
    assert |structure| == |duplicates| + |dangling|;
    if structure != [] {
      return Checked(structure);
    }
    var graph := CheckGraph(wf);
    var nodes := CheckNodes(wf, policy, host);
    if nodes.Raised? {
      return Raised;
    }
    var gates := CheckApprovalGates(wf, policy, host);
    var variables := CheckVariables(wf, host);
    r := Checked(graph + nodes.problems + gates + variables);
    assert |r.problems| == |graph| + |nodes.problems| + |gates| + |variables|;
  }
}
