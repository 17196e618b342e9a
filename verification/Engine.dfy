/**
 The durable workflow engine as a state machine over its step rows: what every history of a validated
 workflow keeps, whatever the order of wake-ups, decisions, timeouts, failures, late answers and crashes.
 */
module Engine {
  import opened Wrappers
  import opened Json
  import opened WorkflowModel
  import opened Searches
  import opened Validation
  import opened Walks
  import opened Templates

  datatype Status = Pending | Running | Waiting | Succeeded | Failing | Skipped | Uncertain

  /**
   One row. `begun`: the handler of an action passed its checks, so it may still report back whatever the row says
   by then. `fired`: the edge labels this step has fired.
   */
  datatype Step = Step(
    node: string,
    visit: nat,
    status: Status,
    decision: Option<Label>,
    begun: bool,
    fired: set<Option<Label>>)

  datatype RunStatus = Active | Completed | RunFailed | Cancelled

  datatype State = State(steps: seq<Step>, run: RunStatus)

  /** `pending`, `running` or `waiting`. */
  predicate IsActive(s: Status) {
    s == Pending || s == Running || s == Waiting
  }

  /** On its way: a second arrival at the same node is folded into it. */
  predicate Open(s: Status) {
    IsActive(s) || s == Uncertain
  }

  /** What `_fail_run`, an end node and a cancel do to the steps: the active ones are skipped. */
  function SkipActive(steps: seq<Step>): (out: seq<Step>)
    ensures |out| == |steps|
    ensures forall i :: 0 <= i < |steps| ==> out[i] == Skip(steps[i])
  {
    seq(|steps|, i requires 0 <= i < |steps| => Skip(steps[i]))
  }

  function Skip(s: Step): Step {
    if IsActive(s.status) then s.(status := Skipped) else s
  }

  /** `_fail_run`. */
  function Failed(st: State): State {
    State(SkipActive(st.steps), RunFailed)
  }

  /** The highest visit recorded for `node` (0: never entered). */
  function LastVisit(steps: seq<Step>, node: string): nat {
    if steps == [] then 0
    else
      var last := steps[|steps| - 1];
      if last.node == node then last.visit else LastVisit(steps[..|steps| - 1], node)
  }

  predicate HasOpen(steps: seq<Step>, node: string) {
    exists i :: 0 <= i < |steps| && steps[i].node == node && Open(steps[i].status)
  }

  function Fresh(target: string, visit: nat): Step {
    Step(target, visit, Pending, None, false, {})
  }

  /**
   `_fire`: the picked edges in order. A target on its way is left alone, one that has had its visits too, unless it
   is on a loop: then the run fails and the remaining edges are not looked at. The run's status is not asked.
   */
  function Fire(wf: Workflow, cyclic: set<string>, st: State, targets: seq<string>): State
    requires forall t :: t in targets ==> HasNode(wf, t)
    decreases |targets|
  {
    if targets == [] then st
    else
      assert targets[0] in targets && forall t :: t in targets[1..] ==> t in targets;
      var target, visit := targets[0], LastVisit(st.steps, targets[0]) + 1;
      assert HasNode(wf, target);
      if HasOpen(st.steps, target) then Fire(wf, cyclic, st, targets[1..])
      else if visit > NodeById(wf.nodes, target).maxVisits then
        if target in cyclic then Failed(st) else Fire(wf, cyclic, st, targets[1..])
      else Fire(wf, cyclic, st.(steps := st.steps + [Fresh(target, visit)]), targets[1..])
  }

  // ---------------------------------------------------------------- moves

  /** The writes of the engine, one transaction each; `i` is a step. */
  datatype Move =
    | Shift(i: nat, status: Status)                        // a step that is not an action moves on
    | Begin(i: nat)                                        // an action passes its checks and is performed
    | Unsure(i: nat)                                       // a crashed action that cannot be repeated
    | Finish(i: nat, decision: Option<Label>, yes: bool)   // success, recorded and fired together
    | SucceedAction(i: nat)                                // an action's success ...
    | FireAction(i: nat)                                   // ... and, in a transaction of its own, its edges
    | StepFails(i: nat)                                    // `_step_failed`
    | WaitTimeout(i: nat)                                  // a wait for an event runs out
    | EventFires(i: nat)                                   // an event's fire after an earlier row of it failed the run
    | Retry(i: nat)                                        // `resolve`: try it again
    | ResolveFailed(i: nat)                                // `resolve`: it failed; nothing is fired
    | CancelRun
    | EndRun(i: nat)
    | Settle

  function PickedTargets(edges: seq<Edge>, picked: set<Option<Label>>): (ids: seq<string>)
    ensures forall t :: t in ids <==> exists e :: e in edges && e.target == t && e.when in picked
  {
    if edges == [] then []
    else
      var rest := PickedTargets(edges[1..], picked);
      assert edges[0] in edges && forall e :: e in edges <==> e == edges[0] || e in edges[1..];
      if edges[0].when in picked then [edges[0].target] + rest else rest
  }

  lemma PickedAreSuccessors(wf: Workflow, node: string, picked: set<Option<Label>>)
    requires NoDanglingEdges(wf)
    ensures forall t :: t in PickedTargets(Outgoing(wf.edges, node), picked) ==> HasNode(wf, t)
  {
  }

  /** `_approver`: some approved approval step is an ancestor of `node`. */
  ghost predicate HasApprover(wf: Workflow, steps: seq<Step>, node: string) {
    exists k :: 0 <= k < |steps| && steps[k].decision == Some(Approved) && LeadsOn(wf.edges, steps[k].node, node)
  }

  /** The workflow a run executes, the policy it was validated under, and the actions that may be repeated. */
  datatype World = World(wf: Workflow, policy: Policy, host: Host, idempotent: string -> bool)

  /** The node's action says that repeating it is harmless. */
  predicate Repeatable(w: World, n: Node) {
    w.idempotent(AsText(Get(n.config, "action"), w.host.text))
  }

  /** An action that may not be performed without an approver. */
  ghost predicate Guarded(w: World, node: string) {
    && !w.policy.allowUnapprovedWrites
    && HasNode(w.wf, node) && NeedsApproval(NodeById(w.wf.nodes, node), w.policy, w.host)
  }

  /** Performing, or possibly having performed. */
  predicate Performed(s: Status) {
    s == Running || s == Uncertain || s == Succeeded
  }

  ghost predicate HasKind(wf: Workflow, node: string, kind: NodeType) {
    HasNode(wf, node) && NodeById(wf.nodes, node).kind == kind
  }

  /** Steps that succeed and fire in one transaction: an approval by its decision, an action by a person. */
  predicate MayFinish(kind: NodeType, status: Status, decision: Option<Label>) {
    match kind
    case Condition => status == Pending && decision == None
    case Approval => status == Waiting && decision in {Some(Approved), Some(Denied), Some(TimedOut)}
    case WaitEvent => status == Waiting && decision == None
    case Timer => status == Waiting && decision == None
    case Agent => status == Waiting && decision == None
    case Action => status == Uncertain && decision == None
    case End => false
  }

  /** The labels such a step fires; `yes` is a condition's answer. */
  function Picks(wf: Workflow, n: Node, decision: Option<Label>, yes: bool): set<Option<Label>> {
    if n.kind == Condition then {Some(if yes then IfTrue else IfFalse)}
    else if n.kind == Approval then
      if decision == Some(Approved) then {None, Some(Approved)}
      else if decision == Some(TimedOut) && HasLabel(Outgoing(wf.edges, n.id), TimedOut) then {Some(TimedOut)}
      else {Some(Denied)}
    else {None}
  }

  /** Does the node go on after a failure? */
  predicate Handles(wf: Workflow, n: Node) {
    Get(n.config, "on_failure") == Str("continue") && HasLabel(Outgoing(wf.edges, n.id), WorkflowModel.Failed)
  }

  ghost predicate Enabled(w: World, st: State, m: Move) {
    match m
    case CancelRun => st.run == Active
    case Settle => st.run == Active && forall i :: 0 <= i < |st.steps| ==> !Open(st.steps[i].status)
    case _ => m.i < |st.steps| && HasNode(w.wf, st.steps[m.i].node) && MayMove(w, st, m)
  }

  /** An action's own writes ask for nothing but that its handler is under way: the row may have been skipped. */
  ghost predicate MayMove(w: World, st: State, m: Move)
    requires !m.CancelRun? && !m.Settle? && m.i < |st.steps| && HasNode(w.wf, st.steps[m.i].node)
  {
    var s, n := st.steps[m.i], NodeById(w.wf.nodes, st.steps[m.i].node);
    var kind := n.kind;
    match m
    case Shift(_, status) => kind != Action && IsActive(s.status) && IsActive(status)
    case Begin(_) =>
      && kind == Action
      && (s.status == Pending || (Repeatable(w, n) && (s.status == Running || (s.status == Skipped && s.begun))))
      && (Guarded(w, s.node) ==> HasApprover(w.wf, st.steps, s.node))
    case Unsure(_) => kind == Action && !Repeatable(w, n) && s.begun && (s.status == Running || s.status == Skipped)
    case Finish(_, decision, _) => MayFinish(kind, s.status, decision)
    case SucceedAction(_) => kind == Action && s.begun && (s.status == Running || s.status == Skipped)
    case FireAction(_) => kind == Action && s.status == Succeeded && s.fired == {}
    case StepFails(_) => IsActive(s.status) || (s.status == Skipped && s.begun)
    case WaitTimeout(_) => kind == WaitEvent && s.status != Pending
    case EventFires(_) => kind == WaitEvent && s.status == Skipped
    case Retry(_) => kind == Action && s.status == Uncertain
    case ResolveFailed(_) => kind == Action && s.status == Uncertain
    case EndRun(_) => kind == End && s.status == Pending && st.run == Active
  }

  ghost function CyclicNodes(wf: Workflow): set<string> {
    set n | n in wf.nodes && LeadsOn(wf.edges, n.id, n.id) :: n.id
  }

  function Put(st: State, i: nat, s: Step): State
    requires i < |st.steps|
  {
    st.(steps := st.steps[i := s])
  }

  /** Step `i` becomes `s` and fires the edges labelled `picked`. */
  ghost function FireFrom(w: World, st: State, i: nat, s: Step, picked: set<Option<Label>>): State
    requires NoDanglingEdges(w.wf) && i < |st.steps|
  {
    PickedAreSuccessors(w.wf, s.node, picked);
    Fire(w.wf, CyclicNodes(w.wf), Put(st, i, s.(fired := s.fired + picked)),
        PickedTargets(Outgoing(w.wf.edges, s.node), picked))
  }

  /** A refusal or a timeout that enters nothing fails the run. */
  function Answered(before: State, after: State, decision: Option<Label>): State {
    if decision in {Some(Denied), Some(TimedOut)} && |after.steps| == |before.steps| then Failed(after) else after
  }

  ghost function Apply(w: World, st: State, m: Move): State
    requires NoDanglingEdges(w.wf) && Enabled(w, st, m)
  {
    match m
    case CancelRun => State(SkipActive(st.steps), Cancelled)
    case Settle => st.(run := Completed)
    case _ => ApplyTo(w, st, m, st.steps[m.i], NodeById(w.wf.nodes, st.steps[m.i].node))
  }

  ghost function ApplyTo(w: World, st: State, m: Move, s: Step, n: Node): State
    requires NoDanglingEdges(w.wf) && !m.CancelRun? && !m.Settle? && m.i < |st.steps|
  {
    match m
    case Shift(i, status) => Put(st, i, s.(status := status))
    case Begin(i) => Put(st, i, s.(status := Running, begun := true))
    case Unsure(i) => Put(st, i, s.(status := Uncertain))
    case Finish(i, decision, yes) =>
      Answered(st, FireFrom(w, st, i, s.(status := Succeeded, decision := decision), Picks(w.wf, n, decision, yes)),
          decision)
    case SucceedAction(i) => Put(st, i, s.(status := Succeeded))
    case FireAction(i) => FireFrom(w, st, i, s, {None})
    case StepFails(i) =>
      var s' := s.(status := Failing);
      if Handles(w.wf, n) then FireFrom(w, st, i, s', {Some(WorkflowModel.Failed)}) else Failed(Put(st, i, s'))
    case WaitTimeout(i) =>
      var s' := if s.status == Waiting then s.(status := Failing) else s;
      if HasLabel(Outgoing(w.wf.edges, s.node), TimedOut) then FireFrom(w, st, i, s', {Some(TimedOut)})
      else Failed(Put(st, i, s'))
    case EventFires(i) => FireFrom(w, st, i, s, {None})
    case Retry(i) => Put(st, i, s.(status := Pending))
    case ResolveFailed(i) => Put(st, i, s.(status := Failing))
    case EndRun(i) =>
      State(SkipActive(Put(st, i, s.(status := Succeeded)).steps), if EndsInFailure(n) then RunFailed else Completed)
  }

  predicate EndsInFailure(n: Node) {
    "result" in n.config && n.config["result"] == Str("failure")
  }

  /** `start`: one pending step per entry node. */
  function Started(wf: Workflow): State {
    var entries := Entries(wf);
    State(seq(|entries|, i requires 0 <= i < |entries| => Fresh(entries[i].id, 1)), Active)
  }

  // ---------------------------------------------------------------- what every move keeps

  /**
   One row by itself. Decisions are on succeeded approvals; an approval that succeeded or fired has one; an action that
   is or may have been performed passed its checks; an action that fired is over.
   */
  ghost predicate Fits(w: World, s: Step) {
    && HasNode(w.wf, s.node) && 1 <= s.visit <= NodeById(w.wf.nodes, s.node).maxVisits
    && var kind := NodeById(w.wf.nodes, s.node).kind;
       && (s.decision.Some? ==> kind == Approval && s.status == Succeeded)
       && (kind == Approval && (s.status == Succeeded || s.fired != {}) ==> s.decision.Some?)
       && (kind == Action && Performed(s.status) ==> s.begun)
       && (s.begun ==> kind == Action)
       && (kind == Action && s.fired != {} ==> s.status == Succeeded || s.status == Failing)
       && (kind == Action && s.status == Succeeded ==> s.fired <= {None})
  }

  ghost predicate AllFit(w: World, steps: seq<Step>) {
    forall i :: 0 <= i < |steps| ==> Fits(w, steps[i])
  }

  /** The visits of one node count up. */
  ghost predicate VisitsCountUp(steps: seq<Step>) {
    forall i, j :: 0 <= i < j < |steps| && steps[i].node == steps[j].node ==> steps[i].visit < steps[j].visit
  }

  /** This step fired an edge to `target`. */
  ghost predicate FiredTo(wf: Workflow, s: Step, target: string) {
    exists e :: e in wf.edges && e.source == s.node && e.target == target && e.when in s.fired
  }

  /** A step is at an entry or an earlier step fired an edge to it. */
  ghost predicate HasCause(wf: Workflow, steps: seq<Step>, j: nat)
    requires j < |steps|
  {
    || steps[j].node in Ids(Entries(wf))
    || exists i :: 0 <= i < j && FiredTo(wf, steps[i], steps[j].node)
  }

  ghost predicate AllCaused(wf: Workflow, steps: seq<Step>) {
    forall j :: 0 <= j < |steps| ==> HasCause(wf, steps, j)
  }

  ghost predicate ApproverKnown(w: World, steps: seq<Step>) {
    forall i :: 0 <= i < |steps| && steps[i].begun && Guarded(w, steps[i].node) ==>
        HasApprover(w.wf, steps, steps[i].node)
  }

  ghost predicate Entered(steps: seq<Step>, node: string) {
    exists i :: 0 <= i < |steps| && steps[i].node == node
  }

  /** Every edge that was fired led somewhere. */
  ghost predicate Delivered(wf: Workflow, steps: seq<Step>) {
    forall i, t :: 0 <= i < |steps| && FiredTo(wf, steps[i], t) ==> Entered(steps, t)
  }

  ghost predicate EntriesEntered(wf: Workflow, steps: seq<Step>) {
    forall t :: t in Ids(Entries(wf)) ==> Entered(steps, t)
  }

  /** What holds whatever became of the run. */
  ghost predicate Core(w: World, steps: seq<Step>) {
    && AllFit(w, steps)
    && VisitsCountUp(steps)
    && AllCaused(w.wf, steps)
    && ApproverKnown(w, steps)
    && EntriesEntered(w.wf, steps)
  }

  ghost predicate Inv(w: World, st: State) {
    Core(w, st.steps) && (st.run == Active ==> Delivered(w.wf, st.steps))
  }

  /** Rows are never removed, renamed or renumbered; no decision, fired edge or start is taken back. */
  ghost predicate Grows(s: Step, t: Step) {
    && t.node == s.node && t.visit == s.visit && s.fired <= t.fired && (s.begun ==> t.begun)
    && (s.decision.Some? ==> t.decision == s.decision)
  }

  ghost predicate AllGrow(steps: seq<Step>, after: seq<Step>) {
    |steps| <= |after| && forall i :: 0 <= i < |steps| ==> Grows(steps[i], after[i])
  }

  lemma GrowsComposes(a: seq<Step>, b: seq<Step>, c: seq<Step>)
    requires AllGrow(a, b) && AllGrow(b, c)
    ensures AllGrow(a, c)
  {
  }

  lemma GrowKeepsApprover(wf: Workflow, steps: seq<Step>, after: seq<Step>, node: string)
    requires AllGrow(steps, after) && HasApprover(wf, steps, node)
    ensures HasApprover(wf, after, node)
  {
    hide LeadsOn;
    var k :| 0 <= k < |steps| && steps[k].decision == Some(Approved) && LeadsOn(wf.edges, steps[k].node, node);
    assert Grows(steps[k], after[k]);
  }

  lemma GrowKeepsFired(wf: Workflow, s: Step, t: Step, target: string)
    requires Grows(s, t) && FiredTo(wf, s, target)
    ensures FiredTo(wf, t, target)
  {
    var e :| e in wf.edges && e.source == s.node && e.target == target && e.when in s.fired;
    assert e.when in t.fired;
  }

  lemma GrowKeepsCause(wf: Workflow, steps: seq<Step>, after: seq<Step>, j: nat)
    requires AllGrow(steps, after) && j < |steps| && HasCause(wf, steps, j)
    ensures HasCause(wf, after, j)
  {
    hide FiredTo;
    assert Grows(steps[j], after[j]);
    if steps[j].node !in Ids(Entries(wf)) {
      var i :| 0 <= i < j && FiredTo(wf, steps[i], steps[j].node);
      GrowKeepsFired(wf, steps[i], after[i], steps[j].node);
    }
  }

  lemma GrowKeepsEntered(steps: seq<Step>, after: seq<Step>, node: string)
    requires AllGrow(steps, after) && Entered(steps, node)
    ensures Entered(after, node)
  {
    var i :| 0 <= i < |steps| && steps[i].node == node;
    assert Grows(steps[i], after[i]);
  }

  /** Rows of the same number that grew, fit, and begin only with an approver keep the core. */
  lemma GrowKeeps(w: World, steps: seq<Step>, after: seq<Step>)
    requires Core(w, steps) && AllGrow(steps, after) && |steps| == |after| && AllFit(w, after)
    requires forall i :: 0 <= i < |steps| && after[i].begun && !steps[i].begun && Guarded(w, steps[i].node) ==>
               HasApprover(w.wf, steps, steps[i].node)
    ensures Core(w, after)
  {
    hide Fits, HasCause, HasApprover, Guarded, Entered;
    forall j | 0 <= j < |after| ensures HasCause(w.wf, after, j) {
      assert HasCause(w.wf, steps, j);
      GrowKeepsCause(w.wf, steps, after, j);
    }
    forall i | 0 <= i < |after| && after[i].begun && Guarded(w, after[i].node)
        ensures HasApprover(w.wf, after, after[i].node) {
      assert Grows(steps[i], after[i]);
      GrowKeepsApprover(w.wf, steps, after, after[i].node);
    }
    forall t | t in Ids(Entries(w.wf)) ensures Entered(after, t) { GrowKeepsEntered(steps, after, t); }
    forall i, j | 0 <= i < j < |after| && after[i].node == after[j].node ensures after[i].visit < after[j].visit {
      assert Grows(steps[i], after[i]) && Grows(steps[j], after[j]);
    }
  }

  lemma SkipKeeps(w: World, steps: seq<Step>)
    requires Core(w, steps)
    ensures Core(w, SkipActive(steps)) && AllGrow(steps, SkipActive(steps))
  {
    hide HasCause, HasApprover, Guarded, Entered, HasNode, AllCaused, VisitsCountUp, ApproverKnown, EntriesEntered;
    var after := SkipActive(steps);
    forall i | 0 <= i < |steps|
        ensures Grows(steps[i], after[i]) && Fits(w, after[i]) && after[i].begun == steps[i].begun {
      assert Fits(w, steps[i]);
    }
    GrowKeeps(w, steps, after);
  }

  /** Replacing one row by one that grew and fits. */
  lemma PutKeeps(w: World, st: State, i: nat, s: Step)
    requires Core(w, st.steps) && i < |st.steps| && Grows(st.steps[i], s) && Fits(w, s)
    requires s.begun && !st.steps[i].begun && Guarded(w, s.node) ==> HasApprover(w.wf, st.steps, s.node)
    ensures Core(w, Put(st, i, s).steps) && AllGrow(st.steps, Put(st, i, s).steps)
  {
    hide Fits, HasApprover, Guarded, AllCaused, VisitsCountUp, EntriesEntered, ApproverKnown;
    GrowKeeps(w, st.steps, Put(st, i, s).steps);
  }

  lemma PutSameFiredDelivers(w: World, st: State, i: nat, s: Step)
    requires Delivered(w.wf, st.steps) && i < |st.steps| && Grows(st.steps[i], s) && s.fired == st.steps[i].fired
    ensures Delivered(w.wf, Put(st, i, s).steps)
  {
    hide FiredTo, Entered;
    var after := Put(st, i, s).steps;
    assert AllGrow(st.steps, after);
    forall k, t | 0 <= k < |after| && FiredTo(w.wf, after[k], t) ensures Entered(after, t) {
      assert FiredTo(w.wf, st.steps[k], t) by { if k == i { SameFired(w.wf, st.steps[i], s, t); } }
      GrowKeepsEntered(st.steps, after, t);
    }
  }

  lemma SameFired(wf: Workflow, s: Step, t: Step, target: string)
    requires s.node == t.node && s.fired == t.fired
    ensures FiredTo(wf, s, target) <==> FiredTo(wf, t, target)
  {
  }

  lemma {:induction false} LastVisitIsHighest(steps: seq<Step>, node: string)
    requires VisitsCountUp(steps)
    ensures forall i :: 0 <= i < |steps| && steps[i].node == node ==> steps[i].visit <= LastVisit(steps, node)
  {
    if steps != [] {
      var rest := steps[..|steps| - 1];
      assert VisitsCountUp(rest);
      LastVisitIsHighest(rest, node);
      forall i | 0 <= i < |steps| && steps[i].node == node ensures steps[i].visit <= LastVisit(steps, node) {
        if i < |rest| { assert steps[i] == rest[i]; }
      }
    }
  }

  lemma AppendKeepsVisits(steps: seq<Step>, target: string)
    requires VisitsCountUp(steps)
    ensures VisitsCountUp(steps + [Fresh(target, LastVisit(steps, target) + 1)])
  {
    LastVisitIsHighest(steps, target);
  }

  /** Appending a caused step with the next visit keeps the core. */
  lemma AppendKeeps(w: World, steps: seq<Step>, target: string, cause: nat)
    requires Core(w, steps) && HasNode(w.wf, target)
             && LastVisit(steps, target) + 1 <= NodeById(w.wf.nodes, target).maxVisits
    requires cause < |steps| && FiredTo(w.wf, steps[cause], target)
    ensures var after := steps + [Fresh(target, LastVisit(steps, target) + 1)];
            Core(w, after) && AllGrow(steps, after) && Entered(after, target)
  {
    hide HasApprover, Guarded, FiredTo, VisitsCountUp, HasNode;
    var more := Fresh(target, LastVisit(steps, target) + 1);
    var after := steps + [more];
    AppendKeepsVisits(steps, target);
    assert AllGrow(steps, after) && after[|steps|] == more;
    assert after[cause] == steps[cause];
    forall j | 0 <= j < |after| ensures HasCause(w.wf, after, j) {
      if j < |steps| {
        assert HasCause(w.wf, steps, j);
        GrowKeepsCause(w.wf, steps, after, j);
      }
    }
    forall i | 0 <= i < |after| && after[i].begun && Guarded(w, after[i].node)
        ensures HasApprover(w.wf, after, after[i].node) {
      assert i < |steps| && after[i] == steps[i];
      GrowKeepsApprover(w.wf, steps, after, after[i].node);
    }
    forall t | t in Ids(Entries(w.wf)) ensures Entered(after, t) { GrowKeepsEntered(steps, after, t); }
  }

  /** Firing keeps the core and, unless it fails the run, enters every target. */
  lemma {:induction false} FireKeeps(w: World, cyclic: set<string>, st: State, targets: seq<string>, cause: nat)
    requires Core(w, st.steps) && cause < |st.steps| && forall n :: n in w.wf.nodes ==> n.maxVisits >= 1
    requires forall t :: t in targets ==> HasNode(w.wf, t) && FiredTo(w.wf, st.steps[cause], t)
    ensures var out := Fire(w.wf, cyclic, st, targets);
            && Core(w, out.steps) && AllGrow(st.steps, out.steps) && (out.run == st.run || out.run == RunFailed)
            && (out.run != RunFailed ==> forall t :: t in targets ==> Entered(out.steps, t))
    decreases |targets|
  {
    hide Core, HasOpen, FiredTo, Entered, Grows;
    if targets == [] {
      Unchanged(st.steps);
    } else {
      var t, visit := targets[0], LastVisit(st.steps, targets[0]) + 1;
      assert t in targets && forall x :: x in targets[1..] ==> x in targets;
      assert HasNode(w.wf, t);
      var next := st;
      Unchanged(st.steps);
      if !HasOpen(st.steps, t) && visit <= NodeById(w.wf.nodes, t).maxVisits {
        AppendKeeps(w, st.steps, t, cause);
        next := st.(steps := st.steps + [Fresh(t, visit)]);
        assert next.steps[cause] == st.steps[cause];
      } else if !HasOpen(st.steps, t) && t in cyclic {
        SkipKeeps(w, st.steps);
      } else {
        AlreadyEntered(st.steps, t, NodeById(w.wf.nodes, t).maxVisits);
      }
      if HasOpen(st.steps, t) || visit <= NodeById(w.wf.nodes, t).maxVisits || t !in cyclic {
        FireKeeps(w, cyclic, next, targets[1..], cause);
        var out := Fire(w.wf, cyclic, st, targets);
        GrowsComposes(st.steps, next.steps, out.steps);
        GrowKeepsEntered(next.steps, out.steps, t);
        assert forall x :: x in targets <==> x == t || x in targets[1..];
      }
    }
  }

  lemma Unchanged(steps: seq<Step>)
    ensures AllGrow(steps, steps)
  {
  }

  /** A target that is on its way, or that has had its visits, has a step. */
  lemma {:induction false} AlreadyEntered(steps: seq<Step>, t: string, most: int)
    requires HasOpen(steps, t) || (most >= 1 && LastVisit(steps, t) + 1 > most)
    ensures Entered(steps, t)
  {
    if HasOpen(steps, t) {
      var i :| 0 <= i < |steps| && steps[i].node == t && Open(steps[i].status);
    } else if steps[|steps| - 1].node != t {
      var rest := steps[..|steps| - 1];
      AlreadyEntered(rest, t, most);
      var i :| 0 <= i < |rest| && rest[i].node == t;
      assert steps[i].node == t;
    }
  }

  /** A step that grew, fits and fires: the whole of a firing move. */
  lemma FireFromKeeps(w: World, st: State, i: nat, s: Step, picked: set<Option<Label>>)
    requires NoDanglingEdges(w.wf) && Inv(w, st) && i < |st.steps| && forall n :: n in w.wf.nodes ==> n.maxVisits >= 1
    requires Grows(st.steps[i], s) && Fits(w, s.(fired := s.fired + picked)) && s.fired == st.steps[i].fired
             && s.begun == st.steps[i].begun
    ensures var out := FireFrom(w, st, i, s, picked);
            Inv(w, out) && AllGrow(st.steps, out.steps) && out.run in {st.run, RunFailed}
  {
    hide Fits, Core, HasNode, FiredTo, Delivered, Fire;
    var s' := s.(fired := s.fired + picked);
    var mid, targets := Put(st, i, s'), PickedTargets(Outgoing(w.wf.edges, s.node), picked);
    assert Grows(st.steps[i], s');
    PutKeeps(w, st, i, s');
    PickedAreSuccessors(w.wf, s.node, picked);
    forall t | t in targets ensures FiredTo(w.wf, mid.steps[i], t) { PickedIsFired(w.wf, s', picked, t); }
    FireKeeps(w, CyclicNodes(w.wf), mid, targets, i);
    var out := Fire(w.wf, CyclicNodes(w.wf), mid, targets);
    GrowsComposes(st.steps, mid.steps, out.steps);
    FireFollows(w.wf, CyclicNodes(w.wf), mid, targets);
    if out.run == Active { FireDelivers(w, st, i, s', picked, out); }
  }

  lemma PickedIsFired(wf: Workflow, s: Step, picked: set<Option<Label>>, t: string)
    requires picked <= s.fired && t in PickedTargets(Outgoing(wf.edges, s.node), picked)
    ensures FiredTo(wf, s, t)
  {
  }

  /** What firing does to the rows: old ones are kept, or skipped when the run fails; new ones have done nothing yet. */
  ghost predicate Follows(steps: seq<Step>, after: seq<Step>) {
    && |steps| <= |after|
    && (forall k :: 0 <= k < |steps| ==> after[k] == steps[k] || after[k] == Skip(steps[k]))
    && forall k :: |steps| <= k < |after| ==>
       after[k].fired == {} && (after[k].status == Pending || after[k].status == Skipped)
  }

  lemma {:induction false} FireFollows(wf: Workflow, cyclic: set<string>, st: State, targets: seq<string>)
    requires forall t :: t in targets ==> HasNode(wf, t)
    ensures Follows(st.steps, Fire(wf, cyclic, st, targets).steps)
    decreases |targets|
  {
    hide HasOpen, Follows;
    if targets == [] {
      FollowsSelf(st.steps);
    } else {
      var t, visit := targets[0], LastVisit(st.steps, targets[0]) + 1;
      assert t in targets && forall x :: x in targets[1..] ==> x in targets;
      FollowsSkip(st.steps);
      FireFollows(wf, cyclic, st, targets[1..]);
      var more := st.(steps := st.steps + [Fresh(t, visit)]);
      FireFollows(wf, cyclic, more, targets[1..]);
      FollowsAppend(st.steps, Fresh(t, visit), Fire(wf, cyclic, more, targets[1..]).steps);
    }
  }

  lemma FollowsSelf(steps: seq<Step>)
    ensures Follows(steps, steps)
  {
  }

  lemma FollowsSkip(steps: seq<Step>)
    ensures Follows(steps, SkipActive(steps))
  {
  }

  lemma FollowsAppend(steps: seq<Step>, more: Step, after: seq<Step>)
    requires more.fired == {} && more.status == Pending && Follows(steps + [more], after)
    ensures Follows(steps, after)
  {
    var mid := steps + [more];
    forall k | 0 <= k < |steps|
        ensures after[k] == steps[k] || after[k] == Skip(steps[k]) { assert mid[k] == steps[k]; }
    assert mid[|steps|] == more;
  }

  lemma FireDelivers(w: World, st: State, i: nat, s: Step, picked: set<Option<Label>>, out: State)
    requires i < |st.steps| && Delivered(w.wf, st.steps) && s.node == st.steps[i].node
             && s.fired == st.steps[i].fired + picked
    requires Follows(st.steps[i := s], out.steps) && AllGrow(st.steps, out.steps)
    requires forall t :: t in PickedTargets(Outgoing(w.wf.edges, s.node), picked) ==> Entered(out.steps, t)
    ensures Delivered(w.wf, out.steps)
  {
    hide Entered, AllGrow;
    forall k, t | 0 <= k < |out.steps| && FiredTo(w.wf, out.steps[k], t) ensures Entered(out.steps, t) {
      var e :| e in w.wf.edges && e.source == out.steps[k].node && e.target == t && e.when in out.steps[k].fired;
      assert k < |st.steps|;
      if k == i && e.when in picked {
        assert e in Outgoing(w.wf.edges, s.node);
      } else {
        assert e.source == st.steps[k].node && e.when in st.steps[k].fired;
        assert FiredTo(w.wf, st.steps[k], t);
        GrowKeepsEntered(st.steps, out.steps, t);
      }
    }
  }

  ghost predicate DistinctIds(nodes: seq<Node>) {
    forall a, b :: 0 <= a < b < |nodes| ==> nodes[a].id != nodes[b].id
  }

  lemma DistinctTail(nodes: seq<Node>)
    requires DistinctIds(nodes) && nodes != []
    ensures DistinctIds(nodes[1..]) && forall n :: n in nodes[1..] ==> n.id != nodes[0].id
  {
    forall n | n in nodes[1..] ensures n.id != nodes[0].id {
      var k :| 0 <= k < |nodes[1..]| && nodes[1..][k] == n;
      assert nodes[k + 1] == n;
    }
  }

  lemma DistinctCons(n: Node, rest: seq<Node>)
    requires DistinctIds(rest) && forall m :: m in rest ==> m.id != n.id
    ensures DistinctIds([n] + rest)
  {
    var all := [n] + rest;
    forall a, b | 0 <= a < b < |all| ensures all[a].id != all[b].id {
      assert all[b] == rest[b - 1] && rest[b - 1] in rest;
      if a > 0 { assert all[a] == rest[a - 1]; }
    }
  }

  lemma {:induction false} EntriesDiffer(nodes: seq<Node>, edges: seq<Edge>)
    requires DistinctIds(nodes)
    ensures DistinctIds(EntriesAmong(nodes, edges))
  {
    hide Targeted;
    if nodes != [] {
      assert DistinctIds(EntriesAmong(nodes[1..], edges)) by {
        DistinctTail(nodes);
        EntriesDiffer(nodes[1..], edges);
      }
      hide DistinctIds;
      DistinctTail(nodes);
      DistinctCons(nodes[0], EntriesAmong(nodes[1..], edges));
    }
  }

  lemma StartRows(w: World)
    requires Sane(w.wf)
    ensures var steps := Started(w.wf).steps;
            && (forall i :: 0 <= i < |steps| ==>
               Fits(w, steps[i]) && steps[i].node in Ids(Entries(w.wf)) && !steps[i].begun)
            && (forall i, t :: 0 <= i < |steps| ==> !FiredTo(w.wf, steps[i], t))
  {
    hide HasLabel;
    var entries, steps := Entries(w.wf), Started(w.wf).steps;
    forall i | 0 <= i < |steps| ensures Fits(w, steps[i]) && steps[i].node in Ids(entries) {
      assert entries[i] in w.wf.nodes && Ids(entries)[i] == steps[i].node;
    }
  }

  lemma StartEnters(wf: Workflow, t: string)
    requires t in Ids(Entries(wf))
    ensures Entered(Started(wf).steps, t)
  {
    var i :| 0 <= i < |Ids(Entries(wf))| && Ids(Entries(wf))[i] == t;
    assert Started(wf).steps[i].node == t;
  }

  lemma StartCountsUp(wf: Workflow)
    requires NoDuplicateIds(wf)
    ensures VisitsCountUp(Started(wf).steps)
  {
    hide Targeted;
    EntriesDiffer(wf.nodes, wf.edges);
  }

  /** A run starts with the invariant: entries may be visited and are told apart by their ids. */
  lemma StartKeeps(w: World)
    requires Sane(w.wf)
    ensures Inv(w, Started(w.wf))
  {
    hide Guarded, Fits, FiredTo, Entered, VisitsCountUp, HasApprover, Started;
    StartRows(w);
    StartCountsUp(w.wf);
    forall t | t in Ids(Entries(w.wf)) ensures Entered(Started(w.wf).steps, t) { StartEnters(w.wf, t); }
  }

  /** What the moves rely on: a well-formed graph, room for a visit, and no `failed` edge after an approval. */
  ghost predicate Sane(wf: Workflow) {
    && WellFormed(wf) && (forall n :: n in wf.nodes ==> n.maxVisits >= 1)
    && forall n :: n in wf.nodes && n.kind == Approval ==> !HasLabel(Outgoing(wf.edges, n.id), WorkflowModel.Failed)
  }

  /** A move that replaces one row and fires nothing. */
  lemma PutInv(w: World, st: State, i: nat, s: Step)
    requires Inv(w, st) && i < |st.steps| && Grows(st.steps[i], s) && Fits(w, s) && s.fired == st.steps[i].fired
    requires s.begun && !st.steps[i].begun && Guarded(w, s.node) ==> HasApprover(w.wf, st.steps, s.node)
    ensures Inv(w, Put(st, i, s)) && AllGrow(st.steps, Put(st, i, s).steps)
  {
    hide Core, Delivered, Fits, Guarded, HasApprover;
    PutKeeps(w, st, i, s);
    if st.run == Active { PutSameFiredDelivers(w, st, i, s); }
  }

  /** Skipping what is active, with the run over. */
  lemma SkipInv(w: World, before: seq<Step>, st: State, run: RunStatus)
    requires Inv(w, st) && AllGrow(before, st.steps) && run != Active
    ensures Inv(w, State(SkipActive(st.steps), run)) && AllGrow(before, SkipActive(st.steps))
  {
    hide Core, Delivered, AllGrow;
    SkipKeeps(w, st.steps);
    GrowsComposes(before, st.steps, SkipActive(st.steps));
  }

  lemma RowFits(w: World, st: State, i: nat)
    requires Inv(w, st) && i < |st.steps|
    ensures Fits(w, st.steps[i])
  {
  }

  lemma RowKeeps(w: World, st: State, m: Move)
    requires Sane(w.wf) && Inv(w, st) && Enabled(w, st, m) && !m.CancelRun? && !m.Settle?
    requires m.Shift? || m.Begin? || m.Unsure? || m.SucceedAction? || m.Retry? || m.ResolveFailed? || m.EndRun?
    ensures Inv(w, Apply(w, st, m)) && AllGrow(st.steps, Apply(w, st, m).steps)
  {
    hide Inv, Sane, HasNode, HasApprover, Guarded, AllGrow;
    var s := st.steps[m.i];
    RowFits(w, st, m.i);
    match m {
      case Shift(i, status) => PutInv(w, st, i, s.(status := status));
      case Begin(i) => PutInv(w, st, i, s.(status := Running, begun := true));
      case Unsure(i) => PutInv(w, st, i, s.(status := Uncertain));
      case SucceedAction(i) => PutInv(w, st, i, s.(status := Succeeded));
      case Retry(i) => PutInv(w, st, i, s.(status := Pending));
      case ResolveFailed(i) => PutInv(w, st, i, s.(status := Failing));
      case EndRun(i) =>
        PutInv(w, st, i, s.(status := Succeeded));
        var n := NodeById(w.wf.nodes, s.node);
        SkipInv(w, st.steps, Put(st, i, s.(status := Succeeded)), if EndsInFailure(n) then RunFailed else Completed);
    }
  }

  lemma PicksFit(w: World, s: Step, decision: Option<Label>, yes: bool)
    requires Fits(w, s) && MayFinish(NodeById(w.wf.nodes, s.node).kind, s.status, decision)
    ensures var s', n := s.(status := Succeeded, decision := decision), NodeById(w.wf.nodes, s.node);
            Grows(s, s') && Fits(w, s'.(fired := s'.fired + Picks(w.wf, n, decision, yes)))
  {
    hide HasNode, HasLabel;
  }

  lemma FinishKeeps(w: World, st: State, i: nat, decision: Option<Label>, yes: bool)
    requires Sane(w.wf) && Inv(w, st) && Enabled(w, st, Finish(i, decision, yes))
    ensures var out := Apply(w, st, Finish(i, decision, yes)); Inv(w, out) && AllGrow(st.steps, out.steps)
  {
    hide Inv, HasNode, AllGrow, FireFrom, Picks, Fits, HasLabel;
    var s := st.steps[i];
    RowFits(w, st, i);
    PicksFit(w, s, decision, yes);
    var n, s' := NodeById(w.wf.nodes, s.node), s.(status := Succeeded, decision := decision);
    FireFromKeeps(w, st, i, s', Picks(w.wf, n, decision, yes));
    SkipInv(w, st.steps, FireFrom(w, st, i, s', Picks(w.wf, n, decision, yes)), RunFailed);
  }

  lemma FailKeeps(w: World, st: State, i: nat)
    requires Sane(w.wf) && Inv(w, st) && Enabled(w, st, StepFails(i))
    ensures var out := Apply(w, st, StepFails(i)); Inv(w, out) && AllGrow(st.steps, out.steps)
  {
    hide Inv, HasNode, AllGrow, FireFrom, HasLabel;
    var s := st.steps[i];
    RowFits(w, st, i);
    var n, s' := NodeById(w.wf.nodes, s.node), s.(status := Failing);
    if Handles(w.wf, n) {
      assert n.kind != Approval;
      FireFromKeeps(w, st, i, s', {Some(WorkflowModel.Failed)});
    } else {
      PutInv(w, st, i, s');
      SkipInv(w, st.steps, Put(st, i, s'), RunFailed);
    }
  }

  lemma TimeoutKeeps(w: World, st: State, i: nat)
    requires Sane(w.wf) && Inv(w, st) && Enabled(w, st, WaitTimeout(i))
    ensures var out := Apply(w, st, WaitTimeout(i)); Inv(w, out) && AllGrow(st.steps, out.steps)
  {
    hide Inv, HasNode, AllGrow, FireFrom, HasLabel;
    var s := st.steps[i];
    RowFits(w, st, i);
    var s' := if s.status == Waiting then s.(status := Failing) else s;
    if HasLabel(Outgoing(w.wf.edges, s.node), TimedOut) {
      FireFromKeeps(w, st, i, s', {Some(TimedOut)});
    } else {
      PutInv(w, st, i, s');
      SkipInv(w, st.steps, Put(st, i, s'), RunFailed);
    }
  }

  lemma LaterFireKeeps(w: World, st: State, m: Move)
    requires Sane(w.wf) && Inv(w, st) && Enabled(w, st, m) && (m.FireAction? || m.EventFires?)
    ensures Inv(w, Apply(w, st, m)) && AllGrow(st.steps, Apply(w, st, m).steps)
  {
    hide Inv, HasNode, AllGrow, FireFrom;
    RowFits(w, st, m.i);
    FireFromKeeps(w, st, m.i, st.steps[m.i], {None});
  }

  /** Every move keeps the invariant, in whatever state the run is, and takes nothing back. */
  lemma MoveKeeps(w: World, st: State, m: Move)
    requires Sane(w.wf) && Inv(w, st) && Enabled(w, st, m)
    ensures Inv(w, Apply(w, st, m)) && AllGrow(st.steps, Apply(w, st, m).steps)
  {
    hide Inv, Sane, AllGrow, Enabled, ApplyTo;
    match m {
      case CancelRun =>
        Unchanged(st.steps);
        SkipInv(w, st.steps, st, Cancelled);
      case Settle =>
        Unchanged(st.steps);
        OverKeeps(w, st, Completed);
      case Finish(i, decision, yes) => FinishKeeps(w, st, i, decision, yes);
      case StepFails(i) => FailKeeps(w, st, i);
      case WaitTimeout(i) => TimeoutKeeps(w, st, i);
      case FireAction(i) => LaterFireKeeps(w, st, m);
      case EventFires(i) => LaterFireKeeps(w, st, m);
      case _ => RowKeeps(w, st, m);
    }
  }

  lemma OverKeeps(w: World, st: State, run: RunStatus)
    requires Inv(w, st) && run != Active
    ensures Inv(w, st.(run := run))
  {
  }

  // ---------------------------------------------------------------- whole histories

  /** The state after a sequence of moves from the start; None when one of them was not possible. */
  ghost function After(w: World, moves: seq<Move>): Option<State>
    requires NoDanglingEdges(w.wf)
  {
    if moves == [] then Some(Started(w.wf))
    else
      match After(w, moves[..|moves| - 1])
      case None => None
      case Some(st) => if Enabled(w, st, moves[|moves| - 1]) then Some(Apply(w, st, moves[|moves| - 1])) else None
  }

  /** A workflow that was parsed and validated before it runs. */
  ghost predicate Runnable(w: World) {
    Valid(w.wf, w.policy, w.host) && WithinLimits(w.wf)
  }

  lemma {:induction false} NotBroken(rules: seq<(bool, Code)>, id: string, k: nat)
    requires Broken(rules, id) == [] && k < |rules|
    ensures !rules[k].0
  {
    if k > 0 { NotBroken(rules[1..], id, k - 1); }
  }

  /** The validator lets no approval have a `failed` edge. */
  lemma ApprovalEdges(wf: Workflow, n: Node, policy: Policy, host: Host)
    requires LocalProblems(n, Outgoing(wf.edges, n.id), policy, host) == [] && n.kind == Approval
    ensures !HasLabel(Outgoing(wf.edges, n.id), WorkflowModel.Failed)
  {
    var out := Outgoing(wf.edges, n.id);
    var rules := LocalRules(n, out, policy, host);
    NotBroken(rules, n.id, 8);
    assert rules[8].0 == exists e :: e in out && e.when !in {None, Some(Approved), Some(Denied), Some(TimedOut)};
  }

  lemma ValidIsSane(w: World)
    requires Runnable(w)
    ensures Sane(w.wf)
  {
    hide LocalProblems, HasLabel, GraphOk, AllGated, VariablesOk, ReferencesOk;
    forall n | n in w.wf.nodes && n.kind == Approval
        ensures !HasLabel(Outgoing(w.wf.edges, n.id), WorkflowModel.Failed) {
      var i :| 0 <= i < |w.wf.nodes| && w.wf.nodes[i] == n;
      assert NodeOk(w.wf, w.wf.nodes[i], w.policy, w.host);
      ApprovalEdges(w.wf, n, w.policy, w.host);
    }
  }

  lemma {:induction false} HistoryKeeps(w: World, moves: seq<Move>)
    requires Runnable(w)
    ensures After(w, moves).Some? ==> Inv(w, After(w, moves).value)
  {
    hide Inv, Apply, Enabled, Started, GraphOk, NodesOk, AllGated, VariablesOk, Sane;
    ValidIsSane(w);
    if moves == [] {
      StartKeeps(w);
    } else {
      HistoryKeeps(w, moves[..|moves| - 1]);
      match After(w, moves[..|moves| - 1]) {
        case None =>
        case Some(st) => if Enabled(w, st, moves[|moves| - 1]) { MoveKeeps(w, st, moves[|moves| - 1]); }
      }
    }
  }

  // ---- visits

  function NodesOf(steps: seq<Step>): seq<string> {
    seq(|steps|, i requires 0 <= i < |steps| => steps[i].node)
  }

  lemma {:induction false} VisitsAppend(w: seq<string>, x: string, id: string)
    ensures Visits(w + [x], id) == Visits(w, id) + (if x == id then 1 else 0)
  {
    if w != [] {
      assert (w + [x])[1..] == w[1..] + [x];
      VisitsAppend(w[1..], x, id);
    }
  }

  lemma {:induction false} VisitsAtMostLast(steps: seq<Step>, id: string)
    requires VisitsCountUp(steps) && forall i :: 0 <= i < |steps| ==> steps[i].visit >= 1
    ensures Visits(NodesOf(steps), id) <= LastVisit(steps, id)
  {
    if steps != [] {
      var rest, last := steps[..|steps| - 1], steps[|steps| - 1];
      assert NodesOf(steps) == NodesOf(rest) + [last.node];
      VisitsAppend(NodesOf(rest), last.node, id);
      assert VisitsCountUp(rest);
      VisitsAtMostLast(rest, id);
      if last.node == id { LastVisitBelow(rest, last); }
    }
  }

  lemma {:induction false} LastVisitBelow(rest: seq<Step>, last: Step)
    requires VisitsCountUp(rest + [last]) && last.visit >= 1
    ensures LastVisit(rest, last.node) < last.visit
  {
    if rest != [] {
      var k := |rest| - 1;
      assert (rest + [last])[k] == rest[k] && (rest + [last])[k + 1] == last;
      if rest[k].node != last.node {
        var shorter := rest[..k] + [last];
        forall i, j | 0 <= i < j < |shorter| && shorter[i].node == shorter[j].node
          ensures shorter[i].visit < shorter[j].visit
        {
          assert shorter[i] == (rest + [last])[i];
          if j == k { assert shorter[j] == (rest + [last])[k + 1]; } else { assert shorter[j] == (rest + [last])[j]; }
        }
        LastVisitBelow(rest[..k], last);
      }
    }
  }

  lemma {:induction false} LastVisitIsRecorded(steps: seq<Step>, id: string)
    ensures LastVisit(steps, id) == 0 || exists i ::
            0 <= i < |steps| && steps[i].node == id && steps[i].visit == LastVisit(steps, id)
  {
    if steps != [] && steps[|steps| - 1].node != id {
      LastVisitIsRecorded(steps[..|steps| - 1], id);
    }
  }

  /** In every history a node is entered at most `max_visits` times, and there are at most 200 * 20 steps in all. */
  lemma VisitsBounded(w: World, moves: seq<Move>, n: Node)
    requires Runnable(w) && After(w, moves).Some? && n in w.wf.nodes
    ensures Visits(NodesOf(After(w, moves).value.steps), n.id) <= n.maxVisits
  {
    hide Valid, NodesOk, GraphOk, AllGated, VariablesOk, After;
    HistoryKeeps(w, moves);
    ValidIsWellFormed(w);
    VisitsWithin(w, After(w, moves).value, n);
  }

  lemma ValidIsWellFormed(w: World)
    requires Runnable(w)
    ensures WellFormed(w.wf)
  {
    hide NodesOk, GraphOk, AllGated, VariablesOk;
  }

  lemma VisitsWithin(w: World, st: State, n: Node)
    requires NoDuplicateIds(w.wf) && WithinLimits(w.wf) && Inv(w, st) && n in w.wf.nodes
    ensures Visits(NodesOf(st.steps), n.id) <= n.maxVisits
  {
    hide AllCaused, ApproverKnown, EntriesEntered, Delivered;
    NodeByIdIs(w.wf, n);
    forall i | 0 <= i < |st.steps| ensures st.steps[i].visit >= 1 { assert Fits(w, st.steps[i]); }
    VisitsAtMostLast(st.steps, n.id);
    LastVisitIsRecorded(st.steps, n.id);
    forall i | 0 <= i < |st.steps| && st.steps[i].node == n.id ensures st.steps[i].visit <= n.maxVisits {
      assert Fits(w, st.steps[i]);
    }
  }

  lemma StepsBounded(w: World, moves: seq<Move>)
    requires Runnable(w) && After(w, moves).Some?
    ensures |After(w, moves).value.steps| <= MAX_NODES * MAX_VISITS_LIMIT
  {
    hide Valid, After, Inv;
    ValidIsWellFormed(w);
    var steps := After(w, moves).value.steps;
    HistoryKeeps(w, moves);
    forall x | x in NodesOf(steps) ensures exists n :: n in w.wf.nodes && n.id == x {
      var i :| 0 <= i < |steps| && NodesOf(steps)[i] == x;
      StepNodeKnown(w, After(w, moves).value, i);
    }
    forall n | n in w.wf.nodes ensures Visits(NodesOf(steps), n.id) <= n.maxVisits { VisitsBounded(w, moves, n); }
    WalkWithinAllowance(w.wf.nodes, NodesOf(steps));
    AllowanceBound(w.wf.nodes, MAX_VISITS_LIMIT);
  }

  lemma StepNodeKnown(w: World, st: State, i: nat)
    requires Inv(w, st) && i < |st.steps|
    ensures HasNode(w.wf, st.steps[i].node)
  {
    hide AllCaused, ApproverKnown, VisitsCountUp, EntriesEntered, Delivered;
  }

  // ---- the approval gate

  /** The nodes of `p`, its last one excepted, all have a step before position `j` that fired. */
  ghost predicate PassedBefore(steps: seq<Step>, p: seq<string>, j: nat) {
    forall k :: 0 <= k < |p| - 1 ==>
        exists i :: 0 <= i < j && i < |steps| && steps[i].node == p[k] && steps[i].fired != {}
  }

  /** Every step has a path of steps that fired, from an entry on, behind it. */
  lemma {:induction false} PathBehind(wf: Workflow, steps: seq<Step>, j: nat) returns (p: seq<string>)
    requires AllCaused(wf, steps) && j < |steps|
    ensures IsPath(wf.edges, p) && StartsAtEntry(wf, p) && p[|p| - 1] == steps[j].node
    ensures PassedBefore(steps, p, j)
  {
    hide HasEdge, FiredTo;
    assert HasCause(wf, steps, j);
    if steps[j].node in Ids(Entries(wf)) {
      p := [steps[j].node];
    } else {
      var i :| 0 <= i < j && FiredTo(wf, steps[i], steps[j].node);
      FiredIsEdge(wf, steps[i], steps[j].node);
      var q := PathBehind(wf, steps, i);
      PathJoins(wf.edges, q, [steps[j].node]);
      p := q + [steps[j].node];
      forall k | 0 <= k < |p| - 1
        ensures exists i :: 0 <= i < j && i < |steps| && steps[i].node == p[k] && steps[i].fired != {}
      {
        if k < |q| - 1 {
          var m :| 0 <= m < i && m < |steps| && steps[m].node == q[k] && steps[m].fired != {};
          assert steps[m].node == p[k];
        } else {
          assert steps[i].node == p[k];
        }
      }
    }
  }

  lemma FiredIsEdge(wf: Workflow, s: Step, target: string)
    requires FiredTo(wf, s, target)
    ensures HasEdge(wf.edges, s.node, target) && s.fired != {}
  {
    var e :| e in wf.edges && e.source == s.node && e.target == target && e.when in s.fired;
    var i :| 0 <= i < |wf.edges| && wf.edges[i] == e;
  }

  lemma FiredApprovalIsDecided(w: World, s: Step)
    requires Fits(w, s) && IsApproval(w.wf, s.node) && s.fired != {}
    ensures s.status == Succeeded && s.decision.Some?
  {
    hide HasNode;
  }

  /**
   In every history of a validated workflow: a step of an action that needs approval only exists after an approval
   node that leads to it was decided.
   */
  lemma GatePassed(w: World, moves: seq<Move>, j: nat)
    requires Runnable(w) && After(w, moves).Some? && j < |After(w, moves).value.steps|
    requires Guarded(w, After(w, moves).value.steps[j].node)
    ensures var steps := After(w, moves).value.steps;
            exists i ::
                && 0 <= i < j && IsApproval(w.wf, steps[i].node) && steps[i].status == Succeeded
                && steps[i].decision.Some? && LeadsOn(w.wf.edges, steps[i].node, steps[j].node)
  {
    hide Valid, After, IsApproval, VisitsCountUp, ApproverKnown, HasNode, Fits, EntriesEntered, Delivered, LeadsOn;
    ValidIsWellFormed(w);
    var steps := After(w, moves).value.steps;
    HistoryKeeps(w, moves);
    var p := PathBehind(w.wf, steps, j);
    var n := NodeById(w.wf.nodes, steps[j].node);
    GateOnEveryPath(w.wf, w.policy, w.host, n, p);
    var k :| 0 <= k < |p| - 1 && IsApproval(w.wf, p[k]);
    var i :| 0 <= i < j && i < |steps| && steps[i].node == p[k] && steps[i].fired != {};
    FiredApprovalIsDecided(w, steps[i]);
    PathBetween(w.wf.edges, p, k, |p| - 1);
    assert IsApproval(w.wf, steps[i].node);
  }

  /**
   And its handler only ever starts, let alone performs it, when someone approved at an approval node that leads to it.
   This covers an answer that comes after the step was skipped.
   */
  lemma PerformedOnlyApproved(w: World, moves: seq<Move>, j: nat)
    requires Runnable(w) && After(w, moves).Some? && j < |After(w, moves).value.steps|
    requires var s := After(w, moves).value.steps[j]; Guarded(w, s.node) && (s.begun || Performed(s.status))
    ensures var steps := After(w, moves).value.steps;
            exists k :: 0 <= k < |steps| && IsApproval(w.wf, steps[k].node) && steps[k].decision == Some(Approved)
                        && LeadsOn(w.wf.edges, steps[k].node, steps[j].node)
  {
    hide Valid, After, VisitsCountUp, AllCaused, Guarded, HasNode, LeadsOn, Performed, EntriesEntered, Delivered, Fits;
    ValidIsWellFormed(w);
    var steps := After(w, moves).value.steps;
    HistoryKeeps(w, moves);
    PerformedIsBegun(w, steps[j]);
    assert HasApprover(w.wf, steps, steps[j].node);
    var k :|
        0 <= k < |steps| && steps[k].decision == Some(Approved) && LeadsOn(w.wf.edges, steps[k].node, steps[j].node);
    DecidedIsApproval(w, steps[k]);
  }

  lemma PerformedIsBegun(w: World, s: Step)
    requires Fits(w, s) && Guarded(w, s.node) && (s.begun || Performed(s.status))
    ensures s.begun
  {
  }

  lemma DecidedIsApproval(w: World, s: Step)
    requires Fits(w, s) && s.decision.Some?
    ensures IsApproval(w.wf, s.node)
  {
  }

  // ---- idempotency keys

  function Decimal(n: nat): string {
    if n < 10 then ["0123456789"[n]] else Decimal(n / 10) + ["0123456789"[n % 10]]
  }

  lemma {:induction false} DecimalReadsBack(n: nat)
    ensures forall i :: 0 <= i < |Decimal(n)| ==> '0' <= Decimal(n)[i] <= '9'
    ensures DigitsValue(Decimal(n)) == n
  {
    if n >= 10 {
      DecimalReadsBack(n / 10);
      var d := Decimal(n);
      assert d[..|d| - 1] == Decimal(n / 10);
    } else {
      assert Decimal(n)[..0] == "";
      assert DigitsValue("") == 0;
    }
  }

  /** The idempotency key of a step: `run:node:visit`. */
  function Key(run: string, node: string, visit: nat): string {
    run + ":" + node + ":" + Decimal(visit)
  }

  lemma LongerNodeDiffers(run: string, a: string, b: string, s: string, t: string)
    requires ':' !in b && |a| < |b|
    ensures run + ":" + a + ":" + s != run + ":" + b + ":" + t
  {
    var x, y := run + ":" + a + ":" + s, run + ":" + b + ":" + t;
    assert x[|run| + 1 + |a|] == ':' && y[|run| + 1 + |a|] == b[|a|] && b[|a|] in b;
  }

  lemma KeyTellsNode(run: string, a: string, b: string, s: string, t: string)
    requires ':' !in a && ':' !in b && run + ":" + a + ":" + s == run + ":" + b + ":" + t
    ensures a == b && s == t
  {
    var x, y := run + ":" + a + ":" + s, run + ":" + b + ":" + t;
    var k := |run| + 1;
    if |a| < |b| { LongerNodeDiffers(run, a, b, s, t); }
    if |b| < |a| { LongerNodeDiffers(run, b, a, t, s); }
    assert x[k..k + |a|] == a && y[k..k + |b|] == b;
    assert x[k + |a| + 1..] == s && y[k + |b| + 1..] == t;
  }

  /** In every history two different steps have different idempotency keys. */
  lemma KeysDiffer(w: World, moves: seq<Move>, run: string, i: nat, j: nat)
    requires Runnable(w) && After(w, moves).Some? && i < j < |After(w, moves).value.steps|
    requires forall n :: n in w.wf.nodes ==> ':' !in n.id
    ensures var steps := After(w, moves).value.steps;
            Key(run, steps[i].node, steps[i].visit) != Key(run, steps[j].node, steps[j].visit)
  {
    hide Valid, After, AllCaused, ApproverKnown, Decimal, Fits, EntriesEntered, Delivered;
    ValidIsWellFormed(w);
    var steps := After(w, moves).value.steps;
    HistoryKeeps(w, moves);
    StepNodeKnown(w, After(w, moves).value, i);
    StepNodeKnown(w, After(w, moves).value, j);
    if Key(run, steps[i].node, steps[i].visit) == Key(run, steps[j].node, steps[j].visit) {
      KeyTellsNode(run, steps[i].node, steps[j].node, Decimal(steps[i].visit), Decimal(steps[j].visit));
      DecimalReadsBack(steps[i].visit);
      DecimalReadsBack(steps[j].visit);
    }
  }

  // ---- an action's two transactions

  /** Where every fired edge led somewhere, the nodes entered are exactly the entries and the targets of fired edges. */
  lemma EnteredExactly(w: World, st: State, t: string)
    requires Core(w, st.steps) && Delivered(w.wf, st.steps)
    ensures Entered(st.steps, t) <==>
            t in Ids(Entries(w.wf)) || exists k :: 0 <= k < |st.steps| && FiredTo(w.wf, st.steps[k], t)
  {
    hide AllFit, VisitsCountUp, ApproverKnown, FiredTo;
    if Entered(st.steps, t) {
      var j :| 0 <= j < |st.steps| && st.steps[j].node == t;
      assert HasCause(w.wf, st.steps, j);
    }
  }

  /**
   In every history of an active run, and so when it settles, the nodes entered are exactly the entries and the targets
   of the edges that were fired.
   */
  lemma EnteredIff(w: World, moves: seq<Move>, t: string)
    requires Runnable(w) && After(w, moves).Some? && After(w, moves).value.run == Active
    ensures var steps := After(w, moves).value.steps;
            Entered(steps, t) <==>
            t in Ids(Entries(w.wf)) || exists k :: 0 <= k < |steps| && FiredTo(w.wf, steps[k], t)
  {
    hide Valid, After, Core, Delivered, Entered, FiredTo;
    ValidIsWellFormed(w);
    HistoryKeeps(w, moves);
    EnteredExactly(w, After(w, moves).value, t);
  }

  /** A success that was recorded but never fired. */
  ghost predicate Unfired(w: World, steps: seq<Step>, i: nat) {
    i < |steps| && HasKind(w.wf, steps[i].node, Action) && steps[i].status == Succeeded && steps[i].fired == {}
  }

  /** The rows remember which of an action's two transactions took place. */
  ghost predicate Remembers(w: World, moves: seq<Move>, steps: seq<Step>) {
    && (forall i: nat :: SucceedAction(i) in moves && FireAction(i) !in moves ==> Unfired(w, steps, i))
    && (forall i: nat :: FireAction(i) in moves ==> i < |steps| && steps[i].status == Succeeded && steps[i].fired != {})
    && forall i: nat :: Unfired(w, steps, i) ==> SucceedAction(i) in moves
  }

  /** What one move does to an action's success. */
  ghost predicate Tells(w: World, steps: seq<Step>, m: Move, after: seq<Step>) {
    && |steps| <= |after|
    && (forall i: nat :: i < |steps| && steps[i].status == Succeeded ==>
          after[i].status == Succeeded && after[i].node == steps[i].node
              && (steps[i].fired != {} ==> after[i].fired != {}))
    && (forall i: nat :: Unfired(w, steps, i) && m != FireAction(i) ==> Unfired(w, after, i))
    && (forall i: nat :: Unfired(w, after, i) && !Unfired(w, steps, i) ==> m == SucceedAction(i))
    && (m.SucceedAction? ==> Unfired(w, after, m.i))
    && (m.FireAction? ==> m.i < |steps| && steps[m.i].status == Succeeded && after[m.i].fired != {})
  }

  lemma PutTells(w: World, steps: seq<Step>, m: Move, s: Step)
    requires (m.Shift? || m.Begin? || m.Unsure? || m.SucceedAction? || m.Retry? || m.ResolveFailed? || m.EndRun?)
             && m.i < |steps|
    requires steps[m.i].status != Succeeded && s.node == steps[m.i].node
    requires s.status == Succeeded ==> m.SucceedAction? || !HasKind(w.wf, s.node, Action)
    requires m.SucceedAction? ==> s.status == Succeeded && s.fired == {} && HasKind(w.wf, s.node, Action)
    ensures Tells(w, steps, m, steps[m.i := s])
  {
    hide HasKind;
  }

  lemma FollowsTells(w: World, steps: seq<Step>, i: nat, s: Step, m: Move, after: seq<Step>)
    requires i < |steps| && !m.SucceedAction? && Follows(steps[i := s], after) && s.node == steps[i].node
    requires steps[i].fired <= s.fired && (steps[i].status == Succeeded ==> s.status == Succeeded)
    requires HasKind(w.wf, s.node, Action) && s.status == Succeeded ==> s.fired != {}
    requires Unfired(w, steps, i) ==> m == FireAction(i)
    requires m.FireAction? ==> m.i == i && steps[i].status == Succeeded && s.fired != {}
    ensures Tells(w, steps, m, after)
  {
    hide HasKind;
    var mid := steps[i := s];
    forall k: nat | k < |steps| && k != i
        ensures after[k] == steps[k] || after[k] == Skip(steps[k]) { assert mid[k] == steps[k]; }
    assert after[i] == s || after[i] == Skip(s) by { assert mid[i] == s; }
  }

  lemma TellsThenSkip(w: World, steps: seq<Step>, m: Move, after: seq<Step>)
    requires Tells(w, steps, m, after)
    ensures Tells(w, steps, m, SkipActive(after))
  {
    hide HasKind;
    var out := SkipActive(after);
    forall i: nat ensures Unfired(w, after, i) <==> Unfired(w, out, i) { }
  }

  lemma RowTells(w: World, st: State, m: Move)
    requires NoDanglingEdges(w.wf) && Inv(w, st) && Enabled(w, st, m) && !m.CancelRun? && !m.Settle?
    requires m.Shift? || m.Begin? || m.Unsure? || m.SucceedAction? || m.Retry? || m.ResolveFailed? || m.EndRun?
    ensures Tells(w, st.steps, m, Apply(w, st, m).steps)
  {
    hide Inv, HasNode, HasApprover, Guarded, Tells;
    var s := st.steps[m.i];
    RowFits(w, st, m.i);
    match m {
      case Shift(i, status) => PutTells(w, st.steps, m, s.(status := status));
      case Begin(i) => PutTells(w, st.steps, m, s.(status := Running, begun := true));
      case Unsure(i) => PutTells(w, st.steps, m, s.(status := Uncertain));
      case SucceedAction(i) => PutTells(w, st.steps, m, s.(status := Succeeded));
      case Retry(i) => PutTells(w, st.steps, m, s.(status := Pending));
      case ResolveFailed(i) => PutTells(w, st.steps, m, s.(status := Failing));
      case EndRun(i) =>
        PutTells(w, st.steps, m, s.(status := Succeeded));
        TellsThenSkip(w, st.steps, m, st.steps[i := s.(status := Succeeded)]);
    }
  }

  lemma FireFromTells(w: World, st: State, m: Move, s: Step, picked: set<Option<Label>>)
    requires NoDanglingEdges(w.wf) && !m.SucceedAction? && !m.CancelRun? && !m.Settle? && m.i < |st.steps|
    requires s.node == st.steps[m.i].node && picked != {} && s.fired == st.steps[m.i].fired
    requires st.steps[m.i].status == Succeeded ==> s.status == Succeeded
    requires Unfired(w, st.steps, m.i) ==> m.FireAction?
    requires m.FireAction? ==> st.steps[m.i].status == Succeeded
    ensures Tells(w, st.steps, m, FireFrom(w, st, m.i, s, picked).steps)
  {
    hide HasKind, HasNode, Tells, Follows;
    var s' := s.(fired := s.fired + picked);
    PickedAreSuccessors(w.wf, s.node, picked);
    var targets := PickedTargets(Outgoing(w.wf.edges, s.node), picked);
    FireFollows(w.wf, CyclicNodes(w.wf), Put(st, m.i, s'), targets);
    var x :| x in picked;
    assert x in s'.fired;
    FollowsTells(w, st.steps, m.i, s', m, FireFrom(w, st, m.i, s, picked).steps);
  }

  lemma FailTells(w: World, st: State, m: Move, s: Step)
    requires (m.StepFails? || m.WaitTimeout?) && m.i < |st.steps| && s.node == st.steps[m.i].node
             && s.fired == st.steps[m.i].fired
    requires (st.steps[m.i].status == Succeeded ==> s.status == Succeeded) && !Unfired(w, st.steps, m.i)
    requires !(HasKind(w.wf, s.node, Action) && s.status == Succeeded)
    ensures Tells(w, st.steps, m, Failed(Put(st, m.i, s)).steps)
  {
    hide HasKind;
    var mid := st.steps[m.i := s];
    FollowsTells(w, st.steps, m.i, s, m, SkipActive(mid));
  }

  lemma FinishTells(w: World, st: State, i: nat, decision: Option<Label>, yes: bool)
    requires NoDanglingEdges(w.wf) && Enabled(w, st, Finish(i, decision, yes))
    ensures Tells(w, st.steps, Finish(i, decision, yes), Apply(w, st, Finish(i, decision, yes)).steps)
  {
    hide HasNode, Tells, FireFrom, HasLabel;
    var m, s := Finish(i, decision, yes), st.steps[i];
    var n, s' := NodeById(w.wf.nodes, s.node), s.(status := Succeeded, decision := decision);
    var picked := Picks(w.wf, n, decision, yes);
    FireFromTells(w, st, m, s', picked);
    TellsThenSkip(w, st.steps, m, FireFrom(w, st, i, s', picked).steps);
  }

  lemma MoveTells(w: World, st: State, m: Move)
    requires NoDanglingEdges(w.wf) && Inv(w, st) && Enabled(w, st, m)
    ensures Tells(w, st.steps, m, Apply(w, st, m).steps)
  {
    hide Inv, Tells, FireFrom, HasNode, HasLabel, Handles;
    match m {
      case CancelRun => NothingTold(w, st.steps, m); TellsThenSkip(w, st.steps, m, st.steps);
      case Settle => NothingTold(w, st.steps, m);
      case Finish(i, decision, yes) => FinishTells(w, st, i, decision, yes);
      case StepFails(i) =>
        FireFromTells(w, st, m, st.steps[i].(status := Failing), {Some(WorkflowModel.Failed)});
        FailTells(w, st, m, st.steps[i].(status := Failing));
      case WaitTimeout(i) =>
        var s := st.steps[i];
        var s' := if s.status == Waiting then s.(status := Failing) else s;
        FireFromTells(w, st, m, s', {Some(TimedOut)});
        FailTells(w, st, m, s');
      case FireAction(i) => FireFromTells(w, st, m, st.steps[i], {None});
      case EventFires(i) => FireFromTells(w, st, m, st.steps[i], {None});
      case _ => RowTells(w, st, m);
    }
  }

  lemma NothingTold(w: World, steps: seq<Step>, m: Move)
    requires m.CancelRun? || m.Settle?
    ensures Tells(w, steps, m, steps)
  {
  }

  lemma {:induction false} HistoryRemembers(w: World, moves: seq<Move>)
    requires Runnable(w)
    ensures After(w, moves).Some? ==> Remembers(w, moves, After(w, moves).value.steps)
  {
    hide Inv, Apply, Enabled, Valid, Tells, Remembers;
    ValidIsWellFormed(w);
    if moves == [] {
      StartRemembers(w);
    } else {
      var n := |moves| - 1;
      HistoryRemembers(w, moves[..n]);
      HistoryKeeps(w, moves[..n]);
      match After(w, moves[..n]) {
        case None =>
        case Some(st) =>
          if Enabled(w, st, moves[n]) {
            MoveTells(w, st, moves[n]);
            TellsRemembers(w, moves[..n], st.steps, moves[n], Apply(w, st, moves[n]).steps);
            assert moves == moves[..n] + [moves[n]];
          }
      }
    }
  }

  lemma StartRemembers(w: World)
    ensures Remembers(w, [], Started(w.wf).steps)
  {
    hide HasKind;
  }

  lemma TellsRemembers(w: World, moves: seq<Move>, steps: seq<Step>, m: Move, after: seq<Step>)
    requires Remembers(w, moves, steps) && Tells(w, steps, m, after)
    ensures Remembers(w, moves + [m], after)
  {
    hide Unfired;
    var more := moves + [m];
    forall x ensures x in more <==> x in moves || x == m { }
    forall i: nat | SucceedAction(i) in more && FireAction(i) !in more ensures Unfired(w, after, i) {
      if SucceedAction(i) in moves { assert Unfired(w, steps, i) && m != FireAction(i); }
    }
    forall i: nat | FireAction(i) in more ensures i < |after| && after[i].status == Succeeded && after[i].fired != {} {
      if FireAction(i) in moves { assert i < |steps| && steps[i].status == Succeeded && steps[i].fired != {}; }
    }
    forall i: nat | Unfired(w, after, i) ensures SucceedAction(i) in more {
      if !Unfired(w, steps, i) { assert m == SucceedAction(i); }
    }
  }

  /** Step `i` is an action that succeeded, and `e` an unlabelled edge out of it. */
  ghost predicate Follower(w: World, steps: seq<Step>, i: nat, e: Edge) {
    && i < |steps| && HasKind(w.wf, steps[i].node, Action) && steps[i].status == Succeeded
    && e in w.wf.edges && e.source == steps[i].node && e.when == None
  }

  /**
   An action records its success and fires its edges in two transactions. In every history that settles, an unlabelled
   successor of a succeeded action was never entered if and only if the first took place and the second did not, and
   no other step fired an edge to it.
   */
  lemma SuccessorLostIff(w: World, moves: seq<Move>, i: nat, e: Edge)
    requires Runnable(w) && After(w, moves).Some? && Enabled(w, After(w, moves).value, Settle)
    requires Follower(w, After(w, moves).value.steps, i, e)
    ensures var v := Apply(w, After(w, moves).value, Settle);
            && v.run == Completed
            && (!Entered(v.steps, e.target) <==>
                && SucceedAction(i) in moves && FireAction(i) !in moves
                && forall k :: 0 <= k < |v.steps| && k != i ==> !FiredTo(w.wf, v.steps[k], e.target))
  {
    hide Valid, After, HasKind, Entered, FiredTo, Core, Delivered, Fits;
    ValidIsWellFormed(w);
    HistoryKeeps(w, moves);
    HistoryRemembers(w, moves);
    var st := After(w, moves).value;
    EnteredExactly(w, st, e.target);
    NotAnEntry(w.wf, e);
    FiredOrNot(w, st, moves, i, e);
  }

  lemma NotAnEntry(wf: Workflow, e: Edge)
    requires e in wf.edges
    ensures e.target !in Ids(Entries(wf))
  {
    forall k | 0 <= k < |Entries(wf)| ensures Ids(Entries(wf))[k] != e.target {
      assert Entries(wf)[k] in Entries(wf);
    }
  }

  /** The action fired the edge exactly when its second transaction took place, or a person settled it. */
  lemma FiredOrNot(w: World, st: State, moves: seq<Move>, i: nat, e: Edge)
    requires Inv(w, st) && Remembers(w, moves, st.steps) && Follower(w, st.steps, i, e)
    ensures FiredTo(w.wf, st.steps[i], e.target) <==> !(SucceedAction(i) in moves && FireAction(i) !in moves)
  {
    hide AllCaused, VisitsCountUp, ApproverKnown, EntriesEntered, Delivered, HasNode;
    assert Fits(w, st.steps[i]);
    var s := st.steps[i];
    if SucceedAction(i) in moves && FireAction(i) !in moves {
      assert Unfired(w, st.steps, i);
    } else {
      assert !Unfired(w, st.steps, i);
      assert s.fired == {None};
    }
  }

  /** When every recorded success is also fired before the run settles, no successor is lost. */
  lemma NoneLost(w: World, moves: seq<Move>, i: nat, e: Edge)
    requires Runnable(w) && After(w, moves).Some? && Enabled(w, After(w, moves).value, Settle)
    requires forall k: nat :: SucceedAction(k) in moves ==> FireAction(k) in moves
    requires Follower(w, After(w, moves).value.steps, i, e)
    ensures Entered(Apply(w, After(w, moves).value, Settle).steps, e.target)
  {
    hide Valid, After, Follower;
    ValidIsWellFormed(w);
    SuccessorLostIff(w, moves, i, e);
  }

  // ---- what one move does to the rows

  /** The row a move writes; firing adds its labels. */
  ghost function RowOf(w: World, s: Step, n: Node, m: Move): Step
    requires !m.CancelRun? && !m.Settle?
  {
    match m
    case Shift(_, status) => s.(status := status)
    case Begin(_) => s.(status := Running, begun := true)
    case Unsure(_) => s.(status := Uncertain)
    case Finish(_, decision, yes) =>
      s.(status := Succeeded, decision := decision, fired := s.fired + Picks(w.wf, n, decision, yes))
    case SucceedAction(_) => s.(status := Succeeded)
    case FireAction(_) => s.(fired := s.fired + {None})
    case StepFails(_) =>
      s.(status := Failing, fired := if Handles(w.wf, n) then s.fired + {Some(WorkflowModel.Failed)} else s.fired)
    case WaitTimeout(_) =>
      s.(status := if s.status == Waiting then Failing else s.status,
         fired := if HasLabel(Outgoing(w.wf.edges, s.node), TimedOut) then s.fired + {Some(TimedOut)} else s.fired)
    case EventFires(_) => s.(fired := s.fired + {None})
    case Retry(_) => s.(status := Pending)
    case ResolveFailed(_) => s.(status := Failing)
    case EndRun(_) => s.(status := Succeeded)
  }

  /** The rows with that one row written, and nothing else done yet. */
  ghost function Written(w: World, st: State, m: Move): seq<Step>
    requires Enabled(w, st, m)
  {
    if m.CancelRun? || m.Settle? then st.steps
    else st.steps[m.i := RowOf(w, st.steps[m.i], NodeById(w.wf.nodes, st.steps[m.i].node), m)]
  }

  lemma FollowsThenSkip(steps: seq<Step>, after: seq<Step>)
    requires Follows(steps, after)
    ensures Follows(steps, SkipActive(after))
  {
  }

  lemma FireFromFollows(w: World, st: State, i: nat, s: Step, picked: set<Option<Label>>)
    requires NoDanglingEdges(w.wf) && i < |st.steps|
    ensures Follows(st.steps[i := s.(fired := s.fired + picked)], FireFrom(w, st, i, s, picked).steps)
    ensures FireFrom(w, st, i, s, picked).run in {st.run, RunFailed}
  {
    hide Follows, Fire;
    PickedAreSuccessors(w.wf, s.node, picked);
    var targets := PickedTargets(Outgoing(w.wf.edges, s.node), picked);
    var mid := Put(st, i, s.(fired := s.fired + picked));
    FireFollows(w.wf, CyclicNodes(w.wf), mid, targets);
    FireRun(w.wf, CyclicNodes(w.wf), mid, targets);
  }

  lemma {:induction false} FireRun(wf: Workflow, cyclic: set<string>, st: State, targets: seq<string>)
    requires forall t :: t in targets ==> HasNode(wf, t)
    ensures Fire(wf, cyclic, st, targets).run in {st.run, RunFailed}
    decreases |targets|
  {
    hide HasOpen;
    if targets != [] {
      var t, visit := targets[0], LastVisit(st.steps, targets[0]) + 1;
      assert t in targets && forall x :: x in targets[1..] ==> x in targets;
      FireRun(wf, cyclic, st, targets[1..]);
      FireRun(wf, cyclic, st.(steps := st.steps + [Fresh(t, visit)]), targets[1..]);
    }
  }

  lemma FinishFollows(w: World, st: State, i: nat, decision: Option<Label>, yes: bool)
    requires NoDanglingEdges(w.wf) && Enabled(w, st, Finish(i, decision, yes))
    ensures Follows(Written(w, st, Finish(i, decision, yes)), Apply(w, st, Finish(i, decision, yes)).steps)
    ensures Apply(w, st, Finish(i, decision, yes)).run in {st.run, RunFailed}
  {
    hide Follows, FireFrom, HasNode, Picks;
    var s := st.steps[i];
    var n, s' := NodeById(w.wf.nodes, s.node), s.(status := Succeeded, decision := decision);
    var picked := Picks(w.wf, n, decision, yes);
    FireFromFollows(w, st, i, s', picked);
    FollowsThenSkip(Written(w, st, Finish(i, decision, yes)), FireFrom(w, st, i, s', picked).steps);
  }

  lemma FailureFollows(w: World, st: State, m: Move)
    requires NoDanglingEdges(w.wf) && Enabled(w, st, m) && (m.StepFails? || m.WaitTimeout?)
    ensures Follows(Written(w, st, m), Apply(w, st, m).steps)
    ensures Apply(w, st, m).run == Active ==> st.run == Active && Written(w, st, m)[m.i].fired != {}
  {
    hide Follows, FireFrom, HasNode, Handles, HasLabel;
    var s := st.steps[m.i];
    var s' := s.(status := if m.StepFails? || s.status == Waiting then Failing else s.status);
    var picked := if m.StepFails? then {Some(WorkflowModel.Failed)} else {Some(TimedOut)};
    FireFromFollows(w, st, m.i, s', picked);
    FollowsSkip(Put(st, m.i, s').steps);
    assert Some(WorkflowModel.Failed) in s.fired + {Some(WorkflowModel.Failed)};
    assert Some(TimedOut) in s.fired + {Some(TimedOut)};
  }

  /** Every move writes one row, skips what is active or not, and adds rows that have done nothing yet. */
  lemma MoveFollows(w: World, st: State, m: Move)
    requires NoDanglingEdges(w.wf) && Enabled(w, st, m)
    ensures Follows(Written(w, st, m), Apply(w, st, m).steps)
    ensures Apply(w, st, m).run == Active ==>
              st.run == Active && (m.StepFails? || m.WaitTimeout? ==> Written(w, st, m)[m.i].fired != {})
  {
    hide Follows, FireFrom, HasNode, Picks, HasLabel, Handles;
    match m {
      case CancelRun => FollowsSkip(st.steps);
      case Settle => FollowsSelf(st.steps);
      case Finish(i, decision, yes) => FinishFollows(w, st, i, decision, yes);
      case StepFails(_) => FailureFollows(w, st, m);
      case WaitTimeout(_) => FailureFollows(w, st, m);
      case FireAction(i) => FireFromFollows(w, st, i, st.steps[i], {None});
      case EventFires(i) => FireFromFollows(w, st, i, st.steps[i], {None});
      case EndRun(i) => FollowsSkip(Written(w, st, m));
      case _ => FollowsSelf(Written(w, st, m));
    }
  }

  // ---- the crash rule: what cannot be repeated is begun again only by a person

  ghost predicate OneShot(w: World, node: string) {
    HasKind(w.wf, node, Action) && !Repeatable(w, NodeById(w.wf.nodes, node))
  }

  /** Each begin of a one-shot action used up its first arrival or a person's retry. */
  ghost predicate BeginsFit(w: World, moves: multiset<Move>, steps: seq<Step>) {
    && (forall i: nat :: i >= |steps| ==> moves[Begin(i)] == 0)
    && forall i: nat :: i < |steps| && OneShot(w, steps[i].node) ==>
         moves[Begin(i)] + (if steps[i].status == Pending then 1 else 0) <= 1 + moves[Retry(i)]
  }

  lemma BeginsStep(w: World, st: State, m: Move, moves: multiset<Move>)
    requires NoDanglingEdges(w.wf) && Enabled(w, st, m) && BeginsFit(w, moves, st.steps)
    ensures BeginsFit(w, moves + multiset{m}, Apply(w, st, m).steps)
  {
    hide Apply, Enabled, OneShot, Written;
    MoveFollows(w, st, m);
    WrittenLength(w, st, m);
    var mid, after := Written(w, st, m), Apply(w, st, m).steps;
    forall i: nat | i < |after| && OneShot(w, after[i].node)
      ensures (moves + multiset{m})[Begin(i)] + (if after[i].status == Pending then 1 else 0)
              <= 1 + (moves + multiset{m})[Retry(i)]
    {
      BeginIsInside(w, st, m);
      if i < |st.steps| {
        assert after[i] == mid[i] || after[i] == Skip(mid[i]);
        WrittenRow(w, st, m, i);
      }
    }
    forall i: nat | i >= |after| ensures (moves + multiset{m})[Begin(i)] == 0 { BeginIsInside(w, st, m); }
  }

  lemma BeginIsInside(w: World, st: State, m: Move)
    requires Enabled(w, st, m)
    ensures m.Begin? ==> m.i < |st.steps|
  {
  }

  /** What the written row of a one-shot action can be. */
  lemma WrittenRow(w: World, st: State, m: Move, i: nat)
    requires Enabled(w, st, m) && i < |st.steps|
    ensures var s, t := st.steps[i], Written(w, st, m)[i];
            && t.node == s.node
            && (OneShot(w, s.node) ==>
                && (m == Begin(i) ==> s.status == Pending && t.status != Pending)
                && (t.status == Pending && s.status != Pending ==> m == Retry(i)))
  {
    hide Picks, HasLabel, Handles, HasApprover, Guarded;
  }

  lemma {:induction false} HistoryBeginsFit(w: World, moves: seq<Move>)
    requires NoDanglingEdges(w.wf)
    ensures After(w, moves).Some? ==> BeginsFit(w, multiset(moves), After(w, moves).value.steps)
  {
    hide Apply, Enabled, BeginsFit;
    if moves == [] {
      StartBeginsFit(w);
    } else {
      var n := |moves| - 1;
      HistoryBeginsFit(w, moves[..n]);
      assert moves == moves[..n] + [moves[n]];
      match After(w, moves[..n]) {
        case None =>
        case Some(st) => if Enabled(w, st, moves[n]) { BeginsStep(w, st, moves[n], multiset(moves[..n])); }
      }
    }
  }

  lemma StartBeginsFit(w: World)
    ensures BeginsFit(w, multiset{}, Started(w.wf).steps)
  {
    hide OneShot;
  }

  /**
   In every history, crashes included: an action that may not be repeated is begun at most once, and once more for
   each time a person said to retry it.
   */
  lemma BegunOnceAndOnRetry(w: World, moves: seq<Move>, i: nat)
    requires NoDanglingEdges(w.wf) && After(w, moves).Some? && i < |After(w, moves).value.steps|
    requires OneShot(w, After(w, moves).value.steps[i].node)
    ensures multiset(moves)[Begin(i)] <= 1 + multiset(moves)[Retry(i)]
  {
    hide After;
    HistoryBeginsFit(w, moves);
  }

  // ---- failures that nothing handled

  /** Failed, with nothing fired. */
  predicate Unhandled(steps: seq<Step>, i: nat) {
    i < |steps| && steps[i].status == Failing && steps[i].fired == {}
  }

  ghost predicate FailuresFit(w: World, moves: seq<Move>, st: State) {
    st.run == Active ==>
      forall i: nat ::
        && (Unhandled(st.steps, i) <==> ResolveFailed(i) in moves)
        && (Unhandled(st.steps, i) ==> HasKind(w.wf, st.steps[i].node, Action))
  }

  lemma FailureRow(w: World, st: State, m: Move, i: nat)
    requires Enabled(w, st, m) && i < |st.steps| && Fits(w, st.steps[i])
    requires Unhandled(st.steps, i) ==> HasKind(w.wf, st.steps[i].node, Action)
    requires (m.StepFails? || m.WaitTimeout?) && m.i == i ==> Written(w, st, m)[i].fired != {}
    ensures Unhandled(Written(w, st, m), i) <==> Unhandled(st.steps, i) || m == ResolveFailed(i)
    ensures Written(w, st, m)[i].node == st.steps[i].node
    ensures m == ResolveFailed(i) ==> HasKind(w.wf, st.steps[i].node, Action)
  {
    hide HasNode, HasLabel, Handles, HasApprover, Guarded;
    PicksSomething(w.wf);
  }

  lemma PicksSomething(wf: Workflow)
    ensures forall n, decision, yes :: Picks(wf, n, decision, yes) != {}
  {
    hide HasLabel;
    forall n, decision, yes ensures Picks(wf, n, decision, yes) != {} {
      var picked := Picks(wf, n, decision, yes);
      assert None in picked || Some(IfTrue) in picked || Some(IfFalse) in picked || Some(Denied) in picked
             || Some(TimedOut) in picked;
    }
  }

  lemma FailuresStep(w: World, st: State, m: Move, moves: seq<Move>)
    requires NoDanglingEdges(w.wf) && Inv(w, st) && Enabled(w, st, m) && FailuresFit(w, moves, st)
    ensures FailuresFit(w, moves + [m], Apply(w, st, m))
  {
    hide Apply, Enabled, HasKind, Written, Fits, Inv;
    MoveFollows(w, st, m);
    var mid, out := Written(w, st, m), Apply(w, st, m);
    if out.run == Active {
      forall i: nat
        ensures Unhandled(out.steps, i) <==> ResolveFailed(i) in moves + [m]
        ensures Unhandled(out.steps, i) ==> HasKind(w.wf, out.steps[i].node, Action)
      {
        assert ResolveFailed(i) in moves + [m] <==> ResolveFailed(i) in moves || m == ResolveFailed(i);
        WrittenLength(w, st, m);
        if i < |st.steps| {
          RowFits(w, st, i);
          FailureRow(w, st, m, i);
          assert out.steps[i] == mid[i] || out.steps[i] == Skip(mid[i]);
        }
      }
    }
  }

  lemma WrittenLength(w: World, st: State, m: Move)
    requires Enabled(w, st, m)
    ensures |Written(w, st, m)| == |st.steps| && (m.ResolveFailed? ==> m.i < |st.steps|)
  {
    hide RowOf;
  }

  lemma {:induction false} HistoryFailuresFit(w: World, moves: seq<Move>)
    requires Runnable(w)
    ensures After(w, moves).Some? ==> FailuresFit(w, moves, After(w, moves).value)
  {
    hide Inv, Apply, Enabled, Valid, FailuresFit;
    ValidIsWellFormed(w);
    if moves == [] {
      StartFailuresFit(w);
    } else {
      var n := |moves| - 1;
      HistoryFailuresFit(w, moves[..n]);
      HistoryKeeps(w, moves[..n]);
      assert moves == moves[..n] + [moves[n]];
      match After(w, moves[..n]) {
        case None =>
        case Some(st) => if Enabled(w, st, moves[n]) { FailuresStep(w, st, moves[n], moves[..n]); }
      }
    }
  }

  lemma StartFailuresFit(w: World)
    ensures FailuresFit(w, [], Started(w.wf))
  {
    hide HasKind;
  }

  /**
   In every history of an active run a step failed with nothing fired if and only if a person resolved it as failed: the
   one failure with which a run goes on, and may settle as completed.
   */
  lemma UnhandledIff(w: World, moves: seq<Move>, i: nat)
    requires Runnable(w) && After(w, moves).Some? && After(w, moves).value.run == Active
    ensures Unhandled(After(w, moves).value.steps, i) <==> ResolveFailed(i) in moves
  {
    hide After, Valid;
    ValidIsWellFormed(w);
    HistoryFailuresFit(w, moves);
  }
}
