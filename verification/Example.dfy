/**
 A workflow of three nodes, an approval, an external write and an end, that meets the hypotheses of the theorems about
 runs, and a history of it: the write is approved and performed, and then its successor is lost.
 */
module Example {
  import opened Wrappers
  import opened Json
  import opened Effects
  import opened WorkflowModel
  import opened Searches
  import opened Templates
  import opened Validation
  import opened Walks
  import opened Engine

  const GATE := Node("a", Approval, map[], 1)
  const WRITE := Node("b", Action, map["action" := Str("x")], 1)
  const STOP := Node("c", End, map[], 1)
  const FLOW := Workflow("gated", Trigger("manual", map[]), [GATE, WRITE, STOP],
      [Edge("a", "b", None), Edge("b", "c", None)],
                         map[], "", map[])
  const POLICY := Policy(false, Some(map["x" := ExternalWrite]))

  function Library(): Host {
    Host((v: Value) => "", (c: map<string, Value>) => false, (v: Value) => false)
  }

  function Setting(): World {
    World(FLOW, POLICY, Library(), (action: string) => false)
  }

  lemma Members()
    ensures forall n :: n in FLOW.nodes <==> n == GATE || n == WRITE || n == STOP
    ensures forall e :: e in FLOW.edges <==> e == Edge("a", "b", None) || e == Edge("b", "c", None)
  {
    assert FLOW.nodes[0] == GATE && FLOW.nodes[1] == WRITE && FLOW.nodes[2] == STOP;
    assert FLOW.edges[0] == Edge("a", "b", None) && FLOW.edges[1] == Edge("b", "c", None);
  }

  // ---------------------------------------------------------------- it is valid

  lemma OnlyEdges(x: string, y: string)
    ensures HasEdge(FLOW.edges, x, y) <==> (x == "a" && y == "b") || (x == "b" && y == "c")
  {
    assert FLOW.edges[0] == Edge("a", "b", None) && FLOW.edges[1] == Edge("b", "c", None);
  }

  lemma EntryIsGate(id: string)
    ensures id in Ids(Entries(FLOW)) <==> id == "a"
  {
    Members();
    assert Edge("a", "b", None) in FLOW.edges && Edge("b", "c", None) in FLOW.edges;
    assert GATE in Entries(FLOW) && WRITE !in Entries(FLOW) && STOP !in Entries(FLOW);
    var i :| 0 <= i < |Entries(FLOW)| && Entries(FLOW)[i] == GATE;
    assert Ids(Entries(FLOW))[i] == "a";
    forall k | 0 <= k < |Entries(FLOW)| ensures Ids(Entries(FLOW))[k] == "a" {
      assert Entries(FLOW)[k] in Entries(FLOW);
    }
  }

  function Place(id: string): int {
    if id == "a" then 0 else if id == "b" then 1 else 2
  }

  lemma {:induction false} PathsGoOn(p: seq<string>, k: nat)
    requires IsPath(FLOW.edges, p) && k < |p|
    ensures Place(p[0]) + k <= Place(p[k])
  {
    if k > 0 {
      PathsGoOn(p, k - 1);
      OnlyEdges(p[k - 1], p[k]);
      assert HasEdge(FLOW.edges, p[k - 1], p[k - 1 + 1]);
    }
  }

  lemma NoLoop(x: string)
    ensures !LeadsOn(FLOW.edges, x, x)
  {
    forall p | IsPath(FLOW.edges, p) && |p| >= 2 ensures p[0] != p[|p| - 1] { PathsGoOn(p, |p| - 1); }
  }

  lemma Shape()
    ensures WellFormed(FLOW) && WithinLimits(FLOW) && LoopsBounded(FLOW)
  {
    Members();
    forall n | n in FLOW.nodes ensures !LoopsUnbounded(FLOW, n) { NoLoop(n.id); }
    assert GATE in FLOW.nodes && WRITE in FLOW.nodes && STOP in FLOW.nodes;
  }

  lemma Reach()
    ensures Entries(FLOW) != [] && AllReachable(FLOW) && CanEnd(FLOW)
  {
    hide Entries, Outgoing;
    Members();
    EntryIsGate("a");
    OnlyEdges("a", "b");
    OnlyEdges("b", "c");
    LeadsSelf(FLOW.edges, "a");
    assert PathFromTo(FLOW.edges, ["a", "b"], "a", "b");
    assert PathFromTo(FLOW.edges, ["a", "b", "c"], "a", "c");
    forall i | 0 <= i < |FLOW.nodes| ensures LeadsFrom(FLOW.edges, Ids(Entries(FLOW)), FLOW.nodes[i].id) {
      assert Leads(FLOW.edges, "a", FLOW.nodes[i].id);
    }
    assert STOP in FLOW.nodes;
  }

  lemma GateIsPassed()
    ensures !UngatedTo(FLOW, "b")
  {
    forall p | StartsAtEntry(FLOW, p) && p[|p| - 1] == "b" ensures !Ungated(FLOW, p) {
      EntryIsGate(p[0]);
      assert |p| > 1 && p[0] == "a";
      Members();
      assert GATE in FLOW.nodes;
      NodeByIdIs(FLOW, GATE);
      assert IsApproval(FLOW, p[0]);
    }
  }

  lemma NoReferences(n: Node)
    requires n == GATE || n == WRITE || n == STOP
    ensures References(Object(n.config)) == {}
  {
    assert PathsFrom("x", 0) == [];
  }

  lemma NoLocalProblems(n: Node)
    requires n == GATE || n == WRITE || n == STOP
    ensures LocalProblems(n, Outgoing(FLOW.edges, n.id), POLICY, Library()) == []
  {
    hide Outgoing, LocalRules, Broken;
    var out := Outgoing(FLOW.edges, n.id);
    PlainEdges(n);
    NoRuleBroken(n, out);
    NoneBroken(LocalRules(n, out, POLICY, Library()), n.id);
  }

  lemma PlainEdges(n: Node)
    ensures forall e :: e in Outgoing(FLOW.edges, n.id) ==> e.when == None
    ensures n == STOP ==> Outgoing(FLOW.edges, n.id) == []
  {
    Members();
  }

  lemma NoRuleBroken(n: Node, out: seq<Edge>)
    requires n == GATE || n == WRITE || n == STOP
    requires (forall e :: e in out ==> e.when == None) && (n == STOP ==> out == [])
    ensures forall i :: 0 <= i < |LocalRules(n, out, POLICY, Library())| ==> !LocalRules(n, out, POLICY, Library())[i].0
  {
    assert !HasLabel(out, IfTrue) && !HasLabel(out, IfFalse);
    var rules := LocalRules(n, out, POLICY, Library());
    forall i | 0 <= i < |rules| ensures !rules[i].0 { }
  }

  lemma {:induction false} NoneBroken(rules: seq<(bool, Code)>, id: string)
    requires forall i :: 0 <= i < |rules| ==> !rules[i].0
    ensures Broken(rules, id) == []
  {
    if rules != [] { NoneBroken(rules[1..], id); }
  }

  lemma NodesPass()
    ensures NodesOk(FLOW, POLICY, Library())
  {
    hide LocalProblems, References, Library;
    Members();
    forall i | 0 <= i < |FLOW.nodes| ensures NodeOk(FLOW, FLOW.nodes[i], POLICY, Library()) {
      NoReferences(FLOW.nodes[i]);
      NoLocalProblems(FLOW.nodes[i]);
    }
  }

  lemma GatesPass()
    ensures AllGated(FLOW, POLICY, Library())
  {
    hide UngatedTo, NeedsApproval, Library;
    Members();
    GateIsPassed();
    WriteIsGuarded();
  }

  lemma FlowIsRunnable()
    ensures Runnable(Setting()) && Guarded(Setting(), "b")
  {
    hide NodesOk, AllGated, AllReachable, CanEnd, LoopsBounded, WellFormed, WithinLimits, Guarded;
    Shape();
    Reach();
    NodesPass();
    GatesPass();
    WriteIsGuarded();
  }

  lemma WriteIsGuarded()
    ensures NeedsApproval(WRITE, POLICY, Library()) && !NeedsApproval(GATE, POLICY, Library())
            && !NeedsApproval(STOP, POLICY, Library())
    ensures Kinds() && Guarded(Setting(), "b")
  {
    Members();
    assert GATE in FLOW.nodes && WRITE in FLOW.nodes && STOP in FLOW.nodes;
    NodeByIdIs(FLOW, GATE);
    NodeByIdIs(FLOW, WRITE);
    NodeByIdIs(FLOW, STOP);
  }

  ghost predicate Kinds() {
    && HasNode(FLOW, "a") && NodeById(FLOW.nodes, "a") == GATE && HasNode(FLOW, "b")
       && NodeById(FLOW.nodes, "b") == WRITE
    && HasNode(FLOW, "c") && NodeById(FLOW.nodes, "c") == STOP
  }

  // ---------------------------------------------------------------- a history of it

  const ASKED := Step("a", 1, Waiting, None, false, {})
  const APPROVED := Step("a", 1, Succeeded, Some(Approved), false, {None, Some(Approved)})
  const TODO := Step("b", 1, Pending, None, false, {})
  const DONE := Step("b", 1, Succeeded, None, true, {})

  const ASK := Shift(0, Waiting)
  const APPROVE := Finish(0, Some(Approved), false)

  lemma Chain(w: World, moves: seq<Move>, m: Move)
    requires NoDanglingEdges(w.wf) && After(w, moves).Some? && Enabled(w, After(w, moves).value, m)
    ensures After(w, moves + [m]) == Some(Apply(w, After(w, moves).value, m))
  {
    assert (moves + [m])[..|moves|] == moves;
  }

  lemma EntriesCons(n: Node, rest: seq<Node>, edges: seq<Edge>)
    ensures EntriesAmong([n] + rest, edges) ==
            if Targeted(edges, n.id) then EntriesAmong(rest, edges) else [n] + EntriesAmong(rest, edges)
  {
    hide Targeted;
    assert ([n] + rest)[1..] == rest;
  }

  lemma NoEntries(edges: seq<Edge>)
    ensures EntriesAmong([], edges) == []
  {
  }

  lemma OnlyGateIsFree()
    ensures !Targeted(FLOW.edges, "a") && Targeted(FLOW.edges, "b") && Targeted(FLOW.edges, "c")
  {
    Members();
    assert Edge("a", "b", None) in FLOW.edges && Edge("b", "c", None) in FLOW.edges;
  }

  lemma Start()
    ensures Started(FLOW) == State([Fresh("a", 1)], Active)
  {
    hide Targeted, EntriesAmong;
    OnlyGateIsFree();
    NoEntries(FLOW.edges);
    EntriesCons(STOP, [], FLOW.edges);
    EntriesCons(WRITE, [STOP], FLOW.edges);
    EntriesCons(GATE, [WRITE, STOP], FLOW.edges);
    assert [STOP] + [] == [STOP] && [WRITE] + [STOP] == [WRITE, STOP] && [GATE] + [WRITE, STOP] == FLOW.nodes;
    assert Entries(FLOW) == [GATE];
  }

  lemma GateTargets(picked: set<Option<Label>>)
    requires None in picked
    ensures PickedTargets(Outgoing(FLOW.edges, "a"), picked) == ["b"]
  {
    assert FLOW.edges[1..] == [Edge("b", "c", None)] && FLOW.edges[1..][1..] == [];
    assert Outgoing(FLOW.edges[1..], "a") == [];
    assert Outgoing(FLOW.edges, "a") == [Edge("a", "b", None)];
    assert [Edge("a", "b", None)][1..] == [];
  }

  lemma ApprovalEnters()
    requires NoDanglingEdges(FLOW)
    ensures FireFrom(Setting(), State([ASKED], Active), 0, ASKED.(status := Succeeded, decision := Some(Approved)),
            {None, Some(Approved)})
            == State([APPROVED, TODO], Active)
  {
    hide Outgoing, PickedTargets, CyclicNodes;
    WriteIsGuarded();
    var picked: set<Option<Label>> := {None, Some(Approved)};
    GateTargets(picked);
    assert {} + picked == picked && [ASKED][0 := APPROVED] == [APPROVED];
    assert LastVisit([APPROVED], "b") == 0 by { assert [APPROVED][..0] == []; }
    assert ["b"][1..] == [] && [APPROVED] + [TODO] == [APPROVED, TODO];
  }

  const BUSY := TODO.(status := Running, begun := true)

  lemma AskStep()
    requires NoDanglingEdges(FLOW)
    ensures Enabled(Setting(), State([Fresh("a", 1)], Active), ASK)
    ensures Apply(Setting(), State([Fresh("a", 1)], Active), ASK) == State([ASKED], Active)
  {
    WriteIsGuarded();
    assert [Fresh("a", 1)][0 := ASKED] == [ASKED];
  }

  lemma ApproveStep()
    requires NoDanglingEdges(FLOW)
    ensures Enabled(Setting(), State([ASKED], Active), APPROVE)
    ensures Apply(Setting(), State([ASKED], Active), APPROVE) == State([APPROVED, TODO], Active)
  {
    hide FireFrom;
    WriteIsGuarded();
    ApprovalEnters();
  }

  lemma BeginStep()
    requires NoDanglingEdges(FLOW)
    ensures Enabled(Setting(), State([APPROVED, TODO], Active), Begin(1))
    ensures Apply(Setting(), State([APPROVED, TODO], Active), Begin(1)) == State([APPROVED, BUSY], Active)
  {
    hide LeadsOn, Guarded;
    WriteIsGuarded();
    GateLeads();
    assert HasApprover(FLOW, [APPROVED, TODO], "b") by { assert [APPROVED, TODO][0].decision == Some(Approved); }
    assert [APPROVED, TODO][1 := BUSY] == [APPROVED, BUSY];
  }

  lemma SucceedStep()
    requires NoDanglingEdges(FLOW)
    ensures Enabled(Setting(), State([APPROVED, BUSY], Active), SucceedAction(1))
    ensures Apply(Setting(), State([APPROVED, BUSY], Active), SucceedAction(1)) == State([APPROVED, DONE], Active)
  {
    WriteIsGuarded();
    assert [APPROVED, BUSY][1 := DONE] == [APPROVED, DONE];
  }

  /** Asked, approved, performed: the step that the theorems about guarded actions speak of exists. */
  lemma WriteIsPerformed()
    ensures NoDanglingEdges(FLOW)
    ensures After(Setting(), [ASK, APPROVE, Begin(1), SucceedAction(1)]) == Some(State([APPROVED, DONE], Active))
  {
    hide Apply, Enabled, Started, Setting, FLOW, Fresh;
    Shape();
    Start();
    AskStep();
    ApproveStep();
    BeginStep();
    SucceedStep();
    SettingIs();
    var w := Setting();
    Chain(w, [], ASK);
    assert [] + [ASK] == [ASK];
    Chain(w, [ASK], APPROVE);
    assert [ASK] + [APPROVE] == [ASK, APPROVE];
    Chain(w, [ASK, APPROVE], Begin(1));
    assert [ASK, APPROVE] + [Begin(1)] == [ASK, APPROVE, Begin(1)];
    Chain(w, [ASK, APPROVE, Begin(1)], SucceedAction(1));
    assert [ASK, APPROVE, Begin(1)] + [SucceedAction(1)] == [ASK, APPROVE, Begin(1), SucceedAction(1)];
  }

  lemma SettingIs()
    ensures Setting().wf == FLOW
  {
  }

  lemma GateLeads()
    ensures LeadsOn(FLOW.edges, "a", "b")
  {
    OnlyEdges("a", "b");
    assert PathFromTo(FLOW.edges, ["a", "b"], "a", "b");
  }

  /**
   The hypotheses of the engine's theorems can be met: a valid workflow, a history of it, two steps, the second of a
   guarded action that was begun and performed.
   */
  lemma GuardedWorkflowIsRunnable()
    ensures Runnable(Setting()) && NoDanglingEdges(FLOW)
    ensures var st := After(Setting(), [ASK, APPROVE, Begin(1), SucceedAction(1)]);
            && st.Some? && |st.value.steps| == 2 && Guarded(Setting(), st.value.steps[1].node)
            && st.value.steps[1].begun && Performed(st.value.steps[1].status)
    ensures forall n :: n in FLOW.nodes ==> ':' !in n.id
  {
    hide Guarded, Runnable;
    FlowIsRunnable();
    WriteIsPerformed();
    Members();
  }

  /**
   The crash between an action's two transactions: the write succeeded, its edge was never fired, nothing is open, and
   the run settles as completed without its end node.
   */
  lemma SuccessorIsLost()
    ensures Runnable(Setting()) && NoDanglingEdges(FLOW)
    ensures var st := After(Setting(), [ASK, APPROVE, Begin(1), SucceedAction(1), Settle]);
            && st.Some? && st.value.run == Completed
            && Follower(Setting(), st.value.steps, 1, Edge("b", "c", None)) && !Entered(st.value.steps, "c")
  {
    hide Guarded, Runnable, Apply, Entries, Follower, Entered, Setting, FLOW;
    FlowIsRunnable();
    WriteIsPerformed();
    SettingIs();
    EndIsMissing();
    var moves := [ASK, APPROVE, Begin(1), SucceedAction(1)];
    Chain(Setting(), moves, Settle);
    assert moves + [Settle] == [ASK, APPROVE, Begin(1), SucceedAction(1), Settle];
    SettleIs(Setting(), State([APPROVED, DONE], Active));
  }

  lemma EndIsMissing()
    ensures Follower(Setting(), [APPROVED, DONE], 1, Edge("b", "c", None)) && !Entered([APPROVED, DONE], "c")
  {
    WriteIsGuarded();
    Members();
  }

  lemma SettleIs(w: World, st: State)
    requires NoDanglingEdges(w.wf) && Enabled(w, st, Settle)
    ensures Apply(w, st, Settle) == st.(run := Completed)
  {
  }
}
