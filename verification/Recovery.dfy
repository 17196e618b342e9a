/** Startup recovery: reconciling the run and approval tables after a crashed process. */
module Recovery {
  import opened Wrappers
  import opened Runs

  datatype ApprovalStatus = Pending | Decided | Expired

  datatype Approval = Approval(run: string, status: ApprovalStatus)

  /** What the ledger records here: status changes, and the event streaming clients take as the end of a run. */
  datatype Entry = Changed(run: string, from: RunStatus, to: RunStatus) | InterruptedEvent(run: string)

  /** No worker holds the run: the lease column is null or empty. */
  predicate Unleased(r: Run) {
    r.leaseOwner == None || r.leaseOwner == Some("")
  }

  /** A run the dead process was working on. Databases from before typed statuses never recorded `running`. */
  predicate InFlight(r: Run) {
    (r.status in ACTIVE || (r.status == Created && r.phase.Some?)) && Unleased(r)
  }

  function Target(s: RunStatus): RunStatus {
    if s == CancelRequested then Cancelled else Interrupted
  }

  /** What recovery leaves of a run. */
  function Settled(r: Run): Run {
    if InFlight(r) then r.(status := Target(r.status), outcome := Some(Target(r.status)), ended := true) else r
  }

  /** Recovery settles every run by legal moves, leaves no unleased run in flight, and twice is as good as once. */
  lemma SettledIsLegal(r: Run)
    ensures InFlight(r) ==>
              || (r.status == Created && Legal([Created, Running, Settled(r).status]))
              || Legal([r.status, Settled(r).status])
    ensures !InFlight(Settled(r)) && Settled(Settled(r)) == Settled(r)
    ensures Unleased(r) ==> Settled(r).status !in ACTIVE
    ensures !Unleased(r) ==> Settled(r) == r
    ensures EndedFits(r) ==> EndedFits(Settled(r))
  {
    if InFlight(r) {
      var t := [Created, Running, Interrupted];
      assert forall i :: 0 <= i < |t| - 1 ==> CanTransition(t[i], t[i + 1]);
    }
  }

  /** The run table with the runs of `done` settled. */
  ghost function SettledOn(runs: map<string, Run>, done: set<string>): map<string, Run> {
    map id | id in runs :: if id in done then Settled(runs[id]) else runs[id]
  }

  lemma SettledOnMore(runs: map<string, Run>, done: set<string>, id: string)
    requires id in runs && id !in done
    ensures SettledOn(runs, done)[id := Settled(runs[id])] == SettledOn(runs, done + {id})
  {
  }

  /** The approvals with the pending ones of the runs of `done` expired. */
  function ExpiredOn(approvals: seq<Approval>, done: set<string>): (out: seq<Approval>)
    ensures |out| == |approvals|
    ensures forall i :: 0 <= i < |out| ==>
              out[i] == if approvals[i].status == Pending && approvals[i].run in done
                        then approvals[i].(status := Expired) else approvals[i]
  {
    seq(|approvals|, i requires 0 <= i < |approvals| =>
        if approvals[i].status == Pending && approvals[i].run in done then approvals[i].(status := Expired)
        else approvals[i])
  }

  lemma ExpiredOnMore(approvals: seq<Approval>, done: set<string>, id: string)
    ensures ExpiredOn(ExpiredOn(approvals, done), {id}) == ExpiredOn(approvals, done + {id})
    ensures ExpiredOn(approvals, {}) == approvals
  {
  }

  /** `after` extends `before` by entries whose status changes are all legal. */
  ghost predicate ExtendsLegally(before: seq<Entry>, after: seq<Entry>) {
    && before <= after
    && forall k :: |before| <= k < |after| && after[k].Changed? ==> CanTransition(after[k].from, after[k].to)
  }

  lemma ExtendsOn(a: seq<Entry>, b: seq<Entry>, c: seq<Entry>)
    requires ExtendsLegally(a, b) && ExtendsLegally(b, c)
    ensures ExtendsLegally(a, c)
  {
    assert forall k :: |a| <= k < |b| ==> c[k] == b[k];
  }

  /** Past its first `from` entries the ledger holds the run's change to `to`. */
  ghost predicate Recorded(ledger: seq<Entry>, from: nat, run: string, to: RunStatus) {
    exists k :: from <= k < |ledger| && ledger[k].Changed? && ledger[k].run == run && ledger[k].to == to
  }

  lemma RecordedOn(a: seq<Entry>, b: seq<Entry>, from: nat, run: string, to: RunStatus)
    requires a <= b && Recorded(a, from, run, to)
    ensures Recorded(b, from, run, to)
  {
    var k :| from <= k < |a| && a[k].Changed? && a[k].run == run && a[k].to == to;
    assert b[k] == a[k];
  }

  class Store {
    var runs: map<string, Run>
    var approvals: seq<Approval>
    var ledger: seq<Entry>

    constructor (runs: map<string, Run>, approvals: seq<Approval>)
      ensures this.runs == runs && this.approvals == approvals && this.ledger == []
    {
      this.runs, this.approvals, this.ledger := runs, approvals, [];
    }

    /** `transition`: refused moves change nothing, legal ones change the row and are recorded. */
    method Transition(id: string, target: RunStatus, outcome: Option<RunStatus>) returns (ok: bool)
      requires id in runs
      modifies this`runs, this`ledger
      ensures ok <==> CanTransition(old(runs[id].status), target)
      ensures ok ==> runs == old(runs)[id := Moved(old(runs[id]), target, outcome)]
      ensures ok ==> ledger == old(ledger) + [Changed(id, old(runs[id].status), target)]
      ensures !ok ==> runs == old(runs) && ledger == old(ledger)
    {
      ok := CanTransition(runs[id].status, target);
      if ok {
        ledger := ledger + [Changed(id, runs[id].status, target)];
        runs := runs[id := Moved(runs[id], target, outcome)];
      }
    }

    /** The body of the recovery loop for one run in flight. */
    method RecoverOne(id: string) returns (ok: bool)
      requires id in runs && InFlight(runs[id])
      modifies this
      ensures ok
      ensures runs == old(runs)[id := Settled(old(runs[id]))]
      ensures approvals == ExpiredOn(old(approvals), {id})
      ensures ExtendsLegally(old(ledger), ledger) && |ledger| > |old(ledger)|
      ensures Settled(old(runs[id])).status == Interrupted <==> ledger[|ledger| - 1] == InterruptedEvent(id)
      ensures Recorded(ledger, |old(ledger)|, id, Settled(old(runs[id])).status)
    {
      var status := runs[id].status;
      if status == Created {
        ok := Transition(id, Running, None);
        if !ok { return; }
      }
      var target := Target(status);
      ok := Transition(id, target, Some(target));
      if !ok { return; }
      ghost var at := |ledger| - 1;
      assert ledger[at].Changed? && ledger[at].run == id && ledger[at].to == target;
      if target == Interrupted {
        ledger := ledger + [InterruptedEvent(id)];
      }
      assert ledger[at].Changed? && ledger[at].run == id && ledger[at].to == target;
      approvals := ExpiredOn(approvals, {id});
    }

    /**
     `recover_interrupted_runs`: afterwards every run is settled, every pending approval of a recovered run is
     expired, everything else is as it was, only legal moves were recorded, and every recovered run's change was.
     */
    method Recover() returns (recovered: nat)
      modifies this
      ensures runs.Keys == old(runs.Keys) && forall id :: id in runs ==> runs[id] == Settled(old(runs)[id])
      ensures approvals == ExpiredOn(old(approvals), InFlightIds(old(runs)))
      ensures recovered == |InFlightIds(old(runs))|
      ensures ExtendsLegally(old(ledger), ledger)
      ensures forall id :: id in InFlightIds(old(runs)) ==>
                Recorded(ledger, |old(ledger)|, id, Settled(old(runs)[id]).status)
    {
      hide Settled, InFlight, ExtendsLegally, Recorded;
      recovered := 0;
      var todo := InFlightIds(runs);
      ghost var all, done := todo, {};
      ExpiredOnMore(approvals, {}, "");
      assert ExtendsLegally(ledger, ledger) by { ExtendsSelf(ledger); }
      while todo != {}
        invariant done + todo == all && done !! todo && recovered == |done|
        invariant runs == SettledOn(old(runs), done)
        invariant approvals == ExpiredOn(old(approvals), done)
        invariant ExtendsLegally(old(ledger), ledger)
        invariant forall x :: x in done ==> Recorded(ledger, |old(ledger)|, x, Settled(old(runs)[x]).status)
        decreases todo
      {
        var id :| id in todo;
        ghost var before := ledger;
        var ok := RecoverOne(id);
        SettledOnMore(old(runs), done, id);
        ExpiredOnMore(old(approvals), done, id);
        ExtendsOn(old(ledger), before, ledger);
        KeepsRecorded(old(ledger), before, ledger, id, Settled(old(runs)[id]).status);
        forall x | x in done ensures Recorded(ledger, |old(ledger)|, x, Settled(old(runs)[x]).status) {
          RecordedOn(before, ledger, |old(ledger)|, x, Settled(old(runs)[x]).status);
        }
        todo, done := todo - {id}, done + {id};
        if ok {
          recovered := recovered + 1;
        }
      }
      forall id | id in runs ensures runs[id] == Settled(old(runs)[id]) {
        if id !in done { OthersStay(old(runs)[id]); }
      }
    }
  }

  /** The rows recovery selects. */
  function InFlightIds(runs: map<string, Run>): set<string> {
    set id | id in runs && InFlight(runs[id])
  }

  lemma KeepsRecorded(a: seq<Entry>, b: seq<Entry>, c: seq<Entry>, run: string, to: RunStatus)
    requires ExtendsLegally(a, b) && ExtendsLegally(b, c) && Recorded(c, |b|, run, to)
    ensures b <= c && Recorded(c, |a|, run, to)
  {
  }

  lemma ExtendsSelf(l: seq<Entry>)
    ensures ExtendsLegally(l, l)
  {
  }

  lemma OthersStay(r: Run)
    requires !InFlight(r)
    ensures Settled(r) == r
  {
  }

  /** Recovering a second time finds nothing and changes nothing. */
  method RecoverTwice(store: Store) returns (first: nat, second: nat)
    modifies store
    ensures second == 0
    ensures store.runs.Keys == old(store.runs.Keys) && forall id :: id in store.runs ==>
            store.runs[id] == Settled(old(store.runs)[id])
    ensures store.approvals == ExpiredOn(old(store.approvals), InFlightIds(old(store.runs)))
  {
    first := store.Recover();
    ghost var runs, approvals := store.runs, store.approvals;
    forall id | id in runs ensures !InFlight(runs[id]) { SettledIsLegal(old(store.runs)[id]); }
    assert InFlightIds(runs) == {};
    second := store.Recover();
    ExpiredOnMore(approvals, {}, "");
    forall id | id in runs ensures store.runs[id] == runs[id] { OthersStay(runs[id]); }
  }
}
