/** The run lifecycle: the only legal ways a run's status may change, and what every legal history keeps. */
module Runs {
  import opened Wrappers

  datatype RunStatus =
    | Created
    | Queued
    | Running
    | WaitingApproval
    | CancelRequested
    | Interrupted
    | Completed
    | Failed
    | Cancelled

  /** `TRANSITIONS`. */
  function Transitions(s: RunStatus): set<RunStatus> {
    match s
    case Created => {Running, Queued, Cancelled, Failed}
    case Queued => {Running, Cancelled, Failed}
    case Running => {WaitingApproval, CancelRequested, Completed, Failed, Cancelled, Interrupted}
    case WaitingApproval => {Running, CancelRequested, Cancelled, Failed, Interrupted}
    case CancelRequested => {Cancelled, Completed, Failed, Interrupted}
    case Interrupted => {Running, Queued, Cancelled, Failed}
    case Completed => {}
    case Failed => {}
    case Cancelled => {}
  }

  predicate CanTransition(current: RunStatus, target: RunStatus) {
    target in Transitions(current)
  }

  /** `TERMINAL`: the statuses nothing follows. */
  predicate Terminal(s: RunStatus) {
    Transitions(s) == {}
  }

  /** `ACTIVE`. */
  const ACTIVE: set<RunStatus> := {Running, WaitingApproval, CancelRequested}

  // ---------------------------------------------------------------- legal histories

  /** A sequence of statuses each of which may follow the one before. */
  ghost predicate Legal(trace: seq<RunStatus>) {
    forall i :: 0 <= i < |trace| - 1 ==> CanTransition(trace[i], trace[i + 1])
  }

  /** A terminal status is the last of any legal history. */
  lemma TerminalAbsorbs(trace: seq<RunStatus>, i: nat)
    requires Legal(trace) && i < |trace| && Terminal(trace[i])
    ensures i == |trace| - 1
  {
    if i < |trace| - 1 { LegalMovesOn(trace, i); }
  }

  lemma LegalMovesOn(trace: seq<RunStatus>, i: nat)
    requires Legal(trace) && i < |trace| - 1
    ensures Transitions(trace[i]) != {}
  {
    assert CanTransition(trace[i], trace[i + 1]);
  }

  /** Only statuses of a run that was started: on any legal history from `created` a running status comes first. */
  lemma {:induction false} StartedBefore(trace: seq<RunStatus>, j: nat)
    requires Legal(trace) && trace != [] && trace[0] == Created && j < |trace|
    requires trace[j] in {WaitingApproval, CancelRequested, Interrupted, Completed}
    ensures exists i :: 0 <= i < j && trace[i] == Running
    decreases j
  {
    assert CanTransition(trace[j - 1], trace[j - 1 + 1]);
    if trace[j - 1] != Running {
      StartedBefore(trace, j - 1);
    }
  }

  /** Between two times a run is queued it was interrupted, once it has started. */
  lemma {:induction false} RequeuedAfterInterruption(trace: seq<RunStatus>, i: nat, j: nat)
    requires Legal(trace) && i < j < |trace|
    requires trace[i] == Running && trace[j] == Queued
    ensures exists k :: i < k < j && trace[k] == Interrupted
  {
    LeavesOnlyByInterruption(trace, i, j);
  }

  lemma {:induction false} LeavesOnlyByInterruption(trace: seq<RunStatus>, i: nat, j: nat)
    requires Legal(trace) && i <= j < |trace| && trace[i] !in {Created, Queued, Interrupted}
    ensures trace[j] !in {Created, Queued, Interrupted} || exists k :: i < k <= j && trace[k] == Interrupted
    decreases j - i
  {
    if i < j {
      LeavesOnlyByInterruption(trace, i, j - 1);
      assert CanTransition(trace[j - 1], trace[j - 1 + 1]);
    }
  }

  // ---------------------------------------------------------------- transition

  /** The columns of a run that `transition` reads or writes. */
  datatype Run = Run(status: RunStatus, phase: Option<string>, leaseOwner: Option<string>, outcome: Option<RunStatus>,
      ended: bool)

  /** The row after a legal move to `target`; `outcome` is set when the caller passes one. */
  function Moved(r: Run, target: RunStatus, outcome: Option<RunStatus>): Run {
    r.(status := target,
       outcome := if outcome.Some? then outcome else r.outcome,
       ended := Terminal(target) || target == Interrupted || (r.status != Interrupted && r.ended))
  }

  /** `completed_at` is set exactly on runs that are over or stand interrupted. */
  ghost predicate EndedFits(r: Run) {
    r.ended <==> Terminal(r.status) || r.status == Interrupted
  }

  lemma MovedKeepsEnded(r: Run, target: RunStatus, outcome: Option<RunStatus>)
    requires EndedFits(r) && CanTransition(r.status, target)
    ensures EndedFits(Moved(r, target, outcome))
  {
  }
}
