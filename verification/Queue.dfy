/**
 The durable run queue and epoch fencing, over every interleaving of workers, stalls, claims and commits.
 A transaction is one atomic step: what it would write is written at its commit, or not at all.
 */
module Queue {
  import opened Wrappers
  import opened Runs

  /** The columns of a run the queue works with. */
  datatype Row = Row(status: RunStatus, owner: Option<string>, expires: int, epoch: nat, queuedAt: int)

  type Table = map<string, Row>

  /** A write that a fenced transaction committed to a run. */
  datatype Write = Write(run: string, worker: string, epoch: nat)

  /** The run table and, as history, the fenced writes committed so far. */
  datatype State = State(table: Table, log: seq<Write>)

  /** What `fenced` puts in force: this worker, this run, this epoch. */
  datatype Fence = Fence(run: string, worker: string, epoch: nat)

  // ---------------------------------------------------------------- the atomic steps

  datatype Event =
    | Enqueue(run: string, now: int)
    | Start(run: string, worker: string, now: int, lease: int)      // claim of a queued run
    | Reclaim(run: string, now: int)                                // claim that recovers a run whose lease ran out
    | Heartbeat(run: string, worker: string, epoch: nat, now: int, lease: int)
    | Release(run: string, worker: string, epoch: nat)
    | Change(run: string, target: RunStatus)                        // a status change outside any fence
    | Commit(fence: Fence, move: Option<(string, RunStatus)>)       // a fenced transaction at its commit

  /** `lease_owner = ? AND lease_epoch = ?`. */
  predicate Holds(table: Table, run: string, worker: string, epoch: nat) {
    run in table && table[run].owner == Some(worker) && table[run].epoch == epoch
  }

  predicate Claimable(table: Table, run: string) {
    run in table && table[run].status == Queued
  }

  /** A live run whose worker stopped renewing its lease. */
  predicate Dead(table: Table, run: string, now: int) {
    run in table && table[run].status in ACTIVE && table[run].owner.Some? && table[run].expires < now
  }

  /** The row of a run a worker has just claimed. */
  function Taken(r: Row, worker: string, now: int, lease: int): Row {
    r.(status := Running, owner := Some(worker), expires := now + lease, epoch := r.epoch + 1)
  }

  /** The row of a run whose worker let its lease run out. */
  function Lapsed(r: Row): Row {
    r.(status := if r.status == CancelRequested then Cancelled else Interrupted, owner := None)
  }

  function WithStatus(table: Table, run: string, target: RunStatus): Table
    requires run in table
  {
    table[run := table[run].(status := target)]
  }

  /** What a step does; a step whose condition does not hold changes nothing (no row, or rolled back). */
  function Step(st: State, e: Event): State {
    var table := st.table;
    match e
    case Enqueue(run, now) =>
      if run in table && CanTransition(table[run].status, Queued)
      then st.(table := table[run := table[run].(status := Queued, owner := None, queuedAt := now)]) else st
    case Start(run, worker, now, lease) =>
      if Claimable(table, run)
      then st.(table := table[run := Taken(table[run], worker, now, lease)])
      else st
    case Reclaim(run, now) =>
      if Dead(table, run, now)
      then st.(table := table[run := Lapsed(table[run])])
      else st
    case Heartbeat(run, worker, epoch, now, lease) =>
      if Holds(table, run, worker, epoch) then st.(table := table[run := table[run].(expires := now + lease)]) else st
    case Release(run, worker, epoch) =>
      if Holds(table, run, worker, epoch) then st.(table := table[run := table[run].(owner := None)]) else st
    case Change(run, target) =>
      if run in table && CanTransition(table[run].status, target) then st.(table := WithStatus(table, run, target))
      else st
    case Commit(fence, move) =>
      if !Holds(table, fence.run, fence.worker, fence.epoch) then st
      else
        var log := st.log + [Write(fence.run, fence.worker, fence.epoch)];
        if move.Some? && move.value.0 in table && CanTransition(table[move.value.0].status, move.value.1)
        then State(WithStatus(table, move.value.0, move.value.1), log) else st.(log := log)
  }

  /** The state after a history. */
  function Play(st: State, events: seq<Event>): State {
    if events == [] then st else Step(Play(st, events[..|events| - 1]), events[|events| - 1])
  }

  // ---------------------------------------------------------------- what one step keeps

  /** A claim of this run took effect in this step. */
  predicate Takes(st: State, e: Event, run: string) {
    e.Start? && e.run == run && Claimable(st.table, run)
  }

  /** Epochs only grow, by one per claim; the owner of an epoch never changes to someone else within it. */
  lemma StepRow(st: State, e: Event, run: string)
    requires run in st.table
    ensures run in Step(st, e).table
    ensures var a, b := st.table[run], Step(st, e).table[run];
            && (if Takes(st, e, run) then b.epoch == a.epoch + 1 && b.owner == Some(e.worker)
                else b.epoch == a.epoch && (b.owner == a.owner || b.owner == None))
            && (b.status == a.status || CanTransition(a.status, b.status))
  {
  }

  /** The claim that recovers a dead worker's run takes effect without a new epoch: it ends the lease by its owner. */
  lemma ReclaimKeepsEpoch(st: State, run: string, now: int)
    requires Dead(st.table, run, now)
    ensures var row := Step(st, Reclaim(run, now)).table[run];
            && row.epoch == st.table[run].epoch && row.owner == None && row.status != st.table[run].status
            && forall worker, epoch :: !Holds(Step(st, Reclaim(run, now)).table, run, worker, epoch)
  {
  }

  lemma StepLog(st: State, e: Event)
    ensures Step(st, e).log == st.log
            || (e.Commit? && Holds(st.table, e.fence.run, e.fence.worker, e.fence.epoch)
                && Step(st, e).log == st.log + [Write(e.fence.run, e.fence.worker, e.fence.epoch)])
    ensures st.table.Keys == Step(st, e).table.Keys
  {
  }

  /** What the log and the table say of each other. */
  ghost predicate Fenced(st: State) {
    && (forall i :: 0 <= i < |st.log| ==> st.log[i].run in st.table && st.log[i].epoch <= st.table[st.log[i].run].epoch)
    && (forall i, j :: 0 <= i < j < |st.log| && st.log[i].run == st.log[j].run ==>
          st.log[i].epoch <= st.log[j].epoch && (st.log[i].epoch == st.log[j].epoch ==>
              st.log[i].worker == st.log[j].worker))
    && (forall i :: 0 <= i < |st.log| ==>
          var row := st.table[st.log[i].run];
          st.log[i].epoch == row.epoch && row.owner.Some? ==> row.owner == Some(st.log[i].worker))
  }

  lemma StepKeepsFenced(st: State, e: Event)
    requires Fenced(st)
    ensures Fenced(Step(st, e))
  {
    hide Step, Takes, CanTransition;
    var next := Step(st, e);
    StepLog(st, e);
    forall i | 0 <= i < |st.log| ensures st.log[i].run in next.table {
      StepRow(st, e, st.log[i].run);
    }
    forall i | 0 <= i < |st.log|
      ensures st.log[i].epoch <= next.table[st.log[i].run].epoch
      ensures st.log[i].epoch == next.table[st.log[i].run].epoch && next.table[st.log[i].run].owner.Some?
              ==> next.table[st.log[i].run].owner == Some(st.log[i].worker)
    {
      StepRow(st, e, st.log[i].run);
    }
    if next.log != st.log { StepRow(st, e, e.fence.run); CommitKeepsRow(st, e); }
  }

  lemma CommitKeepsRow(st: State, e: Event)
    requires e.Commit? && e.fence.run in st.table
    ensures e.fence.run in Step(st, e).table
    ensures Step(st, e).table[e.fence.run].owner == st.table[e.fence.run].owner
    ensures Step(st, e).table[e.fence.run].epoch == st.table[e.fence.run].epoch
  {
  }

  // ---------------------------------------------------------------- whole histories

  lemma {:induction false} PlayKeepsFenced(st: State, events: seq<Event>)
    requires Fenced(st)
    ensures Fenced(Play(st, events))
  {
    hide Step, Fenced;
    if events != [] {
      PlayKeepsFenced(st, events[..|events| - 1]);
      StepKeepsFenced(Play(st, events[..|events| - 1]), events[|events| - 1]);
    }
  }

  /**
   From any run table, in every interleaving: the epochs of the writes committed to a run never decrease, and
   all writes of one epoch are by one worker.
   */
  lemma EpochsNeverDecrease(table: Table, events: seq<Event>, i: nat, j: nat)
    requires i < j < |Play(State(table, []), events).log|
    ensures var log := Play(State(table, []), events).log;
            log[i].run == log[j].run ==>
              log[i].epoch <= log[j].epoch && (log[i].epoch == log[j].epoch ==> log[i].worker == log[j].worker)
  {
    PlayKeepsFenced(State(table, []), events);
  }

  lemma {:induction false} EpochsGrow(st: State, events: seq<Event>, run: string)
    requires run in st.table
    ensures run in Play(st, events).table && st.table[run].epoch <= Play(st, events).table[run].epoch
    ensures st.table[run].epoch == Play(st, events).table[run].epoch && st.table[run].owner == None ==>
            Play(st, events).table[run].owner == None
  {
    hide Step, CanTransition;
    if events != [] {
      EpochsGrow(st, events[..|events| - 1], run);
      StepRow(Play(st, events[..|events| - 1]), events[|events| - 1], run);
    }
  }

  /**
   A worker that stalled and lost its run: whatever happened in between, once the run was claimed again, taken
   back by recovery, released or queued, a commit of the old lease changes nothing.
   */
  lemma StaleCommitLeavesNothing(st: State, e: Event, between: seq<Event>, fence: Fence,
      move: Option<(string, RunStatus)>)
    requires Holds(st.table, fence.run, fence.worker, fence.epoch)
    requires !Holds(Step(st, e).table, fence.run, fence.worker, fence.epoch)
    ensures var late := Play(Step(st, e), between); Step(late, Commit(fence, move)) == late
  {
    hide Play;
    var after := Step(st, e);
    StepRow(st, e, fence.run);
    EpochsGrow(after, between, fence.run);
  }

  /** Exactly the steps that end a lease: a new claim, recovery of a dead worker, release, and re-queueing. */
  lemma LeaseEndsOnlyBy(st: State, e: Event, fence: Fence)
    requires Holds(st.table, fence.run, fence.worker, fence.epoch)
    ensures !Holds(Step(st, e).table, fence.run, fence.worker, fence.epoch) <==>
            || Takes(st, e, fence.run)
            || (e.Reclaim? && e.run == fence.run && Dead(st.table, e.run, e.now))
            || (e.Release? && e.run == fence.run && e.worker == fence.worker && e.epoch == fence.epoch)
            || (e.Enqueue? && e.run == fence.run && CanTransition(st.table[e.run].status, Queued))
  {
  }

  // ---------------------------------------------------------------- exclusivity

  /** A run that has started is not queued again unless the history passes through an interruption. */
  lemma {:induction false} StatusLeaves(st: State, events: seq<Event>, run: string)
    requires run in st.table && st.table[run].status !in {Created, Queued, Interrupted}
    ensures run in Play(st, events).table
    ensures Play(st, events).table[run].status !in {Created, Queued, Interrupted}
            || exists k ::
               0 < k <= |events| && run in Play(st, events[..k]).table
                   && Play(st, events[..k]).table[run].status == Interrupted
  {
    hide Step;
    if events != [] {
      var n := |events| - 1;
      StatusLeaves(st, events[..n], run);
      StepRow(Play(st, events[..n]), events[n], run);
      assert events[..|events|] == events;
      if k :|
        0 < k <= n && run in Play(st, events[..n][..k]).table
        && Play(st, events[..n][..k]).table[run].status == Interrupted
      {
        assert events[..n][..k] == events[..k];
      }
    }
  }

  /** Two workers are never given the same run: between two claims of it the run was interrupted. */
  lemma ClaimedAgainOnlyAfterInterruption(st: State, first: Event, between: seq<Event>, second: Event, run: string)
    requires Takes(st, first, run) && Takes(Play(Step(st, first), between), second, run)
    ensures exists k :: 0 < k <= |between|
              && run in Play(Step(st, first), between[..k]).table
                 && Play(Step(st, first), between[..k]).table[run].status == Interrupted
  {
    hide Play;
    StatusLeaves(Step(st, first), between, run);
  }

  /** A claim's epoch is larger than that of every earlier claim of the run. */
  lemma LaterClaimHasLargerEpoch(st: State, first: Event, between: seq<Event>, second: Event, run: string)
    requires Takes(st, first, run) && Takes(Play(Step(st, first), between), second, run)
    ensures var mid := Step(st, first); var end := Step(Play(mid, between), second);
            run in mid.table && run in end.table && mid.table[run].epoch < end.table[run].epoch
  {
    hide Play;
    EpochsGrow(Step(st, first), between, run);
  }

  // ---------------------------------------------------------------- the methods

  datatype Claim = Claim(run: string, recover: bool, epoch: nat)

  // ---------------------------------------------------------------- which row comes first

  /** Text order, character by character. */
  predicate Precedes(a: string, b: string) {
    b != [] && (a == [] || a[0] < b[0] || (a[0] == b[0] && Precedes(a[1..], b[1..])))
  }

  function QueuedAt(table: Table): string -> int {
    (r: string) => if r in table then table[r].queuedAt else 0
  }

  function Expires(table: Table): string -> int {
    (r: string) => if r in table then table[r].expires else 0
  }

  /** Smaller key; on equal keys, the earlier id. */
  ghost predicate ComesFirst(a: string, b: string, key: string -> int) {
    key(a) < key(b) || (key(a) == key(b) && (a == b || Precedes(a, b)))
  }

  lemma {:induction false} OnePrecedes(a: string, b: string)
    ensures a == b || Precedes(a, b) || Precedes(b, a)
    ensures !(Precedes(a, b) && Precedes(b, a)) && !Precedes(a, a)
  {
    if a != [] && b != [] {
      OnePrecedes(a[1..], b[1..]);
      if a[0] == b[0] && a[1..] == b[1..] { assert a == [a[0]] + a[1..] == [b[0]] + b[1..] == b; }
    }
    if a != [] { OnePrecedes(a[1..], a[1..]); }
  }

  lemma {:induction false} PrecedesOn(a: string, b: string, c: string)
    requires Precedes(a, b) && Precedes(b, c)
    ensures Precedes(a, c)
  {
    if a != [] && a[0] == b[0] == c[0] { PrecedesOn(a[1..], b[1..], c[1..]); }
  }

  lemma FirstOfItself(a: string, key: string -> int)
    ensures ComesFirst(a, a, key)
  {
  }

  lemma OneComesFirst(a: string, b: string, key: string -> int)
    requires !(key(b) < key(a) || (key(b) == key(a) && Precedes(b, a)))
    ensures ComesFirst(a, b, key)
  {
    OnePrecedes(a, b);
  }

  lemma FirstThenFirst(a: string, b: string, c: string, key: string -> int)
    requires (key(a) < key(b) || (key(a) == key(b) && Precedes(a, b))) && ComesFirst(b, c, key)
    ensures ComesFirst(a, c, key)
  {
    if key(a) == key(b) == key(c) && b != c { PrecedesOn(a, b, c); }
  }

  class Database {
    var table: Table
    ghost var log: seq<Write>
    var fence: Option<Fence>

    ghost function Now(): State
      reads this
    {
      State(table, log)
    }

    constructor (table: Table)
      ensures Now() == State(table, []) && fence == None
    {
      this.table, this.log, this.fence := table, [], None;
    }

    /** Entering `fenced`; the token restores what was in force before. */
    method EnterFence(f: Fence) returns (token: Option<Fence>)
      modifies this`fence
      ensures fence == Some(f) && token == old(fence)
    {
      token := fence;
      fence := Some(f);
    }

    method ExitFence(token: Option<Fence>)
      modifies this`fence
      ensures fence == token
    {
      fence := token;
    }

    /** `get_db` around a status change: the change commits unless a fence is in force and no longer holds. */
    method Transact(run: string, target: RunStatus) returns (committed: bool)
      modifies this`table, this`log
      ensures fence.None? ==> Now() == Step(old(Now()), Change(run, target))
      ensures fence.Some? && run in old(table) && CanTransition(old(table[run].status), target) ==>
                Now() == Step(old(Now()), Commit(fence.value, Some((run, target))))
      ensures committed <==> run in old(table) && CanTransition(old(table[run].status), target)
                             && (fence.Some? ==>
                                Holds(old(table), fence.value.run, fence.value.worker, fence.value.epoch))
      ensures !committed ==> Now() == old(Now())
    {
      if run !in table || !CanTransition(table[run].status, target) {
        return false;
      }
      var written := WithStatus(table, run, target);
      if fence.Some? && !Holds(written, fence.value.run, fence.value.worker, fence.value.epoch) {
        return false;
      }
      if fence.Some? {
        log := log + [Write(fence.value.run, fence.value.worker, fence.value.epoch)];
      }
      table := written;
      return true;
    }

    method DoEnqueue(run: string, now: int) returns (ok: bool)
      modifies this`table
      ensures Now() == Step(old(Now()), Enqueue(run, now))
      ensures ok <==> run in old(table) && CanTransition(old(table[run].status), Queued)
    {
      ok := run in table && CanTransition(table[run].status, Queued);
      if ok {
        table := table[run := table[run].(status := Queued, owner := None, queuedAt := now)];
      }
    }

    /** The first row of a set by a key and then by id, as `ORDER BY ..., id LIMIT 1` picks it. */
    method Least(ids: set<string>, key: string -> int) returns (best: string)
      requires ids != {}
      ensures best in ids && forall x :: x in ids ==> ComesFirst(best, x, key)
    {
      hide ComesFirst;
      var todo := ids;
      best :| best in todo;
      todo := todo - {best};
      FirstOfItself(best, key);
      while todo != {}
        invariant best in ids && todo <= ids && forall x :: x in ids && x !in todo ==> ComesFirst(best, x, key)
        decreases todo
      {
        var x :| x in todo;
        todo := todo - {x};
        if key(x) < key(best) || (key(x) == key(best) && Precedes(x, best)) {
          forall y | y in ids && y !in todo ensures ComesFirst(x, y, key) {
            if y == x { FirstOfItself(x, key); } else { FirstThenFirst(x, best, y, key); }
          }
          best := x;
        } else {
          OneComesFirst(best, x, key);
        }
      }
    }

    /** `claim`: the oldest queued run, else the run whose lease ran out first, else nothing. */
    method DoClaim(worker: string, lease: int, now: int) returns (c: Option<Claim>)
      modifies this`table
      ensures (exists r :: Claimable(old(table), r)) ==>
                c.Some? && !c.value.recover && Claimable(old(table), c.value.run)
                && (forall r :: Claimable(old(table), r) ==> ComesFirst(c.value.run, r, QueuedAt(old(table))))
                && Now() == Step(old(Now()), Start(c.value.run, worker, now, lease))
                   && Holds(table, c.value.run, worker, c.value.epoch)
      ensures !(exists r :: Claimable(old(table), r)) && (exists r :: Dead(old(table), r, now)) ==>
                c.Some? && c.value.recover && Dead(old(table), c.value.run, now)
                && (forall r :: Dead(old(table), r, now) ==> ComesFirst(c.value.run, r, Expires(old(table))))
                && Now() == Step(old(Now()), Reclaim(c.value.run, now))
      ensures !(exists r :: Claimable(old(table), r)) && !(exists r :: Dead(old(table), r, now)) ==>
              c == None && table == old(table)
    {
      var rows := table;
      var queued := set r | r in rows && rows[r].status == Queued;
      if queued != {} {
        var run := Least(queued, QueuedAt(rows));
        forall r | Claimable(rows, r) ensures ComesFirst(run, r, QueuedAt(rows)) {
          assert r in queued;
        }
        assert Claimable(rows, run);
        table := rows[run := Taken(rows[run], worker, now, lease)];
        return Some(Claim(run, false, table[run].epoch));
      }
      forall r ensures !Claimable(rows, r) {
        assert r !in queued;
      }
      var dead := set r | r in rows && rows[r].status in ACTIVE && rows[r].owner.Some? && rows[r].expires < now;
      if dead == {} {
        forall r ensures !Dead(rows, r, now) {
          assert r !in dead;
        }
        return None;
      }
      var run := Least(dead, Expires(rows));
      forall r | Dead(rows, r, now) ensures ComesFirst(run, r, Expires(rows)) {
        assert r in dead;
      }
      assert Dead(rows, run, now);
      table := rows[run := Lapsed(rows[run])];
      return Some(Claim(run, true, 0));
    }

    /** `heartbeat`: false is LeaseLost. */
    method DoHeartbeat(run: string, worker: string, epoch: nat, now: int, lease: int) returns (held: bool)
      modifies this`table
      ensures Now() == Step(old(Now()), Heartbeat(run, worker, epoch, now, lease))
      ensures held <==> Holds(old(table), run, worker, epoch)
    {
      held := Holds(table, run, worker, epoch);
      if held {
        table := table[run := table[run].(expires := now + lease)];
      }
    }

    method DoRelease(run: string, worker: string, epoch: nat)
      modifies this`table
      ensures Now() == Step(old(Now()), Release(run, worker, epoch))
    {
      if Holds(table, run, worker, epoch) {
        table := table[run := table[run].(owner := None)];
      }
    }
  }
}
