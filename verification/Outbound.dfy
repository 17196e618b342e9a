/**
 Outgoing webhooks. A delivery row is claimed (the attempt is counted and a lease set), sent, and settled by an
 unconditional update; a worker may crash at any point. Histories interleave any number of workers on one row.
 */
module Outbound {
  import opened Wrappers
  import Sorting

  datatype Status = PENDING | DELIVERED | DEAD

  datatype Row = Row(status: Status, attempts: nat, nextAt: int)

  /** How a send ended; a failure says whether it is worth repeating, and after how long. */
  datatype Verdict = Sent | Failed(retryable: bool, delay: int)

  const CLAIM_LEASE := 300
  const MAX_ATTEMPTS := 3

  predicate Terminal(s: Status) {
    s == DELIVERED || s == DEAD
  }

  predicate Claimable(row: Row, now: int) {
    row.status == PENDING && row.nextAt <= now
  }

  /** The claim: one conditional update. */
  function Claimed(row: Row, now: int): Row {
    if Claimable(row, now) then row.(attempts := row.attempts + 1, nextAt := now + CLAIM_LEASE) else row
  }

  /** The settlement of attempt `number`: whatever the row says by now, it is overwritten. */
  function Settled(row: Row, number: nat, v: Verdict, cap: int, now: int): Row {
    match v
    case Sent => row.(status := DELIVERED)
    case Failed(retryable, delay) =>
      if retryable && number < cap then row.(status := PENDING, nextAt := now + delay) else row.(status := DEAD)
  }

  // ---------------------------------------------------------------- one row, any number of workers

  /** An attempt in flight: its number as read back after the claim, the end of its lease, whether it was sent. */
  datatype Flight = Flight(number: nat, lease: int, sent: bool)

  /** `claims`, `sends`, `crashes` and `ends` count what happened; an attempt ends when it is settled. */
  datatype World = World(time: int, row: Row, flights: set<Flight>, claims: nat, sends: nat, crashes: nat, ends: nat)

  datatype Step =
    | Wait(until: int)
    | Claim(now: int)      // a clock reading, taken at or before the claim
    | Send(f: Flight)
    | Settle(f: Flight, v: Verdict, now: int)
    | Crash(f: Flight)

  ghost predicate Enabled(w: World, s: Step) {
    match s
    case Wait(until) => w.time <= until
    case Claim(now) => now <= w.time
    case Send(f) => f in w.flights && !f.sent
    case Settle(f, v, now) => f in w.flights && now <= w.time && (v.Sent? ==> f.sent)
    case Crash(f) => f in w.flights
  }

  ghost function Next(w: World, s: Step, cap: int): World
    requires Enabled(w, s)
  {
    match s
    case Wait(until) => w.(time := until)
    case Claim(now) =>
      if !Claimable(w.row, now) then w
      else w.(row := Claimed(w.row, now), claims := w.claims + 1,
              flights := w.flights + {Flight(w.row.attempts + 1, now + CLAIM_LEASE, false)})
    case Send(f) => w.(flights := w.flights - {f} + {f.(sent := true)}, sends := w.sends + 1)
    case Settle(f, v, now) =>
      w.(row := Settled(w.row, f.number, v, cap, now), flights := w.flights - {f}, ends := w.ends + 1)
    case Crash(f) => w.(flights := w.flights - {f}, crashes := w.crashes + 1)
  }

  ghost function After(w: World, steps: seq<Step>, cap: int): Option<World> {
    if steps == [] then Some(w)
    else
      match After(w, steps[..|steps| - 1], cap)
      case None => None
      case Some(v) => if Enabled(v, steps[|steps| - 1]) then Some(Next(v, steps[|steps| - 1], cap)) else None
  }

  ghost function Enqueued(now: int): World {
    World(now, Row(PENDING, 0, now), {}, 0, 0, 0, 0)
  }

  // ---------------------------------------------------------------- counting, in every interleaving

  /** Attempts are numbered apart; every claim counts once and is in flight, settled or crashed; sends are claims. */
  ghost predicate Counted(w: World) {
    && w.row.attempts == w.claims == |w.flights| + w.ends + w.crashes
    && Numbered(w.flights, w.row.attempts)
    && w.sends <= w.ends + w.crashes + |SentOnes(w.flights)|
  }

  ghost predicate Numbered(flights: set<Flight>, attempts: nat) {
    && (forall f :: f in flights ==> 1 <= f.number <= attempts)
    && forall f, g :: f in flights && g in flights && f.number == g.number ==> f == g
  }

  ghost function SentOnes(flights: set<Flight>): set<Flight> {
    set f | f in flights && f.sent
  }

  lemma SentWithin(flights: set<Flight>)
    ensures |SentOnes(flights)| <= |flights|
  {
    Subset(SentOnes(flights), flights);
  }

  lemma {:induction false} Subset(a: set<Flight>, b: set<Flight>)
    requires a <= b
    ensures |a| <= |b|
  {
    if a != {} {
      var x :| x in a;
      Subset(a - {x}, b - {x});
    }
  }

  lemma RemoveOne(flights: set<Flight>, f: Flight)
    requires f in flights
    ensures |flights - {f}| == |flights| - 1
    ensures |SentOnes(flights - {f})| == |SentOnes(flights)| - if f.sent then 1 else 0
  {
    if f.sent {
      assert SentOnes(flights - {f}) == SentOnes(flights) - {f};
    } else {
      assert SentOnes(flights - {f}) == SentOnes(flights);
    }
  }

  lemma AddOne(flights: set<Flight>, f: Flight)
    requires f !in flights
    ensures |flights + {f}| == |flights| + 1
    ensures |SentOnes(flights + {f})| == |SentOnes(flights)| + if f.sent then 1 else 0
  {
    if f.sent {
      assert SentOnes(flights + {f}) == SentOnes(flights) + {f};
    } else {
      assert SentOnes(flights + {f}) == SentOnes(flights);
    }
  }

  lemma NumberedNext(flights: set<Flight>, attempts: nat, f: Flight)
    requires Numbered(flights, attempts) && f.number == attempts + 1
    ensures f !in flights && Numbered(flights + {f}, attempts + 1)
  {
  }

  lemma NumberedSent(flights: set<Flight>, attempts: nat, f: Flight)
    requires Numbered(flights, attempts) && f in flights && !f.sent
    ensures f.(sent := true) !in flights - {f} && Numbered(flights - {f} + {f.(sent := true)}, attempts)
  {
  }

  lemma NumberedLess(flights: set<Flight>, attempts: nat, f: Flight)
    requires Numbered(flights, attempts)
    ensures Numbered(flights - {f}, attempts)
  {
  }

  lemma ClaimKeepsCounted(w: World, now: int, cap: int)
    requires Counted(w) && Enabled(w, Claim(now))
    ensures Counted(Next(w, Claim(now), cap))
  {
    hide SentOnes, Numbered;
    var f := Flight(w.row.attempts + 1, now + CLAIM_LEASE, false);
    NumberedNext(w.flights, w.row.attempts, f);
    AddOne(w.flights, f);
  }

  lemma SendKeepsCounted(w: World, f: Flight, cap: int)
    requires Counted(w) && Enabled(w, Send(f))
    ensures Counted(Next(w, Send(f), cap))
  {
    hide SentOnes, Numbered;
    RemoveOne(w.flights, f);
    NumberedSent(w.flights, w.row.attempts, f);
    AddOne(w.flights - {f}, f.(sent := true));
  }

  lemma EndKeepsCounted(w: World, f: Flight, row: Row, ends: nat, crashes: nat)
    requires Counted(w) && f in w.flights && row.attempts == w.row.attempts && ends + crashes == w.ends + w.crashes + 1
    ensures Counted(w.(row := row, flights := w.flights - {f}, ends := ends, crashes := crashes))
  {
    hide SentOnes, Numbered;
    RemoveOne(w.flights, f);
    NumberedLess(w.flights, w.row.attempts, f);
  }

  lemma StepKeepsCounted(w: World, s: Step, cap: int)
    requires Counted(w) && Enabled(w, s)
    ensures Counted(Next(w, s, cap))
  {
    match s {
      case Wait(_) =>
      case Claim(now) => ClaimKeepsCounted(w, now, cap);
      case Send(f) => SendKeepsCounted(w, f, cap);
      case Settle(f, v, now) => EndKeepsCounted(w, f, Settled(w.row, f.number, v, cap, now), w.ends + 1, w.crashes);
      case Crash(f) => EndKeepsCounted(w, f, w.row, w.ends, w.crashes + 1);
    }
  }

  lemma {:induction false} HistoryKeepsCounted(now: int, steps: seq<Step>, cap: int)
    ensures After(Enqueued(now), steps, cap).Some? ==> Counted(After(Enqueued(now), steps, cap).value)
  {
    hide Counted, Next, Enabled;
    if steps == [] {
      StartsCounted(now);
    } else {
      HistoryKeepsCounted(now, steps[..|steps| - 1], cap);
      match After(Enqueued(now), steps[..|steps| - 1], cap) {
        case None =>
        case Some(v) => if Enabled(v, steps[|steps| - 1]) { StepKeepsCounted(v, steps[|steps| - 1], cap); }
      }
    }
  }

  lemma StartsCounted(now: int)
    ensures Counted(Enqueued(now))
  {
    assert SentOnes({}) == {};
  }

  /** In every interleaving with crashes, the attempt counter is the number of claims, and no attempt sends twice. */
  lemma AttemptsCountClaims(now: int, steps: seq<Step>, cap: int)
    requires After(Enqueued(now), steps, cap).Some?
    ensures var w := After(Enqueued(now), steps, cap).value;
            && w.row.attempts == w.claims && w.sends <= w.row.attempts
            && w.row.attempts == |w.flights| + w.ends + w.crashes
  {
    HistoryKeepsCounted(now, steps, cap);
    SentWithin(After(Enqueued(now), steps, cap).value.flights);
  }

  // ---------------------------------------------------------------- one at a time, within the lease

  /** No attempt outlives its lease. */
  ghost predicate InLease(w: World) {
    forall f :: f in w.flights ==> w.time < f.lease
  }

  ghost predicate InLeaseThroughout(w: World, steps: seq<Step>, cap: int) {
    forall k :: 0 <= k <= |steps| && After(w, steps[..k], cap).Some? ==> InLease(After(w, steps[..k], cap).value)
  }

  function Cap(cap: int): int {
    if cap < 1 then 1 else cap
  }

  /** The attempt in flight is the last one claimed and the row still waits for its lease to end. */
  ghost predicate Exclusive(w: World, cap: int) {
    && (forall f :: f in w.flights ==> f.number == w.row.attempts && w.row.status == PENDING && w.row.nextAt == f.lease)
    && w.row.attempts <= Cap(cap) + w.crashes
    && (w.flights == {} && w.row.status == PENDING ==> w.row.attempts < Cap(cap) + w.crashes)
  }

  lemma Alone(w: World, f: Flight, cap: int)
    requires Counted(w) && Exclusive(w, cap) && f in w.flights
    ensures w.flights == {f} && w.flights - {f} == {} && f.number == w.row.attempts
  {
  }

  lemma StepKeepsExclusive(w: World, s: Step, cap: int)
    requires Counted(w) && Exclusive(w, cap) && InLease(w) && Enabled(w, s)
    ensures Exclusive(Next(w, s, cap), cap)
    ensures Terminal(w.row.status) ==> Next(w, s, cap).row == w.row
  {
    hide Counted;
    match s {
      case Send(f) => Alone(w, f, cap);
      case Settle(f, _, _) => Alone(w, f, cap);
      case Crash(f) => Alone(w, f, cap);
      case Claim(_) => if w.flights != {} { var f :| f in w.flights; }
      case Wait(_) =>
    }
  }

  lemma {:induction false} HistoryKeepsExclusive(now: int, steps: seq<Step>, cap: int)
    requires InLeaseThroughout(Enqueued(now), steps, cap)
    ensures After(Enqueued(now), steps, cap).Some? ==> Exclusive(After(Enqueued(now), steps, cap).value, cap)
  {
    hide Counted, Exclusive, Next, Enabled, InLease;
    if steps == [] {
      assert Exclusive(Enqueued(now), cap) by { StartsExclusive(now, cap); }
    } else {
      var n := |steps| - 1;
      assert InLeaseThroughout(Enqueued(now), steps[..n], cap) by {
        assert forall k :: 0 <= k <= n ==> steps[..n][..k] == steps[..k];
      }
      HistoryKeepsExclusive(now, steps[..n], cap);
      HistoryKeepsCounted(now, steps[..n], cap);
      match After(Enqueued(now), steps[..n], cap) {
        case None =>
        case Some(v) => if Enabled(v, steps[n]) { StepKeepsExclusive(v, steps[n], cap); }
      }
    }
  }

  lemma StartsExclusive(now: int, cap: int)
    ensures Exclusive(Enqueued(now), cap)
  {
  }

  /**
   When every attempt settles or crashes within its lease: at most one is in flight, and the attempts are at most the
   cap plus the crashes.
   */
  lemma OneAtATime(now: int, steps: seq<Step>, cap: int)
    requires InLeaseThroughout(Enqueued(now), steps, cap) && After(Enqueued(now), steps, cap).Some?
    ensures var w := After(Enqueued(now), steps, cap).value;
            |w.flights| <= 1 && w.row.attempts <= Cap(cap) + w.crashes
  {
    HistoryKeepsExclusive(now, steps, cap);
    HistoryKeepsCounted(now, steps, cap);
    var w := After(Enqueued(now), steps, cap).value;
    if w.flights != {} {
      var f :| f in w.flights;
      assert w.flights == {f};
    }
  }

  /** DELIVERED and DEAD absorb under the same hypothesis: the row is the same ever after. */
  lemma {:induction false} TerminalAbsorbs(now: int, steps: seq<Step>, k: nat, cap: int)
    requires InLeaseThroughout(Enqueued(now), steps, cap) && k <= |steps|
    requires After(Enqueued(now), steps, cap).Some? && After(Enqueued(now), steps[..k], cap).Some?
    requires Terminal(After(Enqueued(now), steps[..k], cap).value.row.status)
    ensures After(Enqueued(now), steps, cap).value.row == After(Enqueued(now), steps[..k], cap).value.row
    decreases |steps|
  {
    hide Counted, Exclusive, Next, Enabled, InLease, Terminal;
    var n := |steps| - 1;
    if k == |steps| {
      assert steps[..k] == steps;
    } else {
      assert steps[..n][..k] == steps[..k];
      assert InLeaseThroughout(Enqueued(now), steps[..n], cap) by {
        assert forall j :: 0 <= j <= n ==> steps[..n][..j] == steps[..j];
      }
      TerminalAbsorbs(now, steps[..n], k, cap);
      HistoryKeepsExclusive(now, steps[..n], cap);
      HistoryKeepsCounted(now, steps[..n], cap);
      StepKeepsExclusive(After(Enqueued(now), steps[..n], cap).value, steps[n], cap);
    }
  }

  /**
   A late answer that contradicts a settled row: any failure of a delivered one; for a dead one, a success, or a failure
   worth repeating of an attempt below the cap.
   */
  predicate Overturns(status: Status, s: Step, cap: int) {
    s.Settle? && if status == DELIVERED then s.v.Failed? else s.v.Sent? || (s.v.retryable && s.f.number < cap)
  }

  /** Without the hypothesis a settled row moves exactly on such an answer. */
  lemma TerminalMovesIff(w: World, s: Step, cap: int)
    requires Terminal(w.row.status) && Enabled(w, s)
    ensures Next(w, s, cap).row != w.row <==> Overturns(w.row.status, s, cap)
  {
  }

  lemma {:induction false} PrefixRuns(w: World, steps: seq<Step>, k: nat, cap: int)
    requires After(w, steps, cap).Some? && k <= |steps|
    ensures After(w, steps[..k], cap).Some?
    ensures k < |steps| ==>
              && Enabled(After(w, steps[..k], cap).value, steps[k])
              && After(w, steps[..k + 1], cap) == Some(Next(After(w, steps[..k], cap).value, steps[k], cap))
    decreases |steps|
  {
    hide Enabled, Next;
    if k == |steps| {
      assert steps[..k] == steps;
    } else {
      var n := |steps| - 1;
      assert steps[..n][..k] == steps[..k];
      if k == n {
        assert steps[..n + 1] == steps;
      } else {
        PrefixRuns(w, steps[..n], k, cap);
        assert steps[..n][..k + 1] == steps[..k + 1] && steps[..n][k] == steps[k];
      }
    }
  }

  /** The row after the first `k` steps. */
  ghost function RowAt(w: World, steps: seq<Step>, k: nat, cap: int): Row
    requires After(w, steps, cap).Some? && k <= |steps|
  {
    PrefixRuns(w, steps, k, cap);
    After(w, steps[..k], cap).value.row
  }

  /**
   Over whole histories, with no hypothesis about leases: once settled, a row stays as it is through every later step
   if and only if none of them overturns it.
   */
  lemma StaysSettledIff(w: World, steps: seq<Step>, k: nat, cap: int)
    requires After(w, steps, cap).Some? && k <= |steps| && Terminal(RowAt(w, steps, k, cap).status)
    ensures (forall j :: k <= j <= |steps| ==> RowAt(w, steps, j, cap) == RowAt(w, steps, k, cap)) <==>
            (forall j :: k <= j < |steps| ==> !Overturns(RowAt(w, steps, k, cap).status, steps[j], cap))
  {
    hide After, Enabled, Next, Overturns, Terminal;
    var row := RowAt(w, steps, k, cap);
    forall j | k <= j < |steps| && RowAt(w, steps, j, cap) == row
      ensures RowAt(w, steps, j + 1, cap) == row <==> !Overturns(row.status, steps[j], cap)
    {
      PrefixRuns(w, steps, j, cap);
      TerminalMovesIff(After(w, steps[..j], cap).value, steps[j], cap);
    }
    if forall j :: k <= j < |steps| ==> !Overturns(row.status, steps[j], cap) {
      forall j | k <= j <= |steps| ensures RowAt(w, steps, j, cap) == row { StaysSettled(w, steps, k, j, cap); }
    } else {
      var j :| k <= j < |steps| && Overturns(row.status, steps[j], cap);
      assert !(RowAt(w, steps, j, cap) == row && RowAt(w, steps, j + 1, cap) == row);
    }
  }

  lemma {:induction false} StaysSettled(w: World, steps: seq<Step>, k: nat, j: nat, cap: int)
    requires After(w, steps, cap).Some? && k <= j <= |steps| && Terminal(RowAt(w, steps, k, cap).status)
    requires forall i :: k <= i < |steps| ==> !Overturns(RowAt(w, steps, k, cap).status, steps[i], cap)
    ensures RowAt(w, steps, j, cap) == RowAt(w, steps, k, cap)
    decreases j
  {
    hide After, Enabled, Next, Overturns, Terminal;
    if j > k {
      StaysSettled(w, steps, k, j - 1, cap);
      PrefixRuns(w, steps, j - 1, cap);
      TerminalMovesIff(After(w, steps[..j - 1], cap).value, steps[j - 1], cap);
    }
  }

  // ---------------------------------------------------------------- what fails without the lease hypothesis

  lemma Chain(w: World, steps: seq<Step>, s: Step, cap: int)
    requires After(w, steps, cap).Some? && Enabled(After(w, steps, cap).value, s)
    ensures After(w, steps + [s], cap) == Some(Next(After(w, steps, cap).value, s, cap))
  {
    assert (steps + [s])[..|steps|] == steps;
  }

  /** A slow attempt outlives its lease, a second one delivers, and the first one's failure makes it PENDING again. */
  lemma LateFailureResurrects() returns (steps: seq<Step>)
    ensures steps != []
    ensures var before, v := After(Enqueued(0), steps[..|steps| - 1], MAX_ATTEMPTS),
            After(Enqueued(0), steps, MAX_ATTEMPTS);
            before.Some? && v.Some? && before.value.row.status == DELIVERED && v.value.row.status == PENDING
  {
    var w, slow, quick := Enqueued(0), Flight(1, 300, false), Flight(2, 600, false);
    var a := [Claim(0)] + [Wait(300)];
    var w2 := World(300, Row(PENDING, 1, 300), {slow}, 1, 0, 0, 0);
    assert After(w, a, MAX_ATTEMPTS) == Some(w2) by {
      Chain(w, [], Claim(0), MAX_ATTEMPTS);
      assert [] + [Claim(0)] == [Claim(0)];
      Chain(w, [Claim(0)], Wait(300), MAX_ATTEMPTS);
      assert {} + {slow} == {slow};
    }
    var b, w4 := a + [Claim(300)] + [Send(quick)],
        World(300, Row(PENDING, 2, 600), {slow, quick.(sent := true)}, 2, 1, 0, 0);
    assert After(w, b, MAX_ATTEMPTS) == Some(w4) by {
      Chain(w, a, Claim(300), MAX_ATTEMPTS);
      Chain(w, a + [Claim(300)], Send(quick), MAX_ATTEMPTS);
      assert {slow} + {quick} - {quick} + {quick.(sent := true)} == {slow, quick.(sent := true)};
    }
    Chain(w, b, Settle(quick.(sent := true), Sent, 300), MAX_ATTEMPTS);
    var c := b + [Settle(quick.(sent := true), Sent, 300)];
    Chain(w, c, Settle(slow, Failed(true, 0), 300), MAX_ATTEMPTS);
    steps := c + [Settle(slow, Failed(true, 0), 300)];
    assert steps[..|steps| - 1] == c;
  }

  /** One more step whose outcome is within every lease. */
  lemma LeaseGoesOn(w: World, steps: seq<Step>, s: Step, cap: int)
    requires InLeaseThroughout(w, steps, cap) && After(w, steps, cap).Some? && Enabled(After(w, steps, cap).value, s)
    requires InLease(Next(After(w, steps, cap).value, s, cap))
    ensures InLeaseThroughout(w, steps + [s], cap)
  {
    hide InLease, Enabled, Next;
    Chain(w, steps, s, cap);
    var more := steps + [s];
    forall k | 0 <= k <= |more| && After(w, more[..k], cap).Some? ensures InLease(After(w, more[..k], cap).value) {
      if k <= |steps| { assert more[..k] == steps[..k]; } else { assert more[..k] == more; }
    }
  }

  /**
   The claim has no cap of its own, so attempts that all crash go on for ever: for every `n` there is a history, within
   every lease, with `n` attempts and the delivery still PENDING.
   */
  lemma {:induction false} CrashesNeverEnd(n: nat, cap: int) returns (steps: seq<Step>)
    ensures var v := After(Enqueued(0), steps, cap);
            v.Some? && v.value.row == Row(PENDING, n, v.value.time) && v.value.flights == {} && v.value.crashes == n
    ensures InLeaseThroughout(Enqueued(0), steps, cap)
  {
    hide InLeaseThroughout;
    if n == 0 {
      steps := [];
      assert InLeaseThroughout(Enqueued(0), [], cap) by { NoFlights(cap); }
    } else {
      var past := CrashesNeverEnd(n - 1, cap);
      steps := OneMoreCrash(past, n, cap);
    }
  }

  lemma NoFlights(cap: int)
    ensures InLeaseThroughout(Enqueued(0), [], cap)
  {
  }

  lemma OneMoreCrash(past: seq<Step>, n: nat, cap: int) returns (steps: seq<Step>)
    requires n > 0 && After(Enqueued(0), past, cap).Some? && InLeaseThroughout(Enqueued(0), past, cap)
    requires var w := After(Enqueued(0), past, cap).value;
             w.row == Row(PENDING, n - 1, w.time) && w.flights == {} && w.crashes == n - 1
    ensures var v := After(Enqueued(0), steps, cap);
            v.Some? && v.value.row == Row(PENDING, n, v.value.time) && v.value.flights == {} && v.value.crashes == n
    ensures InLeaseThroughout(Enqueued(0), steps, cap)
  {
    hide InLeaseThroughout, After;
    var o, w := Enqueued(0), After(Enqueued(0), past, cap).value;
    var f := Flight(n, w.time + CLAIM_LEASE, false);
    assert {} + {f} == {f} && {f} - {f} == {};
    LeaseGoesOn(o, past, Claim(w.time), cap);
    Chain(o, past, Claim(w.time), cap);
    var a := past + [Claim(w.time)];
    LeaseGoesOn(o, a, Crash(f), cap);
    Chain(o, a, Crash(f), cap);
    var b := a + [Crash(f)];
    LeaseGoesOn(o, b, Wait(w.time + CLAIM_LEASE), cap);
    Chain(o, b, Wait(w.time + CLAIM_LEASE), cap);
    steps := b + [Wait(w.time + CLAIM_LEASE)];
  }

  // ---------------------------------------------------------------- the rows, one worker

  ghost predicate NoDuplicates(ids: seq<string>) {
    forall i, j :: 0 <= i < j < |ids| ==> ids[i] != ids[j]
  }

  /** The deliveries table; `ids` in insertion order. */
  class Outbox {
    var rows: map<string, Row>
    var ids: seq<string>
    const cap: int

    ghost predicate Valid()
      reads this
    {
      NoDuplicates(ids) && forall id :: id in rows <==> id in ids
    }

    constructor (cap: int)
      ensures Valid() && rows == map[] && this.cap == cap
    {
      rows, ids, this.cap := map[], [], cap;
    }

    /** `id` is a fresh random id. */
    method Enqueue(id: string, now: int)
      requires Valid() && id !in rows
      modifies this
      ensures Valid() && rows == old(rows)[id := Enqueued(now).row] && ids == old(ids) + [id]
    {
      rows, ids := rows[id := Row(PENDING, 0, now)], ids + [id];
    }

    /** One attempt by one worker: the Claim, Send and Settle steps of the protocol, or a claim that found nothing. */
    method Attempt(id: string, claimAt: int, reply: nat -> Verdict, settleAt: int) returns (claimed: bool)
      requires Valid() && id in rows
      modifies `rows
      ensures Valid() && claimed == Claimable(old(rows)[id], claimAt)
      ensures claimed ==> rows == old(rows)[id := Attempted(old(rows)[id], claimAt, reply, cap, settleAt)]
      ensures !claimed ==> rows == old(rows)
    {
      claimed := Claimable(rows[id], claimAt);
      rows := rows[id := Claimed(rows[id], claimAt)];
      if !claimed { return; }
      var number := rows[id].attempts;
      var v := reply(number);
      rows := rows[id := Settled(rows[id], number, v, cap, settleAt)];
    }

    /** The ids due at `now`, earliest first, at most `limit`. */
    method Due(now: int, limit: nat) returns (due: seq<string>)
      requires Valid()
      ensures |due| <= limit && NoDuplicates(due)
      ensures forall id :: id in due ==> id in rows && Claimable(rows[id], now)
      ensures forall i, j :: 0 <= i < j < |due| ==> rows[due[i]].nextAt <= rows[due[j]].nextAt
      ensures forall id :: id in rows && Claimable(rows[id], now) && id !in due ==>
                |due| == limit && forall d :: d in due ==> rows[d].nextAt <= rows[id].nextAt
    {
      var all: seq<string> := [];
      for i := 0 to |ids|
        invariant NoDuplicates(all)
        invariant forall id :: id in all <==> id in ids[..i] && Claimable(rows[id], now)
      {
        if Claimable(rows[ids[i]], now) { all := all + [ids[i]]; }
      }
      assert ids[..|ids|] == ids;
      var table := rows;
      var key := (id: string) => if id in table then table[id].nextAt else 0;
      var sorted := Sorting.Sorted(all, key);
      SortedOnce(all, key);
      due := if |sorted| <= limit then sorted else sorted[..limit];
    }

    /** `deliver_due`: every due delivery gets one attempt and no other row is touched. The clock does not go back. */
    method DeliverDue(clock: nat -> int, reply: (string, nat) -> Verdict, limit: nat) returns (done: seq<string>)
      requires Valid() && Forward(clock)
      modifies `rows
      ensures Valid() && rows.Keys == old(rows).Keys && |done| <= limit && NoDuplicates(done)
      ensures forall id :: id in done ==>
              id in rows && Claimable(old(rows)[id], clock(0)) && rows[id].attempts == old(rows)[id].attempts + 1
      ensures forall id :: id in rows && id !in done ==> rows[id] == old(rows)[id]
      ensures forall id :: id in rows && Claimable(old(rows)[id], clock(0)) && id !in done ==> |done| == limit
    {
      hide Attempted, Settled, Claimed, Forward, NoDuplicates;
      var due := Due(clock(0), limit);
      done := [];
      for k := 0 to |due|
        invariant done == due[..k]
        invariant rows.Keys == old(rows).Keys
        invariant forall id :: id in due[..k] ==> rows[id].attempts == old(rows)[id].attempts + 1
        invariant forall id :: id in rows && id !in due[..k] ==> rows[id] == old(rows)[id]
      {
        var id := due[k];
        NotBefore(due, k);
        FromStart(clock, 2 * k + 1);
        AttemptCounts(rows[id], clock(2 * k + 1), (n: nat) => reply(id, n), cap, clock(2 * k + 2));
        var claimed := Attempt(id, clock(2 * k + 1), (n: nat) => reply(id, n), clock(2 * k + 2));
        if claimed { done := done + [id]; }
      }
      assert due[..|due|] == due;
    }
  }

  ghost predicate Forward(clock: nat -> int) {
    forall i: nat, j: nat :: i <= j ==> clock(i) <= clock(j)
  }

  lemma FromStart(clock: nat -> int, n: nat)
    requires Forward(clock)
    ensures clock(0) <= clock(n)
  {
  }

  lemma NotBefore(ids: seq<string>, k: nat)
    requires NoDuplicates(ids) && k < |ids|
    ensures ids[k] !in ids[..k]
  {
  }

  lemma {:induction false} OnceEach(s: seq<string>)
    ensures NoDuplicates(s) <==> forall x :: multiset(s)[x] <= 1
  {
    if s != [] {
      var n := |s| - 1;
      var front, x := s[..n], s[n];
      assert s == front + [x];
      OnceEach(front);
      assert multiset(s) == multiset(front) + multiset{x};
      if NoDuplicates(s) {
        assert x !in front;
        assert NoDuplicates(front) by { assert forall i :: 0 <= i < n ==> front[i] == s[i]; }
      } else if NoDuplicates(front) {
        assert x in front by { RepeatIsLast(front, x); }
        assert multiset(s)[x] > 1;
      } else {
        var y :| multiset(front)[y] > 1;
        assert multiset(s)[y] > 1;
      }
    }
  }

  lemma RepeatIsLast(front: seq<string>, x: string)
    requires NoDuplicates(front) && !NoDuplicates(front + [x])
    ensures x in front
  {
    var s := front + [x];
    var i, j :| 0 <= i < j < |s| && s[i] == s[j];
    assert j == |front|;
  }

  lemma SortedOnce(s: seq<string>, key: string -> int)
    requires NoDuplicates(s)
    ensures NoDuplicates(Sorting.Sorted(s, key)) && Sorting.Ascending(Sorting.Sorted(s, key), key)
    ensures forall x :: x in Sorting.Sorted(s, key) <==> x in s
  {
    hide NoDuplicates;
    OnceEach(s);
    Sorting.SortedSorts(s, key);
    Sorting.SortedMembers(s, key);
    OnceEach(Sorting.Sorted(s, key));
  }

  /** An attempt that was sent and answered is a Claim, a Send and a Settle of the protocol. */
  lemma AttemptIsSteps(w: World, past: seq<Step>, v: World, reply: nat -> Verdict, cap: int) returns (steps: seq<Step>)
    requires After(w, past, cap) == Some(v) && Claimable(v.row, v.time) && Counted(v)
    ensures var f := Flight(v.row.attempts + 1, v.time + CLAIM_LEASE, false);
            steps == past + [Claim(v.time), Send(f), Settle(f.(sent := true), reply(f.number), v.time)]
    ensures After(w, steps, cap).Some?
    ensures After(w, steps, cap).value.row == Attempted(v.row, v.time, reply, cap, v.time)
    ensures After(w, steps, cap).value.flights == v.flights
  {
    hide Counted, Claimed, After;
    var f := Flight(v.row.attempts + 1, v.time + CLAIM_LEASE, false);
    var g := f.(sent := true);
    FreshFlight(v, f, g);
    Chain(w, past, Claim(v.time), cap);
    var a := past + [Claim(v.time)];
    assert After(w, a, cap) == Some(v.(row := Claimed(v.row, v.time), claims := v.claims + 1,
        flights := v.flights + {f}));
    Chain(w, a, Send(f), cap);
    var b := a + [Send(f)];
    assert After(w, b, cap).value.flights == v.flights + {g};
    Chain(w, b, Settle(g, reply(f.number), v.time), cap);
    steps := b + [Settle(g, reply(f.number), v.time)];
  }

  lemma FreshFlight(v: World, f: Flight, g: Flight)
    requires Counted(v) && f.number == g.number == v.row.attempts + 1
    ensures v.flights + {f} - {f} == v.flights && v.flights + {g} - {g} == v.flights
  {
    NumberedNext(v.flights, v.row.attempts, f);
    NumberedNext(v.flights, v.row.attempts, g);
  }

  lemma AttemptCounts(row: Row, claimAt: int, reply: nat -> Verdict, cap: int, settleAt: int)
    requires Claimable(row, claimAt)
    ensures Attempted(row, claimAt, reply, cap, settleAt).attempts == row.attempts + 1
  {
  }

  ghost function Attempted(row: Row, claimAt: int, reply: nat -> Verdict, cap: int, settleAt: int): Row {
    Settled(Claimed(row, claimAt), row.attempts + 1, reply(row.attempts + 1), cap, settleAt)
  }
}
