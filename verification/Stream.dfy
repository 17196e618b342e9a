/**
 Following a run's events: replay of the ledger, then the live queue, with the ledger polled for what other
 processes wrote. Every interleaving of writers, bus and follower is a history of the steps below.
 */
module Stream {
  import opened Wrappers

  datatype Event = Event(id: nat, terminal: bool)

  const QUEUE_SIZE := 1000

  // ---------------------------------------------------------------- the ledger

  /** Ids grow along the ledger: a run's events commit in id order. */
  ghost predicate Ordered(ledger: seq<Event>) {
    forall i, j :: 0 <= i < j < |ledger| ==> ledger[i].id < ledger[j].id
  }

  /** How many leading events have an id up to `x`. */
  function Rank(ledger: seq<Event>, x: nat): (r: nat)
    ensures r <= |ledger|
  {
    if ledger == [] || ledger[0].id > x then 0 else 1 + Rank(ledger[1..], x)
  }

  /** `events(run, after)`: `WHERE id > after ORDER BY id`. */
  function EventsAfter(ledger: seq<Event>, x: nat): seq<Event> {
    ledger[Rank(ledger, x)..]
  }

  lemma {:induction false} RankSplits(ledger: seq<Event>, x: nat)
    requires Ordered(ledger)
    ensures forall i :: 0 <= i < |ledger| ==> (ledger[i].id <= x <==> i < Rank(ledger, x))
  {
    if ledger != [] && ledger[0].id <= x {
      RankSplits(ledger[1..], x);
      forall i | 0 <= i < |ledger| ensures ledger[i].id <= x <==> i < Rank(ledger, x) {
        if i > 0 { assert ledger[i] == ledger[1..][i - 1]; }
      }
    }
  }

  lemma RankIs(ledger: seq<Event>, x: nat, r: nat)
    requires Ordered(ledger) && r <= |ledger|
    requires (r > 0 ==> ledger[r - 1].id <= x) && (r < |ledger| ==> x < ledger[r].id)
    ensures Rank(ledger, x) == r
  {
    RankSplits(ledger, x);
  }

  // ---------------------------------------------------------------- the follower

  datatype Phase = Fresh | Subscribed | Reading | Live | Done

  /** `pending` is what is left of the ledger read being handed out; `queue` what the bus put in. */
  datatype Follower = Follower(phase: Phase, last: nat, delivered: seq<Event>, pending: seq<Event>, queue: seq<Event>)

  /** The ledger, how far the bus has announced it, and one follower that asked for events after `after`. */
  datatype World = World(ledger: seq<Event>, announced: nat, after: nat, f: Follower)

  function Deliver(f: Follower, e: Event): Follower {
    f.(last := e.id, delivered := f.delivered + [e], phase := if e.terminal then Done else f.phase)
  }

  datatype Step =
    | Append(e: Event)     // a writer, in this process or another, commits an event
    | Announce             // the bus announces the next event in ledger order
    | AnnounceOther(e: Event)  // the bus announces some event out of order
    | Subscribe
    | Read                 // the ledger is read from `last` on (replay, or the poll after a timeout)
    | Yield                // the next event of that read is handed out
    | EndRead(exit: bool)  // the read is exhausted; the status checks may end the stream
    | Take                 // the head of the queue is taken: skipped if already seen, else handed out

  predicate Listening(f: Follower) {
    f.phase != Fresh && f.phase != Done
  }

  ghost predicate Enabled(w: World, s: Step) {
    match s
    case Append(e) => w.ledger == [] || w.ledger[|w.ledger| - 1].id < e.id
    case Announce => w.announced < |w.ledger|
    case AnnounceOther(e) => e in w.ledger
    case Subscribe => w.f.phase == Fresh
    case Read => w.f.phase == Subscribed || w.f.phase == Live
    case Yield => w.f.phase == Reading && w.f.pending != []
    case EndRead(_) => w.f.phase == Reading && w.f.pending == []
    case Take => w.f.phase == Live && w.f.queue != []
  }

  /** `put_nowait`: a full queue drops the event. */
  function Put(f: Follower, e: Event): Follower {
    if Listening(f) && |f.queue| < QUEUE_SIZE then f.(queue := f.queue + [e]) else f
  }

  ghost function Next(w: World, s: Step): World
    requires Enabled(w, s)
  {
    var f := w.f;
    match s
    case Append(e) => w.(ledger := w.ledger + [e])
    case Announce => w.(announced := w.announced + 1, f := Put(f, w.ledger[w.announced]))
    case AnnounceOther(e) => w.(f := Put(f, e))
    case Subscribe => w.(f := f.(phase := Subscribed))
    case Read => w.(f := f.(phase := Reading, pending := EventsAfter(w.ledger, f.last)))
    case Yield => w.(f := Deliver(f.(pending := f.pending[1..]), f.pending[0]))
    case EndRead(exit) => w.(f := f.(phase := if exit then Done else Live))
    case Take =>
      var e, g := f.queue[0], f.(queue := f.queue[1..]);
      w.(f := if e.id <= f.last then g else Deliver(g, e))
  }

  /** The state after a history; None when a step was not possible. */
  ghost function After(w: World, steps: seq<Step>): Option<World> {
    if steps == [] then Some(w)
    else
      match After(w, steps[..|steps| - 1])
      case None => None
      case Some(v) => if Enabled(v, steps[|steps| - 1]) then Some(Next(v, steps[|steps| - 1])) else None
  }

  /** A client connects with cursor `after` to a run whose ledger is `ledger`, of which `announced` were announced. */
  ghost predicate Initial(w: World) {
    Ordered(w.ledger) && w.announced <= |w.ledger| && w.f == Follower(Fresh, w.after, [], [], [])
  }

  // ---------------------------------------------------------------- no repeats, one end: in every interleaving

  ghost predicate Increasing(events: seq<Event>) {
    forall i, j :: 0 <= i < j < |events| ==> events[i].id < events[j].id
  }

  /** What the client has seen is in order, after its cursor, and nothing follows a terminal event. */
  ghost predicate Clean(w: World) {
    var f := w.f;
    && Ordered(w.ledger)
    && w.after <= f.last && Increasing(f.delivered)
    && (if f.delivered == [] then f.last == w.after
       else f.last == f.delivered[|f.delivered| - 1].id && w.after < f.delivered[0].id)
    && (forall i :: 0 <= i < |f.delivered| && f.delivered[i].terminal ==> i == |f.delivered| - 1 && f.phase == Done)
    && Increasing(f.pending) && (f.phase == Reading && f.pending != [] ==> f.last < f.pending[0].id)
  }

  lemma DeliverKeepsClean(w: World, f: Follower, e: Event)
    requires Clean(w) && Listening(w.f) && w.f.last < e.id
    requires f.last == w.f.last && f.delivered == w.f.delivered && f.phase == w.f.phase
    requires Increasing(f.pending) && (f.phase == Reading && f.pending != [] ==> e.id < f.pending[0].id)
    ensures Clean(w.(f := Deliver(f, e)))
  {
    hide Ordered;
    var out := f.delivered + [e];
    forall i, j | 0 <= i < j < |out| ensures out[i].id < out[j].id {
      if j == |out| - 1 && i < |f.delivered| - 1 { assert f.delivered[i].id < f.delivered[|f.delivered| - 1].id; }
    }
  }

  lemma TailIncreasing(events: seq<Event>)
    requires Increasing(events) && events != []
    ensures Increasing(events[1..]) && (|events| > 1 ==> events[0].id < events[1..][0].id)
  {
  }

  lemma ReadIsIncreasing(ledger: seq<Event>, x: nat)
    requires Ordered(ledger)
    ensures Increasing(EventsAfter(ledger, x)) && (EventsAfter(ledger, x) != [] ==> x < EventsAfter(ledger, x)[0].id)
  {
    RankSplits(ledger, x);
  }

  lemma StepKeepsClean(w: World, s: Step)
    requires Clean(w) && Enabled(w, s)
    ensures Clean(Next(w, s))
  {
    hide Increasing;
    match s {
      case Read => ReadIsIncreasing(w.ledger, w.f.last);
      case Yield =>
        TailIncreasing(w.f.pending);
        DeliverKeepsClean(w, w.f.(pending := w.f.pending[1..]), w.f.pending[0]);
      case Take =>
        var e, g := w.f.queue[0], w.f.(queue := w.f.queue[1..]);
        if w.f.last < e.id { DeliverKeepsClean(w, g, e); }
      case _ =>
    }
  }

  lemma {:induction false} HistoryIsClean(w: World, steps: seq<Step>)
    requires Initial(w)
    ensures After(w, steps).Some? ==> Clean(After(w, steps).value)
  {
    hide Clean, Next, Enabled;
    if steps == [] {
      assert Clean(w) by { InitialIsClean(w); }
    } else {
      HistoryIsClean(w, steps[..|steps| - 1]);
      match After(w, steps[..|steps| - 1]) {
        case None =>
        case Some(v) => if Enabled(v, steps[|steps| - 1]) { StepKeepsClean(v, steps[|steps| - 1]); }
      }
    }
  }

  lemma InitialIsClean(w: World)
    requires Initial(w)
    ensures Clean(w)
  {
  }

  /**
   In every interleaving, whatever the bus drops, repeats or reorders: the ids a client receives strictly
   increase from its cursor, and at most one terminal event is delivered, as the last.
   */
  lemma NoRepeats(w: World, steps: seq<Step>)
    requires Initial(w) && After(w, steps).Some?
    ensures var out := After(w, steps).value.f.delivered;
            && Increasing(out) && (forall i :: 0 <= i < |out| ==> w.after < out[i].id)
            && forall i :: 0 <= i < |out| && out[i].terminal ==> i == |out| - 1
  {
    HistoryIsClean(w, steps);
    CursorStays(w, steps);
  }

  lemma {:induction false} CursorStays(w: World, steps: seq<Step>)
    ensures After(w, steps).Some? ==> After(w, steps).value.after == w.after
  {
    hide Enabled;
    if steps != [] { CursorStays(w, steps[..|steps| - 1]); }
  }

  // ---------------------------------------------------------------- no gaps: when the bus mirrors the ledger

  /** The bus announces in ledger order and never overflows; it may also announce nothing at all. */
  ghost predicate Mirrors(w: World, s: Step) {
    !s.AnnounceOther? && (s.Announce? && Listening(w.f) ==> |w.f.queue| < QUEUE_SIZE)
  }

  ghost predicate MirrorsThroughout(w: World, steps: seq<Step>) {
    forall k :: 0 <= k < |steps| && After(w, steps[..k]).Some? ==> Mirrors(After(w, steps[..k]).value, steps[k])
  }

  /** The last id the client will have seen once the current read is handed out. */
  function Horizon(f: Follower): nat {
    if f.phase == Reading && f.pending != [] then f.pending[|f.pending| - 1].id else f.last
  }

  /** What was delivered is exactly the ledger between the client's cursor and the last id it saw. */
  ghost predicate GapFree(w: World) {
    var r := Rank(w.ledger, w.f.last);
    Rank(w.ledger, w.after) <= r && w.f.delivered == w.ledger[Rank(w.ledger, w.after)..r]
  }

  /** The read being handed out continues the ledger, and the queue holds the announced events from `taken` on. */
  ghost predicate InStep(w: World, taken: nat) {
    var r := Rank(w.ledger, w.f.last);
    && w.announced <= |w.ledger|
    && (w.f.phase == Reading ==> r + |w.f.pending| <= |w.ledger| && w.f.pending == w.ledger[r..r + |w.f.pending|])
    && (w.f.phase == Fresh ==> w.f.queue == [])
    && (Listening(w.f) ==>
          && taken <= w.announced && w.f.queue == w.ledger[taken..w.announced]
          && (w.f.phase != Subscribed ==> taken <= Rank(w.ledger, Horizon(w.f))))
  }

  ghost predicate Following(w: World) {
    Clean(w) && GapFree(w) && exists taken :: 0 <= taken && InStep(w, taken)
  }

  lemma RankAppend(ledger: seq<Event>, e: Event, x: nat)
    requires Ordered(ledger + [e])
    ensures Rank(ledger + [e], x) == if e.id <= x then |ledger| + 1 else Rank(ledger, x)
    ensures Rank(ledger, x) <= Rank(ledger + [e], x)
  {
    var more := ledger + [e];
    assert Ordered(ledger) by {
      assert forall i :: 0 <= i < |ledger| ==> ledger[i] == more[i];
    }
    RankSplits(ledger, x);
    if e.id <= x {
      RankIs(more, x, |ledger| + 1);
    } else {
      var r := Rank(ledger, x);
      assert r > 0 ==> more[r - 1] == ledger[r - 1];
      assert r < |ledger| ==> more[r] == ledger[r];
      RankIs(more, x, r);
    }
  }

  lemma OrderedAppend(ledger: seq<Event>, e: Event)
    requires Ordered(ledger) && (ledger == [] || ledger[|ledger| - 1].id < e.id)
    ensures Ordered(ledger + [e])
  {
    var more := ledger + [e];
    forall i, j | 0 <= i < j < |more| ensures more[i].id < more[j].id {
      if j == |ledger| && i < |ledger| - 1 { assert ledger[i].id < ledger[|ledger| - 1].id; }
    }
  }

  lemma SliceAppend(ledger: seq<Event>, e: Event, a: nat, b: nat)
    requires a <= b <= |ledger|
    ensures (ledger + [e])[a..b] == ledger[a..b]
  {
  }

  /** A new event is beyond everything the client saw, unless its cursor was in the future and it saw nothing. */
  lemma AppendKeepsGapFree(w: World, e: Event)
    requires Clean(w) && GapFree(w) && Enabled(w, Append(e))
    ensures GapFree(Next(w, Append(e)))
    ensures w.f.last < e.id || (Rank(w.ledger, w.f.last) == |w.ledger| && w.f.delivered == [])
  {
    hide Increasing, Rank;
    OrderedAppend(w.ledger, e);
    RankAppend(w.ledger, e, w.after);
    RankAppend(w.ledger, e, w.f.last);
    RankSplits(w.ledger, w.f.last);
    var r := Rank(w.ledger, w.f.last);
    SliceAppend(w.ledger, e, Rank(w.ledger, w.after), r);
    if w.f.delivered != [] {
      assert w.f.delivered[|w.f.delivered| - 1] == w.ledger[r - 1];
    }
  }

  lemma AppendFollows(w: World, taken: nat, e: Event)
    requires Clean(w) && GapFree(w) && InStep(w, taken) && Enabled(w, Append(e))
    ensures GapFree(Next(w, Append(e))) && InStep(Next(w, Append(e)), taken)
  {
    hide Increasing, Rank, GapFree, Ordered;
    AppendKeepsGapFree(w, e);
    OrderedAppend(w.ledger, e);
    RankAppend(w.ledger, e, w.f.last);
    RankAppend(w.ledger, e, Horizon(w.f));
    if Listening(w.f) { SliceAppend(w.ledger, e, taken, w.announced); }
    if w.f.phase == Reading {
      var r := Rank(w.ledger, w.f.last);
      SliceAppend(w.ledger, e, r, r + |w.f.pending|);
    }
  }

  lemma YieldFollows(w: World, taken: nat)
    requires Clean(w) && GapFree(w) && InStep(w, taken) && Enabled(w, Yield)
    ensures GapFree(Next(w, Yield)) && InStep(Next(w, Yield), taken)
  {
    hide Increasing, Rank;
    var r, e, ra := Rank(w.ledger, w.f.last), w.f.pending[0], Rank(w.ledger, w.after);
    assert e == w.ledger[r];
    RankIs(w.ledger, e.id, r + 1);
    assert w.ledger[ra..r] + [w.ledger[r]] == w.ledger[ra..r + 1];
    assert w.ledger[r..r + |w.f.pending|][1..] == w.ledger[r + 1..r + |w.f.pending|];
  }

  lemma ReadFollows(w: World, taken: nat)
    requires Clean(w) && GapFree(w) && InStep(w, taken) && Enabled(w, Read)
    ensures GapFree(Next(w, Read)) && InStep(Next(w, Read), taken)
  {
    hide Increasing, Rank;
    var r := Rank(w.ledger, w.f.last);
    assert w.ledger[r..] == w.ledger[r..r + |w.ledger[r..]|];
    if r < |w.ledger| {
      assert w.ledger[r..][|w.ledger[r..]| - 1] == w.ledger[|w.ledger| - 1];
      RankIs(w.ledger, w.ledger[|w.ledger| - 1].id, |w.ledger|);
    }
  }

  lemma TakeFollows(w: World, taken: nat)
    requires Clean(w) && GapFree(w) && InStep(w, taken) && Enabled(w, Take)
    ensures GapFree(Next(w, Take)) && InStep(Next(w, Take), taken + 1)
  {
    hide Increasing, Rank;
    var r, e, ra := Rank(w.ledger, w.f.last), w.f.queue[0], Rank(w.ledger, w.after);
    assert e == w.ledger[taken];
    RankSplits(w.ledger, w.f.last);
    assert w.ledger[taken..w.announced][1..] == w.ledger[taken + 1..w.announced];
    if e.id > w.f.last {
      RankIs(w.ledger, e.id, r + 1);
      assert w.ledger[ra..r] + [w.ledger[r]] == w.ledger[ra..r + 1];
    }
  }

  lemma AnnounceFollows(w: World, taken: nat)
    requires Clean(w) && GapFree(w) && InStep(w, taken) && Enabled(w, Announce) && Mirrors(w, Announce)
    ensures GapFree(Next(w, Announce)) && InStep(Next(w, Announce), taken)
  {
    hide Increasing, Rank, Ordered;
    if Listening(w.f) {
      assert w.ledger[taken..w.announced] + [w.ledger[w.announced]] == w.ledger[taken..w.announced + 1];
    }
  }

  lemma StepFollows(w: World, s: Step)
    requires Following(w) && Enabled(w, s) && Mirrors(w, s)
    ensures Following(Next(w, s))
  {
    hide Clean, GapFree;
    StepKeepsClean(w, s);
    var taken: nat :| InStep(w, taken);
    match s {
      case Append(e) => AppendFollows(w, taken, e);
      case Announce => AnnounceFollows(w, taken);
      case Subscribe => SubscribeFollows(w);
      case Read => ReadFollows(w, taken);
      case Yield => YieldFollows(w, taken);
      case EndRead(exit) => EndReadFollows(w, taken, exit);
      case Take => TakeFollows(w, taken);
    }
  }

  lemma SubscribeFollows(w: World)
    requires GapFree(w) && (exists taken: nat :: InStep(w, taken)) && Enabled(w, Subscribe)
    ensures GapFree(Next(w, Subscribe)) && InStep(Next(w, Subscribe), w.announced)
  {
    hide Rank;
  }

  lemma EndReadFollows(w: World, taken: nat, exit: bool)
    requires GapFree(w) && InStep(w, taken) && Enabled(w, EndRead(exit))
    ensures GapFree(Next(w, EndRead(exit))) && InStep(Next(w, EndRead(exit)), taken)
  {
    hide Rank;
  }

  lemma {:induction false} HistoryFollows(w: World, steps: seq<Step>)
    requires Initial(w) && MirrorsThroughout(w, steps)
    ensures After(w, steps).Some? ==> Following(After(w, steps).value)
  {
    hide Following, Next, Enabled, Mirrors;
    if steps == [] {
      InitialFollows(w);
    } else {
      var n := |steps| - 1;
      assert MirrorsThroughout(w, steps[..n]) by {
        assert forall k :: 0 <= k < n ==> steps[..n][..k] == steps[..k];
      }
      HistoryFollows(w, steps[..n]);
      match After(w, steps[..n]) {
        case None =>
        case Some(v) => if Enabled(v, steps[n]) { StepFollows(v, steps[n]); }
      }
    }
  }

  lemma InitialFollows(w: World)
    requires Initial(w)
    ensures Following(w)
  {
    assert InStep(w, 0);
  }

  /**
   When the bus mirrors the ledger in order without drops (or announces nothing), what a client received is at
   every moment exactly the run's events from its cursor to the last id it saw: a prefix of the ledger after it.
   */
  lemma NoGaps(w: World, steps: seq<Step>)
    requires Initial(w) && MirrorsThroughout(w, steps) && After(w, steps).Some?
    ensures var v := After(w, steps).value;
            v.f.delivered <= EventsAfter(v.ledger, w.after) && GapFree(v)
  {
    HistoryFollows(w, steps);
    CursorStays(w, steps);
    var v := After(w, steps).value;
    assert v.f.delivered == v.ledger[Rank(v.ledger, w.after)..Rank(v.ledger, v.f.last)];
  }

  // ---------------------------------------------------------------- exactly when a live event leaves a gap

  /** The head of the queue was seen already, or is the next event of the ledger. */
  ghost predicate TakesNext(w: World) {
    w.f.queue != [] && (w.f.queue[0].id <= w.f.last || [w.f.queue[0]] <= EventsAfter(w.ledger, w.f.last))
  }

  lemma NextIsTaken(w: World)
    requires Clean(w) && GapFree(w) && Enabled(w, Take) && w.f.queue[0].id > w.f.last
    requires [w.f.queue[0]] <= EventsAfter(w.ledger, w.f.last)
    ensures GapFree(Next(w, Take))
  {
    hide Increasing, Rank;
    var r, e, ra := Rank(w.ledger, w.f.last), w.f.queue[0], Rank(w.ledger, w.after);
    assert w.ledger[r..][0] == e;
    assert w.ledger[r] == e;
    RankIs(w.ledger, e.id, r + 1);
    assert w.ledger[ra..r] + [w.ledger[r]] == w.ledger[ra..r + 1];
  }

  lemma SkippedIsAGap(w: World, k: nat)
    requires Clean(w) && GapFree(w) && Enabled(w, Take) && k < |w.ledger| && w.ledger[k] == w.f.queue[0]
    requires w.f.queue[0].id > w.f.last && k != Rank(w.ledger, w.f.last)
    ensures !GapFree(Next(w, Take)) && !([w.f.queue[0]] <= EventsAfter(w.ledger, w.f.last))
  {
    hide Increasing, Rank;
    var r, e, ra := Rank(w.ledger, w.f.last), w.f.queue[0], Rank(w.ledger, w.after);
    RankSplits(w.ledger, w.f.last);
    RankIs(w.ledger, e.id, k + 1);
    assert k > r && w.ledger[r..][0] == w.ledger[r];
    assert |w.ledger[ra..k + 1]| == k + 1 - ra && |w.f.delivered| == r - ra;
  }

  /** Taking a live event keeps the stream free of gaps exactly when it was seen already or is the next one. */
  lemma TakeKeepsGapFreeIff(w: World)
    requires Clean(w) && GapFree(w) && Enabled(w, Take) && w.f.queue[0] in w.ledger
    ensures GapFree(Next(w, Take)) <==> TakesNext(w)
  {
    hide Increasing, Rank, Clean, Ordered;
    var e := w.f.queue[0];
    var k :| 0 <= k < |w.ledger| && w.ledger[k] == e;
    if e.id > w.f.last {
      if k == Rank(w.ledger, w.f.last) {
        assert w.ledger[k..][0] == e;
        NextIsTaken(w);
      } else {
        SkippedIsAGap(w, k);
      }
    }
  }

  // ---------------------------------------------------------------- over whole histories

  /** Whatever the bus does: a read in progress continues the ledger, and the queue holds events of the ledger. */
  ghost predicate Backed(w: World) {
    var r := Rank(w.ledger, w.f.last);
    && (w.f.phase == Reading ==> r + |w.f.pending| <= |w.ledger| && w.f.pending == w.ledger[r..r + |w.f.pending|])
    && (forall e :: e in w.f.queue ==> e in w.ledger)
  }

  lemma AppendKeepsBacked(w: World, e: Event)
    requires Clean(w) && Backed(w) && Enabled(w, Append(e))
    ensures Backed(Next(w, Append(e)))
  {
    hide Increasing, Rank, Ordered;
    OrderedAppend(w.ledger, e);
    RankAppend(w.ledger, e, w.f.last);
    var r := Rank(w.ledger, w.f.last);
    if w.f.phase == Reading {
      SliceAppend(w.ledger, e, r, r + |w.f.pending|);
      if e.id <= w.f.last { BeyondAll(w.ledger, e, w.f.last); }
    }
    assert forall x :: x in w.ledger ==> x in w.ledger + [e];
  }

  lemma BeyondAll(ledger: seq<Event>, e: Event, x: nat)
    requires Ordered(ledger + [e]) && Ordered(ledger) && e.id <= x
    ensures Rank(ledger, x) == |ledger|
  {
    var more := ledger + [e];
    if ledger != [] { assert more[|ledger| - 1].id < more[|ledger|].id; }
    RankIs(ledger, x, |ledger|);
  }

  lemma SliceTail(ledger: seq<Event>, a: nat, b: nat)
    requires a < b <= |ledger|
    ensures ledger[a..b][0] == ledger[a] && ledger[a..b][1..] == ledger[a + 1..b]
  {
  }

  lemma SliceMore(ledger: seq<Event>, a: nat, b: nat)
    requires a <= b < |ledger|
    ensures ledger[a..b] + [ledger[b]] == ledger[a..b + 1]
  {
  }

  lemma YieldKeepsBacked(w: World)
    requires Clean(w) && Backed(w) && Enabled(w, Yield)
    ensures Backed(Next(w, Yield)) && (GapFree(w) ==> GapFree(Next(w, Yield)))
  {
    hide Increasing, Rank, Ordered;
    var r, e := Rank(w.ledger, w.f.last), w.f.pending[0];
    SliceTail(w.ledger, r, r + |w.f.pending|);
    assert e == w.ledger[r] && Rank(w.ledger, e.id) == r + 1 by { NextRank(w.ledger, r); }
    if GapFree(w) { SliceMore(w.ledger, Rank(w.ledger, w.after), r); }
  }

  lemma NextRank(ledger: seq<Event>, r: nat)
    requires Ordered(ledger) && r < |ledger|
    ensures Rank(ledger, ledger[r].id) == r + 1
  {
    RankIs(ledger, ledger[r].id, r + 1);
  }

  lemma OtherKeepsBacked(w: World, s: Step)
    requires Clean(w) && Backed(w) && Enabled(w, s) && !s.Append? && !s.Yield?
    ensures Backed(Next(w, s))
    ensures !s.Take? && GapFree(w) ==> GapFree(Next(w, s))
  {
    hide Increasing, Rank, Ordered;
    if s.Read? {
      var r := Rank(w.ledger, w.f.last);
      assert w.ledger[r..] == w.ledger[r..r + |w.ledger[r..]|];
    }
    if s.Announce? { assert w.ledger[w.announced] in w.ledger; }
  }

  /** Every step keeps a client's reads backed; every step but a Take keeps a gap-free stream gap-free. */
  lemma StepKeepsBacked(w: World, s: Step)
    requires Clean(w) && Backed(w) && Enabled(w, s)
    ensures Clean(Next(w, s)) && Backed(Next(w, s))
    ensures GapFree(w) ==> (GapFree(Next(w, s)) <==> (s.Take? ==> TakesNext(w)))
  {
    hide Clean, GapFree, TakesNext, Rank;
    StepKeepsClean(w, s);
    match s {
      case Append(e) =>
        AppendKeepsBacked(w, e);
        if GapFree(w) { AppendKeepsGapFree(w, e); }
      case Yield => YieldKeepsBacked(w);
      case Take =>
        OtherKeepsBacked(w, s);
        if GapFree(w) { assert w.f.queue[0] in w.f.queue; TakeKeepsGapFreeIff(w); }
      case _ => OtherKeepsBacked(w, s);
    }
  }

  lemma {:induction false} PrefixRuns(w: World, steps: seq<Step>, k: nat)
    requires Initial(w) && After(w, steps).Some? && k <= |steps|
    ensures After(w, steps[..k]).Some? && Clean(After(w, steps[..k]).value) && Backed(After(w, steps[..k]).value)
    ensures k < |steps| ==>
              && Enabled(After(w, steps[..k]).value, steps[k])
              && After(w, steps[..k + 1]) == Some(Next(After(w, steps[..k]).value, steps[k]))
    decreases |steps|, k
  {
    hide Enabled, Next, Clean, Backed, Initial;
    var n := |steps| - 1;
    if k < n {
      assert steps[..n][..k] == steps[..k] && steps[..n][..k + 1] == steps[..k + 1] && steps[..n][k] == steps[k];
      PrefixRuns(w, steps[..n], k);
    } else if k == 0 {
      assert steps[..0] == [];
      InitialIsBacked(w);
      if n == 0 { assert steps[..1] == steps; }
    } else {
      var m := k - 1;
      assert steps[..k][..m] == steps[..m];
      if k == n {
        PrefixRuns(w, steps[..n], m);
        assert steps[..n][..m] == steps[..m] && steps[..n][..n] == steps[..n] && steps[..n][m] == steps[m]
            && steps[..k + 1] == steps;
      } else {
        PrefixRuns(w, steps, m);
        assert steps[..k] == steps;
      }
      StepKeepsBacked(After(w, steps[..m]).value, steps[m]);
    }
  }

  lemma InitialIsBacked(w: World)
    requires Initial(w)
    ensures Clean(w) && Backed(w) && GapFree(w)
  {
  }

  /** The state after the first `k` steps. */
  ghost function At(w: World, steps: seq<Step>, k: nat): World
    requires Initial(w) && After(w, steps).Some? && k <= |steps|
  {
    PrefixRuns(w, steps, k);
    After(w, steps[..k]).value
  }

  /**
   From a fresh client, in every interleaving, whatever the bus announces, drops or reorders: the stream is free of gaps
   at every moment if and only if every live event taken was seen already or was the next one of the ledger.
   */
  lemma HistoryGapFreeIff(w: World, steps: seq<Step>)
    requires Initial(w) && After(w, steps).Some?
    ensures (forall k :: 0 <= k <= |steps| ==> GapFree(At(w, steps, k))) <==>
            (forall k :: 0 <= k < |steps| && steps[k].Take? ==> TakesNext(At(w, steps, k)))
  {
    hide Initial, After, GapFree, TakesNext, Enabled, Next, Clean, Backed;
    forall k | 0 <= k < |steps| && GapFree(At(w, steps, k))
      ensures GapFree(At(w, steps, k + 1)) <==> (steps[k].Take? ==> TakesNext(At(w, steps, k)))
    {
      PrefixRuns(w, steps, k);
      PrefixRuns(w, steps, k + 1);
      StepKeepsBacked(At(w, steps, k), steps[k]);
    }
    if forall k :: 0 <= k < |steps| && steps[k].Take? ==> TakesNext(At(w, steps, k)) {
      forall k | 0 <= k <= |steps| ensures GapFree(At(w, steps, k)) { GapFreeUpTo(w, steps, k); }
    } else {
      var k :| 0 <= k < |steps| && steps[k].Take? && !TakesNext(At(w, steps, k));
      assert !(GapFree(At(w, steps, k)) && GapFree(At(w, steps, k + 1)));
    }
  }

  lemma {:induction false} GapFreeUpTo(w: World, steps: seq<Step>, k: nat)
    requires Initial(w) && After(w, steps).Some? && k <= |steps|
    requires forall j :: 0 <= j < |steps| && steps[j].Take? ==> TakesNext(At(w, steps, j))
    ensures GapFree(At(w, steps, k))
  {
    hide Initial, GapFree, TakesNext, Enabled, Next, Clean, Backed;
    if k == 0 {
      InitialIsBacked(w);
      assert steps[..0] == [];
    } else {
      GapFreeUpTo(w, steps, k - 1);
      PrefixRuns(w, steps, k - 1);
      PrefixRuns(w, steps, k);
      StepKeepsBacked(At(w, steps, k - 1), steps[k - 1]);
    }
  }

  /** An event passed over is never delivered later, whatever happens. */
  lemma {:induction false} SkippedForever(w: World, e: Event, steps: seq<Step>)
    requires Clean(w) && e.id <= w.f.last && e !in w.f.delivered
    ensures match After(w, steps)
            case None => true
            case Some(v) => Clean(v) && e.id <= v.f.last && e !in v.f.delivered
  {
    hide Clean, Next, Enabled;
    if steps != [] {
      SkippedForever(w, e, steps[..|steps| - 1]);
      match After(w, steps[..|steps| - 1]) {
        case None =>
        case Some(v) => if Enabled(v, steps[|steps| - 1]) { SkippedOnce(v, e, steps[|steps| - 1]); }
      }
    }
  }

  lemma SkippedOnce(w: World, e: Event, s: Step)
    requires Clean(w) && e.id <= w.f.last && e !in w.f.delivered && Enabled(w, s)
    ensures Clean(Next(w, s)) && e.id <= Next(w, s).f.last && e !in Next(w, s).f.delivered
  {
    hide Increasing, Ordered, Rank;
    StepKeepsClean(w, s);
  }

  /**
   The promise of a gap-free stream fails when the bus announces only some writers' events: one process writes
   event 1 unannounced, this one writes and announces 2, and the client takes 2 before it polls. Event 1 is lost.
   */
  lemma MixedWritersLeaveAGap() returns (w: World, steps: seq<Step>)
    ensures Initial(w) && After(w, steps).Some?
    ensures var v := After(w, steps).value;
            && Clean(v) && !GapFree(v) && Event(1, false) in EventsAfter(v.ledger, w.after)
            && Event(1, false).id <= v.f.last && Event(1, false) !in v.f.delivered
  {
    var a, b := Event(1, false), Event(2, false);
    w := World([], 0, 0, Follower(Fresh, 0, [], [], []));
    var live, w5, w7 := [Subscribe, Read, EndRead(false)], World([a, b], 0, 0, Follower(Live, 0, [], [], [])),
                        World([a, b], 0, 0, Follower(Live, 2, [b], [], []));
    steps := live + [Append(a)] + [Append(b)] + [AnnounceOther(b)] + [Take];
    assert After(w, live + [Append(a)] + [Append(b)]) == Some(w5) by { GapFirstHalf(w, a, b); }
    GapSecondHalf(w, w5, live + [Append(a)] + [Append(b)], a, b);
    HistoryIsClean(w, steps);
    assert Rank([a, b], 2) == 2 by { RankIs([a, b], 2, 2); }
    assert Rank([a, b], 0) == 0;
    assert EventsAfter([a, b], 0) == [a, b];
  }

  lemma GapFirstHalf(w: World, a: Event, b: Event)
    requires w == World([], 0, 0, Follower(Fresh, 0, [], [], [])) && a.id < b.id
    ensures After(w, [Subscribe, Read, EndRead(false)] + [Append(a)] + [Append(b)]) ==
            Some(World([a, b], 0, 0, Follower(Live, 0, [], [], [])))
  {
    Chain(w, [], Subscribe);
    Chain(w, [Subscribe], Read);
    Chain(w, [Subscribe, Read], EndRead(false));
    assert [] + [Subscribe] == [Subscribe] && [Subscribe] + [Read] == [Subscribe, Read];
    var live := [Subscribe, Read, EndRead(false)];
    assert [Subscribe, Read] + [EndRead(false)] == live;
    Chain(w, live, Append(a));
    Chain(w, live + [Append(a)], Append(b));
    assert [] + [a] == [a] && [a] + [b] == [a, b];
  }

  lemma GapSecondHalf(w: World, w5: World, steps: seq<Step>, a: Event, b: Event)
    requires w5 == World([a, b], 0, 0, Follower(Live, 0, [], [], [])) && After(w, steps) == Some(w5)
    requires b == Event(2, false)
    ensures After(w, steps + [AnnounceOther(b)] + [Take]) == Some(World([a, b], 0, 0, Follower(Live, 2, [b], [], [])))
  {
    Chain(w, steps, AnnounceOther(b));
    Chain(w, steps + [AnnounceOther(b)], Take);
    assert [] + [b] == [b] && [b][1..] == [];
    assert After(w, steps + [AnnounceOther(b)]) == Some(World([a, b], 0, 0, Follower(Live, 0, [], [], [b])));
  }

  lemma Chain(w: World, steps: seq<Step>, s: Step)
    requires After(w, steps).Some? && Enabled(After(w, steps).value, s)
    ensures After(w, steps + [s]) == Some(Next(After(w, steps).value, s))
  {
    assert (steps + [s])[..|steps|] == steps;
  }

  // ---------------------------------------------------------------- the loop that follows

  /** Everything a read returned, handed out in order and cut after a terminal event. */
  ghost function HandedOut(f: Follower): Follower
    decreases |f.pending|
  {
    if f.phase != Reading || f.pending == [] then f else HandedOut(Deliver(f.(pending := f.pending[1..]), f.pending[0]))
  }

  /** Handing out a read is a run of Yield steps, so every statement about histories covers the loops below. */
  lemma {:induction false} HandedOutIsYields(w: World, past: seq<Step>, v: World) returns (steps: seq<Step>)
    requires After(w, past) == Some(v)
    ensures past <= steps && (forall k :: |past| <= k < |steps| ==> steps[k] == Yield)
    ensures After(w, steps) == Some(v.(f := HandedOut(v.f)))
    decreases |v.f.pending|
  {
    steps := past;
    if v.f.phase == Reading && v.f.pending != [] {
      Chain(w, past, Yield);
      steps := HandedOutIsYields(w, past + [Yield], Next(v, Yield));
    }
  }

  const FOLLOW_POLL := 0.5

  /** The local state of one `stream` call; `out` is what it has yielded, pings aside. */
  class Tail {
    var last: nat
    var out: seq<Event>
    var done: bool
    var quiet: real
    var pings: nat

    constructor (after: nat)
      ensures last == after && out == [] && !done && quiet == 0.0 && pings == 0
    {
      last, out, done, quiet, pings := after, [], false, 0.0, 0;
    }

    /** The loop over a ledger read, shared by the replay and the poll. */
    method HandOut(news: seq<Event>)
      requires !done
      modifies `last, `out, `done
      ensures var f := HandedOut(Follower(Reading, old(last), old(out), news, []));
              last == f.last && out == f.delivered && done == (f.phase == Done)
    {
      ghost var before := Follower(Reading, last, out, news, []);
      var i := 0;
      while i < |news| && !done
        invariant 0 <= i <= |news|
        invariant HandedOut(Follower(if done then Done else Reading, last, out, news[i..], [])) == HandedOut(before)
      {
        assert news[i..][1..] == news[i + 1..];
        last, out, done := news[i].id, out + [news[i]], news[i].terminal;
        i := i + 1;
      }
    }

    /** A live event arrives: exactly what the Take step does. */
    method Receive(e: Event)
      requires !done
      modifies `last, `out, `done
      ensures forall w: World :: w.f == Follower(Live, old(last), old(out), [], [e]) ==>
                var f := Next(w, Take).f;
                last == f.last && out == f.delivered && done == (f.phase == Done)
    {
      if e.id <= last { return; }
      last, out, done := e.id, out + [e], e.terminal;
    }

    /**
     The poll after a timeout. Empty polls add up; after `heartbeat` seconds of them a ping goes out, and only then
     may the stream end on the run's status. Live events in between do not reset the count.
     */
    method Poll(news: seq<Event>, heartbeat: real, ended: bool)
      requires !done
      modifies this
      ensures var f := HandedOut(Follower(Reading, old(last), old(out), news, []));
              && last == f.last && out == f.delivered
              && (done <==> f.phase == Done || (ended && pings == old(pings) + 1))
      ensures pings == old(pings) || pings == old(pings) + 1
      ensures !done && news != [] && heartbeat > 0.0 ==> quiet == 0.0 && pings == old(pings)
      ensures news == [] ==>
                if old(quiet) + FOLLOW_POLL < heartbeat
                    then quiet == old(quiet) + FOLLOW_POLL && pings == old(pings) && !done
                else quiet == 0.0 && pings == old(pings) + 1 && done == ended
    {
      HandOut(news);
      if done { return; }
      quiet := if news != [] then 0.0 else quiet + FOLLOW_POLL;
      if quiet >= heartbeat {
        quiet, pings := 0.0, pings + 1;
        done := ended;
      }
    }
  }
}
