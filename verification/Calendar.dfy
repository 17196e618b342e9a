/** Conflicts and the next free slot of a calendar; times are integers, in the order of their text form. */
module Calendar {
  import opened Wrappers
  import Sorting

  datatype Block = Block(start: int, end: int, source: string)

  /** The block and the interval overlap, as `check_conflicts` judges it. */
  predicate Clashes(b: Block, start: int, end: int) {
    b.start < end && b.end > start
  }

  /** Something clashes with an interval of this duration from `start` on. */
  ghost predicate Busy(blocks: seq<Block>, start: int, duration: int) {
    exists b :: b in blocks && Clashes(b, start, start + duration)
  }

  /** The local provider's window: events that end at or after `start` and begin at or before `end`, by start. */
  function Window(events: seq<Block>, start: int, end: int): seq<Block> {
    Sorting.Sorted(Within(events, start, end), (b: Block) => b.start)
  }

  function Within(events: seq<Block>, start: int, end: int): (r: seq<Block>)
    ensures forall b :: b in r <==> b in events && b.end >= start && b.start <= end
  {
    if events == [] then []
    else
      var rest := Within(events[1..], start, end);
      if events[0].end >= start && events[0].start <= end then [events[0]] + rest else rest
  }

  lemma WindowMembers(events: seq<Block>, start: int, end: int)
    ensures forall b :: b in Window(events, start, end) <==> b in events && b.end >= start && b.start <= end
  {
    Sorting.SortedMembers(Within(events, start, end), (b: Block) => b.start);
  }

  /** The clashing blocks of a list, in its order. */
  function Clashing(blocks: seq<Block>, start: int, end: int): (r: seq<Block>)
    ensures forall b :: b in r <==> b in blocks && Clashes(b, start, end)
  {
    if blocks == [] then []
    else
      var n := |blocks| - 1;
      var rest := Clashing(blocks[..n], start, end);
      if Clashes(blocks[n], start, end) then rest + [blocks[n]] else rest
  }

  /** `check_conflicts`: exactly the clashing events of the whole calendar, window or not. */
  method CheckConflicts(events: seq<Block>, start: int, end: int) returns (conflicts: seq<Block>)
    ensures conflicts == Clashing(Window(events, start, end), start, end)
    ensures forall b :: b in conflicts <==> b in events && Clashes(b, start, end)
  {
    var blocks := Window(events, start, end);
    WindowMembers(events, start, end);
    conflicts := [];
    for i := 0 to |blocks|
      invariant conflicts == Clashing(blocks[..i], start, end)
    {
      assert blocks[..i + 1][..i] == blocks[..i];
      if Clashes(blocks[i], start, end) { conflicts := conflicts + [blocks[i]]; }
    }
    assert blocks[..|blocks|] == blocks;
  }

  /** The least start from `after` on whose interval clashes with none of the blocks. */
  ghost predicate Earliest(blocks: seq<Block>, after: int, duration: int, m: int) {
    && after <= m && !Busy(blocks, m, duration)
    && forall t :: after <= t < m ==> Busy(blocks, t, duration)
  }

  /** Sorting the (start, end) pairs: by end, then stably by start. */
  function Ordered(blocks: seq<Block>): seq<Block> {
    Sorting.Sorted(Sorting.Sorted(blocks, (b: Block) => b.end), (b: Block) => b.start)
  }

  lemma OrderedSorts(blocks: seq<Block>)
    ensures forall i, j :: 0 <= i < j < |Ordered(blocks)| ==> Ordered(blocks)[i].start <= Ordered(blocks)[j].start
    ensures forall b :: b in Ordered(blocks) <==> b in blocks
  {
    var byEnd := Sorting.Sorted(blocks, (b: Block) => b.end);
    Sorting.SortedMembers(blocks, (b: Block) => b.end);
    Sorting.SortedMembers(byEnd, (b: Block) => b.start);
    Sorting.SortedSorts(byEnd, (b: Block) => b.start);
    var key := (b: Block) => b.start;
    assert Sorting.Ascending(Ordered(blocks), key);
    forall i, j | 0 <= i < j < |Ordered(blocks)| ensures Ordered(blocks)[i].start <= Ordered(blocks)[j].start {
      assert key(Ordered(blocks)[i]) <= key(Ordered(blocks)[j]);
    }
  }

  /** When the search returns the least free start: it ends by the horizon, or some block starts after it. */
  ghost predicate Returned(blocks: seq<Block>, m: int, duration: int, horizon: int) {
    m + duration <= horizon || exists b :: b in blocks && m + duration <= b.start
  }

  /**
   The search over any list of busy blocks and any duration. The least free start always exists; it is returned if
   and only if it ends by the horizon or some block starts after it: the early return does not look at the horizon.
   */
  method FindSlot(blocks: seq<Block>, after: int, duration: int, horizon: int) returns (r: Option<int>)
    ensures exists m ::
            Earliest(blocks, after, duration, m)
                && r == if Returned(blocks, m, duration, horizon) then Some(m) else None
  {
    hide Ordered, Clashes;
    var busy := Ordered(blocks);
    OrderedSorts(blocks);
    var candidate := after;
    for i := 0 to |busy|
      invariant after <= candidate
      invariant forall k :: 0 <= k < i ==> busy[k].end <= candidate && busy[k].start < candidate + duration
      invariant forall t :: after <= t < candidate ==> Busy(blocks, t, duration)
    {
      if candidate + duration <= busy[i].start {
        NoneLater(blocks, busy, i, candidate, duration);
        assert busy[i] in blocks by { assert busy[i] in busy; }
        assert Earliest(blocks, after, duration, candidate) && Returned(blocks, candidate, duration, horizon);
        return Some(candidate);
      }
      if busy[i].end > candidate {
        forall t | candidate <= t < busy[i].end ensures Busy(blocks, t, duration) {
          assert busy[i] in blocks && Clashes(busy[i], t, t + duration) by {
            assert busy[i] in busy;
            ClashIs(busy[i], t, t + duration);
          }
        }
        candidate := busy[i].end;
      }
    }
    NoneLater(blocks, busy, |busy|, candidate, duration);
    forall b | b in blocks ensures b.start < candidate + duration {
      assert b in busy;
      var k :| 0 <= k < |busy| && busy[k] == b;
    }
    r := if candidate + duration <= horizon then Some(candidate) else None;
    assert Earliest(blocks, after, duration, candidate);
  }

  lemma ClashIs(b: Block, start: int, end: int)
    ensures Clashes(b, start, end) <==> b.start < end && b.end > start
  {
  }

  /** Nothing before position `i` reaches past the candidate and nothing from there on starts before its end. */
  lemma NoneLater(blocks: seq<Block>, busy: seq<Block>, i: nat, c: int, duration: int)
    requires i <= |busy| && forall b :: b in busy <==> b in blocks
    requires forall k, j :: 0 <= k < j < |busy| ==> busy[k].start <= busy[j].start
    requires forall k :: 0 <= k < i ==> busy[k].end <= c
    requires i < |busy| ==> c + duration <= busy[i].start
    ensures !Busy(blocks, c, duration)
  {
    forall b | b in blocks ensures !Clashes(b, c, c + duration) {
      assert b in busy;
      var k :| 0 <= k < |busy| && busy[k] == b;
      if k > i { assert busy[i].start <= busy[k].start; }
    }
  }

  lemma EarliestIsUnique(blocks: seq<Block>, after: int, duration: int, a: int, b: int)
    requires Earliest(blocks, after, duration, a) && Earliest(blocks, after, duration, b)
    ensures a == b
  {
    assert !(a < b) && !(b < a);
  }

  /** A start in the search window clashes with the window's blocks exactly when it clashes with the calendar. */
  lemma WindowSuffices(events: seq<Block>, after: int, horizon: int, t: int, duration: int)
    requires after <= t && t + duration <= horizon
    ensures Busy(Window(events, after, horizon), t, duration) <==> Busy(events, t, duration)
  {
    WindowMembers(events, after, horizon);
  }

  /**
   `find_next_available` on a calendar: the result is the least start, at or after the given time, that ends by the
   horizon and conflicts with nothing in the calendar; None means that there is no such start.
   */
  method FindNextAvailable(events: seq<Block>, after: int, duration: int, horizon: int) returns (r: Option<int>)
    ensures r.Some? ==> after <= r.value && r.value + duration <= horizon && !Busy(events, r.value, duration)
    ensures forall t :: after <= t && t + duration <= horizon && (r.Some? ==> t < r.value) ==> Busy(events, t, duration)
  {
    hide Clashes, Busy, Window;
    var blocks := Window(events, after, horizon);
    r := FindSlot(blocks, after, duration, horizon);
    ghost var m :|
        Earliest(blocks, after, duration, m) && r == if Returned(blocks, m, duration, horizon) then Some(m) else None;
    WindowMembers(events, after, horizon);
    forall t | after <= t && t + duration <= horizon && t < m ensures Busy(events, t, duration) {
      WindowSuffices(events, after, horizon, t, duration);
    }
    if m + duration <= horizon { WindowSuffices(events, after, horizon, m, duration); }
  }

  /** Without the provider's window a block beyond the horizon makes the search answer past it. */
  lemma PastTheHorizon(after: int, duration: int, horizon: int, b: Block)
    requires after + duration > horizon && b.start >= after + duration
    ensures Earliest([b], after, duration, after) && Returned([b], after, duration, horizon)
  {
    assert b in [b];
  }
}
