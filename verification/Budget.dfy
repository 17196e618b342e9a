/** Shrinking a prompt to a character budget by trimming the middles of its data blocks. */
module Budget {

  const MIN_BLOCK_CHARS := 240
  const MARKER := "\n...[truncated to fit the model's context window]...\n"

  function Max(a: int, b: int): int {
    if a < b then b else a
  }

  function Min(a: int, b: int): int {
    if a < b then a else b
  }

  /** Keep two thirds of the room at the head and the rest at the tail, around a marker. */
  function Shrink(body: string, keep: int): (r: string)
    ensures |r| == if |body| <= keep then |body| else Max(keep, |MARKER|)
    ensures keep >= |MARKER| ==> |r| == Min(|body|, keep)
  {
    if |body| <= keep then body
    else
      var head := Max(0, (keep - |MARKER|) * 2 / 3);
      var tail := Max(0, keep - |MARKER| - head);
      body[..head] + MARKER + body[|body| - tail..]
  }

  /** A shrunk text is its own beginning, the marker, and its own end. */
  lemma ShrinkKeepsEnds(body: string, keep: int) returns (head: nat, tail: nat)
    requires |MARKER| <= keep < |body|
    ensures head + |MARKER| + tail == keep && Shrink(body, keep) == body[..head] + MARKER + body[|body| - tail..]
    ensures head <= 2 * tail && tail <= head + 1
  {
    hide MARKER;
    TwoThirds(keep - |MARKER|);
    head := (keep - |MARKER|) * 2 / 3;
    tail := keep - |MARKER| - head;
  }

  lemma TwoThirds(room: int)
    requires room >= 0
    ensures 0 <= room * 2 / 3 <= room && room * 2 / 3 <= 2 * (room - room * 2 / 3)
            && room - room * 2 / 3 <= room * 2 / 3 + 1
  {
  }

  // ---------------------------------------------------------------- texts with blocks

  /** The extent of one block's body. */
  datatype Span = Span(start: nat, end: nat)

  /** Bodies as the pattern search yields them: in order, not overlapping, within the text. */
  ghost predicate Spaced(text: string, blocks: seq<Span>) {
    && (forall i :: 0 <= i < |blocks| ==> blocks[i].start <= blocks[i].end <= |text|)
    && (forall i, j :: 0 <= i < j < |blocks| ==> blocks[i].end <= blocks[j].start)
  }

  function Body(text: string, b: Span): string
    requires b.start <= b.end <= |text|
  {
    text[b.start..b.end]
  }

  /** Where the text after the first `k` blocks begins. */
  function From(blocks: seq<Span>, k: nat): nat
    requires k <= |blocks|
  {
    if k == 0 then 0 else blocks[k - 1].end
  }

  /** The first `k` bodies replaced by `f`, with everything between them as it was. */
  ghost function Woven(text: string, blocks: seq<Span>, k: nat, f: string -> string): string
    requires Spaced(text, blocks) && k <= |blocks|
  {
    if k == 0 then []
    else Woven(text, blocks, k - 1, f) + text[From(blocks, k - 1)..blocks[k - 1].start] + f(Body(text, blocks[k - 1]))
  }

  /** Weaving the bodies back unchanged gives the text. */
  lemma {:induction false} WovenIdentity(text: string, blocks: seq<Span>, k: nat)
    requires Spaced(text, blocks) && k <= |blocks|
    ensures Woven(text, blocks, k, (b: string) => b) == text[..From(blocks, k)]
  {
    if k > 0 {
      WovenIdentity(text, blocks, k - 1);
      Glue(text, From(blocks, k - 1), blocks[k - 1].start);
      Glue(text, blocks[k - 1].start, blocks[k - 1].end);
    }
  }

  lemma Glue(text: string, a: nat, b: nat)
    requires a <= b <= |text|
    ensures text[..a] + text[a..b] == text[..b]
  {
  }

  ghost function Total(blocks: seq<Span>, k: nat): int
    requires k <= |blocks|
  {
    if k == 0 then 0 else Total(blocks, k - 1) + (blocks[k - 1].end - blocks[k - 1].start)
  }

  /** What a block of `size` may keep: its floor share of the room, and never less than the minimum. */
  function Keep(available: int, size: int, total: int): int
    requires total > 0
  {
    Max(MIN_BLOCK_CHARS, available * size / total)
  }

  /** The characters the first `k` bodies keep. */
  ghost function Kept(blocks: seq<Span>, k: nat, available: int, total: int): int
    requires k <= |blocks| && total > 0
  {
    if k == 0 then 0
    else
      var size := blocks[k - 1].end - blocks[k - 1].start;
      Kept(blocks, k - 1, available, total) + Min(size, Keep(available, size, total))
  }

  ghost function Trim(available: int, total: int): string -> string
    requires total > 0
  {
    (b: string) => Shrink(b, Keep(available, |b|, total))
  }

  lemma {:induction false} WovenLength(text: string, blocks: seq<Span>, k: nat, available: int, total: int)
    requires Spaced(text, blocks) && k <= |blocks| && total > 0
    ensures |Woven(text, blocks, k, Trim(available, total))| == From(blocks, k) - Total(blocks, k)
            + Kept(blocks, k, available, total)
  {
    hide Shrink, Keep, Trim, Min;
    if k > 0 {
      WovenLength(text, blocks, k - 1, available, total);
      TrimLength(Body(text, blocks[k - 1]), available, total);
    }
  }

  lemma TrimLength(b: string, available: int, total: int)
    requires total > 0
    ensures |Trim(available, total)(b)| == Min(|b|, Keep(available, |b|, total))
  {
    hide Shrink;
  }

  lemma ShareBelow(available: int, size: int, total: int)
    requires total > 0
    ensures total * (available * size / total) <= available * size
  {
  }

  /** The floor shares of the first `k` blocks. */
  ghost function Shares(blocks: seq<Span>, k: nat, available: int, total: int): int
    requires k <= |blocks| && total > 0
  {
    if k == 0 then 0
    else
      var size := blocks[k - 1].end - blocks[k - 1].start;
      Shares(blocks, k - 1, available, total) + available * size / total
  }

  /** Floor shares never add up to more than the room they divide. */
  lemma {:induction false} SharesFit(blocks: seq<Span>, k: nat, available: int, total: int)
    requires k <= |blocks| && total > 0
    ensures total * Shares(blocks, k, available, total) <= available * Total(blocks, k)
  {
    if k > 0 {
      SharesFit(blocks, k - 1, available, total);
      var size := blocks[k - 1].end - blocks[k - 1].start;
      ShareBelow(available, size, total);
      Distribute(total, Shares(blocks, k - 1, available, total), available * size / total);
      Distribute(available, Total(blocks, k - 1), size);
    }
  }

  lemma Distribute(a: int, b: int, c: int)
    ensures a * (b + c) == a * b + a * c
  {
  }

  lemma CancelFactor(t: int, a: int, b: int)
    requires t > 0 && t * a <= b * t
    ensures a <= b
  {
    if a > b { Larger(t, a, b); }
  }

  lemma Larger(t: int, a: int, b: int)
    requires t > 0 && a > b
    ensures t * a > b * t
  {
    assert t * (a - b) > 0;
    Distribute(t, b, a - b);
  }

  lemma {:induction false} KeptBounds(blocks: seq<Span>, k: nat, available: int, total: int)
    requires k <= |blocks| && total > 0 && available >= 0
    requires forall i :: 0 <= i < |blocks| ==> blocks[i].start <= blocks[i].end
    ensures Kept(blocks, k, available, total) <= Total(blocks, k)
    ensures Kept(blocks, k, available, total) <= Shares(blocks, k, available, total) + MIN_BLOCK_CHARS * k
  {
    if k > 0 {
      KeptBounds(blocks, k - 1, available, total);
      var size := blocks[k - 1].end - blocks[k - 1].start;
      assert available * size / total >= 0 by { NonNegative(available, size, total); }
    }
  }

  lemma NonNegative(a: int, b: int, t: int)
    requires a >= 0 && b >= 0 && t > 0
    ensures a * b / t >= 0
  {
    assert a * b >= 0;
  }

  /** The loop over the blocks. */
  method Reassemble(text: string, blocks: seq<Span>, available: int, total: int) returns (r: string)
    requires Spaced(text, blocks) && total > 0
    ensures r == Woven(text, blocks, |blocks|, Trim(available, total)) + text[From(blocks, |blocks|)..]
  {
    hide Shrink, Keep;
    r := [];
    var last := 0;
    for i := 0 to |blocks|
      invariant last == From(blocks, i) && last <= |text|
      invariant r == Woven(text, blocks, i, Trim(available, total))
    {
      var b := blocks[i];
      var keep := Keep(available, b.end - b.start, total);
      r := r + text[last..b.start];
      r := r + Shrink(Body(text, b), keep);
      last := b.end;
    }
    r := r + text[last..];
  }

  method Sizes(blocks: seq<Span>) returns (total: int)
    ensures total == Total(blocks, |blocks|)
  {
    total := 0;
    for i := 0 to |blocks|
      invariant total == Total(blocks, i)
    {
      total := total + (blocks[i].end - blocks[i].start);
    }
  }

  /** There are blocks, and room for the minimum of each. */
  predicate Trims(textLength: int, count: nat, total: int, budget: int) {
    count > 0 && budget - (textLength - total) >= MIN_BLOCK_CHARS * count
  }

  /**
   `fit_text`; `blocks` are the bodies the block pattern finds. The text never grows; a text within budget is untouched;
   in the block branch everything outside the bodies is verbatim and the length is exactly the fixed text plus what the
   bodies keep; the fallback has exactly the length min(len, max(budget, 240)).
   */
  method FitText(text: string, blocks: seq<Span>, budget: int) returns (r: string)
    requires Spaced(text, blocks)
    ensures |r| <= |text|
    ensures |text| <= budget ==> r == text
    ensures var total := Total(blocks, |blocks|);
            |text| > budget && Trims(|text|, |blocks|, total, budget) ==>
              && total > 0
              && r == Woven(text, blocks, |blocks|, Trim(budget - |text| + total, total))
                 + text[From(blocks, |blocks|)..]
              && |r| == |text| - total + Kept(blocks, |blocks|, budget - |text| + total, total)
              && |r| <= budget + MIN_BLOCK_CHARS * |blocks|
              && (|r| <= budget <==> Kept(blocks, |blocks|, budget - |text| + total, total) <= budget - |text| + total)
    ensures |text| > budget && !Trims(|text|, |blocks|, Total(blocks, |blocks|), budget) ==>
              r == Shrink(text, Max(budget, MIN_BLOCK_CHARS)) && |r| == Min(|text|, Max(budget, MIN_BLOCK_CHARS))
  {
    hide Woven, Kept, Total, Shares, Shrink, Trim;
    if |text| <= budget { return text; }
    var total := Sizes(blocks);
    var fixed := |text| - total;
    var available := budget - fixed;
    if |blocks| > 0 && available >= MIN_BLOCK_CHARS * |blocks| {
      r := Reassemble(text, blocks, available, total);
      WovenLength(text, blocks, |blocks|, available, total);
      KeptBounds(blocks, |blocks|, available, total);
      SharesFit(blocks, |blocks|, available, total);
      CancelFactor(total, Shares(blocks, |blocks|, available, total), available);
      return;
    }
    return Shrink(text, Max(budget, MIN_BLOCK_CHARS));
  }

  // ---------------------------------------------------------------- when the budget itself is met

  /** Every share reaches the minimum, so no block is rounded up. */
  ghost predicate AmpleShares(blocks: seq<Span>, available: int, total: int)
    requires total > 0
  {
    forall i :: 0 <= i < |blocks| ==> available * (blocks[i].end - blocks[i].start) / total >= MIN_BLOCK_CHARS
  }

  lemma {:induction false} AmpleKept(blocks: seq<Span>, k: nat, available: int, total: int)
    requires k <= |blocks| && total > 0 && AmpleShares(blocks, available, total)
    ensures Kept(blocks, k, available, total) <= Shares(blocks, k, available, total)
  {
    if k > 0 { AmpleKept(blocks, k - 1, available, total); }
  }

  /** The bodies fit the room when no share is below the minimum. */
  lemma WithinBudget(blocks: seq<Span>, available: int, total: int)
    requires total > 0 && total == Total(blocks, |blocks|) && AmpleShares(blocks, available, total)
    ensures Kept(blocks, |blocks|, available, total) <= available
  {
    hide AmpleShares, Kept, Shares, Total;
    AmpleKept(blocks, |blocks|, available, total);
    SharesFit(blocks, |blocks|, available, total);
    CancelFactor(total, Shares(blocks, |blocks|, available, total), available);
  }

  /** One large and one small block: the minimum of the small one overshoots a room of 480 characters by 226. */
  lemma MinimumOvershoots()
    ensures var blocks := [Span(6, 10006), Span(10019, 10319)];
            Total(blocks, 2) == 10300 && Kept(blocks, 2, 480, 10300) == 706 > 480
  {
    var blocks := [Span(6, 10006), Span(10019, 10319)];
    assert Total(blocks, 1) == 10000;
    assert Kept(blocks, 1, 480, 10300) == 466;
  }
}
