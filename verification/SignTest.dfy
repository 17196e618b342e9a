/** The exact two-sided sign test, before rounding: a sum of binomials equals a count of outcomes. */
module SignTest {
  import opened Wrappers

  function Pow2(n: nat): nat {
    if n == 0 then 1 else 2 * Pow2(n - 1)
  }

  /** `comb(n, k)`. */
  function Binomial(n: nat, k: nat): nat {
    if k == 0 then 1 else if n == 0 then 0 else Binomial(n - 1, k - 1) + Binomial(n - 1, k)
  }

  /** The binomials of row `n` below `k`. */
  function Tail(n: nat, k: nat): nat {
    if k == 0 then 0 else Tail(n, k - 1) + Binomial(n, k - 1)
  }

  // ---------------------------------------------------------------- outcomes, counted directly

  /** An outcome of `n` untied pairs: who won each. */
  function Wins(o: seq<bool>): nat {
    if o == [] then 0 else Wins(o[..|o| - 1]) + if o[|o| - 1] then 1 else 0
  }

  /** At least as far from an even split as `wins` out of `n`. */
  predicate Extreme(n: nat, wins: int, x: int) {
    var d, e := 2 * wins - n, 2 * x - n;
    (if d < 0 then -d else d) <= (if e < 0 then -e else e)
  }

  /** All outcomes of `n` pairs, with their numbers of wins satisfying `p`. */
  ghost function Count(n: nat, x: int, p: int -> bool): nat {
    if n == 0 then (if p(x) then 1 else 0) else Count(n - 1, x, p) + Count(n - 1, x + 1, p)
  }

  /** Outcomes with one more pair, decided as `last`. */
  ghost function Extended(s: set<seq<bool>>, last: bool): set<seq<bool>> {
    set o | o in s :: o + [last]
  }

  /** The outcomes themselves: `Count` is the size of this set. */
  ghost function Outcomes(n: nat, x: int, p: int -> bool): set<seq<bool>> {
    if n == 0 then (if p(x) then {[]} else {})
    else Extended(Outcomes(n - 1, x, p), false) + Extended(Outcomes(n - 1, x + 1, p), true)
  }

  lemma InExtended(s: set<seq<bool>>, last: bool, o: seq<bool>)
    ensures o in Extended(s, last) <==> o != [] && o[|o| - 1] == last && o[..|o| - 1] in s
  {
    if o != [] && o[|o| - 1] == last { assert o == o[..|o| - 1] + [last]; }
    if o in Extended(s, last) {
      var q :| q in s && q + [last] == o;
      assert o[..|o| - 1] == q;
    }
  }

  lemma {:induction false} OutcomesAre(n: nat, x: int, p: int -> bool, o: seq<bool>)
    ensures o in Outcomes(n, x, p) <==> |o| == n && p(x + Wins(o))
  {
    hide Extended;
    if n > 0 {
      InExtended(Outcomes(n - 1, x, p), false, o);
      InExtended(Outcomes(n - 1, x + 1, p), true, o);
      if o != [] {
        OutcomesAre(n - 1, x, p, o[..|o| - 1]);
        OutcomesAre(n - 1, x + 1, p, o[..|o| - 1]);
      }
    }
  }

  lemma {:induction false} ExtendedSize(s: set<seq<bool>>, last: bool)
    ensures |Extended(s, last)| == |s|
  {
    hide Extended;
    if s == {} {
      assert Extended({}, last) == {} by { forall o ensures o !in Extended({}, last) { InExtended({}, last, o); } }
    } else {
      var x :| x in s;
      ExtendedSize(s - {x}, last);
      SplitOff(s, x, last);
    }
  }

  lemma SplitOff(s: set<seq<bool>>, x: seq<bool>, last: bool)
    requires x in s
    ensures x + [last] !in Extended(s - {x}, last) && Extended(s, last) == Extended(s - {x}, last) + {x + [last]}
  {
    hide Extended;
    assert (x + [last])[..|x|] == x;
    forall o ensures o in Extended(s, last) <==> o in Extended(s - {x}, last) || o == x + [last] {
      InExtended(s, last, o);
      InExtended(s - {x}, last, o);
      if o != [] && o[|o| - 1] == last { assert o == o[..|o| - 1] + [last]; }
    }
    InExtended(s - {x}, last, x + [last]);
  }

  lemma {:induction false} CountIsSize(n: nat, x: int, p: int -> bool)
    ensures Count(n, x, p) == |Outcomes(n, x, p)|
  {
    hide Extended;
    if n > 0 {
      CountIsSize(n - 1, x, p);
      CountIsSize(n - 1, x + 1, p);
      UnionSize(Outcomes(n - 1, x, p), Outcomes(n - 1, x + 1, p));
    }
  }

  lemma UnionSize(a: set<seq<bool>>, b: set<seq<bool>>)
    ensures |Extended(a, false) + Extended(b, true)| == |a| + |b|
  {
    hide Extended;
    ExtendedSize(a, false);
    ExtendedSize(b, true);
    forall o ensures !(o in Extended(a, false) && o in Extended(b, true)) {
      InExtended(a, false, o);
      InExtended(b, true, o);
    }
    assert Extended(a, false) !! Extended(b, true);
  }

  // ---------------------------------------------------------------- binomials

  lemma {:induction false} BeyondRow(n: nat, k: nat)
    requires k > n
    ensures Binomial(n, k) == 0
  {
    if n > 0 { BeyondRow(n - 1, k - 1); BeyondRow(n - 1, k); }
  }

  lemma {:induction false} WholeRow(n: nat)
    ensures Binomial(n, n) == 1
  {
    if n > 0 { WholeRow(n - 1); BeyondRow(n - 1, n); }
  }

  lemma {:induction false} Symmetry(n: nat, k: nat)
    requires k <= n
    ensures Binomial(n, k) == Binomial(n, n - k)
  {
    if k == 0 || k == n {
      WholeRow(n);
    } else {
      Symmetry(n - 1, k - 1);
      Symmetry(n - 1, k);
    }
  }

  lemma {:induction false} TailStep(n: nat, k: nat)
    requires n > 0 && k > 0
    ensures Tail(n, k) == Tail(n - 1, k - 1) + Tail(n - 1, k)
  {
    if k > 1 { TailStep(n, k - 1); }
  }

  /** The row sum. */
  lemma {:induction false} RowSum(n: nat)
    ensures Tail(n, n + 1) == Pow2(n)
  {
    if n > 0 {
      RowSum(n - 1);
      TailStep(n, n + 1);
      BeyondRow(n - 1, n);
    }
  }

  /** The first `k` binomials of a row are its last `k`. */
  lemma {:induction false} UpperTail(n: nat, k: nat)
    requires k <= n + 1
    ensures Tail(n, n + 1) - Tail(n, n + 1 - k) == Tail(n, k)
  {
    if k > 0 {
      UpperTail(n, k - 1);
      Symmetry(n, k - 1);
    }
  }

  lemma {:induction false} BelowZero(n: nat, x: int, k: int)
    requires k <= x
    ensures Count(n, x, (w: int) => w < k) == 0
  {
    if n > 0 { BelowZero(n - 1, x, k); BelowZero(n - 1, x + 1, k); }
  }

  /** Outcomes with fewer than `k` wins are counted by the tail. */
  lemma {:induction false} CountBelow(n: nat, x: int, k: int)
    requires x <= k
    ensures Count(n, x, (w: int) => w < k) == Tail(n, k - x)
  {
    if n == 0 {
      TailOfEmptyRow(k - x);
    } else if x == k {
      BelowZero(n, x, k);
    } else {
      CountBelow(n - 1, x, k);
      CountBelow(n - 1, x + 1, k);
      TailStep(n, k - x);
    }
  }

  lemma {:induction false} TailOfEmptyRow(k: nat)
    ensures Tail(0, k) == if k == 0 then 0 else 1
  {
    if k > 0 { TailOfEmptyRow(k - 1); }
  }

  // ---------------------------------------------------------------- the test

  lemma {:induction false} CountSplits(n: nat, x: int, p: int -> bool, q: int -> bool, r: int -> bool)
    requires forall w :: x <= w <= x + n ==> (p(w) <==> q(w) || r(w)) && !(q(w) && r(w))
    ensures Count(n, x, p) == Count(n, x, q) + Count(n, x, r)
  {
    if n > 0 {
      CountSplits(n - 1, x, p, q, r);
      CountSplits(n - 1, x + 1, p, q, r);
    }
  }

  lemma {:induction false} CountAll(n: nat, x: int, p: int -> bool)
    requires forall w :: x <= w <= x + n ==> p(w)
    ensures Count(n, x, p) == Pow2(n)
  {
    if n > 0 {
      CountAll(n - 1, x, p);
      CountAll(n - 1, x + 1, p);
    }
  }

  lemma CountAtLeast(n: nat, k: nat)
    requires k <= n + 1
    ensures Count(n, 0, (w: int) => w >= k) == Pow2(n) - Tail(n, k)
  {
    var all, low, high := (w: int) => true, (w: int) => w < k, (w: int) => w >= k;
    CountSplits(n, 0, all, low, high);
    CountAll(n, 0, all);
    CountBelow(n, 0, k);
  }

  /** `min(2**n, 2 * sum)`: the numerator of the p-value over `2**n`. None: nothing to test. */
  method SignTestNumerator(wins: nat, losses: nat) returns (r: Option<nat>)
    ensures r.None? <==> wins + losses == 0
    ensures r.Some? ==> r.value == Count(wins + losses, 0, (x: int) => Extreme(wins + losses, wins, x))
  {
    var n := wins + losses;
    if n == 0 { return None; }
    var k := if wins < losses then wins else losses;
    var tail := 0;
    for i := 0 to k + 1
      invariant tail == Tail(n, i)
    {
      tail := tail + Binomial(n, i);
    }
    r := Some(if Pow2(n) < 2 * tail then Pow2(n) else 2 * tail);
    TwoSided(n, wins, k);
  }

  /** Twice the tail, capped at everything, counts exactly the outcomes at least as extreme as the observed one. */
  lemma TwoSided(n: nat, wins: nat, k: nat)
    requires wins <= n && k == if wins < n - wins then wins else n - wins
    ensures Count(n, 0, (x: int) => Extreme(n, wins, x)) ==
            if Pow2(n) < 2 * Tail(n, k + 1) then Pow2(n) else 2 * Tail(n, k + 1)
  {
    var extreme, low, high := (x: int) => Extreme(n, wins, x), (w: int) => w < k + 1, (w: int) => w >= n - k;
    RowSum(n);
    UpperTail(n, k + 1);
    if 2 * k < n {
      CountSplits(n, 0, extreme, low, high);
      CountBelow(n, 0, k + 1);
      CountAtLeast(n, n - k);
      TailGrows(n, k + 1, n - k);
    } else {
      CountAll(n, 0, extreme);
      TailGrows(n, n + 1 - (k + 1), k + 1);
    }
  }

  lemma {:induction false} TailGrows(n: nat, a: nat, b: nat)
    requires a <= b
    ensures Tail(n, a) <= Tail(n, b)
  {
    if a < b { TailGrows(n, a, b - 1); }
  }

  /** The p-value is the share of the `2**n` equally likely outcomes that are at least as extreme. */
  lemma PValueCountsOutcomes(n: nat, wins: nat)
    requires wins <= n
    ensures var p := (x: int) => Extreme(n, wins, x);
            && Count(n, 0, p) == |Outcomes(n, 0, p)| <= Pow2(n)
            && forall o: seq<bool> :: o in Outcomes(n, 0, p) <==> |o| == n && Extreme(n, wins, Wins(o))
  {
    var p := (x: int) => Extreme(n, wins, x);
    CountIsSize(n, 0, p);
    TwoSided(n, wins, if wins < n - wins then wins else n - wins);
    forall o: seq<bool>
        ensures o in Outcomes(n, 0, p) <==> |o| == n && Extreme(n, wins, Wins(o)) { OutcomesAre(n, 0, p, o); }
  }
}
