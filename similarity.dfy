/**
 * The similarity ratio of Python's `difflib.SequenceMatcher(None, a, b).ratio()`:
 * the Ratcliff/Obershelp matching-block count M, and the ratio 2*M / (|a| + |b|)
 * as an exact rational (1 when both strings are empty).
 */
module Similarity {

  /** A matching block: `a[i..i+k] == b[j..j+k]`. */
  datatype Block = Block(i: nat, j: nat, k: nat)

  /** The length of the common run of `a[i..ahi]` and `b[j..bhi]` starting at `i` and `j`. */
  function Run(a: string, b: string, i: nat, j: nat, ahi: nat, bhi: nat): (k: nat)
    requires i <= ahi <= |a| && j <= bhi <= |b|
    ensures i + k <= ahi && j + k <= bhi
    ensures a[i..i + k] == b[j..j + k]
    ensures i + k < ahi && j + k < bhi ==> a[i + k] != b[j + k]
    decreases ahi - i
  {
    if i < ahi && j < bhi && a[i] == b[j] then
      var rest := Run(a, b, i + 1, j + 1, ahi, bhi);
      ExtendRun(a, b, i, j, rest);
      1 + rest
    else 0
  }

  lemma ExtendRun(a: string, b: string, i: nat, j: nat, n: nat)
    requires i + 1 + n <= |a| && j + 1 + n <= |b|
    requires a[i] == b[j] && a[i + 1..i + 1 + n] == b[j + 1..j + 1 + n]
    ensures a[i..i + 1 + n] == b[j..j + 1 + n]
  {
    assert a[i..i + 1 + n] == [a[i]] + a[i + 1..i + 1 + n];
    assert b[j..j + 1 + n] == [b[j]] + b[j + 1..j + 1 + n];
  }

  /** The candidates `(i', j')` of the window that precede `(i, j)` in row-major order. */
  predicate Before(i': nat, j': nat, i: nat, j: nat)
  {
    i' < i || (i' == i && j' < j)
  }

  /** `blk` is a common block lying inside both windows. */
  predicate IsBlock(a: string, b: string, alo: nat, ahi: nat, blo: nat, bhi: nat, blk: Block)
    requires ahi <= |a| && bhi <= |b|
  {
    && alo <= blk.i && blk.i + blk.k <= ahi && blo <= blk.j && blk.j + blk.k <= bhi
    && a[blk.i..blk.i + blk.k] == b[blk.j..blk.j + blk.k]
  }

  /** No run starting before `(i, j)` in the window is longer than `k`. */
  predicate NoLongerBefore(a: string, b: string, alo: nat, ahi: nat, blo: nat, bhi: nat, i: nat, j: nat, k: nat)
    requires ahi <= |a| && bhi <= |b|
  {
    forall i', j' :: alo <= i' < ahi && blo <= j' < bhi && Before(i', j', i, j) ==>
      Run(a, b, i', j', ahi, bhi) <= k
  }

  /** Every run starting before `blk` in the window is strictly shorter than `blk`. */
  predicate ShorterBefore(a: string, b: string, alo: nat, ahi: nat, blo: nat, bhi: nat, blk: Block)
    requires ahi <= |a| && bhi <= |b|
  {
    forall i', j' :: alo <= i' < ahi && blo <= j' < bhi && Before(i', j', blk.i, blk.j) ==>
      Run(a, b, i', j', ahi, bhi) < blk.k
  }

  /** A strictly longer run at `(i, j)` is preceded only by runs no longer than the old best. */
  lemma ShorterStep(a: string, b: string, alo: nat, ahi: nat, blo: nat, bhi: nat, i: nat, j: nat, best: Block)
    requires alo <= i < ahi <= |a| && blo <= j < bhi <= |b|
    requires NoLongerBefore(a, b, alo, ahi, blo, bhi, i, j, best.k)
    requires best.k < Run(a, b, i, j, ahi, bhi)
    ensures ShorterBefore(a, b, alo, ahi, blo, bhi, Block(i, j, Run(a, b, i, j, ahi, bhi)))
  {
  }

  /** The block kept after looking at `(i, j)` is still preceded only by shorter runs. */
  lemma ShorterNext(a: string, b: string, alo: nat, ahi: nat, blo: nat, bhi: nat, i: nat, j: nat, best: Block, next: Block)
    requires alo <= i < ahi <= |a| && blo <= j < bhi <= |b|
    requires NoLongerBefore(a, b, alo, ahi, blo, bhi, i, j, best.k)
    requires ShorterBefore(a, b, alo, ahi, blo, bhi, best)
    requires next == if Run(a, b, i, j, ahi, bhi) > best.k then Block(i, j, Run(a, b, i, j, ahi, bhi)) else best
    ensures ShorterBefore(a, b, alo, ahi, blo, bhi, next)
  {
    if Run(a, b, i, j, ahi, bhi) > best.k {
      ShorterStep(a, b, alo, ahi, blo, bhi, i, j, best);
    }
  }

  lemma NoLongerStep(a: string, b: string, alo: nat, ahi: nat, blo: nat, bhi: nat, i: nat, j: nat, k: nat, k': nat)
    requires alo <= i < ahi <= |a| && blo <= j < bhi <= |b|
    requires NoLongerBefore(a, b, alo, ahi, blo, bhi, i, j, k)
    requires k <= k' && Run(a, b, i, j, ahi, bhi) <= k'
    ensures NoLongerBefore(a, b, alo, ahi, blo, bhi, i, j + 1, k')
  {
    forall i', j' | alo <= i' < ahi && blo <= j' < bhi && Before(i', j', i, j + 1)
      ensures Run(a, b, i', j', ahi, bhi) <= k'
    {
      if !Before(i', j', i, j) { assert i' == i && j' == j; }
    }
  }

  lemma NoLongerRow(a: string, b: string, alo: nat, ahi: nat, blo: nat, bhi: nat, i: nat, k: nat)
    requires ahi <= |a| && bhi <= |b|
    requires NoLongerBefore(a, b, alo, ahi, blo, bhi, i, bhi, k)
    ensures NoLongerBefore(a, b, alo, ahi, blo, bhi, i + 1, blo, k)
  {
  }

  lemma RunIsBlock(a: string, b: string, alo: nat, ahi: nat, blo: nat, bhi: nat, i: nat, j: nat)
    requires alo <= i < ahi <= |a| && blo <= j < bhi <= |b|
    ensures IsBlock(a, b, alo, ahi, blo, bhi, Block(i, j, Run(a, b, i, j, ahi, bhi)))
  {
  }

  lemma NoLongerDone(a: string, b: string, alo: nat, ahi: nat, blo: nat, bhi: nat, i: nat, j: nat, k: nat)
    requires ahi <= i && ahi <= |a| && bhi <= |b|
    requires NoLongerBefore(a, b, alo, ahi, blo, bhi, i, j, k)
    ensures NoLongerBefore(a, b, alo, ahi, blo, bhi, ahi, blo, k)
  {
  }

  /**
   * Scans the start pairs of the window row by row from `(i, j)` on, keeping the
   * first longest run seen (a later run replaces it only when strictly longer).
   */
  function Scan(a: string, b: string, alo: nat, ahi: nat, blo: nat, bhi: nat, i: nat, j: nat, best: Block): (r: Block)
    requires alo <= i && alo <= ahi <= |a| && blo <= bhi <= |b| && blo <= j <= bhi
    requires IsBlock(a, b, alo, ahi, blo, bhi, best)
    requires NoLongerBefore(a, b, alo, ahi, blo, bhi, i, j, best.k)
    requires ShorterBefore(a, b, alo, ahi, blo, bhi, best)
    requires best.k == 0 ==> best == Block(alo, blo, 0)
    ensures IsBlock(a, b, alo, ahi, blo, bhi, r)
    ensures NoLongerBefore(a, b, alo, ahi, blo, bhi, ahi, blo, r.k)
    ensures ShorterBefore(a, b, alo, ahi, blo, bhi, r)
    ensures r.k == 0 ==> r == Block(alo, blo, 0)
    decreases ahi - i, bhi - j
  {
    if i >= ahi then
      NoLongerDone(a, b, alo, ahi, blo, bhi, i, j, best.k);
      best
    else if j == bhi then
      NoLongerRow(a, b, alo, ahi, blo, bhi, i, best.k);
      Scan(a, b, alo, ahi, blo, bhi, i + 1, blo, best)
    else
      var k := Run(a, b, i, j, ahi, bhi);
      var next := if k > best.k then Block(i, j, k) else best;
      RunIsBlock(a, b, alo, ahi, blo, bhi, i, j);
      ShorterNext(a, b, alo, ahi, blo, bhi, i, j, best, next);
      NoLongerStep(a, b, alo, ahi, blo, bhi, i, j, best.k, next.k);
      Scan(a, b, alo, ahi, blo, bhi, i, j + 1, next)
  }

  /**
   * `find_longest_match(alo, ahi, blo, bhi)`: a longest common block of the two
   * windows, the earliest in `a` and then in `b`; `(alo, blo, 0)` when there is none.
   */
  function LongestMatch(a: string, b: string, alo: nat, ahi: nat, blo: nat, bhi: nat): (r: Block)
    requires alo <= ahi <= |a| && blo <= bhi <= |b|
    ensures IsBlock(a, b, alo, ahi, blo, bhi, r)
    ensures forall i', j' :: alo <= i' < ahi && blo <= j' < bhi ==> Run(a, b, i', j', ahi, bhi) <= r.k
    ensures forall i', j' :: alo <= i' < ahi && blo <= j' < bhi && Before(i', j', r.i, r.j) ==>
      Run(a, b, i', j', ahi, bhi) < r.k
    ensures r.k == 0 ==> r == Block(alo, blo, 0)
  {
    var r := Scan(a, b, alo, ahi, blo, bhi, alo, blo, Block(alo, blo, 0));
    assert NoLongerBefore(a, b, alo, ahi, blo, bhi, ahi, blo, r.k);
    r
  }

  /** The windows `a[alo..ahi]` and `b[blo..bhi]` share no character. */
  predicate Disjoint(a: string, b: string, alo: nat, ahi: nat, blo: nat, bhi: nat)
    requires ahi <= |a| && bhi <= |b|
  {
    forall i, j :: alo <= i < ahi && blo <= j < bhi ==> a[i] != b[j]
  }

  /**
   * The total size of the matching blocks of the windows `a[alo..ahi]` and
   * `b[blo..bhi]`: the longest match, then recursively the parts left and right of it.
   */
  function MatchCount(a: string, b: string, alo: nat, ahi: nat, blo: nat, bhi: nat): (m: nat)
    requires alo <= ahi <= |a| && blo <= bhi <= |b|
    ensures m <= ahi - alo && m <= bhi - blo
    ensures m == 0 <==> Disjoint(a, b, alo, ahi, blo, bhi)
    decreases (ahi - alo) + (bhi - blo)
  {
    var best := LongestMatch(a, b, alo, ahi, blo, bhi);
    if best.k == 0 then
      forall i, j | alo <= i < ahi && blo <= j < bhi
        ensures a[i] != b[j]
      {
        assert Run(a, b, i, j, ahi, bhi) == 0;
      }
      0
    else
      assert a[best.i..best.i + best.k][0] == b[best.j..best.j + best.k][0];
      assert !Disjoint(a, b, alo, ahi, blo, bhi) by {
        assert alo <= best.i < ahi && blo <= best.j < bhi && a[best.i] == b[best.j];
      }
      var left := MatchCount(a, b, alo, best.i, blo, best.j);
      var right := MatchCount(a, b, best.i + best.k, ahi, best.j + best.k, bhi);
      assert left <= best.i - alo && right <= ahi - (best.i + best.k);
      assert left <= best.j - blo && right <= bhi - (best.j + best.k);
      left + best.k + right
  }

  /** `SequenceMatcher(None, a, b).ratio()`. */
  function Ratio(a: string, b: string): (r: real)
    ensures 0.0 <= r <= 1.0
  {
    var total := |a| + |b|;
    if total == 0 then 1.0
    else
      var m := MatchCount(a, b, 0, |a|, 0, |b|);
      DivideAtMostOne((2 * m) as real, total as real);
      (2 * m) as real / total as real
  }

  /** Two non-empty-in-total strings have ratio 0 exactly when they share no character. */
  lemma RatioZeroIffDisjoint(a: string, b: string)
    requires |a| + |b| > 0
    ensures Ratio(a, b) == 0.0 <==> forall i, j :: 0 <= i < |a| && 0 <= j < |b| ==> a[i] != b[j]
  {
    var m := MatchCount(a, b, 0, |a|, 0, |b|);
    DivideAtMostOne((2 * m) as real, (|a| + |b|) as real);
  }

  lemma DivideAtMostOne(x: real, y: real)
    requires 0.0 <= x <= y && y > 0.0
    ensures 0.0 <= x / y <= 1.0
    ensures x / y == 0.0 <==> x == 0.0
  {
  }

  /**
   * The threshold test `ratio > 0.6` in integers: ten times the match count
   * exceeds three times the combined length.
   */
  lemma {:induction false} AboveThresholdInIntegers(a: string, b: string)
    requires |a| + |b| > 0
    ensures Ratio(a, b) > 0.6 <==> 10 * MatchCount(a, b, 0, |a|, 0, |b|) > 3 * (|a| + |b|)
  {
    var m := MatchCount(a, b, 0, |a|, 0, |b|);
    QuotientAboveThreshold((2 * m) as real, (|a| + |b|) as real);
  }

  lemma QuotientAboveThreshold(x: real, y: real)
    requires y > 0.0
    ensures x / y > 0.6 <==> 5.0 * x > 3.0 * y
  {
  }

  /** A string is wholly similar to itself: its ratio against itself is 1. */
  lemma {:induction false} RatioOfEqualStrings(a: string)
    ensures Ratio(a, a) == 1.0
  {
    if |a| > 0 {
      MatchCountOfEqualStrings(a);
      var m := MatchCount(a, a, 0, |a|, 0, |a|);
      var total := (|a| + |a|) as real;
      assert (2 * m) as real == total;
      assert Ratio(a, a) == total / total;
      SelfQuotient(total);
    }
  }

  lemma SelfQuotient(x: real)
    requires x > 0.0
    ensures x / x == 1.0
  {
  }

  lemma {:induction false} MatchCountOfEqualStrings(a: string)
    requires |a| > 0
    ensures MatchCount(a, a, 0, |a|, 0, |a|) == |a|
  {
    RunOfEqualStrings(a, 0);
    var best := LongestMatch(a, a, 0, |a|, 0, |a|);
    assert Run(a, a, 0, 0, |a|, |a|) == |a|;
    assert best.k == |a| && best.i == 0 && best.j == 0;
    assert MatchCount(a, a, 0, 0, 0, 0) == 0;
    assert MatchCount(a, a, |a|, |a|, |a|, |a|) == 0;
  }

  lemma {:induction false} RunOfEqualStrings(a: string, i: nat)
    requires i <= |a|
    ensures Run(a, a, i, i, |a|, |a|) == |a| - i
    decreases |a| - i
  {
    if i < |a| {
      RunOfEqualStrings(a, i + 1);
    }
  }
}
