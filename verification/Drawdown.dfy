/** The one-pass drawdown of an equity curve, against its two-index definition. */
module Drawdown {
  import opened Market

  /** Loss from `a` to `b` in percent of `a`. */
  function DropPct(a: real, b: real): real
    requires a > 0.0
  {
    (a - b) / a * 100.0
  }

  ghost function PrefixPeak(curve: seq<real>, n: nat): real
    requires 1 <= n <= |curve|
  {
    if n == 1 then curve[0] else Max(PrefixPeak(curve, n - 1), curve[n-1])
  }

  /** Drop of point `k` from the best point so far; a peak that is not positive counts as no drop. */
  ghost function DropAt(curve: seq<real>, k: nat): real
    requires k < |curve|
  {
    var peak := PrefixPeak(curve, k + 1);
    if peak > 0.0 then DropPct(peak, curve[k]) else 0.0
  }

  /** `dd` is the worst drop from a running peak, or zero. */
  ghost predicate IsWorstDrop(curve: seq<real>, n: nat, dd: real)
    requires n <= |curve|
  {
    && 0.0 <= dd
    && (forall k | 0 <= k < n :: DropAt(curve, k) <= dd)
    && (dd == 0.0 || exists k | 0 <= k < n :: DropAt(curve, k) == dd)
  }

  method MaxDrawdownPct(curve: seq<real>) returns (maxDd: real)
    requires curve != []
    ensures IsWorstDrop(curve, |curve|, maxDd)
  {
    var peak := curve[0];
    maxDd := 0.0;
    for i := 0 to |curve|
      invariant peak == if i == 0 then curve[0] else PrefixPeak(curve, i)
      invariant IsWorstDrop(curve, i, maxDd)
    {
      peak := Max(peak, curve[i]);
      assert peak == PrefixPeak(curve, i + 1);
      if peak > 0.0 {
        var dd := (peak - curve[i]) / peak * 100.0;
        assert dd == DropAt(curve, i);
        maxDd := Max(maxDd, dd);
      }
    }
  }

  /** The worst loss between any two points of the curve, in that order. */
  ghost predicate IsWorstPair(curve: seq<real>, dd: real) {
    && (forall i, j | 0 <= i <= j < |curve| && curve[i] > 0.0 :: DropPct(curve[i], curve[j]) <= dd)
    && (dd == 0.0 || exists i, j | 0 <= i <= j < |curve| && curve[i] > 0.0 :: DropPct(curve[i], curve[j]) == dd)
  }

  lemma {:induction false} PeakIsAPoint(curve: seq<real>, n: nat) returns (i: nat)
    requires 1 <= n <= |curve|
    ensures i < n && curve[i] == PrefixPeak(curve, n)
    ensures forall k | 0 <= k < n :: curve[k] <= PrefixPeak(curve, n)
  {
    if n == 1 {
      i := 0;
    } else {
      i := PeakIsAPoint(curve, n - 1);
      if curve[n-1] >= PrefixPeak(curve, n - 1) {
        i := n - 1;
      }
    }
  }

  lemma NonNegativeFactor(q: real, k: real)
    requires k > 0.0 && q * k >= 0.0
    ensures q >= 0.0
  {
  }

  lemma NonNegativeQuotient(q: real, k: real, v: real)
    requires k > 0.0 && v >= 0.0 && q * k == v
    ensures q >= 0.0 && (v > 0.0 ==> q > 0.0)
  {
    NonNegativeFactor(q, k);
  }

  lemma RatioOrder(b: real, a: real, peak: real)
    requires 0.0 < a <= peak && 0.0 <= b
    ensures b / a >= b / peak >= 0.0
    ensures b > 0.0 ==> b / peak > 0.0
  {
    var x, y := b / a, b / peak;
    assert x * a == b && y * peak == b;
    NonNegativeQuotient(x, a, b);
    NonNegativeQuotient(y, peak, b);
    assert x * peak >= x * a by { assert x * (peak - a) >= 0.0; }
    assert (x - y) * peak >= 0.0;
    NonNegativeFactor(x - y, peak);
  }

  lemma DropGrowsWithPeak(a: real, peak: real, b: real)
    requires 0.0 < a <= peak && 0.0 <= b
    ensures DropPct(a, b) <= DropPct(peak, b) <= 100.0
    ensures b > 0.0 ==> DropPct(peak, b) < 100.0
  {
    assert (a - b) / a == a / a - b / a && (peak - b) / peak == peak / peak - b / peak;
    assert a / a == 1.0 && peak / peak == 1.0;
    RatioOrder(b, a, peak);
  }

  /** A drop to a negative point is no larger than some drop from a running peak. */
  ghost predicate Outdone(curve: seq<real>, i: nat, j: nat)
    requires i <= j < |curve| && curve[i] > 0.0
  {
    exists k | 0 <= k < |curve| :: DropPct(curve[i], curve[j]) <= DropAt(curve, k)
  }

  /** No negative point is further below a small positive one than the running peaks ever see. */
  ghost predicate NegativesOutdone(curve: seq<real>) {
    forall i, j | 0 <= i <= j < |curve| && curve[j] < 0.0 < curve[i] :: Outdone(curve, i, j)
  }

  lemma DropToNegative(a: real, b: real)
    requires b < 0.0 < a
    ensures DropPct(a, b) > 0.0
  {
    var q := (a - b) / a;
    assert q * a == a - b;
    NonNegativeFactor(q, a);
  }

  lemma DropBelowRunningPeak(curve: seq<real>, i: nat, j: nat)
    requires i <= j < |curve| && curve[i] > 0.0 && curve[j] >= 0.0
    ensures DropPct(curve[i], curve[j]) <= DropAt(curve, j)
  {
    var _ := PeakIsAPoint(curve, j + 1);
    DropGrowsWithPeak(curve[i], PrefixPeak(curve, j + 1), curve[j]);
  }

  lemma WorstDropIsAPair(curve: seq<real>, dd: real)
    requires IsWorstDrop(curve, |curve|, dd)
    ensures dd == 0.0 || exists i, j | 0 <= i <= j < |curve| && curve[i] > 0.0 :: DropPct(curve[i], curve[j]) == dd
  {
    if dd != 0.0 {
      var k :| 0 <= k < |curve| && DropAt(curve, k) == dd;
      var i := PeakIsAPoint(curve, k + 1);
      assert DropPct(curve[i], curve[k]) == dd;
    }
  }

  /**
   The one pass finds the worst pair exactly for the curves on which every drop to a negative point is outdone
   by a drop from a running peak.
   */
  lemma OnePassIsWorstPairExactly(curve: seq<real>, dd: real)
    requires IsWorstDrop(curve, |curve|, dd)
    ensures IsWorstPair(curve, dd) <==> NegativesOutdone(curve)
  {
    if IsWorstPair(curve, dd) {
      forall i, j | 0 <= i <= j < |curve| && curve[j] < 0.0 < curve[i] ensures Outdone(curve, i, j) {
        DropToNegative(curve[i], curve[j]);
        var k :| 0 <= k < |curve| && DropAt(curve, k) == dd;
      }
    }
    if NegativesOutdone(curve) {
      forall i, j | 0 <= i <= j < |curve| && curve[i] > 0.0 ensures DropPct(curve[i], curve[j]) <= dd {
        if curve[j] < 0.0 {
          assert Outdone(curve, i, j);
        } else {
          DropBelowRunningPeak(curve, i, j);
        }
      }
      WorstDropIsAPair(curve, dd);
    }
  }

  /** In particular for a curve that never goes negative, and then it is never more than 100%. */
  lemma OnePassIsWorstPair(curve: seq<real>, dd: real)
    requires forall k | 0 <= k < |curve| :: curve[k] >= 0.0
    requires IsWorstDrop(curve, |curve|, dd)
    ensures IsWorstPair(curve, dd)
    ensures 0.0 <= dd <= 100.0
    ensures (forall k | 0 <= k < |curve| :: curve[k] > 0.0) ==> dd < 100.0
  {
    OnePassIsWorstPairExactly(curve, dd);
    if dd != 0.0 {
      var k :| 0 <= k < |curve| && DropAt(curve, k) == dd;
      var i := PeakIsAPoint(curve, k + 1);
      DropGrowsWithPeak(curve[i], curve[i], curve[k]);
    }
  }

  // ----- The same in balances -----

  lemma Shares(x: real, a: real, m: real, dd: real)
    requires a > 0.0 && x * a == m
    ensures (x <= dd <==> m <= dd * a) && (x == dd <==> m == dd * a)
  {
    if x < dd {
      assert (dd - x) * a > 0.0;
    } else if x > dd {
      assert (x - dd) * a > 0.0;
    }
  }

  lemma DropTimesPeak(a: real, b: real, dd: real)
    requires a > 0.0
    ensures DropPct(a, b) <= dd <==> 100.0 * (a - b) <= dd * a
    ensures DropPct(a, b) == dd <==> 100.0 * (a - b) == dd * a
  {
    var q, x := (a - b) / a, DropPct(a, b);
    assert q * a == a - b;
    assert x == 100.0 * q && x * a == 100.0 * (q * a);
    Shares(x, a, 100.0 * (a - b), dd);
  }

  /** Point `i` is the highest up to point `k`. */
  ghost predicate HighestUpTo(curve: seq<real>, i: nat, k: nat) {
    i <= k < |curve| && forall j | 0 <= j <= k :: curve[j] <= curve[i]
  }

  lemma HighestIsPeak(curve: seq<real>, i: nat, k: nat)
    requires i <= k < |curve|
    ensures HighestUpTo(curve, i, k) <==> PrefixPeak(curve, k + 1) == curve[i]
  {
    var _ := PeakIsAPoint(curve, k + 1);
  }

  lemma BelowHighest(curve: seq<real>, i: nat, k: nat, dd: real)
    requires IsWorstDrop(curve, |curve|, dd) && HighestUpTo(curve, i, k) && curve[i] > 0.0
    ensures 100.0 * (curve[i] - curve[k]) <= dd * curve[i]
  {
    HighestIsPeak(curve, i, k);
    hide DropPct, PrefixPeak, HighestUpTo;
    assert DropAt(curve, k) == DropPct(curve[i], curve[k]);
    DropTimesPeak(curve[i], curve[k], dd);
  }

  lemma DropAttained(curve: seq<real>, dd: real) returns (i: nat, k: nat)
    requires IsWorstDrop(curve, |curve|, dd) && dd != 0.0
    ensures HighestUpTo(curve, i, k) && curve[i] > 0.0 && 100.0 * (curve[i] - curve[k]) == dd * curve[i]
  {
    hide DropPct, PrefixPeak;
    k :| 0 <= k < |curve| && DropAt(curve, k) == dd;
    i := PeakIsAPoint(curve, k + 1);
    DropTimesPeak(curve[i], curve[k], dd);
  }

  /** No point lies more than `dd` percent below a positive highest point before it, and one lies exactly that. */
  lemma DrawdownInBalances(curve: seq<real>, dd: real)
    requires IsWorstDrop(curve, |curve|, dd)
    ensures dd >= 0.0
    ensures forall i: nat, k: nat | HighestUpTo(curve, i, k) && curve[i] > 0.0 ::
              100.0 * (curve[i] - curve[k]) <= dd * curve[i]
    ensures dd == 0.0 || exists i: nat, k: nat ::
              HighestUpTo(curve, i, k) && curve[i] > 0.0 && 100.0 * (curve[i] - curve[k]) == dd * curve[i]
  {
    hide DropAt;
    forall i: nat, k: nat | HighestUpTo(curve, i, k) && curve[i] > 0.0
      ensures 100.0 * (curve[i] - curve[k]) <= dd * curve[i]
    {
      BelowHighest(curve, i, k, dd);
    }
    if dd != 0.0 {
      var _, _ := DropAttained(curve, dd);
    }
  }

  /** The worst pair loses `dd` percent of its first point, and no pair loses more. */
  lemma WorstPairInBalances(curve: seq<real>, dd: real)
    ensures IsWorstPair(curve, dd) <==>
              && (forall i, j | 0 <= i <= j < |curve| && curve[i] > 0.0 ::
                    100.0 * (curve[i] - curve[j]) <= dd * curve[i])
              && (dd == 0.0 || exists i, j | 0 <= i <= j < |curve| && curve[i] > 0.0 ::
                    100.0 * (curve[i] - curve[j]) == dd * curve[i])
  {
    hide DropPct;
    forall i, j | 0 <= i <= j < |curve| && curve[i] > 0.0
      ensures DropPct(curve[i], curve[j]) <= dd <==> 100.0 * (curve[i] - curve[j]) <= dd * curve[i]
      ensures DropPct(curve[i], curve[j]) == dd <==> 100.0 * (curve[i] - curve[j]) == dd * curve[i]
    {
      DropTimesPeak(curve[i], curve[j], dd);
    }
  }

  /** A curve that fails: the worst pair loses 200%, the pass reports 150%. */
  lemma NegativeCurveWitness(dd: real)
    requires IsWorstDrop([1.0, 2.0, -1.0], 3, dd)
    ensures dd == 150.0 && DropPct(1.0, -1.0) == 200.0 && !IsWorstPair([1.0, 2.0, -1.0], dd)
  {
    var curve := [1.0, 2.0, -1.0];
    assert PrefixPeak(curve, 1) == 1.0 && PrefixPeak(curve, 2) == 2.0 && PrefixPeak(curve, 3) == 2.0;
    assert DropAt(curve, 0) == 0.0 && DropAt(curve, 1) == 0.0 && DropAt(curve, 2) == 150.0;
    assert DropPct(curve[0], curve[2]) == 200.0;
  }
}
