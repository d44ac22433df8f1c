/** The balance loop read back into times, minutes and prices, and joined to the walk that measured the trades. */
module BalanceTimes {
  import opened Market
  import opened Outcome
  import opened OutcomePrices
  import opened BalanceLoop

  /** The minutes a position counts as open: those measured, else the hold of its style and regime. */
  ghost function OpenMinutes(h: Holds, t: Trade): nat {
    match t.elapsedMin
    case Some(m) => m
    case None =>
      match t.style
      case Swing => h.swing
      case Fast => if t.regime in {Regime.Drift, Regime.WeakTrend} then h.driftFast else h.fast
  }

  /** Trade `i` was executed and its position is still open when trade `j` of the same symbol starts. */
  ghost predicate Occupies(h: Holds, ts: seq<Trade>, i: nat, j: nat)
    requires i < |ts| && j < |ts|
  {
    Executes(h, ts, i) && ts[i].symbol == ts[j].symbol && ts[j].ts - ts[i].ts < 60000 * OpenMinutes(h, ts[i])
  }

  lemma ClosesInMinutes(h: Holds, t: Trade)
    ensures CloseAt(h, t) == t.ts + 60000 * OpenMinutes(h, t)
  {
  }

  /**
   A trade is skipped exactly if an earlier executed trade of its symbol is still open, 60000 milliseconds to the
   minute; so executed trades of one symbol start at least the minutes of the earlier one apart.
   */
  lemma ExecutionInMinutes(h: Holds, ts: seq<Trade>)
    ensures forall j | 0 <= j < |ts| :: !Executes(h, ts, j) <==> exists i | 0 <= i < j :: Occupies(h, ts, i, j)
    ensures forall i, j | 0 <= i < j < |ts| && ts[i].symbol == ts[j].symbol
                          && Executes(h, ts, i) && Executes(h, ts, j) ::
              ts[j].ts - ts[i].ts >= 60000 * OpenMinutes(h, ts[i])
  {
    hide CloseAt, OpenMinutes;
    forall i | 0 <= i < |ts| ensures CloseAt(h, ts[i]) == ts[i].ts + 60000 * OpenMinutes(h, ts[i]) {
      ClosesInMinutes(h, ts[i]);
    }
    forall j | 0 <= j < |ts| && !Executes(h, ts, j) ensures exists i | 0 <= i < j :: Occupies(h, ts, i, j) {
      var i :| 0 <= i < j && Executes(h, ts, i) && ts[i].symbol == ts[j].symbol && CloseAt(h, ts[i]) > ts[j].ts;
      assert Occupies(h, ts, i, j);
    }
  }

  /**
   With the minutes measured by the outcome walk, the next executed trade of the symbol starts later than one minute
   before the candle that decided the earlier one.
   */
  lemma NextAfterDecision(h: Holds, ts: seq<Trade>, i: nat, j: nat, p: Plan, entry: Option<real>,
                          raw: seq<Candle>, cs: seq<Candle>, k: nat)
    requires i < j < |ts| && ts[i].symbol == ts[j].symbol && Executes(h, ts, i) && Executes(h, ts, j)
    requires InTimeOrder(cs, raw) && EndsAt(p, cs, k) && ts[i].ts == p.signalTs
    requires var m := OutcomeOf(p, entry, raw).elapsedMin;
             ts[i].elapsedMin.Some? && m.Some? && ts[i].elapsedMin.value == m.value
    ensures ts[j].ts > cs[k].ts - 60000
  {
    hide Executes, OutcomeOf, EndsAt, InTimeOrder;
    ExecutionInMinutes(h, ts);
    OutcomeInCandles(p, entry, raw, cs);
  }

  /** What an executed trade multiplies the balance by, times its price: the price and 1.5 times the paid move. */
  lemma FactorInPrices(t: Trade)
    requires t.close > 0.0
    ensures Factor(t) * t.close == t.close + 1.5 * PaidMove(t.outcome, t.side, t.close, t.sl, t.tp, t.exit)
  {
    hide PaidMove, RealisedFraction;
    FractionIsPaidMove(t.outcome, t.side, t.close, t.sl, t.tp, t.exit);
    var m := PaidMove(t.outcome, t.side, t.close, t.sl, t.tp, t.exit);
    QuotientTimes(m, t.close, 1.5);
    var q := m / t.close;
    assert q * 1.5 * t.close == 1.5 * m && (1.0 + 1.5 * q) * t.close == t.close + q * 1.5 * t.close;
  }

  /** An executed trade changes the balance by its paid move on one and a half times it, a skipped one not at all. */
  lemma BalanceStepInPrices(h: Holds, ts: seq<Trade>, n: nat, pnl: real)
    requires n < |ts| && pnl == PnlOf(ts[n], BalanceAfter(h, ts, n))
    ensures BalanceAfter(h, ts, n + 1) == BalanceAfter(h, ts, n) + if Executes(h, ts, n) then pnl else 0.0
    ensures BalanceAfter(h, ts, 0) == 1000.0
    ensures ts[n].close <= 0.0 ==> pnl == 0.0
    ensures var t := ts[n];
            t.close > 0.0 ==>
              pnl * t.close == PaidMove(t.outcome, t.side, t.close, t.sl, t.tp, t.exit) * (1.5 * BalanceAfter(h, ts, n))
  {
    hide Executes, PaidMove;
    PnlInPrices(ts[n].outcome, ts[n].side, ts[n].close, ts[n].sl, ts[n].tp, ts[n].exit, BalanceAfter(h, ts, n));
  }

  /** The numbers of the executed trades among the first `n`. */
  ghost function ExecutedOnes(h: Holds, ts: seq<Trade>, n: nat): set<nat>
    requires n <= |ts|
  {
    set k: nat | k < n && Executes(h, ts, k)
  }

  lemma NoOnes(h: Holds, ts: seq<Trade>)
    ensures ExecutedOnes(h, ts, 0) == {}
  {
  }

  lemma OnesOneMore(h: Holds, ts: seq<Trade>, n: nat)
    requires n < |ts|
    ensures |ExecutedOnes(h, ts, n + 1)| == |ExecutedOnes(h, ts, n)| + if Executes(h, ts, n) then 1 else 0
  {
    hide Executes;
    assert ExecutedOnes(h, ts, n + 1) == ExecutedOnes(h, ts, n) + if Executes(h, ts, n) then {n} else {};
  }

  /** The point of the curve behind executed trade `k` is the balance after it. */
  ghost predicate PointBehind(h: Holds, ts: seq<Trade>, n: nat, k: nat)
    requires k < n <= |ts|
  {
    var i := |ExecutedOnes(h, ts, k)| + 1;
    i < |Curve(h, ts, n)| && Curve(h, ts, n)[i] == BalanceAfter(h, ts, k + 1)
  }

  /** The curve has one point more than there are executed trades: 1000, then the balance after each of them. */
  lemma {:induction false} CurveInTrades(h: Holds, ts: seq<Trade>, n: nat)
    requires n <= |ts|
    ensures |Curve(h, ts, n)| == |ExecutedOnes(h, ts, n)| + 1 && ExecutedCount(h, ts, n) == |ExecutedOnes(h, ts, n)|
    ensures Curve(h, ts, n)[0] == 1000.0
    ensures forall k | 0 <= k < n && Executes(h, ts, k) :: PointBehind(h, ts, n, k)
  {
    hide Executes, BalanceAfter, ExecutedOnes, Curve, ExecutedCount;
    if n == 0 {
      LoopStarts(h, ts);
      assert ExecutedOnes(h, ts, 0) == {} by { NoOnes(h, ts); }
    } else {
      CurveInTrades(h, ts, n - 1);
      LoopAdvances(h, ts, n - 1);
      OnesOneMore(h, ts, n - 1);
      forall k | 0 <= k < n && Executes(h, ts, k) ensures PointBehind(h, ts, n, k) {
        if k < n - 1 {
          assert PointBehind(h, ts, n - 1, k);
        }
      }
    }
  }
}
