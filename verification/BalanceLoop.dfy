/**
 The balance simulation of the backtest report: one position per symbol at a time, each trade sized on the
 running balance, results written back into the trade records.
 */
module BalanceLoop {
  import opened Market
  import opened Outcome
  import opened Drawdown
  import opened Sorting

  const START: real := 1000.0

  /** Hold settings in minutes. */
  datatype Holds = Holds(fast: nat, driftFast: nat, swing: nat)

  datatype Trade = Trade(
    symbol: string, ts: nat, elapsedMin: Option<nat>, style: Style, regime: Regime, outcome: Result,
    side: Side, close: real, sl: real, tp: real, exit: Option<real>)

  function HoldMin(h: Holds, t: Trade): nat {
    if t.style.Swing? then h.swing
    else if t.regime.Drift? || t.regime.WeakTrend? then h.driftFast
    else h.fast
  }

  /** When the position of an executed trade is free again. */
  function CloseAt(h: Holds, t: Trade): nat {
    t.ts + (if t.elapsedMin.Some? then t.elapsedMin.value else HoldMin(h, t)) * 60000
  }

  function PnlOf(t: Trade, balance: real): real {
    CalcPnl(t.outcome, t.side, t.close, t.sl, t.tp, t.exit, balance)
  }

  // ----- The declarative reading -----

  /** A trade is executed exactly if no earlier executed trade of its symbol is still open. */
  ghost predicate Executes(h: Holds, ts: seq<Trade>, k: nat)
    requires k < |ts|
    decreases k
  {
    forall i | 0 <= i < k :: Executes(h, ts, i) && ts[i].symbol == ts[k].symbol ==> CloseAt(h, ts[i]) <= ts[k].ts
  }

  ghost function BalanceAfter(h: Holds, ts: seq<Trade>, n: nat): real
    requires n <= |ts|
  {
    if n == 0 then START
    else
      var before := BalanceAfter(h, ts, n - 1);
      if Executes(h, ts, n - 1) then before + PnlOf(ts[n-1], before) else before
  }

  /** The starting balance and the balance after each executed trade. */
  ghost function Curve(h: Holds, ts: seq<Trade>, n: nat): (c: seq<real>)
    requires n <= |ts|
    ensures |c| >= 1 && c[0] == START && c[|c|-1] == BalanceAfter(h, ts, n)
  {
    if n == 0 then [START]
    else if Executes(h, ts, n - 1) then Curve(h, ts, n - 1) + [BalanceAfter(h, ts, n)]
    else Curve(h, ts, n - 1)
  }

  ghost function ExecutedCount(h: Holds, ts: seq<Trade>, n: nat): (c: nat)
    requires n <= |ts|
    ensures c == |Curve(h, ts, n)| - 1
  {
    if n == 0 then 0 else ExecutedCount(h, ts, n - 1) + (if Executes(h, ts, n - 1) then 1 else 0)
  }

  // ----- The loop -----

  class TradeRecord {
    const trade: Trade
    var executed: bool
    var pnl: Option<real>

    constructor (t: Trade)
      ensures trade == t && executed && pnl == None
    {
      trade := t;
      executed, pnl := true, None;
    }
  }

  ghost function TradesOf(rs: seq<TradeRecord>): seq<Trade> {
    seq(|rs|, k requires 0 <= k < |rs| => rs[k].trade)
  }

  /** The table of closing times knows, per symbol, the latest close of an executed trade. */
  ghost predicate Knows(h: Holds, ts: seq<Trade>, n: nat, posClose: map<string, nat>)
    requires n <= |ts|
  {
    && (forall i | 0 <= i < n && Executes(h, ts, i) ::
          ts[i].symbol in posClose && CloseAt(h, ts[i]) <= posClose[ts[i].symbol])
    && (forall s | s in posClose ::
          exists i | 0 <= i < n :: Executes(h, ts, i) && ts[i].symbol == s && CloseAt(h, ts[i]) == posClose[s])
  }

  lemma KnowsDecides(h: Holds, ts: seq<Trade>, n: nat, posClose: map<string, nat>)
    requires n < |ts| && Knows(h, ts, n, posClose)
    ensures Executes(h, ts, n) <==> !(ts[n].symbol in posClose && posClose[ts[n].symbol] > ts[n].ts)
    ensures Executes(h, ts, n) ==> Knows(h, ts, n + 1, posClose[ts[n].symbol := CloseAt(h, ts[n])])
    ensures !Executes(h, ts, n) ==> Knows(h, ts, n + 1, posClose)
  {
    var sym := ts[n].symbol;
    if Executes(h, ts, n) {
      var next := posClose[sym := CloseAt(h, ts[n])];
      forall s | s in next
        ensures exists i | 0 <= i < n + 1 :: Executes(h, ts, i) && ts[i].symbol == s && CloseAt(h, ts[i]) == next[s]
      {
        if s == sym {
          assert Executes(h, ts, n);
        } else {
          var i :| 0 <= i < n && Executes(h, ts, i) && ts[i].symbol == s && CloseAt(h, ts[i]) == posClose[s];
        }
      }
    }
  }

  lemma {:induction false} PrefixPeakAppend(curve: seq<real>, x: real, n: nat)
    requires 1 <= n <= |curve|
    ensures PrefixPeak(curve + [x], n) == PrefixPeak(curve, n)
  {
    if n == 1 {
    } else {
      PrefixPeakAppend(curve, x, n - 1);
    }
  }

  lemma WorstDropAppend(curve: seq<real>, dd: real, x: real)
    requires curve != [] && IsWorstDrop(curve, |curve|, dd)
    ensures var c := curve + [x];
            && PrefixPeak(c, |c|) == Max(PrefixPeak(curve, |curve|), x)
            && IsWorstDrop(c, |c|, Max(dd, DropAt(c, |curve|)))
            && IsWorstDrop(c, |curve|, dd)
  {
    var c := curve + [x];
    PrefixPeakAppend(curve, x, |curve|);
    forall k | 0 <= k < |curve| ensures DropAt(c, k) == DropAt(curve, k) {
      PrefixPeakAppend(curve, x, k + 1);
    }
    if dd != 0.0 {
      var k :| 0 <= k < |curve| && DropAt(curve, k) == dd;
      assert DropAt(c, k) == dd;
    }
    assert DropAt(c, |curve|) == DropAt(c, |curve|);
  }

  /** Drawdown bookkeeping for one new balance. */
  method TrackDrawdown(balance: real, peak: real, maxDrawdown: real, ghost curve: seq<real>)
    returns (peak': real, maxDrawdown': real)
    requires curve != [] && peak == PrefixPeak(curve, |curve|) && peak > 0.0
    requires IsWorstDrop(curve, |curve|, maxDrawdown)
    ensures var c := curve + [balance];
            && peak' == PrefixPeak(c, |c|) && peak' >= peak
            && IsWorstDrop(c, |c|, maxDrawdown')
  {
    WorstDropAppend(curve, maxDrawdown, balance);
    peak', maxDrawdown' := peak, maxDrawdown;
    if balance > peak {
      peak' := balance;
    }
    var dd := (peak' - balance) / peak' * 100.0;
    assert dd == DropAt(curve + [balance], |curve|);
    if dd > maxDrawdown {
      maxDrawdown' := dd;
    }
  }

  lemma LoopStarts(h: Holds, ts: seq<Trade>)
    ensures BalanceAfter(h, ts, 0) == START && Curve(h, ts, 0) == [START] && ExecutedCount(h, ts, 0) == 0
    ensures Knows(h, ts, 0, map[])
    ensures PrefixPeak([START], 1) == START && IsWorstDrop([START], 1, 0.0)
  {
    assert DropAt([START], 0) == 0.0;
  }

  lemma LoopAdvances(h: Holds, ts: seq<Trade>, n: nat)
    requires n < |ts|
    ensures var before, after := BalanceAfter(h, ts, n), BalanceAfter(h, ts, n + 1);
            if Executes(h, ts, n) then
              && after == before + PnlOf(ts[n], before)
              && Curve(h, ts, n + 1) == Curve(h, ts, n) + [after]
              && ExecutedCount(h, ts, n + 1) == ExecutedCount(h, ts, n) + 1
            else
              && after == before
              && Curve(h, ts, n + 1) == Curve(h, ts, n)
              && ExecutedCount(h, ts, n + 1) == ExecutedCount(h, ts, n)
  {
    hide PnlOf, Executes;
  }

  /** The loop over the sorted records. */
  method RunBalance(h: Holds, rs: seq<TradeRecord>)
    returns (balance: real, maxDrawdown: real, executed: nat, skipped: nat)
    requires forall i, j | 0 <= i < j < |rs| :: rs[i] != rs[j]
    modifies rs
    ensures forall k | 0 <= k < |rs| :: rs[k].executed == Executes(h, TradesOf(rs), k)
    ensures forall k | 0 <= k < |rs| ::
              rs[k].pnl == if rs[k].executed
                           then Some(PnlOf(rs[k].trade, BalanceAfter(h, TradesOf(rs), k)))
                           else old(rs[k].pnl)
    ensures balance == BalanceAfter(h, TradesOf(rs), |rs|)
    ensures executed == ExecutedCount(h, TradesOf(rs), |rs|) && executed + skipped == |rs|
    ensures var c := Curve(h, TradesOf(rs), |rs|); IsWorstDrop(c, |c|, maxDrawdown)
  {
    hide PnlOf, CloseAt, Executes, Knows, BalanceAfter, Curve, ExecutedCount, PrefixPeak, IsWorstDrop;
    ghost var ts := TradesOf(rs);
    LoopStarts(h, ts);
    balance, maxDrawdown, executed, skipped := START, 0.0, 0, 0;
    var peak := START;
    var posClose: map<string, nat> := map[];
    ghost var curve := [START];

    for n := 0 to |rs|
      invariant Knows(h, ts, n, posClose)
      invariant forall k | 0 <= k < n :: rs[k].executed == Executes(h, ts, k)
      invariant forall k | 0 <= k < n ::
                  rs[k].pnl == if Executes(h, ts, k) then Some(PnlOf(ts[k], BalanceAfter(h, ts, k))) else old(rs[k].pnl)
      invariant forall k | n <= k < |rs| :: rs[k].pnl == old(rs[k].pnl)
      invariant balance == BalanceAfter(h, ts, n)
      invariant executed == ExecutedCount(h, ts, n) && executed + skipped == n
      invariant curve == Curve(h, ts, n)
      invariant peak == PrefixPeak(curve, |curve|) >= START
      invariant IsWorstDrop(curve, |curve|, maxDrawdown)
    {
      var r := rs[n];
      assert r.trade == ts[n];
      KnowsDecides(h, ts, n, posClose);
      LoopAdvances(h, ts, n);
      if r.trade.symbol in posClose && posClose[r.trade.symbol] > r.trade.ts {
        r.executed := false;
        skipped := skipped + 1;
        continue;
      }
      posClose := posClose[r.trade.symbol := CloseAt(h, r.trade)];
      var pnl := PnlOf(r.trade, balance);
      r.pnl := Some(pnl);
      r.executed := true;
      balance := balance + pnl;
      peak, maxDrawdown := TrackDrawdown(balance, peak, maxDrawdown, curve);
      curve := curve + [balance];
      executed := executed + 1;
    }
  }

  /** The sort key of the report: the time of the signal. */
  predicate NoLater(a: TradeRecord, b: TradeRecord) { a.trade.ts <= b.trade.ts }

  ghost predicate ByTime(ts: seq<Trade>) { forall i, j | 0 <= i <= j < |ts| :: ts[i].ts <= ts[j].ts }

  lemma SortedByTime(results: seq<TradeRecord>)
    ensures ByTime(TradesOf(Sort(NoLater, results)))
  {
    var rs := Sort(NoLater, results);
    SortSorts(NoLater, results);
    forall i, j | 0 <= i <= j < |rs| ensures rs[i].trade.ts <= rs[j].trade.ts {
      if i < j {
        assert NoLater(rs[i], rs[j]);
      }
    }
  }

  /** Different records stay different when they are put in another order. */
  lemma {:induction false} DistinctCounts(rs: seq<TradeRecord>, r: TradeRecord)
    requires forall i, j | 0 <= i < j < |rs| :: rs[i] != rs[j]
    ensures multiset(rs)[r] <= 1
  {
    if rs == [] {
    } else {
      DropLast(rs);
      DistinctCounts(rs[..|rs|-1], r);
      if r == rs[|rs|-1] {
        assert r !in rs[..|rs|-1];
      }
    }
  }

  lemma TwiceCounts(rs: seq<TradeRecord>, i: nat, j: nat)
    requires i < j < |rs| && rs[i] == rs[j]
    ensures multiset(rs)[rs[i]] >= 2
  {
    RemoveAt(rs, j);
    var rest := rs[..j] + rs[j+1..];
    assert rest[i] == rs[i];
  }

  lemma ReorderedDistinct(rs: seq<TradeRecord>, results: seq<TradeRecord>)
    requires multiset(rs) == multiset(results)
    requires forall i, j | 0 <= i < j < |results| :: results[i] != results[j]
    ensures forall i, j | 0 <= i < j < |rs| :: rs[i] != rs[j]
    ensures forall r | r in rs :: r in results
  {
    forall i, j | 0 <= i < j < |rs| ensures rs[i] != rs[j] {
      DistinctCounts(results, rs[i]);
      if rs[i] == rs[j] {
        TwiceCounts(rs, i, j);
      }
    }
    forall r | r in rs ensures r in results {
      assert r in multiset(rs);
    }
  }

  /** Records of the same time keep the order they came in. */
  lemma TiesStay(results: seq<TradeRecord>)
    ensures forall r | r in results :: Ties(NoLater, Sort(NoLater, results), r) == Ties(NoLater, results, r)
  {
    forall r | r in results ensures Ties(NoLater, Sort(NoLater, results), r) == Ties(NoLater, results, r) {
      SortKeepsTies(NoLater, results, r);
    }
  }

  /** Runs the balance over the records in order of time, marking each as executed or skipped. */
  method SimulateBalance(h: Holds, results: seq<TradeRecord>)
    returns (rs: seq<TradeRecord>, balance: real, maxDrawdown: real, executed: nat, skipped: nat)
    requires forall i, j | 0 <= i < j < |results| :: results[i] != results[j]
    modifies results
    ensures multiset(rs) == multiset(results) && ByTime(TradesOf(rs))
    ensures forall r | r in results :: Ties(NoLater, rs, r) == Ties(NoLater, results, r)
    ensures forall k | 0 <= k < |rs| :: rs[k] in results && rs[k].executed == Executes(h, TradesOf(rs), k)
    ensures forall k | 0 <= k < |rs| ::
              rs[k].pnl == if rs[k].executed
                           then Some(PnlOf(rs[k].trade, BalanceAfter(h, TradesOf(rs), k)))
                           else old(rs[k].pnl)
    ensures balance == BalanceAfter(h, TradesOf(rs), |rs|)
    ensures executed == ExecutedCount(h, TradesOf(rs), |rs|) && executed + skipped == |rs|
    ensures var c := Curve(h, TradesOf(rs), |rs|); IsWorstDrop(c, |c|, maxDrawdown)
  {
    hide Sort, Ties, PnlOf, CloseAt, Executes, BalanceAfter, Curve, ExecutedCount, IsWorstDrop, ByTime;
    rs := Sort(NoLater, results);
    SortContents(NoLater, results);
    SortedByTime(results);
    ReorderedDistinct(rs, results);
    TiesStay(results);
    assert forall i | 0 <= i < |rs| :: rs[i] in rs && rs[i] in results;
    balance, maxDrawdown, executed, skipped := RunBalance(h, rs);
  }

  // ----- What the loop guarantees -----

  /**
   Executed trades of one symbol never overlap, and every skipped trade starts while an executed trade of its
   symbol is open.
   */
  lemma OnePositionPerSymbol(h: Holds, ts: seq<Trade>)
    requires ByTime(ts)
    ensures forall i, j | 0 <= i < j < |ts| && ts[i].symbol == ts[j].symbol
                          && Executes(h, ts, i) && Executes(h, ts, j) ::
              ts[i].ts <= CloseAt(h, ts[i]) <= ts[j].ts
    ensures forall j | 0 <= j < |ts| && !Executes(h, ts, j) ::
              exists i | 0 <= i < j ::
                Executes(h, ts, i) && ts[i].symbol == ts[j].symbol && ts[i].ts <= ts[j].ts < CloseAt(h, ts[i])
  {
  }

  function MoveFraction(t: Trade): real {
    RealisedFraction(t.outcome, t.side, t.close, t.sl, t.tp, t.exit)
  }

  /** What the balance is multiplied by when the trade is executed. */
  function Factor(t: Trade): real { 1.0 + NOTIONAL_RATIO * MoveFraction(t) }

  lemma Rearrange(balance: real, move: real)
    ensures balance + move * (balance * NOTIONAL_RATIO) == balance * (1.0 + NOTIONAL_RATIO * move)
  {
  }

  lemma PnlIsMoveOnNotional(t: Trade, balance: real)
    ensures balance + PnlOf(t, balance) == balance * Factor(t)
  {
    hide RealisedFraction;
    PnlIsFractionOfNotional(t.outcome, t.side, t.close, t.sl, t.tp, t.exit, balance);
    Rearrange(balance, MoveFraction(t));
  }

  ghost function Growth(h: Holds, ts: seq<Trade>, n: nat): real
    requires n <= |ts|
  {
    if n == 0 then 1.0
    else if Executes(h, ts, n - 1) then Growth(h, ts, n - 1) * Factor(ts[n-1])
    else Growth(h, ts, n - 1)
  }

  lemma RegroupGrowth(growth: real, factor: real)
    ensures START * growth * factor == START * (growth * factor)
  {
  }

  /** The account compounds: the balance is the start times one factor per executed trade. */
  lemma {:induction false} BalanceCompounds(h: Holds, ts: seq<Trade>, n: nat)
    requires n <= |ts|
    ensures BalanceAfter(h, ts, n) == START * Growth(h, ts, n)
  {
    hide PnlOf;
    hide Factor;
    hide Executes;
    if n == 0 {
    } else {
      BalanceCompounds(h, ts, n - 1);
      PnlIsMoveOnNotional(ts[n-1], BalanceAfter(h, ts, n - 1));
      RegroupGrowth(Growth(h, ts, n - 1), Factor(ts[n-1]));
    }
  }

  /** The stop is closer than two thirds of the entry price. */
  ghost predicate StopClose(t: Trade) { t.close > 0.0 ==> 3.0 * Abs(t.close - t.sl) < 2.0 * t.close }

  lemma LossAboveRuin(d: real, entry: real)
    requires entry > 0.0 && d >= 0.0 && 3.0 * d < 2.0 * entry
    ensures -d / entry > -2.0 / 3.0
  {
    var q := -d / entry;
    assert q * entry == -d;
    Compare(q, -2.0 / 3.0, entry);
  }

  lemma MoveAboveRuin(t: Trade)
    requires StopClose(t)
    ensures Factor(t) > 0.0
  {
    if t.close > 0.0 {
      var d := Abs(t.close - t.sl);
      LossAboveRuin(d, t.close);
      NegatedQuotient(d, t.close);
      QuotientMonotone(-d, ClippedMove(t.side, t.close, t.sl, t.tp, t.exit), t.close);
      QuotientMonotone(-d, Abs(t.tp - t.close), t.close);
    }
  }

  lemma PositiveProduct(a: real, b: real)
    requires a > 0.0 && b > 0.0
    ensures a * b > 0.0
  {
  }

  /** With every stop closer than two thirds of its entry the account never reaches zero. */
  lemma {:induction false} AccountStaysPositive(h: Holds, ts: seq<Trade>, n: nat)
    requires n <= |ts|
    requires forall k | 0 <= k < |ts| :: StopClose(ts[k])
    ensures Growth(h, ts, n) > 0.0 && BalanceAfter(h, ts, n) > 0.0
  {
    hide Factor;
    hide PnlOf;
    hide Executes;
    BalanceCompounds(h, ts, n);
    if n == 0 {
    } else {
      AccountStaysPositive(h, ts, n - 1);
      MoveAboveRuin(ts[n-1]);
      PositiveProduct(Growth(h, ts, n - 1), Factor(ts[n-1]));
    }
  }

  /** The bound is sharp: a stop two thirds away wipes the account out. */
  lemma RuinWitness(h: Holds, t: Trade)
    requires t.outcome == Stop && t.close > 0.0 && 3.0 * Abs(t.close - t.sl) == 2.0 * t.close
    ensures BalanceAfter(h, [t], 1) == 0.0
  {
    var d := Abs(t.close - t.sl);
    var q := -d / t.close;
    assert q * t.close == -d;
    assert q == -2.0 / 3.0 by {
      Compare(q, -2.0 / 3.0, t.close);
      Compare(-2.0 / 3.0, q, t.close);
    }
    BalanceCompounds(h, [t], 1);
    assert Executes(h, [t], 0);
    assert Growth(h, [t], 0) == 1.0;
  }

  lemma {:induction false} CurvePositive(h: Holds, ts: seq<Trade>, n: nat)
    requires n <= |ts|
    requires forall k | 0 <= k < |ts| :: StopClose(ts[k])
    ensures forall k | 0 <= k < |Curve(h, ts, n)| :: Curve(h, ts, n)[k] > 0.0
  {
    hide Executes, StopClose, BalanceAfter;
    if n == 0 {
    } else {
      CurvePositive(h, ts, n - 1);
      AccountStaysPositive(h, ts, n);
    }
  }

  /** On such an account the reported drawdown is the worst loss between any two points of the curve, under 100%. */
  lemma AccountDrawdown(h: Holds, ts: seq<Trade>, dd: real)
    requires forall k | 0 <= k < |ts| :: StopClose(ts[k])
    requires var c := Curve(h, ts, |ts|); IsWorstDrop(c, |c|, dd)
    ensures IsWorstPair(Curve(h, ts, |ts|), dd) && 0.0 <= dd < 100.0
  {
    hide StopClose;
    CurvePositive(h, ts, |ts|);
    OnePassIsWorstPair(Curve(h, ts, |ts|), dd);
  }
}
