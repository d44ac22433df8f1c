/**
 The outcome walk, the excursions and the dollar result read back into candles, times and prices, side by side for
 buys and sells.  `cs` is always the list of candles in time order, `raw` as it arrives, newest first.
 */
module OutcomePrices {
  import opened Market
  import opened Outcome

  // ----- One candle -----

  ghost predicate After(p: Plan, c: Candle) { p.signalTs < c.ts }

  ghost predicate Overdue(p: Plan, c: Candle) { p.signalTs + p.maxHoldMs < c.ts }

  ghost predicate AtStop(p: Plan, c: Candle) {
    match p.side
    case Buy => c.low <= p.sl
    case Sell => c.high >= p.sl
  }

  ghost predicate AtTarget(p: Plan, c: Candle) {
    match p.side
    case Buy => c.high >= p.tp
    case Sell => c.low <= p.tp
  }

  /** How far the candle went for the trade. */
  ghost function Reach(p: Plan, entry: real, c: Candle): real {
    match p.side
    case Buy => c.high - entry
    case Sell => entry - c.low
  }

  /** How far it went against the trade. */
  ghost function Setback(p: Plan, entry: real, c: Candle): real {
    match p.side
    case Buy => entry - c.low
    case Sell => c.high - entry
  }

  /** A candle that leaves the trade running: not after the signal, or within the hold and short of both levels. */
  ghost predicate LeavesRunning(p: Plan, c: Candle) {
    !After(p, c) || (!Overdue(p, c) && !AtStop(p, c) && !AtTarget(p, c))
  }

  /** Candle `k` ends the trade: the first that does not leave it running. */
  ghost predicate EndsAt(p: Plan, cs: seq<Candle>, k: nat) {
    k < |cs| && !LeavesRunning(p, cs[k]) && forall j | 0 <= j < k :: LeavesRunning(p, cs[j])
  }

  ghost predicate InTimeOrder(cs: seq<Candle>, raw: seq<Candle>) {
    |cs| == |raw| && forall k | 0 <= k < |cs| :: cs[k] == raw[|raw| - 1 - k]
  }

  lemma ChronologicalIs(cs: seq<Candle>, raw: seq<Candle>)
    requires InTimeOrder(cs, raw)
    ensures Chronological(raw) == cs
  {
  }

  lemma EndIsFirstDecisive(p: Plan, cs: seq<Candle>)
    ensures match FirstDecisive(p, cs, |cs|)
            case None => forall k | 0 <= k < |cs| :: LeavesRunning(p, cs[k])
            case Some(k) => EndsAt(p, cs, k) && forall j: nat | EndsAt(p, cs, j) :: j == k
  {
    FirstDecisiveIsFirst(p, cs, |cs|);
    assert forall k | 0 <= k < |cs| :: Decisive(p, cs[k]) <==> !LeavesRunning(p, cs[k]);
  }

  // ----- The outcome -----

  lemma EndReachesLevel(p: Plan, c: Candle)
    requires !LeavesRunning(p, c)
    ensures After(p, c) && (AtStop(p, c) || Overdue(p, c) || AtTarget(p, c))
  {
  }

  /**
   The outcome in candles: open exactly if every candle leaves the trade running; otherwise the first that does not
   decides, past the hold before the stop, the stop before the target, and whole minutes are counted up to it.
   */
  lemma OutcomeInCandles(p: Plan, entry: Option<real>, raw: seq<Candle>, cs: seq<Candle>)
    requires InTimeOrder(cs, raw)
    ensures var r := OutcomeOf(p, entry, raw);
            && (r.outcome == NoData <==> raw == [])
            && (r.outcome == StillOpen <==> raw != [] && forall k | 0 <= k < |cs| :: LeavesRunning(p, cs[k]))
            && (r.outcome in {NoData, StillOpen} ==> r == Scored(r.outcome, None, None, 0.0))
    ensures forall k: nat | EndsAt(p, cs, k) ::
              var r, c := OutcomeOf(p, entry, raw), cs[k];
              && r.outcome == (if Overdue(p, c) then TimeExit else if AtStop(p, c) then Stop else TakeProfit)
              && (r.outcome == Stop ==> r.exitPrice == Some(p.sl))
              && (r.outcome == TakeProfit ==> r.exitPrice == Some(p.tp) && AtTarget(p, c))
              && r.elapsedMin.Some?
              && 60000 * r.elapsedMin.value <= c.ts - p.signalTs < 60000 * (r.elapsedMin.value + 1)
  {
    hide LeavesRunning, MfeR, LastClose;
    ChronologicalIs(cs, raw);
    EndIsFirstDecisive(p, cs);
    forall k: nat | EndsAt(p, cs, k) ensures AtStop(p, cs[k]) || Overdue(p, cs[k]) || AtTarget(p, cs[k]) {
      EndReachesLevel(p, cs[k]);
    }
  }

  /** Candle `j` is the last one after the signal among the first `k`. */
  ghost predicate LatestBefore(p: Plan, cs: seq<Candle>, k: nat, j: nat)
    requires k <= |cs|
  {
    j < k && After(p, cs[j]) && forall i | j < i < k :: !After(p, cs[i])
  }

  lemma {:induction false} LastCloseIsLatest(p: Plan, cs: seq<Candle>, k: nat)
    requires k <= |cs|
    ensures match LastClose(p, cs, k)
            case None => forall j | 0 <= j < k :: !After(p, cs[j])
            case Some(price) => exists j: nat :: LatestBefore(p, cs, k, j) && price == cs[j].close
  {
    if k == 0 {
    } else if After(p, cs[k-1]) {
      assert LatestBefore(p, cs, k, k - 1);
    } else {
      LastCloseIsLatest(p, cs, k - 1);
      if LastClose(p, cs, k - 1).Some? {
        var j: nat :| LatestBefore(p, cs, k - 1, j) && LastClose(p, cs, k - 1).value == cs[j].close;
        assert LatestBefore(p, cs, k, j);
      }
    }
  }

  /**
   A time exit is paid at the close of the last candle after the signal and before the one that ends the trade, and
   at nothing exactly if there is none.  With strictly rising times that is the latest candle within the hold.
   */
  lemma TimeExitPrice(p: Plan, entry: Option<real>, raw: seq<Candle>, cs: seq<Candle>, k: nat)
    requires InTimeOrder(cs, raw) && EndsAt(p, cs, k) && Overdue(p, cs[k])
    ensures match OutcomeOf(p, entry, raw).exitPrice
            case None => forall j | 0 <= j < k :: !After(p, cs[j])
            case Some(price) => exists j: nat :: LatestBefore(p, cs, k, j) && price == cs[j].close
    ensures (forall i, j | 0 <= i < j < |cs| :: cs[i].ts < cs[j].ts) ==>
              forall j: nat | j < |cs| ::
                LatestBefore(p, cs, k, j) <==>
                  && After(p, cs[j]) && !Overdue(p, cs[j])
                  && forall i | 0 <= i < |cs| && After(p, cs[i]) && !Overdue(p, cs[i]) :: cs[i].ts <= cs[j].ts
  {
    hide MfeR, LastClose;
    ChronologicalIs(cs, raw);
    EndIsFirstDecisive(p, cs);
    LastCloseIsLatest(p, cs, k);
    assert IsPast(p, cs[k]) && forall j | 0 <= j < k && After(p, cs[j]) :: !Overdue(p, cs[j]);
    if forall i, j | 0 <= i < j < |cs| :: cs[i].ts < cs[j].ts {
      forall j: nat | j < |cs| && LatestBefore(p, cs, k, j)
        ensures forall i | 0 <= i < |cs| && After(p, cs[i]) && !Overdue(p, cs[i]) :: cs[i].ts <= cs[j].ts
      {
        assert !Overdue(p, cs[j]);
      }
    }
  }

  // ----- Excursions -----

  /** `best` is the largest of zero and the reaches of the first `n` candles after the signal. */
  ghost predicate IsBestReach(p: Plan, entry: real, cs: seq<Candle>, n: nat, best: real)
    requires n <= |cs|
  {
    && best >= 0.0 && (forall j | 0 <= j < n && After(p, cs[j]) :: Reach(p, entry, cs[j]) <= best)
    && (best == 0.0 || exists j | 0 <= j < n && After(p, cs[j]) :: Reach(p, entry, cs[j]) == best)
  }

  ghost predicate IsWorstSetback(p: Plan, entry: real, cs: seq<Candle>, n: nat, worst: real)
    requires n <= |cs|
  {
    && worst >= 0.0 && (forall j | 0 <= j < n && After(p, cs[j]) :: Setback(p, entry, cs[j]) <= worst)
    && (worst == 0.0 || exists j | 0 <= j < n && After(p, cs[j]) :: Setback(p, entry, cs[j]) == worst)
  }

  lemma {:induction false} MovesAreExtremes(p: Plan, entry: real, cs: seq<Candle>, n: nat)
    requires n <= |cs|
    ensures IsBestReach(p, entry, cs, n, BestMove(p, entry, cs, n))
    ensures IsWorstSetback(p, entry, cs, n, WorstMove(p, entry, cs, n))
  {
    if n == 0 {
    } else {
      MovesAreExtremes(p, entry, cs, n - 1);
      assert After(p, cs[n-1]) <==> IsFresh(p, cs[n-1]);
      assert Reach(p, entry, cs[n-1]) == Favourable(p, entry, cs[n-1]);
      assert Setback(p, entry, cs[n-1]) == Adverse(p, entry, cs[n-1]);
    }
  }

  ghost function Distance(p: Plan, entry: real): real { if entry >= p.sl then entry - p.sl else p.sl - entry }

  lemma MfeTimesDistance(p: Plan, entry: real, cs: seq<Candle>, n: nat, mfe: real)
    requires n <= |cs| && mfe == MfeR(p, Some(entry), cs, n)
    ensures if entry != 0.0 && entry != p.sl then mfe * Distance(p, entry) == BestMove(p, entry, cs, n) else mfe == 0.0
  {
    hide BestMove;
    var best, d := BestMove(p, entry, cs, n), Distance(p, entry);
    if entry != p.sl {
      assert best / d * d == best;
    }
  }

  lemma SameReach(p: Plan, entry: real, cs: seq<Candle>, n: nat, a: real, b: real)
    requires n <= |cs| && a == b && IsBestReach(p, entry, cs, n, a)
    ensures IsBestReach(p, entry, cs, n, b)
  {
  }

  /** The favourable excursion, times the stop distance, is the best reach up to and including the deciding candle. */
  lemma MfeInPrices(p: Plan, entry: real, raw: seq<Candle>, cs: seq<Candle>, k: nat, mfe: real)
    requires InTimeOrder(cs, raw) && EndsAt(p, cs, k) && mfe == OutcomeOf(p, Some(entry), raw).mfeR
    ensures if entry != 0.0 && entry != p.sl then IsBestReach(p, entry, cs, k + 1, mfe * Distance(p, entry))
            else mfe == 0.0
    ensures OutcomeOf(p, None, raw).mfeR == 0.0
  {
    hide IsBestReach, LastClose, BestMove, Distance, LeavesRunning;
    ChronologicalIs(cs, raw);
    EndIsFirstDecisive(p, cs);
    MovesAreExtremes(p, entry, cs, k + 1);
    MfeTimesDistance(p, entry, cs, k + 1, mfe);
    if entry != 0.0 && entry != p.sl {
      SameReach(p, entry, cs, k + 1, BestMove(p, entry, cs, k + 1), mfe * Distance(p, entry));
    }
  }

  /** The stop counts down to its own price. */
  ghost function SignedStop(p: Plan, entry: real): real { if p.side.Buy? then entry - p.sl else p.sl - entry }

  /** What the walk of the adverse excursion has collected when it ends at candle `k`. */
  ghost predicate IsAdverse(p: Plan, entry: real, cs: seq<Candle>, k: nat, adverse: real)
    requires k < |cs|
  {
    if Overdue(p, cs[k]) then IsWorstSetback(p, entry, cs, k, adverse)
    else if AtStop(p, cs[k]) then
      exists worst ::
        IsWorstSetback(p, entry, cs, k, worst)
        && adverse == if worst >= SignedStop(p, entry) then worst else SignedStop(p, entry)
    else IsWorstSetback(p, entry, cs, k + 1, adverse)
  }

  lemma AdverseInPrices(p: Plan, entry: real, cs: seq<Candle>)
    ensures (forall k | 0 <= k < |cs| :: LeavesRunning(p, cs[k])) ==>
              IsWorstSetback(p, entry, cs, |cs|, AdverseOf(p, entry, cs))
    ensures forall k: nat | EndsAt(p, cs, k) :: IsAdverse(p, entry, cs, k, AdverseOf(p, entry, cs))
  {
    hide IsWorstSetback, LeavesRunning, WorstMove;
    EndIsFirstDecisive(p, cs);
    MovesAreExtremes(p, entry, cs, |cs|);
    match FirstDecisive(p, cs, |cs|) {
      case None =>
      case Some(k) =>
        MovesAreExtremes(p, entry, cs, k);
        MovesAreExtremes(p, entry, cs, k + 1);
        assert IsPast(p, cs[k]) == Overdue(p, cs[k]) && HitsStop(p, cs[k]) == AtStop(p, cs[k]);
    }
  }

  /**
   The adverse excursion, times the stop distance, is the worst setback before the end; the deciding candle counts
   in full if it took the target, down to the stop if it hit the stop, and not at all if it was past the hold.
   */
  lemma MaeInPrices(p: Plan, entry: real, raw: seq<Candle>, cs: seq<Candle>)
    requires InTimeOrder(cs, raw)
    ensures raw == [] || entry == p.sl ==> MaeOf(p, entry, raw) == 0.0
    ensures raw != [] && entry != p.sl ==>
              var adverse := MaeOf(p, entry, raw) * Distance(p, entry);
              && ((forall k | 0 <= k < |cs| :: LeavesRunning(p, cs[k])) ==>
                    IsWorstSetback(p, entry, cs, |cs|, adverse))
              && (forall k: nat | EndsAt(p, cs, k) :: IsAdverse(p, entry, cs, k, adverse))
  {
    hide IsWorstSetback, LeavesRunning, IsAdverse, EndsAt, AdverseOf;
    ChronologicalIs(cs, raw);
    AdverseInPrices(p, entry, cs);
    if raw != [] && entry != p.sl {
      var adverse := AdverseOf(p, entry, cs);
      assert Abs(entry - p.sl) == Distance(p, entry);
      assert adverse / Distance(p, entry) * Distance(p, entry) == adverse;
      assert MaeOf(p, entry, raw) * Distance(p, entry) == adverse;
    }
  }

  // ----- Results -----

  ghost function Towards(side: Side, from: real, x: real): real {
    match side
    case Buy => x - from
    case Sell => from - x
  }

  /** Both scores, times the stop distance, are the move to the exit price; they differ in what counts as no exit. */
  lemma ScoresInPrices(p: Plan, entry: real, exit: Option<real>)
    ensures match ExitR(p, entry, exit)
            case None => exit.None? || entry == p.sl
            case Some(r) => exit.Some? && entry != p.sl && r * Distance(p, entry) == Towards(p.side, entry, exit.value)
    ensures var r := BacktestExitR(p, entry, exit);
            if exit.None? || exit.value == 0.0 || entry == p.sl then r == 0.0
            else r * Distance(p, entry) == Towards(p.side, entry, exit.value)
  {
    if exit.Some? && entry != p.sl {
      var q := Towards(p.side, entry, exit.value) / Distance(p, entry);
      assert q * Distance(p, entry) == Towards(p.side, entry, exit.value);
    }
  }

  /** Between the largest loss and the largest gain allowed. */
  ghost function Within(low: real, x: real, high: real): real {
    if x <= low then low else if x >= high then high else x
  }

  lemma QuotientTimes(m: real, entry: real, x: real)
    requires entry > 0.0
    ensures m / entry * x * entry == m * x
  {
    var q := m / entry;
    assert q * entry == m;
    assert q * x * entry == (q * entry) * x;
  }

  ghost function LossDistance(entry: real, sl: real): real { if entry >= sl then entry - sl else sl - entry }

  ghost function GainDistance(entry: real, tp: real): real { if tp >= entry then tp - entry else entry - tp }

  /** The price move a verdict pays: to the stop, to the target, or to the exit price kept between the two. */
  ghost function PaidMove(outcome: Result, side: Side, entry: real, sl: real, tp: real, exit: Option<real>): real {
    match outcome
    case Stop => -LossDistance(entry, sl)
    case TakeProfit => GainDistance(entry, tp)
    case TimeExit =>
      if exit.None? then 0.0
      else Within(-LossDistance(entry, sl), Towards(side, entry, exit.value), GainDistance(entry, tp))
    case NoData => 0.0
    case StillOpen => 0.0
  }

  lemma FractionIsPaidMove(outcome: Result, side: Side, entry: real, sl: real, tp: real, exit: Option<real>)
    requires entry > 0.0
    ensures RealisedFraction(outcome, side, entry, sl, tp, exit) == PaidMove(outcome, side, entry, sl, tp, exit) / entry
  {
    var m := Sign(side);
    assert exit.Some? ==> m * (exit.value - entry) == Towards(side, entry, exit.value);
    ZeroQuotient(entry);
  }

  /**
   The dollar result, times the entry price, is the paid move on one and a half times the balance; without a
   positive entry price it is nothing.
   */
  lemma PnlInPrices(outcome: Result, side: Side, entry: real, sl: real, tp: real, exit: Option<real>, balance: real)
    ensures var pnl := CalcPnl(outcome, side, entry, sl, tp, exit, balance);
            if entry <= 0.0 then pnl == 0.0
            else pnl * entry == PaidMove(outcome, side, entry, sl, tp, exit) * (1.5 * balance)
  {
    hide RealisedFraction, PaidMove;
    PnlIsFractionOfNotional(outcome, side, entry, sl, tp, exit, balance);
    if entry > 0.0 {
      hide CalcPnl;
      FractionIsPaidMove(outcome, side, entry, sl, tp, exit);
      var m := PaidMove(outcome, side, entry, sl, tp, exit);
      QuotientTimes(m, entry, 1.5 * balance);
      assert balance * NOTIONAL_RATIO == 1.5 * balance;
    }
  }
}
