/**
 Scoring a signal on forward candles: the outcome walk, the separate adverse-excursion walk of the labeler, and
 the dollar result of a trade.  Candles arrive newest first; both walks go through them in time order.
 */
module Outcome {
  import opened Market

  datatype Result = NoData | Stop | TakeProfit | TimeExit | StillOpen

  datatype Scored = Scored(outcome: Result, elapsedMin: Option<int>, exitPrice: Option<real>, mfeR: real)

  /** What the walks are told about the trade. */
  datatype Plan = Plan(side: Side, sl: real, tp: real, signalTs: int, maxHoldMs: int)

  const MS_PER_MIN: int := 60000
  const NOTIONAL_RATIO: real := 1.5

  predicate IsFresh(p: Plan, c: Candle) { c.ts > p.signalTs }

  predicate IsPast(p: Plan, c: Candle) { c.ts - p.signalTs > p.maxHoldMs }

  predicate HitsStop(p: Plan, c: Candle) { if p.side.Buy? then c.low <= p.sl else c.high >= p.sl }

  predicate HitsTarget(p: Plan, c: Candle) { if p.side.Buy? then c.high >= p.tp else c.low <= p.tp }

  function Favourable(p: Plan, entry: real, c: Candle): real {
    if p.side.Buy? then c.high - entry else entry - c.low
  }

  function Adverse(p: Plan, entry: real, c: Candle): real {
    if p.side.Buy? then entry - c.low else c.high - entry
  }

  // ----- The declarative reading -----

  ghost function Chronological(raw: seq<Candle>): (cs: seq<Candle>)
    ensures |cs| == |raw|
    ensures forall k | 0 <= k < |cs| :: cs[k] == raw[|raw| - 1 - k]
  {
    seq(|raw|, k requires 0 <= k < |raw| => raw[|raw| - 1 - k])
  }

  /** A candle that ends the walk: after the signal, and past the hold or touching a level. */
  ghost predicate Decisive(p: Plan, c: Candle) {
    IsFresh(p, c) && (IsPast(p, c) || HitsStop(p, c) || HitsTarget(p, c))
  }

  ghost function FirstDecisive(p: Plan, cs: seq<Candle>, n: nat): (at: Option<nat>)
    requires n <= |cs|
    ensures at.Some? ==> at.value < n
  {
    if n == 0 then None
    else
      var before := FirstDecisive(p, cs, n - 1);
      if before.Some? then before else if Decisive(p, cs[n-1]) then Some(n - 1) else None
  }

  /** Close of the latest candle after the signal among the first `n`. */
  ghost function LastClose(p: Plan, cs: seq<Candle>, n: nat): Option<real>
    requires n <= |cs|
  {
    if n == 0 then None
    else if IsFresh(p, cs[n-1]) then Some(cs[n-1].close)
    else LastClose(p, cs, n - 1)
  }

  ghost function BestMove(p: Plan, entry: real, cs: seq<Candle>, n: nat): real
    requires n <= |cs|
  {
    if n == 0 then 0.0
    else
      var before := BestMove(p, entry, cs, n - 1);
      if IsFresh(p, cs[n-1]) then Max(before, Favourable(p, entry, cs[n-1])) else before
  }

  ghost function WorstMove(p: Plan, entry: real, cs: seq<Candle>, n: nat): real
    requires n <= |cs|
  {
    if n == 0 then 0.0
    else
      var before := WorstMove(p, entry, cs, n - 1);
      if IsFresh(p, cs[n-1]) then Max(before, Adverse(p, entry, cs[n-1])) else before
  }

  /** An entry price of zero counts as absent. */
  predicate HasEntry(entry: Option<real>) { entry.Some? && entry.value != 0.0 }

  function StopDistance(p: Plan, entry: Option<real>): real {
    if HasEntry(entry) then Abs(entry.value - p.sl) else 0.0
  }

  ghost function MfeR(p: Plan, entry: Option<real>, cs: seq<Candle>, n: nat): real
    requires n <= |cs|
  {
    if StopDistance(p, entry) > 0.0 then BestMove(p, entry.value, cs, n) / StopDistance(p, entry) else 0.0
  }

  /** The walk ends at the first decisive candle; the hold is looked at first, then the stop, then the target. */
  ghost function OutcomeOf(p: Plan, entry: Option<real>, raw: seq<Candle>): Scored {
    var cs := Chronological(raw);
    if raw == [] then Scored(NoData, None, None, 0.0)
    else
      match FirstDecisive(p, cs, |cs|)
      case None => Scored(StillOpen, None, None, 0.0)
      case Some(k) =>
        var minutes := Some((cs[k].ts - p.signalTs) / MS_PER_MIN);
        var mfe := MfeR(p, entry, cs, k + 1);
        if IsPast(p, cs[k]) then Scored(TimeExit, minutes, LastClose(p, cs, k), mfe)
        else if HitsStop(p, cs[k]) then Scored(Stop, minutes, Some(p.sl), mfe)
        else Scored(TakeProfit, minutes, Some(p.tp), mfe)
  }

  /** Signed distance from entry to the stop: positive when the stop is on the losing side. */
  function StopMove(p: Plan, entry: real): real { if p.side.Buy? then entry - p.sl else p.sl - entry }

  /** Worst move of the walk: a stopped candle counts only down to the stop, a candle past the hold not at all. */
  ghost function AdverseOf(p: Plan, entry: real, cs: seq<Candle>): real {
    match FirstDecisive(p, cs, |cs|)
    case None => WorstMove(p, entry, cs, |cs|)
    case Some(k) =>
      if IsPast(p, cs[k]) then WorstMove(p, entry, cs, k)
      else if HitsStop(p, cs[k]) then Max(WorstMove(p, entry, cs, k), StopMove(p, entry))
      else WorstMove(p, entry, cs, k + 1)
  }

  ghost function MaeOf(p: Plan, entry: real, raw: seq<Candle>): real {
    if raw == [] || entry == p.sl then 0.0
    else AdverseOf(p, entry, Chronological(raw)) / Abs(entry - p.sl)
  }

  // ----- The two walks -----

  lemma {:induction false} DecisiveStays(p: Plan, cs: seq<Candle>, k: nat, n: nat)
    requires k < n <= |cs| && FirstDecisive(p, cs, k).None? && Decisive(p, cs[k])
    ensures FirstDecisive(p, cs, n) == Some(k)
    decreases n
  {
    if k + 1 == n {
    } else {
      DecisiveStays(p, cs, k, n - 1);
    }
  }

  method CheckOutcome(raw: seq<Candle>, p: Plan, entry: Option<real>) returns (r: Scored)
    ensures r == OutcomeOf(p, entry, raw)
  {
    if raw == [] {
      return Scored(NoData, None, None, 0.0);
    }
    ghost var cs := Chronological(raw);
    var slDist := StopDistance(p, entry);
    var lastClose: Option<real> := None;
    var mfe := 0.0;
    for i := |raw| downto 0
      invariant FirstDecisive(p, cs, |raw| - i).None?
      invariant lastClose == LastClose(p, cs, |raw| - i)
      invariant slDist > 0.0 ==> mfe == BestMove(p, entry.value, cs, |raw| - i)
    {
      var c := raw[i];
      ghost var k := |raw| - 1 - i;
      assert c == cs[k];
      if c.ts <= p.signalTs {
        continue;
      }
      var elapsedMs := c.ts - p.signalTs;
      if slDist > 0.0 {
        mfe := Max(mfe, Favourable(p, entry.value, c));
      }
      var mfeR := if slDist > 0.0 then mfe / slDist else 0.0;
      assert mfeR == MfeR(p, entry, cs, k + 1);
      if Decisive(p, c) {
        DecisiveStays(p, cs, k, |cs|);
      }
      if elapsedMs > p.maxHoldMs {
        return Scored(TimeExit, Some(elapsedMs / MS_PER_MIN), lastClose, mfeR);
      }
      lastClose := Some(c.close);
      var mins := elapsedMs / MS_PER_MIN;
      if p.side.Buy? {
        if c.low <= p.sl { return Scored(Stop, Some(mins), Some(p.sl), mfeR); }
        if c.high >= p.tp { return Scored(TakeProfit, Some(mins), Some(p.tp), mfeR); }
      } else {
        if c.high >= p.sl { return Scored(Stop, Some(mins), Some(p.sl), mfeR); }
        if c.low <= p.tp { return Scored(TakeProfit, Some(mins), Some(p.tp), mfeR); }
      }
    }
    r := Scored(StillOpen, None, None, 0.0);
  }

  method ComputeMaeR(raw: seq<Candle>, p: Plan, entry: real) returns (maeR: real)
    ensures maeR == MaeOf(p, entry, raw)
  {
    var slDist := Abs(entry - p.sl);
    if raw == [] || slDist <= 0.0 {
      return 0.0;
    }
    ghost var cs := Chronological(raw);
    var mae := 0.0;
    for i := |raw| downto 0
      invariant FirstDecisive(p, cs, |raw| - i).None?
      invariant mae == WorstMove(p, entry, cs, |raw| - i) >= 0.0
    {
      var c := raw[i];
      ghost var k := |raw| - 1 - i;
      assert c == cs[k];
      if c.ts <= p.signalTs {
        continue;
      }
      if Decisive(p, c) {
        DecisiveStays(p, cs, k, |cs|);
      }
      if c.ts - p.signalTs > p.maxHoldMs {
        break;
      }
      if p.side.Buy? {
        if c.low <= p.sl {
          mae := Max(mae, entry - p.sl);
          break;
        }
        mae := Max(mae, entry - c.low);
        if c.high >= p.tp {
          break;
        }
      } else {
        if c.high >= p.sl {
          mae := Max(mae, p.sl - entry);
          break;
        }
        mae := Max(mae, c.high - entry);
        if c.low <= p.tp {
          break;
        }
      }
    }
    assert mae == AdverseOf(p, entry, cs);
    maeR := Max(0.0, mae) / slDist;
  }

  // ----- Results -----

  /** The labeler's exit in R. */
  function ExitR(p: Plan, entry: real, exit: Option<real>): Option<real> {
    if exit.Some? && Abs(entry - p.sl) > 0.0
    then Some(Sign(p.side) * (exit.value - entry) / Abs(entry - p.sl))
    else None
  }

  /** The backtest's exit in R: an absent or zero exit price counts as no move. */
  function BacktestExitR(p: Plan, entry: real, exit: Option<real>): real {
    if exit.Some? && exit.value != 0.0 && Abs(entry - p.sl) > 0.0
    then Sign(p.side) * (exit.value - entry) / Abs(entry - p.sl)
    else 0.0
  }

  function CalcPnl(outcome: Result, side: Side, entry: real, sl: real, tp: real, exit: Option<real>,
                   balance: real): real
  {
    if entry <= 0.0 then 0.0
    else
      var notional := balance * NOTIONAL_RATIO;
      var slDist, tpDist := Abs(entry - sl), Abs(tp - entry);
      match outcome
      case Stop => -(slDist / entry) * notional
      case TakeProfit => tpDist / entry * notional
      case TimeExit =>
        if exit.None? then 0.0
        else
          var move := Max(-slDist, Min(tpDist, Sign(side) * (exit.value - entry)));
          move / entry * notional
      case _ => 0.0
  }

  // ----- Facts about the walks -----

  lemma {:induction false} FirstDecisiveIsFirst(p: Plan, cs: seq<Candle>, n: nat)
    requires n <= |cs|
    ensures match FirstDecisive(p, cs, n)
            case None => forall j | 0 <= j < n :: !Decisive(p, cs[j])
            case Some(k) => Decisive(p, cs[k]) && forall j | 0 <= j < k :: !Decisive(p, cs[j])
  {
    if n == 0 {
    } else {
      FirstDecisiveIsFirst(p, cs, n - 1);
    }
  }

  /** Stop on the losing side of the entry. */
  ghost predicate StopSided(p: Plan, entry: real) { StopMove(p, entry) > 0.0 }

  /** While no candle is decisive the worst move stays short of the stop, and never passes a misplaced one. */
  lemma {:induction false} WorstMoveBounded(p: Plan, entry: real, cs: seq<Candle>, n: nat)
    requires n <= |cs|
    requires forall j | 0 <= j < n && IsFresh(p, cs[j]) :: !HitsStop(p, cs[j])
    ensures 0.0 <= WorstMove(p, entry, cs, n)
    ensures StopSided(p, entry) ==> WorstMove(p, entry, cs, n) < StopMove(p, entry)
    ensures StopMove(p, entry) <= 0.0 ==> WorstMove(p, entry, cs, n) == 0.0
  {
    if n == 0 {
    } else {
      WorstMoveBounded(p, entry, cs, n - 1);
      assert IsFresh(p, cs[n-1]) ==> !HitsStop(p, cs[n-1]);
    }
  }

  lemma AdverseBounds(p: Plan, entry: real, cs: seq<Candle>)
    ensures var at := FirstDecisive(p, cs, |cs|);
            var stopped := at.Some? && !IsPast(p, cs[at.value]) && HitsStop(p, cs[at.value]);
            && 0.0 <= AdverseOf(p, entry, cs)
            && (StopSided(p, entry) ==>
                  AdverseOf(p, entry, cs) <= StopMove(p, entry)
                  && (AdverseOf(p, entry, cs) == StopMove(p, entry) <==> stopped))
            && (!StopSided(p, entry) ==> AdverseOf(p, entry, cs) == 0.0)
  {
    FirstDecisiveIsFirst(p, cs, |cs|);
    match FirstDecisive(p, cs, |cs|) {
      case None => WorstMoveBounded(p, entry, cs, |cs|);
      case Some(k) =>
        WorstMoveBounded(p, entry, cs, k);
        if !HitsStop(p, cs[k]) {
          WorstMoveBounded(p, entry, cs, k + 1);
        }
    }
  }

  lemma Compare(a: real, b: real, d: real)
    requires d > 0.0
    ensures a <= b <==> a * d <= b * d
  {
    if a <= b {
      assert (b - a) * d >= 0.0;
    } else {
      assert (a - b) * d > 0.0;
    }
  }

  lemma Scaled(q: real, d: real, x: real)
    requires d > 0.0 && q * d == x
    ensures (q == 1.0 <==> x == d) && (q <= 1.0 <==> x <= d) && (q >= 0.0 <==> x >= 0.0)
  {
    assert x - d == (q - 1.0) * d;
    if q > 1.0 {
      assert (q - 1.0) * d > 0.0;
    } else if q < 0.0 {
      assert (-q) * d > 0.0;
      assert (1.0 - q) * d > 0.0;
    } else if q < 1.0 {
      assert (1.0 - q) * d > 0.0;
      assert q * d >= 0.0;
    }
  }

  lemma Ratio(x: real, d: real)
    requires d > 0.0
    ensures (x / d == 1.0 <==> x == d) && (x / d <= 1.0 <==> x <= d) && (x / d >= 0.0 <==> x >= 0.0)
  {
    Scaled(x / d, d, x);
  }

  /**
   The two walks agree: with the stop on the losing side, the outcome is a stop exactly when the adverse
   excursion is a full R.  With the stop on the other side the excursion is always zero, stop or not.
   */
  lemma StopMeansFullR(p: Plan, entry: real, raw: seq<Candle>)
    requires entry != p.sl
    ensures 0.0 <= MaeOf(p, entry, raw) <= 1.0
    ensures StopSided(p, entry) ==>
              (OutcomeOf(p, Some(entry), raw).outcome == Stop <==> MaeOf(p, entry, raw) == 1.0)
    ensures !StopSided(p, entry) ==> MaeOf(p, entry, raw) == 0.0
  {
    if raw != [] {
      var cs := Chronological(raw);
      AdverseBounds(p, entry, cs);
      Ratio(AdverseOf(p, entry, cs), Abs(entry - p.sl));
    }
  }

  /** A misplaced stop: the trade is stopped out at once, yet the labeler records no adverse excursion. */
  lemma MisplacedStopWitness()
    ensures var p := Plan(Buy, 110.0, 120.0, 0, 1000);
            var raw := [Candle(1, 100.0, 101.0, 99.0, 100.0)];
            OutcomeOf(p, Some(100.0), raw).outcome == Stop && MaeOf(p, 100.0, raw) == 0.0
  {
    var p := Plan(Buy, 110.0, 120.0, 0, 1000);
    var raw := [Candle(1, 100.0, 101.0, 99.0, 100.0)];
    var cs := Chronological(raw);
    assert Decisive(p, cs[0]);
    DecisiveStays(p, cs, 0, 1);
    StopMeansFullR(p, 100.0, raw);
  }

  lemma {:induction false} BestMoveSamePlan(p: Plan, q: Plan, entry: real, cs: seq<Candle>, n: nat)
    requires n <= |cs| && q == p.(maxHoldMs := q.maxHoldMs)
    ensures BestMove(p, entry, cs, n) == BestMove(q, entry, cs, n)
  {
    if n == 0 {
    } else {
      BestMoveSamePlan(p, q, entry, cs, n - 1);
    }
  }

  /** Waiting longer never changes a stop or target verdict, nor its price, time and excursion. */
  lemma LongerHoldSameVerdict(p: Plan, hold: int, entry: Option<real>, raw: seq<Candle>)
    requires p.maxHoldMs <= hold
    requires OutcomeOf(p, entry, raw).outcome in {Stop, TakeProfit}
    ensures OutcomeOf(p.(maxHoldMs := hold), entry, raw) == OutcomeOf(p, entry, raw)
  {
    var cs, q := Chronological(raw), p.(maxHoldMs := hold);
    FirstDecisiveIsFirst(p, cs, |cs|);
    FirstDecisiveIsFirst(q, cs, |cs|);
    var k := FirstDecisive(p, cs, |cs|).value;
    assert Decisive(q, cs[k]);
    if HasEntry(entry) {
      BestMoveSamePlan(p, q, entry.value, cs, k + 1);
    }
  }

  /** Best move among the candles after the signal and not past the hold, up to the one that ends the walk. */
  ghost function MoveInsideHold(p: Plan, entry: real, cs: seq<Candle>): real {
    match FirstDecisive(p, cs, |cs|)
    case None => BestMove(p, entry, cs, |cs|)
    case Some(k) => if IsPast(p, cs[k]) then BestMove(p, entry, cs, k) else BestMove(p, entry, cs, k + 1)
  }

  lemma QuotientMonotone(x: real, y: real, d: real)
    requires d > 0.0
    ensures x <= y <==> x / d <= y / d
  {
    var a, b := x / d, y / d;
    assert a * d == x && b * d == y;
    Compare(a, b, d);
  }

  lemma SameQuotient(x: real, y: real, d: real)
    requires d > 0.0
    ensures x / d == y / d <==> x == y
    ensures 0.0 / d == 0.0
  {
    QuotientMonotone(x, y, d);
    QuotientMonotone(y, x, d);
  }

  /**
   The reported favourable excursion is the best move inside the hold, except that a time exit also counts the
   first candle past the hold when that one is better still, and an open trade reports zero whatever it reached.
   */
  lemma MfeInsideHoldExactly(p: Plan, entry: real, raw: seq<Candle>)
    requires raw != [] && entry != 0.0 && entry != p.sl
    ensures var r, cs := OutcomeOf(p, Some(entry), raw), Chronological(raw);
            var inside := MoveInsideHold(p, entry, cs);
            var at := FirstDecisive(p, cs, |cs|);
            r.mfeR == inside / Abs(entry - p.sl) <==>
              match at
              case None => inside == 0.0
              case Some(k) => IsPast(p, cs[k]) ==> Favourable(p, entry, cs[k]) <= inside
  {
    var cs, d := Chronological(raw), Abs(entry - p.sl);
    var inside := MoveInsideHold(p, entry, cs);
    FirstDecisiveIsFirst(p, cs, |cs|);
    match FirstDecisive(p, cs, |cs|) {
      case None => SameQuotient(inside, 0.0, d);
      case Some(k) => SameQuotient(inside, BestMove(p, entry, cs, k + 1), d);
    }
  }

  // ----- Payoffs, for levels on opposite sides of the entry -----

  ghost predicate WellSided(p: Plan, entry: real) {
    if p.side.Buy? then p.sl < entry < p.tp else p.tp < entry < p.sl
  }

  /** Move of a price in the direction of the trade. */
  function Move(p: Plan, entry: real, price: real): real { Sign(p.side) * (price - entry) }

  /** Before the decisive candle every close lies strictly between the levels and inside the excursions. */
  lemma {:induction false} CloseBeforeDecision(p: Plan, entry: real, cs: seq<Candle>, n: nat)
    requires n <= |cs| && ValidCandles(cs) && WellSided(p, entry)
    requires forall j | 0 <= j < n :: !Decisive(p, cs[j])
    ensures LastClose(p, cs, n).Some? ==>
              var m := Move(p, entry, LastClose(p, cs, n).value);
              && -StopMove(p, entry) < m < Move(p, entry, p.tp)
              && -WorstMove(p, entry, cs, n) <= m <= BestMove(p, entry, cs, n)
  {
    if n == 0 {
    } else {
      CloseBeforeDecision(p, entry, cs, n - 1);
      assert !Decisive(p, cs[n-1]) && ValidCandle(cs[n-1]);
    }
  }

  lemma {:induction false} BestMoveNonNegative(p: Plan, entry: real, cs: seq<Candle>, n: nat)
    requires n <= |cs|
    ensures BestMove(p, entry, cs, n) >= 0.0
  {
    if n == 0 {
    } else {
      BestMoveNonNegative(p, entry, cs, n - 1);
    }
  }

  /** The exit in price terms: within the levels, on a level exactly for a stop or target, inside the excursions. */
  lemma ExitWithinLevels(p: Plan, entry: real, raw: seq<Candle>)
    requires ValidCandles(raw) && WellSided(p, entry)
    requires OutcomeOf(p, Some(entry), raw).exitPrice.Some?
    ensures var r, cs := OutcomeOf(p, Some(entry), raw), Chronological(raw);
            var m := Move(p, entry, r.exitPrice.value);
            && (r.outcome == Stop ==> m == -StopMove(p, entry))
            && (r.outcome == TakeProfit ==> m == Move(p, entry, p.tp))
            && (r.outcome == TimeExit ==> -StopMove(p, entry) < m < Move(p, entry, p.tp))
            && r.outcome in {Stop, TakeProfit, TimeExit}
            && FirstDecisive(p, cs, |cs|).Some?
            && -AdverseOf(p, entry, cs) <= m <= BestMove(p, entry, cs, FirstDecisive(p, cs, |cs|).value + 1)
  {
    var cs := Chronological(raw);
    FirstDecisiveIsFirst(p, cs, |cs|);
    var k := FirstDecisive(p, cs, |cs|).value;
    CloseBeforeDecision(p, entry, cs, k);
    BestMoveNonNegative(p, entry, cs, k + 1);
    WorstMoveBounded(p, entry, cs, k);
    AdverseBounds(p, entry, cs);
  }

  lemma {:induction false} LastClosePositive(p: Plan, cs: seq<Candle>, n: nat)
    requires n <= |cs| && ValidCandles(cs)
    ensures LastClose(p, cs, n).Some? ==> LastClose(p, cs, n).value > 0.0
  {
    if n == 0 {
    } else {
      LastClosePositive(p, cs, n - 1);
      assert ValidCandle(cs[n-1]);
    }
  }

  /** On valid candles no exit price is zero, so the backtest and the labeler score an exit alike. */
  lemma ScoresAgree(p: Plan, entry: real, raw: seq<Candle>)
    requires ValidCandles(raw) && WellSided(p, entry) && entry > 0.0
    ensures var exit := OutcomeOf(p, Some(entry), raw).exitPrice;
            && (exit.Some? ==> exit.value > 0.0)
            && (ExitR(p, entry, exit) == if exit.Some? then Some(BacktestExitR(p, entry, exit)) else None)
  {
    var cs := Chronological(raw);
    FirstDecisiveIsFirst(p, cs, |cs|);
    match FirstDecisive(p, cs, |cs|) {
      case None =>
      case Some(k) =>
        assert ValidCandle(cs[k]);
        LastClosePositive(p, cs, k);
    }
  }

  lemma NegatedQuotient(x: real, d: real)
    requires d != 0.0
    ensures (-x) / d == -(x / d) && d / d == 1.0
  {
  }

  /** The three labels as price moves over the stop distance. */
  lemma LabelInPrices(p: Plan, entry: real, raw: seq<Candle>, k: nat)
    requires WellSided(p, entry) && entry != 0.0 && raw != []
    requires FirstDecisive(p, Chronological(raw), |Chronological(raw)|) == Some(k)
    requires OutcomeOf(p, Some(entry), raw).exitPrice.Some?
    ensures var r, cs, d := OutcomeOf(p, Some(entry), raw), Chronological(raw), StopMove(p, entry);
            && r.mfeR == BestMove(p, entry, cs, k + 1) / d
            && MaeOf(p, entry, raw) == AdverseOf(p, entry, cs) / d
            && ExitR(p, entry, r.exitPrice) == Some(Move(p, entry, r.exitPrice.value) / d)
  {
    hide FirstDecisive, BestMove, AdverseOf, LastClose;
    assert Abs(entry - p.sl) == StopMove(p, entry) > 0.0;
  }

  /** Moves in order stay in order when counted in R, and meet the bounds together. */
  lemma OrderInR(adverse: real, m: real, best: real, target: real, d: real)
    requires d > 0.0 && -adverse <= m <= best && -d <= m <= target
    ensures -(adverse / d) <= m / d <= best / d && -1.0 <= m / d <= target / d
    ensures (m / d == -1.0 <==> m == -d) && (m / d == target / d <==> m == target)
  {
    QuotientMonotone(-adverse, m, d);
    QuotientMonotone(m, best, d);
    QuotientMonotone(-d, m, d);
    QuotientMonotone(m, -d, d);
    QuotientMonotone(m, target, d);
    QuotientMonotone(target, m, d);
    NegatedQuotient(adverse, d);
    NegatedQuotient(d, d);
  }

  /**
   The label is consistent: the realised result in R lies between the adverse and favourable excursions the
   two walks recorded, is at least -1 with equality exactly for a stop, and at most the target with equality
   exactly for a take-profit.
   */
  lemma ExitWithinExcursions(p: Plan, entry: real, raw: seq<Candle>)
    requires ValidCandles(raw) && WellSided(p, entry) && entry != 0.0
    requires OutcomeOf(p, Some(entry), raw).exitPrice.Some?
    ensures var r := OutcomeOf(p, Some(entry), raw);
            var exit, target := ExitR(p, entry, r.exitPrice), Move(p, entry, p.tp) / StopMove(p, entry);
            && exit.Some?
            && -MaeOf(p, entry, raw) <= exit.value <= r.mfeR
            && -1.0 <= exit.value <= target
            && (exit.value == -1.0 <==> r.outcome == Stop)
            && (exit.value == target <==> r.outcome == TakeProfit)
  {
    hide OutcomeOf, MaeOf, ExitR, BestMove, AdverseOf, FirstDecisive, LastClose, Chronological, ValidCandles;
    var r, cs := OutcomeOf(p, Some(entry), raw), Chronological(raw);
    ExitWithinLevels(p, entry, raw);
    var k := FirstDecisive(p, cs, |cs|).value;
    var m, target := Move(p, entry, r.exitPrice.value), Move(p, entry, p.tp);
    LabelInPrices(p, entry, raw, k);
    OrderInR(AdverseOf(p, entry, cs), m, BestMove(p, entry, cs, k + 1), target, StopMove(p, entry));
  }

  /** A time exit's move, kept between the levels. */
  function ClippedMove(side: Side, entry: real, sl: real, tp: real, exit: Option<real>): (m: real)
    ensures -Abs(entry - sl) <= m <= Abs(tp - entry)
  {
    if exit.None? then 0.0
    else Max(-Abs(entry - sl), Min(Abs(tp - entry), Sign(side) * (exit.value - entry)))
  }

  /** The price move a trade realises, as a fraction of its entry. */
  function RealisedFraction(outcome: Result, side: Side, entry: real, sl: real, tp: real, exit: Option<real>): real {
    if entry <= 0.0 then 0.0
    else
      match outcome
      case Stop => -Abs(entry - sl) / entry
      case TakeProfit => Abs(tp - entry) / entry
      case TimeExit => ClippedMove(side, entry, sl, tp, exit) / entry
      case _ => 0.0
  }

  lemma ZeroQuotient(d: real)
    requires d != 0.0
    ensures 0.0 / d == 0.0
  {
  }

  /** Every result is a price move on the notional, whatever the outcome. */
  lemma PnlIsFractionOfNotional(outcome: Result, side: Side, entry: real, sl: real, tp: real, exit: Option<real>,
                                balance: real)
    ensures CalcPnl(outcome, side, entry, sl, tp, exit, balance)
         == RealisedFraction(outcome, side, entry, sl, tp, exit) * (balance * NOTIONAL_RATIO)
  {
    if entry > 0.0 {
      NegatedQuotient(Abs(entry - sl), entry);
      ZeroQuotient(entry);
    }
  }

  datatype Label = Label(outcome: Result, elapsedMin: Option<int>, exitPrice: Option<real>, exitR: Option<real>,
                         mfeR: real, maeR: real)

  /**
   The label of one logged signal.  On valid candles with the levels on their own sides, both walks tell one
   story: a stop exactly when the adverse excursion is 1R, and the result between the two excursions.
   */
  method LabelSignal(raw: seq<Candle>, p: Plan, close: real) returns (l: Label)
    ensures var r := OutcomeOf(p, Some(close), raw);
            l == Label(r.outcome, r.elapsedMin, r.exitPrice, ExitR(p, close, r.exitPrice), r.mfeR, MaeOf(p, close, raw))
    ensures ValidCandles(raw) && WellSided(p, close) && close != 0.0 ==>
              && 0.0 <= l.maeR <= 1.0
              && (l.outcome == Stop <==> l.maeR == 1.0)
              && (l.exitR.Some? ==> -l.maeR <= l.exitR.value <= l.mfeR)
              && (l.exitR.Some? <==> l.exitPrice.Some?)
  {
    hide OutcomeOf, MaeOf;
    var scored := CheckOutcome(raw, p, Some(close));
    var slDist := Abs(close - p.sl);
    var exitR: Option<real> := None;
    if scored.exitPrice.Some? && slDist > 0.0 {
      var direction := if p.side.Buy? then 1.0 else -1.0;
      exitR := Some(direction * (scored.exitPrice.value - close) / slDist);
    }
    assert exitR == ExitR(p, close, scored.exitPrice);
    var maeR := ComputeMaeR(raw, p, close);
    if ValidCandles(raw) && WellSided(p, close) && close != 0.0 {
      StopMeansFullR(p, close, raw);
      if scored.exitPrice.Some? {
        ExitWithinExcursions(p, close, raw);
      }
    }
    l := Label(scored.outcome, scored.elapsedMin, scored.exitPrice, exitR, scored.mfeR, maeR);
  }

  /** The dollar result is the realised move on the notional: the clip of a time exit never bites. */
  lemma PnlIsRealisedMove(p: Plan, entry: real, raw: seq<Candle>, balance: real)
    requires ValidCandles(raw) && WellSided(p, entry) && entry > 0.0
    requires OutcomeOf(p, Some(entry), raw).exitPrice.Some?
    ensures var r := OutcomeOf(p, Some(entry), raw);
            CalcPnl(r.outcome, p.side, entry, p.sl, p.tp, r.exitPrice, balance)
              == Move(p, entry, r.exitPrice.value) / entry * (balance * NOTIONAL_RATIO)
  {
    hide CalcPnl, OutcomeOf;
    var r := OutcomeOf(p, Some(entry), raw);
    ExitWithinLevels(p, entry, raw);
    PnlIsFractionOfNotional(r.outcome, p.side, entry, p.sl, p.tp, r.exitPrice, balance);
  }

  lemma Distances(entry: real, sl: real, tp: real)
    ensures Abs(entry - sl) >= 0.0 && Abs(tp - entry) >= 0.0
  {
  }

  /** A stop moves no more than a time exit, a time exit no more than the target. */
  lemma FractionsOrdered(side: Side, entry: real, sl: real, tp: real, exit: Option<real>)
    ensures RealisedFraction(Stop, side, entry, sl, tp, exit)
         <= RealisedFraction(TimeExit, side, entry, sl, tp, exit)
         <= RealisedFraction(TakeProfit, side, entry, sl, tp, exit)
    ensures RealisedFraction(Stop, side, entry, sl, tp, exit) <= 0.0
         <= RealisedFraction(TakeProfit, side, entry, sl, tp, exit)
  {
    hide ClippedMove, Abs;
    if entry > 0.0 {
      var slDist, tpDist := Abs(entry - sl), Abs(tp - entry);
      var move := ClippedMove(side, entry, sl, tp, exit);
      Distances(entry, sl, tp);
      QuotientMonotone(-slDist, move, entry);
      QuotientMonotone(move, tpDist, entry);
      QuotientMonotone(-slDist, 0.0, entry);
      QuotientMonotone(0.0, tpDist, entry);
      ZeroQuotient(entry);
    }
  }

  lemma ScaledOrder(x: real, y: real, k: real)
    requires x <= y && k >= 0.0
    ensures x * k <= y * k
  {
    NonNegativeProduct(y - x, k);
  }

  /** For the same trade a stop never pays more than a time exit, nor a time exit more than the target. */
  lemma PayoffsOrdered(side: Side, entry: real, sl: real, tp: real, exit: Option<real>, balance: real)
    requires balance >= 0.0
    ensures CalcPnl(Stop, side, entry, sl, tp, exit, balance)
         <= CalcPnl(TimeExit, side, entry, sl, tp, exit, balance)
         <= CalcPnl(TakeProfit, side, entry, sl, tp, exit, balance)
    ensures CalcPnl(Stop, side, entry, sl, tp, exit, balance) <= 0.0
         <= CalcPnl(TakeProfit, side, entry, sl, tp, exit, balance)
  {
    hide CalcPnl, RealisedFraction;
    var stop := RealisedFraction(Stop, side, entry, sl, tp, exit);
    var time := RealisedFraction(TimeExit, side, entry, sl, tp, exit);
    var target := RealisedFraction(TakeProfit, side, entry, sl, tp, exit);
    var notional := balance * NOTIONAL_RATIO;
    PnlIsFractionOfNotional(Stop, side, entry, sl, tp, exit, balance);
    PnlIsFractionOfNotional(TimeExit, side, entry, sl, tp, exit, balance);
    PnlIsFractionOfNotional(TakeProfit, side, entry, sl, tp, exit, balance);
    FractionsOrdered(side, entry, sl, tp, exit);
    ScaledOrder(stop, time, notional);
    ScaledOrder(time, target, notional);
    ScaledOrder(stop, 0.0, notional);
    ScaledOrder(0.0, target, notional);
  }
}
