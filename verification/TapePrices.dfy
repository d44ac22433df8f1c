/**
 The replay read back into the tape it was made from: which rows it saw, and which of their prices and times
 decide each figure of its result, side by side for buys and sells.
 */
module TapePrices {
  import opened Market
  import opened TapeReplay
  import opened TapeTheorems

  // ----- From rows to ticks -----

  /** A trade of the signal's instrument, from its entry until the longest horizon. */
  ghost predicate Relevant(sig: Signal, row: Row, maxHorizonM: int) {
    row.symbol == sig.symbol + "-SWAP" && sig.tsEntry <= row.ts && row.ts - sig.tsEntry <= maxHorizonM * 60000
  }

  /** The numbers of the relevant rows, in tape order. */
  ghost function RelevantRows(sig: Signal, rows: seq<Row>, maxHorizonM: int): seq<nat> {
    if rows == [] then []
    else
      var before := RelevantRows(sig, rows[..|rows|-1], maxHorizonM);
      if Relevant(sig, rows[|rows|-1], maxHorizonM) then before + [|rows| - 1] else before
  }

  lemma {:induction false} RelevantRowsExact(sig: Signal, rows: seq<Row>, maxHorizonM: int)
    ensures var idx := RelevantRows(sig, rows, maxHorizonM);
            && (forall k | 0 <= k < |idx| :: idx[k] < |rows| && Relevant(sig, rows[idx[k]], maxHorizonM))
            && (forall j, k | 0 <= j < k < |idx| :: idx[j] < idx[k])
            && (forall i: nat | i < |rows| && Relevant(sig, rows[i], maxHorizonM) :: i in idx)
  {
    hide Relevant;
    if rows == [] {
    } else {
      var init, before := rows[..|rows|-1], RelevantRows(sig, rows[..|rows|-1], maxHorizonM);
      var idx := RelevantRows(sig, rows, maxHorizonM);
      RelevantRowsExact(sig, init, maxHorizonM);
      assert before <= idx;
      forall i: nat | i < |rows| && Relevant(sig, rows[i], maxHorizonM) ensures i in idx {
        if i < |init| {
          assert init[i] == rows[i];
        } else {
          assert idx[|before|] == i;
        }
      }
    }
  }

  /** How far a price has gone the signal's way. */
  ghost function Gain(sig: Signal, price: real): real {
    match sig.side
    case Buy => price - sig.entry
    case Sell => sig.entry - price
  }

  ghost function StopDistance(sig: Signal): real {
    if sig.entry >= sig.sl then sig.entry - sig.sl else sig.sl - sig.entry
  }

  ghost function TargetDistance(sig: Signal): real {
    if sig.tp >= sig.entry then sig.tp - sig.entry else sig.entry - sig.tp
  }

  lemma {:induction false} WindowIsRelevant(sig: Signal, rows: seq<Row>, maxHorizonM: int)
    ensures var w := Window(rows, sig.symbol, sig.tsEntry, sig.tsEntry + maxHorizonM * MS_PER_MIN);
            var idx := RelevantRows(sig, rows, maxHorizonM);
            |w| == |idx| && forall k | 0 <= k < |idx| :: idx[k] < |rows| && w[k] == rows[idx[k]]
  {
    if rows == [] {
    } else {
      WindowIsRelevant(sig, rows[..|rows|-1], maxHorizonM);
    }
  }

  lemma RatioLevel(x: real, y: real, d: real)
    requires d > 0.0
    ensures x / d * d == x
    ensures x / d >= y / d <==> x >= y
    ensures x / d <= -1.0 <==> x <= -d
  {
    var a, b := x / d, y / d;
    assert a * d == x && b * d == y;
    if a >= b { assert (a - b) * d >= 0.0; } else { assert (b - a) * d > 0.0; }
    if a <= -1.0 { assert (-1.0 - a) * d >= 0.0; } else { assert (a + 1.0) * d > 0.0; }
  }

  /** A tick in R is a gain in stop distances; target and stop are reached at their distances. */
  lemma TickInPrices(sig: Signal, price: real)
    requires sig.entry != sig.sl
    ensures RUnits(sig, price) * StopDistance(sig) == Gain(sig, price)
    ensures RUnits(sig, price) >= SetupOf(sig).tpR <==> Gain(sig, price) >= TargetDistance(sig)
    ensures RUnits(sig, price) <= -1.0 <==> Gain(sig, price) <= -StopDistance(sig)
    ensures SetupOf(sig).tpR * StopDistance(sig) == TargetDistance(sig) && SetupOf(sig).tsEntry == sig.tsEntry
  {
    RatioLevel(Gain(sig, price), TargetDistance(sig), StopDistance(sig));
    RatioLevel(TargetDistance(sig), 0.0, StopDistance(sig));
  }

  /** The two distances the result reports: the stop's in percent of the entry, the target's in stop distances. */
  lemma ReportedDistances(sig: Signal)
    requires sig.entry != 0.0 && sig.entry != sig.sl
    ensures StopDistancePct(sig) * sig.entry == 100.0 * StopDistance(sig)
    ensures SetupOf(sig).tpR * StopDistance(sig) == TargetDistance(sig)
  {
    var q := StopDistance(sig) / sig.entry;
    assert q * sig.entry == StopDistance(sig);
    assert StopDistancePct(sig) == q * 100.0;
    TickInPrices(sig, 0.0);
  }

  /**
   The path the replay works on: one point for each relevant row in tape order, with its time, and with its gain
   counted in stop distances.
   */
  lemma PathInPrices(sig: Signal, rows: seq<Row>, maxHorizonM: int)
    requires sig.entry != sig.sl
    ensures var p, idx := TapePath(sig, rows, maxHorizonM), RelevantRows(sig, rows, maxHorizonM);
            |p| == |idx| &&
            forall k | 0 <= k < |idx| ::
              && idx[k] < |rows| && p[k].ts == rows[idx[k]].ts
              && p[k].r * StopDistance(sig) == Gain(sig, rows[idx[k]].price)
              && (p[k].r >= SetupOf(sig).tpR <==> Gain(sig, rows[idx[k]].price) >= TargetDistance(sig))
              && (p[k].r <= -1.0 <==> Gain(sig, rows[idx[k]].price) <= -StopDistance(sig))
  {
    hide RUnits, Window, RelevantRows, Gain, StopDistance, TargetDistance, SetupOf;
    WindowIsRelevant(sig, rows, maxHorizonM);
    var idx := RelevantRows(sig, rows, maxHorizonM);
    forall k | 0 <= k < |idx| && idx[k] < |rows|
      ensures var r := RUnits(sig, rows[idx[k]].price);
              && r * StopDistance(sig) == Gain(sig, rows[idx[k]].price)
              && (r >= SetupOf(sig).tpR <==> Gain(sig, rows[idx[k]].price) >= TargetDistance(sig))
              && (r <= -1.0 <==> Gain(sig, rows[idx[k]].price) <= -StopDistance(sig))
    {
      TickInPrices(sig, rows[idx[k]].price);
    }
  }

  // ----- Touches and excursions -----

  /** The levels lie on their own sides of the entry. */
  ghost predicate Sided(sig: Signal) {
    match sig.side
    case Buy => sig.sl < sig.entry <= sig.tp
    case Sell => sig.tp <= sig.entry < sig.sl
  }

  ghost predicate AtTarget(sig: Signal, price: real) {
    match sig.side
    case Buy => price >= sig.tp
    case Sell => price <= sig.tp
  }

  ghost predicate AtStop(sig: Signal, price: real) {
    match sig.side
    case Buy => price <= sig.sl
    case Sell => price >= sig.sl
  }

  /** Row `i` is the first relevant one at the target. */
  ghost predicate FirstAtTarget(sig: Signal, rows: seq<Row>, maxHorizonM: int, i: nat) {
    && i < |rows| && Relevant(sig, rows[i], maxHorizonM) && AtTarget(sig, rows[i].price)
    && forall j | 0 <= j < i && Relevant(sig, rows[j], maxHorizonM) :: !AtTarget(sig, rows[j].price)
  }

  /** Row `i` is the first relevant one at the stop. */
  ghost predicate FirstAtStop(sig: Signal, rows: seq<Row>, maxHorizonM: int, i: nat) {
    && i < |rows| && Relevant(sig, rows[i], maxHorizonM) && AtStop(sig, rows[i].price)
    && forall j | 0 <= j < i && Relevant(sig, rows[j], maxHorizonM) :: !AtStop(sig, rows[j].price)
  }

  lemma GainAtLevels(sig: Signal, price: real)
    requires Sided(sig)
    ensures AtTarget(sig, price) <==> Gain(sig, price) >= TargetDistance(sig)
    ensures AtStop(sig, price) <==> Gain(sig, price) <= -StopDistance(sig)
  {
  }

  lemma SidedApart(sig: Signal)
    requires Sided(sig)
    ensures sig.entry != sig.sl
  {
  }

  /** A touch of the path is a price at the level. */
  lemma PathTouches(sig: Signal, rows: seq<Row>, maxHorizonM: int)
    requires Sided(sig)
    ensures var c, p, idx := SetupOf(sig), TapePath(sig, rows, maxHorizonM), RelevantRows(sig, rows, maxHorizonM);
            |p| == |idx| &&
            forall k | 0 <= k < |idx| ::
              && idx[k] < |rows| && p[k].ts == rows[idx[k]].ts
              && (Fires(c, TouchTp, p, k) <==> AtTarget(sig, rows[idx[k]].price))
              && (Fires(c, TouchSl, p, k) <==> AtStop(sig, rows[idx[k]].price))
  {
    hide TapePath, RelevantRows, Gain, StopDistance, TargetDistance, SetupOf, Sided, AtTarget, AtStop;
    SidedApart(sig);
    PathInPrices(sig, rows, maxHorizonM);
    var idx := RelevantRows(sig, rows, maxHorizonM);
    forall k | 0 <= k < |idx| && idx[k] < |rows|
      ensures AtTarget(sig, rows[idx[k]].price) <==> Gain(sig, rows[idx[k]].price) >= TargetDistance(sig)
      ensures AtStop(sig, rows[idx[k]].price) <==> Gain(sig, rows[idx[k]].price) <= -StopDistance(sig)
    {
      GainAtLevels(sig, rows[idx[k]].price);
    }
  }

  /**
   The recorded touch times in prices: the target's is the time of the first relevant row at or past the target
   price, the stop's that of the first row at or past the stop price, on opposite sides for buys and sells.
   */
  lemma TouchTimesInPrices(sig: Signal, rows: seq<Row>, maxHorizonM: int, res: Replay)
    requires Sided(sig) && Explains(sig, TapePath(sig, rows, maxHorizonM), res)
    ensures match res.tpMs
            case None =>
              forall i | 0 <= i < |rows| && Relevant(sig, rows[i], maxHorizonM) :: !AtTarget(sig, rows[i].price)
            case Some(ts) => exists i: nat :: FirstAtTarget(sig, rows, maxHorizonM, i) && rows[i].ts == ts
    ensures match res.slMs
            case None =>
              forall i | 0 <= i < |rows| && Relevant(sig, rows[i], maxHorizonM) :: !AtStop(sig, rows[i].price)
            case Some(ts) => exists i: nat :: FirstAtStop(sig, rows, maxHorizonM, i) && rows[i].ts == ts
  {
    hide TapePath, RelevantRows, Relevant, AtTarget, AtStop, Sided, SetupOf;
    SidedApart(sig);
    var c, p, idx := SetupOf(sig), TapePath(sig, rows, maxHorizonM), RelevantRows(sig, rows, maxHorizonM);
    RelevantRowsExact(sig, rows, maxHorizonM);
    PathTouches(sig, rows, maxHorizonM);
    FirstFireIsFirst(c, TouchTp, p, |p|);
    FirstFireIsFirst(c, TouchSl, p, |p|);
    match FirstFire(c, TouchTp, p, |p|) {
      case None =>
      case Some(k) => assert FirstAtTarget(sig, rows, maxHorizonM, idx[k]);
    }
    match FirstFire(c, TouchSl, p, |p|) {
      case None =>
      case Some(k) => assert FirstAtStop(sig, rows, maxHorizonM, idx[k]);
    }
  }

  /** `best` is the largest of zero and the gains of the relevant rows; `worst` the smallest. */
  ghost predicate AreExtremes(sig: Signal, rows: seq<Row>, maxHorizonM: int, worst: real, best: real) {
    && worst <= 0.0 <= best
    && (forall i: nat | i < |rows| && Relevant(sig, rows[i], maxHorizonM) :: worst <= Gain(sig, rows[i].price) <= best)
    && (best == 0.0
        || exists i: nat | i < |rows| && Relevant(sig, rows[i], maxHorizonM) :: Gain(sig, rows[i].price) == best)
    && (worst == 0.0
        || exists i: nat | i < |rows| && Relevant(sig, rows[i], maxHorizonM) :: Gain(sig, rows[i].price) == worst)
  }

  lemma ScaledBetween(worst: real, r: real, best: real, d: real)
    requires worst <= r <= best && d > 0.0
    ensures worst * d <= r * d <= best * d
  {
    NonNegativeProduct(best - r, d);
    NonNegativeProduct(r - worst, d);
  }

  /** A relevant row is a point of the path. */
  lemma TickOfRow(sig: Signal, rows: seq<Row>, maxHorizonM: int, i: nat) returns (k: nat)
    requires sig.entry != sig.sl && i < |rows| && Relevant(sig, rows[i], maxHorizonM)
    ensures var p := TapePath(sig, rows, maxHorizonM);
            k < |p| && p[k].r * StopDistance(sig) == Gain(sig, rows[i].price)
  {
    hide TapePath, RelevantRows, Relevant, Gain, SetupOf, TargetDistance, StopDistance;
    RelevantRowsExact(sig, rows, maxHorizonM);
    PathInPrices(sig, rows, maxHorizonM);
    var idx := RelevantRows(sig, rows, maxHorizonM);
    k :| 0 <= k < |idx| && idx[k] == i;
  }

  /** Bounds of the path in R are bounds of the gains. */
  lemma GainsWithin(sig: Signal, rows: seq<Row>, maxHorizonM: int, worst: real, best: real, i: nat)
    requires sig.entry != sig.sl && i < |rows| && Relevant(sig, rows[i], maxHorizonM)
    requires forall k | 0 <= k < |TapePath(sig, rows, maxHorizonM)| ::
               worst <= TapePath(sig, rows, maxHorizonM)[k].r <= best
    ensures worst * StopDistance(sig) <= Gain(sig, rows[i].price) <= best * StopDistance(sig)
  {
    var k := TickOfRow(sig, rows, maxHorizonM, i);
    hide TapePath, RelevantRows, Relevant, Gain, SetupOf, TargetDistance;
    ScaledBetween(worst, TapePath(sig, rows, maxHorizonM)[k].r, best, StopDistance(sig));
  }

  /** A point of the path is a relevant row. */
  lemma RowOfTick(sig: Signal, rows: seq<Row>, maxHorizonM: int, k: nat) returns (i: nat)
    requires sig.entry != sig.sl && k < |TapePath(sig, rows, maxHorizonM)|
    ensures i < |rows| && Relevant(sig, rows[i], maxHorizonM)
    ensures TapePath(sig, rows, maxHorizonM)[k].r * StopDistance(sig) == Gain(sig, rows[i].price)
  {
    hide TapePath, RelevantRows, Relevant, Gain, SetupOf, TargetDistance, StopDistance;
    RelevantRowsExact(sig, rows, maxHorizonM);
    PathInPrices(sig, rows, maxHorizonM);
    i := RelevantRows(sig, rows, maxHorizonM)[k];
  }

  /** So each value of the path is the gain of some relevant row. */
  lemma GainAttained(sig: Signal, rows: seq<Row>, maxHorizonM: int, r: real)
    requires sig.entry != sig.sl
    requires exists k | 0 <= k < |TapePath(sig, rows, maxHorizonM)| :: TapePath(sig, rows, maxHorizonM)[k].r == r
    ensures exists i: nat | i < |rows| && Relevant(sig, rows[i], maxHorizonM) ::
              Gain(sig, rows[i].price) == r * StopDistance(sig)
  {
    hide TapePath, Relevant, Gain;
    var k :| 0 <= k < |TapePath(sig, rows, maxHorizonM)| && TapePath(sig, rows, maxHorizonM)[k].r == r;
    var i := RowOfTick(sig, rows, maxHorizonM, k);
    ScaledBetween(r, TapePath(sig, rows, maxHorizonM)[k].r, r, StopDistance(sig));
    assert Gain(sig, rows[i].price) == r * StopDistance(sig);
  }

  lemma PathExtremes(sig: Signal, rows: seq<Row>, maxHorizonM: int, worst: real, best: real)
    requires sig.entry != sig.sl
    requires var p := TapePath(sig, rows, maxHorizonM); worst == Trough(p, |p|) && best == Peak(p, |p|)
    ensures AreExtremes(sig, rows, maxHorizonM, worst * StopDistance(sig), best * StopDistance(sig))
  {
    hide TapePath, Relevant, Gain, Peak, Trough;
    var p := TapePath(sig, rows, maxHorizonM);
    assert StopDistance(sig) > 0.0;
    hide StopDistance;
    PeakIsBest(p, |p|);
    TroughIsWorst(p, |p|);
    ScaledBetween(worst, 0.0, best, StopDistance(sig));
    forall i: nat | i < |rows| && Relevant(sig, rows[i], maxHorizonM)
      ensures worst * StopDistance(sig) <= Gain(sig, rows[i].price) <= best * StopDistance(sig)
    {
      GainsWithin(sig, rows, maxHorizonM, worst, best, i);
    }
    if best != 0.0 {
      GainAttained(sig, rows, maxHorizonM, best);
    }
    if worst != 0.0 {
      GainAttained(sig, rows, maxHorizonM, worst);
    }
  }

  /** The excursions times the stop distance are the worst and the best gain over the relevant rows. */
  lemma ExcursionsInPrices(sig: Signal, rows: seq<Row>, maxHorizonM: int, res: Replay)
    requires sig.entry != sig.sl && Explains(sig, TapePath(sig, rows, maxHorizonM), res)
    ensures AreExtremes(sig, rows, maxHorizonM, res.mae * StopDistance(sig), res.mfe * StopDistance(sig))
    ensures res.nTicks == |RelevantRows(sig, rows, maxHorizonM)|
  {
    hide TapePath, RelevantRows, AreExtremes, Peak, Trough, OfflineVerdict, Final, OnlineVerdict, TouchMs;
    PathExtremes(sig, rows, maxHorizonM, res.mae, res.mfe);
    PathInPrices(sig, rows, maxHorizonM);
  }

  // ----- The exit hypotheses, read off the path -----

  lemma FinalReading(c: Setup, m: Machine, p: seq<Point>, otherwise: real)
    ensures (forall k | 0 <= k < |p| :: !Fires(c, m, p, k)) ==> Final(c, m, p, otherwise) == otherwise
    ensures forall k | 0 <= k < |p| && Fires(c, m, p, k) && (forall j | 0 <= j < k :: !Fires(c, m, p, j)) ::
              Final(c, m, p, otherwise) == Payoff(c, m, p, k)
  {
    hide Payoff, Fires, FirstFire;
    FirstFireIsFirst(c, m, p, |p|);
    if FirstFire(c, m, p, |p|).Some? {
      assert Fires(c, m, p, FirstFire(c, m, p, |p|).value);
    }
    forall k | 0 <= k < |p| && Fires(c, m, p, k) && (forall j | 0 <= j < k :: !Fires(c, m, p, j))
      ensures Final(c, m, p, otherwise) == Payoff(c, m, p, k)
    {
      var at := FirstFire(c, m, p, |p|).value;
      assert Fires(c, m, p, at);
      assert at == k;
    }
  }

  /** The last tick of the path, or the entry if there is none. */
  ghost function EndR(p: seq<Point>): real { if |p| > 0 then p[|p|-1].r else 0.0 }

  /** The fixed target: out at the first tick at 1.5R or better or at -1R or worse, otherwise held to the end. */
  lemma SingleReading(sig: Signal, p: seq<Point>, res: Replay)
    requires sig.entry != sig.sl && Explains(sig, p, res)
    ensures (forall k | 0 <= k < |p| :: -1.0 < p[k].r < 1.5) ==> res.singleTp15 == EndR(p)
    ensures forall k | 0 <= k < |p| && !(-1.0 < p[k].r < 1.5) && (forall j | 0 <= j < k :: -1.0 < p[j].r < 1.5) ::
              res.singleTp15 == if p[k].r >= 1.5 then 1.5 else -1.0
  {
    hide SetupOf, TouchMs, OfflineVerdict, OnlineVerdict, Final;
    FinalReading(SetupOf(sig), Single, p, LastR(p));
    assert forall k | 0 <= k < |p| :: Fires(SetupOf(sig), Single, p, k) <==> !(-1.0 < p[k].r < 1.5);
  }

  /** The trailing stop: one R behind the best tick so far once that is 1R, and -1R before. */
  ghost function TrailingStop(best: real): real { if best < 1.0 then -1.0 else best - 1.0 }

  lemma TrailReading(sig: Signal, p: seq<Point>, res: Replay)
    requires sig.entry != sig.sl && Explains(sig, p, res)
    ensures (forall k | 0 <= k < |p| :: TrailingStop(Peak(p, k + 1)) < p[k].r < 1.5) ==> res.trail1r == EndR(p)
    ensures forall k | 0 <= k < |p| && !(TrailingStop(Peak(p, k + 1)) < p[k].r < 1.5)
                       && (forall j | 0 <= j < k :: TrailingStop(Peak(p, j + 1)) < p[j].r < 1.5) ::
              res.trail1r == if p[k].r >= 1.5 then 1.5 else TrailingStop(Peak(p, k + 1))
  {
    hide SetupOf, TouchMs, OfflineVerdict, OnlineVerdict, Final, Peak;
    FinalReading(SetupOf(sig), Trail, p, LastR(p));
    assert forall k | 0 <= k < |p| ::
        Fires(SetupOf(sig), Trail, p, k) <==> !(TrailingStop(Peak(p, k + 1)) < p[k].r < 1.5);
  }

  /** The step stop: at entry once the best tick so far is 0.5R, at 0.5R from 1R on, at 1.5R from 2R on. */
  ghost function SteppedStop(best: real): real {
    if best < 0.5 then -1.0 else if best < 1.0 then 0.0 else if best < 2.0 then 0.5 else 1.5
  }

  lemma StepReading(sig: Signal, p: seq<Point>, res: Replay)
    requires sig.entry != sig.sl && Explains(sig, p, res)
    ensures (forall k | 0 <= k < |p| :: SteppedStop(Peak(p, k + 1)) < p[k].r < 1.5) ==> res.stepTrail == EndR(p)
    ensures forall k | 0 <= k < |p| && !(SteppedStop(Peak(p, k + 1)) < p[k].r < 1.5)
                       && (forall j | 0 <= j < k :: SteppedStop(Peak(p, j + 1)) < p[j].r < 1.5) ::
              res.stepTrail == if p[k].r >= 1.5 then 1.5 else SteppedStop(Peak(p, k + 1))
  {
    hide SetupOf, TouchMs, OfflineVerdict, OnlineVerdict, Final, Peak;
    FinalReading(SetupOf(sig), StepLock, p, LastR(p));
    assert forall k | 0 <= k < |p| ::
        Fires(SetupOf(sig), StepLock, p, k) <==> !(SteppedStop(Peak(p, k + 1)) < p[k].r < 1.5);
  }

  /** Break-even protection may start: the threshold has been reached, and no stop touched by this tick's time. */
  ghost predicate MayArm(p: seq<Point>, threshold: real, k: nat)
    requires k < |p|
  {
    && Peak(p, k + 1) >= threshold
    && !exists s | 0 <= s <= k :: p[s].r <= -1.0 && (forall j | 0 <= j < s :: p[j].r > -1.0) && p[s].ts <= p[k].ts
  }

  lemma ArmReading(c: Setup, p: seq<Point>, threshold: real, k: nat)
    requires k < |p|
    ensures Fires(c, Arm(threshold), p, k) <==> MayArm(p, threshold, k)
  {
    hide Peak, FirstFire;
    FirstFireIsFirst(c, TouchSl, p, k + 1);
    assert forall j | 0 <= j < |p| :: Fires(c, TouchSl, p, j) <==> p[j].r <= -1.0;
  }

  /** Armed by tick `k`, and at that tick at the target or back at the entry. */
  ghost predicate LeavesProtected(c: Setup, p: seq<Point>, threshold: real, k: nat)
    requires k < |p|
  {
    (exists a | 0 <= a <= k :: MayArm(p, threshold, a)) && (p[k].r >= c.tpR || p[k].r <= 0.0)
  }

  /** Break-even: out at the first such tick, at the target's R or at zero; otherwise `otherwise`. */
  lemma BreakEvenReading(c: Setup, p: seq<Point>, threshold: real, otherwise: real)
    ensures var out := Final(c, BreakEven(threshold), p, otherwise);
            && ((forall k | 0 <= k < |p| :: !LeavesProtected(c, p, threshold, k)) ==> out == otherwise)
            && (forall k | 0 <= k < |p| && LeavesProtected(c, p, threshold, k)
                           && (forall j | 0 <= j < k :: !LeavesProtected(c, p, threshold, j)) ::
                  out == if p[k].r >= c.tpR then c.tpR else 0.0)
  {
    hide MayArm, FirstFire, Final;
    FinalReading(c, BreakEven(threshold), p, otherwise);
    forall k | 0 <= k < |p| ensures Fires(c, BreakEven(threshold), p, k) <==> LeavesProtected(c, p, threshold, k) {
      FirstFireIsFirst(c, Arm(threshold), p, k + 1);
      forall a | 0 <= a <= k ensures Fires(c, Arm(threshold), p, a) <==> MayArm(p, threshold, a) {
        ArmReading(c, p, threshold, a);
      }
    }
  }

  /** The two break-even results: protected from 0.5R and from 1R on, and the signal's own result without a way out. */
  lemma ProtectedReading(sig: Signal, p: seq<Point>, res: Replay)
    requires sig.entry != sig.sl && Explains(sig, p, res)
    ensures var c := SetupOf(sig);
            && ((forall k | 0 <= k < |p| :: !LeavesProtected(c, p, 0.5, k)) ==> res.be05 == res.original.r)
            && ((forall k | 0 <= k < |p| :: !LeavesProtected(c, p, 1.0, k)) ==> res.be10 == res.original.r)
            && (forall k | 0 <= k < |p| && LeavesProtected(c, p, 0.5, k)
                           && (forall j | 0 <= j < k :: !LeavesProtected(c, p, 0.5, j)) ::
                  res.be05 == if p[k].r >= c.tpR then c.tpR else 0.0)
            && (forall k | 0 <= k < |p| && LeavesProtected(c, p, 1.0, k)
                           && (forall j | 0 <= j < k :: !LeavesProtected(c, p, 1.0, j)) ::
                  res.be10 == if p[k].r >= c.tpR then c.tpR else 0.0)
  {
    hide LeavesProtected, SetupOf, TouchMs, OfflineVerdict, OnlineVerdict, Final, Peak, Trough;
    BreakEvenReading(SetupOf(sig), p, 0.5, res.original.r);
    BreakEvenReading(SetupOf(sig), p, 1.0, res.original.r);
  }

  /** Nothing has happened to a horizon of `h` minutes: not past it, and between stop and target. */
  ghost predicate Waiting(c: Setup, h: int, t: Point) { t.ts - c.tsEntry <= h * 60000 && -1.0 < t.r < c.tpR }

  /** A horizon closes at the first tick past it or at a level; being past it counts before the levels. */
  lemma HorizonReading(c: Setup, p: seq<Point>, h: int)
    requires c.tpR >= 0.0
    ensures var v := OnlineVerdict(c, p, h);
            && ((forall k | 0 <= k < |p| :: Waiting(c, h, p[k])) ==> v == Verdict(Incomplete, EndR(p)))
            && (forall k | 0 <= k < |p| && !Waiting(c, h, p[k]) && (forall j | 0 <= j < k :: Waiting(c, h, p[j])) ::
                  v == if p[k].ts - c.tsEntry > h * 60000 then Verdict(TimeExit, p[k].r)
                       else if p[k].r >= c.tpR then Verdict(TP, c.tpR) else Verdict(Stop, -1.0))
  {
    FirstFireIsFirst(c, Horizon(h), p, |p|);
    assert forall k | 0 <= k < |p| :: Fires(c, Horizon(h), p, k) <==> !Waiting(c, h, p[k]);
  }

  /** The result has one verdict for each of the five horizons. */
  lemma HorizonsReported(sig: Signal, p: seq<Point>, res: Replay, h: int)
    requires sig.entry != sig.sl && Explains(sig, p, res)
    ensures h in res.horizon <==> h in {150, 300, 480, 720, 1440}
    ensures h in res.horizon ==> res.horizon[h] == OnlineVerdict(SetupOf(sig), p, h)
  {
    hide SetupOf, TouchMs, OfflineVerdict, OnlineVerdict, Final, Peak, Trough;
    assert h in res.horizon <==> h in HORIZONS_M;
  }

  /**
   The signal's own outcome from the two touch times: a stop within the hold that is no later than a target within
   it, else a target within it, else what the smallest tracked horizon that covers the hold says.  A hold that is
   missing or zero is 300 minutes; one beyond a day is judged at a day.
   */
  lemma OriginalReading(sig: Signal, p: seq<Point>, res: Replay)
    requires sig.entry != sig.sl && Explains(sig, p, res)
    ensures var hold := if sig.maxHoldMin.None? || sig.maxHoldMin.value == 0 then 300 else sig.maxHoldMin.value;
            var limit := sig.tsEntry + hold * 60000;
            var stopped := res.slMs.Some? && res.slMs.value <= limit;
            var taken := res.tpMs.Some? && res.tpMs.value <= limit;
            var tracked := if hold <= 150 then 150 else if hold <= 300 then 300 else if hold <= 480 then 480
                           else if hold <= 720 then 720 else 1440;
            && tracked in res.horizon
            && res.original == if stopped && (!taken || res.slMs.value <= res.tpMs.value) then Verdict(Stop, -1.0)
                               else if taken then Verdict(TP, SetupOf(sig).tpR)
                               else res.horizon[tracked]
  {
    hide TouchMs, OnlineVerdict, Final, Peak, Trough;
    var h := ClosestHorizon(HoldMinutes(sig));
    assert h in HORIZONS_M && res.horizon[h] == OnlineVerdict(SetupOf(sig), p, h);
  }
}
