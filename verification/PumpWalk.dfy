/**
 The two candle walks that score a pump signal: the one that prepares candidates for the equity simulation and
 the one of the TP/SL sweep.  `WalkExit` is the declarative reading both loops are proved against.
 */
module PumpWalk {
  import opened Market

  datatype Direction = Pump | Dump

  datatype Outcome = TP | SL | TIME

  /** Symbols are numbered in alphabetical order; only that order matters. */
  type Symbol = nat

  datatype CandidateTrade = CandidateTrade(
    sym: Symbol, entryTs: int, exitTs: int, direction: Direction, outcome: Outcome,
    entryPrice: real, exitPrice: real, grossReturnPct: real, leverage: int)

  datatype SweepResult = SweepResult(outcome: Outcome, gross: real, net: real, holdMin: nat)

  /** What the sweep's walk comes back with: a result, the ValueError its caller skips, or a division by zero. */
  datatype SweepReply = Swept(result: SweepResult) | MissingCandles | DivisionByZero

  const TARGET_PCT: real := 3.0   // 2.0 * 1.5
  const SL_PCT: real := 2.0

  function TpPrice(d: Direction, entry: real, pct: real): real {
    if d.Pump? then entry * (1.0 + pct / 100.0) else entry * (1.0 - pct / 100.0)
  }

  function SlPrice(d: Direction, entry: real, pct: real): real {
    if d.Pump? then entry * (1.0 - pct / 100.0) else entry * (1.0 + pct / 100.0)
  }

  predicate HitsSl(d: Direction, c: Candle, sl: real) { if d.Pump? then c.low <= sl else c.high >= sl }

  predicate HitsTp(d: Direction, c: Candle, tp: real) { if d.Pump? then c.high >= tp else c.low <= tp }

  // ----- The declarative reading of a walk -----

  datatype Exit = Exit(outcome: Outcome, bar: nat, price: real)

  /** First bar in `[from, n)` that touches either level. */
  ghost function FirstHit(d: Direction, df: seq<Candle>, from: nat, n: nat, tp: real, sl: real): (at: Option<nat>)
    requires from <= n <= |df|
    ensures at.Some? ==> from <= at.value < n
    decreases n
  {
    if n == from then None
    else
      var before := FirstHit(d, df, from, n - 1, tp, sl);
      if before.Some? then before
      else if HitsSl(d, df[n-1], sl) || HitsTp(d, df[n-1], tp) then Some(n - 1)
      else None
  }

  lemma {:induction false} HitStays(d: Direction, df: seq<Candle>, from: nat, k: nat, n: nat, tp: real, sl: real)
    requires from <= k < n <= |df|
    requires FirstHit(d, df, from, k, tp, sl).None?
    requires HitsSl(d, df[k], sl) || HitsTp(d, df[k], tp)
    ensures FirstHit(d, df, from, n, tp, sl) == Some(k)
    decreases n
  {
    if k + 1 == n {
    } else {
      HitStays(d, df, from, k, n - 1, tp, sl);
    }
  }

  /** Index of the last bar of the hold. */
  function EndIdx(len: nat, entry: nat, hold: nat): (e: nat)
    requires 1 <= entry < len
    ensures e < len && e + 1 >= entry && (hold >= 1 ==> entry <= e)
  {
    if len - 1 <= entry + hold - 1 then len - 1 else entry + hold - 1
  }

  /** The stop wins a bar that touches both levels; without a touch the trade ends at the last close. */
  ghost function WalkExit(d: Direction, df: seq<Candle>, entry: nat, hold: nat, tpPct: real, slPct: real): Exit
    requires 1 <= entry < |df|
  {
    var price := df[entry].open;
    var tp, sl := TpPrice(d, price, tpPct), SlPrice(d, price, slPct);
    var last := EndIdx(|df|, entry, hold);
    match FirstHit(d, df, entry, last + 1, tp, sl)
    case None => Exit(TIME, last, df[last].close)
    case Some(k) => if HitsSl(d, df[k], sl) then Exit(SL, k, sl) else Exit(TP, k, tp)
  }

  function GrossPct(d: Direction, entry: real, exit: real): real
    requires entry != 0.0
  {
    (if d.Pump? then 1.0 else -1.0) * (exit - entry) / entry * 100.0
  }

  // ----- Leverage -----

  lemma ScaleOrder(x: real, y: real, k: real)
    requires k > 0.0
    ensures x <= y ==> x * k <= y * k
    ensures x < y ==> x * k < y * k
  {
    if x <= y { assert (y - x) * k >= 0.0; }
    if x < y { assert (y - x) * k > 0.0; }
  }

  /** The largest leverage in 1..3 whose doubled daily range stays within 100%, or 1. */
  function ComputeLeverage(vol24hPct: real): (leverage: int)
    ensures 1 <= leverage <= 3
    ensures leverage > 1 ==> vol24hPct > 0.0 && leverage as real * (vol24hPct * 2.0) <= 100.0
    ensures vol24hPct > 0.0 && leverage < 3 ==> (leverage + 1) as real * (vol24hPct * 2.0) > 100.0
  {
    if vol24hPct <= 0.0 then 1
    else
      var q := 100.0 / (vol24hPct * 2.0);
      var maxAllowed := q.Floor;
      assert q * (vol24hPct * 2.0) == 100.0;
      var capped := if maxAllowed < 3 then maxAllowed else 3;
      var leverage := if capped > 1 then capped else 1;
      assert leverage > 1 ==> leverage as real <= q;
      assert leverage < 3 ==> (leverage + 1) as real > q;
      ScaleOrder(leverage as real, q, vol24hPct * 2.0);
      ScaleOrder(q, (leverage + 1) as real, vol24hPct * 2.0);
      leverage
  }

  ghost function LowestLow(df: seq<Candle>, from: nat, to: nat): real
    requires from < to <= |df|
  {
    if from + 1 == to then df[from].low else Min(LowestLow(df, from, to - 1), df[to-1].low)
  }

  ghost function HighestHigh(df: seq<Candle>, from: nat, to: nat): real
    requires from < to <= |df|
  {
    if from + 1 == to then df[from].high else Max(HighestHigh(df, from, to - 1), df[to-1].high)
  }

  ghost function Vol24hPct(df: seq<Candle>, idx: nat): real
    requires idx <= |df|
  {
    var start := if idx <= 1440 then 0 else idx - 1440;
    if start == idx || LowestLow(df, start, idx) <= 0.0 then 0.0
    else (HighestHigh(df, start, idx) - LowestLow(df, start, idx)) / LowestLow(df, start, idx) * 100.0
  }

  method Compute24hVolPct(df: seq<Candle>, idx: nat) returns (vol: real)
    requires idx <= |df|
    ensures vol == Vol24hPct(df, idx)
  {
    var start := if idx <= 1440 then 0 else idx - 1440;
    if start == idx {
      return 0.0;
    }
    var low, high := df[start].low, df[start].high;
    for i := start + 1 to idx
      invariant low == LowestLow(df, start, i) && high == HighestHigh(df, start, i)
    {
      low, high := Min(low, df[i].low), Max(high, df[i].high);
    }
    if low <= 0.0 {
      return 0.0;
    }
    vol := (high - low) / low * 100.0;
  }

  // ----- The walk of the equity simulation -----

  ghost predicate CandidateExplains(sym: Symbol, df: seq<Candle>, idx: nat, d: Direction, hold: nat,
                                    t: Option<CandidateTrade>)
  {
    && (t.None? <==> idx + 1 >= |df| || df[idx+1].open <= 0.0)
    && (t.Some? ==>
          var x := WalkExit(d, df, idx + 1, hold, TARGET_PCT, SL_PCT);
          t.value == CandidateTrade(
            sym, df[idx+1].ts, df[x.bar].ts, d, x.outcome, df[idx+1].open, x.price,
            GrossPct(d, df[idx+1].open, x.price), ComputeLeverage(Vol24hPct(df, idx))))
  }

  method BuildCandidate(sym: Symbol, df: seq<Candle>, idx: nat, d: Direction, timeExitMin: nat)
    returns (t: Option<CandidateTrade>)
    ensures CandidateExplains(sym, df, idx, d, timeExitMin, t)
  {
    if idx + 1 >= |df| {
      return None;
    }
    var entryIdx := idx + 1;
    var entryTs, entryPrice := df[entryIdx].ts, df[entryIdx].open;
    if entryPrice <= 0.0 {
      return None;
    }
    var tpPrice, slPrice := TpPrice(d, entryPrice, TARGET_PCT), SlPrice(d, entryPrice, SL_PCT);
    var endIdx := EndIdx(|df|, entryIdx, timeExitMin);
    var outcome, exitPrice, exitTs := TIME, df[endIdx].close, df[endIdx].ts;

    var i := entryIdx;
    ghost var exitBar := endIdx;
    while i <= endIdx
      invariant entryIdx <= i <= endIdx + 1
      invariant FirstHit(d, df, entryIdx, i, tpPrice, slPrice).None?
      invariant outcome == TIME && exitPrice == df[endIdx].close && exitTs == df[endIdx].ts
    {
      var hitSl, hitTp := HitsSl(d, df[i], slPrice), HitsTp(d, df[i], tpPrice);
      if hitSl && hitTp {
        outcome, exitPrice, exitTs, exitBar := SL, slPrice, df[i].ts, i;
        break;
      }
      if hitSl {
        outcome, exitPrice, exitTs, exitBar := SL, slPrice, df[i].ts, i;
        break;
      }
      if hitTp {
        outcome, exitPrice, exitTs, exitBar := TP, tpPrice, df[i].ts, i;
        break;
      }
      if i == endIdx {
        outcome, exitPrice, exitTs := TIME, df[i].close, df[i].ts;
      }
      i := i + 1;
    }
    if i <= endIdx {
      HitStays(d, df, entryIdx, i, endIdx + 1, tpPrice, slPrice);
    }
    assert Exit(outcome, exitBar, exitPrice) == WalkExit(d, df, entryIdx, timeExitMin, TARGET_PCT, SL_PCT);

    var gross := GrossPct(d, entryPrice, exitPrice);
    var vol := Compute24hVolPct(df, idx);
    t := Some(CandidateTrade(sym, entryTs, exitTs, d, outcome, entryPrice, exitPrice, gross, ComputeLeverage(vol)));
  }

  // ----- The walk of the TP/SL sweep -----

  ghost predicate SweepExplains(frame: seq<Candle>, idx: nat, tpPct: real, slPct: real, feeRt: real, hold: nat,
                                r: SweepReply)
  {
    if idx + 1 >= |frame| || hold == 0 then r == MissingCandles
    else
      var entry, x := frame[idx+1].open, WalkExit(Pump, frame, idx + 1, hold, tpPct, slPct);
      match x.outcome
      case SL => r == Swept(SweepResult(SL, -slPct, -slPct - feeRt, x.bar - idx))
      case TP => r == Swept(SweepResult(TP, tpPct, tpPct - feeRt, x.bar - idx))
      case TIME =>
        if entry == 0.0 then r == DivisionByZero
        else
          var gross := GrossPct(Pump, entry, x.price);
          r == Swept(SweepResult(TIME, gross, gross - feeRt, x.bar - idx))
  }

  method SimulateOneSignal(frame: seq<Candle>, signalIdx: nat, tpPct: real, slPct: real, feeRt: real, holdBars: nat)
    returns (r: SweepReply)
    ensures SweepExplains(frame, signalIdx, tpPct, slPct, feeRt, holdBars, r)
  {
    var entryIdx := signalIdx + 1;
    if entryIdx >= |frame| {
      return MissingCandles;
    }
    var entryPrice := frame[entryIdx].open;
    var tpPrice, slPrice := entryPrice * (1.0 + tpPct / 100.0), entryPrice * (1.0 - slPct / 100.0);
    var stop := if entryIdx + holdBars <= |frame| then entryIdx + holdBars else |frame|;
    var window := frame[entryIdx..stop];
    if window == [] {
      return MissingCandles;
    }
    assert stop == EndIdx(|frame|, entryIdx, holdBars) + 1;
    assert tpPrice == TpPrice(Pump, entryPrice, tpPct) && slPrice == SlPrice(Pump, entryPrice, slPct);
    for i := 0 to |window|
      invariant FirstHit(Pump, frame, entryIdx, entryIdx + i, tpPrice, slPrice).None?
    {
      var minute, high, low := i + 1, window[i].high, window[i].low;
      assert window[i] == frame[entryIdx + i];
      if low <= slPrice || high >= tpPrice {
        HitStays(Pump, frame, entryIdx, entryIdx + i, stop, tpPrice, slPrice);
      }
      if low <= slPrice && high >= tpPrice {
        return Swept(SweepResult(SL, -slPct, -slPct - feeRt, minute));
      }
      if low <= slPrice {
        return Swept(SweepResult(SL, -slPct, -slPct - feeRt, minute));
      }
      if high >= tpPrice {
        assert !HitsSl(Pump, frame[entryIdx + i], slPrice);
        assert WalkExit(Pump, frame, entryIdx, holdBars, tpPct, slPct) == Exit(TP, entryIdx + i, tpPrice);
        return Swept(SweepResult(TP, tpPct, tpPct - feeRt, minute));
      }
    }
    var lastClose := window[|window|-1].close;
    if entryPrice == 0.0 {
      return DivisionByZero;
    }
    var gross := GrossPct(Pump, entryPrice, lastClose);
    r := Swept(SweepResult(TIME, gross, gross - feeRt, |window|));
  }

  // ----- What the walks guarantee -----

  lemma {:induction false} FirstHitIsFirst(d: Direction, df: seq<Candle>, from: nat, n: nat, tp: real, sl: real)
    requires from <= n <= |df|
    ensures var at := FirstHit(d, df, from, n, tp, sl);
            && (at.Some? ==> HitsSl(d, df[at.value], sl) || HitsTp(d, df[at.value], tp))
            && forall k | from <= k < (if at.Some? then at.value else n) ::
                 !HitsSl(d, df[k], sl) && !HitsTp(d, df[k], tp)
    decreases n
  {
    if from == n {
    } else {
      FirstHitIsFirst(d, df, from, n - 1, tp, sl);
    }
  }

  /** Enlarging the hold never changes a TP or SL verdict. */
  lemma LongerHoldSameHit(d: Direction, df: seq<Candle>, entry: nat, h1: nat, h2: nat, tpPct: real, slPct: real)
    requires 1 <= entry < |df| && h1 <= h2
    requires WalkExit(d, df, entry, h1, tpPct, slPct).outcome != TIME
    ensures WalkExit(d, df, entry, h2, tpPct, slPct) == WalkExit(d, df, entry, h1, tpPct, slPct)
  {
    var tp, sl := TpPrice(d, df[entry].open, tpPct), SlPrice(d, df[entry].open, slPct);
    var n1, n2 := EndIdx(|df|, entry, h1) + 1, EndIdx(|df|, entry, h2) + 1;
    FirstHitIsFirst(d, df, entry, n1, tp, sl);
    var k := FirstHit(d, df, entry, n1, tp, sl).value;
    FirstHitIsFirst(d, df, entry, k, tp, sl);
    HitStays(d, df, entry, k, n2, tp, sl);
  }

  lemma QuotientOrder(x: real, y: real, k: real)
    requires k > 0.0 && x < y
    ensures x / k < y / k
  {
    assert (y - x) / k > 0.0 by {
      var d := (y - x) / k;
      assert d * k == y - x;
      ScaleOrder(d, 0.0, k);
    }
    assert (y - x) / k == y / k - x / k;
  }

  lemma Cancel(x: real, k: real)
    requires k != 0.0
    ensures x * k / k == x
  {
  }

  lemma GrossAtLevels(d: Direction, entry: real)
    requires entry > 0.0
    ensures GrossPct(d, entry, TpPrice(d, entry, TARGET_PCT)) == TARGET_PCT
    ensures GrossPct(d, entry, SlPrice(d, entry, SL_PCT)) == -SL_PCT
  {
    var sign := if d.Pump? then 1.0 else -1.0;
    assert sign * (TpPrice(d, entry, TARGET_PCT) - entry) == 0.03 * entry;
    assert sign * (SlPrice(d, entry, SL_PCT) - entry) == -0.02 * entry;
    Cancel(0.03, entry);
    Cancel(-0.02, entry);
  }

  /**
   For pump signals at 3%/2% the two walks produce the same outcome, exit bar and gross return whenever both
   produce a trade, and only the sweep takes an entry price that is not positive; with a zero hold only the
   candidate walk trades, at the bar before its own entry.
   */
  lemma WalksAgree(sym: Symbol, df: seq<Candle>, idx: nat, hold: nat, feeRt: real,
                   t: Option<CandidateTrade>, r: SweepReply)
    requires CandidateExplains(sym, df, idx, Pump, hold, t)
    requires SweepExplains(df, idx, TARGET_PCT, SL_PCT, feeRt, hold, r)
    ensures t.Some? && r.Swept? <==> idx + 1 < |df| && df[idx+1].open > 0.0 && hold >= 1
    ensures t.Some? && r.Swept? ==>
              && t.value.outcome == r.result.outcome
              && t.value.grossReturnPct == r.result.gross == r.result.net + feeRt
              && 1 <= r.result.holdMin <= hold && idx + r.result.holdMin < |df|
              && t.value.exitTs == df[idx + r.result.holdMin].ts
    ensures t.Some? && !r.Swept? ==> hold == 0 && t.value.outcome == TIME && t.value.exitTs == df[idx].ts
  {
    if t.Some? {
      GrossAtLevels(Pump, df[idx+1].open);
    }
  }

  lemma GrossMonotone(d: Direction, entry: real, x: real, y: real)
    requires entry > 0.0 && if d.Pump? then x < y else y < x
    ensures GrossPct(d, entry, x) < GrossPct(d, entry, y)
  {
    var a, b := (if d.Pump? then 1.0 else -1.0) * (x - entry), (if d.Pump? then 1.0 else -1.0) * (y - entry);
    assert a < b;
    QuotientOrder(a, b, entry);
    var qa, qb := a / entry, b / entry;
    assert GrossPct(d, entry, x) == qa * 100.0 && GrossPct(d, entry, y) == qb * 100.0;
  }

  /** On valid candles a time exit lies strictly between the levels. */
  lemma GrossBounds(sym: Symbol, df: seq<Candle>, idx: nat, d: Direction, hold: nat, t: Option<CandidateTrade>)
    requires ValidCandles(df) && hold >= 1
    requires CandidateExplains(sym, df, idx, d, hold, t) && t.Some?
    ensures -SL_PCT <= t.value.grossReturnPct <= TARGET_PCT
    ensures t.value.grossReturnPct == -SL_PCT <==> t.value.outcome == SL
    ensures t.value.grossReturnPct == TARGET_PCT <==> t.value.outcome == TP
  {
    var entry := df[idx+1].open;
    var tp, sl := TpPrice(d, entry, TARGET_PCT), SlPrice(d, entry, SL_PCT);
    GrossAtLevels(d, entry);
    var last := EndIdx(|df|, idx + 1, hold);
    FirstHitIsFirst(d, df, idx + 1, last + 1, tp, sl);
    if t.value.outcome == TIME {
      assert !HitsSl(d, df[last], sl) && !HitsTp(d, df[last], tp);
      GrossMonotone(d, entry, sl, df[last].close);
      GrossMonotone(d, entry, df[last].close, tp);
    }
  }

  /** A candidate never exits before it is entered, given a time-ordered frame. */
  lemma ExitNotBeforeEntry(sym: Symbol, df: seq<Candle>, idx: nat, d: Direction, hold: nat, t: Option<CandidateTrade>)
    requires forall i, j | 0 <= i <= j < |df| :: df[i].ts <= df[j].ts
    requires hold >= 1 && CandidateExplains(sym, df, idx, d, hold, t) && t.Some?
    ensures t.value.entryTs <= t.value.exitTs
    ensures t.value.leverage in {1, 2, 3}
  {
  }
}
