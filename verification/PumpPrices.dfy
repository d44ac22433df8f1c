/**
 The pump walks and the account read back into candles and prices: what each bar's extremes decide, for longs and
 shorts alike, and what a settled trade does to the figures of the report.
 */
module PumpPrices {
  import opened Market
  import opened PumpWalk

  // ----- One bar -----

  /** The bar's adverse extreme is at least `pct` percent away from the entry price. */
  ghost predicate Stopped(d: Direction, c: Candle, entry: real, pct: real) {
    match d
    case Pump => c.low <= entry - entry * pct / 100.0
    case Dump => c.high >= entry + entry * pct / 100.0
  }

  /** The bar's favourable extreme is. */
  ghost predicate Taken(d: Direction, c: Candle, entry: real, pct: real) {
    match d
    case Pump => c.high >= entry + entry * pct / 100.0
    case Dump => c.low <= entry - entry * pct / 100.0
  }

  lemma LevelsInPrices(d: Direction, c: Candle, entry: real, tpPct: real, slPct: real)
    ensures HitsSl(d, c, SlPrice(d, entry, slPct)) <==> Stopped(d, c, entry, slPct)
    ensures HitsTp(d, c, TpPrice(d, entry, tpPct)) <==> Taken(d, c, entry, tpPct)
    ensures TpPrice(d, entry, tpPct) == if d.Pump? then entry + entry * tpPct / 100.0 else entry - entry * tpPct / 100.0
    ensures SlPrice(d, entry, slPct) == if d.Pump? then entry - entry * slPct / 100.0 else entry + entry * slPct / 100.0
  {
  }

  // ----- A whole walk -----

  /** Bar `k` lies in the hold of a trade entered at bar `entry`. */
  ghost predicate InHold(df: seq<Candle>, entry: nat, hold: nat, k: nat) { entry <= k < entry + hold && k < |df| }

  ghost predicate Untouched(d: Direction, df: seq<Candle>, entry: nat, k: nat, tpPct: real, slPct: real)
    requires entry < |df| && k <= |df|
  {
    forall j | entry <= j < k ::
      !Stopped(d, df[j], df[entry].open, slPct) && !Taken(d, df[j], df[entry].open, tpPct)
  }

  /** Bar `k` of the hold decides the trade: no earlier bar reached a level, and this one reached the stop. */
  ghost predicate StopsAt(d: Direction, df: seq<Candle>, entry: nat, hold: nat, tpPct: real, slPct: real, k: nat)
    requires entry < |df|
  {
    InHold(df, entry, hold, k) && Untouched(d, df, entry, k, tpPct, slPct) && Stopped(d, df[k], df[entry].open, slPct)
  }

  /** No earlier bar reached a level, and this one reached the target but not the stop. */
  ghost predicate TakesAt(d: Direction, df: seq<Candle>, entry: nat, hold: nat, tpPct: real, slPct: real, k: nat)
    requires entry < |df|
  {
    && InHold(df, entry, hold, k) && Untouched(d, df, entry, k, tpPct, slPct)
    && Taken(d, df[k], df[entry].open, tpPct) && !Stopped(d, df[k], df[entry].open, slPct)
  }

  /** No bar of the hold reaches a level, and `k` is the last one, the bar before the entry for a zero hold. */
  ghost predicate TimesOutAt(d: Direction, df: seq<Candle>, entry: nat, hold: nat, tpPct: real, slPct: real, k: nat)
    requires entry < |df|
  {
    && (forall j | entry <= j < |df| && InHold(df, entry, hold, j) ::
          !Stopped(d, df[j], df[entry].open, slPct) && !Taken(d, df[j], df[entry].open, tpPct))
    && k < |df| && k < entry + hold && (k + 1 == |df| || k + 1 == entry + hold)
  }

  /** The walk in candle extremes: its outcome, bar and price are those of the one bar that decides. */
  lemma WalkInPrices(d: Direction, df: seq<Candle>, entry: nat, hold: nat, tpPct: real, slPct: real)
    requires 1 <= entry < |df|
    ensures var x, price := WalkExit(d, df, entry, hold, tpPct, slPct), df[entry].open;
            x.bar < |df| &&
            match x.outcome
            case SL =>
              && StopsAt(d, df, entry, hold, tpPct, slPct, x.bar)
              && x.price == if d.Pump? then price - price * slPct / 100.0 else price + price * slPct / 100.0
            case TP =>
              && TakesAt(d, df, entry, hold, tpPct, slPct, x.bar)
              && x.price == if d.Pump? then price + price * tpPct / 100.0 else price - price * tpPct / 100.0
            case TIME => TimesOutAt(d, df, entry, hold, tpPct, slPct, x.bar) && x.price == df[x.bar].close
  {
    hide HitsSl, HitsTp, SlPrice, TpPrice, Stopped, Taken;
    var price := df[entry].open;
    var tp, sl := TpPrice(d, price, tpPct), SlPrice(d, price, slPct);
    var n := EndIdx(|df|, entry, hold) + 1;
    forall k | 0 <= k < |df|
      ensures HitsSl(d, df[k], sl) <==> Stopped(d, df[k], price, slPct)
      ensures HitsTp(d, df[k], tp) <==> Taken(d, df[k], price, tpPct)
    {
      LevelsInPrices(d, df[k], price, tpPct, slPct);
    }
    LevelsInPrices(d, df[entry], price, tpPct, slPct);
    FirstHitIsFirst(d, df, entry, n, tp, sl);
  }

  /** At most one bar decides, so the three cases exclude each other. */
  lemma OneBarDecides(d: Direction, df: seq<Candle>, entry: nat, hold: nat, tpPct: real, slPct: real, k: nat)
    requires 1 <= entry < |df|
    ensures var x := WalkExit(d, df, entry, hold, tpPct, slPct);
            && (x.outcome == SL && x.bar == k <==> StopsAt(d, df, entry, hold, tpPct, slPct, k))
            && (x.outcome == TP && x.bar == k <==> TakesAt(d, df, entry, hold, tpPct, slPct, k))
            && (x.outcome == TIME && x.bar == k <==> TimesOutAt(d, df, entry, hold, tpPct, slPct, k))
  {
    hide WalkExit, Stopped, Taken;
    WalkInPrices(d, df, entry, hold, tpPct, slPct);
    var x := WalkExit(d, df, entry, hold, tpPct, slPct);
    assert InHold(df, entry, hold, x.bar) || x.outcome == TIME;
  }

  // ----- The two walks' results -----

  /** The price move in percent of the entry price, in the direction of the trade. */
  ghost predicate IsGross(d: Direction, entry: real, exit: real, gross: real) {
    gross * entry == if d.Pump? then 100.0 * (exit - entry) else 100.0 * (entry - exit)
  }

  lemma GrossInPrices(d: Direction, entry: real, exit: real)
    requires entry != 0.0
    ensures IsGross(d, entry, exit, GrossPct(d, entry, exit))
  {
    var m := (if d.Pump? then 1.0 else -1.0) * (exit - entry);
    var q := m / entry;
    assert q * entry == m;
    assert GrossPct(d, entry, exit) == q * 100.0;
  }

  /** Lowest low and highest high of the bars from `from` up to `n`. */
  ghost predicate IsRange(df: seq<Candle>, from: nat, n: nat, low: real, high: real)
    requires n <= |df|
  {
    && (forall k | from <= k < n :: low <= df[k].low && df[k].high <= high)
    && (exists k | from <= k < n :: df[k].low == low) && (exists k | from <= k < n :: df[k].high == high)
  }

  lemma {:induction false} RangeFound(df: seq<Candle>, from: nat, n: nat)
    requires from < n <= |df|
    ensures IsRange(df, from, n, LowestLow(df, from, n), HighestHigh(df, from, n))
    decreases n
  {
    if from + 1 == n {
    } else {
      RangeFound(df, from, n - 1);
    }
  }

  /** The day's range is over the 1440 bars before the signal, in percent of the lowest low if that is positive. */
  lemma VolatilityInPrices(df: seq<Candle>, idx: nat)
    requires idx <= |df|
    ensures var from, vol := if idx <= 1440 then 0 else idx - 1440, Vol24hPct(df, idx);
            if idx == 0 || exists k | from <= k < idx :: df[k].low <= 0.0 then vol == 0.0
            else exists low, high :: IsRange(df, from, idx, low, high) && vol * low == 100.0 * (high - low)
  {
    if idx > 0 {
      var from := if idx <= 1440 then 0 else idx - 1440;
      var low, high := LowestLow(df, from, idx), HighestHigh(df, from, idx);
      RangeFound(df, from, idx);
      if low > 0.0 {
        var q := (high - low) / low;
        assert q * low == high - low;
        assert Vol24hPct(df, idx) * low == 100.0 * (high - low);
      }
    }
  }

  /**
   A candidate in candle extremes: entered at the open after the signal; SL exactly if some bar of the hold is 2%
   against the entry and no earlier bar 2% against or 3% for it; TP exactly if some bar is 3% for it but not 2%
   against, and no earlier bar either; TIME exactly if no bar of the hold is either.  The rest follows from that bar.
   */
  lemma CandidateInPrices(sym: Symbol, df: seq<Candle>, idx: nat, entry: nat, d: Direction, hold: nat,
                          t: Option<CandidateTrade>)
    requires entry == idx + 1 && CandidateExplains(sym, df, idx, d, hold, t)
    ensures t.Some? <==> entry < |df| && df[entry].open > 0.0
    ensures t.Some? ==>
              var c := t.value;
              && c.sym == sym && c.direction == d && c.entryTs == df[entry].ts && c.entryPrice == df[entry].open
              && (c.outcome == SL <==> exists k: nat :: StopsAt(d, df, entry, hold, 3.0, 2.0, k))
              && (c.outcome == TP <==> exists k: nat :: TakesAt(d, df, entry, hold, 3.0, 2.0, k))
              && (c.outcome == TIME <==> exists k: nat :: TimesOutAt(d, df, entry, hold, 3.0, 2.0, k))
    ensures t.Some? ==>
              var c := t.value;
              && (forall k: nat | StopsAt(d, df, entry, hold, 3.0, 2.0, k) ::
                    c.exitTs == df[k].ts && c.exitPrice == c.entryPrice * (if d.Pump? then 0.98 else 1.02))
              && (forall k: nat | TakesAt(d, df, entry, hold, 3.0, 2.0, k) ::
                    c.exitTs == df[k].ts && c.exitPrice == c.entryPrice * (if d.Pump? then 1.03 else 0.97))
              && (forall k: nat | TimesOutAt(d, df, entry, hold, 3.0, 2.0, k) ::
                    c.exitTs == df[k].ts && c.exitPrice == df[k].close)
              && IsGross(d, c.entryPrice, c.exitPrice, c.grossReturnPct)
              && c.leverage == ComputeLeverage(Vol24hPct(df, idx))
  {
    hide WalkExit, Vol24hPct, ComputeLeverage, StopsAt, TakesAt, TimesOutAt, GrossPct, IsGross;
    if t.Some? {
      var x := WalkExit(d, df, entry, hold, 3.0, 2.0);
      WalkInPrices(d, df, entry, hold, 3.0, 2.0);
      forall k: nat
        ensures x.outcome == SL && x.bar == k <==> StopsAt(d, df, entry, hold, 3.0, 2.0, k)
        ensures x.outcome == TP && x.bar == k <==> TakesAt(d, df, entry, hold, 3.0, 2.0, k)
        ensures x.outcome == TIME && x.bar == k <==> TimesOutAt(d, df, entry, hold, 3.0, 2.0, k)
      {
        OneBarDecides(d, df, entry, hold, 3.0, 2.0, k);
      }
      GrossInPrices(d, df[entry].open, x.price);
    }
  }

  lemma BarAfterSignal(df: seq<Candle>, entry: nat, hold: nat, tpPct: real, slPct: real)
    requires 1 <= entry < |df| && hold > 0
    ensures entry <= WalkExit(Pump, df, entry, hold, tpPct, slPct).bar < |df|
  {
  }

  /** The sweep's result in candle extremes, for any two percentages; it counts bars and takes the fee off. */
  lemma SweepInPrices(df: seq<Candle>, idx: nat, entry: nat, tpPct: real, slPct: real, feeRt: real, hold: nat,
                      r: SweepReply)
    requires entry == idx + 1 && SweepExplains(df, idx, tpPct, slPct, feeRt, hold, r)
    ensures r.MissingCandles? <==> entry >= |df| || hold == 0
    ensures r.DivisionByZero? ==>
              df[entry].open == 0.0 && exists k: nat :: TimesOutAt(Pump, df, entry, hold, tpPct, slPct, k)
    ensures r.Swept? ==>
              var s, k := r.result, idx + r.result.holdMin;
              && k < |df| && s.holdMin >= 1 && s.net == s.gross - feeRt
              && match s.outcome
                 case SL => StopsAt(Pump, df, entry, hold, tpPct, slPct, k) && s.gross == -slPct
                 case TP => TakesAt(Pump, df, entry, hold, tpPct, slPct, k) && s.gross == tpPct
                 case TIME =>
                   && TimesOutAt(Pump, df, entry, hold, tpPct, slPct, k)
                   && IsGross(Pump, df[entry].open, df[k].close, s.gross)
  {
    hide WalkExit, StopsAt, TakesAt, TimesOutAt, GrossPct, IsGross;
    if entry < |df| && hold > 0 {
      WalkInPrices(Pump, df, entry, hold, tpPct, slPct);
      var x := WalkExit(Pump, df, entry, hold, tpPct, slPct);
      BarAfterSignal(df, entry, hold, tpPct, slPct);
      if df[entry].open != 0.0 {
        GrossInPrices(Pump, df[entry].open, x.price);
      }
    }
  }
}
