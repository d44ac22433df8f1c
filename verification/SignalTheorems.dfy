/**
 What the signal engine guarantees: where an entry's levels lie, which reasons it can report, what an entry
 implies, and that filters only remove entries.  The last section follows an entry through its scoring.
 */
module SignalTheorems {
  import opened Market
  import opened SignalEngine
  import Outcome

  // ----- Geometry of the levels -----

  ghost predicate StopFactorsPositive(p: Pair) {
    p.trendingFast.slK > 0.0 && p.trendingSwing.slK > 0.0 && p.driftFast.slK > 0.0 && p.rangingFast.slK > 0.0
  }

  /** Readings of a live market, and a drift target between a third of R and one R (0.4 unless overridden). */
  ghost predicate Tradable(x: Tick, t: Tuning, p: Pair) {
    && x.close > 0.0 && x.atr15 > 0.0 && x.atr1h > 0.0
    && StopFactorsPositive(p) && 1.0 <= 3.0 * t.driftTp1K && t.driftTp1K <= 1.0
  }

  lemma ProposalUsesConfig(x: Tick, t: Tuning, p: Pair)
    requires StopFactorsPositive(p) && ProposalOf(x, t, p).Some?
    ensures ProposalOf(x, t, p).value.slK > 0.0
    ensures ProposalOf(x, t, p).value.style.Swing? ==> RegimeOf(x, t).Trending?
  {
    hide RegimeOf, BbOk, FourHConflict, FiveOk, VwapSideOk, DriftVolOk, DeltaOpposes, FvgVeto, DriftDir;
  }

  lemma FastTargetInRange(x: Tick, t: Tuning, p: Pair, regime: Regime, d: real)
    requires Tradable(x, t, p) && d > 0.0
    ensures d <= 3.0 * FastTarget(t, regime, d) && 0.0 < FastTarget(t, regime, d) <= d
  {
    NonNegativeProduct(1.0 - t.driftTp1K, d);
    NonNegativeProduct(3.0 * t.driftTp1K - 1.0, d);
  }

  lemma OffsetAhead(x: Tick, side: Side, m: real)
    ensures Ahead(x, side, PriceAhead(x, side, m)) == m
  {
  }

  lemma StopBehindClose(x: Tick, c: Proposal)
    requires x.close > 0.0 && x.atr15 > 0.0 && c.slK > 0.0
    ensures Ahead(x, c.side, StopPrice(x, c)) < 0.0
  {
    hide StructuralStop;
    var u := c.slK * 1.2;
    assert u * x.atr15 > 0.0;
  }

  /** The stop lies behind the close; the target lies ahead by at most R, and by at least R/3 for a fast trade. */
  lemma LevelsStraddleClose(x: Tick, t: Tuning, p: Pair, regime: Regime, c: Proposal)
    requires Tradable(x, t, p) && c.slK > 0.0
    ensures var l := LevelsFor(x, t, regime, c);
            && l.slDist == -Ahead(x, c.side, l.sl) > 0.0
            && 0.0 < Ahead(x, c.side, l.tp) <= l.slDist
            && Ahead(x, c.side, l.tp2) > 0.0
            && (c.style.Fast? ==> l.slDist <= 3.0 * Ahead(x, c.side, l.tp) && Ahead(x, c.side, l.tp2) == l.slDist * 1.5)
            && (c.style.Swing? ==> Ahead(x, c.side, l.tp) == Min(l.slDist, x.atr1h * 0.5)
                                   && Ahead(x, c.side, l.tp2) == Min(l.slDist * 2.5, x.atr1h * 1.2))
  {
    hide StopPrice, FastTarget, Ahead, PriceAhead;
    StopBehindClose(x, c);
    var d := -Ahead(x, c.side, StopPrice(x, c));
    FastTargetInRange(x, t, p, regime, d);
    OffsetAhead(x, c.side, FastTarget(t, regime, d));
    OffsetAhead(x, c.side, d * 1.5);
    OffsetAhead(x, c.side, Min(d, x.atr1h * 0.5));
    OffsetAhead(x, c.side, Min(d * 2.5, x.atr1h * 1.2));
  }

  lemma RatioBelow(a: real, d: real)
    requires d > 0.0
    ensures a / d < 0.8 <==> a < d * 0.8
  {
    var q := a / d;
    assert q * d == a;
    if q < 0.8 {
      assert (0.8 - q) * d > 0.0;
    } else {
      assert (q - 0.8) * d >= 0.0;
    }
  }

  lemma RrVetoMeans(x: Tick, t: Tuning, p: Pair, regime: Regime, c: Proposal)
    requires Tradable(x, t, p) && c.slK > 0.0
    ensures var l := LevelsFor(x, t, regime, c);
            RrLowFor(x, l) <==> l.sl != 0.0 && l.tp2 != 0.0 && Ahead(x, c.side, l.tp2) < l.slDist * 0.8
  {
    LevelsStraddleClose(x, t, p, regime, c);
    var l := LevelsFor(x, t, regime, c);
    hide LevelsFor;
    assert Abs(l.tp2 - x.close) == Ahead(x, c.side, l.tp2);
    RatioBelow(Abs(l.tp2 - x.close), l.slDist);
  }

  lemma EntryComesFrom(x: Tick, t: Tuning, p: Pair)
    requires Expected(x, t, p).entry
    ensures ProposalOf(x, t, p).Some?
    ensures var e, regime, c := Expected(x, t, p), RegimeOf(x, t), ProposalOf(x, t, p).value;
            && HardVeto(x, t, p, regime, c).None?
            && x.close != 0.0
            && e == Signal(true, None, Some(c.style), Some(c.side), regime, x.close, Some(LevelsFor(x, t, regime, c)))
            && SoftVeto(x, regime, c, e.levels).None?
  {
    hide RegimeOf, ProposalOf, RegimeReason, HardVeto, LevelsFor, VwapOk, FundingBlocks, RrLowFor;
  }

  /** The R/R check passed over an entry's second target because that price is exactly zero. */
  ghost predicate RrCheckSkipped(s: Signal) { s.levels.Some? && s.style == Some(Swing) && s.levels.value.tp2 == 0.0 }

  /**
   Every entry has its stop strictly behind the close and its target strictly ahead, at most one R away.  The
   target is at least a third of R away, for a swing because the R/R check demands 0.8R of the second target;
   that floor fails exactly when the check was skipped and the hourly range is short of two thirds of R.
   */
  lemma EntryLevels(x: Tick, t: Tuning, p: Pair)
    requires Tradable(x, t, p) && Expected(x, t, p).entry
    ensures var e := Expected(x, t, p);
            && e.levels.Some? && e.side.Some? && e.close == x.close
            && var l, tp1 := e.levels.value, Ahead(x, e.side.value, e.levels.value.tp);
            && l.slDist == -Ahead(x, e.side.value, l.sl) > 0.0
            && 0.0 < tp1 <= l.slDist
            && (l.slDist <= 3.0 * tp1 <==> !(RrCheckSkipped(e) && x.atr1h * 1.5 < l.slDist))
  {
    EntryComesFrom(x, t, p);
    var regime, c := RegimeOf(x, t), ProposalOf(x, t, p).value;
    ProposalUsesConfig(x, t, p);
    LevelsStraddleClose(x, t, p, regime, c);
    RrVetoMeans(x, t, p, regime, c);
    hide RegimeOf, ProposalOf, HardVeto, Expected, LevelsFor, RrLowFor;
    var l := LevelsFor(x, t, regime, c);
    assert l.sl != 0.0 && !RrLowFor(x, l);
  }

  /** The engine's settings when nothing overrides them. */
  const DEFAULT_TUNING := Tuning(
    false, 3, 0.4, 999.0, 3.0, 999.0, {22, 23, 0, 1}, 999.0, 0.9, 99, true, 35.0, false, 20.0, 26.0, 40.0, 5.0)

  /** The settings of BTC-USDT; a limit that its regime does not use is zero. */
  const BTC_PAIR := Pair(
    Cfg(18.0, 0.0, 0.7, 1.2, 0.4, 0.0, false, 0.0, 0.0),
    Cfg(18.0, 0.0, 0.7, 1.6, 0.7, 0.0, false, 0.0, 0.0),
    Cfg(0.0, 0.0, 1.2, 1.2, 0.0, 0.0, false, 0.0, 0.0),
    Cfg(0.0, 20.0, 1.3, 1.2, 0.8, 2.5, false, 0.30, 0.70),
    {Fast, Swing}, 4.0, false)

  /** A falling market whose hourly range is five sixths of its price. */
  const STEEP_TICK := Tick(
    false, true, Combined, false, {}, 12, false,
    30.0, true, 20.0, 20.0, 30.0, 20.0, 20.0, Down, Down, -50.0, -40.0, -50.0, -40.0,
    Down, Down, false, true, 187.5, 100.0, 120.0, 1.0, 2.0, None, None, 0.0, false, None, None, None, 0.0, 0.0, 0.0)

  /** The one way out of the floor: a short swing whose second target is the price zero. */
  lemma RrCheckSkippedWitness()
    ensures Tradable(STEEP_TICK, DEFAULT_TUNING, BTC_PAIR)
    ensures var e := Expected(STEEP_TICK, DEFAULT_TUNING, BTC_PAIR);
            && e.entry && e.side == Some(Sell) && e.levels == Some(Levels(480.0, 70.0, 0.0, 360.0))
            && RrCheckSkipped(e) && 3.0 * Ahead(STEEP_TICK, Sell, 70.0) < 360.0
  {
    var c := Proposal(Swing, Sell, 1.6);
    assert ProposalOf(STEEP_TICK, DEFAULT_TUNING, BTC_PAIR) == Some(c);
    assert HardVeto(STEEP_TICK, DEFAULT_TUNING, BTC_PAIR, Trending, c).None?;
    assert LevelsFor(STEEP_TICK, DEFAULT_TUNING, Trending, c) == Levels(480.0, 70.0, 0.0, 360.0);
  }

  // ----- What the engine can report -----

  ghost predicate NeverReported(r: Reason) { r in {TrendingNoFvg, Trending4hBlock, TrendingDiSpread} }

  /** A trending market has passed the four-hour checks already. */
  lemma TrendingReadings(x: Tick, t: Tuning)
    ensures RegimeOf(x, t).Trending? ==> !FourHConflict(x) && x.adx4h >= 22.0 && x.di4h >= 10.0 && x.di1h >= 8.0
  {
    hide FourHConflict, RegimeScore;
  }

  lemma ReasonsOfRegime(x: Tick, t: Tuning, p: Pair)
    ensures !NeverReported(RegimeReason(x, t, p)) && RegimeReason(x, t, p) !in {VwapSide, RrLow}
  {
    hide RegimeOf, FourHConflict, VwapSideOk, DriftVolOk, DeltaOpposes, DriftDir;
    TrendingReadings(x, t);
  }

  lemma ReasonsOfVetoes(x: Tick, t: Tuning, p: Pair, regime: Regime, c: Proposal)
    ensures HardVeto(x, t, p, regime, c) !in {Some(VwapSide), Some(RrLow)}
    ensures HardVeto(x, t, p, regime, c).Some? ==> !NeverReported(HardVeto(x, t, p, regime, c).value)
  {
    hide SlopeOk, VwapStretch, MoveFromBase, LateScore, Strong4h, LateMoveFor;
  }

  /** A drift proposal already stands on the right side of VWAP. */
  lemma DriftSideOfVwap(x: Tick, t: Tuning, p: Pair)
    requires ProposalOf(x, t, p).Some?
    ensures !RegimeOf(x, t).Ranging? ==> VwapOk(x, RegimeOf(x, t), ProposalOf(x, t, p).value.side)
  {
    hide RegimeOf, DriftVolOk, DeltaOpposes, FiveOk;
  }

  lemma FastPassesRr(x: Tick, t: Tuning, regime: Regime, c: Proposal)
    requires c.style.Fast?
    ensures !RrLowFor(x, LevelsFor(x, t, regime, c))
  {
    hide StopPrice, InDrift;
    var l := LevelsFor(x, t, regime, c);
    if l.slDist > 0.0 {
      assert Abs(l.tp2 - x.close) == l.slDist * 1.5;
      RatioBelow(l.slDist * 1.5, l.slDist);
    }
  }

  /**
   Every refusal has a reason and no entry has one; side and style come together.  The missing-gap reason and two
   trend reasons are never reported, the VWAP block only in ranging markets, the R/R block only for swings.
   */
  lemma ReportedReasons(x: Tick, t: Tuning, p: Pair)
    ensures var e := Expected(x, t, p);
            && (e.entry <==> e.drop.None?)
            && (e.style.Some? <==> e.side.Some?)
            && (e.entry ==> e.style.Some? && e.levels.Some?)
            && (e.drop.Some? ==> !NeverReported(e.drop.value))
            && (e.drop == Some(VwapSide) ==> e.regime.Ranging?)
            && (e.drop == Some(RrLow) ==> e.style == Some(Swing))
  {
    hide RegimeOf, ProposalOf, RegimeReason, HardVeto, LevelsFor, VwapOk, RrLowFor;
    ReasonsOfRegime(x, t, p);
    var regime, c := RegimeOf(x, t), ProposalOf(x, t, p);
    if c.Some? {
      ReasonsOfVetoes(x, t, p, regime, c.value);
      DriftSideOfVwap(x, t, p);
      if c.value.style.Fast? {
        FastPassesRr(x, t, regime, c.value);
      }
    }
  }

  // ----- What an entry means -----

  /** What the stages before the vetoes imply for a proposal. */
  ghost predicate ProposalFits(x: Tick, t: Tuning, p: Pair, regime: Regime, c: Proposal) {
    && !regime.Choppy? && FiveOk(x, c.side)
    && (c.style.Fast? ==> x.mode != SwingOnly)
    && (c.style.Swing? ==> x.mode != FastOnly && regime.Trending?)
    && (regime.Trending? ==> x.adx1hRising && Agrees(x.bias1h, c.side) && !FourHConflict(x))
    && (regime.Ranging? ==> !x.adx1hRising && x.dayPosition.Some?)
    && (InDrift(regime) ==>
          Agrees(DriftDir(x), c.side) && p.driftFast.vol <= x.volRatio <= t.driftMaxVol && Vwap(x).Some?
          && if c.side.Buy? then x.close > Vwap(x).value && x.tradeDelta >= -0.3
             else x.close < Vwap(x).value && x.tradeDelta <= 0.3)
  }

  lemma ProposalMeans(x: Tick, t: Tuning, p: Pair)
    requires ProposalOf(x, t, p).Some?
    ensures ProposalFits(x, t, p, RegimeOf(x, t), ProposalOf(x, t, p).value)
  {
    hide RegimeOf, BbOk, FourHConflict, FvgVeto, DriftDir;
    TrendingReadings(x, t);
  }

  /**
   An entry read back into its market: long only in a drift, and then above VWAP with the trend strong enough;
   with the hourly bias and free of a four-hour conflict in a trend; never against a confirmed four-hour bias,
   in a blocked hour, into crowded funding, or into falling open interest outside a trend.
   */
  lemma EntryMeans(x: Tick, t: Tuning, p: Pair)
    requires Expected(x, t, p).entry
    ensures var e := Expected(x, t, p);
            e.style.Some? && e.side.Some?
            && var style, side := e.style.value, e.side.value;
            && ProposalFits(x, t, p, e.regime, Proposal(style, side, ProposalOf(x, t, p).value.slK))
            && style in p.allowed && !(x.nightFilter && x.isNight) && x.hour !in x.timeBlock
            && (style.Fast? && x.di4hClosed >= 8.0 ==> x.bias4h == Neutral || Agrees(x.bias4h, side))
            && (InDrift(e.regime) ==> side.Buy? && style.Fast? && x.adx1h >= 15.0)
            && (!e.regime.Ranging? ==>
                  var now, before := if style.Fast? then x.slope15m else x.slope1h,
                                     if style.Fast? then x.slope15mPrev else x.slope1hPrev;
                  var least, accel := if e.regime.WeakTrend? then t.weakSlopeMin else t.slopeMin,
                                      if e.regime.WeakTrend? then t.weakSlopeAccel else 0.0;
                  if side.Buy? then now >= least && now > before + accel else now <= -least && now < before - accel)
            && (!e.regime.Trending? ==> x.oiDelta >= -0.03)
            && (if side.Buy? then x.funding <= 0.0005 else x.funding >= -0.0005)
  {
    hide RegimeOf, ProposalOf, Expected, LevelsFor, VwapOk, RrLowFor, DriftVeto;
    hide FiveOk, FourHConflict, DriftDir;
    EntryComesFrom(x, t, p);
    ProposalMeans(x, t, p);
  }

  // ----- Filters only remove entries -----

  /** The second set of filters asks no more than the first; everything else is the same. */
  ghost predicate NoStricter(x: Tick, t: Tuning, p: Pair, y: Tick, u: Tuning, q: Pair) {
    && y == x.(nightFilter := y.nightFilter, timeBlock := y.timeBlock)
    && (y.nightFilter ==> x.nightFilter) && y.timeBlock <= x.timeBlock
    && u == t.(driftMaxVol := u.driftMaxVol, driftBtcVolMax := u.driftBtcVolMax, driftVwapStretch := u.driftVwapStretch,
               ethBlockHours := u.ethBlockHours, driftMoveFromBase := u.driftMoveFromBase,
               driftVolDecayMin := u.driftVolDecayMin, lateScoreMax := u.lateScoreMax, requireFvg := u.requireFvg,
               slopeMin := u.slopeMin, weakSlopeMin := u.weakSlopeMin, weakSlopeAccel := u.weakSlopeAccel)
    && t.driftMaxVol <= u.driftMaxVol && t.driftBtcVolMax <= u.driftBtcVolMax
    && t.driftVwapStretch <= u.driftVwapStretch && u.ethBlockHours <= t.ethBlockHours
    && t.driftMoveFromBase <= u.driftMoveFromBase && u.driftVolDecayMin <= t.driftVolDecayMin
    && t.lateScoreMax <= u.lateScoreMax && (u.requireFvg ==> t.requireFvg)
    && u.slopeMin <= t.slopeMin && u.weakSlopeMin <= t.weakSlopeMin && u.weakSlopeAccel <= t.weakSlopeAccel
    && q == p.(allowed := q.allowed, lateRange := q.lateRange, driftBiasCheck := q.driftBiasCheck)
    && p.allowed <= q.allowed && p.lateRange <= q.lateRange && (q.driftBiasCheck ==> p.driftBiasCheck)
  }

  lemma SameRegime(x: Tick, t: Tuning, p: Pair, y: Tick, u: Tuning, q: Pair)
    requires NoStricter(x, t, p, y, u, q)
    ensures RegimeOf(y, u) == RegimeOf(x, t)
  {
  }

  lemma SameProposal(x: Tick, t: Tuning, p: Pair, y: Tick, u: Tuning, q: Pair)
    requires NoStricter(x, t, p, y, u, q) && ProposalOf(x, t, p).Some?
    ensures ProposalOf(y, u, q) == ProposalOf(x, t, p)
  {
    hide RegimeOf;
    SameRegime(x, t, p, y, u, q);
  }

  lemma SameStop(x: Tick, t: Tuning, p: Pair, y: Tick, u: Tuning, q: Pair, regime: Regime, c: Proposal)
    requires NoStricter(x, t, p, y, u, q)
    ensures StopPrice(y, c) == StopPrice(x, c)
  {
    hide Wider, StructuralStop;
    assert y.atr15 == x.atr15 && y.close == x.close && y.recentLow == x.recentLow && y.recentHigh == x.recentHigh;
    var volatility := c.slK * 1.2 * x.atr15;
    assert c.slK * 1.2 * y.atr15 == volatility;
  }

  lemma SameRrVeto(x: Tick, t: Tuning, p: Pair, y: Tick, u: Tuning, q: Pair, l: Levels)
    requires NoStricter(x, t, p, y, u, q)
    ensures RrLowFor(y, l) == RrLowFor(x, l)
    ensures forall regime, side :: VwapOk(y, regime, side) == VwapOk(x, regime, side)
  {
  }

  lemma SameLevels(x: Tick, t: Tuning, p: Pair, y: Tick, u: Tuning, q: Pair, regime: Regime, c: Proposal)
    requires NoStricter(x, t, p, y, u, q)
    ensures y.close == x.close && LevelsFor(y, u, regime, c) == LevelsFor(x, t, regime, c)
    ensures SoftVeto(y, regime, c, Some(LevelsFor(y, u, regime, c)))
         == SoftVeto(x, regime, c, Some(LevelsFor(x, t, regime, c)))
  {
    hide StopPrice, RrLowFor, VwapOk;
    SameStop(x, t, p, y, u, q, regime, c);
    SameRrVeto(x, t, p, y, u, q, LevelsFor(x, t, regime, c));
  }

  lemma FewerDriftVetoes(x: Tick, t: Tuning, p: Pair, y: Tick, u: Tuning, q: Pair, regime: Regime, c: Proposal)
    requires NoStricter(x, t, p, y, u, q) && DriftVeto(x, t, regime, c).None?
    ensures DriftVeto(y, u, regime, c).None?
  {
  }

  lemma FewerHardVetoes(x: Tick, t: Tuning, p: Pair, y: Tick, u: Tuning, q: Pair, regime: Regime, c: Proposal)
    requires NoStricter(x, t, p, y, u, q) && HardVeto(x, t, p, regime, c).None?
    ensures HardVeto(y, u, q, regime, c).None?
  {
    hide DriftVeto;
    FewerDriftVetoes(x, t, p, y, u, q, regime, c);
  }

  /** Relaxing filters keeps every entry, with the same style, side, regime and levels. */
  lemma LooserFiltersKeepEntries(x: Tick, t: Tuning, p: Pair, y: Tick, u: Tuning, q: Pair)
    requires NoStricter(x, t, p, y, u, q) && Expected(x, t, p).entry
    ensures Expected(y, u, q) == Expected(x, t, p)
  {
    hide NoStricter, RegimeOf, ProposalOf, RegimeReason, HardVeto, SoftVeto, LevelsFor;
    EntryComesFrom(x, t, p);
    var regime, c := RegimeOf(x, t), ProposalOf(x, t, p).value;
    SameRegime(x, t, p, y, u, q);
    SameProposal(x, t, p, y, u, q);
    SameLevels(x, t, p, y, u, q, regime, c);
    FewerHardVetoes(x, t, p, y, u, q, regime, c);
  }

  // ----- From entry to score -----

  function PlanOf(s: Signal, ts: int, holdMs: int): Outcome.Plan
    requires s.side.Some? && s.levels.Some?
  {
    Outcome.Plan(s.side.value, s.levels.value.sl, s.levels.value.tp, ts, holdMs)
  }

  lemma TargetInR(m: real, d: real)
    requires 0.0 < m <= d
    ensures 0.0 < m / d <= 1.0
    ensures d <= 3.0 * m ==> 3.0 * (m / d) >= 1.0
  {
    var q := m / d;
    assert q * d == m;
    Outcome.Ratio(m, d);
    var short := 1.0 - 3.0 * q;
    if short > 0.0 {
      assert short * d > 0.0;
    }
  }

  lemma StopHasPrice(plan: Outcome.Plan, entry: real, raw: seq<Candle>)
    ensures var r := Outcome.OutcomeOf(plan, Some(entry), raw);
            r.outcome in {Outcome.Stop, Outcome.TakeProfit} ==> r.exitPrice.Some?
  {
  }

  /**
   End to end: an entry scored on any valid candles with any hold comes out between -1R and +1R, at -1R exactly
   when stopped; a target pays a third of R at least, unless the R/R check was skipped, and never nothing.
   */
  lemma EntryScore(x: Tick, t: Tuning, p: Pair, ts: int, holdMs: int, raw: seq<Candle>)
    requires Tradable(x, t, p) && Expected(x, t, p).entry && ValidCandles(raw)
    ensures var e := Expected(x, t, p);
            && e.side.Some? && e.levels.Some?
            && var plan := PlanOf(e, ts, holdMs);
            var r := Outcome.OutcomeOf(plan, Some(x.close), raw);
            var score := Outcome.BacktestExitR(plan, x.close, r.exitPrice);
            && -1.0 <= score <= 1.0
            && (score == -1.0 <==> r.outcome == Outcome.Stop)
            && (r.outcome == Outcome.TakeProfit ==> score > 0.0 && (!RrCheckSkipped(e) ==> 3.0 * score >= 1.0))
            && (r.exitPrice.Some? ==> score <= r.mfeR)
  {
    hide Expected, Outcome.OutcomeOf;
    EntryLevels(x, t, p);
    var e := Expected(x, t, p);
    var plan := PlanOf(e, ts, holdMs);
    Outcome.ScoresAgree(plan, x.close, raw);
    if Outcome.OutcomeOf(plan, Some(x.close), raw).exitPrice.Some? {
      Outcome.ExitWithinExcursions(plan, x.close, raw);
      TargetInR(Ahead(x, plan.side, plan.tp), e.levels.value.slDist);
    } else {
      StopHasPrice(plan, x.close, raw);
    }
  }
}
