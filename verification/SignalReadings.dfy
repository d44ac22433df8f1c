/**
 The signal engine read back into its indicator readings: when each regime holds, exactly what each proposes, which
 condition stands behind each reason and in which order they are asked, and where the levels lie.  Every threshold
 appears here as a number, and every clause for a long beside the one for a short.
 */
module SignalReadings {
  import opened Market
  import opened SignalEngine
  import opened SignalTheorems

  // ----- Regimes -----

  /** The four-hour bias disagrees with the hourly one and is confirmed. */
  ghost predicate Conflicted(x: Tick) { x.di4hClosed >= 12.0 && x.bias4h != Neutral && x.bias1h != x.bias4h }

  ghost predicate StrongTrend(x: Tick) { x.adx4h >= 22.0 && x.di4h >= 10.0 && x.adx1h >= 18.0 && x.di1h >= 8.0 }

  ghost predicate WeakTrendSeen(x: Tick, t: Tuning) {
    && t.weakTrend && t.weakAdxMin <= x.adx1h && x.adx1h <= t.weakAdxMax && x.di1h >= 8.0
    && (x.adx1hRising || x.supertrend in {Up, Down})
  }

  ghost predicate Drifting(x: Tick) { 12.0 <= x.adx1h && x.adx1h <= 30.0 && x.di1h >= 5.0 }

  ghost predicate WideAndFlat(x: Tick) { x.bbWidth >= 3.0 && x.di1h < 6.0 && x.adx4h < 22.0 }

  /** How many signs of a direction are present. */
  ghost function Signs(x: Tick): int {
    (if x.di1h >= 8.0 then 1 else 0) + (if x.slope1h >= 25.0 || x.slope1h <= -25.0 then 1 else 0)
    + (if x.bias1h in {Up, Down} then 1 else 0) + (if x.volRatio >= 0.8 then 1 else 0)
    + (if x.adx1h >= 20.0 then 1 else 0)
  }

  /** Enough of them lift a market without a regime of its own into a drift. */
  ghost predicate Promoted(x: Tick, t: Tuning) { t.regimeScore && Signs(x) >= t.regimeScoreMin }

  lemma SignsCounted(x: Tick)
    ensures Signs(x) == RegimeScore(x)
  {
  }

  /** A regime of its own, or none: a strong trend in conflict counts as none. */
  ghost predicate NoRegime(x: Tick, t: Tuning) {
    if StrongTrend(x) then Conflicted(x) else !WeakTrendSeen(x, t) && !Drifting(x) && !WideAndFlat(x)
  }

  lemma RegimeReading(x: Tick, t: Tuning)
    ensures RegimeOf(x, t) == Trending <==> StrongTrend(x) && !Conflicted(x)
    ensures RegimeOf(x, t) == WeakTrend <==> !StrongTrend(x) && WeakTrendSeen(x, t)
    ensures RegimeOf(x, t) == Drift <==>
              (!StrongTrend(x) && !WeakTrendSeen(x, t) && Drifting(x)) || (NoRegime(x, t) && Promoted(x, t))
    ensures RegimeOf(x, t) == Choppy <==>
              !StrongTrend(x) && !WeakTrendSeen(x, t) && !Drifting(x) && WideAndFlat(x)
    ensures RegimeOf(x, t) == Ranging <==> NoRegime(x, t) && !Promoted(x, t)
  {
    hide RegimeScore, Signs;
    SignsCounted(x);
  }

  // ----- Proposals -----

  ghost predicate Trigger(x: Tick, side: Side) {
    match side
    case Buy => x.fiveLong
    case Sell => x.fiveShort
  }

  ghost function Heading(side: Side): Bias {
    match side
    case Buy => Up
    case Sell => Down
  }

  ghost predicate BandOk(x: Tick, c: Cfg) { x.bbWidth >= c.bbMin && (!c.requireExpanding || x.bbWidth > 1.5) }

  ghost predicate SwingReady(x: Tick, c: Cfg) {
    && x.mode in {SwingOnly, Combined} && x.adx1h >= c.adx && x.adx1hRising && x.volRatio >= c.vol && BandOk(x, c)
    && !Conflicted(x) && x.adx4h >= 20.0 && x.di4h >= 8.0 && x.di1h >= 8.0
  }

  ghost predicate FastReady(x: Tick, c: Cfg) {
    x.mode in {FastOnly, Combined} && x.adx1h >= c.adx && x.adx1hRising && x.volRatio >= c.vol && BandOk(x, c)
  }

  /** A trend proposes with the hourly bias: a swing if one is ready, else a fast trade inside a gap. */
  lemma TrendingReading(x: Tick, t: Tuning, p: Pair, side: Side)
    requires RegimeOf(x, t).Trending?
    ensures var c := ProposalOf(x, t, p);
            && (c == Some(Proposal(Swing, side, p.trendingSwing.slK)) <==>
                  x.bias1h == Heading(side) && Trigger(x, side) && SwingReady(x, p.trendingSwing))
            && (c == Some(Proposal(Fast, side, p.trendingFast.slK)) <==>
                  && x.bias1h == Heading(side) && Trigger(x, side) && !SwingReady(x, p.trendingSwing)
                  && FastReady(x, p.trendingFast) && (t.requireFvg ==> x.fvgInside))
            && (c.Some? && c.value.side == side ==>
                  c.value.slK == if c.value.style.Swing? then p.trendingSwing.slK else p.trendingFast.slK)
  {
    hide RegimeOf;
  }

  ghost predicate RangeReady(x: Tick, c: Cfg) {
    && x.mode in {FastOnly, Combined} && !x.adx1hRising && x.volRatio >= c.vol
    && ((x.adx1h <= c.adxMax && c.bbMin <= x.bbWidth && x.bbWidth <= c.bbMax)
        || (c.adxMax < x.adx1h && x.adx1h <= 28.0 && x.di15m >= 12.0))
  }

  ghost predicate NearLow(x: Tick, c: Cfg) { x.dayPosition.Some? && x.dayPosition.value <= c.buyPosMax }

  ghost predicate NearHigh(x: Tick, c: Cfg) { x.dayPosition.Some? && x.dayPosition.value >= c.sellPosMin }

  /** A range fades its edges: a long near the day's low, else a short near its high. */
  lemma RangingReading(x: Tick, t: Tuning, p: Pair)
    requires RegimeOf(x, t).Ranging?
    ensures var c, r := ProposalOf(x, t, p), p.rangingFast;
            && (c == Some(Proposal(Fast, Buy, r.slK)) <==> RangeReady(x, r) && x.fiveLong && NearLow(x, r))
            && (c == Some(Proposal(Fast, Sell, r.slK)) <==>
                  RangeReady(x, r) && x.fiveShort && NearHigh(x, r) && !(x.fiveLong && NearLow(x, r)))
            && (c.Some? ==> c.value.style == Fast && c.value.slK == r.slK)
  {
    hide RegimeOf;
  }

  /** The drift's direction: that of the average, or of the supertrend where the average is flat. */
  ghost predicate DriftsTo(x: Tick, side: Side) {
    x.emaSlope == Heading(side) || (x.emaSlope == Neutral && x.supertrend == Heading(side))
  }

  ghost predicate BeyondVwap(x: Tick, side: Side) {
    x.vwap.Some? && x.vwap.value != 0.0 &&
    match side
    case Buy => x.close > x.vwap.value
    case Sell => x.close < x.vwap.value
  }

  ghost predicate FlowAgainst(x: Tick, side: Side) {
    match side
    case Buy => x.tradeDelta < -0.3
    case Sell => x.tradeDelta > 0.3
  }

  ghost predicate VolumeInBand(x: Tick, t: Tuning, p: Pair) {
    p.driftFast.vol <= x.volRatio && x.volRatio <= t.driftMaxVol
  }

  /** A drift proposes a fast trade along it, beyond VWAP, with the volume in its band and no flow against it. */
  lemma DriftReading(x: Tick, t: Tuning, p: Pair, side: Side)
    requires RegimeOf(x, t) in {Drift, WeakTrend}
    ensures var c := ProposalOf(x, t, p);
            && (c == Some(Proposal(Fast, side, p.driftFast.slK)) <==>
                  && x.mode in {FastOnly, Combined} && DriftsTo(x, side) && BeyondVwap(x, side) && VolumeInBand(x, t, p)
                  && !FlowAgainst(x, side) && Trigger(x, side)
                  && (p.driftBiasCheck ==> x.bias1h in {Heading(side), Neutral}))
            && (c.Some? ==> c.value.style == Fast && c.value.slK == p.driftFast.slK)
  {
    hide RegimeOf;
  }

  lemma ChoppyReading(x: Tick, t: Tuning, p: Pair)
    requires RegimeOf(x, t).Choppy?
    ensures ProposalOf(x, t, p).None?
  {
  }

  // ----- Reasons: what stands behind each, and which comes first -----

  /** Place of a reason in its chain; the first whose condition holds is the one reported. */
  ghost function Rank(r: Reason): nat {
    match r
    // a trend without a proposal
    case TrendingAdxLow => 0
    case TrendingAdxNotRising => 1
    case TrendingVolLow => 2
    case TrendingBbNarrow => 3
    case Trending4hBlock => 4
    case TrendingDiSpread => 5
    case TrendingNeutralBias => 6
    case TrendingNo5m => 7
    // a range without one
    case RangingAdxHigh => 0
    case RangingAdxRising => 1
    case RangingBbOutside => 2
    case RangingVolLow => 3
    case RangingDayPosNone => 4
    case RangingDayPosWrong => 5
    // a drift without one
    case DriftEmaFlat => 0
    case DriftVwapWrong => 1
    case DriftVolLow => 2
    case DriftDeltaWrong => 3
    case DriftNo5m => 4
    // what clears a proposal
    case DriftVwapStretch => 0
    case DriftEthHour => 1
    case DriftLateFromBase => 2
    case DriftVolDecay => 3
    case DriftBtcVolHigh => 4
    case DriftLateScore(_) => 5
    case Strong4hVeto => 6
    case AllowedModes => 7
    case Night => 8
    case TimeBlock => 9
    case LateMove => 10
    case DriftAdx1hLow => 11
    case DriftShortVeto => 12
    case SlopeWeak => 13
    // what holds it back
    case VwapSide => 0
    case Funding => 1
    case OiWeak => 2
    case RrLow => 3
    case NoSlTp => 4
    case ChoppyMarket => 0
    case TrendingNoFvg => 8
  }

  /** Why a trend proposes nothing. */
  ghost predicate TrendLacks(x: Tick, p: Pair, r: Reason) {
    match r
    case TrendingAdxLow => x.adx1h < p.trendingFast.adx
    case TrendingAdxNotRising => !x.adx1hRising
    case TrendingVolLow => x.volRatio < p.trendingFast.vol && x.volRatio < p.trendingSwing.vol
    case TrendingBbNarrow => x.bbWidth < p.trendingFast.bbMin
    case Trending4hBlock => Conflicted(x) || x.adx4h < 20.0
    case TrendingDiSpread => x.di4h < 8.0 || x.di1h < 8.0
    case TrendingNeutralBias => x.bias1h == Neutral
    case TrendingNo5m => true
    case _ => false
  }

  ghost predicate RangeLacks(x: Tick, p: Pair, r: Reason) {
    match r
    case RangingAdxHigh => p.rangingFast.adxMax < x.adx1h
    case RangingAdxRising => x.adx1hRising
    case RangingBbOutside => x.bbWidth < p.rangingFast.bbMin || p.rangingFast.bbMax < x.bbWidth
    case RangingVolLow => x.volRatio < p.rangingFast.vol
    case RangingDayPosNone => x.dayPosition == None
    case RangingDayPosWrong => true
    case _ => false
  }

  ghost predicate DriftLacks(x: Tick, t: Tuning, p: Pair, r: Reason) {
    match r
    case DriftEmaFlat => x.emaSlope == Neutral && x.supertrend == Neutral
    case DriftVwapWrong => forall side :: !(DriftsTo(x, side) && BeyondVwap(x, side))
    case DriftVolLow => !VolumeInBand(x, t, p)
    case DriftDeltaWrong => exists side :: DriftsTo(x, side) && FlowAgainst(x, side)
    case DriftNo5m => true
    case _ => false
  }

  lemma TrendReasonReading(x: Tick, t: Tuning, p: Pair)
    requires RegimeOf(x, t).Trending?
    ensures var r := RegimeReason(x, t, p); TrendLacks(x, p, r) && forall q | Rank(q) < Rank(r) :: !TrendLacks(x, p, q)
  {
    hide RegimeOf;
  }

  lemma RangeReasonReading(x: Tick, t: Tuning, p: Pair)
    requires RegimeOf(x, t).Ranging?
    ensures var r := RegimeReason(x, t, p); RangeLacks(x, p, r) && forall q | Rank(q) < Rank(r) :: !RangeLacks(x, p, q)
  {
    hide RegimeOf;
  }

  lemma BandIsVolOk(x: Tick, t: Tuning, p: Pair)
    ensures VolumeInBand(x, t, p) == DriftVolOk(x, t, p)
  {
  }

  lemma DriftReasonReading(x: Tick, t: Tuning, p: Pair)
    requires RegimeOf(x, t) in {Drift, WeakTrend}
    ensures var r := RegimeReason(x, t, p);
            DriftLacks(x, t, p, r) && forall q | Rank(q) < Rank(r) :: !DriftLacks(x, t, p, q)
  {
    hide RegimeOf, VolumeInBand, DriftVolOk;
    BandIsVolOk(x, t, p);
    assert VwapSideOk(x) <==> exists side :: DriftsTo(x, side) && BeyondVwap(x, side) by {
      if VwapSideOk(x) {
        assert DriftsTo(x, if DriftDir(x) == Up then Buy else Sell);
      }
    }
    assert DeltaOpposes(x) <==> exists side :: DriftsTo(x, side) && FlowAgainst(x, side) by {
      if DeltaOpposes(x) {
        assert DriftsTo(x, if DriftDir(x) == Up then Buy else Sell);
      }
    }
  }

  /** The reason a regime gives for proposing nothing is the first that applies. */
  lemma RegimeReasonReading(x: Tick, t: Tuning, p: Pair)
    ensures var regime, r := RegimeOf(x, t), RegimeReason(x, t, p);
            match regime
            case Choppy => r == ChoppyMarket
            case Trending => TrendLacks(x, p, r) && forall q | Rank(q) < Rank(r) :: !TrendLacks(x, p, q)
            case Ranging => RangeLacks(x, p, r) && forall q | Rank(q) < Rank(r) :: !RangeLacks(x, p, q)
            case _ => DriftLacks(x, t, p, r) && forall q | Rank(q) < Rank(r) :: !DriftLacks(x, t, p, q)
  {
    hide RegimeOf, TrendLacks, RangeLacks, DriftLacks, Rank;
    match RegimeOf(x, t) {
      case Choppy =>
      case Trending => TrendReasonReading(x, t, p);
      case Ranging => RangeReasonReading(x, t, p);
      case _ => DriftReasonReading(x, t, p);
    }
  }

  /** The close is more than `atrs` quarter-hour ranges away from VWAP. */
  ghost predicate Stretched(x: Tick, atrs: real) {
    x.vwap.Some? && x.vwap.value != 0.0
    && (x.close - x.vwap.value > atrs * x.atr15 || x.vwap.value - x.close > atrs * x.atr15)
  }

  /** The close is more than `atrs` ranges beyond the last swing it came from. */
  ghost predicate FarFromBase(x: Tick, side: Side, atrs: real) {
    match side
    case Buy => x.recentLow.Some? && x.close - x.recentLow.value > atrs * x.atr15
    case Sell => x.recentHigh.Some? && x.recentHigh.value - x.close > atrs * x.atr15
  }

  ghost predicate FadedTrigger(x: Tick, least: real) { x.triggerVolRatio.Some? && x.triggerVolRatio.value < least }

  /** Signs of a late drift. */
  ghost function Lateness(x: Tick, side: Side): int {
    (if Stretched(x, 1.25) then 1 else 0) + (if FarFromBase(x, side, 1.5) then 1 else 0)
    + (if FadedTrigger(x, 0.9) then 1 else 0)
  }

  /** The slope of the trade's own time frame: fast trades read 15 minutes, swings the hour. */
  ghost predicate SlopeCarries(x: Tick, t: Tuning, regime: Regime, style: Style, side: Side) {
    var least := if regime.WeakTrend? then t.weakSlopeMin else t.slopeMin;
    var accel := if regime.WeakTrend? then t.weakSlopeAccel else 0.0;
    match (style, side)
    case (Fast, Buy) => x.slope15m >= least && x.slope15m > x.slope15mPrev + accel
    case (Fast, Sell) => x.slope15m <= -least && x.slope15m < x.slope15mPrev - accel
    case (Swing, Buy) => x.slope1h >= least && x.slope1h > x.slope1hPrev + accel
    case (Swing, Sell) => x.slope1h <= -least && x.slope1h < x.slope1hPrev - accel
  }

  /** What clears a proposal, reason by reason. */
  ghost predicate Clears(x: Tick, t: Tuning, p: Pair, regime: Regime, c: Proposal, r: Reason) {
    var drift := regime in {Drift, WeakTrend};
    var fastDrift := drift && c.style == Fast && x.atr15 > 0.0;
    match r
    case DriftVwapStretch => fastDrift && Stretched(x, t.driftVwapStretch)
    case DriftEthHour => fastDrift && x.isEth && x.hour in t.ethBlockHours
    case DriftLateFromBase => fastDrift && FarFromBase(x, c.side, t.driftMoveFromBase)
    case DriftVolDecay => fastDrift && t.driftVolDecayMin > 0.0 && FadedTrigger(x, t.driftVolDecayMin)
    case DriftBtcVolHigh => fastDrift && x.isBtc && x.volRatio > t.driftBtcVolMax
    case DriftLateScore(score) =>
      fastDrift && t.lateScoreMax < 99 && score == Lateness(x, c.side) && score > t.lateScoreMax
    case Strong4hVeto =>
      c.style == Fast && x.di4hClosed >= 8.0 && (if c.side == Buy then x.bias4h == Down else x.bias4h == Up)
    case AllowedModes => c.style !in p.allowed
    case Night => x.nightFilter && x.isNight
    case TimeBlock => x.hour in x.timeBlock
    case LateMove =>
      && x.dailyRangePct > p.lateRange && x.dayPosition.Some?
      && (if c.side == Buy then x.dayPosition.value > 0.9 else x.dayPosition.value < 0.1)
    case DriftAdx1hLow => drift && x.adx1h < 15.0
    case DriftShortVeto => drift && c.side == Sell
    case SlopeWeak => (drift || regime == Trending) && !SlopeCarries(x, t, regime, c.style, c.side)
    case _ => false
  }

  lemma QuotientAbove(m: real, d: real, limit: real)
    requires d > 0.0
    ensures m / d > limit <==> m > limit * d
  {
    var q := m / d;
    assert q * d == m;
    if q > limit {
      assert (q - limit) * d > 0.0;
    } else {
      NonNegativeProduct(limit - q, d);
    }
  }

  lemma StretchReading(x: Tick, limit: real)
    requires x.atr15 > 0.0
    ensures Above(VwapStretch(x), limit) <==> Stretched(x, limit)
  {
    if Vwap(x).Some? {
      var m := if x.close >= x.vwap.value then x.close - x.vwap.value else x.vwap.value - x.close;
      QuotientAbove(m, x.atr15, limit);
    }
  }

  lemma BaseReading(x: Tick, side: Side, limit: real)
    requires x.atr15 > 0.0
    ensures Above(MoveFromBase(x, side), limit) <==> FarFromBase(x, side, limit)
  {
    if side.Buy? && x.recentLow.Some? {
      QuotientAbove(x.close - x.recentLow.value, x.atr15, limit);
    }
    if side.Sell? && x.recentHigh.Some? {
      QuotientAbove(x.recentHigh.value - x.close, x.atr15, limit);
    }
  }

  lemma LatenessIsScore(x: Tick, side: Side)
    requires x.atr15 > 0.0
    ensures LateScore(x, side) == Lateness(x, side)
  {
    hide Stretched, FarFromBase, VwapStretch, MoveFromBase, Above;
    StretchReading(x, 1.25);
    BaseReading(x, side, 1.5);
  }

  /** The first of the drift's own vetoes. */
  lemma DriftVetoReading(x: Tick, t: Tuning, p: Pair, regime: Regime, c: Proposal)
    ensures match DriftVeto(x, t, regime, c)
            case None => forall q | Rank(q) < 6 :: !Clears(x, t, p, regime, c, q)
            case Some(r) => Rank(r) < 6 && Clears(x, t, p, regime, c, r)
                            && forall q | Rank(q) < Rank(r) :: !Clears(x, t, p, regime, c, q)
  {
    hide Stretched, FarFromBase, VwapStretch, MoveFromBase, Above, LateScore, Lateness, SlopeCarries;
    if x.atr15 > 0.0 {
      StretchReading(x, t.driftVwapStretch);
      BaseReading(x, c.side, t.driftMoveFromBase);
      LatenessIsScore(x, c.side);
    }
  }

  lemma SharedVetoReading(x: Tick, t: Tuning, p: Pair, regime: Regime, c: Proposal)
    ensures match SharedVeto(x, p, c)
            case None => forall q | 6 <= Rank(q) < 11 :: !Clears(x, t, p, regime, c, q)
            case Some(r) => 6 <= Rank(r) < 11 && Clears(x, t, p, regime, c, r)
                            && forall q | 6 <= Rank(q) < Rank(r) :: !Clears(x, t, p, regime, c, q)
  {
    hide Stretched, FarFromBase, Lateness, SlopeCarries;
  }

  lemma SlopeVetoReading(x: Tick, t: Tuning, p: Pair, regime: Regime, c: Proposal)
    ensures match SlopeVeto(x, t, regime, c)
            case None => forall q | 11 <= Rank(q) :: !Clears(x, t, p, regime, c, q)
            case Some(r) => 11 <= Rank(r) && Clears(x, t, p, regime, c, r)
                            && forall q | 11 <= Rank(q) < Rank(r) :: !Clears(x, t, p, regime, c, q)
  {
    hide Stretched, FarFromBase, Lateness;
  }

  /** A proposal is cleared by the first reason that applies, and stands exactly if none does. */
  lemma VetoReading(x: Tick, t: Tuning, p: Pair, regime: Regime, c: Proposal)
    ensures match HardVeto(x, t, p, regime, c)
            case None => forall q :: !Clears(x, t, p, regime, c, q)
            case Some(r) => Clears(x, t, p, regime, c, r)
                            && forall q | Rank(q) < Rank(r) :: !Clears(x, t, p, regime, c, q)
  {
    hide Clears, DriftVeto, SharedVeto, SlopeVeto, Rank;
    DriftVetoReading(x, t, p, regime, c);
    SharedVetoReading(x, t, p, regime, c);
    SlopeVetoReading(x, t, p, regime, c);
  }

  /** Where nothing else clears a proposal, a weak slope does exactly if a slope is asked for and does not carry it. */
  lemma SlopeDecides(x: Tick, t: Tuning, p: Pair, regime: Regime, c: Proposal)
    requires forall q | q != SlopeWeak :: !Clears(x, t, p, regime, c, q)
    ensures HardVeto(x, t, p, regime, c) == Some(SlopeWeak) <==>
              regime in {Trending, Drift, WeakTrend} && !SlopeCarries(x, t, regime, c.style, c.side)
    ensures HardVeto(x, t, p, regime, c) in {None, Some(SlopeWeak)}
  {
    hide HardVeto, SlopeCarries;
    VetoReading(x, t, p, regime, c);
    var at := Clears(x, t, p, regime, c, SlopeWeak);
  }

  // ----- What holds a proposal back -----

  /** A long belongs below VWAP in a range and above it in a drift, a short the other way round. */
  ghost predicate WrongSideOfVwap(x: Tick, regime: Regime, side: Side) {
    x.vwap.Some? && x.vwap.value != 0.0 && x.close != 0.0 &&
    match regime
    case Ranging => if side == Buy then x.close > x.vwap.value else x.close < x.vwap.value
    case Trending => false
    case Choppy => false
    case _ => if side == Buy then x.close < x.vwap.value else x.close > x.vwap.value
  }

  /** The second target is less than 0.8R away; a price of zero is not looked at. */
  ghost predicate TooNear(x: Tick, l: Levels) {
    && l.sl != 0.0 && l.tp2 != 0.0 && l.slDist > 0.0
    && l.tp2 - x.close < 0.8 * l.slDist && x.close - l.tp2 < 0.8 * l.slDist
  }

  ghost predicate HoldsBack(x: Tick, regime: Regime, c: Proposal, l: Option<Levels>, r: Reason) {
    match r
    case VwapSide => WrongSideOfVwap(x, regime, c.side)
    case Funding => if c.side == Buy then x.funding > 0.0005 else x.funding < -0.0005
    case OiWeak => x.oiDelta < -0.03 && regime != Trending
    case RrLow => l.Some? && TooNear(x, l.value)
    case NoSlTp => l == None || l.value.sl == 0.0 || l.value.tp == 0.0
    case _ => false
  }

  lemma RrReading(x: Tick, l: Levels)
    ensures RrLowFor(x, l) <==> TooNear(x, l)
  {
    if l.slDist > 0.0 {
      RatioBelow(Abs(l.tp2 - x.close), l.slDist);
    }
  }

  lemma BlockReading(x: Tick, regime: Regime, c: Proposal, l: Option<Levels>)
    ensures match SoftVeto(x, regime, c, l)
            case None => forall q :: !HoldsBack(x, regime, c, l, q)
            case Some(r) => HoldsBack(x, regime, c, l, r)
                            && forall q | Rank(q) < Rank(r) :: !HoldsBack(x, regime, c, l, q)
  {
    hide RrLowFor, TooNear;
    if l.Some? {
      RrReading(x, l.value);
    }
  }

  // ----- Levels -----

  /** How far a price lies against the trade. */
  ghost function Behind(x: Tick, side: Side, price: real): real {
    match side
    case Buy => x.close - price
    case Sell => price - x.close
  }

  /** The last swing with its padding; a price of zero counts as none. */
  ghost predicate IsSwingStop(x: Tick, side: Side, atrs: real, price: real) {
    price != 0.0 &&
    match side
    case Buy => x.recentLow.Some? && price == x.recentLow.value - atrs * x.atr15
    case Sell => x.recentHigh.Some? && price == x.recentHigh.value + atrs * x.atr15
  }

  ghost function Larger(a: real, b: real): real { if a >= b then a else b }

  ghost function Smaller(a: real, b: real): real { if a <= b then a else b }

  /** The distance volatility asks of a stop: a fast trade's is at least 0.4% of the close. */
  ghost function RangeStop(x: Tick, c: Proposal): real {
    match c.style
    case Fast => Larger(1.2 * c.slK * x.atr15, 0.004 * x.close)
    case Swing => 1.2 * c.slK * x.atr15
  }

  lemma StopPlaced(x: Tick, c: Proposal, s: Option<real>, asked: real)
    requires s == StructuralStop(c.side, x.recentLow, x.recentHigh, (if c.style == Fast then 0.2 else 0.3) * x.atr15)
    requires asked == RangeStop(x, c)
    ensures Behind(x, c.side, StopPrice(x, c)) ==
              if s.Some? && (c.style == Swing || Behind(x, c.side, s.value) > 0.0)
              then Larger(asked, Behind(x, c.side, s.value)) else asked
  {
    var volatility := c.slK * 1.2 * x.atr15;
    assert volatility == 1.2 * c.slK * x.atr15;
  }

  /**
   The stop is as far behind the close as volatility asks, or behind the last swing with a padding of 0.2 or 0.3
   quarter-hour ranges where that is farther; a fast trade takes no swing that lies ahead of the close.
   */
  lemma StopReading(x: Tick, c: Proposal)
    ensures var d, asked := Behind(x, c.side, StopPrice(x, c)), RangeStop(x, c);
            var pad := if c.style == Fast then 0.2 else 0.3;
            && (forall s | IsSwingStop(x, c.side, pad, s) ::
                  d == if c.style == Fast && Behind(x, c.side, s) <= 0.0 then asked
                       else Larger(asked, Behind(x, c.side, s)))
            && ((forall s :: !IsSwingStop(x, c.side, pad, s)) ==> d == asked)
  {
    var pad := if c.style == Fast then 0.2 else 0.3;
    var s := StructuralStop(c.side, x.recentLow, x.recentHigh, pad * x.atr15);
    var asked := RangeStop(x, c);
    assert c.slK * 1.2 * x.atr15 == 1.2 * c.slK * x.atr15;
    assert s.Some? ==> IsSwingStop(x, c.side, pad, s.value);
    StopPlaced(x, c, s, asked);
  }

  /**
   The targets: a fast trade's at 0.4R in a drift unless overridden, at 0.8R elsewhere, and at 1.5R; a swing's at
   one R and at 2.5R, but no farther than 0.5 and 1.2 hourly ranges.  All lie on the side away from the stop.
   */
  lemma TargetReading(x: Tick, t: Tuning, regime: Regime, c: Proposal)
    ensures var l := LevelsFor(x, t, regime, c);
            && l.sl == StopPrice(x, c) && l.slDist == Behind(x, c.side, l.sl)
            && match c.style
               case Fast =>
                 && -Behind(x, c.side, l.tp) == l.slDist * (if regime in {Drift, WeakTrend} then t.driftTp1K else 0.8)
                 && -Behind(x, c.side, l.tp2) == 1.5 * l.slDist
               case Swing =>
                 && -Behind(x, c.side, l.tp) == Smaller(l.slDist, 0.5 * x.atr1h)
                 && -Behind(x, c.side, l.tp2) == Smaller(2.5 * l.slDist, 1.2 * x.atr1h)
  {
    hide StopPrice;
  }

  // ----- The whole chain -----

  /**
   The engine's answer from these readings: an entry exactly if the regime proposes something, nothing clears it,
   there is a close, and nothing holds it back; whatever is refused carries the first reason that applies.
   */
  lemma EntryReading(x: Tick, t: Tuning, p: Pair)
    ensures var e, regime, c := Expected(x, t, p), RegimeOf(x, t), ProposalOf(x, t, p);
            && e.regime == regime && e.close == x.close
            && (c.None? ==> !e.entry && e.drop == Some(RegimeReason(x, t, p)) && e.style.None? && e.levels.None?)
            && (c.Some? && (exists r :: Clears(x, t, p, regime, c.value, r)) ==>
                  && !e.entry && e.style.None? && e.side.None? && e.levels.None? && e.drop.Some?
                  && Clears(x, t, p, regime, c.value, e.drop.value)
                  && forall q | Rank(q) < Rank(e.drop.value) :: !Clears(x, t, p, regime, c.value, q))
            && (c.Some? && (forall r :: !Clears(x, t, p, regime, c.value, r)) ==>
                  && e.style == Some(c.value.style) && e.side == Some(c.value.side)
                  && e.levels == (if x.close == 0.0 then None else Some(LevelsFor(x, t, regime, c.value)))
                  && (e.entry <==> forall r :: !HoldsBack(x, regime, c.value, e.levels, r))
                  && (e.entry <==> e.drop.None?)
                  && (e.drop.Some? ==>
                        HoldsBack(x, regime, c.value, e.levels, e.drop.value)
                        && forall q | Rank(q) < Rank(e.drop.value) :: !HoldsBack(x, regime, c.value, e.levels, q)))
  {
    hide RegimeOf, ProposalOf, RegimeReason, HardVeto, SoftVeto, LevelsFor, Clears, HoldsBack, Rank;
    var regime, c := RegimeOf(x, t), ProposalOf(x, t, p);
    if c.Some? {
      VetoReading(x, t, p, regime, c.value);
      BlockReading(x, regime, c.value, if x.close != 0.0 then Some(LevelsFor(x, t, regime, c.value)) else None);
    }
  }
}
