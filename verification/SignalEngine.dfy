/**
 The signal engine of the backtest, from indicator readings to an entry with its levels.  `ComputeSignal` is the
 engine with its chain of vetoes, each of which may clear the proposal in place; `Expected` reads the same chain
 off the proposal alone, without any state.
 */
module SignalEngine {
  import opened Market

  datatype Bias = Up | Down | Neutral

  datatype Mode = FastOnly | SwingOnly | Combined

  /** Resolved parameters of one regime and style. */
  datatype Cfg = Cfg(adx: real, adxMax: real, vol: real, slK: real, bbMin: real, bbMax: real, requireExpanding: bool,
                     buyPosMax: real, sellPosMin: real)

  datatype Pair = Pair(trendingFast: Cfg, trendingSwing: Cfg, driftFast: Cfg, rangingFast: Cfg,
                       allowed: set<Style>, lateRange: real, driftBiasCheck: bool)

  /** The settings the environment can override. */
  datatype Tuning = Tuning(
    regimeScore: bool, regimeScoreMin: int, driftTp1K: real, driftMaxVol: real, driftBtcVolMax: real,
    driftVwapStretch: real, ethBlockHours: set<int>, driftMoveFromBase: real, driftVolDecayMin: real,
    lateScoreMax: int, requireFvg: bool, slopeMin: real,
    weakTrend: bool, weakAdxMin: real, weakAdxMax: real, weakSlopeMin: real, weakSlopeAccel: real)

  /** One tick: indicator readings and market context.  A VWAP of zero counts as absent. */
  datatype Tick = Tick(
    isEth: bool, isBtc: bool, mode: Mode, nightFilter: bool, timeBlock: set<int>, hour: int, isNight: bool,
    adx1h: real, adx1hRising: bool, di1h: real, di15m: real,
    adx4h: real, di4h: real, di4hClosed: real,
    bias1h: Bias, bias4h: Bias, slope1h: real, slope1hPrev: real, slope15m: real, slope15mPrev: real,
    supertrend: Bias, emaSlope: Bias, fiveLong: bool, fiveShort: bool,
    atr15: real, atr1h: real, close: real, volRatio: real, bbWidth: real, vwap: Option<real>,
    dayPosition: Option<real>, dailyRangePct: real, fvgInside: bool, triggerVolRatio: Option<real>,
    recentLow: Option<real>, recentHigh: Option<real>, funding: real, oiDelta: real, tradeDelta: real)

  datatype Reason =
    | ChoppyMarket | TrendingNoFvg | TrendingAdxLow | TrendingAdxNotRising | TrendingVolLow | TrendingBbNarrow
    | Trending4hBlock | TrendingDiSpread | TrendingNeutralBias | TrendingNo5m
    | RangingAdxHigh | RangingAdxRising | RangingBbOutside | RangingVolLow | RangingDayPosNone | RangingDayPosWrong
    | DriftEmaFlat | DriftVwapWrong | DriftVolLow | DriftDeltaWrong | DriftNo5m
    | DriftVwapStretch | DriftEthHour | DriftLateFromBase | DriftVolDecay | DriftBtcVolHigh | DriftLateScore(score: int)
    | Strong4hVeto | AllowedModes | Night | TimeBlock | LateMove | DriftAdx1hLow | DriftShortVeto | SlopeWeak
    | VwapSide | Funding | OiWeak | RrLow | NoSlTp

  /** What a regime proposes: style, side and the parameters that fix the stop. */
  datatype Proposal = Proposal(style: Style, side: Side, slK: real)

  datatype Levels = Levels(sl: real, tp: real, tp2: real, slDist: real)

  datatype Signal = Signal(entry: bool, drop: Option<Reason>, style: Option<Style>, side: Option<Side>, regime: Regime,
                           close: real, levels: Option<Levels>)

  // ----- Readings shared by both forms -----

  predicate InDrift(r: Regime) { r.Drift? || r.WeakTrend? }

  function Vwap(x: Tick): Option<real> { if x.vwap == Some(0.0) then None else x.vwap }

  predicate FourHConflict(x: Tick) { x.bias4h != Neutral && x.bias4h != x.bias1h && x.di4hClosed >= 12.0 }

  predicate BbOk(x: Tick, c: Cfg) { x.bbWidth >= c.bbMin && (c.requireExpanding ==> x.bbWidth > 1.5) }

  function DetectRegime(x: Tick, t: Tuning): Regime {
    if x.adx4h >= 22.0 && x.di4h >= 10.0 && x.adx1h >= 18.0 && x.di1h >= 8.0 then Trending
    else if t.weakTrend && t.weakAdxMin <= x.adx1h <= t.weakAdxMax && x.di1h >= 8.0
            && (x.adx1hRising || x.supertrend != Neutral) then WeakTrend
    else if 12.0 <= x.adx1h <= 30.0 && x.di1h >= 5.0 then Drift
    else if x.bbWidth >= 3.0 && x.di1h < 6.0 && x.adx4h < 22.0 then Choppy
    else Ranging
  }

  function One(b: bool): int { if b then 1 else 0 }

  function RegimeScore(x: Tick): int {
    One(x.di1h >= 8.0) + One(Abs(x.slope1h) >= 25.0) + One(x.bias1h != Neutral) + One(x.volRatio >= 0.8)
    + One(x.adx1h >= 20.0)
  }

  function DriftDir(x: Tick): Bias { if x.emaSlope != Neutral then x.emaSlope else x.supertrend }

  function Agrees(b: Bias, side: Side): bool { if side.Buy? then b == Up else b == Down }

  function FiveOk(x: Tick, side: Side): bool { if side.Buy? then x.fiveLong else x.fiveShort }

  function VwapStretch(x: Tick): Option<real>
    requires x.atr15 > 0.0
  {
    if Vwap(x).Some? then Some(Abs(x.close - Vwap(x).value) / x.atr15) else None
  }

  function MoveFromBase(x: Tick, side: Side): Option<real>
    requires x.atr15 > 0.0
  {
    if side.Buy? && x.recentLow.Some? then Some((x.close - x.recentLow.value) / x.atr15)
    else if side.Sell? && x.recentHigh.Some? then Some((x.recentHigh.value - x.close) / x.atr15)
    else None
  }

  predicate Above(v: Option<real>, limit: real) { v.Some? && v.value > limit }

  predicate Below(v: Option<real>, limit: real) { v.Some? && v.value < limit }

  function LateScore(x: Tick, side: Side): int
    requires x.atr15 > 0.0
  {
    One(Above(VwapStretch(x), 1.25)) + One(Above(MoveFromBase(x, side), 1.5)) + One(Below(x.triggerVolRatio, 0.9))
  }

  predicate SlopeOk(x: Tick, t: Tuning, regime: Regime, style: Style, side: Side) {
    var cur := if style.Fast? then x.slope15m else x.slope1h;
    var prev := if style.Fast? then x.slope15mPrev else x.slope1hPrev;
    var least := if regime.WeakTrend? then t.weakSlopeMin else t.slopeMin;
    var accel := if regime.WeakTrend? then t.weakSlopeAccel else 0.0;
    if side.Buy? then cur >= least && cur > prev + accel else cur <= -least && cur < prev - accel
  }

  predicate VwapOk(x: Tick, regime: Regime, side: Side) {
    Vwap(x).Some? && x.close != 0.0 ==>
      var v := Vwap(x).value;
      && (regime.Ranging? ==> if side.Buy? then x.close <= v else x.close >= v)
      && (InDrift(regime) ==> if side.Buy? then x.close >= v else x.close <= v)
  }

  predicate FundingBlocks(x: Tick, side: Side) {
    if side.Buy? then x.funding > 0.0005 else x.funding < -0.0005
  }

  // ----- Levels -----

  /** The structural stop behind the last swing, if there is one; a price of zero counts as none. */
  function StructuralStop(side: Side, low: Option<real>, high: Option<real>, pad: real): Option<real> {
    var s := if side.Buy? && low.Some? then Some(low.value - pad)
             else if side.Sell? && high.Some? then Some(high.value + pad)
             else None;
    if s == Some(0.0) then None else s
  }

  /** The wider of two stops. */
  function Wider(side: Side, a: real, b: real): real { if side.Buy? then Min(a, b) else Max(a, b) }

  /** How far a price lies beyond the close in the direction of the trade. */
  function Ahead(x: Tick, side: Side, price: real): real { if side.Buy? then price - x.close else x.close - price }

  /** The price that far beyond the close. */
  function PriceAhead(x: Tick, side: Side, move: real): real { if side.Buy? then x.close + move else x.close - move }

  /** The stop: the volatility distance, or behind the last swing where that is wider. */
  function StopPrice(x: Tick, c: Proposal): real {
    match c.style
    case Fast =>
      var atrStop := PriceAhead(x, c.side, -Max(c.slK * 1.2 * x.atr15, x.close * 0.004));
      var s := StructuralStop(c.side, x.recentLow, x.recentHigh, 0.2 * x.atr15);
      if s.Some? && Ahead(x, c.side, s.value) < 0.0 then Wider(c.side, s.value, atrStop) else atrStop
    case Swing =>
      var atrStop := PriceAhead(x, c.side, -(c.slK * 1.2 * x.atr15));
      var s := StructuralStop(c.side, x.recentLow, x.recentHigh, 0.3 * x.atr15);
      if s.Some? then Wider(c.side, s.value, atrStop) else atrStop
  }

  /** How far away a fast trade takes its profit, for a stop `d` away. */
  function FastTarget(t: Tuning, regime: Regime, d: real): real { if InDrift(regime) then d * t.driftTp1K else d * 0.8 }

  function LevelsFor(x: Tick, t: Tuning, regime: Regime, c: Proposal): Levels {
    var sl := StopPrice(x, c);
    var d := -Ahead(x, c.side, sl);
    match c.style
    case Fast =>
      Levels(sl, PriceAhead(x, c.side, FastTarget(t, regime, d)), PriceAhead(x, c.side, d * 1.5), d)
    case Swing =>
      Levels(sl, PriceAhead(x, c.side, Min(d, x.atr1h * 0.5)), PriceAhead(x, c.side, Min(d * 2.5, x.atr1h * 1.2)), d)
  }

  predicate RrLowFor(x: Tick, l: Levels) {
    l.sl != 0.0 && l.tp2 != 0.0 && l.slDist > 0.0 && Abs(l.tp2 - x.close) / l.slDist < 0.8
  }

  // ----- The chain, read off the proposal -----

  function RegimeOf(x: Tick, t: Tuning): Regime {
    var r0 := DetectRegime(x, t);
    var r1 := if r0.Trending? && FourHConflict(x) then Ranging else r0;
    if t.regimeScore && r1.Ranging? && RegimeScore(x) >= t.regimeScoreMin then Drift else r1
  }

  /** What a trending market proposes before the gap check: a swing first, a fast trade otherwise. */
  function TrendingProposal(x: Tick, p: Pair): Option<Proposal> {
    if x.bias1h == Neutral then None
    else
      var side := if x.bias1h == Up then Buy else Sell;
      var sw, f := p.trendingSwing, p.trendingFast;
      if !FiveOk(x, side) then None
      else if x.mode != FastOnly && x.adx1h >= sw.adx && x.adx1hRising && x.volRatio >= sw.vol && BbOk(x, sw)
              && !FourHConflict(x) && x.adx4h >= 20.0 && x.di4h >= 8.0 && x.di1h >= 8.0
           then Some(Proposal(Swing, side, sw.slK))
      else if x.mode != SwingOnly && x.adx1h >= f.adx && x.adx1hRising && x.volRatio >= f.vol && BbOk(x, f)
           then Some(Proposal(Fast, side, f.slK))
      else None
  }

  predicate FvgVeto(x: Tick, t: Tuning, p: Proposal) { p.style.Fast? && t.requireFvg && !x.fvgInside }

  function RangingProposal(x: Tick, p: Pair): Option<Proposal> {
    var c := p.rangingFast;
    var base := x.adx1h <= c.adxMax && !x.adx1hRising && x.volRatio >= c.vol && c.bbMin <= x.bbWidth <= c.bbMax;
    var recovery := c.adxMax < x.adx1h <= 28.0 && !x.adx1hRising && x.di15m >= 12.0 && x.volRatio >= c.vol;
    if x.mode == SwingOnly || x.dayPosition.None? || !(base || recovery) then None
    else if x.fiveLong && x.dayPosition.value <= c.buyPosMax then Some(Proposal(Fast, Buy, c.slK))
    else if x.fiveShort && x.dayPosition.value >= c.sellPosMin then Some(Proposal(Fast, Sell, c.slK))
    else None
  }

  predicate VwapSideOk(x: Tick) {
    Vwap(x).Some? && ((DriftDir(x) == Up && x.close > Vwap(x).value)
                      || (DriftDir(x) == Down && x.close < Vwap(x).value))
  }

  predicate DriftVolOk(x: Tick, t: Tuning, p: Pair) { p.driftFast.vol <= x.volRatio <= t.driftMaxVol }

  predicate DeltaOpposes(x: Tick) {
    (DriftDir(x) == Up && x.tradeDelta < -0.3) || (DriftDir(x) == Down && x.tradeDelta > 0.3)
  }

  function DriftProposal(x: Tick, t: Tuning, p: Pair): Option<Proposal> {
    var dir := DriftDir(x);
    if dir == Neutral || x.mode == SwingOnly then None
    else
      var side := if dir == Up then Buy else Sell;
      var against := x.bias1h != Neutral && x.bias1h != dir;
      if VwapSideOk(x) && DriftVolOk(x, t, p) && !DeltaOpposes(x) && !(p.driftBiasCheck && against) && FiveOk(x, side)
      then Some(Proposal(Fast, side, p.driftFast.slK))
      else None
  }

  function ProposalOf(x: Tick, t: Tuning, p: Pair): Option<Proposal> {
    match RegimeOf(x, t)
    case Choppy => None
    case Trending =>
      var c := TrendingProposal(x, p);
      if c.Some? && FvgVeto(x, t, c.value) then None else c
    case Ranging => RangingProposal(x, p)
    case _ => DriftProposal(x, t, p)
  }

  /** Why a regime has nothing to propose. */
  function RegimeReason(x: Tick, t: Tuning, p: Pair): Reason {
    match RegimeOf(x, t)
    case Choppy => ChoppyMarket
    case Trending =>
      if x.adx1h < p.trendingFast.adx then TrendingAdxLow
      else if !x.adx1hRising then TrendingAdxNotRising
      else if x.volRatio < p.trendingFast.vol && x.volRatio < p.trendingSwing.vol then TrendingVolLow
      else if x.bbWidth < p.trendingFast.bbMin then TrendingBbNarrow
      else if FourHConflict(x) || x.adx4h < 20.0 then Trending4hBlock
      else if x.di4h < 8.0 || x.di1h < 8.0 then TrendingDiSpread
      else if x.bias1h == Neutral then TrendingNeutralBias
      else TrendingNo5m
    case Ranging =>
      var c := p.rangingFast;
      if x.adx1h > c.adxMax then RangingAdxHigh
      else if x.adx1hRising then RangingAdxRising
      else if !(c.bbMin <= x.bbWidth <= c.bbMax) then RangingBbOutside
      else if x.volRatio < c.vol then RangingVolLow
      else if x.dayPosition.None? then RangingDayPosNone
      else RangingDayPosWrong
    case _ =>
      if DriftDir(x) == Neutral then DriftEmaFlat
      else if !VwapSideOk(x) then DriftVwapWrong
      else if !DriftVolOk(x, t, p) then DriftVolLow
      else if DeltaOpposes(x) then DriftDeltaWrong
      else DriftNo5m
  }

  /** The first drift veto that applies to a proposal. */
  function DriftVeto(x: Tick, t: Tuning, regime: Regime, c: Proposal): Option<Reason> {
    if !InDrift(regime) || x.atr15 <= 0.0 || !c.style.Fast? then None
    else if Above(VwapStretch(x), t.driftVwapStretch) then Some(DriftVwapStretch)
    else if x.isEth && x.hour in t.ethBlockHours then Some(DriftEthHour)
    else if Above(MoveFromBase(x, c.side), t.driftMoveFromBase) then Some(DriftLateFromBase)
    else if t.driftVolDecayMin > 0.0 && Below(x.triggerVolRatio, t.driftVolDecayMin) then Some(DriftVolDecay)
    else if x.isBtc && x.volRatio > t.driftBtcVolMax then Some(DriftBtcVolHigh)
    else if t.lateScoreMax < 99 && LateScore(x, c.side) > t.lateScoreMax then Some(DriftLateScore(LateScore(x, c.side)))
    else None
  }

  predicate Strong4h(x: Tick, c: Proposal) {
    c.style.Fast? && x.di4hClosed >= 8.0 && x.bias4h != Neutral && !Agrees(x.bias4h, c.side)
  }

  predicate LateMoveFor(x: Tick, p: Pair, side: Side) {
    x.dailyRangePct > p.lateRange && x.dayPosition.Some?
    && if side.Buy? then x.dayPosition.value > 0.90 else x.dayPosition.value < 0.10
  }

  /** The first of the vetoes every regime shares. */
  function SharedVeto(x: Tick, p: Pair, c: Proposal): Option<Reason> {
    if Strong4h(x, c) then Some(Strong4hVeto)
    else if c.style !in p.allowed then Some(AllowedModes)
    else if x.nightFilter && x.isNight then Some(Night)
    else if x.hour in x.timeBlock then Some(TimeBlock)
    else if LateMoveFor(x, p, c.side) then Some(LateMove)
    else None
  }

  /** The first of the vetoes on direction and slope. */
  function SlopeVeto(x: Tick, t: Tuning, regime: Regime, c: Proposal): Option<Reason> {
    if InDrift(regime) && x.adx1h < 15.0 then Some(DriftAdx1hLow)
    else if InDrift(regime) && c.side.Sell? then Some(DriftShortVeto)
    else if (regime.Trending? || InDrift(regime)) && !SlopeOk(x, t, regime, c.style, c.side) then Some(SlopeWeak)
    else None
  }

  function First(a: Option<Reason>, b: Option<Reason>): Option<Reason> { if a.Some? then a else b }

  /** The first veto that clears a proposal. */
  function HardVeto(x: Tick, t: Tuning, p: Pair, regime: Regime, c: Proposal): Option<Reason> {
    First(DriftVeto(x, t, regime, c), First(SharedVeto(x, p, c), SlopeVeto(x, t, regime, c)))
  }

  /** The first veto that blocks a proposal but leaves it on display. */
  function SoftVeto(x: Tick, regime: Regime, c: Proposal, l: Option<Levels>): Option<Reason> {
    if !VwapOk(x, regime, c.side) then Some(VwapSide)
    else if FundingBlocks(x, c.side) then Some(Funding)
    else if x.oiDelta < -0.03 && !regime.Trending? then Some(OiWeak)
    else if l.Some? && RrLowFor(x, l.value) then Some(RrLow)
    else if l.None? || l.value.sl == 0.0 || l.value.tp == 0.0 then Some(NoSlTp)
    else None
  }

  /** The outcome for a proposal that survived, or for the reason that none did. */
  function Displayed(x: Tick, t: Tuning, regime: Regime, c: Option<Proposal>, why: Option<Reason>): Signal {
    if c.None? then Signal(false, why, None, None, regime, x.close, None)
    else
      var l := if x.close != 0.0 then Some(LevelsFor(x, t, regime, c.value)) else None;
      var soft := SoftVeto(x, regime, c.value, l);
      Signal(soft.None?, soft, Some(c.value.style), Some(c.value.side), regime, x.close, l)
  }

  /** The chain as one reading: a proposal, the first veto that clears it, the first block that holds it back. */
  function Expected(x: Tick, t: Tuning, p: Pair): Signal {
    var regime, c := RegimeOf(x, t), ProposalOf(x, t, p);
    if c.None? then Displayed(x, t, regime, None, Some(RegimeReason(x, t, p)))
    else
      var hard := HardVeto(x, t, p, regime, c.value);
      Displayed(x, t, regime, if hard.Some? then None else c, hard)
  }

  // ----- The engine -----

  function Or(first: Option<Reason>, second: Reason): Option<Reason> { if first.Some? then first else Some(second) }

  method ProposeTrending(x: Tick, t: Tuning, p: Pair) returns (c: Option<Proposal>, drop: Option<Reason>)
    requires RegimeOf(x, t).Trending?
    ensures c == ProposalOf(x, t, p)
    ensures drop == if c.None? then Some(RegimeReason(x, t, p)) else None
  {
    hide RegimeOf, BbOk, FourHConflict;
    c, drop := None, None;
    var sw, f := p.trendingSwing, p.trendingFast;
    var swingBase := x.adx1h >= sw.adx && x.adx1hRising && x.volRatio >= sw.vol && BbOk(x, sw)
                     && !FourHConflict(x) && x.adx4h >= 20.0 && x.di4h >= 8.0 && x.di1h >= 8.0;
    if x.mode == SwingOnly || x.mode == Combined {
      if swingBase && x.bias1h == Up && x.fiveLong {
        c := Some(Proposal(Swing, Buy, sw.slK));
      } else if swingBase && x.bias1h == Down && x.fiveShort {
        c := Some(Proposal(Swing, Sell, sw.slK));
      }
    }
    var fastBase := x.adx1h >= f.adx && x.adx1hRising && x.volRatio >= f.vol && BbOk(x, f);
    if (x.mode == FastOnly || x.mode == Combined) && c.None? {
      if fastBase && x.fiveLong && x.bias1h == Up {
        c := Some(Proposal(Fast, Buy, f.slK));
      } else if fastBase && x.fiveShort && x.bias1h == Down {
        c := Some(Proposal(Fast, Sell, f.slK));
      }
    }
    if c.Some? && c.value.style.Fast? && t.requireFvg {
      if !x.fvgInside {
        c := None;
        drop := Or(drop, TrendingNoFvg);
      }
    }
    if c.None? {
      if !(x.adx1h >= f.adx) {
        drop := Some(TrendingAdxLow);
      } else if !x.adx1hRising {
        drop := Some(TrendingAdxNotRising);
      } else if x.volRatio < f.vol && x.volRatio < sw.vol {
        drop := Some(TrendingVolLow);
      } else if x.bbWidth < f.bbMin {
        drop := Some(TrendingBbNarrow);
      } else if FourHConflict(x) || !(x.adx4h >= 20.0) {
        drop := Some(Trending4hBlock);
      } else if x.di4h < 8.0 || x.di1h < 8.0 {
        drop := Some(TrendingDiSpread);
      } else if x.bias1h == Neutral {
        drop := Some(TrendingNeutralBias);
      } else {
        drop := Some(TrendingNo5m);
      }
    }
  }

  method ProposeRanging(x: Tick, t: Tuning, p: Pair) returns (c: Option<Proposal>, drop: Option<Reason>)
    requires RegimeOf(x, t).Ranging?
    ensures c == ProposalOf(x, t, p)
    ensures drop == if c.None? then Some(RegimeReason(x, t, p)) else None
  {
    hide RegimeOf;
    c, drop := None, None;
    var cfg := p.rangingFast;
    var corridor := cfg.bbMin <= x.bbWidth <= cfg.bbMax;
    var base := x.adx1h <= cfg.adxMax && !x.adx1hRising && x.volRatio >= cfg.vol && corridor && x.dayPosition.Some?;
    var recovery := cfg.adxMax < x.adx1h <= 28.0 && !x.adx1hRising && x.di15m >= 12.0 && x.volRatio >= cfg.vol
                    && x.dayPosition.Some?;
    var buyPosOk := x.dayPosition.Some? && x.dayPosition.value <= cfg.buyPosMax;
    var sellPosOk := x.dayPosition.Some? && x.dayPosition.value >= cfg.sellPosMin;
    if x.mode == FastOnly || x.mode == Combined {
      if (base || recovery) && x.fiveLong && buyPosOk {
        c := Some(Proposal(Fast, Buy, cfg.slK));
      } else if (base || recovery) && x.fiveShort && sellPosOk {
        c := Some(Proposal(Fast, Sell, cfg.slK));
      }
    }
    if c.None? {
      if x.adx1h > cfg.adxMax {
        drop := Some(RangingAdxHigh);
      } else if x.adx1hRising {
        drop := Some(RangingAdxRising);
      } else if !corridor {
        drop := Some(RangingBbOutside);
      } else if x.volRatio < cfg.vol {
        drop := Some(RangingVolLow);
      } else if x.dayPosition.None? {
        drop := Some(RangingDayPosNone);
      } else {
        drop := Some(RangingDayPosWrong);
      }
    }
  }

  method ProposeDrift(x: Tick, t: Tuning, p: Pair) returns (c: Option<Proposal>, drop: Option<Reason>)
    requires InDrift(RegimeOf(x, t))
    ensures c == ProposalOf(x, t, p)
    ensures drop == if c.None? then Some(RegimeReason(x, t, p)) else None
  {
    hide RegimeOf;
    c, drop := None, None;
    var dir: Bias := Neutral;
    if x.emaSlope == Up {
      dir := Up;
    } else if x.emaSlope == Down {
      dir := Down;
    } else if x.supertrend == Up {
      dir := Up;
    } else if x.supertrend == Down {
      dir := Down;
    }
    var vwapSideOk := false;
    if Vwap(x).Some? {
      if dir == Up && x.close > Vwap(x).value { vwapSideOk := true; }
      if dir == Down && x.close < Vwap(x).value { vwapSideOk := true; }
    }
    var volOk := x.volRatio >= p.driftFast.vol && x.volRatio <= t.driftMaxVol;
    var opposes := (dir == Up && x.tradeDelta < -0.3) || (dir == Down && x.tradeDelta > 0.3);
    var biasOk := true;
    if p.driftBiasCheck {
      biasOk := !(dir == Up && x.bias1h == Down) && !(dir == Down && x.bias1h == Up);
    }
    var base := dir != Neutral && vwapSideOk && volOk && !opposes && biasOk;
    if x.mode == FastOnly || x.mode == Combined {
      if base && x.fiveLong && dir == Up {
        c := Some(Proposal(Fast, Buy, p.driftFast.slK));
      } else if base && x.fiveShort && dir == Down {
        c := Some(Proposal(Fast, Sell, p.driftFast.slK));
      }
    }
    if c.None? {
      if dir == Neutral {
        drop := Some(DriftEmaFlat);
      } else if !vwapSideOk {
        drop := Some(DriftVwapWrong);
      } else if !volOk {
        drop := Some(DriftVolLow);
      } else if opposes {
        drop := Some(DriftDeltaWrong);
      } else {
        drop := Some(DriftNo5m);
      }
    }
  }

  /** The drift-only vetoes: each looks at the proposal only if the ones before have left it. */
  method VetoDrift(x: Tick, t: Tuning, regime: Regime, c0: Proposal) returns (c: Option<Proposal>, drop: Option<Reason>)
    ensures drop == DriftVeto(x, t, regime, c0)
    ensures c == if drop.Some? then None else Some(c0)
  {
    c, drop := Some(c0), None;
    if InDrift(regime) && x.atr15 > 0.0 {
      var stretch := VwapStretch(x);
      var fromBase := MoveFromBase(x, c0.side);
      if c0.style.Fast? {
        if Above(stretch, t.driftVwapStretch) {
          c := None;
          drop := Or(drop, DriftVwapStretch);
        }
        if c.Some? && x.isEth && x.hour in t.ethBlockHours {
          c := None;
          drop := Or(drop, DriftEthHour);
        }
        if c.Some? && Above(fromBase, t.driftMoveFromBase) {
          c := None;
          drop := Or(drop, DriftLateFromBase);
        }
        if c.Some? && t.driftVolDecayMin > 0.0 && Below(x.triggerVolRatio, t.driftVolDecayMin) {
          c := None;
          drop := Or(drop, DriftVolDecay);
        }
        if c.Some? && x.isBtc && x.volRatio > t.driftBtcVolMax {
          c := None;
          drop := Or(drop, DriftBtcVolHigh);
        }
        if c.Some? && t.lateScoreMax < 99 {
          var lateScore := 0;
          if Above(stretch, 1.25) { lateScore := lateScore + 1; }
          if Above(fromBase, 1.5) { lateScore := lateScore + 1; }
          if Below(x.triggerVolRatio, 0.9) { lateScore := lateScore + 1; }
          if lateScore > t.lateScoreMax {
            c := None;
            drop := Or(drop, DriftLateScore(lateScore));
          }
        }
      }
    }
  }

  /** The vetoes every regime shares; a proposal already gone keeps its reason. */
  method VetoShared(x: Tick, p: Pair, c0: Option<Proposal>, drop0: Option<Reason>)
    returns (c: Option<Proposal>, drop: Option<Reason>)
    requires c0.None? <==> drop0.Some?
    ensures drop == if c0.Some? then SharedVeto(x, p, c0.value) else drop0
    ensures c == if drop.Some? then None else c0
  {
    c, drop := c0, drop0;
    if c.Some? && c.value.style.Fast? && x.bias4h != Neutral && x.di4hClosed >= 8.0
       && ((c.value.side.Buy? && x.bias4h == Down) || (c.value.side.Sell? && x.bias4h == Up)) {
      c := None;
      drop := Or(drop, Strong4hVeto);
    }
    if c.None? || c.value.style !in p.allowed {
      c := None;
      drop := Or(drop, AllowedModes);
    }
    if x.nightFilter && x.isNight {
      c := None;
      drop := Or(drop, Night);
    }
    if x.hour in x.timeBlock {
      c := None;
      drop := Or(drop, TimeBlock);
    }
    if x.dailyRangePct > p.lateRange && x.dayPosition.Some? {
      if c.Some? && c.value.side.Buy? && x.dayPosition.value > 0.90 {
        c := None;
        drop := Or(drop, LateMove);
      }
      if c.Some? && c.value.side.Sell? && x.dayPosition.value < 0.10 {
        c := None;
        drop := Or(drop, LateMove);
      }
    }
  }

  /** Whether the proposal stands on the right side of VWAP for its regime. */
  method VwapAgrees(x: Tick, regime: Regime, c: Option<Proposal>) returns (vwapOk: bool)
    ensures c.Some? ==> vwapOk == VwapOk(x, regime, c.value.side)
  {
    vwapOk := true;
    if Vwap(x).Some? && x.close != 0.0 && c.Some? {
      var v := Vwap(x).value;
      if regime.Ranging? {
        if c.value.side.Buy? && x.close > v { vwapOk := false; }
        if c.value.side.Sell? && x.close < v { vwapOk := false; }
      } else if InDrift(regime) {
        if c.value.side.Buy? && x.close < v { vwapOk := false; }
        if c.value.side.Sell? && x.close > v { vwapOk := false; }
      }
    }
  }

  /** The vetoes on direction and slope. */
  method VetoSlope(x: Tick, t: Tuning, regime: Regime, c0: Option<Proposal>, drop0: Option<Reason>)
    returns (c: Option<Proposal>, drop: Option<Reason>)
    requires c0.None? <==> drop0.Some?
    ensures drop == if c0.Some? then SlopeVeto(x, t, regime, c0.value) else drop0
    ensures c == if drop.Some? then None else c0
  {
    hide SlopeOk;
    c, drop := c0, drop0;
    if InDrift(regime) && x.adx1h < 15.0 {
      c := None;
      drop := Or(drop, DriftAdx1hLow);
    }
    if InDrift(regime) && c.Some? && c.value.side.Sell? {
      c := None;
      drop := Or(drop, DriftShortVeto);
    }
    if c.Some? && (regime.Trending? || InDrift(regime)) {
      if !SlopeOk(x, t, regime, c.value.style, c.value.side) {
        c := None;
        drop := Or(drop, SlopeWeak);
      }
    }
  }

  /** The regime, after the four-hour conflict has demoted it and the score has promoted it. */
  method ClassifyRegime(x: Tick, t: Tuning) returns (regime: Regime)
    ensures regime == RegimeOf(x, t)
  {
    hide DetectRegime, FourHConflict;
    regime := DetectRegime(x, t);
    if regime.Trending? && FourHConflict(x) {
      regime := Ranging;
    }
    if t.regimeScore && regime.Ranging? {
      var rs := 0;
      if x.di1h >= 8.0 { rs := rs + 1; }
      if Abs(x.slope1h) >= 25.0 { rs := rs + 1; }
      if x.bias1h == Up || x.bias1h == Down { rs := rs + 1; }
      if x.volRatio >= 0.8 { rs := rs + 1; }
      if x.adx1h >= 20.0 { rs := rs + 1; }
      if rs >= t.regimeScoreMin {
        regime := Drift;
      }
    }
  }

  /** Whatever the regime proposes, or why it proposes nothing. */
  method Propose(x: Tick, t: Tuning, p: Pair, regime: Regime) returns (c: Option<Proposal>, drop: Option<Reason>)
    requires regime == RegimeOf(x, t)
    ensures c == ProposalOf(x, t, p)
    ensures drop == if c.None? then Some(RegimeReason(x, t, p)) else None
  {
    hide RegimeOf;
    match regime {
      case Choppy => c, drop := None, Some(ChoppyMarket);
      case Trending => c, drop := ProposeTrending(x, t, p);
      case Ranging => c, drop := ProposeRanging(x, t, p);
      case _ => c, drop := ProposeDrift(x, t, p);
    }
  }

  /** The blocks that leave the proposal on display, and the levels. */
  method Finish(x: Tick, t: Tuning, regime: Regime, c: Option<Proposal>, drop0: Option<Reason>, vwapOk: bool)
    returns (s: Signal)
    requires c.None? <==> drop0.Some?
    requires c.Some? ==> vwapOk == VwapOk(x, regime, c.value.side)
    ensures s == Displayed(x, t, regime, c, drop0)
  {
    hide VwapOk, LevelsFor, RrLowFor;
    var drop := drop0;
    var fundingBlock := false;
    if c.Some? && c.value.side.Buy? && x.funding > 0.0005 { fundingBlock := true; }
    if c.Some? && c.value.side.Sell? && x.funding < -0.0005 { fundingBlock := true; }
    var oiWeakVeto := x.oiDelta < -0.03 && !regime.Trending?;

    var levels: Option<Levels> := None;
    if c.Some? && x.close != 0.0 {
      levels := Some(LevelsFor(x, t, regime, c.value));
    }
    var rrOk := levels.None? || !RrLowFor(x, levels.value);
    var noLevels := levels.None? || levels.value.sl == 0.0 || levels.value.tp == 0.0;
    if c.Some? && !vwapOk { drop := Or(drop, VwapSide); }
    if fundingBlock { drop := Or(drop, Funding); }
    if oiWeakVeto { drop := Or(drop, OiWeak); }
    if !rrOk { drop := Or(drop, RrLow); }
    if noLevels { drop := Or(drop, NoSlTp); }
    var blocked := c.None? || !vwapOk || fundingBlock || oiWeakVeto || !rrOk || noLevels;
    s := Signal(
      !blocked, if blocked then drop else None,
      if c.Some? then Some(c.value.style) else None, if c.Some? then Some(c.value.side) else None,
      regime, x.close, levels);
  }

  /** The engine; nothing comes out for a pair that is off or a history that is too short. */
  method ComputeSignal(x: Tick, t: Tuning, pair: Option<Pair>, enoughData: bool) returns (s: Option<Signal>)
    ensures s.None? <==> pair.None? || !enoughData
    ensures s.Some? ==> s.value == Expected(x, t, pair.value)
  {
    hide RegimeOf, ProposalOf, RegimeReason, DriftVeto, SharedVeto, SlopeVeto, Displayed, VwapOk;
    if pair.None? || !enoughData {
      return None;
    }
    var p := pair.value;
    var regime := ClassifyRegime(x, t);
    var c, drop := Propose(x, t, p, regime);
    if c.Some? {
      c, drop := VetoDrift(x, t, regime, c.value);
    }
    c, drop := VetoShared(x, p, c, drop);
    var vwapOk := VwapAgrees(x, regime, c);
    c, drop := VetoSlope(x, t, regime, c, drop);
    var out := Finish(x, t, regime, c, drop, vwapOk);
    s := Some(out);
  }
}
