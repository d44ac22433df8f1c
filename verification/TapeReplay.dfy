/**
 Replay of one signal over the recorded tape.  One pass over the ticks drives every exit hypothesis at
 once; each hypothesis is an abstract `Machine` that fires at most once.  `SimulateSignal` is the pass
 itself, with its mutable stops and flags; `FirstFire` says declaratively what it must compute.
 */
module TapeReplay {
  import opened Market

  datatype Row = Row(ts: int, symbol: string, price: real)

  datatype Signal = Signal(symbol: string, side: Side, entry: real, sl: real, tp: real,
                           tsEntry: int, maxHoldMin: Option<int>)

  datatype Kind = TP | Stop | TimeExit | Incomplete

  datatype Verdict = Verdict(kind: Kind, r: real)

  datatype Replay = Replay(
    mfe: real, mae: real, tpMs: Option<int>, slMs: Option<int>,
    original: Verdict, be05: real, be10: real,
    singleTp15: real, trail1r: real, stepTrail: real,
    horizon: map<int, Verdict>, nTicks: nat, slDistPct: real, tpOverSl: real)

  /** What a replay comes back with: a result, nothing for a zero stop distance, or a division by zero. */
  datatype Reply = Replayed(replay: Replay) | NoStopDistance | DivisionByZero

  const HORIZONS_M: seq<int> := [150, 300, 480, 720, 1440]
  const TP15: real := 1.5
  const MS_PER_MIN: int := 60000

  // ----- The path in R units -----

  datatype Point = Point(ts: int, r: real)

  /** What the machines need to know about the signal: entry time and target in R. */
  datatype Setup = Setup(tsEntry: int, tpR: real)

  function RUnits(sig: Signal, price: real): real
    requires sig.entry != sig.sl
  {
    (if sig.side.Buy? then price - sig.entry else sig.entry - price) / Abs(sig.entry - sig.sl)
  }

  function SetupOf(sig: Signal): Setup
    requires sig.entry != sig.sl
  {
    Setup(sig.tsEntry, Abs(sig.tp - sig.entry) / Abs(sig.entry - sig.sl))
  }

  function StopDistancePct(sig: Signal): real
    requires sig.entry != 0.0
  {
    Abs(sig.entry - sig.sl) / sig.entry * 100.0
  }

  function HoldMinutes(sig: Signal): int {
    match sig.maxHoldMin
    case None => 300
    case Some(h) => if h == 0 then 300 else h
  }

  predicate Wanted(row: Row, symbol: string, fromMs: int, toMs: int) {
    fromMs <= row.ts <= toMs && row.symbol == symbol + "-SWAP"
  }

  /** The rows of the tape that belong to the signal, in tape order. */
  ghost function Window(rows: seq<Row>, symbol: string, fromMs: int, toMs: int): seq<Row> {
    if rows == [] then []
    else
      var rest := Window(rows[..|rows|-1], symbol, fromMs, toMs);
      if Wanted(rows[|rows|-1], symbol, fromMs, toMs) then rest + [rows[|rows|-1]] else rest
  }

  ghost function PathOf(sig: Signal, w: seq<Row>): seq<Point>
    requires sig.entry != sig.sl
  {
    seq(|w|, k requires 0 <= k < |w| => Point(w[k].ts, RUnits(sig, w[k].price)))
  }

  /** The path the replay of `sig` sees on this tape. */
  ghost function TapePath(sig: Signal, rows: seq<Row>, maxHorizonM: int): seq<Point>
    requires sig.entry != sig.sl
  {
    PathOf(sig, Window(rows, sig.symbol, sig.tsEntry, sig.tsEntry + maxHorizonM * MS_PER_MIN))
  }

  ghost predicate Sorted(p: seq<Point>) {
    forall j, k | 0 <= j <= k < |p| :: p[j].ts <= p[k].ts
  }

  /** Most favourable excursion over the first `n` ticks. */
  ghost function Peak(p: seq<Point>, n: nat): real
    requires n <= |p|
  {
    if n == 0 then 0.0 else Max(Peak(p, n - 1), p[n-1].r)
  }

  /** Most adverse excursion over the first `n` ticks. */
  ghost function Trough(p: seq<Point>, n: nat): real
    requires n <= |p|
  {
    if n == 0 then 0.0 else Min(Trough(p, n - 1), p[n-1].r)
  }

  ghost function LastR(p: seq<Point>): real {
    if p == [] then 0.0 else p[|p|-1].r
  }

  // ----- The exit hypotheses -----

  datatype Machine =
    | TouchTp                  // first touch of the signal's own target
    | TouchSl                  // first touch of -1R
    | Arm(threshold: real)     // break-even protection becomes active
    | BreakEven(threshold: real)
    | Single                   // fixed 1.5R target, stop at -1R
    | Trail                    // stop follows the peak at 1R distance
    | StepLock                 // stop jumps to 0, 0.5 and 1.5
    | Horizon(minutes: int)

  function Rank(m: Machine): nat {
    match m
    case BreakEven(_) => 2
    case Arm(_) => 1
    case _ => 0
  }

  /** The stop in force once the peak is `peak`: no memory beyond the peak is needed. */
  ghost function StopLevel(m: Machine, peak: real): real {
    match m
    case Trail => if peak >= 1.0 then peak - 1.0 else -1.0
    case StepLock =>
      if peak >= 2.0 then 1.5 else if peak >= 1.0 then 0.5 else if peak >= 0.5 then 0.0 else -1.0
    case _ => -1.0
  }

  ghost predicate Late(c: Setup, h: int, t: Point) { t.ts - c.tsEntry > h * MS_PER_MIN }

  /** True if tick `k` would resolve machine `m`, were it still unresolved. */
  ghost predicate Fires(c: Setup, m: Machine, p: seq<Point>, k: nat)
    requires k < |p|
    decreases Rank(m), k
  {
    var r := p[k].r;
    match m
    case TouchTp => r >= c.tpR
    case TouchSl => r <= -1.0
    case Arm(threshold) =>
      && Peak(p, k + 1) >= threshold
      && var stopped := FirstFire(c, TouchSl, p, k + 1);
         !(stopped.Some? && p[stopped.value].ts <= p[k].ts)
    case BreakEven(threshold) =>
      FirstFire(c, Arm(threshold), p, k + 1).Some? && (r >= c.tpR || r <= 0.0)
    case Horizon(h) => Late(c, h, p[k]) || r >= c.tpR || r <= -1.0
    case _ => r >= TP15 || r <= StopLevel(m, Peak(p, k + 1))
  }

  /** The first of the first `n` ticks that fires `m`. */
  ghost function FirstFire(c: Setup, m: Machine, p: seq<Point>, n: nat): (at: Option<nat>)
    requires n <= |p|
    ensures at.Some? ==> at.value < n
    decreases Rank(m), n
  {
    if n == 0 then None
    else
      var before := FirstFire(c, m, p, n - 1);
      if before.Some? then before else if Fires(c, m, p, n - 1) then Some(n - 1) else None
  }

  /** What an exit of `m` at tick `k` pays, in R. */
  ghost function Payoff(c: Setup, m: Machine, p: seq<Point>, k: nat): real
    requires k < |p|
  {
    var r := p[k].r;
    match m
    case BreakEven(_) => if r >= c.tpR then c.tpR else 0.0
    case Horizon(h) => if Late(c, h, p[k]) then r else if r >= c.tpR then c.tpR else -1.0
    case _ => if r >= TP15 then TP15 else StopLevel(m, Peak(p, k + 1))
  }

  ghost function HorizonKind(c: Setup, h: int, p: seq<Point>, k: nat): Kind
    requires k < |p|
  {
    if Late(c, h, p[k]) then TimeExit else if p[k].r >= c.tpR then TP else Stop
  }

  /** Verdict of the per-horizon machine, resolved tick by tick. */
  ghost function OnlineVerdict(c: Setup, p: seq<Point>, h: int): Verdict {
    match FirstFire(c, Horizon(h), p, |p|)
    case None => Verdict(Incomplete, LastR(p))
    case Some(k) => Verdict(HorizonKind(c, h, p, k), Payoff(c, Horizon(h), p, k))
  }

  /** The smallest tracked horizon that covers the hold, or the largest one there is. */
  function ClosestHorizon(hold: int): (h: int)
    ensures h in HORIZONS_M
    ensures forall x :: x in HORIZONS_M && x >= hold ==> hold <= h <= x
  {
    if hold <= 150 then 150 else if hold <= 300 then 300 else if hold <= 480 then 480
    else if hold <= 720 then 720 else 1440
  }

  ghost function TouchMs(c: Setup, m: Machine, p: seq<Point>): Option<int> {
    match FirstFire(c, m, p, |p|)
    case None => None
    case Some(k) => Some(p[k].ts)
  }

  ghost predicate Within(touch: Option<int>, limit: int) { touch.Some? && touch.value <= limit }

  /** Verdict read off the two recorded touch times after the pass; "STOP" sorts before "TP". */
  ghost function OfflineVerdict(c: Setup, p: seq<Point>, hold: int): Verdict {
    var tp, sl := TouchMs(c, TouchTp, p), TouchMs(c, TouchSl, p);
    var limit := c.tsEntry + hold * MS_PER_MIN;
    if Within(sl, limit) && (!Within(tp, limit) || sl.value <= tp.value) then Verdict(Stop, -1.0)
    else if Within(tp, limit) then Verdict(TP, c.tpR)
    else OnlineVerdict(c, p, ClosestHorizon(hold))
  }

  ghost function Final(c: Setup, m: Machine, p: seq<Point>, otherwise: real): real {
    match FirstFire(c, m, p, |p|)
    case None => otherwise
    case Some(k) => Payoff(c, m, p, k)
  }

  /** The complete meaning of a replay result. */
  ghost predicate Explains(sig: Signal, p: seq<Point>, res: Replay)
    requires sig.entry != sig.sl
  {
    var c := SetupOf(sig);
    && res.nTicks == |p|
    && res.mfe == Peak(p, |p|)
    && res.mae == Trough(p, |p|)
    && res.tpMs == TouchMs(c, TouchTp, p)
    && res.slMs == TouchMs(c, TouchSl, p)
    && res.original == OfflineVerdict(c, p, HoldMinutes(sig))
    && res.be05 == Final(c, BreakEven(0.5), p, res.original.r)
    && res.be10 == Final(c, BreakEven(1.0), p, res.original.r)
    && res.singleTp15 == Final(c, Single, p, LastR(p))
    && res.trail1r == Final(c, Trail, p, LastR(p))
    && res.stepTrail == Final(c, StepLock, p, LastR(p))
    && res.horizon.Keys == (set h | h in HORIZONS_M)
    && forall h | h in HORIZONS_M :: res.horizon[h] == OnlineVerdict(c, p, h)
  }

  // ----- The pass over the tape -----

  /** The tape reader: only rows of the wanted instrument and time range come through. */
  method IterTape(rows: seq<Row>, symbol: string, fromMs: int, toMs: int) returns (w: seq<Row>)
    ensures w == Window(rows, symbol, fromMs, toMs)
  {
    w := [];
    for i := 0 to |rows|
      invariant w == Window(rows[..i], symbol, fromMs, toMs)
    {
      assert rows[..i+1][..i] == rows[..i];
      if Wanted(rows[i], symbol, fromMs, toMs) {
        w := w + [rows[i]];
      }
    }
    assert rows[..|rows|] == rows;
  }

  /** An exit variable of the pass: absent until its machine fires. */
  ghost predicate Tracks(c: Setup, m: Machine, p: seq<Point>, n: nat, exit: Option<real>)
    requires n <= |p|
  {
    match FirstFire(c, m, p, n)
    case None => exit.None?
    case Some(k) => exit == Some(Payoff(c, m, p, k))
  }

  ghost predicate TracksTouch(c: Setup, m: Machine, p: seq<Point>, n: nat, touched: Option<int>)
    requires n <= |p|
  {
    match FirstFire(c, m, p, n)
    case None => touched.None?
    case Some(k) => touched == Some(p[k].ts)
  }

  ghost predicate TracksHorizon(c: Setup, h: int, p: seq<Point>, n: nat, exits: map<int, Verdict>)
    requires n <= |p|
  {
    match FirstFire(c, Horizon(h), p, n)
    case None => h !in exits
    case Some(k) => h in exits && exits[h] == Verdict(HorizonKind(c, h, p, k), Payoff(c, Horizon(h), p, k))
  }

  ghost predicate SameAt(h: int, a: map<int, Verdict>, b: map<int, Verdict>) {
    (h in a <==> h in b) && (h in a ==> a[h] == b[h])
  }

  lemma SameTracks(c: Setup, h: int, p: seq<Point>, n: nat, a: map<int, Verdict>, b: map<int, Verdict>)
    requires n <= |p| && TracksHorizon(c, h, p, n, a) && SameAt(h, a, b)
    ensures TracksHorizon(c, h, p, n, b)
  {
  }

  /** What tick `k` does to one open horizon. */
  lemma HorizonOffered(c: Setup, h: int, p: seq<Point>, k: nat, before: map<int, Verdict>, after: map<int, Verdict>)
    requires k < |p| && TracksHorizon(c, h, p, k, before)
    requires h in before ==> SameAt(h, before, after)
    requires h !in before ==>
               if Late(c, h, p[k]) then h in after && after[h] == Verdict(TimeExit, p[k].r)
               else if p[k].r >= c.tpR then h in after && after[h] == Verdict(TP, c.tpR)
               else if p[k].r <= -1.0 then h in after && after[h] == Verdict(Stop, -1.0)
               else h !in after
    ensures TracksHorizon(c, h, p, k + 1, after)
  {
    assert Fires(c, Horizon(h), p, k) <==> Late(c, h, p[k]) || p[k].r >= c.tpR || p[k].r <= -1.0;
  }

  /** The inner loop of the pass: offers tick `k` to every horizon that is still open. */
  method FillHorizons(c: Setup, ts: int, r: real, exits: map<int, Verdict>, ghost p: seq<Point>, ghost k: nat)
    returns (out: map<int, Verdict>)
    requires k < |p| && p[k] == Point(ts, r)
    requires exits.Keys <= (set h | h in HORIZONS_M)
    requires forall h | h in HORIZONS_M :: TracksHorizon(c, h, p, k, exits)
    ensures out.Keys <= (set h | h in HORIZONS_M)
    ensures forall h | h in HORIZONS_M :: TracksHorizon(c, h, p, k + 1, out)
  {
    hide TracksHorizon;
    out := exits;
    for i := 0 to |HORIZONS_M|
      invariant out.Keys <= (set h | h in HORIZONS_M)
      invariant forall j | 0 <= j < i :: TracksHorizon(c, HORIZONS_M[j], p, k + 1, out)
      invariant forall j | i <= j < |HORIZONS_M| :: TracksHorizon(c, HORIZONS_M[j], p, k, out)
    {
      var h := HORIZONS_M[i];
      assert h in HORIZONS_M && forall j | 0 <= j < |HORIZONS_M| && j != i :: HORIZONS_M[j] != h;
      ghost var before := out;
      if h !in out {
        if ts - c.tsEntry > h * MS_PER_MIN {
          out := out[h := Verdict(TimeExit, r)];
        } else if r >= c.tpR {
          out := out[h := Verdict(TP, c.tpR)];
        } else if r <= -1.0 {
          out := out[h := Verdict(Stop, -1.0)];
        }
      }
      HorizonOffered(c, h, p, k, before, out);
      forall j | 0 <= j < |HORIZONS_M| && j != i ensures SameAt(HORIZONS_M[j], before, out) {
      }
      forall j | 0 <= j < i { SameTracks(c, HORIZONS_M[j], p, k + 1, before, out); }
      forall j | i < j < |HORIZONS_M| { SameTracks(c, HORIZONS_M[j], p, k, before, out); }
    }
  }

  /** Touch recording for one tick. */
  method RecordTouches(c: Setup, ts: int, r: real, tp: Option<int>, sl: Option<int>, ghost p: seq<Point>, ghost k: nat)
    returns (tp': Option<int>, sl': Option<int>)
    requires k < |p| && p[k] == Point(ts, r)
    requires TracksTouch(c, TouchTp, p, k, tp) && TracksTouch(c, TouchSl, p, k, sl)
    ensures TracksTouch(c, TouchTp, p, k + 1, tp') && TracksTouch(c, TouchSl, p, k + 1, sl')
  {
    assert Fires(c, TouchTp, p, k) <==> r >= c.tpR;
    assert Fires(c, TouchSl, p, k) <==> r <= -1.0;
    tp', sl' := tp, sl;
    if tp.None? && r >= c.tpR { tp' := Some(ts); }
    if sl.None? && r <= -1.0 { sl' := Some(ts); }
  }

  /** Break-even for one tick: arm unless the stop came first, then watch target and entry price. */
  method OfferBreakEven(c: Setup, threshold: real, ts: int, r: real, mfe: real, sl: Option<int>,
                        armed: bool, exit: Option<real>, ghost p: seq<Point>, ghost k: nat)
    returns (armed': bool, exit': Option<real>)
    requires k < |p| && p[k] == Point(ts, r) && mfe == Peak(p, k + 1)
    requires TracksTouch(c, TouchSl, p, k + 1, sl)
    requires armed == FirstFire(c, Arm(threshold), p, k).Some?
    requires Tracks(c, BreakEven(threshold), p, k, exit)
    ensures armed' == FirstFire(c, Arm(threshold), p, k + 1).Some?
    ensures Tracks(c, BreakEven(threshold), p, k + 1, exit')
  {
    assert Fires(c, BreakEven(threshold), p, k) <==>
           FirstFire(c, Arm(threshold), p, k + 1).Some? && (r >= c.tpR || r <= 0.0);
    var slAlready := sl.Some? && sl.value <= ts;
    armed', exit' := armed, exit;
    if !armed && mfe >= threshold && !slAlready { armed' := true; }
    if armed' && exit.None? {
      if r >= c.tpR { exit' := Some(c.tpR); } else if r <= 0.0 { exit' := Some(0.0); }
    }
  }

  /** The fixed 1.5R target for one tick. */
  method OfferSingle(c: Setup, r: real, exit: Option<real>, ghost p: seq<Point>, ghost k: nat)
    returns (exit': Option<real>)
    requires k < |p| && p[k].r == r
    requires Tracks(c, Single, p, k, exit)
    ensures Tracks(c, Single, p, k + 1, exit')
  {
    assert Fires(c, Single, p, k) <==> r >= TP15 || r <= -1.0;
    exit' := exit;
    if exit.None? {
      if r >= TP15 { exit' := Some(TP15); } else if r <= -1.0 { exit' := Some(-1.0); }
    }
  }

  /** The 1R trail for one tick; the ratcheted stop stays a function of the peak. */
  method OfferTrail(c: Setup, r: real, mfe: real, exit: Option<real>, stop: real, ghost p: seq<Point>, ghost k: nat)
    returns (exit': Option<real>, stop': real)
    requires k < |p| && p[k].r == r && mfe == Peak(p, k + 1)
    requires Tracks(c, Trail, p, k, exit)
    requires exit.None? ==> stop == StopLevel(Trail, Peak(p, k))
    ensures Tracks(c, Trail, p, k + 1, exit')
    ensures exit'.None? ==> stop' == StopLevel(Trail, Peak(p, k + 1))
  {
    assert Fires(c, Trail, p, k) <==> r >= TP15 || r <= StopLevel(Trail, mfe);
    exit', stop' := exit, stop;
    if exit.None? {
      if mfe >= 1.0 { stop' := Max(stop, mfe - 1.0); }
      if r >= TP15 { exit' := Some(TP15); } else if r <= stop' { exit' := Some(stop'); }
    }
  }

  /** The discrete locks for one tick. */
  method OfferStep(c: Setup, r: real, mfe: real, exit: Option<real>, stop: real, ghost p: seq<Point>, ghost k: nat)
    returns (exit': Option<real>, stop': real)
    requires k < |p| && p[k].r == r && mfe == Peak(p, k + 1)
    requires Tracks(c, StepLock, p, k, exit)
    requires exit.None? ==> stop == StopLevel(StepLock, Peak(p, k))
    ensures Tracks(c, StepLock, p, k + 1, exit')
    ensures exit'.None? ==> stop' == StopLevel(StepLock, Peak(p, k + 1))
  {
    assert Fires(c, StepLock, p, k) <==> r >= TP15 || r <= StopLevel(StepLock, mfe);
    exit', stop' := exit, stop;
    if exit.None? {
      if mfe >= 2.0 {
        stop' := Max(stop, 1.5);
      } else if mfe >= 1.0 {
        stop' := Max(stop, 0.5);
      } else if mfe >= 0.5 {
        stop' := Max(stop, 0.0);
      }
      if r >= TP15 { exit' := Some(TP15); } else if r <= stop' { exit' := Some(stop'); }
    }
  }

  /** The variables of the pass once the last tick has been seen. */
  datatype Pass = Pass(
    mfe: real, mae: real, touchedTp: Option<int>, touchedSl: Option<int>,
    be05: Option<real>, be10: Option<real>, single: Option<real>, trail: Option<real>, step: Option<real>,
    exitAt: map<int, Verdict>, lastPrice: real)

  ghost predicate PassDone(c: Setup, p: seq<Point>, s: Pass) {
    && s.mfe == Peak(p, |p|) && s.mae == Trough(p, |p|)
    && TracksTouch(c, TouchTp, p, |p|, s.touchedTp) && TracksTouch(c, TouchSl, p, |p|, s.touchedSl)
    && Tracks(c, BreakEven(0.5), p, |p|, s.be05) && Tracks(c, BreakEven(1.0), p, |p|, s.be10)
    && Tracks(c, Single, p, |p|, s.single)
    && Tracks(c, Trail, p, |p|, s.trail)
    && Tracks(c, StepLock, p, |p|, s.step)
    && s.exitAt.Keys <= (set h | h in HORIZONS_M)
    && forall h | h in HORIZONS_M :: TracksHorizon(c, h, p, |p|, s.exitAt)
  }

  /** The tick loop. */
  method WalkTicks(sig: Signal, c: Setup, w: seq<Row>) returns (s: Pass)
    requires sig.entry != sig.sl
    ensures PassDone(c, PathOf(sig, w), s)
    ensures s.lastPrice == if w == [] then sig.entry else w[|w|-1].price
  {
    ghost var p := PathOf(sig, w);
    var touchedTp: Option<int>, touchedSl: Option<int> := None, None;
    var mfe, mae := 0.0, 0.0;
    var exitAt: map<int, Verdict> := map[];
    var be05Armed, be10Armed := false, false;
    var be05: Option<real>, be10: Option<real> := None, None;
    var single: Option<real>, trail: Option<real>, step: Option<real> := None, None, None;
    var trailSl, stepSl := -1.0, -1.0;
    var lastPrice := sig.entry;

    for i := 0 to |w|
      invariant mfe == Peak(p, i) && mae == Trough(p, i)
      invariant lastPrice == if i == 0 then sig.entry else w[i-1].price
      invariant TracksTouch(c, TouchTp, p, i, touchedTp) && TracksTouch(c, TouchSl, p, i, touchedSl)
      invariant be05Armed == FirstFire(c, Arm(0.5), p, i).Some?
      invariant be10Armed == FirstFire(c, Arm(1.0), p, i).Some?
      invariant Tracks(c, BreakEven(0.5), p, i, be05) && Tracks(c, BreakEven(1.0), p, i, be10)
      invariant Tracks(c, Single, p, i, single)
      invariant Tracks(c, Trail, p, i, trail) && (trail.None? ==> trailSl == StopLevel(Trail, Peak(p, i)))
      invariant Tracks(c, StepLock, p, i, step) && (step.None? ==> stepSl == StopLevel(StepLock, Peak(p, i)))
      invariant exitAt.Keys <= (set h | h in HORIZONS_M)
      invariant forall h | h in HORIZONS_M :: TracksHorizon(c, h, p, i, exitAt)
    {
      var ts := w[i].ts;
      var r := RUnits(sig, w[i].price);
      if r > mfe { mfe := r; }
      if r < mae { mae := r; }
      touchedTp, touchedSl := RecordTouches(c, ts, r, touchedTp, touchedSl, p, i);
      be05Armed, be05 := OfferBreakEven(c, 0.5, ts, r, mfe, touchedSl, be05Armed, be05, p, i);
      be10Armed, be10 := OfferBreakEven(c, 1.0, ts, r, mfe, touchedSl, be10Armed, be10, p, i);
      single := OfferSingle(c, r, single, p, i);
      trail, trailSl := OfferTrail(c, r, mfe, trail, trailSl, p, i);
      step, stepSl := OfferStep(c, r, mfe, step, stepSl, p, i);
      exitAt := FillHorizons(c, ts, r, exitAt, p, i);
      lastPrice := w[i].price;
    }
    s := Pass(mfe, mae, touchedTp, touchedSl, be05, be10, single, trail, step, exitAt, lastPrice);
  }

  /** After the pass: a horizon without an exit is closed at the last tick. */
  method CloseHorizons(c: Setup, lastR: real, exits: map<int, Verdict>, ghost p: seq<Point>)
    returns (out: map<int, Verdict>)
    requires lastR == LastR(p)
    requires exits.Keys <= (set h | h in HORIZONS_M)
    requires forall h | h in HORIZONS_M :: TracksHorizon(c, h, p, |p|, exits)
    ensures out.Keys == (set h | h in HORIZONS_M)
    ensures forall h | h in HORIZONS_M :: out[h] == OnlineVerdict(c, p, h)
  {
    out := exits;
    for i := 0 to |HORIZONS_M|
      invariant out.Keys <= (set h | h in HORIZONS_M)
      invariant forall j | 0 <= j < i ::
                  HORIZONS_M[j] in out && out[HORIZONS_M[j]] == OnlineVerdict(c, p, HORIZONS_M[j])
      invariant forall j | i <= j < |HORIZONS_M| :: TracksHorizon(c, HORIZONS_M[j], p, |p|, out)
    {
      var h := HORIZONS_M[i];
      assert h in HORIZONS_M;
      if h !in out {
        out := out[h := Verdict(Incomplete, lastR)];
      }
    }
  }

  /** After the pass: the signal's own outcome, from the recorded touch times. */
  method ResolveOriginal(c: Setup, hold: int, tpMs: Option<int>, slMs: Option<int>,
                         exits: map<int, Verdict>, ghost p: seq<Point>)
    returns (v: Verdict)
    requires tpMs == TouchMs(c, TouchTp, p) && slMs == TouchMs(c, TouchSl, p)
    requires exits.Keys == (set h | h in HORIZONS_M)
    requires forall h | h in HORIZONS_M :: exits[h] == OnlineVerdict(c, p, h)
    ensures v == OfflineVerdict(c, p, hold)
  {
    var horizonMs := c.tsEntry + hold * MS_PER_MIN;
    var best: Option<(int, Verdict)> := None;
    if tpMs.Some? && tpMs.value <= horizonMs {
      best := Some((tpMs.value, Verdict(TP, c.tpR)));
    }
    if slMs.Some? && slMs.value <= horizonMs && (best.None? || slMs.value <= best.value.0) {
      best := Some((slMs.value, Verdict(Stop, -1.0)));
    }
    if best.Some? {
      v := best.value.1;
    } else {
      v := exits[ClosestHorizon(hold)];
    }
  }

  /** Replays the tape once; nothing comes back for a zero stop distance, and a zero entry price divides by zero. */
  method SimulateSignal(sig: Signal, rows: seq<Row>, maxHorizonM: int) returns (res: Reply)
    ensures res.NoStopDistance? <==> sig.entry == sig.sl
    ensures res.DivisionByZero? <==> sig.entry != sig.sl && sig.entry == 0.0
    ensures res.Replayed? ==>
              && Explains(sig, TapePath(sig, rows, maxHorizonM), res.replay)
              && res.replay.slDistPct == StopDistancePct(sig)
              && res.replay.tpOverSl == SetupOf(sig).tpR
  {
    hide StopDistancePct, FirstFire, Peak, Trough, OnlineVerdict, OfflineVerdict;
    var slDist := Abs(sig.entry - sig.sl);
    if slDist == 0.0 {
      return NoStopDistance;
    }
    var c := SetupOf(sig);
    var w := IterTape(rows, sig.symbol, sig.tsEntry, sig.tsEntry + maxHorizonM * MS_PER_MIN);
    var s := WalkTicks(sig, c, w);
    ghost var p := PathOf(sig, w);
    var lastR := RUnits(sig, s.lastPrice);
    var exitAt := CloseHorizons(c, lastR, s.exitAt, p);
    var original := ResolveOriginal(c, HoldMinutes(sig), s.touchedTp, s.touchedSl, exitAt, p);
    if sig.entry == 0.0 {
      return DivisionByZero;
    }
    res := Replayed(Replay(
      s.mfe, s.mae, s.touchedTp, s.touchedSl, original,
      if s.be05.Some? then s.be05.value else original.r,
      if s.be10.Some? then s.be10.value else original.r,
      if s.single.Some? then s.single.value else lastR,
      if s.trail.Some? then s.trail.value else lastR,
      if s.step.Some? then s.step.value else lastR,
      exitAt, |w|, StopDistancePct(sig), c.tpR));
  }
}
