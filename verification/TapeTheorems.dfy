/** What the tape replay guarantees for every tick sequence. */
module TapeTheorems {
  import opened Market
  import opened TapeReplay

  // ----- Basic facts -----

  lemma {:induction false} FirstFireIsFirst(c: Setup, m: Machine, p: seq<Point>, n: nat)
    requires n <= |p|
    ensures match FirstFire(c, m, p, n)
            case None => forall k | 0 <= k < n :: !Fires(c, m, p, k)
            case Some(at) => Fires(c, m, p, at) && forall k | 0 <= k < at :: !Fires(c, m, p, k)
  {
    if n == 0 {
    } else {
      FirstFireIsFirst(c, m, p, n - 1);
    }
  }

  /** The excursions are the extreme of the path, and decide whether a level was ever touched. */
  lemma {:induction false} PeakIsBest(p: seq<Point>, n: nat)
    requires n <= |p|
    ensures Peak(p, n) >= 0.0 && forall k | 0 <= k < n :: p[k].r <= Peak(p, n)
    ensures Peak(p, n) == 0.0 || exists k | 0 <= k < n :: p[k].r == Peak(p, n)
  {
    if n == 0 {
    } else {
      PeakIsBest(p, n - 1);
    }
  }

  lemma {:induction false} TroughIsWorst(p: seq<Point>, n: nat)
    requires n <= |p|
    ensures Trough(p, n) <= 0.0 && forall k | 0 <= k < n :: Trough(p, n) <= p[k].r
    ensures Trough(p, n) == 0.0 || exists k | 0 <= k < n :: p[k].r == Trough(p, n)
  {
    if n == 0 {
    } else {
      TroughIsWorst(p, n - 1);
    }
  }

  lemma {:induction false} PeakMonotone(p: seq<Point>, j: nat, k: nat)
    requires j <= k <= |p|
    ensures Peak(p, j) <= Peak(p, k)
    decreases k
  {
    if j == k {
    } else {
      PeakMonotone(p, j, k - 1);
    }
  }

  /** Touch times and excursions tell the same story. */
  lemma TouchesMatchExcursions(c: Setup, p: seq<Point>)
    requires c.tpR > 0.0
    ensures TouchMs(c, TouchTp, p).Some? <==> Peak(p, |p|) >= c.tpR
    ensures TouchMs(c, TouchSl, p).Some? <==> Trough(p, |p|) <= -1.0
  {
    FirstFireIsFirst(c, TouchTp, p, |p|);
    FirstFireIsFirst(c, TouchSl, p, |p|);
    PeakIsBest(p, |p|);
    TroughIsWorst(p, |p|);
    if Peak(p, |p|) >= c.tpR {
      var k :| 0 <= k < |p| && p[k].r == Peak(p, |p|);
      assert Fires(c, TouchTp, p, k);
    }
    if Trough(p, |p|) <= -1.0 {
      var k :| 0 <= k < |p| && p[k].r == Trough(p, |p|);
      assert Fires(c, TouchSl, p, k);
    }
  }

  ghost predicate InTimeOrder(rows: seq<Row>) {
    forall i, j | 0 <= i <= j < |rows| :: rows[i].ts <= rows[j].ts
  }

  /** The window holds exactly the wanted rows of the tape. */
  lemma {:induction false} WindowHolds(rows: seq<Row>, symbol: string, fromMs: int, toMs: int, x: Row)
    ensures x in Window(rows, symbol, fromMs, toMs) <==> x in rows && Wanted(x, symbol, fromMs, toMs)
  {
    hide Wanted;
    if rows == [] {
    } else {
      var init := rows[..|rows|-1];
      WindowHolds(init, symbol, fromMs, toMs, x);
      assert rows == init + [rows[|rows|-1]];
    }
  }

  lemma LastIsLatest(rows: seq<Row>, x: Row)
    requires InTimeOrder(rows) && x in rows
    ensures x.ts <= rows[|rows|-1].ts
  {
  }

  lemma AppendInOrder(w: seq<Row>, x: Row)
    requires InTimeOrder(w) && forall i | 0 <= i < |w| :: w[i].ts <= x.ts
    ensures InTimeOrder(w + [x])
  {
  }

  lemma {:induction false} WindowInOrder(rows: seq<Row>, symbol: string, fromMs: int, toMs: int)
    requires InTimeOrder(rows)
    ensures InTimeOrder(Window(rows, symbol, fromMs, toMs))
  {
    hide Wanted;
    if rows == [] {
    } else {
      var init, last := rows[..|rows|-1], rows[|rows|-1];
      assert InTimeOrder(init);
      hide InTimeOrder;
      WindowInOrder(init, symbol, fromMs, toMs);
      var w := Window(init, symbol, fromMs, toMs);
      forall i | 0 <= i < |w| ensures w[i].ts <= last.ts {
        WindowHolds(init, symbol, fromMs, toMs, w[i]);
        LastIsLatest(rows, w[i]);
      }
      AppendInOrder(w, last);
    }
  }

  /** A tape in time order yields a window in time order, holding exactly the wanted rows. */
  lemma WindowKeepsOrder(rows: seq<Row>, symbol: string, fromMs: int, toMs: int)
    requires InTimeOrder(rows)
    ensures var w := Window(rows, symbol, fromMs, toMs);
            && InTimeOrder(w)
            && (forall i | 0 <= i < |w| :: w[i] in rows && Wanted(w[i], symbol, fromMs, toMs))
            && (forall x | x in rows && Wanted(x, symbol, fromMs, toMs) :: x in w)
  {
    hide InTimeOrder, Window, Wanted;
    WindowInOrder(rows, symbol, fromMs, toMs);
    forall x ensures x in Window(rows, symbol, fromMs, toMs) <==> x in rows && Wanted(x, symbol, fromMs, toMs) {
      WindowHolds(rows, symbol, fromMs, toMs, x);
    }
  }

  // ----- Stops of the three variants -----

  ghost predicate Variant(m: Machine) { m.Single? || m.Trail? || m.StepLock? }

  /** While a variant is open the peak is below the target... */
  lemma OpenMeansBelowTarget(c: Setup, m: Machine, p: seq<Point>, n: nat)
    requires n <= |p| && Variant(m) && FirstFire(c, m, p, n).None?
    ensures Peak(p, n) < TP15
    ensures forall k | 0 <= k < n :: StopLevel(m, Peak(p, k + 1)) < p[k].r < TP15
  {
    FirstFireIsFirst(c, m, p, n);
    PeakIsBest(p, n);
    forall k | 0 <= k < n ensures StopLevel(m, Peak(p, k + 1)) < p[k].r < TP15 {
      assert !Fires(c, m, p, k);
    }
  }

  /** ... and there the stops are ordered, never below -1R, and below the target. */
  lemma StopsOrdered(peak: real)
    ensures -1.0 == StopLevel(Single, peak) <= StopLevel(Trail, peak)
    ensures StopLevel(Trail, peak) <= StopLevel(StepLock, peak) <==> peak <= 1.5 || 2.0 <= peak <= 2.5
    ensures 0.0 <= peak < TP15 ==> StopLevel(Trail, peak) < 0.5 && StopLevel(StepLock, peak) <= 0.5
  {
  }

  /** A stop only ever moves up as the path unfolds. */
  lemma StopsRatchet(m: Machine, p: seq<Point>, j: nat, k: nat)
    requires j <= k <= |p|
    ensures StopLevel(m, Peak(p, j)) <= StopLevel(m, Peak(p, k))
  {
    PeakMonotone(p, j, k);
  }

  ghost predicate NoLater(a: Option<nat>, b: Option<nat>) {
    b.Some? ==> a.Some? && a.value <= b.value
  }

  lemma TrailNoLaterThanSingle(c: Setup, p: seq<Point>)
    ensures NoLater(FirstFire(c, Trail, p, |p|), FirstFire(c, Single, p, |p|))
  {
    FirstFireIsFirst(c, Single, p, |p|);
    FirstFireIsFirst(c, Trail, p, |p|);
    var s := FirstFire(c, Single, p, |p|);
    if s.Some? {
      StopsOrdered(Peak(p, s.value + 1));
      assert Fires(c, Trail, p, s.value);
    }
  }

  /** An open variant with the current tick still under the target keeps the peak under the target. */
  lemma PeakAtTick(c: Setup, m: Machine, p: seq<Point>, k: nat)
    requires k < |p| && Variant(m)
    requires forall j | 0 <= j < k :: !Fires(c, m, p, j)
    ensures Peak(p, k) < TP15
    ensures p[k].r < TP15 ==> Peak(p, k + 1) < TP15
    ensures p[k].r >= TP15 ==> Peak(p, k + 1) == p[k].r
  {
    FirstFireIsFirst(c, m, p, k);
    OpenMeansBelowTarget(c, m, p, k);
  }

  lemma StepNoLaterThanTrail(c: Setup, p: seq<Point>)
    ensures NoLater(FirstFire(c, StepLock, p, |p|), FirstFire(c, Trail, p, |p|))
  {
    FirstFireIsFirst(c, StepLock, p, |p|);
    FirstFireIsFirst(c, Trail, p, |p|);
    var t := FirstFire(c, Trail, p, |p|);
    if t.Some? {
      PeakAtTick(c, Trail, p, t.value);
      StopsOrdered(Peak(p, t.value + 1));
      assert Fires(c, StepLock, p, t.value);
    }
  }

  /** What an exit of a variant can pay: the target exactly when the tick reached it. */
  lemma VariantPayoff(c: Setup, m: Machine, p: seq<Point>)
    requires Variant(m) && FirstFire(c, m, p, |p|).Some?
    ensures var k := FirstFire(c, m, p, |p|).value;
            var pay := Payoff(c, m, p, k);
            && -1.0 <= pay <= TP15
            && (pay == TP15 <==> p[k].r >= TP15)
            && (m.Single? ==> pay == -1.0 || pay == TP15)
            && (m.Trail? ==> pay == -1.0 || 0.0 <= pay < 0.5 || pay == TP15)
            && (m.StepLock? ==> pay in {-1.0, 0.0, 0.5, TP15})
  {
    FirstFireIsFirst(c, m, p, |p|);
    var k := FirstFire(c, m, p, |p|).value;
    PeakAtTick(c, m, p, k);
    PeakIsBest(p, k + 1);
  }

  /**
   The tighter a variant, the earlier its exit; a target hit by a tighter variant is hit by the looser
   ones at the same tick.
   */
  lemma VariantsNested(c: Setup, p: seq<Point>)
    ensures var single, trail, step :=
              FirstFire(c, Single, p, |p|), FirstFire(c, Trail, p, |p|), FirstFire(c, StepLock, p, |p|);
            && NoLater(step, trail) && NoLater(trail, single)
            && (step.Some? && Payoff(c, StepLock, p, step.value) == TP15 ==>
                  step == trail && Payoff(c, Trail, p, trail.value) == TP15)
            && (trail.Some? && Payoff(c, Trail, p, trail.value) == TP15 ==>
                  trail == single && Payoff(c, Single, p, single.value) == TP15)
  {
    TrailNoLaterThanSingle(c, p);
    StepNoLaterThanTrail(c, p);
    forall m | m in {Single, Trail, StepLock} ensures
      match FirstFire(c, m, p, |p|)
      case None => forall k | 0 <= k < |p| :: p[k].r < TP15
      case Some(k) => forall j | 0 <= j < k :: p[j].r < TP15
    {
      FirstFireIsFirst(c, m, p, |p|);
      forall j | 0 <= j < |p| && (FirstFire(c, m, p, |p|).Some? ==> j < FirstFire(c, m, p, |p|).value)
        ensures p[j].r < TP15
      {
        assert !Fires(c, m, p, j);
      }
    }
    if FirstFire(c, StepLock, p, |p|).Some? { VariantPayoff(c, StepLock, p); }
    if FirstFire(c, Trail, p, |p|).Some? { VariantPayoff(c, Trail, p); }
    if FirstFire(c, Single, p, |p|).Some? { VariantPayoff(c, Single, p); }
  }

  lemma FinalBounded(c: Setup, m: Machine, p: seq<Point>)
    requires Variant(m)
    ensures -1.0 <= Final(c, m, p, LastR(p)) <= TP15
  {
    if FirstFire(c, m, p, |p|).Some? {
      VariantPayoff(c, m, p);
    } else if p != [] {
      OpenMeansBelowTarget(c, m, p, |p|);
      StopsOrdered(Peak(p, |p|));
      assert StopLevel(m, Peak(p, |p| - 1 + 1)) < p[|p|-1].r;
    }
  }

  /** The bound the resolution step relies on: every final result of the three variants is in [-1, 1.5]. */
  lemma VariantResultsBounded(sig: Signal, p: seq<Point>, res: Replay)
    requires sig.entry != sig.sl && Explains(sig, p, res)
    ensures -1.0 <= res.singleTp15 <= TP15
    ensures -1.0 <= res.trail1r <= TP15
    ensures -1.0 <= res.stepTrail <= TP15
  {
    var c := SetupOf(sig);
    FinalBounded(c, Single, p);
    FinalBounded(c, Trail, p);
    FinalBounded(c, StepLock, p);
  }

  // ----- Horizons: online against offline -----

  ghost predicate Touched(v: Verdict) { v.kind.TP? || v.kind.Stop? }

  /** Waiting longer never changes a target or stop verdict, whatever the order of the ticks. */
  lemma LongerHorizonSameTouch(c: Setup, p: seq<Point>, h1: int, h2: int)
    requires h1 <= h2 && Touched(OnlineVerdict(c, p, h1))
    ensures OnlineVerdict(c, p, h2) == OnlineVerdict(c, p, h1)
  {
    FirstFireIsFirst(c, Horizon(h1), p, |p|);
    FirstFireIsFirst(c, Horizon(h2), p, |p|);
    var k := FirstFire(c, Horizon(h1), p, |p|).value;
    assert Fires(c, Horizon(h2), p, k);
    forall j | 0 <= j < k ensures !Fires(c, Horizon(h2), p, j) {
      assert !Fires(c, Horizon(h1), p, j);
    }
  }

  /** First tick at which either level is touched. */
  ghost predicate FirstTouchAt(c: Setup, p: seq<Point>, k: nat) {
    && k < |p|
    && (p[k].r >= c.tpR || p[k].r <= -1.0)
    && forall j | 0 <= j < k :: !(p[j].r >= c.tpR) && !(p[j].r <= -1.0)
  }

  ghost predicate NeverTouched(c: Setup, p: seq<Point>) {
    forall j | 0 <= j < |p| :: !(p[j].r >= c.tpR) && !(p[j].r <= -1.0)
  }

  lemma OnlineOnSorted(c: Setup, p: seq<Point>, h: int, k: nat)
    requires Sorted(p) && FirstTouchAt(c, p, k)
    ensures !Late(c, h, p[k]) ==>
              OnlineVerdict(c, p, h) == if p[k].r >= c.tpR then Verdict(TP, c.tpR) else Verdict(Stop, -1.0)
    ensures Late(c, h, p[k]) ==> OnlineVerdict(c, p, h).kind == TimeExit
  {
    FirstFireIsFirst(c, Horizon(h), p, |p|);
    assert Fires(c, Horizon(h), p, k);
    var at := FirstFire(c, Horizon(h), p, |p|).value;
    assert Fires(c, Horizon(h), p, at);
  }

  lemma OnlineUntouched(c: Setup, p: seq<Point>, h: int)
    requires NeverTouched(c, p)
    ensures !Touched(OnlineVerdict(c, p, h))
  {
    FirstFireIsFirst(c, Horizon(h), p, |p|);
  }

  /** The target was touched first, and the stop was touched by a later trade of the same millisecond. */
  ghost predicate SameMillisecondReversal(c: Setup, p: seq<Point>, hold: int) {
    var tp, sl := FirstFire(c, TouchTp, p, |p|), FirstFire(c, TouchSl, p, |p|);
    && tp.Some? && sl.Some?
    && tp.value < sl.value
    && p[tp.value].ts == p[sl.value].ts
    && !Late(c, hold, p[tp.value])
  }

  lemma TouchOrCalm(c: Setup, p: seq<Point>) returns (k: Option<nat>)
    ensures match k case Some(at) => FirstTouchAt(c, p, at) case None => NeverTouched(c, p)
  {
    var tp, sl := FirstFire(c, TouchTp, p, |p|), FirstFire(c, TouchSl, p, |p|);
    FirstFireIsFirst(c, TouchTp, p, |p|);
    FirstFireIsFirst(c, TouchSl, p, |p|);
    assert forall j | 0 <= j < |p| :: (Fires(c, TouchTp, p, j) <==> p[j].r >= c.tpR)
                                   && (Fires(c, TouchSl, p, j) <==> p[j].r <= -1.0);
    k := if tp.Some? && (sl.None? || tp.value <= sl.value) then tp else sl;
  }

  /** What the recorded touch times say, once the first touch is known. */
  lemma OfflineOnSorted(c: Setup, p: seq<Point>, hold: int, k: nat)
    requires Sorted(p) && c.tpR >= 0.0 && FirstTouchAt(c, p, k)
    ensures Late(c, hold, p[k]) ==> OfflineVerdict(c, p, hold) == OnlineVerdict(c, p, ClosestHorizon(hold))
    ensures !Late(c, hold, p[k]) ==>
              OfflineVerdict(c, p, hold) ==
                if p[k].r >= c.tpR && !SameMillisecondReversal(c, p, hold) then Verdict(TP, c.tpR)
                else Verdict(Stop, -1.0)
  {
    FirstFireIsFirst(c, TouchTp, p, |p|);
    FirstFireIsFirst(c, TouchSl, p, |p|);
    assert forall j | 0 <= j < |p| :: (Fires(c, TouchTp, p, j) <==> p[j].r >= c.tpR)
                                   && (Fires(c, TouchSl, p, j) <==> p[j].r <= -1.0);
    var tp, sl := FirstFire(c, TouchTp, p, |p|), FirstFire(c, TouchSl, p, |p|);
    if p[k].r >= c.tpR {
      assert tp == Some(k);
      assert sl.Some? ==> k < sl.value;
    } else {
      assert sl == Some(k);
      assert tp.Some? ==> k < tp.value;
    }
  }

  lemma OfflineUntouched(c: Setup, p: seq<Point>, hold: int)
    requires NeverTouched(c, p)
    ensures OfflineVerdict(c, p, hold) == OnlineVerdict(c, p, ClosestHorizon(hold))
    ensures !SameMillisecondReversal(c, p, hold)
  {
    FirstFireIsFirst(c, TouchTp, p, |p|);
    FirstFireIsFirst(c, TouchSl, p, |p|);
  }

  /**
   On a time-ordered tape and a tracked hold, the verdict read off the touch times is the verdict of the
   tick-by-tick machine, except in exactly one case: a target and then a stop within one millisecond.
   */
  lemma OfflineMeetsOnline(c: Setup, p: seq<Point>, hold: int)
    requires Sorted(p) && c.tpR >= 0.0 && hold in HORIZONS_M
    ensures OfflineVerdict(c, p, hold) == OnlineVerdict(c, p, hold) <==> !SameMillisecondReversal(c, p, hold)
  {
    assert ClosestHorizon(hold) == hold;
    var k := TouchOrCalm(c, p);
    match k {
      case None => OfflineUntouched(c, p, hold);
      case Some(at) =>
        OfflineOnSorted(c, p, hold, at);
        OnlineOnSorted(c, p, hold, at);
        FirstFireIsFirst(c, TouchTp, p, |p|);
        if SameMillisecondReversal(c, p, hold) {
          FirstFireIsFirst(c, TouchSl, p, |p|);
          var tp := FirstFire(c, TouchTp, p, |p|).value;
          assert Fires(c, TouchTp, p, tp);
          assert forall j | 0 <= j < |p| :: Fires(c, TouchSl, p, j) <==> p[j].r <= -1.0;
          forall j | 0 <= j < tp ensures !(p[j].r >= c.tpR) && !(p[j].r <= -1.0) {
            assert !Fires(c, TouchTp, p, j) && !Fires(c, TouchSl, p, j);
          }
          assert at == tp;
        }
    }
  }

  /** With strictly increasing timestamps the exception cannot occur. */
  lemma OfflineMeetsOnlineStrict(c: Setup, p: seq<Point>, hold: int)
    requires forall j, k | 0 <= j < k < |p| :: p[j].ts < p[k].ts
    requires c.tpR >= 0.0 && hold in HORIZONS_M
    ensures OfflineVerdict(c, p, hold) == OnlineVerdict(c, p, hold)
  {
    OfflineMeetsOnline(c, p, hold);
  }

  /**
   For any hold, a touch is reported exactly when it comes no later than the larger of the hold and its
   closest tracked horizon, so an untracked hold is silently extended.
   */
  lemma EffectiveHold(c: Setup, p: seq<Point>, hold: int)
    requires Sorted(p) && c.tpR >= 0.0
    ensures var limit := if hold <= ClosestHorizon(hold) then ClosestHorizon(hold) else hold;
            Touched(OfflineVerdict(c, p, hold)) <==>
            exists k | 0 <= k < |p| :: (p[k].r >= c.tpR || p[k].r <= -1.0) && !Late(c, limit, p[k])
  {
    var k := TouchOrCalm(c, p);
    match k {
      case None =>
        OfflineUntouched(c, p, hold);
        OnlineUntouched(c, p, ClosestHorizon(hold));
      case Some(at) =>
        OfflineOnSorted(c, p, hold, at);
        OnlineOnSorted(c, p, ClosestHorizon(hold), at);
    }
  }

  /** A hold of 200 minutes reports a target touched after 250. */
  lemma TouchAfterHoldWitness()
    ensures var c, p := Setup(0, 1.0), [Point(250 * MS_PER_MIN, 1.0)];
            OfflineVerdict(c, p, 200) == Verdict(TP, 1.0) && Late(c, 200, p[0])
  {
    var c, p := Setup(0, 1.0), [Point(250 * MS_PER_MIN, 1.0)];
    assert FirstTouchAt(c, p, 0);
    OfflineOnSorted(c, p, 200, 0);
    OnlineOnSorted(c, p, 300, 0);
  }

  // ----- Break-even -----

  /** The later protection is never armed before the earlier one. */
  lemma HigherThresholdArmsLater(c: Setup, p: seq<Point>, low: real, high: real)
    requires low <= high
    ensures NoLater(FirstFire(c, Arm(low), p, |p|), FirstFire(c, Arm(high), p, |p|))
  {
    FirstFireIsFirst(c, Arm(low), p, |p|);
    FirstFireIsFirst(c, Arm(high), p, |p|);
    var late := FirstFire(c, Arm(high), p, |p|);
    if late.Some? {
      assert Fires(c, Arm(high), p, late.value);
      assert Fires(c, Arm(low), p, late.value);
    }
  }

  lemma {:induction false} FirstFirePrefix(c: Setup, m: Machine, p: seq<Point>, j: nat, k: nat)
    requires j <= k <= |p|
    ensures FirstFire(c, m, p, j).Some? ==> FirstFire(c, m, p, k) == FirstFire(c, m, p, j)
    decreases k
  {
    if j == k {
    } else {
      FirstFirePrefix(c, m, p, j, k - 1);
    }
  }

  /**
   The stop is touched before the peak reaches the threshold, and a later tick bearing an earlier timestamp
   finds it reached: "the stop was not touched by now" then holds of that tick.
   */
  ghost predicate LateArming(c: Setup, p: seq<Point>, threshold: real) {
    var stop := FirstFire(c, TouchSl, p, |p|);
    && stop.Some? && Peak(p, stop.value) < threshold
    && exists k | stop.value < k < |p| :: p[k].ts < p[stop.value].ts && Peak(p, k + 1) >= threshold
  }

  /** Tick `k` arms, if nothing has, when the peak is there and no stop touch so far bears a time up to its own. */
  lemma ArmFiresWhen(c: Setup, p: seq<Point>, threshold: real, k: nat)
    requires k < |p|
    ensures var stop := FirstFire(c, TouchSl, p, |p|);
            Fires(c, Arm(threshold), p, k) <==>
              Peak(p, k + 1) >= threshold && (stop.Some? && stop.value <= k ==> p[k].ts < p[stop.value].ts)
  {
    FirstFireIsFirst(c, TouchSl, p, |p|);
    FirstFireIsFirst(c, TouchSl, p, k + 1);
    FirstFirePrefix(c, TouchSl, p, k + 1, |p|);
  }

  lemma PeakStartsAtZero(p: seq<Point>)
    ensures Peak(p, 0) == 0.0
  {
  }

  /** On any tape, protection arms at or after the first touch of the stop exactly if the arming is late. */
  lemma ArmsAfterStopExactly(c: Setup, p: seq<Point>, threshold: real)
    requires threshold > 0.0
    ensures var arm, stop := FirstFire(c, Arm(threshold), p, |p|), FirstFire(c, TouchSl, p, |p|);
            arm.Some? && stop.Some? && stop.value <= arm.value <==> LateArming(c, p, threshold)
  {
    hide Peak;
    var arm, stop := FirstFire(c, Arm(threshold), p, |p|), FirstFire(c, TouchSl, p, |p|);
    FirstFireIsFirst(c, Arm(threshold), p, |p|);
    PeakStartsAtZero(p);
    if stop.Some? {
      var at := stop.value;
      if arm.Some? && at <= arm.value {
        ArmFiresWhen(c, p, threshold, arm.value);
        if at > 0 {
          ArmFiresWhen(c, p, threshold, at - 1);
        }
      }
      if LateArming(c, p, threshold) {
        var k :| at < k < |p| && p[k].ts < p[at].ts && Peak(p, k + 1) >= threshold;
        ArmFiresWhen(c, p, threshold, k);
        ArmFiresWhen(c, p, threshold, arm.value);
        if arm.value < at {
          PeakMonotone(p, arm.value + 1, at);
        }
      }
    }
  }

  /**
   On any tape, and unless the arming is late, protection arms at the first tick to reach the threshold, with
   the stop untouched up to it; a late arming comes after a touch of the stop.
   */
  lemma ArmedCleanly(c: Setup, p: seq<Point>, threshold: real)
    requires threshold > 0.0 && FirstFire(c, Arm(threshold), p, |p|).Some?
    ensures var a := FirstFire(c, Arm(threshold), p, |p|).value;
            && ((forall k | 0 <= k <= a :: -1.0 < p[k].r) <==> !LateArming(c, p, threshold))
            && (!LateArming(c, p, threshold) ==>
                  p[a].r >= threshold && forall k | 0 <= k < a :: p[k].r < threshold)
  {
    hide LateArming;
    var a, stop := FirstFire(c, Arm(threshold), p, |p|).value, FirstFire(c, TouchSl, p, |p|);
    ArmsAfterStopExactly(c, p, threshold);
    FirstFireIsFirst(c, Arm(threshold), p, |p|);
    FirstFireIsFirst(c, TouchSl, p, |p|);
    assert forall k | 0 <= k < |p| :: Fires(c, TouchSl, p, k) <==> p[k].r <= -1.0;
    ArmFiresWhen(c, p, threshold, a);
    if !LateArming(c, p, threshold) && a > 0 {
      ArmFiresWhen(c, p, threshold, a - 1);
      PeakIsBest(p, a);
    }
  }

  lemma ArmStays(c: Setup, p: seq<Point>, threshold: real, a: nat, n: nat)
    requires a < n <= |p| && FirstFire(c, Arm(threshold), p, |p|) == Some(a)
    ensures FirstFire(c, Arm(threshold), p, n) == Some(a)
  {
    FirstFireIsFirst(c, Arm(threshold), p, |p|);
    FirstFireIsFirst(c, Arm(threshold), p, n);
  }

  /** Break-even stays unresolved after arming exactly while every tick lies between entry and target. */
  lemma NoExitMeansBetween(c: Setup, p: seq<Point>, threshold: real, a: nat)
    requires FirstFire(c, Arm(threshold), p, |p|) == Some(a)
    ensures FirstFire(c, BreakEven(threshold), p, |p|).None? <==> forall k | a <= k < |p| :: 0.0 < p[k].r < c.tpR
    ensures match FirstFire(c, BreakEven(threshold), p, |p|)
            case None => true
            case Some(k) => a <= k
  {
    FirstFireIsFirst(c, BreakEven(threshold), p, |p|);
    forall k | 0 <= k < |p| ensures Fires(c, BreakEven(threshold), p, k) <==> a <= k && !(0.0 < p[k].r < c.tpR) {
      FirstFirePrefix(c, Arm(threshold), p, k + 1, |p|);
      if a <= k {
        ArmStays(c, p, threshold, a, k + 1);
      }
    }
  }

  lemma UntouchedAboveStop(c: Setup, p: seq<Point>, hold: int)
    requires NeverTouched(c, p)
    ensures !Touched(OfflineVerdict(c, p, hold)) && OfflineVerdict(c, p, hold).r > -1.0
  {
    OfflineUntouched(c, p, hold);
    OnlineUntouched(c, p, ClosestHorizon(hold));
    FirstFireIsFirst(c, Horizon(ClosestHorizon(hold)), p, |p|);
  }

  /**
   On any tape, and unless the arming is late, an armed break-even hypothesis never ends as a full stop: it
   exits at entry or at the target, or the path touched neither level and the fallback is an exit above -1R.
   */
  lemma ArmedNeverStopsOut(c: Setup, p: seq<Point>, threshold: real, hold: int)
    requires c.tpR >= 0.0 && threshold > 0.0
    requires FirstFire(c, Arm(threshold), p, |p|).Some? && !LateArming(c, p, threshold)
    ensures var a := FirstFire(c, Arm(threshold), p, |p|).value;
            var original := OfflineVerdict(c, p, hold);
            var result := Final(c, BreakEven(threshold), p, original.r);
            && result > -1.0
            && match FirstFire(c, BreakEven(threshold), p, |p|)
               case Some(k) => a <= k && (result == 0.0 || result == c.tpR)
               case None => NeverTouched(c, p) && !Touched(original) && result == original.r
  {
    hide LateArming;
    var a := FirstFire(c, Arm(threshold), p, |p|).value;
    ArmedCleanly(c, p, threshold);
    NoExitMeansBetween(c, p, threshold, a);
    if FirstFire(c, BreakEven(threshold), p, |p|).None? {
      assert NeverTouched(c, p);
      UntouchedAboveStop(c, p, hold);
    }
  }

  /**
   The recorded touches, or failing them the closest horizon, make the signal's own outcome a full stop or worse:
   the stop within the hold and no later than the target, or neither within it and the tick that closes the
   horizon at -1R or below.
   */
  ghost predicate StoppedByTouches(c: Setup, p: seq<Point>, hold: int) {
    var tp, sl, limit := TouchMs(c, TouchTp, p), TouchMs(c, TouchSl, p), c.tsEntry + hold * MS_PER_MIN;
    if Within(sl, limit) then !Within(tp, limit) || sl.value <= tp.value
    else
      && !Within(tp, limit)
      && var closing := FirstFire(c, Horizon(ClosestHorizon(hold)), p, |p|);
      closing.Some? && p[closing.value].r <= -1.0
  }

  lemma OfflineStopExactly(c: Setup, p: seq<Point>, hold: int)
    requires c.tpR >= 0.0
    ensures OfflineVerdict(c, p, hold).r <= -1.0 <==> StoppedByTouches(c, p, hold)
  {
    var h := ClosestHorizon(hold);
    FirstFireIsFirst(c, Horizon(h), p, |p|);
    if FirstFire(c, Horizon(h), p, |p|).None? && p != [] {
      assert !Fires(c, Horizon(h), p, |p| - 1);
    }
  }

  /**
   Exactly when an armed hypothesis ends at a full stop or worse, on any tape: the arming is late, every later
   tick lies between entry and target, and the touches make the signal's own outcome that bad.
   */
  lemma ArmedFullStopExactly(c: Setup, p: seq<Point>, threshold: real, hold: int)
    requires c.tpR >= 0.0 && threshold > 0.0 && FirstFire(c, Arm(threshold), p, |p|).Some?
    ensures var a := FirstFire(c, Arm(threshold), p, |p|).value;
            Final(c, BreakEven(threshold), p, OfflineVerdict(c, p, hold).r) <= -1.0 <==>
              && LateArming(c, p, threshold)
              && (forall k | a <= k < |p| :: 0.0 < p[k].r < c.tpR)
              && StoppedByTouches(c, p, hold)
  {
    hide LateArming, StoppedByTouches;
    OfflineStopExactly(c, p, hold);
    NoExitMeansBetween(c, p, threshold, FirstFire(c, Arm(threshold), p, |p|).value);
    if !LateArming(c, p, threshold) {
      ArmedNeverStopsOut(c, p, threshold, hold);
    }
  }

  lemma SortedNeverLate(c: Setup, p: seq<Point>, threshold: real)
    requires Sorted(p)
    ensures !LateArming(c, p, threshold)
  {
  }

  /** A late arming: on this tape protection arms although the stop was touched one tick before. */
  lemma ArmedAfterStopWitness()
    ensures var c, p := Setup(0, 1.0), [Point(5, -1.0), Point(3, 0.6)];
            FirstFire(c, Arm(0.5), p, 2) == Some(1) && p[0].r <= -1.0
  {
    var c, p := Setup(0, 1.0), [Point(5, -1.0), Point(3, 0.6)];
    assert Fires(c, TouchSl, p, 0);
    assert FirstFire(c, TouchSl, p, 0).None?;
    assert FirstFire(c, TouchSl, p, 1) == Some(0);
    assert FirstFire(c, TouchSl, p, 2) == Some(0);
    assert Peak(p, 0) == 0.0;
    assert Peak(p, 1) == 0.0;
    assert Peak(p, 2) == 0.6;
    assert !Fires(c, Arm(0.5), p, 0);
    assert Fires(c, Arm(0.5), p, 1);
    assert FirstFire(c, Arm(0.5), p, 1).None?;
  }

  // ----- The results of one replay, put together -----

  lemma PathKeepsOrder(sig: Signal, w: seq<Row>)
    requires sig.entry != sig.sl
    requires InTimeOrder(w)
    ensures Sorted(PathOf(sig, w))
  {
  }

  lemma TargetNonNegative(sig: Signal)
    requires sig.entry != sig.sl
    ensures SetupOf(sig).tpR >= 0.0
  {
    var a, b := Abs(sig.tp - sig.entry), Abs(sig.entry - sig.sl);
    assert (a / b) * b == a;
  }

  /** Everything a reader may conclude from a replay over a time-ordered tape. */
  lemma ReplayGuarantees(sig: Signal, rows: seq<Row>, maxHorizonM: int, res: Replay)
    requires sig.entry != sig.sl
    requires InTimeOrder(rows)
    requires Explains(sig, TapePath(sig, rows, maxHorizonM), res)
    ensures var p := TapePath(sig, rows, maxHorizonM);
            var c := SetupOf(sig);
            && (HoldMinutes(sig) in HORIZONS_M && !SameMillisecondReversal(c, p, HoldMinutes(sig)) ==>
                  res.original == res.horizon[HoldMinutes(sig)])
            && (forall g, h | g in HORIZONS_M && h in HORIZONS_M && g <= h && Touched(res.horizon[g]) ::
                  res.horizon[h] == res.horizon[g])
            && (FirstFire(c, Arm(0.5), p, |p|).Some? ==> res.be05 > -1.0)
            && (FirstFire(c, Arm(1.0), p, |p|).Some? ==> res.be10 > -1.0)
            && (FirstFire(c, Arm(1.0), p, |p|).Some? ==> FirstFire(c, Arm(0.5), p, |p|).Some?)
  {
    var p := TapePath(sig, rows, maxHorizonM);
    var c := SetupOf(sig);
    var toMs := sig.tsEntry + maxHorizonM * MS_PER_MIN;
    var w := Window(rows, sig.symbol, sig.tsEntry, toMs);
    WindowKeepsOrder(rows, sig.symbol, sig.tsEntry, toMs);
    PathKeepsOrder(sig, w);
    TargetNonNegative(sig);
    if HoldMinutes(sig) in HORIZONS_M {
      OfflineMeetsOnline(c, p, HoldMinutes(sig));
    }
    forall g, h | g in HORIZONS_M && h in HORIZONS_M && g <= h && Touched(res.horizon[g])
      ensures res.horizon[h] == res.horizon[g]
    {
      LongerHorizonSameTouch(c, p, g, h);
    }
    SortedNeverLate(c, p, 0.5);
    SortedNeverLate(c, p, 1.0);
    if FirstFire(c, Arm(0.5), p, |p|).Some? { ArmedNeverStopsOut(c, p, 0.5, HoldMinutes(sig)); }
    if FirstFire(c, Arm(1.0), p, |p|).Some? { ArmedNeverStopsOut(c, p, 1.0, HoldMinutes(sig)); }
    HigherThresholdArmsLater(c, p, 0.5, 1.0);
  }
}
