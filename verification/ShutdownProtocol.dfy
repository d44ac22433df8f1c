/**
 Shutting the control center down.  A hard fail can be entered by the Tk thread and by the monitor dispatcher, the
 operator can close the window, stop threads work through the contours they captured, and the Tk thread handles
 the event queue.  Every slot holds a whole contour of `ContourProtocol`, so other stops, starts and exits go on
 meanwhile and a stop sequence learns only what the contour's own `stop()` answers.  Slots are numbered in
 shutdown order.
 */
module ShutdownProtocol {
  import opened Market
  import C = ContourProtocol

  // telegram_bot, paper_cards, farm, scanner, public_news, ollama, dashboard, graphs

  const ALL_SLOTS: nat := 8
  const HARD_FAIL_SLOTS: nat := 6
  const OLLAMA: nat := 5

  /** What a capture saw in a slot. */
  datatype Child = Child(gen: nat, alive: bool)

  /** A contour a stop sequence found running, and the process it found there. */
  datatype Owned = Owned(slot: nat, gen: nat)

  datatype Kind = HardFail | Operator

  /**
   A stop sequence: what its capture has seen so far, slot by slot, the thread of the contour's `stop()` it is
   inside of, the answers it has collected.
   */
  datatype StopRun = StopRun(kind: Kind, seen: seq<Child>, calling: Option<nat>, results: seq<bool>, posted: bool)

  datatype Event = CloseApp(run: nat) | StopFailed(run: nat) | RuntimeHardFail | Note

  datatype App = App(
    contours: seq<C.Contour>, hardFailStarted: bool, closing: bool, runs: seq<StopRun>, events: seq<Event>,
    dispatchers: nat, lockHeld: bool, destroyed: bool, closedBy: Option<nat>)

  datatype Action =
    | ContourActs(slot: nat, action: C.Action)  // a start, a poll, another stop thread, an exit
    | MonitorFails                              // posts an event and spawns a dispatcher
    | Dispatch                                  // the dispatcher enters the hard fail
    | RequiredExit                              // the Tk refresh enters the hard fail
    | OperatorCloses
    | OperatorClosesIdle                        // nothing is running: close at once
    | Capture(run: nat)
    | CallStop(run: nat)
    | StopReturns(run: nat)
    | Post(run: nat, externalGone: bool)
    | PostNote                                  // a log or state event
    | Poll                                      // the Tk thread handles one event

  ghost function Limit(k: Kind): nat { if k.HardFail? then HARD_FAIL_SLOTS else ALL_SLOTS }

  ghost predicate Captured(r: StopRun) { |r.seen| == Limit(r.kind) }

  /** The contours seen running, in shutdown order. */
  function OwnedOf(seen: seq<Child>): seq<Owned> {
    if seen == [] then []
    else
      var init, last := seen[..|seen|-1], seen[|seen|-1];
      if last.alive then OwnedOf(init) + [Owned(|init|, last.gen)] else OwnedOf(init)
  }

  /** The process is gone: it has exited, or another has been started since. */
  ghost predicate Dead(contours: seq<C.Contour>, o: Owned) {
    o.slot < |contours| && C.Dead(contours[o.slot], o.gen)
  }

  ghost predicate AllTrue(s: seq<bool>) { forall k | 0 <= k < |s| :: s[k] }

  /** The contour run `r` stops next. */
  ghost function NextOwned(a: App, r: nat): Owned
    requires r < |a.runs| && |a.runs[r].results| < |OwnedOf(a.runs[r].seen)|
  {
    OwnedOf(a.runs[r].seen)[|a.runs[r].results|]
  }

  ghost predicate HasNext(a: App, r: nat) {
    && r < |a.runs| && |a.runs[r].results| < |OwnedOf(a.runs[r].seen)|
    && NextOwned(a, r).slot < |a.contours|
  }

  /** The `stop()` thread run `r` is inside of. */
  ghost predicate InCall(a: App, r: nat) {
    && HasNext(a, r) && a.runs[r].calling.Some?
    && a.runs[r].calling.value < |a.contours[NextOwned(a, r).slot].stops|
  }

  ghost function CallStage(a: App, r: nat): C.StopStage
    requires InCall(a, r)
  {
    a.contours[NextOwned(a, r).slot].stops[a.runs[r].calling.value].stage
  }

  /** The Tk thread is inside no call of a contour; being one thread, it can then do something else. */
  ghost predicate TkFree(a: App) { !a.destroyed && forall c | 0 <= c < |a.contours| :: a.contours[c].tk == C.Idle }

  /** A refresh has reported the exit of a required contour. */
  ghost predicate ExitReported(a: App) {
    exists c | 0 <= c < |a.contours| && c < HARD_FAIL_SLOTS :: a.contours[c].reports != []
  }

  ghost predicate Enabled(a: App, x: Action) {
    match x
    case ContourActs(slot, action) =>
      slot < |a.contours| && C.Enabled(a.contours[slot], action) && (C.BeginsOnTk(action) ==> TkFree(a))
    case MonitorFails => true
    case Dispatch => a.dispatchers > 0
    case RequiredExit => TkFree(a) && ExitReported(a)
    case OperatorCloses => TkFree(a) && !a.closing
    case OperatorClosesIdle => TkFree(a) && !a.closing && forall c | c in a.contours :: !c.alive
    case Capture(r) => r < |a.runs| && |a.runs[r].seen| < Limit(a.runs[r].kind) && |a.runs[r].seen| < |a.contours|
    case CallStop(r) => HasNext(a, r) && Captured(a.runs[r]) && a.runs[r].calling.None?
    case StopReturns(r) => InCall(a, r) && CallStage(a, r).Returned?
    case Post(r, _) =>
      r < |a.runs| && Captured(a.runs[r]) && !a.runs[r].posted && |a.runs[r].results| == |OwnedOf(a.runs[r].seen)|
    case PostNote => true
    case Poll => TkFree(a) && a.events != []
  }

  ghost function NewRun(k: Kind): StopRun { StopRun(k, [], None, [], false) }

  /** The test-and-set under the hard-fail lock, and what follows it. */
  ghost function EnterHardFail(a: App): App {
    if a.hardFailStarted then a
    else a.(hardFailStarted := true, closing := true, runs := a.runs + [NewRun(HardFail)])
  }

  /** One turn of the capture loop. */
  ghost function CaptureNext(contours: seq<C.Contour>, r: StopRun): StopRun
    requires |r.seen| < |contours|
  {
    var c := contours[|r.seen|];
    r.(seen := r.seen + [Child(c.gen, c.alive)])
  }

  ghost function Apply(a: App, x: Action): App
    requires Enabled(a, x)
  {
    match x
    case ContourActs(slot, action) => a.(contours := a.contours[slot := C.Apply(a.contours[slot], action)])
    case MonitorFails => a.(events := a.events + [RuntimeHardFail], dispatchers := a.dispatchers + 1)
    case Dispatch => EnterHardFail(a.(dispatchers := a.dispatchers - 1))
    case RequiredExit => EnterHardFail(a)
    case OperatorCloses => a.(closing := true, runs := a.runs + [NewRun(Operator)])
    case OperatorClosesIdle => a.(lockHeld := false, destroyed := true)
    case Capture(r) => a.(runs := a.runs[r := CaptureNext(a.contours, a.runs[r])])
    case CallStop(r) =>
      var slot := NextOwned(a, r).slot;
      a.(contours := a.contours[slot := C.Apply(a.contours[slot], C.StopBegin)],
         runs := a.runs[r := a.runs[r].(calling := Some(|a.contours[slot].stops|))])
    case StopReturns(r) =>
      var results := a.runs[r].results + [CallStage(a, r).answer.Gone?];
      a.(runs := a.runs[r := a.runs[r].(calling := None, results := results)])
    case Post(r, externalGone) =>
      var stopped := AllTrue(a.runs[r].results) && (a.runs[r].kind.HardFail? || externalGone);
      a.(runs := a.runs[r := a.runs[r].(posted := true)],
         events := a.events + [if stopped then CloseApp(r) else StopFailed(r)])
    case PostNote => a.(events := a.events + [Note])
    case Poll =>
      var b := a.(events := a.events[1..]);
      match a.events[0]
      case CloseApp(r) => b.(lockHeld := false, destroyed := true, closedBy := Some(r))
      case StopFailed(_) => b.(closing := false)
      case RuntimeHardFail => EnterHardFail(b)
      case Note => b
  }

  ghost predicate Initial(a: App) {
    && |a.contours| == ALL_SLOTS && (forall c | c in a.contours :: c == C.NEW_CONTOUR)
    && !a.hardFailStarted && !a.closing && a.runs == [] && a.events == []
    && a.dispatchers == 0 && a.lockHeld && !a.destroyed && a.closedBy.None?
  }

  datatype History = History(actions: seq<Action>, states: seq<App>)

  ghost predicate IsHistory(h: History) {
    && |h.states| == |h.actions| + 1
    && Initial(h.states[0])
    && forall k {:trigger h.actions[k]} | 0 <= k < |h.actions| ::
         Enabled(h.states[k], h.actions[k]) && h.states[k+1] == Apply(h.states[k], h.actions[k])
  }

  // ----- One hard-fail sequence -----

  ghost predicate OneHardFail(a: App) {
    && (forall i | 0 <= i < |a.runs| && a.runs[i].kind.HardFail? :: a.hardFailStarted)
    && (forall i, j | 0 <= i < j < |a.runs| && a.runs[i].kind.HardFail? :: a.runs[j].kind.Operator?)
  }

  lemma OneHardFailKept(a: App, x: Action)
    requires OneHardFail(a) && Enabled(a, x)
    ensures OneHardFail(Apply(a, x))
  {
    hide C.Enabled, C.Apply, OwnedOf;
  }

  // ----- What a capture owns -----

  lemma {:induction false} OwnedFacts(seen: seq<Child>)
    ensures forall i | 0 <= i < |OwnedOf(seen)| ::
              var o := OwnedOf(seen)[i]; o.slot < |seen| && seen[o.slot] == Child(o.gen, true)
    ensures forall i, j | 0 <= i < j < |OwnedOf(seen)| :: OwnedOf(seen)[i].slot < OwnedOf(seen)[j].slot
  {
    if seen == [] {
    } else {
      OwnedFacts(seen[..|seen|-1]);
    }
  }

  /** Everything seen running is owned. */
  lemma {:induction false} OwnedComplete(seen: seq<Child>, slot: nat) returns (i: nat)
    requires slot < |seen| && seen[slot].alive
    ensures i < |OwnedOf(seen)| && OwnedOf(seen)[i] == Owned(slot, seen[slot].gen)
  {
    if slot == |seen| - 1 {
      i := |OwnedOf(seen)| - 1;
    } else {
      i := OwnedComplete(seen[..|seen|-1], slot);
    }
  }

  // ----- Stop sequences -----

  /** Generations only grow in every slot, nothing dead comes back, stop threads keep their place. */
  ghost predicate Moved(before: seq<C.Contour>, after: seq<C.Contour>) {
    && |before| == |after|
    && forall c | 0 <= c < |before| :: C.Later(before[c], after[c])
  }

  /** What was seen in a slot is in its past. */
  ghost predicate SeenBefore(contours: seq<C.Contour>, seen: seq<Child>) {
    && |seen| <= |contours|
    && forall k | 0 <= k < |seen| ::
         seen[k].gen <= contours[k].gen && (!seen[k].alive ==> C.Dead(contours[k], seen[k].gen))
  }

  /** The stop in progress was begun on the captured process or a later one. */
  ghost predicate CallSound(contours: seq<C.Contour>, r: StopRun) {
    r.calling.Some? ==>
      && Captured(r) && |r.results| < |OwnedOf(r.seen)|
      && var o := OwnedOf(r.seen)[|r.results|];
      && o.slot < |contours| && r.calling.value < |contours[o.slot].stops|
      && o.gen <= contours[o.slot].stops[r.calling.value].gen
  }

  /** Each success is backed by a death. */
  ghost predicate ResultsSound(contours: seq<C.Contour>, r: StopRun) {
    && |r.results| <= |OwnedOf(r.seen)|
    && forall i | 0 <= i < |r.results| && r.results[i] :: Dead(contours, OwnedOf(r.seen)[i])
  }

  ghost predicate RunSound(contours: seq<C.Contour>, r: StopRun) {
    && |r.seen| <= Limit(r.kind)
    && (r.results != [] || r.posted ==> Captured(r))
    && (r.posted ==> |r.results| == |OwnedOf(r.seen)|)
    && SeenBefore(contours, r.seen) && CallSound(contours, r) && ResultsSound(contours, r)
  }

  ghost predicate RunsSound(a: App) {
    && |a.contours| == ALL_SLOTS
    && (forall r | 0 <= r < |a.runs| :: RunSound(a.contours, a.runs[r]))
  }

  ghost predicate ContoursSound(a: App) { forall c | 0 <= c < |a.contours| :: C.StopsInv(a.contours[c]) }

  lemma RunSurvives(before: seq<C.Contour>, after: seq<C.Contour>, r: StopRun)
    requires RunSound(before, r) && Moved(before, after)
    ensures RunSound(after, r)
  {
    hide OwnedOf;
    OwnedFacts(r.seen);
    forall k | 0 <= k < |r.seen| && !r.seen[k].alive ensures C.Dead(after[k], r.seen[k].gen) {
      C.LaterDead(before[k], after[k], r.seen[k].gen);
    }
    forall i | 0 <= i < |r.results| && r.results[i] ensures Dead(after, OwnedOf(r.seen)[i]) {
      var o := OwnedOf(r.seen)[i];
      assert Dead(before, o);
      C.LaterDead(before[o.slot], after[o.slot], o.gen);
    }
  }

  lemma BeginEnabled(c: C.Contour)
    ensures C.Enabled(c, C.StopBegin)
    ensures C.Apply(c, C.StopBegin).stops == c.stops + [C.StopThread(c.gen, C.Begun)]
  {
  }

  lemma AppMoves(a: App, x: Action)
    requires Enabled(a, x)
    ensures Moved(a.contours, Apply(a, x).contours)
  {
    hide C.Enabled, C.Apply, C.Later, OwnedOf;
    forall c | 0 <= c < |a.contours| ensures C.Later(a.contours[c], a.contours[c]) {
      C.LaterSelf(a.contours[c]);
    }
    if x.ContourActs? {
      C.LaterApplies(a.contours[x.slot], x.action);
    } else if x.CallStop? {
      BeginEnabled(a.contours[NextOwned(a, x.run).slot]);
      C.LaterApplies(a.contours[NextOwned(a, x.run).slot], C.StopBegin);
    }
  }

  lemma ContoursKept(a: App, x: Action)
    requires ContoursSound(a) && Enabled(a, x)
    ensures ContoursSound(Apply(a, x))
  {
    hide C.Enabled, C.Apply, C.StopsInv, OwnedOf;
    if x.ContourActs? {
      C.StopsKept(a.contours[x.slot], x.action);
    } else if x.CallStop? {
      BeginEnabled(a.contours[NextOwned(a, x.run).slot]);
      C.StopsKept(a.contours[NextOwned(a, x.run).slot], C.StopBegin);
    }
  }

  lemma CaptureSound(contours: seq<C.Contour>, r: StopRun)
    requires RunSound(contours, r) && |r.seen| < Limit(r.kind) && |r.seen| < |contours|
    ensures RunSound(contours, CaptureNext(contours, r))
  {
    assert !Captured(r);
  }

  lemma CallBegins(contours: seq<C.Contour>, r: StopRun, o: Owned, thread: nat)
    requires RunSound(contours, r) && Captured(r)
    requires |r.results| < |OwnedOf(r.seen)| && OwnedOf(r.seen)[|r.results|] == o
    requires o.slot < |contours| && thread < |contours[o.slot].stops| && o.gen <= contours[o.slot].stops[thread].gen
    ensures RunSound(contours, r.(calling := Some(thread)))
  {
    hide OwnedOf;
  }

  /** The answer of a contour's own stop is what the sequence records; a true one has seen the process gone. */
  lemma CallEnds(contours: seq<C.Contour>, r: StopRun, o: Owned, ok: bool)
    requires RunSound(contours, r) && r.calling.Some? && OwnedOf(r.seen)[|r.results|] == o
    requires C.StopsInv(contours[o.slot])
    requires ok ==> contours[o.slot].stops[r.calling.value].stage == C.Returned(C.Gone)
    ensures RunSound(contours, r.(calling := None, results := r.results + [ok]))
  {
    hide OwnedOf;
    var r' := r.(calling := None, results := r.results + [ok]);
    forall i | 0 <= i < |r'.results| && r'.results[i] ensures Dead(contours, OwnedOf(r'.seen)[i]) {
      if i < |r.results| {
        assert r.results[i];
      } else {
        assert C.Dead(contours[o.slot], contours[o.slot].stops[r.calling.value].gen);
      }
    }
  }

  lemma PostSound(contours: seq<C.Contour>, r: StopRun)
    requires RunSound(contours, r) && Captured(r) && |r.results| == |OwnedOf(r.seen)|
    ensures RunSound(contours, r.(posted := true))
  {
    hide OwnedOf;
  }

  lemma SeenGen(contours: seq<C.Contour>, r: StopRun, i: nat)
    requires RunSound(contours, r) && i < |OwnedOf(r.seen)|
    ensures var o := OwnedOf(r.seen)[i]; o.slot < |contours| && o.gen <= contours[o.slot].gen
  {
    hide OwnedOf;
    OwnedFacts(r.seen);
  }

  /** The one run an action moves stays sound. */
  lemma OwnMoveSound(a: App, x: Action, r: nat)
    requires RunsSound(a) && ContoursSound(a) && Enabled(a, x) && r < |a.runs|
    requires x in {Capture(r), CallStop(r), StopReturns(r)} || (x.Post? && x.run == r)
    ensures r < |Apply(a, x).runs| && RunSound(Apply(a, x).contours, Apply(a, x).runs[r])
  {
    hide RunSound, OwnedOf, CaptureNext, C.StopsInv, C.Enabled, C.Apply, Moved;
    var run := a.runs[r];
    assert RunSound(a.contours, run);
    match x {
      case Capture(_) => CaptureSound(a.contours, run);
      case CallStop(_) =>
        var after := Apply(a, x).contours;
        AppMoves(a, x);
        RunSurvives(a.contours, after, run);
        var o := NextOwned(a, r);
        BeginEnabled(a.contours[o.slot]);
        SeenGen(a.contours, run, |run.results|);
        CallBegins(after, run, o, |a.contours[o.slot].stops|);
      case StopReturns(_) =>
        var o := NextOwned(a, r);
        assert C.StopsInv(a.contours[o.slot]);
        CallEnds(a.contours, run, o, CallStage(a, r).answer.Gone?);
      case Post(_, _) => PostSound(a.contours, run);
    }
  }

  lemma NewRunSound(contours: seq<C.Contour>, k: Kind)
    ensures RunSound(contours, NewRun(k))
  {
  }

  lemma SlotsStay(a: App, x: Action)
    requires Enabled(a, x)
    ensures |Apply(a, x).contours| == |a.contours|
  {
    hide C.Apply, C.Enabled, OwnedOf, CaptureNext;
  }

  lemma RunsSoundKept(a: App, x: Action)
    requires RunsSound(a) && ContoursSound(a) && Enabled(a, x)
    ensures RunsSound(Apply(a, x))
  {
    hide RunSound, ContoursSound, CaptureNext, Moved, OwnedOf, C.Apply, C.Enabled, CallStage;
    var b := Apply(a, x);
    AppMoves(a, x);
    SlotsStay(a, x);
    forall r | 0 <= r < |b.runs| ensures RunSound(b.contours, b.runs[r]) {
      if r >= |a.runs| {
        NewRunSound(b.contours, b.runs[r].kind);
      } else if x in {Capture(r), CallStop(r), StopReturns(r)} || (x.Post? && x.run == r) {
        OwnMoveSound(a, x, r);
      } else {
        RunSurvives(a.contours, b.contours, a.runs[r]);
      }
    }
  }

  // ----- Closing -----

  /** The sequence has stopped everything it captured. */
  ghost predicate Succeeded(a: App, r: nat) {
    && r < |a.runs| && a.runs[r].posted && Captured(a.runs[r])
    && |a.runs[r].results| == |OwnedOf(a.runs[r].seen)| && AllTrue(a.runs[r].results)
  }

  ghost predicate CloseBacked(a: App) {
    && (forall k | 0 <= k < |a.events| && a.events[k].CloseApp? :: Succeeded(a, a.events[k].run))
    && (a.closedBy.Some? ==> Succeeded(a, a.closedBy.value))
    && (!a.lockHeld ==> a.destroyed)
  }

  lemma SucceededStays(a: App, x: Action, r: nat)
    requires RunsSound(a) && Enabled(a, x) && Succeeded(a, r)
    ensures Succeeded(Apply(a, x), r)
  {
    hide C.Apply, C.Enabled, SeenBefore, ResultsSound, OwnedOf;
    assert RunSound(a.contours, a.runs[r]);
  }

  lemma CloseBackedKept(a: App, x: Action)
    requires RunsSound(a) && CloseBacked(a) && Enabled(a, x)
    ensures CloseBacked(Apply(a, x))
  {
    hide C.Apply, C.Enabled, RunsSound, CaptureNext, OwnedOf;
    var b := Apply(a, x);
    forall k | 0 <= k < |b.events| && b.events[k].CloseApp? ensures Succeeded(b, b.events[k].run) {
      if x.Poll? {
        assert b.events[k] == a.events[k+1];
        SucceededStays(a, x, b.events[k].run);
      } else if k < |a.events| {
        assert b.events[k] == a.events[k];
        SucceededStays(a, x, b.events[k].run);
      }
    }
    if a.closedBy.Some? {
      SucceededStays(a, x, a.closedBy.value);
    }
    if x.Poll? && a.events[0].CloseApp? {
      SucceededStays(a, x, a.events[0].run);
    }
  }

  // ----- What holds under every interleaving -----

  ghost predicate Inv(a: App) { OneHardFail(a) && ContoursSound(a) && RunsSound(a) && CloseBacked(a) }

  lemma InvKept(a: App, x: Action)
    requires Inv(a) && Enabled(a, x)
    ensures Inv(Apply(a, x))
  {
    hide Apply, Enabled, OneHardFail, ContoursSound, RunsSound, CloseBacked;
    OneHardFailKept(a, x);
    ContoursKept(a, x);
    RunsSoundKept(a, x);
    CloseBackedKept(a, x);
  }

  lemma InvInitially(a: App)
    requires Initial(a)
    ensures Inv(a)
  {
    forall c | 0 <= c < |a.contours| ensures C.StopsInv(a.contours[c]) {
      assert a.contours[c] in a.contours;
    }
  }

  lemma {:induction false} InvAt(h: History, n: nat)
    requires IsHistory(h) && n <= |h.actions|
    ensures Inv(h.states[n])
  {
    hide Apply, Enabled, Inv;
    if n == 0 {
      InvInitially(h.states[0]);
    } else {
      InvAt(h, n - 1);
      InvKept(h.states[n-1], h.actions[n-1]);
    }
  }

  /** The hard-fail sequence is entered at most once, whoever enters it, and never again after it failed. */
  lemma HardFailRunsOnce(h: History, n: nat, i: nat, j: nat)
    requires IsHistory(h) && n <= |h.actions|
    requires i < |h.states[n].runs| && h.states[n].runs[i].kind.HardFail?
    requires j < |h.states[n].runs| && h.states[n].runs[j].kind.HardFail?
    ensures i == j && EnterHardFail(h.states[n]) == h.states[n]
  {
    hide IsHistory, ContoursSound, RunsSound, CloseBacked;
    InvAt(h, n);
  }

  /** In every sequence ollama's stop is called only after each of its captured consumers' has returned. */
  lemma OllamaStopsLast(h: History, n: nat, r: nat)
    requires IsHistory(h) && n <= |h.actions|
    requires InCall(h.states[n], r) && NextOwned(h.states[n], r).slot == 5
    ensures var run := h.states[n].runs[r];
            forall k | 0 <= k < |OwnedOf(run.seen)| && OwnedOf(run.seen)[k].slot < 5 :: k < |run.results|
  {
    OwnedFacts(h.states[n].runs[r].seen);
  }

  /** The contour of a slot has been started since the capture saw it. */
  ghost predicate StartedSince(a: App, r: nat, slot: nat)
    requires r < |a.runs| && slot < |a.contours|
  {
    slot < |a.runs[r].seen| && a.runs[r].seen[slot].gen < a.contours[slot].gen
  }

  /** Nothing that was there when a successful sequence captured its slots is running any more. */
  ghost predicate StoppedAll(a: App, r: nat) {
    && r < |a.runs| && Captured(a.runs[r]) && |a.contours| == ALL_SLOTS
    && forall slot | 0 <= slot < Limit(a.runs[r].kind) :: a.contours[slot].alive ==> StartedSince(a, r, slot)
  }

  lemma SucceededStoppedAll(a: App, r: nat)
    requires RunsSound(a) && Succeeded(a, r)
    ensures StoppedAll(a, r)
  {
    hide OwnedOf;
    var run := a.runs[r];
    assert RunSound(a.contours, run);
    forall slot | 0 <= slot < Limit(run.kind) && a.contours[slot].alive ensures StartedSince(a, r, slot) {
      assert run.seen[slot].gen <= a.contours[slot].gen;
      if run.seen[slot].alive {
        var i := OwnedComplete(run.seen, slot);
        assert run.results[i];
        assert Dead(a.contours, OwnedOf(run.seen)[i]);
      }
    }
  }

  /**
   The instance lock is released through a close event only if the sequence that posted it had looked at every
   slot of its kind, and whatever runs in one of them was started after that look.
   */
  lemma ReleasedOnlyWhenStopped(h: History, n: nat)
    requires IsHistory(h) && n <= |h.actions| && h.states[n].closedBy.Some?
    ensures StoppedAll(h.states[n], h.states[n].closedBy.value)
  {
    hide Initial, OneHardFail, ContoursSound, RunsSound, StoppedAll;
    InvAt(h, n);
    SucceededStoppedAll(h.states[n], h.states[n].closedBy.value);
  }

  /** A close event waits only behind such a sequence. */
  lemma ClosePostedOnlyWhenStopped(h: History, n: nat, k: nat)
    requires IsHistory(h) && n <= |h.actions| && k < |h.states[n].events| && h.states[n].events[k].CloseApp?
    ensures StoppedAll(h.states[n], h.states[n].events[k].run)
  {
    hide Initial, OneHardFail, ContoursSound, RunsSound, StoppedAll;
    InvAt(h, n);
    SucceededStoppedAll(h.states[n], h.states[n].events[k].run);
  }

  // ----- Results and the closing flag -----

  /** The event tells the Tk thread how run `r` ended. */
  ghost predicate IsResultOf(e: Event, r: nat) { e == CloseApp(r) || e == StopFailed(r) }

  ghost predicate HasPosted(a: App, r: nat) { r < |a.runs| && a.runs[r].posted }

  /** Each run reports once: its result is posted, waits in the queue at most once, and has not been handled before. */
  ghost predicate ResultsOnce(a: App) {
    && (forall k, r: nat | 0 <= k < |a.events| && IsResultOf(a.events[k], r) :: HasPosted(a, r))
    && (forall j, k, r: nat | 0 <= j < k < |a.events| && IsResultOf(a.events[j], r) :: !IsResultOf(a.events[k], r))
    && (a.closedBy.Some? ==>
          && a.destroyed && HasPosted(a, a.closedBy.value)
          && forall k | 0 <= k < |a.events| :: !IsResultOf(a.events[k], a.closedBy.value))
  }

  /** The run's result is still to come, is waiting, or has closed the application. */
  ghost predicate Outstanding(a: App, r: nat) {
    && r < |a.runs|
    && (!a.runs[r].posted || a.closedBy == Some(r) || exists k | 0 <= k < |a.events| :: IsResultOf(a.events[k], r))
  }

  ghost predicate ClosingCaused(a: App) { a.closing ==> exists r: nat :: Outstanding(a, r) }

  /** An action of one run changes that run alone, and only a post marks it. */
  lemma OwnRunMoves(a: App, x: Action, r: nat)
    requires Enabled(a, x) && (x in {Capture(r), CallStop(r), StopReturns(r)} || (x.Post? && x.run == r))
    ensures |Apply(a, x).runs| == |a.runs| && r < |a.runs|
    ensures Apply(a, x).runs[r].posted == (a.runs[r].posted || x.Post?)
    ensures forall q | 0 <= q < |a.runs| && q != r :: Apply(a, x).runs[q] == a.runs[q]
  {
    hide C.Enabled, C.Apply, OwnedOf, AllTrue;
  }

  /** Any other action at most adds a run. */
  lemma OtherRunsStay(a: App, x: Action)
    requires Enabled(a, x) && !x.Capture? && !x.CallStop? && !x.StopReturns? && !x.Post?
    ensures a.runs <= Apply(a, x).runs && forall r | |a.runs| <= r < |Apply(a, x).runs| :: !Apply(a, x).runs[r].posted
  {
    hide C.Enabled, C.Apply, OwnedOf;
  }

  /** Runs are only added, a posted result stays posted, and only a post makes it so. */
  lemma RunsStay(a: App, x: Action)
    requires Enabled(a, x)
    ensures |a.runs| <= |Apply(a, x).runs|
    ensures forall r | 0 <= r < |a.runs| ::
              Apply(a, x).runs[r].posted <==> a.runs[r].posted || (x.Post? && x.run == r)
    ensures forall r | |a.runs| <= r < |Apply(a, x).runs| :: !Apply(a, x).runs[r].posted
  {
    hide Enabled, Apply;
    if x.Capture? || x.CallStop? || x.StopReturns? || x.Post? {
      OwnRunMoves(a, x, x.run);
    } else {
      OtherRunsStay(a, x);
    }
  }

  /** The queue loses its first event to a poll, and otherwise only grows; a result joins it with its post alone. */
  lemma EventsMove(a: App, x: Action)
    requires Enabled(a, x)
    ensures x.Poll? ==> Apply(a, x).events == a.events[1..]
    ensures !x.Poll? ==>
              && Apply(a, x).closedBy == a.closedBy
              && Apply(a, x).destroyed == (a.destroyed || x.OperatorClosesIdle?)
    ensures !x.Poll? ==> |a.events| <= |Apply(a, x).events| <= |a.events| + 1
    ensures !x.Poll? ==> forall k | 0 <= k < |a.events| :: Apply(a, x).events[k] == a.events[k]
    ensures x.Post? ==> |Apply(a, x).events| > |a.events| && IsResultOf(Apply(a, x).events[|a.events|], x.run)
    ensures !x.Poll? && !x.Post? && |Apply(a, x).events| > |a.events| ==>
              Apply(a, x).events[|a.events|] in {RuntimeHardFail, Note}
  {
    hide C.Enabled, C.Apply, OwnedOf, AllTrue;
  }

  lemma PollClosedBy(a: App)
    requires Enabled(a, Poll)
    ensures var b := Apply(a, Poll);
            match a.events[0]
            case CloseApp(r) => b.closedBy == Some(r) && b.destroyed
            case StopFailed(_) => b.closedBy == a.closedBy && !b.closing && b.destroyed == a.destroyed
            case _ => b.closedBy == a.closedBy && b.destroyed == a.destroyed
  {
  }

  lemma ResultPosted(a: App, k: nat, r: nat)
    requires ResultsOnce(a) && k < |a.events| && IsResultOf(a.events[k], r)
    ensures HasPosted(a, r)
  {
  }

  /** The parts of `ResultsOnce`, put together. */
  lemma OnceFromParts(b: App)
    requires forall k, r: nat | 0 <= k < |b.events| && IsResultOf(b.events[k], r) :: HasPosted(b, r)
    requires forall j, k, r: nat | 0 <= j < k < |b.events| && IsResultOf(b.events[j], r) :: !IsResultOf(b.events[k], r)
    requires b.closedBy.Some? ==>
               && b.destroyed && HasPosted(b, b.closedBy.value)
               && forall k | 0 <= k < |b.events| :: !IsResultOf(b.events[k], b.closedBy.value)
    ensures ResultsOnce(b)
  {
  }

  lemma GuardsRead(a: App, x: Action)
    requires Enabled(a, x)
    ensures x.Post? ==> x.run < |a.runs| && !a.runs[x.run].posted
    ensures x.Poll? ==> !a.destroyed && a.events != []
  {
    hide OwnedOf, C.Enabled;
  }

  lemma OnceAfterPoll(a: App)
    requires ResultsOnce(a) && Enabled(a, Poll)
    ensures ResultsOnce(Apply(a, Poll))
  {
    hide Enabled, Apply;
    RunsStay(a, Poll);
    EventsMove(a, Poll);
    PollClosedBy(a);
    GuardsRead(a, Poll);
    var b := Apply(a, Poll);
    forall k, r: nat | 0 <= k < |b.events| && IsResultOf(b.events[k], r) ensures HasPosted(b, r) {
      ResultPosted(a, k + 1, r);
    }
    forall j, k, r: nat | 0 <= j < k < |b.events| && IsResultOf(b.events[j], r) ensures !IsResultOf(b.events[k], r) {
      assert b.events[j] == a.events[j+1] && b.events[k] == a.events[k+1];
    }
    if b.closedBy.Some? {
      ResultPosted(a, 0, b.closedBy.value);
      forall k | 0 <= k < |b.events| ensures !IsResultOf(b.events[k], b.closedBy.value) {
        assert b.events[k] == a.events[k+1];
      }
    }
    OnceFromParts(b);
  }

  lemma OnceOtherwise(a: App, x: Action)
    requires ResultsOnce(a) && Enabled(a, x) && !x.Poll?
    ensures ResultsOnce(Apply(a, x))
  {
    hide Enabled, Apply;
    RunsStay(a, x);
    EventsMove(a, x);
    GuardsRead(a, x);
    var b := Apply(a, x);
    forall k, r: nat | 0 <= k < |b.events| && IsResultOf(b.events[k], r) ensures HasPosted(b, r) {
      if k < |a.events| {
        ResultPosted(a, k, r);
      } else {
        assert x.Post? && x.run == r;
      }
    }
    forall j, k, r: nat | 0 <= j < k < |b.events| && IsResultOf(b.events[j], r) ensures !IsResultOf(b.events[k], r) {
      ResultPosted(a, j, r);
      assert k < |a.events| ==> b.events[k] == a.events[k];
    }
    if b.closedBy.Some? {
      forall k | 0 <= k < |b.events| ensures !IsResultOf(b.events[k], b.closedBy.value) {
        assert k < |a.events| ==> b.events[k] == a.events[k];
        assert k >= |a.events| && x.Post? ==> x.run != b.closedBy.value;
      }
    }
    OnceFromParts(b);
  }

  lemma ResultsOnceKept(a: App, x: Action)
    requires ResultsOnce(a) && Enabled(a, x)
    ensures ResultsOnce(Apply(a, x))
  {
    hide ResultsOnce, Enabled, Apply;
    if x.Poll? {
      OnceAfterPoll(a);
    } else {
      OnceOtherwise(a, x);
    }
  }

  lemma OutstandingStays(a: App, x: Action, r: nat)
    requires Enabled(a, x) && Outstanding(a, r) && Apply(a, x).closing && ResultsOnce(a)
    ensures Outstanding(Apply(a, x), r)
  {
    hide Enabled, Apply;
    RunsStay(a, x);
    EventsMove(a, x);
    GuardsRead(a, x);
    var b := Apply(a, x);
    assert a.closedBy.Some? ==> a.destroyed && b.closedBy == a.closedBy;
    if a.runs[r].posted && a.closedBy != Some(r) {
      var k :| 0 <= k < |a.events| && IsResultOf(a.events[k], r);
      if x.Poll? {
        PollClosedBy(a);
        if k > 0 {
          assert b.events[k-1] == a.events[k];
        }
      } else {
        assert b.events[k] == a.events[k];
      }
    } else if x.Post? && x.run == r {
      assert IsResultOf(b.events[|a.events|], r);
    }
  }

  /** Every action but these two leaves the flag alone or sets it with a new stop sequence. */
  lemma ClosingStarts(a: App, x: Action)
    requires Enabled(a, x) && Apply(a, x).closing && !a.closing
    ensures Outstanding(Apply(a, x), |a.runs|)
  {
    hide C.Enabled, C.Apply, OwnedOf, AllTrue;
  }

  lemma {:induction false} ClosingAt(h: History, n: nat)
    requires IsHistory(h) && n <= |h.actions|
    ensures ResultsOnce(h.states[n]) && ClosingCaused(h.states[n])
  {
    if n == 0 {
    } else {
      var a, x := h.states[n-1], h.actions[n-1];
      ClosingAt(h, n - 1);
      assert Enabled(a, x) && h.states[n] == Apply(a, x);
      hide Enabled, Apply, Outstanding, ResultsOnce, IsHistory;
      ResultsOnceKept(a, x);
      if h.states[n].closing {
        if a.closing {
          var r: nat :| Outstanding(a, r);
          OutstandingStays(a, x, r);
        } else {
          ClosingStarts(a, x);
        }
      }
    }
  }

  /**
   Closing never gets stuck: while the flag is set some stop sequence is at work or its result has not been handled,
   unless that result has closed the application.  Every sequence reports once.
   */
  lemma ClosingHasCause(h: History, n: nat)
    requires IsHistory(h) && n <= |h.actions|
    ensures h.states[n].closing ==> exists r: nat :: Outstanding(h.states[n], r)
    ensures ResultsOnce(h.states[n])
  {
    hide IsHistory, ResultsOnce, Outstanding;
    ClosingAt(h, n);
  }

  // ----- Exactly what can outlive a hard fail -----

  ghost function Last(h: History): App
    requires IsHistory(h)
  {
    h.states[|h.actions|]
  }

  lemma Then(h: History, x: Action) returns (h': History)
    requires IsHistory(h) && Enabled(Last(h), x)
    ensures IsHistory(h') && Last(h') == Apply(Last(h), x)
  {
    hide Enabled, Apply, Initial;
    h' := History(h.actions + [x], h.states + [Apply(Last(h), x)]);
    forall k | 0 <= k < |h'.actions|
      ensures Enabled(h'.states[k], h'.actions[k]) && h'.states[k+1] == Apply(h'.states[k], h'.actions[k])
    {
      if k < |h.actions| {
        assert h'.actions[k] == h.actions[k];
      }
    }
  }

  /** The lock was released by a hard fail with this contour running, started since the capture or not. */
  ghost predicate Outlives(h: History, slot: nat, since: bool)
    requires IsHistory(h)
  {
    var a := Last(h);
    && a.closedBy.Some? && !a.lockHeld && a.closedBy.value < |a.runs| && a.runs[a.closedBy.value].kind.HardFail?
    && slot < |a.contours| && a.contours[slot].alive
    && since == StartedSince(a, a.closedBy.value, slot)
  }

  const OFF: Child := Child(0, false)

  /** The application with one contour possibly started, during a hard fail that has looked at `k` stopped ones. */
  ghost predicate Quiet(a: App, slot: nat, started: bool, k: Option<nat>) {
    && |a.contours| == ALL_SLOTS && slot < ALL_SLOTS && a.lockHeld && !a.destroyed && a.events == [] && a.closedBy.None?
    && (forall c | 0 <= c < ALL_SLOTS && c != slot :: a.contours[c] == C.NEW_CONTOUR)
    && (if started then a.contours[slot].alive && a.contours[slot].gen == 1 && a.contours[slot].tk == C.Idle
        else a.contours[slot] == C.NEW_CONTOUR)
    && (match k
        case None => !a.hardFailStarted && a.runs == []
        case Some(n) => |a.runs| == 1 && a.runs[0] == StopRun(HardFail, a.runs[0].seen, None, [], false)
                        && |a.runs[0].seen| == n && forall c | 0 <= c < n :: a.runs[0].seen[c] == OFF)
  }

  lemma StartSlot(h: History, slot: nat, k: Option<nat>) returns (h': History)
    requires IsHistory(h) && Quiet(Last(h), slot, false, k)
    ensures IsHistory(h') && Quiet(Last(h'), slot, true, k)
  {
    hide IsHistory, OwnedOf;
    var h1 := Then(h, ContourActs(slot, C.ClearFlags));
    var h2 := Then(h1, ContourActs(slot, C.SpawnChild));
    h' := Then(h2, ContourActs(slot, C.CommitStart));
  }

  lemma {:induction false} CaptureUpTo(h: History, slot: nat, started: bool, k: nat) returns (h': History)
    requires IsHistory(h) && Quiet(Last(h), slot, started, Some(0)) && k <= HARD_FAIL_SLOTS && (started ==> k <= slot)
    ensures IsHistory(h') && Quiet(Last(h'), slot, started, Some(k))
  {
    hide IsHistory, OwnedOf;
    if k == 0 {
      h' := h;
    } else {
      var h1 := CaptureUpTo(h, slot, started, k - 1);
      assert !Last(h1).contours[k-1].alive && Last(h1).contours[k-1].gen == 0;
      h' := Then(h1, Capture(0));
    }
  }

  lemma {:induction false} NothingOwned(seen: seq<Child>)
    requires forall c | 0 <= c < |seen| :: seen[c] == OFF
    ensures OwnedOf(seen) == []
  {
    if seen == [] {
    } else {
      NothingOwned(seen[..|seen|-1]);
    }
  }

  lemma ReleaseLock(h: History, slot: nat) returns (h': History)
    requires IsHistory(h) && Quiet(Last(h), slot, true, Some(HARD_FAIL_SLOTS))
    ensures IsHistory(h') && Outlives(h', slot, slot < HARD_FAIL_SLOTS)
  {
    hide IsHistory, OwnedOf;
    NothingOwned(Last(h).runs[0].seen);
    var h1 := Then(h, Post(0, true));
    assert Last(h1).events == [CloseApp(0)];
    h' := Then(h1, Poll);
  }

  lemma QuietStart(slot: nat) returns (h: History)
    requires slot < ALL_SLOTS
    ensures IsHistory(h) && Quiet(Last(h), slot, false, None)
  {
    var contours := seq(ALL_SLOTS, _ => C.NEW_CONTOUR);
    h := History([], [App(contours, false, false, [], [], 0, true, false, None)]);
  }

  lemma EnterQuietly(h: History, slot: nat, started: bool) returns (h': History)
    requires IsHistory(h) && Quiet(Last(h), slot, started, None)
    ensures IsHistory(h') && Quiet(Last(h'), slot, started, Some(0))
  {
    hide IsHistory, OwnedOf;
    var h1 := Then(h, MonitorFails);
    var h2 := Then(h1, Dispatch);
    assert Last(h2).events == [RuntimeHardFail];
    h' := Then(h2, Poll);
  }

  /** A contour outside the profile running all along, or one of the profile started behind the capture. */
  lemma HardFailLeavesDashboardWitness(slot: nat) returns (h: History)
    requires slot < 8
    ensures IsHistory(h) && Outlives(h, slot, slot < 6)
  {
    hide IsHistory, Quiet, Outlives;
    h := QuietStart(slot);
    if slot < HARD_FAIL_SLOTS {
      h := EnterQuietly(h, slot, false);
      h := CaptureUpTo(h, slot, false, HARD_FAIL_SLOTS);
      h := StartSlot(h, slot, Some(HARD_FAIL_SLOTS));
    } else {
      h := StartSlot(h, slot, None);
      h := EnterQuietly(h, slot, true);
      h := CaptureUpTo(h, slot, true, HARD_FAIL_SLOTS);
    }
    h := ReleaseLock(h, slot);
  }

  lemma LastIsReached(h: History)
    requires IsHistory(h)
    ensures |h.states| == |h.actions| + 1 && h.states[|h.actions|] == Last(h)
  {
  }

  /**
   Exactly what can run when a hard fail has released the lock: outside its profile anything, inside it only what
   was started behind the capture's back, and that in every slot.
   */
  lemma SurvivorsExactly(slot: nat, since: bool)
    requires slot < 8
    ensures (exists h :: IsHistory(h) && Outlives(h, slot, since)) <==> since == (slot < 6)
  {
    hide IsHistory;
    if since == (slot < HARD_FAIL_SLOTS) {
      var h := HardFailLeavesDashboardWitness(slot);
    } else if exists h :: IsHistory(h) && Outlives(h, slot, since) {
      var h :| IsHistory(h) && Outlives(h, slot, since);
      LastIsReached(h);
      ReleasedOnlyWhenStopped(h, |h.actions|);
      assert false;
    }
  }
}
