/**
 The control center as a class: the methods that shut it down, each proved to be a run of actions of
 `ShutdownProtocol` without interruption, so what holds in every reachable state of the protocol holds of it.
 */
module ControlCenter {
  import opened Market
  import opened ShutdownProtocol
  import C = ContourProtocol

  ghost predicate Reachable(a: App) { exists h :: IsHistory(h) && Last(h) == a }

  /** What every thread may rely on, whatever the others have done. */
  lemma ReachableIsSafe(a: App)
    requires Reachable(a)
    ensures Inv(a)
    ensures a.closedBy.Some? ==> StoppedAll(a, a.closedBy.value)
  {
    hide Inv, IsHistory, StoppedAll;
    var h :| IsHistory(h) && Last(h) == a;
    LastIsReached(h);
    InvAt(h, |h.actions|);
    if a.closedBy.Some? {
      ReleasedOnlyWhenStopped(h, |h.actions|);
    }
  }

  lemma ReachableStep(a: App, x: Action)
    requires Reachable(a) && Enabled(a, x)
    ensures Reachable(Apply(a, x))
  {
    hide Enabled, Apply, IsHistory;
    var h :| IsHistory(h) && Last(h) == a;
    var h' := Then(h, x);
  }

  // ----- A contour's own steps within the application -----

  /** The Tk thread may turn to this contour: it is free but perhaps for a call on this very one. */
  ghost predicate TkFreeBut(a: App, slot: nat) {
    !a.destroyed && forall c | 0 <= c < |a.contours| && c != slot :: a.contours[c].tk == C.Idle
  }

  lemma {:induction false} LiftPath(a: App, slot: nat, actions: seq<C.Action>, t: C.Contour)
    requires Reachable(a) && slot < |a.contours| && C.Path(a.contours[slot], actions, t)
    requires TkFreeBut(a, slot) || forall k | 0 <= k < |actions| :: !C.OnTk(actions[k])
    ensures Reachable(a.(contours := a.contours[slot := t]))
    decreases |actions|
  {
    hide Reachable, C.Apply;
    if actions == [] {
      assert a.contours[slot := t] == a.contours;
    } else {
      var x := ContourActs(slot, actions[0]);
      ReachableStep(a, x);
      var b := Apply(a, x);
      LiftPath(b, slot, actions[1..], t);
      assert b.contours[slot := t] == a.contours[slot := t];
    }
  }

  lemma Lift(a: App, slot: nat, t: C.Contour, tk: bool)
    requires Reachable(a) && slot < |a.contours| && C.Reaches(a.contours[slot], t, tk)
    requires tk ==> TkFreeBut(a, slot)
    ensures Reachable(a.(contours := a.contours[slot := t]))
  {
    hide Reachable;
    var actions :| C.Path(a.contours[slot], actions, t) && (tk || forall k | 0 <= k < |actions| :: !C.OnTk(actions[k]));
    LiftPath(a, slot, actions, t);
  }

  // ----- Capturing -----

  ghost function SeenIn(contours: seq<C.Contour>, k: nat): seq<Child>
    requires k <= |contours|
  {
    if k == 0 then [] else SeenIn(contours, k - 1) + [Child(contours[k-1].gen, contours[k-1].alive)]
  }

  /** The capture loop of run `r` over its first `k` slots. */
  ghost function Captures(a: App, r: nat, k: nat): App {
    if k == 0 then a
    else
      var b := Captures(a, r, k - 1);
      if Enabled(b, Capture(r)) then Apply(b, Capture(r)) else b
  }

  lemma CaptureStep(b: App, r: nat)
    requires r < |b.runs| && |b.runs[r].seen| < Limit(b.runs[r].kind) && |b.runs[r].seen| < |b.contours|
    ensures Enabled(b, Capture(r))
    ensures Apply(b, Capture(r)) == b.(runs := b.runs[r := CaptureNext(b.contours, b.runs[r])])
  {
  }

  lemma {:induction false} SeenLength(contours: seq<C.Contour>, k: nat)
    requires k <= |contours|
    ensures |SeenIn(contours, k)| == k
  {
    if k == 0 {
    } else {
      SeenLength(contours, k - 1);
    }
  }

  /** Uninterrupted, a capture sees every slot as it is. */
  lemma {:induction false} CapturesFind(a: App, r: nat, k: nat)
    requires r < |a.runs| && a.runs[r].seen == [] && k <= Limit(a.runs[r].kind) && k <= |a.contours|
    ensures Captures(a, r, k) == a.(runs := a.runs[r := a.runs[r].(seen := SeenIn(a.contours, k))])
  {
    hide Enabled, Apply;
    if k == 0 {
      assert a.runs[r := a.runs[r]] == a.runs;
    } else {
      CapturesFind(a, r, k - 1);
      SeenLength(a.contours, k - 1);
      CaptureStep(Captures(a, r, k - 1), r);
    }
  }

  lemma {:induction false} CapturesReachable(a: App, r: nat, k: nat)
    requires Reachable(a)
    ensures Reachable(Captures(a, r, k))
  {
    hide Reachable, Enabled, Apply;
    if k == 0 {
    } else {
      CapturesReachable(a, r, k - 1);
      var b := Captures(a, r, k - 1);
      if Enabled(b, Capture(r)) {
        ReachableStep(b, Capture(r));
      }
    }
  }

  /** What goes wrong on the way into the hard fail, to be logged. */
  datatype Trouble = Trouble(monitorResidual: bool, evidenceLost: bool)

  /** The log events of a hard fail: one always, one more for each trouble. */
  function HardFailNotes(t: Trouble): seq<Event> {
    (if t.monitorResidual then [Note] else []) + [Note] + (if t.evidenceLost then [Note] else [])
  }

  /** Test-and-set, capture, log events. */
  ghost function HardFailRun(a: App, t: Trouble): App {
    if a.hardFailStarted then a
    else
      var b := Captures(EnterHardFail(a), |a.runs|, HARD_FAIL_SLOTS);
      b.(events := b.events + HardFailNotes(t))
  }

  lemma HardFailFinds(a: App, t: Trouble)
    requires |a.contours| == ALL_SLOTS && !a.hardFailStarted
    ensures HardFailRun(a, t) ==
              a.(hardFailStarted := true, closing := true, events := a.events + HardFailNotes(t),
                 runs := a.runs + [NewRun(HardFail).(seen := SeenIn(a.contours, HARD_FAIL_SLOTS))])
  {
    hide Captures, SeenIn, HardFailNotes;
    CapturesFind(EnterHardFail(a), |a.runs|, HARD_FAIL_SLOTS);
  }

  lemma {:induction false} NotesReachable(a: App, notes: seq<Event>)
    requires Reachable(a) && forall k | 0 <= k < |notes| :: notes[k] == Note
    ensures Reachable(a.(events := a.events + notes))
  {
    hide Reachable;
    if notes == [] {
      assert a.events + notes == a.events;
    } else {
      var init := notes[..|notes|-1];
      NotesReachable(a, init);
      ReachableStep(a.(events := a.events + init), PostNote);
      assert a.events + notes == (a.events + init) + [Note];
    }
  }

  /** Whoever gets past the test-and-set goes on through reachable states. */
  lemma HardFailReachable(a: App, t: Trouble)
    requires Reachable(EnterHardFail(a))
    ensures Reachable(HardFailRun(a, t))
  {
    hide Reachable, Captures;
    if !a.hardFailStarted {
      CapturesReachable(EnterHardFail(a), |a.runs|, HARD_FAIL_SLOTS);
      NotesReachable(Captures(EnterHardFail(a), |a.runs|, HARD_FAIL_SLOTS), HardFailNotes(t));
    }
  }

  // ----- Stopping -----

  /** The contours after the first `k` stops of a sequence. */
  ghost function Stopped(contours: seq<C.Contour>, graceful: seq<bool>, owned: seq<Owned>,
                         answers: seq<C.StopAnswers>, k: nat): (after: seq<C.Contour>)
    requires k <= |owned| && k <= |answers| && |graceful| == |contours|
    requires forall i | 0 <= i < |owned| :: owned[i].slot < |contours|
    ensures |after| == |contours|
  {
    if k == 0 then contours
    else
      var before, slot := Stopped(contours, graceful, owned, answers, k - 1), owned[k-1].slot;
      before[slot := C.AfterStop(before[slot], graceful[slot], answers[k-1])]
  }

  lemma NoneStopped(contours: seq<C.Contour>, graceful: seq<bool>, owned: seq<Owned>, answers: seq<C.StopAnswers>)
    requires |graceful| == |contours| && forall i | 0 <= i < |owned| :: owned[i].slot < |contours|
    ensures Stopped(contours, graceful, owned, answers, 0) == contours
  {
  }

  /** A stop leaves the contours stopped before it alone. */
  lemma StoppedOneMore(contours: seq<C.Contour>, graceful: seq<bool>, owned: seq<Owned>,
                       answers: seq<C.StopAnswers>, k: nat)
    requires k < |owned| && k < |answers| && |graceful| == |contours|
    requires forall i | 0 <= i < |owned| :: owned[i].slot < |contours|
    requires forall i, j | 0 <= i < j < |owned| :: owned[i].slot < owned[j].slot
    ensures var before := Stopped(contours, graceful, owned, answers, k);
            var after := Stopped(contours, graceful, owned, answers, k + 1);
            && after == before[owned[k].slot := C.AfterStop(before[owned[k].slot], graceful[owned[k].slot], answers[k])]
            && forall j | 0 <= j < k :: after[owned[j].slot] == before[owned[j].slot]
  {
    hide C.AfterStop;
  }

  lemma CallEnabled(b: App, r: nat, owned: seq<Owned>, k: nat)
    requires r < |b.runs| && Captured(b.runs[r]) && b.runs[r].calling.None? && |b.runs[r].results| == k
    requires owned == OwnedOf(b.runs[r].seen) && k < |owned| && owned[k].slot < |b.contours|
    ensures Enabled(b, Action.CallStop(r)) && NextOwned(b, r) == owned[k]
  {
    hide OwnedOf;
  }

  lemma BeginsDuring(s: C.Contour)
    ensures C.Enabled(s, C.StopBegin) && C.Apply(s, C.StopBegin) == C.DuringStop(s, C.Begun, s.stopping, s.alive)
  {
  }

  /** A whole call of a contour's `stop()` by run `r`: begun, answered, recorded. */
  lemma CallReachable(a: App, r: nat, graceful: bool, answers: C.StopAnswers)
    requires Reachable(a) && Enabled(a, Action.CallStop(r))
    ensures var slot := NextOwned(a, r).slot;
            var t := C.AfterStop(a.contours[slot], graceful, answers);
            Reachable(a.(contours := a.contours[slot := t],
                         runs := a.runs[r := a.runs[r].(results := a.runs[r].results + [!t.alive])]))
  {
    hide Reachable, OwnedOf, C.Enabled, C.AnswerOf, C.Reaches;
    var slot := NextOwned(a, r).slot;
    var s, n := a.contours[slot], |a.contours[slot].stops|;
    var t := C.AfterStop(s, graceful, answers);
    ReachableStep(a, Action.CallStop(r));
    var b := Apply(a, Action.CallStop(r));
    BeginsDuring(s);
    C.StopIsPath(s, graceful, answers);
    Lift(b, slot, t, false);
    var c := b.(contours := b.contours[slot := t]);
    assert c.contours == a.contours[slot := t];
    assert InCall(c, r) && CallStage(c, r).Returned? && CallStage(c, r).answer.Gone? == !t.alive;
    ReachableStep(c, StopReturns(r));
    assert Apply(c, StopReturns(r)).runs == a.runs[r := a.runs[r].(results := a.runs[r].results + [!t.alive])];
  }

  // ----- The Tk thread's refresh -----

  predicate HasUnexpectedExit(c: C.Contour) { c.expected && !c.stopping && !c.reported && c.gen > 0 && !c.alive }

  /** One poll of a contour; an explained exit also clears its expectation. */
  function Polled(c: C.Contour, explained: bool): C.Contour {
    if !HasUnexpectedExit(c) then c
    else
      var p := c.(reported := true, reports := c.reports + [C.Report(c.gen, c.gen in c.touched)]);
      if explained then p.(expected := false) else p
  }

  lemma PollIsPath(c: C.Contour, explained: bool)
    requires c.tk == C.Idle
    ensures C.Reaches(c, Polled(c, explained), true)
  {
    hide C.Reaches;
    var over := Polled(c, explained);
    C.ReachesSelf(over, true);
    if HasUnexpectedExit(c) {
      var seen := c.(tk := C.SawExpected);
      var checked := c.(tk := C.SawNotStopping);
      var reported := Polled(c, false);
      if explained {
        C.ReachesFirst(reported, C.NoteIntent, over, true);
      }
      C.ReachesFirst(checked, C.PollChild, over, true);
      C.ReachesFirst(seen, C.ReadStopping, over, true);
      C.ReachesFirst(c, C.ReadExpected, over, true);
    }
  }

  /** The contours once the first `k` slots have been polled. */
  ghost function Refreshed(contours: seq<C.Contour>, explained: set<nat>, k: nat): (after: seq<C.Contour>)
    requires k <= |contours|
    ensures |after| == |contours|
    ensures forall c | k <= c < |contours| :: after[c] == contours[c]
  {
    if k == 0 then contours
    else
      var before := Refreshed(contours, explained, k - 1);
      before[k-1 := Polled(before[k-1], k - 1 in explained)]
  }

  lemma {:induction false} RefreshReachable(a: App, explained: set<nat>, k: nat)
    requires Reachable(a) && k <= |a.contours| && TkFree(a)
    ensures Reachable(a.(contours := Refreshed(a.contours, explained, k)))
    ensures TkFree(a.(contours := Refreshed(a.contours, explained, k)))
  {
    hide Reachable, C.Reaches;
    if k == 0 {
    } else {
      RefreshReachable(a, explained, k - 1);
      var before := Refreshed(a.contours, explained, k - 1);
      PollIsPath(before[k-1], k - 1 in explained);
      Lift(a.(contours := before), k - 1, Polled(before[k-1], k - 1 in explained), true);
    }
  }

  /** Some required contour has exited unexpectedly and no stop marker explains it. */
  ghost predicate NeedsHardFail(contours: seq<C.Contour>, explained: set<nat>, k: nat)
    requires k <= |contours|
  {
    exists c | 0 <= c < k :: HasUnexpectedExit(contours[c]) && c !in explained
  }

  lemma NeedsOneMore(contours: seq<C.Contour>, explained: set<nat>, k: nat)
    requires k < |contours|
    ensures NeedsHardFail(contours, explained, k + 1) <==>
              NeedsHardFail(contours, explained, k) || (HasUnexpectedExit(contours[k]) && k !in explained)
    ensures !NeedsHardFail(contours, explained, 0)
  {
    hide HasUnexpectedExit;
  }

  ghost function RefreshRun(a: App, explained: set<nat>, t: Trouble): App
    requires |a.contours| == ALL_SLOTS
  {
    var b := a.(contours := Refreshed(a.contours, explained, HARD_FAIL_SLOTS));
    if NeedsHardFail(a.contours, explained, HARD_FAIL_SLOTS) then HardFailRun(b, t) else b
  }

  /** The refresh enters the hard fail over an exit it has just reported. */
  lemma {:induction false} NeededExitReported(contours: seq<C.Contour>, explained: set<nat>, k: nat, c: nat)
    requires c < k <= |contours| && HasUnexpectedExit(contours[c])
    ensures Refreshed(contours, explained, k)[c].reports != []
  {
    if c == k - 1 {
    } else {
      NeededExitReported(contours, explained, k - 1, c);
    }
  }

  lemma RefreshRunReachable(a: App, explained: set<nat>, t: Trouble)
    requires Reachable(a) && TkFree(a) && |a.contours| == ALL_SLOTS
    ensures Reachable(RefreshRun(a, explained, t))
  {
    hide Reachable, HardFailRun, Refreshed, HasUnexpectedExit;
    RefreshReachable(a, explained, HARD_FAIL_SLOTS);
    if NeedsHardFail(a.contours, explained, HARD_FAIL_SLOTS) {
      var b := a.(contours := Refreshed(a.contours, explained, HARD_FAIL_SLOTS));
      var c :| 0 <= c < HARD_FAIL_SLOTS && HasUnexpectedExit(a.contours[c]) && c !in explained;
      NeededExitReported(a.contours, explained, HARD_FAIL_SLOTS, c);
      assert b.contours[c].reports != [];
      ReachableStep(b, RequiredExit);
      HardFailReachable(b, t);
    }
  }

  // ----- The Tk thread's queue -----

  /** One event with what it sets off: a log event for a failed stop, the whole entry for a hard fail. */
  ghost function HandleOne(a: App, t: Trouble): App
    requires a.events != []
  {
    var b := a.(events := a.events[1..]);
    match a.events[0]
    case CloseApp(run) => b.(lockHeld := false, destroyed := true, closedBy := Some(run))
    case StopFailed(_) => b.(closing := false, events := b.events + [Note])
    case RuntimeHardFail => HardFailRun(b, t)
    case Note => b
  }

  /** Failed stops still in the queue; each puts one more event behind it. */
  function FailuresIn(events: seq<Event>): nat {
    if events == [] then 0
    else FailuresIn(events[..|events|-1]) + (if events[|events|-1].StopFailed? then 1 else 0)
  }

  lemma {:induction false} FailuresJoin(s: seq<Event>, t: seq<Event>)
    ensures FailuresIn(s + t) == FailuresIn(s) + FailuresIn(t)
  {
    if t == [] {
      assert s + t == s;
    } else {
      FailuresJoin(s, t[..|t|-1]);
      assert (s + t)[..|s + t| - 1] == s + t[..|t|-1];
    }
  }

  lemma {:induction false} NotesAreNoFailures(notes: seq<Event>)
    requires forall k | 0 <= k < |notes| :: notes[k] == Note
    ensures FailuresIn(notes) == 0
  {
    if notes == [] {
    } else {
      NotesAreNoFailures(notes[..|notes|-1]);
    }
  }

  function Pending(hardFailStarted: bool): nat { if hardFailStarted then 0 else 1 }

  lemma FailuresOfOne(e: Event)
    ensures FailuresIn([e]) == if e.StopFailed? then 1 else 0
  {
    assert [e][..0] == [];
  }

  /** The queue comes to an end: a hard fail is entered once, a failed stop adds one event that adds none. */
  lemma HandleOneEnds(a: App, t: Trouble)
    requires a.events != [] && |a.contours| == ALL_SLOTS
    ensures var b := HandleOne(a, t);
            && b.contours == a.contours && (b.destroyed ==> a.destroyed || a.events[0].CloseApp?)
            && Pending(b.hardFailStarted) <= Pending(a.hardFailStarted)
            && (Pending(b.hardFailStarted) == Pending(a.hardFailStarted) ==>
                  FailuresIn(b.events) < FailuresIn(a.events)
                  || (FailuresIn(b.events) == FailuresIn(a.events) && |b.events| < |a.events|))
  {
    hide Captures, SeenIn;
    var first, rest := a.events[0], a.events[1..];
    assert a.events == [first] + rest;
    FailuresJoin([first], rest);
    FailuresJoin(rest, [Note]);
    assert FailuresIn([first]) == if first.StopFailed? then 1 else 0 by { FailuresOfOne(first); }
    FailuresOfOne(Note);
    if first.RuntimeHardFail? && !a.hardFailStarted {
      HardFailFinds(a.(events := rest), t);
    }
  }

  ghost function HandleAll(a: App, t: Trouble): (b: App)
    requires |a.contours| == ALL_SLOTS
    ensures b.contours == a.contours
    decreases Pending(a.hardFailStarted), FailuresIn(a.events), |a.events|
  {
    if a.destroyed || a.events == [] then a
    else
      HandleOneEnds(a, t);
      HandleAll(HandleOne(a, t), t)
  }

  lemma HandleOneReachable(a: App, t: Trouble)
    requires Reachable(a) && Enabled(a, Action.Poll)
    ensures Reachable(HandleOne(a, t))
  {
    hide Reachable, Captures, HardFailRun;
    ReachableStep(a, Action.Poll);
    var b := a.(events := a.events[1..]);
    match a.events[0] {
      case RuntimeHardFail => HardFailReachable(b, t);
      case StopFailed(_) => ReachableStep(b.(closing := false), PostNote);
      case CloseApp(_) =>
      case Note =>
    }
  }

  lemma {:induction false} HandleAllReachable(a: App, t: Trouble)
    requires Reachable(a) && |a.contours| == ALL_SLOTS && TkFree(a)
    ensures Reachable(HandleAll(a, t))
    decreases Pending(a.hardFailStarted), FailuresIn(a.events), |a.events|
  {
    hide Reachable, HandleOne, FailuresIn;
    if a.events == [] {
    } else {
      HandleOneReachable(a, t);
      HandleOneEnds(a, t);
      if !HandleOne(a, t).destroyed {
        HandleAllReachable(HandleOne(a, t), t);
      }
    }
  }

  // ----- These transitions, field by field -----

  lemma {:induction false} SeenMeans(contours: seq<C.Contour>, k: nat)
    requires k <= |contours|
    ensures |SeenIn(contours, k)| == k
    ensures forall c | 0 <= c < k :: SeenIn(contours, k)[c] == Child(contours[c].gen, contours[c].alive)
  {
    if k == 0 {
    } else {
      SeenMeans(contours, k - 1);
    }
  }

  /** The running contours, each with its process, in slot order and no other. */
  lemma RunningExactly(contours: seq<C.Contour>, k: nat)
    requires k <= |contours|
    ensures var owned := OwnedOf(SeenIn(contours, k));
            && (forall i | 0 <= i < |owned| ::
                  owned[i].slot < k && contours[owned[i].slot].alive && owned[i].gen == contours[owned[i].slot].gen)
            && (forall i, j | 0 <= i < j < |owned| :: owned[i].slot < owned[j].slot)
            && (forall c: nat | c < k && contours[c].alive ::
                  exists i | 0 <= i < |owned| :: owned[i] == Owned(c, contours[c].gen))
  {
    var seen := SeenIn(contours, k);
    SeenMeans(contours, k);
    OwnedFacts(seen);
    forall c: nat | c < k && contours[c].alive
      ensures exists i | 0 <= i < |OwnedOf(seen)| :: OwnedOf(seen)[i] == Owned(c, contours[c].gen)
    {
      var i := OwnedComplete(seen, c);
    }
  }

  lemma HardFailAgain(a: App, t: Trouble)
    requires a.hardFailStarted
    ensures HardFailRun(a, t) == a
  {
  }

  /** Entering the hard fail: once; it closes the application to the operator and captures the first six slots. */
  lemma HardFailEntered(a: App, t: Trouble)
    requires |a.contours| == 8
    ensures a.hardFailStarted ==> HardFailRun(a, t) == a
    ensures !a.hardFailStarted ==>
              var b, n := HardFailRun(a, t), |a.runs|;
              && b.hardFailStarted && b.closing && |b.runs| == n + 1 && b.runs[..n] == a.runs
              && b.runs[n].kind.HardFail? && |b.runs[n].seen| == 6 && b.runs[n].results == [] && !b.runs[n].posted
              && (forall c | 0 <= c < 6 :: b.runs[n].seen[c] == Child(a.contours[c].gen, a.contours[c].alive))
              && a.events <= b.events && (forall k | |a.events| <= k < |b.events| :: b.events[k] == Note)
              && |b.events| == |a.events| + 1 + (if t.monitorResidual then 1 else 0) + (if t.evidenceLost then 1 else 0)
              && b == a.(hardFailStarted := true, closing := true, runs := b.runs, events := b.events)
  {
    hide HardFailRun;
    if a.hardFailStarted {
      HardFailAgain(a, t);
    } else {
      HardFailFinds(a, t);
      SeenMeans(a.contours, 6);
    }
  }

  /** One event: a close releases the lock, a failed stop opens the application to the operator again and is logged. */
  lemma EventHandled(a: App, t: Trouble)
    requires a.events != []
    ensures var b, rest := HandleOne(a, t), a.events[1..];
            match a.events[0]
            case CloseApp(r) => b == a.(events := rest, lockHeld := false, destroyed := true, closedBy := Some(r))
            case StopFailed(_) => b == a.(events := rest + [Note], closing := false)
            case RuntimeHardFail => b == HardFailRun(a.(events := rest), t)
            case Note => b == a.(events := rest)
  {
    hide HardFailRun;
  }

  /** The queue is handled from its head until it is empty or the application has closed. */
  lemma {:induction false} QueueHandled(a: App, t: Trouble)
    requires |a.contours| == ALL_SLOTS
    ensures HandleAll(a, t).destroyed || HandleAll(a, t).events == []
    ensures !a.destroyed && a.events != [] ==> HandleAll(a, t) == HandleAll(HandleOne(a, t), t)
    decreases Pending(a.hardFailStarted), FailuresIn(a.events), |a.events|
  {
    hide HandleOne;
    if !a.destroyed && a.events != [] {
      HandleOneEnds(a, t);
      QueueHandled(HandleOne(a, t), t);
    }
  }

  /** An exit nobody asked for and nobody has reported. */
  ghost predicate Unreported(c: C.Contour) { c.expected && !c.stopping && !c.reported && c.gen > 0 && !c.alive }

  lemma PollMeans(c: C.Contour, explained: bool)
    ensures !Unreported(c) ==> Polled(c, explained) == c
    ensures Unreported(c) ==>
              var p := Polled(c, explained);
              && p.reported && p.expected == !explained && |p.reports| == |c.reports| + 1
              && p.reports[|c.reports|].gen == c.gen
              && p == c.(reported := true, expected := p.expected, reports := p.reports)
  {
  }

  lemma {:induction false} RefreshMeans(contours: seq<C.Contour>, explained: set<nat>, k: nat)
    requires k <= |contours|
    ensures forall c | 0 <= c < k :: Refreshed(contours, explained, k)[c] == Polled(contours[c], c in explained)
    ensures forall c | k <= c < |contours| :: Refreshed(contours, explained, k)[c] == contours[c]
  {
    hide Polled;
    if k == 0 {
    } else {
      RefreshMeans(contours, explained, k - 1);
    }
  }

  /** A refresh polls the first six slots, and enters the hard fail exactly if one has an unexplained exit to report. */
  lemma RefreshRead(a: App, explained: set<nat>, t: Trouble)
    requires |a.contours| == 8
    ensures var polled := seq(8, c requires 0 <= c < 8 =>
                                   if c < 6 then Polled(a.contours[c], c in explained) else a.contours[c]);
            var b := a.(contours := polled);
            RefreshRun(a, explained, t) ==
              if exists c | 0 <= c < 6 :: Unreported(a.contours[c]) && c !in explained then HardFailRun(b, t) else b
  {
    hide HardFailRun, Polled, Refreshed;
    RefreshMeans(a.contours, explained, 6);
    var polled := seq(8, c requires 0 <= c < 8 =>
                           if c < 6 then Polled(a.contours[c], c in explained) else a.contours[c]);
    assert Refreshed(a.contours, explained, 6) == polled;
    assert forall c | 0 <= c < 6 :: Unreported(a.contours[c]) == HasUnexpectedExit(a.contours[c]);
  }

  // ----- The class -----

  lemma {:induction false} NothingRunning(contours: seq<C.Contour>, k: nat)
    requires k <= |contours| && OwnedOf(SeenIn(contours, k)) == []
    ensures forall c | 0 <= c < k :: !contours[c].alive
  {
    if k == 0 {
    } else {
      SeenLength(contours, k - 1);
      assert SeenIn(contours, k)[..k-1] == SeenIn(contours, k - 1);
      NothingRunning(contours, k - 1);
    }
  }

  class ControlCenter {
    const graceful: seq<bool>        // which contours have a stop request of their own
    var contours: seq<C.Contour>
    var hardFailStopStarted: bool
    var closing: bool
    var events: seq<Event>
    var lockHeld: bool
    var destroyed: bool
    ghost var runs: seq<StopRun>     // the stop threads, running or finished
    ghost var dispatchers: nat
    ghost var closedBy: Option<nat>

    ghost predicate Valid()
      reads this
    {
      |contours| == |graceful| == ALL_SLOTS
    }

    ghost function View(): App
      reads this
    {
      App(contours, hardFailStopStarted, closing, runs, events, dispatchers, lockHeld, destroyed, closedBy)
    }

    constructor (graceful: seq<bool>)
      requires |graceful| == ALL_SLOTS
      ensures Valid() && this.graceful == graceful && Initial(View()) && Reachable(View())
      ensures !hardFailStopStarted && !closing && events == [] && lockHeld && !destroyed
      ensures |contours| == 8 && forall c | c in contours :: c == C.NEW_CONTOUR
    {
      this.graceful := graceful;
      contours := seq(ALL_SLOTS, _ => C.NEW_CONTOUR);
      hardFailStopStarted, closing, events, lockHeld, destroyed := false, false, [], true, false;
      runs, dispatchers, closedBy := [], 0, None;
      new;
      var h := History([], [View()]);
      assert IsHistory(h) && Last(h) == View();
    }

    /** The contours found running among the first `limit` slots, in shutdown order. */
    method RunningContours(limit: nat) returns (owned: seq<Owned>)
      requires limit <= |contours|
      ensures owned == OwnedOf(SeenIn(contours, limit))
    {
      owned := [];
      for slot := 0 to limit
        invariant owned == OwnedOf(SeenIn(contours, slot))
      {
        SeenLength(contours, slot);
        assert SeenIn(contours, slot + 1)[..slot] == SeenIn(contours, slot);
        if contours[slot].alive {
          owned := owned + [Owned(slot, contours[slot].gen)];
        }
      }
    }

    /**
     Starts the hard-fail sequence unless one was ever started; hands back what its thread will stop.  Called by
     the Tk thread and by a dispatcher.
     */
    method InitiateHardFailStop(trouble: Trouble) returns (started: bool, owned: seq<Owned>)
      requires Valid()
      modifies `hardFailStopStarted, `closing, `runs, `events
      ensures started == !old(hardFailStopStarted)
      ensures hardFailStopStarted && closing == (old(closing) || started)
      ensures View() == HardFailRun(old(View()), trouble)
      ensures started ==> runs == old(runs) + [NewRun(HardFail).(seen := SeenIn(contours, HARD_FAIL_SLOTS))]
                          && owned == OwnedOf(SeenIn(contours, HARD_FAIL_SLOTS))
                          && events == old(events) + HardFailNotes(trouble)
      ensures Reachable(EnterHardFail(old(View()))) ==> Reachable(View())
    {
      hide Captures, SeenIn, OwnedOf, Reachable;
      ghost var a := View();
      if Reachable(EnterHardFail(a)) {
        HardFailReachable(a, trouble);
      }
      if hardFailStopStarted {
        return false, [];
      }
      HardFailFinds(a, trouble);
      hardFailStopStarted, closing := true, true;
      if trouble.monitorResidual {
        events := events + [Note];
      }
      owned := RunningContours(HARD_FAIL_SLOTS);
      events := events + [Note];
      if trouble.evidenceLost {
        events := events + [Note];
      }
      assert events == a.events + HardFailNotes(trouble);
      runs := runs + [NewRun(HardFail).(seen := SeenIn(contours, HARD_FAIL_SLOTS))];
      started := true;
    }

    /** The body of a dispatcher thread. */
    method DispatchHardFail(trouble: Trouble) returns (started: bool, owned: seq<Owned>)
      requires Valid() && dispatchers > 0
      modifies `hardFailStopStarted, `closing, `runs, `events, `dispatchers
      ensures started == !old(hardFailStopStarted)
      ensures hardFailStopStarted && closing == (old(closing) || started) && dispatchers == old(dispatchers) - 1
      ensures View() == HardFailRun(old(View()).(dispatchers := old(dispatchers) - 1), trouble)
      ensures Reachable(old(View())) ==> Reachable(View())
    {
      hide HardFailRun, SeenIn, OwnedOf, Reachable;
      if Reachable(View()) {
        ReachableStep(View(), Dispatch);
      }
      dispatchers := dispatchers - 1;
      started, owned := InitiateHardFailStop(trouble);
    }

    /** The operator closes the window; false means there is nothing to stop, or nothing was started. */
    method Close(confirmed: bool, externalRunning: bool, monitorResidual: bool)
      returns (started: bool, owned: seq<Owned>)
      requires Valid() && TkFree(View())
      modifies `closing, `runs, `lockHeld, `destroyed, `events
      ensures var running := OwnedOf(SeenIn(contours, ALL_SLOTS));
              && (started <==> !old(closing) && confirmed && (externalRunning || running != []))
              && closing == (old(closing) || started)
              && (started ==>
                    && owned == running && lockHeld == old(lockHeld) && destroyed == old(destroyed)
                    && runs == old(runs) + [NewRun(Operator).(seen := SeenIn(contours, ALL_SLOTS))]
                    && View() == Captures(Apply(old(View()), OperatorCloses), |old(runs)|, ALL_SLOTS)
                                 .(events := old(events) + if monitorResidual then [Note] else []))
              && (!started ==>
                    View() == if !old(closing) && !externalRunning && running == []
                              then old(View()).(lockHeld := false, destroyed := true,
                                                events := old(events) + if monitorResidual then [Note] else [])
                              else old(View()))
      ensures Reachable(old(View())) ==> Reachable(View())
    {
      hide Captures, SeenIn, OwnedOf, Reachable, EnterHardFail, CaptureNext, NextOwned, C.Enabled, C.Apply;
      ghost var a := View();
      if closing {
        return false, [];
      }
      owned := RunningContours(ALL_SLOTS);
      if (owned != [] || externalRunning) && !confirmed {
        return false, [];
      }
      if owned == [] && !externalRunning {
        lockHeld, destroyed := false, true;
        events := events + if monitorResidual then [Note] else [];
        NothingRunning(contours, ALL_SLOTS);
        if Reachable(a) {
          ReachableStep(a, OperatorClosesIdle);
          NotesReachable(Apply(a, OperatorClosesIdle), if monitorResidual then [Note] else []);
        }
        return false, [];
      }
      closing := true;
      CapturesFind(Apply(a, OperatorCloses), |runs|, ALL_SLOTS);
      events := events + if monitorResidual then [Note] else [];
      runs := runs + [NewRun(Operator).(seen := SeenIn(contours, ALL_SLOTS))];
      started := true;
      if Reachable(a) {
        ReachableStep(a, OperatorCloses);
        CapturesReachable(Apply(a, OperatorCloses), |a.runs|, ALL_SLOTS);
        NotesReachable(Captures(Apply(a, OperatorCloses), |a.runs|, ALL_SLOTS), if monitorResidual then [Note] else []);
      }
    }

    /** One contour's `stop()`, called by run `r`. */
    method StopContour(slot: nat, answers: C.StopAnswers) returns (ok: bool)
      requires Valid() && slot < ALL_SLOTS
      modifies `contours
      ensures contours == old(contours)[slot := C.AfterStop(old(contours[slot]), graceful[slot], answers)]
      ensures ok == !contours[slot].alive
    {
      var c := contours[slot];
      ok := !c.alive || C.AnswerOf(graceful[slot], answers).Gone?;
      contours := contours[slot := C.AfterStop(c, graceful[slot], answers)];
    }

    /** One call of a contour's `stop()` by run `r`, its answer recorded. */
    method CallStop(slot: nat, answers: C.StopAnswers, results: seq<bool>, ghost r: nat) returns (all: seq<bool>)
      requires Valid() && slot < ALL_SLOTS && Enabled(View(), Action.CallStop(r)) && NextOwned(View(), r).slot == slot
      requires runs[r].results == results
      modifies `contours, `runs
      ensures Valid() && contours == old(contours)[slot := C.AfterStop(old(contours[slot]), graceful[slot], answers)]
      ensures all == results + [!contours[slot].alive] && runs == old(runs)[r := old(runs[r]).(results := all)]
      ensures Reachable(old(View())) ==> Reachable(View())
    {
      hide Reachable, OwnedOf, C.AfterStop;
      ghost var b := View();
      var ok := StopContour(slot, answers);
      if Reachable(b) {
        CallReachable(b, r, graceful[slot], answers);
      }
      all := results + [ok];
      runs := runs[r := runs[r].(results := all)];
    }

    /** Stops the captured contours in order; a result is what the contour's own stop answered. */
    method StopAll(owned: seq<Owned>, answers: seq<C.StopAnswers>, ghost r: nat) returns (results: seq<bool>)
      requires Valid() && r < |runs| && Captured(runs[r]) && runs[r].results == [] && runs[r].calling.None?
      requires owned == OwnedOf(runs[r].seen) && |answers| == |owned|
      requires forall i | 0 <= i < |owned| :: owned[i].slot < ALL_SLOTS
      modifies `contours, `runs
      ensures Valid() && contours == Stopped(old(contours), graceful, owned, answers, |owned|)
      ensures runs == old(runs)[r := old(runs[r]).(results := results)] && |results| == |owned|
      ensures forall i | 0 <= i < |owned| :: results[i] <==> !contours[owned[i].slot].alive
      ensures Reachable(old(View())) ==> Reachable(View())
    {
      hide Reachable, OwnedOf, Stopped, Enabled, C.AfterStop;
      ghost var a := View();
      OwnedFacts(runs[r].seen);
      NoneStopped(contours, graceful, owned, answers);
      results := [];
      assert runs[r := runs[r]] == runs;
      for i := 0 to |owned|
        invariant Valid() && contours == Stopped(a.contours, graceful, owned, answers, i)
        invariant |results| == i && runs == a.runs[r := a.runs[r].(results := results)]
        invariant forall j | 0 <= j < i :: results[j] <==> !contours[owned[j].slot].alive
        invariant Reachable(a) ==> Reachable(View())
      {
        CallEnabled(View(), r, owned, i);
        StoppedOneMore(a.contours, graceful, owned, answers, i);
        results := CallStop(owned[i].slot, answers[i], results, r);
      }
    }

    /** The body of a stop thread, hard fail or operator close: stop everything captured, then report. */
    method StopOwned(kind: Kind, owned: seq<Owned>, answers: seq<C.StopAnswers>, externalGone: bool, r: nat)
      requires Valid() && r < |runs| && runs[r].kind == kind && Captured(runs[r])
      requires runs[r].results == [] && runs[r].calling.None? && !runs[r].posted
      requires owned == OwnedOf(runs[r].seen) && |answers| == |owned|
      requires forall i | 0 <= i < |owned| :: owned[i].slot < ALL_SLOTS
      modifies `contours, `runs, `events
      ensures Valid() && contours == Stopped(old(contours), graceful, owned, answers, |owned|)
      ensures var stopped := forall i | 0 <= i < |owned| :: !contours[owned[i].slot].alive;
              events == old(events) +
                        [if stopped && (externalGone || kind.HardFail?) then CloseApp(r) else StopFailed(r)]
      ensures Reachable(old(View())) ==> Reachable(View())
    {
      hide Reachable, OwnedOf, Stopped;
      ghost var a := View();
      var results := StopAll(owned, answers, r);
      var stopped := forall i | 0 <= i < |results| :: results[i];
      ghost var b := View();
      assert Enabled(b, Post(r, externalGone));
      assert AllTrue(b.runs[r].results) <==> stopped;
      assert stopped <==> forall i | 0 <= i < |owned| :: !contours[owned[i].slot].alive;
      events := events + [if stopped && (externalGone || kind.HardFail?) then CloseApp(r) else StopFailed(r)];
      runs := runs[r := runs[r].(posted := true)];
      if Reachable(a) {
        ReachableStep(b, Post(r, externalGone));
      }
    }

    /** A monitor lane has failed: tell the Tk thread, and dispatch the hard fail without waiting for it. */
    method OnRuntimeMonitorFailure()
      modifies `events, `dispatchers
      ensures events == old(events) + [RuntimeHardFail] && dispatchers == old(dispatchers) + 1
      ensures View() == Apply(old(View()), MonitorFails)
      ensures Reachable(old(View())) ==> Reachable(View())
    {
      ghost var a := View();
      events := events + [RuntimeHardFail];
      dispatchers := dispatchers + 1;
      if Reachable(a) {
        ReachableStep(a, MonitorFails);
      }
    }

    /** Polls the required contours; `explained` are those whose exit a stop marker accounts for. */
    method RefreshButtons(explained: set<nat>, trouble: Trouble)
      requires Valid() && TkFree(View())
      modifies `contours, `hardFailStopStarted, `closing, `runs, `events
      ensures Valid() && View() == RefreshRun(old(View()), explained, trouble)
      ensures Reachable(old(View())) ==> Reachable(View())
    {
      hide Polled, HasUnexpectedExit, NeedsHardFail, HardFailRun, EnterHardFail, Reachable;
      ghost var a := View();
      var hardFail := false;
      NeedsOneMore(contours, explained, 0);
      for slot := 0 to HARD_FAIL_SLOTS
        invariant contours == Refreshed(a.contours, explained, slot) && View() == a.(contours := contours)
        invariant hardFail == NeedsHardFail(a.contours, explained, slot)
      {
        var c := contours[slot];
        assert c == a.contours[slot];
        NeedsOneMore(a.contours, explained, slot);
        contours := contours[slot := Polled(c, slot in explained)];
        if HasUnexpectedExit(c) && slot !in explained {
          hardFail := true;
        }
      }
      if Reachable(a) {
        RefreshRunReachable(a, explained, trouble);
      }
      if hardFail {
        var _, _ := InitiateHardFailStop(trouble);
      }
    }

    /** The queue until it is empty or the application has closed. */
    method DrainQueue(trouble: Trouble)
      requires Valid() && TkFree(View())
      modifies `hardFailStopStarted, `closing, `runs, `events, `lockHeld, `destroyed, `closedBy
      ensures destroyed || events == []
      ensures View() == HandleAll(old(View()), trouble)
      ensures Reachable(old(View())) ==> Reachable(View())
    {
      hide HardFailRun, Captures, EnterHardFail, FailuresIn, Reachable;
      ghost var a := View();
      while events != []
        invariant !destroyed
        invariant HandleAll(a, trouble) == HandleAll(View(), trouble)
        decreases Pending(hardFailStopStarted), FailuresIn(events), |events|
      {
        HandleOneEnds(View(), trouble);
        var event := events[0];
        events := events[1..];
        match event {
          case CloseApp(run) =>
            lockHeld, destroyed, closedBy := false, true, Some(run);
            break;
          case StopFailed(_) =>
            closing := false;
            events := events + [Note];
          case RuntimeHardFail =>
            var _, _ := InitiateHardFailStop(trouble);
          case Note =>
        }
      }
      if Reachable(a) {
        HandleAllReachable(a, trouble);
      }
    }

    /** The Tk thread's turn: the queue until it is empty, then the refresh, unless the application has closed. */
    method Poll(explained: set<nat>, trouble: Trouble)
      requires Valid() && TkFree(View())
      modifies `contours, `hardFailStopStarted, `closing, `runs, `events, `lockHeld, `destroyed, `closedBy
      ensures Valid()
      ensures var a := HandleAll(old(View()), trouble);
              View() == if a.destroyed then a else RefreshRun(a, explained, trouble)
      ensures Reachable(old(View())) ==> Reachable(View())
    {
      hide RefreshRun, Reachable;
      DrainQueue(trouble);
      if destroyed {
        return;
      }
      RefreshButtons(explained, trouble);
    }
  }
}
