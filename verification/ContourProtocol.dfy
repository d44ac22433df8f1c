/**
 One managed contour as its threads see it.  The Tk thread starts the child and polls it for unexpected exits;
 any number of stop threads run `stop()`; the child exits when it likes.  Every access to shared fields that
 another thread can interleave with is an action of its own: a stop thread looks up the current process anew each
 time it acts.  `ManagedContour` is the same code as a class, each method proved to be its actions run without
 interruption.
 */
module ContourProtocol {
  import opened Market

  /** Where the Tk thread is: `start()` between its writes, or `consume_unexpected_exit()` between its reads. */
  datatype TkStage = Idle | Cleared | Spawned | SawExpected | SawNotStopping

  /** How a stop ends: process gone, deadline passed, or request, identity check or signal failed. */
  datatype Answer = Gone | TimedOut | Failed

  datatype StopStage =
    | Begun                    // expected_running cleared
    | Alive                    // saw a process running
    | Marked                   // stopping set
    | Requested                // graceful stop requested
    | Signalled                // CTRL_BREAK sent
    | Leaving(answer: Answer)  // stopping not yet cleared
    | Returned(answer: Answer)

  /** A stop thread; `gen` is the process generation current when it began. */
  datatype StopThread = StopThread(gen: nat, stage: StopStage)

  /** An unexpected-exit report; `touched` says a stop had acted on that generation before. */
  datatype Report = Report(gen: nat, touched: bool)

  datatype Contour = Contour(
    // shared fields; `gen` numbers the child processes, 0 standing for none
    gen: nat, alive: bool, expected: bool, stopping: bool, reported: bool,
    tk: TkStage, stops: seq<StopThread>,
    // history: reports made, and the generations some stop has acted on
    reports: seq<Report>, touched: set<nat>)

  const NEW_CONTOUR: Contour := Contour(0, false, false, false, false, Idle, [], [], {})

  datatype Action =
    | ClearFlags       // start(): child not running, the three flags reset
    | SpawnFails       // start(): no process came up
    | SpawnChild       // start(): a new process
    | CommitStart      // start(): identity known, expected_running set
    | AbortStart       // start(): identity unknown, rolled back
    | ReadExpected     // consume: first read
    | ReadStopping     // consume: second read
    | PollChild        // consume: reported flag and exit code
    | NoteIntent       // after a report: a stop marker explains the exit, expected_running cleared
    | StopBegin        // stop(): expected_running cleared
    | StopCheck(i: nat)
    | StopMark(i: nat)
    | StopRequest(i: nat)
    | StopSignal(i: nat)
    | StopSeesDead(i: nat)
    | StopTimesOut(i: nat)  // the deadline has passed and the process runs
    | StopFails(i: nat)     // the request raised, the identity differs, or the signal could not be sent
    | StopLeave(i: nat)
    | ChildExit

  ghost predicate At(s: Contour, i: nat, stages: set<StopStage>) { i < |s.stops| && s.stops[i].stage in stages }

  ghost predicate Enabled(s: Contour, a: Action) {
    match a
    case ClearFlags => s.tk == Idle && !s.alive
    case SpawnFails => s.tk == Cleared
    case SpawnChild => s.tk == Cleared
    case CommitStart => s.tk == Spawned
    case AbortStart => s.tk == Spawned
    case ReadExpected => s.tk == Idle
    case ReadStopping => s.tk == SawExpected
    case PollChild => s.tk == SawNotStopping
    case NoteIntent => s.tk == Idle && s.reported
    case StopBegin => true
    case StopCheck(i) => At(s, i, {Begun})
    case StopMark(i) => At(s, i, {Alive})
    case StopRequest(i) => At(s, i, {Marked})
    case StopSignal(i) => At(s, i, {Marked, Requested})
    case StopSeesDead(i) => At(s, i, {Requested, Signalled}) && !s.alive
    case StopTimesOut(i) => At(s, i, {Signalled}) && s.alive
    case StopFails(i) => At(s, i, {Marked, Requested})
    case StopLeave(i) => i < |s.stops| && s.stops[i].stage.Leaving?
    case ChildExit => s.alive
  }

  /** Thread `i` moves on. */
  ghost function Move(s: Contour, i: nat, stage: StopStage): Contour
    requires i < |s.stops|
  {
    s.(stops := s.stops[i := s.stops[i].(stage := stage)])
  }

  /** Thread `i` moves on and acts on the process it finds. */
  ghost function Act(s: Contour, i: nat, stage: StopStage): Contour
    requires i < |s.stops|
  {
    Move(s, i, stage).(touched := s.touched + {s.gen})
  }

  ghost function Apply(s: Contour, a: Action): Contour
    requires Enabled(s, a)
  {
    match a
    case ClearFlags => s.(stopping := false, expected := false, reported := false, tk := Cleared)
    case SpawnFails => s.(tk := Idle)
    case SpawnChild => s.(gen := s.gen + 1, alive := true, tk := Spawned)
    case CommitStart => s.(expected := true, tk := Idle)
    case AbortStart => s.(expected := false, stopping := true, tk := Idle)
    case ReadExpected => if s.expected then s.(tk := SawExpected) else s
    case ReadStopping => s.(tk := if s.stopping then Idle else SawNotStopping)
    case PollChild =>
      if s.reported || s.gen == 0 || s.alive then s.(tk := Idle)
      else s.(tk := Idle, reported := true, reports := s.reports + [Report(s.gen, s.gen in s.touched)])
    case NoteIntent => s.(expected := false)
    case StopBegin =>
      s.(expected := false, stops := s.stops + [StopThread(s.gen, Begun)], touched := s.touched + {s.gen})
    case StopCheck(i) => if s.alive then Act(s, i, Alive) else Move(s, i, Returned(Gone))
    case StopMark(i) => Act(s, i, Marked).(stopping := true)
    case StopRequest(i) => Act(s, i, Requested)
    case StopSignal(i) => Act(s, i, Signalled)
    case StopSeesDead(i) => Move(s, i, Leaving(Gone))
    case StopTimesOut(i) => Move(s, i, Leaving(TimedOut))
    case StopFails(i) => Move(s, i, Leaving(Failed))
    case StopLeave(i) => Move(s, i, Returned(s.stops[i].stage.answer)).(stopping := false)
    case ChildExit => s.(alive := false)
  }

  // ----- Paths and histories -----

  ghost predicate Path(s: Contour, actions: seq<Action>, t: Contour)
    decreases |actions|
  {
    if actions == [] then s == t else Enabled(s, actions[0]) && Path(Apply(s, actions[0]), actions[1..], t)
  }

  /** Steps only the Tk thread takes. */
  ghost predicate OnTk(a: Action) {
    match a
    case ClearFlags | SpawnFails | SpawnChild | CommitStart | AbortStart => true
    case ReadExpected | ReadStopping | PollChild | NoteIntent => true
    case _ => false
  }

  /** Steps with which the Tk thread turns to this contour. */
  ghost predicate BeginsOnTk(a: Action) { a.ClearFlags? || a.ReadExpected? || a.NoteIntent? }

  /** The contour can get from one state to the other, with the Tk thread's help or without. */
  ghost predicate Reaches(s: Contour, t: Contour, tk: bool) {
    exists actions :: Path(s, actions, t) && (tk || forall k | 0 <= k < |actions| :: !OnTk(actions[k]))
  }

  lemma ReachesSelf(s: Contour, tk: bool)
    ensures Reaches(s, s, tk)
  {
    assert Path(s, [], s);
  }

  lemma ReachesFirst(s: Contour, a: Action, t: Contour, tk: bool)
    requires Enabled(s, a) && (tk || !OnTk(a)) && Reaches(Apply(s, a), t, tk)
    ensures Reaches(s, t, tk)
  {
    hide Enabled, Apply, OnTk;
    var rest :| Path(Apply(s, a), rest, t) && (tk || forall k | 0 <= k < |rest| :: !OnTk(rest[k]));
    var actions := [a] + rest;
    assert actions[1..] == rest;
    assert Path(s, actions, t);
  }

  /** An interleaving: the actions taken and the states they lead through. */
  datatype History = History(actions: seq<Action>, states: seq<Contour>)

  ghost predicate IsHistory(h: History) {
    && |h.states| == |h.actions| + 1
    && h.states[0] == NEW_CONTOUR
    && forall k {:trigger h.actions[k]} | 0 <= k < |h.actions| ::
         Enabled(h.states[k], h.actions[k]) && h.states[k+1] == Apply(h.states[k], h.actions[k])
  }

  ghost function Last(h: History): Contour
    requires IsHistory(h)
  {
    h.states[|h.actions|]
  }

  // ----- The uninterrupted calls -----

  /** What the outside world answers while `stop()` runs. */
  datatype StopAnswers = StopAnswers(
    requestRaises: bool,    // the graceful-stop request raises
    diesOnRequest: bool,    // the child is gone by the first deadline
    sameProcess: bool,      // its identity is still the one recorded
    signalFails: bool,      // CTRL_BREAK could not be sent
    diesOnSignal: bool)     // the child is gone by the second deadline

  function AnswerOf(graceful: bool, a: StopAnswers): Answer {
    if graceful && a.requestRaises then Failed
    else if graceful && a.diesOnRequest then Gone
    else if (graceful && !a.sameProcess) || a.signalFails then Failed
    else if a.diesOnSignal then Gone
    else TimedOut
  }

  /** Which answers make a stop of a running process end how. */
  lemma AnswersRead(graceful: bool, a: StopAnswers)
    ensures AnswerOf(graceful, a) == Gone <==>
              if graceful
              then !a.requestRaises && (a.diesOnRequest || (a.sameProcess && !a.signalFails && a.diesOnSignal))
              else !a.signalFails && a.diesOnSignal
    ensures AnswerOf(graceful, a) == TimedOut <==>
              && !a.signalFails && !a.diesOnSignal
              && (graceful ==> !a.requestRaises && !a.diesOnRequest && a.sameProcess)
  {
  }

  /** The contour after a stop that nothing interrupts but the child's own exit. */
  function AfterStop(s: Contour, graceful: bool, a: StopAnswers): Contour {
    var answer := if s.alive then AnswerOf(graceful, a) else Gone;
    s.(expected := false, stopping := if s.alive then false else s.stopping, alive := s.alive && answer != Gone,
       stops := s.stops + [StopThread(s.gen, Returned(answer))], touched := s.touched + {s.gen})
  }

  /** The same while the stop is still in some stage. */
  ghost function DuringStop(s: Contour, stage: StopStage, stopping: bool, alive: bool): Contour {
    s.(expected := false, stopping := stopping, alive := alive,
       stops := s.stops + [StopThread(s.gen, stage)], touched := s.touched + {s.gen})
  }

  lemma StageMoves(s: Contour, from: StopStage, to: StopStage, stopping: bool, alive: bool)
    ensures var d := DuringStop(s, from, stopping, alive);
            && d.stops[|s.stops|] == StopThread(s.gen, from)
            && Move(d, |s.stops|, to) == DuringStop(s, to, stopping, alive)
            && Act(d, |s.stops|, to) == DuringStop(s, to, stopping, alive)
  {
    assert s.touched + {s.gen} + {s.gen} == s.touched + {s.gen};
  }

  lemma ChecksAlive(s: Contour, stopping: bool)
    ensures var d := DuringStop(s, Begun, stopping, true);
            && Enabled(d, StopCheck(|s.stops|))
            && Apply(d, StopCheck(|s.stops|)) == DuringStop(s, Alive, stopping, true)
  {
    StageMoves(s, Begun, Alive, stopping, true);
  }

  lemma ChecksDead(s: Contour, stopping: bool)
    ensures var d := DuringStop(s, Begun, stopping, false);
            && Enabled(d, StopCheck(|s.stops|))
            && Apply(d, StopCheck(|s.stops|)) == DuringStop(s, Returned(Gone), stopping, false)
  {
    StageMoves(s, Begun, Returned(Gone), stopping, false);
  }

  lemma Marks(s: Contour, stopping: bool)
    ensures var d := DuringStop(s, Alive, stopping, true);
            && Enabled(d, StopMark(|s.stops|))
            && Apply(d, StopMark(|s.stops|)) == DuringStop(s, Marked, true, true)
  {
    StageMoves(s, Alive, Marked, stopping, true);
  }

  lemma Requests(s: Contour)
    ensures var d := DuringStop(s, Marked, true, true);
            && Enabled(d, StopRequest(|s.stops|))
            && Apply(d, StopRequest(|s.stops|)) == DuringStop(s, Requested, true, true)
  {
    StageMoves(s, Marked, Requested, true, true);
  }

  lemma Signals(s: Contour, from: StopStage)
    requires from in {Marked, Requested}
    ensures var d := DuringStop(s, from, true, true);
            && Enabled(d, StopSignal(|s.stops|))
            && Apply(d, StopSignal(|s.stops|)) == DuringStop(s, Signalled, true, true)
  {
    StageMoves(s, from, Signalled, true, true);
  }

  lemma Exits(s: Contour, from: StopStage)
    ensures var d := DuringStop(s, from, true, true);
            && Enabled(d, ChildExit)
            && Apply(d, ChildExit) == DuringStop(s, from, true, false)
  {
    StageMoves(s, from, from, true, true);
  }

  lemma SeesDead(s: Contour, from: StopStage)
    requires from in {Requested, Signalled}
    ensures var d := DuringStop(s, from, true, false);
            && Enabled(d, StopSeesDead(|s.stops|))
            && Apply(d, StopSeesDead(|s.stops|)) == DuringStop(s, Leaving(Gone), true, false)
  {
    StageMoves(s, from, Leaving(Gone), true, false);
  }

  lemma PassesDeadline(s: Contour)
    ensures var d := DuringStop(s, Signalled, true, true);
            && Enabled(d, StopTimesOut(|s.stops|))
            && Apply(d, StopTimesOut(|s.stops|)) == DuringStop(s, Leaving(TimedOut), true, true)
  {
    StageMoves(s, Signalled, Leaving(TimedOut), true, true);
  }

  lemma Fails(s: Contour, from: StopStage)
    requires from in {Marked, Requested}
    ensures var d := DuringStop(s, from, true, true);
            && Enabled(d, StopFails(|s.stops|))
            && Apply(d, StopFails(|s.stops|)) == DuringStop(s, Leaving(Failed), true, true)
  {
    StageMoves(s, from, Leaving(Failed), true, true);
  }

  lemma Leaves(s: Contour, answer: Answer)
    ensures var d := DuringStop(s, Leaving(answer), true, answer != Gone);
            && Enabled(d, StopLeave(|s.stops|))
            && Apply(d, StopLeave(|s.stops|)) == DuringStop(s, Returned(answer), false, answer != Gone)
  {
    StageMoves(s, Leaving(answer), Returned(answer), true, answer != Gone);
  }

  /** From the stage that decides its answer a stop only has to leave. */
  lemma StopEnds(s: Contour, answer: Answer, from: StopStage)
    requires match answer
             case Gone => from in {Requested, Signalled}
             case TimedOut => from == Signalled
             case Failed => from in {Marked, Requested}
    ensures Reaches(DuringStop(s, from, true, true), DuringStop(s, Returned(answer), false, answer != Gone), false)
  {
    hide Enabled, Apply, DuringStop, Reaches;
    var i, over := |s.stops|, DuringStop(s, Returned(answer), false, answer != Gone);
    ReachesSelf(over, false);
    Leaves(s, answer);
    ReachesFirst(DuringStop(s, Leaving(answer), true, answer != Gone), StopLeave(i), over, false);
    match answer {
      case Gone =>
        SeesDead(s, from);
        ReachesFirst(DuringStop(s, from, true, false), StopSeesDead(i), over, false);
        Exits(s, from);
        ReachesFirst(DuringStop(s, from, true, true), ChildExit, over, false);
      case TimedOut =>
        PassesDeadline(s);
        ReachesFirst(DuringStop(s, from, true, true), StopTimesOut(i), over, false);
      case Failed =>
        Fails(s, from);
        ReachesFirst(DuringStop(s, from, true, true), StopFails(i), over, false);
    }
  }

  /** The tail of a stop from its signal, or from the failure to send it. */
  lemma StopFromSignal(s: Contour, from: StopStage, answer: Answer)
    requires from in {Marked, Requested}
    ensures Reaches(DuringStop(s, from, true, true), DuringStop(s, Returned(answer), false, answer != Gone), false)
  {
    hide Enabled, Apply, DuringStop, Reaches;
    if answer == Failed {
      StopEnds(s, answer, from);
    } else {
      StopEnds(s, answer, Signalled);
      Signals(s, from);
      ReachesFirst(DuringStop(s, from, true, true), StopSignal(|s.stops|),
                   DuringStop(s, Returned(answer), false, answer != Gone), false);
    }
  }

  lemma StopFromMarked(s: Contour, graceful: bool, a: StopAnswers)
    ensures var answer := AnswerOf(graceful, a);
            Reaches(DuringStop(s, Marked, true, true), DuringStop(s, Returned(answer), false, answer != Gone), false)
  {
    hide Enabled, Apply, DuringStop, Reaches;
    var answer := AnswerOf(graceful, a);
    if !graceful || a.requestRaises {
      StopFromSignal(s, Marked, answer);
    } else {
      if a.diesOnRequest {
        StopEnds(s, answer, Requested);
      } else {
        StopFromSignal(s, Requested, answer);
      }
      Requests(s);
      ReachesFirst(DuringStop(s, Marked, true, true), StopRequest(|s.stops|),
                   DuringStop(s, Returned(answer), false, answer != Gone), false);
    }
  }

  /** A stop that only the child's own exit interrupts is a path of actions, whatever its answers. */
  lemma StopIsPath(s: Contour, graceful: bool, a: StopAnswers)
    ensures Reaches(DuringStop(s, Begun, s.stopping, s.alive), AfterStop(s, graceful, a), false)
  {
    hide Enabled, Apply, Reaches, AnswerOf;
    var i, answer, over := |s.stops|, AnswerOf(graceful, a), AfterStop(s, graceful, a);
    if s.alive {
      assert over == DuringStop(s, Returned(answer), false, answer != Gone);
      StopFromMarked(s, graceful, a);
      Marks(s, s.stopping);
      ReachesFirst(DuringStop(s, Alive, s.stopping, true), StopMark(i), over, false);
      ChecksAlive(s, s.stopping);
      ReachesFirst(DuringStop(s, Begun, s.stopping, true), StopCheck(i), over, false);
    } else {
      ReachesSelf(over, false);
      ChecksDead(s, s.stopping);
      ReachesFirst(DuringStop(s, Begun, s.stopping, false), StopCheck(i), over, false);
    }
  }

  /** Takes an action if it is possible. */
  ghost function Try(s: Contour, a: Action): Contour { if Enabled(s, a) then Apply(s, a) else s }

  ghost function TryStart(s: Contour, spawns: bool, identified: bool): Contour {
    var cleared := Try(s, ClearFlags);
    if !spawns then Try(cleared, SpawnFails)
    else Try(Try(cleared, SpawnChild), if identified then CommitStart else AbortStart)
  }

  ghost function TryPoll(s: Contour): Contour { Try(Try(Try(s, ReadExpected), ReadStopping), PollChild) }

  // ----- The class: its methods are these actions, run without interruption -----

  class ManagedContour {
    const gracefulStop: bool
    var process: nat        // generation of the child, 0 for none
    var expectedRunning: bool
    var stopping: bool
    var unexpectedExitReported: bool

    /** The contour seen by a single thread, its child running or not. */
    ghost function View(alive: bool): Contour
      reads this
    {
      NEW_CONTOUR.(gen := process, alive := alive, expected := expectedRunning, stopping := stopping,
                   reported := unexpectedExitReported)
    }

    ghost predicate Agrees(s: Contour)
      reads this
    {
      && process == s.gen && expectedRunning == s.expected
      && stopping == s.stopping && unexpectedExitReported == s.reported
    }

    constructor (gracefulStop: bool)
      ensures this.gracefulStop == gracefulStop && Agrees(NEW_CONTOUR)
    {
      this.gracefulStop := gracefulStop;
      process, expectedRunning, stopping, unexpectedExitReported := 0, false, false, false;
    }

    /** False stands for an exception: no process came up, or it could not be identified. */
    method Start(running: bool, spawns: bool, identified: bool) returns (ok: bool)
      modifies this
      ensures ok == (running || (spawns && identified))
      ensures running ==>
                && process == old(process) && expectedRunning == old(expectedRunning) && stopping == old(stopping)
                && unexpectedExitReported == old(unexpectedExitReported)
      ensures !running ==>
                && process == old(process) + (if spawns then 1 else 0) && !unexpectedExitReported
                && expectedRunning == (spawns && identified) && stopping == (spawns && !identified)
      ensures Agrees(if running then old(View(true)) else TryStart(old(View(false)), spawns, identified))
    {
      if running {
        return true;
      }
      stopping, expectedRunning, unexpectedExitReported := false, false, false;
      if !spawns {
        return false;
      }
      process := process + 1;
      if !identified {
        expectedRunning, stopping := false, true;
        return false;
      }
      expectedRunning := true;
      ok := true;
    }

    method ConsumeUnexpectedExit(exited: bool) returns (report: Option<nat>)
      modifies this
      ensures report ==
                if old(expectedRunning) && !old(stopping) && !old(unexpectedExitReported) && process > 0 && exited
                then Some(process) else None
      ensures unexpectedExitReported == (old(unexpectedExitReported) || report.Some?)
      ensures process == old(process) && expectedRunning == old(expectedRunning) && stopping == old(stopping)
      ensures var s := TryPoll(old(View(!exited)));
              Agrees(s) && s.reports == (if report.Some? then [Report(report.value, false)] else [])
    {
      if !expectedRunning || stopping || unexpectedExitReported || process == 0 {
        return None;
      }
      if !exited {
        return None;
      }
      unexpectedExitReported := true;
      report := Some(process);
    }

    /** `None` stands for an exception of the stop request; the flag is cleared either way. */
    method Stop(running: bool, a: StopAnswers) returns (ok: Option<bool>)
      modifies this
      ensures var s := AfterStop(old(View(running)), gracefulStop, a);
              && Agrees(s) && Reaches(DuringStop(old(View(running)), Begun, old(stopping), running), s, false)
              && |s.stops| == 1 && (ok == Some(true) <==> s.stops[0].stage == Returned(Gone))
              && (ok == Some(true) ==> !s.alive)
      ensures !expectedRunning && stopping == (!running && old(stopping))
      ensures process == old(process) && unexpectedExitReported == old(unexpectedExitReported)
      ensures ok.None? <==> running && gracefulStop && a.requestRaises
      ensures ok == Some(true) <==>
                || !running
                || (gracefulStop && !a.requestRaises && a.diesOnRequest)
                || (!gracefulStop && !a.signalFails && a.diesOnSignal)
                || (gracefulStop && !a.requestRaises && a.sameProcess && !a.signalFails && a.diesOnSignal)
    {
      hide Reaches;
      StopIsPath(View(running), gracefulStop, a);
      expectedRunning := false;
      if !running {
        return Some(true);
      }
      stopping := true;
      if gracefulStop {
        if a.requestRaises {
          ok := None;
        } else if a.diesOnRequest {
          ok := Some(true);
        } else if !a.sameProcess || a.signalFails {
          ok := Some(false);
        } else {
          ok := Some(a.diesOnSignal);
        }
      } else if a.signalFails {
        ok := Some(false);
      } else {
        ok := Some(a.diesOnSignal);
      }
      stopping := false;
    }
  }

  // ----- Invariants of every interleaving -----

  /** The generation's process is gone: it has exited, or a later one has been started since. */
  ghost predicate Dead(s: Contour, gen: nat) { gen < s.gen || !s.alive }

  /** The stage of the Tk thread fixes what it has just written. */
  ghost predicate TkInv(s: Contour) {
    && (s.tk in {Cleared, Spawned} ==> !s.expected && !s.reported)
    && (s.tk == Cleared ==> !s.alive)
    && (s.tk == Spawned ==> s.gen > 0)
  }

  /** A stop that answers "gone" has seen its generation gone. */
  ghost predicate StopsInv(s: Contour) {
    && (forall g | g in s.touched :: g <= s.gen)
    && (forall i | 0 <= i < |s.stops| :: s.stops[i].gen <= s.gen)
    && (forall i | 0 <= i < |s.stops| && s.stops[i].stage in {Leaving(Gone), Returned(Gone)} :: Dead(s, s.stops[i].gen))
  }

  /** What can never be undone: generations only grow, dead processes stay dead, threads keep their generation. */
  ghost predicate Later(s: Contour, t: Contour) {
    && (s.gen < t.gen || (s.gen == t.gen && (t.alive ==> s.alive)))
    && |s.stops| <= |t.stops|
    && (forall i | 0 <= i < |s.stops| :: t.stops[i].gen == s.stops[i].gen)
  }

  lemma TkKept(s: Contour, a: Action)
    requires TkInv(s) && Enabled(s, a)
    ensures TkInv(Apply(s, a))
  {
  }

  lemma LaterApplies(s: Contour, a: Action)
    requires Enabled(s, a)
    ensures Later(s, Apply(s, a))
  {
  }

  lemma StopsKept(s: Contour, a: Action)
    requires StopsInv(s) && Enabled(s, a)
    ensures StopsInv(Apply(s, a))
  {
    LaterApplies(s, a);
  }

  lemma LaterDead(s: Contour, t: Contour, gen: nat)
    requires Later(s, t) && gen <= s.gen && Dead(s, gen)
    ensures Dead(t, gen)
  {
  }

  lemma LaterTrans(s: Contour, t: Contour, u: Contour)
    requires Later(s, t) && Later(t, u)
    ensures Later(s, u)
  {
    forall i | 0 <= i < |s.stops| ensures u.stops[i].gen == s.stops[i].gen {
      assert t.stops[i].gen == s.stops[i].gen;
    }
  }

  lemma {:induction false} InvAt(h: History, n: nat)
    requires IsHistory(h) && n <= |h.actions|
    ensures TkInv(h.states[n]) && StopsInv(h.states[n])
  {
    hide Enabled, Apply;
    if n == 0 {
    } else {
      InvAt(h, n - 1);
      TkKept(h.states[n-1], h.actions[n-1]);
      StopsKept(h.states[n-1], h.actions[n-1]);
    }
  }

  lemma LaterSelf(s: Contour)
    ensures Later(s, s)
  {
  }

  lemma {:induction false} LaterAt(h: History, m: nat, n: nat)
    requires IsHistory(h) && m <= n <= |h.actions|
    ensures Later(h.states[m], h.states[n])
    decreases n
  {
    hide Enabled, Apply, Later;
    if m == n {
      LaterSelf(h.states[m]);
    } else {
      LaterAt(h, m, n - 1);
      LaterApplies(h.states[n-1], h.actions[n-1]);
      LaterTrans(h.states[m], h.states[n-1], h.states[n]);
    }
  }

  /** The history one action longer. */
  lemma Then(h: History, a: Action) returns (h': History)
    requires IsHistory(h) && Enabled(Last(h), a)
    ensures IsHistory(h') && Last(h') == Apply(Last(h), a)
    ensures h'.actions == h.actions + [a] && h'.states == h.states + [Apply(Last(h), a)]
  {
    hide Enabled, Apply;
    h' := History(h.actions + [a], h.states + [Apply(Last(h), a)]);
    forall k | 0 <= k < |h'.actions|
      ensures Enabled(h'.states[k], h'.actions[k]) && h'.states[k+1] == Apply(h'.states[k], h'.actions[k])
    {
      if k < |h.actions| {
        assert h'.actions[k] == h.actions[k];
      }
    }
  }
}
