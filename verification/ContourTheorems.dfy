/**
 What holds of a contour under every interleaving: who can still be reported, what a stop's answer means, and
 exactly which discipline keeps the exits that stops cause from being reported.
 */
module ContourTheorems {
  import opened ContourProtocol

  // ----- Which generation can still be reported -----

  /** The current generation has not been reported, and is expected, being started, or under a poll's eyes. */
  ghost predicate Reportable(s: Contour) {
    && s.gen > 0 && !s.reported
    && (s.tk in {Spawned, SawExpected, SawNotStopping} || (s.tk == Idle && s.expected))
  }

  /** A generation that is out of reach stays so, and nothing is reported meanwhile. */
  lemma OutOfReachStays(s: Contour, a: Action)
    requires TkInv(s) && Enabled(s, a) && !Reportable(s) && Apply(s, a).gen == s.gen
    ensures !Reportable(Apply(s, a)) && Apply(s, a).reports == s.reports
  {
  }

  /** Reports name generations in increasing order, the current one only once it is out of reach. */
  ghost predicate ReportsInv(s: Contour) {
    && (forall j, k | 0 <= j < k < |s.reports| :: s.reports[j].gen < s.reports[k].gen)
    && (forall k | 0 <= k < |s.reports| :: 0 < s.reports[k].gen <= s.gen)
    && (Reportable(s) ==> forall k | 0 <= k < |s.reports| :: s.reports[k].gen < s.gen)
  }

  lemma ReportAppended(s: Contour)
    requires ReportsInv(s) && Enabled(s, PollChild) && Reportable(s)
    ensures ReportsInv(Apply(s, PollChild))
  {
  }

  lemma MovingKeeps(s: Contour, i: nat, stage: StopStage)
    requires i < |s.stops|
    ensures Move(s, i, stage).reports == s.reports && Move(s, i, stage).gen == s.gen
    ensures Act(s, i, stage).reports == s.reports && Act(s, i, stage).gen == s.gen
  {
  }

  lemma ReportsUntouched(s: Contour, a: Action)
    requires a != PollChild && Enabled(s, a)
    ensures Apply(s, a).reports == s.reports
    ensures Apply(s, a).gen == s.gen || (a == SpawnChild && Apply(s, a).gen == s.gen + 1)
  {
    hide Move, Act;
    match a {
      case StopCheck(i) =>
        MovingKeeps(s, i, Alive);
        MovingKeeps(s, i, Returned(Gone));
      case StopMark(i) => MovingKeeps(s, i, Marked);
      case StopRequest(i) => MovingKeeps(s, i, Requested);
      case StopSignal(i) => MovingKeeps(s, i, Signalled);
      case StopSeesDead(i) => MovingKeeps(s, i, Leaving(Gone));
      case StopTimesOut(i) => MovingKeeps(s, i, Leaving(TimedOut));
      case StopFails(i) => MovingKeeps(s, i, Leaving(Failed));
      case StopLeave(i) => MovingKeeps(s, i, Returned(s.stops[i].stage.answer));
      case _ =>
    }
  }

  lemma ReportsKept(s: Contour, a: Action)
    requires TkInv(s) && ReportsInv(s) && Enabled(s, a)
    ensures ReportsInv(Apply(s, a))
  {
    if !Reportable(s) && Apply(s, a).gen == s.gen {
      OutOfReachStays(s, a);
    } else if a == PollChild {
      ReportAppended(s);
    } else {
      ReportsUntouched(s, a);
    }
  }

  lemma {:induction false} ReportsAt(h: History, n: nat)
    requires IsHistory(h) && n <= |h.actions|
    ensures ReportsInv(h.states[n])
  {
    hide Enabled, Apply, TkInv, StopsInv;
    if n == 0 {
    } else {
      ReportsAt(h, n - 1);
      InvAt(h, n - 1);
      ReportsKept(h.states[n-1], h.actions[n-1]);
    }
  }

  /** Each process generation is reported at most once. */
  lemma AtMostOneReport(h: History)
    requires IsHistory(h)
    ensures forall j, k | 0 <= j < k < |Last(h).reports| :: Last(h).reports[j].gen != Last(h).reports[k].gen
  {
    ReportsAt(h, |h.actions|);
  }

  /** One history goes on from where another one ends. */
  ghost predicate Extends(h: History, h': History) {
    h.actions <= h'.actions && h.states <= h'.states
  }

  ghost predicate NewReport(h: History, h': History, gen: nat)
    requires IsHistory(h) && IsHistory(h')
  {
    exists k | |Last(h).reports| <= k < |Last(h').reports| :: Last(h').reports[k].gen == gen
  }

  /** Some continuation makes a new report on the current generation. */
  ghost predicate CanStillReport(h: History)
    requires IsHistory(h)
  {
    exists h' :: IsHistory(h') && Extends(h, h') && NewReport(h, h', Last(h).gen)
  }

  /** Reports made since there were `n` are about later generations only. */
  ghost predicate OutOfReachSince(s: Contour, gen: nat, n: nat) {
    && gen <= s.gen && n <= |s.reports|
    && (s.gen == gen ==> !Reportable(s) && |s.reports| == n)
    && (forall k | n <= k < |s.reports| :: s.reports[k].gen > gen)
  }

  lemma OutOfReachApplies(s: Contour, a: Action, gen: nat, n: nat)
    requires TkInv(s) && Enabled(s, a) && OutOfReachSince(s, gen, n)
    ensures OutOfReachSince(Apply(s, a), gen, n)
  {
    if s.gen == gen && Apply(s, a).gen == gen {
      OutOfReachStays(s, a);
    } else if a != PollChild {
      ReportsUntouched(s, a);
    }
  }

  lemma {:induction false} OutOfReachAt(h: History, m: nat, n: nat)
    requires IsHistory(h) && m <= n <= |h.actions| && !Reportable(h.states[m])
    ensures OutOfReachSince(h.states[n], h.states[m].gen, |h.states[m].reports|)
    decreases n
  {
    hide Enabled, Apply, TkInv, StopsInv;
    if m == n {
    } else {
      OutOfReachAt(h, m, n - 1);
      InvAt(h, n - 1);
      hide OutOfReachSince;
      OutOfReachApplies(h.states[n-1], h.actions[n-1], h.states[m].gen, |h.states[m].reports|);
    }
  }

  // ----- A report can be provoked whenever it is possible -----

  ghost predicate Holds(s: Contour, i: nat) {
    i < |s.stops| && (s.stops[i].stage in {Marked, Requested, Signalled} || s.stops[i].stage.Leaving?)
  }

  /** Whoever holds the stopping flag will let go of it. */
  ghost predicate StoppingInv(s: Contour) {
    s.stopping ==> (!s.expected && s.tk == Idle) || exists i :: Holds(s, i)
  }

  lemma StoppingKept(s: Contour, a: Action)
    requires TkInv(s) && StoppingInv(s) && Enabled(s, a)
    ensures StoppingInv(Apply(s, a))
  {
    var t := Apply(s, a);
    if t.stopping {
      if a.StopMark? {
        assert Holds(t, a.i);
      } else if s.stopping && exists i :: Holds(s, i) {
        var i :| Holds(s, i);
        assert Holds(t, i);
      }
    }
  }

  lemma {:induction false} StoppingAt(h: History, n: nat)
    requires IsHistory(h) && n <= |h.actions|
    ensures StoppingInv(h.states[n])
  {
    hide Enabled, Apply, TkInv, StopsInv;
    if n == 0 {
    } else {
      StoppingAt(h, n - 1);
      InvAt(h, n - 1);
      hide StoppingInv;
      StoppingKept(h.states[n-1], h.actions[n-1]);
    }
  }

  /** Neither begins a stop nor starts a process. */
  ghost predicate Harmless(a: Action) { !a.StopBegin? && !a.SpawnChild? }

  /** The continuation takes harmless actions only. */
  ghost predicate ContinuesHarmlessly(h: History, h': History) {
    && Extends(h, h')
    && forall k | |h.actions| <= k < |h'.actions| :: Harmless(h'.actions[k])
  }

  lemma HarmlessTrans(h: History, h1: History, h2: History)
    requires ContinuesHarmlessly(h, h1) && ContinuesHarmlessly(h1, h2)
    ensures ContinuesHarmlessly(h, h2)
  {
    forall k | |h.actions| <= k < |h2.actions| ensures Harmless(h2.actions[k]) {
      if k < |h1.actions| {
        assert h2.actions[k] == h1.actions[k];
      }
    }
  }

  lemma Step(h: History, a: Action) returns (h': History)
    requires IsHistory(h) && Enabled(Last(h), a) && Harmless(a)
    ensures IsHistory(h') && Last(h') == Apply(Last(h), a) && ContinuesHarmlessly(h, h')
  {
    h' := Then(h, a);
  }

  /** What a stop thread does to get rid of the stopping flag. */
  lemma LetGo(h: History, i: nat) returns (h': History)
    requires IsHistory(h) && Holds(Last(h), i)
    ensures IsHistory(h') && ContinuesHarmlessly(h, h')
    ensures var s, t := Last(h), Last(h');
            && t == s.(alive := t.alive, stopping := false, stops := t.stops)
  {
    hide IsHistory, ContinuesHarmlessly;
    var s := Last(h);
    if s.stops[i].stage.Leaving? {
      h' := Step(h, StopLeave(i));
    } else {
      var decide := if s.stops[i].stage in {Marked, Requested} then StopFails(i)
                    else if s.alive then StopTimesOut(i) else StopSeesDead(i);
      var h1 := Step(h, decide);
      h' := Step(h1, StopLeave(i));
      HarmlessTrans(h, h1, h');
    }
  }

  lemma ReportNow(h: History) returns (h': History)
    requires IsHistory(h) && Reportable(Last(h)) && Last(h).tk == SawNotStopping
    ensures IsHistory(h') && ContinuesHarmlessly(h, h')
    ensures Last(h').reports == Last(h).reports + [Report(Last(h).gen, Last(h).gen in Last(h).touched)]
  {
    hide IsHistory, ContinuesHarmlessly;
    if Last(h).alive {
      var h1 := Step(h, ChildExit);
      h' := Step(h1, PollChild);
      HarmlessTrans(h, h1, h');
    } else {
      h' := Step(h, PollChild);
    }
  }

  lemma ReportSoon(h: History) returns (h': History)
    requires IsHistory(h) && Reportable(Last(h)) && Last(h).tk == SawExpected
    ensures IsHistory(h') && ContinuesHarmlessly(h, h')
    ensures Last(h').reports == Last(h).reports + [Report(Last(h).gen, Last(h).gen in Last(h).touched)]
  {
    StoppingAt(h, |h.actions|);
    hide IsHistory, ContinuesHarmlessly;
    if Last(h).stopping {
      var i :| Holds(Last(h), i);
      var h1 := LetGo(h, i);
      var h2 := Step(h1, ReadStopping);
      var h3 := ReportNow(h2);
      HarmlessTrans(h, h1, h2);
      HarmlessTrans(h, h2, h3);
      h' := h3;
    } else {
      var h1 := Step(h, ReadStopping);
      h' := ReportNow(h1);
      HarmlessTrans(h, h1, h');
    }
  }

  lemma ReportWhenExpected(h: History) returns (h': History)
    requires IsHistory(h) && Reportable(Last(h)) && Last(h).tk == Idle
    ensures IsHistory(h') && ContinuesHarmlessly(h, h')
    ensures Last(h').reports == Last(h).reports + [Report(Last(h).gen, Last(h).gen in Last(h).touched)]
  {
    hide IsHistory, ContinuesHarmlessly;
    var h1 := Step(h, ReadExpected);
    h' := ReportSoon(h1);
    HarmlessTrans(h, h1, h');
  }

  /** Whenever a generation can still be reported, some harmless continuation reports it. */
  lemma ProvokeReport(h: History) returns (h': History)
    requires IsHistory(h) && Reportable(Last(h))
    ensures IsHistory(h') && ContinuesHarmlessly(h, h')
    ensures Last(h').reports == Last(h).reports + [Report(Last(h).gen, Last(h).gen in Last(h).touched)]
  {
    hide IsHistory, ContinuesHarmlessly;
    match Last(h).tk {
      case SawNotStopping => h' := ReportNow(h);
      case SawExpected => h' := ReportSoon(h);
      case Idle => h' := ReportWhenExpected(h);
      case Spawned =>
        var h1 := Step(h, CommitStart);
        h' := ReportWhenExpected(h1);
        HarmlessTrans(h, h1, h');
    }
  }

  /** Exactly when the current generation can still be reported, after any history. */
  lemma ReportableExactly(h: History)
    requires IsHistory(h)
    ensures CanStillReport(h) <==> Reportable(Last(h))
  {
    if Reportable(Last(h)) {
      var h' := ProvokeReport(h);
      var n := |Last(h).reports|;
      assert Last(h').reports[n].gen == Last(h).gen;
      assert NewReport(h, h', Last(h).gen);
    } else if CanStillReport(h) {
      var h' :| IsHistory(h') && Extends(h, h') && NewReport(h, h', Last(h).gen);
      assert h'.states[|h.actions|] == Last(h);
      OutOfReachAt(h', |h.actions|, |h'.actions|);
      assert false;
    }
  }

  // ----- What a stop does to the report -----

  /**
   Once a stop has begun, its generation can still be reported exactly if the stop began while the Tk thread was
   past the first read of a poll or between the spawn and the commit of a start, and there is no report yet.
   */
  lemma BegunStopExactly(h: History) returns (h': History)
    requires IsHistory(h)
    ensures IsHistory(h') && h'.actions == h.actions + [StopBegin] && Last(h') == Apply(Last(h), StopBegin)
    ensures CanStillReport(h') <==>
              Last(h).gen > 0 && !Last(h).reported && Last(h).tk in {Spawned, SawExpected, SawNotStopping}
  {
    h' := Then(h, StopBegin);
    ReportableExactly(h');
  }

  ghost predicate ActsOnProcess(a: Action) { a.StopCheck? || a.StopMark? || a.StopRequest? || a.StopSignal? }

  /**
   When a stop acts again it acts on whatever process there is; that process can be reported afterwards exactly
   if it could before.  So a stop silences a later generation only if its own first write did.
   */
  lemma ActingStopExactly(h: History, a: Action) returns (h': History)
    requires IsHistory(h) && ActsOnProcess(a) && Enabled(Last(h), a)
    ensures IsHistory(h') && h'.actions == h.actions + [a]
    ensures CanStillReport(h') <==> Reportable(Last(h))
    ensures Last(h).alive ==> Last(h').gen in Last(h').touched
  {
    h' := Then(h, a);
    ReportableExactly(h');
  }

  // ----- Exactly which discipline silences the exits that stops cause -----

  /** When a stop may begin, and over which unfinished stops a process may be started. */
  datatype Policy = Policy(beginAt: set<TkStage>, spawnOver: set<StopStage>)

  ghost predicate Allowed(p: Policy, s: Contour, a: Action) {
    && (a.StopBegin? ==> s.tk in p.beginAt)
    && (a.SpawnChild? ==> forall i | 0 <= i < |s.stops| :: s.stops[i].stage in p.spawnOver)
  }

  ghost predicate Obeys(p: Policy, h: History)
    requires IsHistory(h)
  {
    forall k | 0 <= k < |h.actions| :: Allowed(p, h.states[k], h.actions[k])
  }

  /** No generation was reported after a stop had acted on it. */
  ghost predicate Silent(s: Contour) { forall k | 0 <= k < |s.reports| :: !s.reports[k].touched }

  ghost predicate Silences(p: Policy) { forall h | IsHistory(h) && Obeys(p, h) :: Silent(Last(h)) }

  /** Stages in which a stop may still act on the process it finds. */
  ghost predicate Unfinished(stage: StopStage) { stage in {Begun, Alive, Marked, Requested} }

  ghost predicate Tame(p: Policy) {
    && p.beginAt <= {Idle, Cleared}
    && forall stage | stage in p.spawnOver :: !Unfinished(stage)
  }

  /** Under a tame policy whatever a stop has acted on, or may yet, is out of a report's reach. */
  ghost predicate TameInv(s: Contour) {
    && Silent(s)
    && (s.gen in s.touched ==> !Reportable(s))
    && (forall i | 0 <= i < |s.stops| && Unfinished(s.stops[i].stage) :: s.gen in s.touched)
  }

  lemma TameKept(p: Policy, s: Contour, a: Action)
    requires Tame(p) && Allowed(p, s, a) && Enabled(s, a)
    requires TkInv(s) && StopsInv(s) && TameInv(s)
    ensures TameInv(Apply(s, a))
  {
    var t := Apply(s, a);
    if a == SpawnChild {
      assert t.gen !in s.touched;
    } else if s.gen in s.touched {
      OutOfReachStays(s, a);
    }
  }

  lemma {:induction false} TameAt(p: Policy, h: History, n: nat)
    requires Tame(p) && IsHistory(h) && Obeys(p, h) && n <= |h.actions|
    ensures TameInv(h.states[n])
  {
    hide Enabled, Apply, TkInv, StopsInv, Allowed, Tame;
    if n == 0 {
    } else {
      TameAt(p, h, n - 1);
      InvAt(h, n - 1);
      hide TameInv;
      TameKept(p, h.states[n-1], h.actions[n-1]);
    }
  }

  lemma HarmlessObeys(p: Policy, h: History, h': History)
    requires IsHistory(h) && IsHistory(h') && Obeys(p, h) && ContinuesHarmlessly(h, h')
    ensures Obeys(p, h')
  {
    forall k | 0 <= k < |h'.actions| ensures Allowed(p, h'.states[k], h'.actions[k]) {
      if k < |h.actions| {
        assert h'.actions[k] == h.actions[k] && h'.states[k] == h.states[k];
        assert Allowed(p, h.states[k], h.actions[k]);
      } else {
        assert Harmless(h'.actions[k]);
      }
    }
  }

  /** A stop that has acted on a generation still in reach breaks the silence. */
  lemma SilenceBroken(p: Policy, h: History)
    requires IsHistory(h) && Obeys(p, h) && Reportable(Last(h)) && Last(h).gen in Last(h).touched
    ensures !Silences(p)
  {
    var h' := ProvokeReport(h);
    HarmlessObeys(p, h, h');
    assert Last(h').reports[|Last(h).reports|].touched;
    assert !Silent(Last(h'));
  }

  /** One more action that the policy allows. */
  lemma Go(p: Policy, h: History, a: Action) returns (h': History)
    requires IsHistory(h) && Obeys(p, h) && Enabled(Last(h), a) && Allowed(p, Last(h), a)
    ensures IsHistory(h') && Obeys(p, h') && Last(h') == Apply(Last(h), a)
  {
    hide Enabled, Apply, Allowed;
    h' := Then(h, a);
    forall k | 0 <= k < |h'.actions| ensures Allowed(p, h'.states[k], h'.actions[k]) {
      if k < |h.actions| {
        assert h'.actions[k] == h.actions[k] && h'.states[k] == h.states[k];
      }
    }
  }

  lemma NewHistory(p: Policy) returns (h: History)
    ensures IsHistory(h) && Obeys(p, h) && Last(h) == NEW_CONTOUR
  {
    h := History([], [NEW_CONTOUR]);
  }

  lemma Spawning(p: Policy) returns (h: History)
    ensures IsHistory(h) && Obeys(p, h)
    ensures Last(h) == NEW_CONTOUR.(gen := 1, alive := true, tk := Spawned)
  {
    hide IsHistory, Obeys;
    h := NewHistory(p);
    h := Go(p, h, ClearFlags);
    h := Go(p, h, SpawnChild);
  }

  lemma Running(p: Policy) returns (h: History)
    ensures IsHistory(h) && Obeys(p, h)
    ensures Last(h) == NEW_CONTOUR.(gen := 1, alive := true, expected := true)
  {
    hide IsHistory, Obeys;
    h := Spawning(p);
    h := Go(p, h, CommitStart);
  }

  /** A stop that begins inside a poll or inside a start. */
  lemma BeginInsideCall(p: Policy, at: TkStage)
    requires at in p.beginAt && at in {Spawned, SawExpected, SawNotStopping}
    ensures !Silences(p)
  {
    hide IsHistory, Obeys, Silences;
    var h;
    if at == Spawned {
      h := Spawning(p);
    } else {
      h := Running(p);
      h := Go(p, h, ReadExpected);
      if at == SawNotStopping {
        h := Go(p, h, ReadStopping);
      }
    }
    h := Go(p, h, StopBegin);
    SilenceBroken(p, h);
  }

  /** A first process with one stop on it, that has come as far as `stage`. */
  lemma StoppedUpTo(p: Policy, stage: StopStage) returns (h: History)
    requires Idle in p.beginAt && Unfinished(stage)
    ensures IsHistory(h) && Obeys(p, h)
    ensures var s := Last(h);
            s == NEW_CONTOUR.(gen := 1, alive := true, stopping := s.stopping, stops := [StopThread(1, stage)],
                              touched := {1})
  {
    hide IsHistory, Obeys;
    h := Running(p);
    h := Go(p, h, StopBegin);
    assert Last(h).stops == [StopThread(1, Begun)] && Last(h).touched == {1};
    if stage != Begun {
      h := Go(p, h, StopCheck(0));
      assert Last(h).stops == [StopThread(1, Alive)] && Last(h).touched == {1};
      if stage != Alive {
        h := Go(p, h, StopMark(0));
        assert Last(h).stops == [StopThread(1, Marked)] && Last(h).touched == {1};
        if stage != Marked {
          h := Go(p, h, StopRequest(0));
          assert Last(h).stops == [StopThread(1, Requested)] && Last(h).touched == {1};
        }
      }
    }
  }

  /** A process started over an unfinished stop: the stop goes on to act on it. */
  lemma SpawnOverUnfinished(p: Policy, stage: StopStage)
    requires Idle in p.beginAt && stage in p.spawnOver && Unfinished(stage)
    ensures !Silences(p)
  {
    hide IsHistory, Obeys, Silences;
    var h := StoppedUpTo(p, stage);
    h := Go(p, h, ChildExit);
    h := Go(p, h, ClearFlags);
    h := Go(p, h, SpawnChild);
    h := Go(p, h, CommitStart);
    var act := if stage == Begun then StopCheck(0) else if stage == Alive then StopMark(0)
               else if stage == Marked then StopRequest(0) else StopSignal(0);
    h := Go(p, h, act);
    SilenceBroken(p, h);
  }

  lemma TameIsSilent(s: Contour)
    requires TameInv(s)
    ensures Silent(s)
  {
  }

  lemma TamePoliciesSilence(p: Policy)
    requires Tame(p)
    ensures Silences(p)
  {
    hide TameInv;
    forall h | IsHistory(h) && Obeys(p, h) ensures Silent(Last(h)) {
      TameAt(p, h, |h.actions|);
      TameIsSilent(Last(h));
    }
  }

  /**
   Exactly which discipline keeps every exit a stop has to do with from being reported: stops begin only while the
   Tk thread is outside its polls and not between a spawn and its commit, and no process is started over a stop
   that may still check, mark, request or signal.
   */
  lemma DisciplineExactly(p: Policy)
    requires Idle in p.beginAt
    ensures Silences(p) <==>
              && p.beginAt <= {Idle, Cleared}
              && Begun !in p.spawnOver && Alive !in p.spawnOver && Marked !in p.spawnOver && Requested !in p.spawnOver
  {
    hide IsHistory, Obeys, Silences;
    if Tame(p) {
      TamePoliciesSilence(p);
    } else if !(p.beginAt <= {Idle, Cleared}) {
      var at :| at in p.beginAt && at !in {Idle, Cleared};
      assert at.Idle? || at.Cleared? || at.Spawned? || at.SawExpected? || at.SawNotStopping?;
      BeginInsideCall(p, at);
    } else {
      var stage :| stage in p.spawnOver && Unfinished(stage);
      SpawnOverUnfinished(p, stage);
    }
  }

  // ----- Three interleavings that report an exit the operator asked for -----

  lemma Started() returns (h: History)
    ensures IsHistory(h) && Last(h) == NEW_CONTOUR.(gen := 1, alive := true, expected := true)
  {
    h := Running(Policy({}, {}));
  }

  /** A stop that begins between a poll's first read and its exit check. */
  lemma StopDuringPollWitness() returns (h: History)
    ensures IsHistory(h) && Last(h).reports == [Report(1, true)] && Last(h).stops == [StopThread(1, Begun)]
  {
    hide IsHistory;
    h := Started();
    h := Then(h, ReadExpected);
    h := Then(h, ReadStopping);
    h := Then(h, StopBegin);
    h := Then(h, ChildExit);
    h := Then(h, PollChild);
  }

  /** A stop begun during a start, which has seen the process and is then overwritten by the commit. */
  lemma OverwrittenStop() returns (h: History)
    ensures IsHistory(h)
    ensures Last(h) == NEW_CONTOUR.(gen := 1, alive := true, expected := true, stops := [StopThread(1, Alive)],
                                    touched := {1})
  {
    hide IsHistory;
    h := Spawning(Policy({}, {}));
    h := Then(h, StopBegin);
    h := Then(h, StopCheck(0));
    h := Then(h, CommitStart);
  }

  /** A stop that begins while `start()` is still running is overwritten by it, and reported once it has given up. */
  lemma StopDuringStartWitness() returns (h: History)
    ensures IsHistory(h) && Last(h).reports == [Report(1, true)]
    ensures Last(h).stops == [StopThread(1, Returned(TimedOut))]
  {
    hide IsHistory;
    h := OverwrittenStop();
    h := Then(h, StopMark(0));
    h := Then(h, StopSignal(0));
    h := Then(h, StopTimesOut(0));
    h := Then(h, StopLeave(0));
    assert Last(h).stops == [StopThread(1, Returned(TimedOut))] && Last(h).touched == {1};
    h := Then(h, ChildExit);
    h := Then(h, ReadExpected);
    h := Then(h, ReadStopping);
    h := Then(h, PollChild);
  }

  /** A stop that begins with the Tk thread idle, is overtaken by the next start and signals the new process. */
  lemma CarriedOverStopWitness() returns (h: History)
    ensures IsHistory(h) && Last(h).reports == [Report(2, true)] && Last(h).stops == [StopThread(1, Signalled)]
  {
    hide IsHistory;
    h := StoppedUpTo(Policy({Idle}, {}), Marked);
    h := Then(h, ChildExit);
    h := Then(h, ClearFlags);
    h := Then(h, SpawnChild);
    h := Then(h, CommitStart);
    h := Then(h, StopSignal(0));
    h := Then(h, ChildExit);
    h := Then(h, ReadExpected);
    h := Then(h, ReadStopping);
    h := Then(h, PollChild);
  }

  // ----- Which polls a stop forestalls -----

  /** Inside a poll, past its first read. */
  ghost predicate Polling(s: Contour) { s.tk in {SawExpected, SawNotStopping} }

  lemma StaysUnexpected(s: Contour, a: Action)
    requires TkInv(s) && Enabled(s, a) && !s.expected && s.tk != Spawned && Apply(s, a).gen == s.gen
    ensures !Apply(s, a).expected && Apply(s, a).tk != Spawned
    ensures Polling(Apply(s, a)) ==> Polling(s)
  {
  }

  /**
   After a stop has begun on a generation whose start is over, no new poll of that generation gets past its
   first read: if the Tk thread is inside a poll, it has been ever since the stop began.
   */
  lemma {:induction false} NoReportAfterStop(h: History, m: nat, n: nat)
    requires IsHistory(h) && m < n <= |h.actions|
    requires h.actions[m] == StopBegin && h.states[m].tk != Spawned && h.states[n].gen == h.states[m].gen
    ensures !h.states[n].expected && h.states[n].tk != Spawned
    ensures Polling(h.states[n]) ==> forall k | m <= k <= n :: Polling(h.states[k])
    decreases n
  {
    assert h.states[m+1] == Apply(h.states[m], StopBegin);
    if n == m + 1 {
    } else {
      LaterAt(h, m, n - 1);
      LaterAt(h, n - 1, n);
      NoReportAfterStop(h, m, n - 1);
      InvAt(h, n - 1);
      StaysUnexpected(h.states[n-1], h.actions[n-1]);
    }
  }

  // ----- What a stop's answer says about the process -----

  /** A stop that answers "gone" has seen the generation it was called for gone. */
  lemma SuccessfulStopSawDeath(h: History, i: nat)
    requires IsHistory(h) && i < |Last(h).stops| && Last(h).stops[i].stage == Returned(Gone)
    ensures Dead(Last(h), Last(h).stops[i].gen)
  {
    InvAt(h, |h.actions|);
  }

  /** Processes started between two points of a history. */
  ghost predicate Restarted(h: History, m: nat, n: nat)
    requires m <= n <= |h.actions|
  {
    exists k | m <= k < n :: h.actions[k] == SpawnChild
  }

  lemma OnlySpawnRaises(s: Contour, a: Action)
    requires Enabled(s, a)
    ensures Apply(s, a).gen == if a == SpawnChild then s.gen + 1 else s.gen
  {
  }

  lemma {:induction false} RestartsRaiseGeneration(h: History, m: nat, n: nat)
    requires IsHistory(h) && m <= n <= |h.actions|
    ensures h.states[m].gen <= h.states[n].gen
    ensures h.states[m].gen == h.states[n].gen <==> !Restarted(h, m, n)
    decreases n
  {
    hide Enabled, Apply;
    if m == n {
    } else {
      RestartsRaiseGeneration(h, m, n - 1);
      var s, a := h.states[n-1], h.actions[n-1];
      assert Enabled(s, a) && h.states[n] == Apply(s, a);
      OnlySpawnRaises(s, a);
      if Restarted(h, m, n - 1) {
        var k :| m <= k < n - 1 && h.actions[k] == SpawnChild;
        assert Restarted(h, m, n);
      }
      if a == SpawnChild {
        assert h.actions[n-1] == SpawnChild;
      }
    }
  }

  /**
   A stop whose deadline passes, begun at step `m` and giving up at step `n`: the process it was called for is
   alive exactly if no process has been started in between; otherwise it has waited on a successor.
   */
  lemma TimedOutExactly(h: History, m: nat, n: nat)
    requires IsHistory(h) && m < n < |h.actions|
    requires h.actions[m] == StopBegin && h.actions[n] == StopTimesOut(|h.states[m].stops|)
    ensures var gen := h.states[m].gen;
            && h.states[n].stops[|h.states[m].stops|].gen == gen
            && (!Dead(h.states[n], gen) <==> !Restarted(h, m, n))
  {
    var i := |h.states[m].stops|;
    assert h.states[m+1] == Apply(h.states[m], StopBegin);
    LaterAt(h, m + 1, n);
    RestartsRaiseGeneration(h, m, n);
    assert Enabled(h.states[n], StopTimesOut(i));
  }

  /** A stop that fails otherwise says nothing: with the process it was called for alive... */
  lemma FailedStopOfLiveGenerationWitness() returns (h: History)
    ensures IsHistory(h) && Last(h).stops == [StopThread(1, Leaving(Failed))] && !Dead(Last(h), 1)
  {
    hide IsHistory;
    h := StoppedUpTo(Policy({Idle}, {}), Requested);
    h := Then(h, StopFails(0));
  }

  /** ... or gone, the identity check having come just after its exit. */
  lemma FailedStopOfDeadGenerationWitness() returns (h: History)
    ensures IsHistory(h) && Last(h).stops == [StopThread(1, Leaving(Failed))] && Last(h).gen == 1 && Dead(Last(h), 1)
  {
    hide IsHistory;
    h := StoppedUpTo(Policy({Idle}, {}), Requested);
    h := Then(h, ChildExit);
    h := Then(h, StopFails(0));
  }
}
