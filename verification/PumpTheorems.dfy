/** What holds over every run of the pump portfolio. */
module PumpTheorems {
  import opened Market
  import opened Sorting
  import opened PumpWalk
  import opened PumpPortfolio
  import opened Drawdown

  // ----- The cool-down is exact -----

  /**
   The two slots and the streak of three fit together: while signals are being skipped, the stops already
   counted plus the positions still open cannot make a new streak.
   */
  ghost predicate GateInv(g: Gate, open: nat) {
    && g.stopStreak <= 2
    && g.skipSignals <= 5
    && open <= 2
    && (g.skipSignals > 0 ==> g.stopStreak + open <= 1)
  }

  lemma Gate1Keeps(g: Gate, p: OpenPosition, open: nat)
    requires GateInv(g, open) && open > 0
    ensures GateInv(Gate1(g, p), open - 1)
  {
  }

  /** A settlement arms at most once, and only when nothing was being skipped. */
  lemma {:induction false} GateAllKeeps(g: Gate, due: seq<OpenPosition>, open: nat)
    requires GateInv(g, open) && |due| <= open
    ensures var g' := GateAll(g, due);
            && GateInv(g', open - |due|)
            && (g'.arms == g.arms ==> g'.skipSignals == g.skipSignals)
            && (g'.arms != g.arms ==>
                  g'.arms == g.arms + 1 && g.skipSignals == 0 && g'.skipSignals == 5)
            && (g.stopStreak + open <= 1 ==>
                  g'.arms == g.arms && g'.stopStreak + open - |due| <= 1)
  {
    if due == [] {
    } else {
      GateAllKeeps(g, due[..|due|-1], open);
      Gate1Keeps(GateAll(g, due[..|due|-1]), due[|due|-1], open - |due| + 1);
    }
  }

  lemma SettleGate(b: Book, until: Option<int>)
    requires GateInv(b.gate, |b.open|)
    ensures var s := Settle(b, until);
            && GateInv(s.gate, |s.open|)
            && (s.gate.arms == b.gate.arms ==> s.gate.skipSignals == b.gate.skipSignals)
            && (s.gate.arms != b.gate.arms ==>
                  s.gate.arms == b.gate.arms + 1 && b.gate.skipSignals == 0
                  && s.gate.skipSignals == 5)
            && (b.gate.stopStreak + |b.open| <= 1 ==>
                  s.gate.arms == b.gate.arms && s.gate.stopStreak + |s.open| <= 1)
  {
    SortContents(ExitLe, Due(b.open, until));
    DueSplit(b.open, until);
    GateAllKeeps(b.gate, InExitOrder(b.open, until), |b.open|);
  }

  ghost function Cooldowns(ds: seq<Decision>): nat {
    if ds == [] then 0 else Cooldowns(ds[..|ds|-1]) + (if ds[|ds|-1].Cooldown? then 1 else 0)
  }

  /**
   At most two positions are ever open, and every armed cool-down is paid out in full: the candidates skipped
   so far plus those still to be skipped are five for each time it was armed.
   */
  lemma {:induction false} GateAt(ts: seq<CandidateTrade>, bs: seq<Book>, n: nat)
    requires IsRun(ts, bs) && n <= |ts|
    ensures GateInv(bs[n].gate, |bs[n].open|)
    ensures Cooldowns(bs[n].decisions) + bs[n].gate.skipSignals == 5 * bs[n].gate.arms
    ensures |bs[n].decisions| == n
  {
    if n == 0 {
    } else {
      GateAt(ts, bs, n - 1);
      SettleGate(bs[n-1], Some(ts[n-1].entryTs));
      var s := Before(ts, bs, n - 1);
      assert bs[n].decisions[..n-1] == s.decisions;
    }
  }

  /** The decision taken on candidate `n`. */
  ghost function DecisionOn(ts: seq<CandidateTrade>, bs: seq<Book>, n: nat): Decision
    requires n < |ts| && n < |bs|
  {
    Decide(Before(ts, bs, n).gate, |Before(ts, bs, n).open|)
  }

  lemma {:induction false} DecisionsRecorded(ts: seq<CandidateTrade>, bs: seq<Book>, n: nat, k: nat)
    requires IsRun(ts, bs) && k < n <= |ts|
    ensures |bs[n].decisions| == n && bs[n].decisions[k] == DecisionOn(ts, bs, k)
    decreases n
  {
    GateAt(ts, bs, n - 1);
    assert bs[n] == Step(bs[n-1], ts[n-1]);
    if k == n - 1 {
    } else {
      DecisionsRecorded(ts, bs, n - 1, k);
    }
  }

  /** The settlement before candidate `n` arms the cool-down. */
  ghost predicate ArmedAt(ts: seq<CandidateTrade>, bs: seq<Book>, n: nat)
    requires n < |ts| && n < |bs|
  {
    Before(ts, bs, n).gate.arms != bs[n].gate.arms
  }

  /** The state of a cool-down `j` candidates after it was armed. */
  lemma {:induction false} DuringCooldown(ts: seq<CandidateTrade>, bs: seq<Book>, n: nat, j: nat)
    requires IsRun(ts, bs) && n < |ts| && ArmedAt(ts, bs, n)
    requires 1 <= j <= 5 && n + j <= |ts|
    ensures bs[n+j].gate.skipSignals == 5 - j
    ensures bs[n+j].gate.stopStreak + |bs[n+j].open| <= 1
    decreases j
  {
    hide Settle, Cooldowns;
    GateAt(ts, bs, n + j - 1);
    SettleGate(bs[n+j-1], Some(ts[n+j-1].entryTs));
    assert bs[n+j] == Step(bs[n+j-1], ts[n+j-1]);
    if j == 1 {
    } else {
      DuringCooldown(ts, bs, n, j - 1);
    }
  }

  /**
   Whenever three stops in a row arm the cool-down, the next five candidates, or all that remain, are skipped,
   it is not armed again meanwhile, and the sixth candidate is not skipped.
   */
  lemma CooldownIsExact(ts: seq<CandidateTrade>, bs: seq<Book>, n: nat)
    requires IsRun(ts, bs) && n < |ts| && ArmedAt(ts, bs, n)
    ensures forall k | n <= k < n + 5 && k < |ts| :: DecisionOn(ts, bs, k) == Cooldown
    ensures forall k | n < k <= n + 5 && k < |ts| :: !ArmedAt(ts, bs, k)
    ensures n + 5 < |ts| ==> DecisionOn(ts, bs, n + 5) != Cooldown
  {
    hide Settle, Cooldowns;
    GateAt(ts, bs, n);
    SettleGate(bs[n], Some(ts[n].entryTs));
    forall k | n < k <= n + 5 && k < |ts|
      ensures !ArmedAt(ts, bs, k) && Before(ts, bs, k).gate.skipSignals == 5 - (k - n)
    {
      DuringCooldown(ts, bs, n, k - n);
      GateAt(ts, bs, k);
      SettleGate(bs[k], Some(ts[k].entryTs));
    }
  }

  /** Conversely, a pending skip, and so every skipped candidate, goes back to an arming at most five earlier. */
  lemma {:induction false} SkipHasCause(ts: seq<CandidateTrade>, bs: seq<Book>, n: nat) returns (a: nat)
    requires IsRun(ts, bs) && n < |ts| && DecisionOn(ts, bs, n) == Cooldown
    ensures a <= n < a + 5 && ArmedAt(ts, bs, a)
    ensures Before(ts, bs, n).gate.skipSignals == 5 - (n - a)
  {
    GateAt(ts, bs, n);
    SettleGate(bs[n], Some(ts[n].entryTs));
    if ArmedAt(ts, bs, n) {
      a := n;
    } else {
      assert n > 0;
      assert bs[n] == Step(bs[n-1], ts[n-1]);
      GateAt(ts, bs, n - 1);
      a := SkipHasCause(ts, bs, n - 1);
    }
  }

  /** Stops at the tail of the settlement history. */
  ghost function TrailingStops(ps: seq<OpenPosition>): nat {
    if ps == [] || !ps[|ps|-1].outcome.SL? then 0 else TrailingStops(ps[..|ps|-1]) + 1
  }

  ghost predicate StreakCounts(g: Gate, settled: seq<OpenPosition>) {
    g.stopStreak == TrailingStops(settled) % 3
  }

  lemma {:induction false} GateAllCounts(g: Gate, settled: seq<OpenPosition>, due: seq<OpenPosition>)
    requires StreakCounts(g, settled)
    ensures StreakCounts(GateAll(g, due), settled + due)
  {
    if due == [] {
      assert settled + due == settled;
    } else {
      var init, last := due[..|due|-1], due[|due|-1];
      GateAllCounts(g, settled, init);
      assert settled + due == (settled + init) + [last];
      assert ((settled + init) + [last])[..|settled + init|] == settled + init;
    }
  }

  /** The streak is the number of stops settled in a row, counted in threes. */
  lemma {:induction false} StreakIsTrailingStops(ts: seq<CandidateTrade>, bs: seq<Book>, n: nat)
    requires IsRun(ts, bs) && n <= |ts|
    ensures StreakCounts(bs[n].gate, bs[n].ledger.settled)
  {
    if n == 0 {
    } else {
      StreakIsTrailingStops(ts, bs, n - 1);
      var b, until := bs[n-1], Some(ts[n-1].entryTs);
      BookAllHistory(b.ledger, InExitOrder(b.open, until));
      GateAllCounts(b.gate, b.ledger.settled, InExitOrder(b.open, until));
      assert bs[n] == Step(b, ts[n-1]);
    }
  }

  // ----- Slots, settlement order and sizing, for candidates in entry order -----

  ghost predicate InEntryOrder(ts: seq<CandidateTrade>) {
    && (forall i, j | 0 <= i <= j < |ts| :: ts[i].entryTs <= ts[j].entryTs)
    && (forall i | 0 <= i < |ts| :: ts[i].entryTs <= ts[i].exitTs)
  }

  /** Positions of the fills that have not exited by time `t`. */
  ghost function StillHeld(fs: seq<Fill>, t: int): seq<OpenPosition> {
    if fs == [] then []
    else
      var rest := StillHeld(fs[..|fs|-1], t);
      if fs[|fs|-1].position.exitTs <= t then rest else rest + [fs[|fs|-1].position]
  }

  /** Fills that are live at time `t`: entered, and not yet exited. */
  ghost function LiveAt(fs: seq<Fill>, t: int): seq<Fill> {
    if fs == [] then []
    else
      var rest, f := LiveAt(fs[..|fs|-1], t), fs[|fs|-1];
      if f.trade.entryTs <= t < f.trade.exitTs then rest + [f] else rest
  }

  /** Result of the fills that have exited by time `t`. */
  ghost function ClosedPnl(fs: seq<Fill>, t: int): real {
    if fs == [] then 0.0
    else
      ClosedPnl(fs[..|fs|-1], t) + (if fs[|fs|-1].position.exitTs <= t then fs[|fs|-1].position.pnl else 0.0)
  }

  ghost function PnlSum(ps: seq<OpenPosition>): real {
    if ps == [] then 0.0 else PnlSum(ps[..|ps|-1]) + ps[|ps|-1].pnl
  }

  /** From `t` on, the open list is the fills that have not exited. */
  ghost predicate OpenIsHeld(b: Book, t: int) { NotDue(b.open, Some(t)) == StillHeld(b.fills, t) }

  /** From `t` on, the balance and what is due by then are the result of everything closed by then. */
  ghost predicate BalanceIsClosed(b: Book, t: int) {
    b.ledger.balance + PnlSum(Due(b.open, Some(t))) == 100.0 + ClosedPnl(b.fills, t)
  }

  lemma PnlAppend(ps: seq<OpenPosition>, p: OpenPosition)
    ensures PnlSum(ps + [p]) == PnlSum(ps) + p.pnl
  {
    assert (ps + [p])[..|ps|] == ps;
  }

  lemma DueAppend(open: seq<OpenPosition>, p: OpenPosition, t: int)
    ensures Due(open + [p], Some(t)) == if p.exitTs <= t then Due(open, Some(t)) + [p] else Due(open, Some(t))
    ensures NotDue(open + [p], Some(t)) == if p.exitTs <= t then NotDue(open, Some(t)) else NotDue(open, Some(t)) + [p]
  {
    assert (open + [p])[..|open|] == open;
  }

  lemma {:induction false} FilterTwice(open: seq<OpenPosition>, s: int, t: int)
    requires s <= t
    ensures NotDue(NotDue(open, Some(s)), Some(t)) == NotDue(open, Some(t))
    ensures PnlSum(Due(open, Some(t))) == PnlSum(Due(open, Some(s))) + PnlSum(Due(NotDue(open, Some(s)), Some(t)))
  {
    if open == [] {
    } else {
      var init, last := open[..|open|-1], open[|open|-1];
      FilterTwice(init, s, t);
      DueAppend(NotDue(init, Some(s)), last, t);
      PnlAppend(Due(init, Some(t)), last);
      PnlAppend(Due(init, Some(s)), last);
      PnlAppend(Due(NotDue(init, Some(s)), Some(t)), last);
    }
  }

  lemma {:induction false} InsertSum(p: OpenPosition, ps: seq<OpenPosition>)
    ensures PnlSum(Insert(ExitLe, p, ps)) == PnlSum(ps) + p.pnl
  {
    if ps == [] || ExitLe(ps[|ps|-1], p) {
      PnlAppend(ps, p);
    } else {
      InsertSum(p, ps[..|ps|-1]);
      PnlAppend(Insert(ExitLe, p, ps[..|ps|-1]), ps[|ps|-1]);
    }
  }

  lemma {:induction false} SortSum(ps: seq<OpenPosition>)
    ensures PnlSum(Sort(ExitLe, ps)) == PnlSum(ps)
  {
    if ps == [] {
    } else {
      SortSum(ps[..|ps|-1]);
      InsertSum(ps[|ps|-1], Sort(ExitLe, ps[..|ps|-1]));
    }
  }

  lemma {:induction false} BookAllBalance(l: Ledger, due: seq<OpenPosition>)
    ensures BookAll(l, due).balance == l.balance + PnlSum(due)
  {
    if due == [] {
    } else {
      BookAllBalance(l, due[..|due|-1]);
    }
  }

  lemma SettleKeepsHeld(b: Book, s: int, t: int)
    requires s <= t && OpenIsHeld(b, t) && BalanceIsClosed(b, t)
    ensures OpenIsHeld(Settle(b, Some(s)), t) && BalanceIsClosed(Settle(b, Some(s)), t)
  {
    FilterTwice(b.open, s, t);
    BookAllBalance(b.ledger, InExitOrder(b.open, Some(s)));
    SortSum(Due(b.open, Some(s)));
  }

  lemma OfferKeepsHeld(b: Book, trade: CandidateTrade, t: int)
    requires OpenIsHeld(b, t) && BalanceIsClosed(b, t)
    ensures OpenIsHeld(Offer(b, trade), t) && BalanceIsClosed(Offer(b, trade), t)
  {
    var position := PositionFor(b.ledger.balance, trade);
    var fill := Fill(trade, position);
    DueAppend(b.open, position, t);
    PnlAppend(Due(b.open, Some(t)), position);
    assert (b.fills + [fill])[..|b.fills|] == b.fills;
  }

  /** The time the run has reached after `n` candidates. */
  ghost predicate Reached(ts: seq<CandidateTrade>, n: nat, t: int)
    requires n <= |ts|
  {
    n > 0 ==> ts[n-1].entryTs <= t
  }

  lemma {:induction false} HeldAt(ts: seq<CandidateTrade>, bs: seq<Book>, n: nat, t: int)
    requires IsRun(ts, bs) && InEntryOrder(ts) && n <= |ts| && Reached(ts, n, t)
    ensures OpenIsHeld(bs[n], t) && BalanceIsClosed(bs[n], t)
  {
    if n == 0 {
    } else {
      HeldAt(ts, bs, n - 1, t);
      SettleKeepsHeld(bs[n-1], ts[n-1].entryTs, t);
      OfferKeepsHeld(Before(ts, bs, n - 1), ts[n-1], t);
      assert bs[n] == Step(bs[n-1], ts[n-1]);
    }
  }

  /**
   When a candidate is looked at, the open list is exactly the accepted trades that have not exited by its
   entry, and the balance it is sized on is exactly the result of those that have.
   */
  lemma BookAtEntry(ts: seq<CandidateTrade>, bs: seq<Book>, n: nat)
    requires IsRun(ts, bs) && InEntryOrder(ts) && n < |ts|
    ensures var b, t := Before(ts, bs, n), ts[n].entryTs;
            && b.open == StillHeld(b.fills, t)
            && b.ledger.balance == 100.0 + ClosedPnl(b.fills, t)
  {
    var b, t := bs[n], ts[n].entryTs;
    HeldAt(ts, bs, n, t);
    BookAllBalance(b.ledger, InExitOrder(b.open, Some(t)));
    SortSum(Due(b.open, Some(t)));
  }

  lemma {:induction false} LiveWithinHeld(fs: seq<Fill>, s: int, t: int)
    requires s <= t
    requires forall i | 0 <= i < |fs| :: fs[i].position.exitTs == fs[i].trade.exitTs
    ensures |LiveAt(fs, t)| <= |StillHeld(fs, s)|
    ensures (forall i | 0 <= i < |fs| :: fs[i].trade.entryTs <= s) ==> |LiveAt(fs, s)| == |StillHeld(fs, s)|
  {
    if fs == [] {
    } else {
      LiveWithinHeld(fs[..|fs|-1], s, t);
    }
  }

  /** Each fill carries its trade's exit, outcome and the size fixed by the trades closed at its entry. */
  ghost predicate FillSized(fs: seq<Fill>, k: nat)
    requires k < |fs|
  {
    fs[k].position == PositionFor(100.0 + ClosedPnl(fs[..k], fs[k].trade.entryTs), fs[k].trade)
  }

  ghost predicate AllSized(fs: seq<Fill>) { forall k | 0 <= k < |fs| :: FillSized(fs, k) }

  lemma SizedKeepsExit(fs: seq<Fill>)
    requires AllSized(fs)
    ensures forall k | 0 <= k < |fs| :: fs[k].position.exitTs == fs[k].trade.exitTs
  {
    forall k | 0 <= k < |fs| ensures fs[k].position.exitTs == fs[k].trade.exitTs {
      assert FillSized(fs, k);
    }
  }

  /** What one step does to the fills, in terms of the fills alone. */
  lemma StepFills(ts: seq<CandidateTrade>, bs: seq<Book>, n: nat)
    requires IsRun(ts, bs) && InEntryOrder(ts) && n < |ts|
    ensures var past, all, t := bs[n].fills, bs[n+1].fills, ts[n].entryTs;
            || all == past
            || (all == past + [Fill(ts[n], PositionFor(100.0 + ClosedPnl(past, t), ts[n]))]
                && |StillHeld(past, t)| < 2)
  {
    assert bs[n+1] == Step(bs[n], ts[n]);
    BookAtEntry(ts, bs, n);
  }

  lemma SizedAppend(fs: seq<Fill>, trade: CandidateTrade)
    requires AllSized(fs)
    ensures AllSized(fs + [Fill(trade, PositionFor(100.0 + ClosedPnl(fs, trade.entryTs), trade))])
  {
    var all := fs + [Fill(trade, PositionFor(100.0 + ClosedPnl(fs, trade.entryTs), trade))];
    forall k | 0 <= k <= |fs| ensures FillSized(all, k) {
      if k < |fs| {
        assert FillSized(fs, k) && all[..k] == fs[..k];
      } else {
        assert all[..k] == fs;
      }
    }
  }

  lemma LiveAppend(past: seq<Fill>, all: seq<Fill>, trade: CandidateTrade, t: int)
    requires AllSized(past) && |LiveAt(past, t)| <= 2
    requires |all| == |past| + 1 && all[..|past|] == past && all[|past|].trade == trade
    requires |StillHeld(past, trade.entryTs)| < 2
    ensures |LiveAt(all, t)| <= 2
  {
    SizedKeepsExit(past);
    if trade.entryTs <= t {
      LiveWithinHeld(past, trade.entryTs, t);
    }
  }

  lemma {:induction false} FillsAt(ts: seq<CandidateTrade>, bs: seq<Book>, n: nat)
    requires IsRun(ts, bs) && InEntryOrder(ts) && n <= |ts|
    ensures AllSized(bs[n].fills)
  {
    if n == 0 {
    } else {
      FillsAt(ts, bs, n - 1);
      StepFills(ts, bs, n - 1);
      SizedAppend(bs[n-1].fills, ts[n-1]);
    }
  }

  lemma {:induction false} EntriesReached(ts: seq<CandidateTrade>, bs: seq<Book>, n: nat, t: int)
    requires IsRun(ts, bs) && InEntryOrder(ts) && n <= |ts| && Reached(ts, n, t)
    ensures forall k | 0 <= k < |bs[n].fills| :: bs[n].fills[k].trade.entryTs <= t
  {
    if n == 0 {
    } else {
      EntriesReached(ts, bs, n - 1, t);
      StepFills(ts, bs, n - 1);
    }
  }

  lemma {:induction false} TwoLiveAt(ts: seq<CandidateTrade>, bs: seq<Book>, n: nat, t: int)
    requires IsRun(ts, bs) && InEntryOrder(ts) && n <= |ts|
    ensures |LiveAt(bs[n].fills, t)| <= 2
  {
    if n == 0 {
    } else {
      TwoLiveAt(ts, bs, n - 1, t);
      FillsAt(ts, bs, n - 1);
      StepFills(ts, bs, n - 1);
      if bs[n].fills != bs[n-1].fills {
        LiveAppend(bs[n-1].fills, bs[n].fills, ts[n-1], t);
      }
    }
  }

  /**
   Over the whole run, at every instant at most two accepted trades are live, and every accepted trade is
   sized on the starting balance plus exactly the trades that had exited by its entry.
   */
  lemma SlotsAndSizing(ts: seq<CandidateTrade>, bs: seq<Book>)
    requires IsRun(ts, bs) && InEntryOrder(ts)
    ensures var fs := Complete(bs).fills;
            && (forall t :: |LiveAt(fs, t)| <= 2)
            && AllSized(fs)
  {
    forall t ensures |LiveAt(Complete(bs).fills, t)| <= 2 {
      TwoLiveAt(ts, bs, |ts|, t);
    }
    FillsAt(ts, bs, |ts|);
  }

  /** A candidate is turned away for lack of a slot exactly when two accepted trades are live at its entry. */
  lemma FullMeansTwoLive(ts: seq<CandidateTrade>, bs: seq<Book>, n: nat)
    requires IsRun(ts, bs) && InEntryOrder(ts) && n < |ts|
    ensures var b := Before(ts, bs, n);
            DecisionOn(ts, bs, n) ==
              if b.gate.skipSignals > 0 then Cooldown
              else if |LiveAt(b.fills, ts[n].entryTs)| == 2 then SlotsFull
              else Accepted
  {
    var b, t := Before(ts, bs, n), ts[n].entryTs;
    BookAtEntry(ts, bs, n);
    FillsAt(ts, bs, n);
    EntriesReached(ts, bs, n, t);
    SizedKeepsExit(b.fills);
    GateAt(ts, bs, n);
    SettleGate(bs[n], Some(t));
    LiveWithinHeld(b.fills, t, t);
  }

  // ----- Settlement order -----

  ghost predicate ExitsInOrder(ps: seq<OpenPosition>) {
    forall i, j | 0 <= i <= j < |ps| :: ps[i].exitTs <= ps[j].exitTs
  }

  /** `t` separates what has been settled from what is open. */
  ghost predicate Separates(b: Book, t: int) {
    && (forall p | p in b.ledger.settled :: p.exitTs <= t)
    && (forall p | p in b.open :: t <= p.exitTs)
  }

  lemma DueInOrder(open: seq<OpenPosition>, until: Option<int>)
    ensures ExitsInOrder(InExitOrder(open, until))
  {
    var due := InExitOrder(open, until);
    SortSorts(ExitLe, Due(open, until));
    forall i, j | 0 <= i <= j < |due| ensures due[i].exitTs <= due[j].exitTs {
      if i < j {
        assert ExitLe(due[i], due[j]);
      }
    }
  }

  lemma {:induction false} FilterMembers(open: seq<OpenPosition>, until: Option<int>)
    ensures forall p | p in Due(open, until) :: p in open && IsDue(p, until)
    ensures forall p | p in NotDue(open, until) :: p in open && !IsDue(p, until)
  {
    if open == [] {
    } else {
      FilterMembers(open[..|open|-1], until);
    }
  }

  lemma DueMembers(open: seq<OpenPosition>, until: Option<int>)
    ensures forall p | p in InExitOrder(open, until) :: p in open && IsDue(p, until)
  {
    var due := InExitOrder(open, until);
    SortContents(ExitLe, Due(open, until));
    FilterMembers(open, until);
    forall p | p in due ensures p in Due(open, until) {
      assert p in multiset(due);
    }
  }

  lemma JoinInOrder(past: seq<OpenPosition>, due: seq<OpenPosition>, t: int)
    requires ExitsInOrder(past) && ExitsInOrder(due)
    requires (forall p | p in past :: p.exitTs <= t) && (forall p | p in due :: t <= p.exitTs)
    ensures ExitsInOrder(past + due)
  {
    var all := past + due;
    forall i, j | 0 <= i <= j < |all| ensures all[i].exitTs <= all[j].exitTs {
      if i < |past| <= j {
        assert all[i] in past && all[j] in due;
      }
    }
  }

  lemma SettleInOrder(b: Book, until: Option<int>, t: int)
    requires ExitsInOrder(b.ledger.settled) && Separates(b, t)
    ensures ExitsInOrder(Settle(b, until).ledger.settled)
    ensures until.Some? && t <= until.value ==> Separates(Settle(b, until), until.value)
  {
    BookAllHistory(b.ledger, InExitOrder(b.open, until));
    DueMembers(b.open, until);
    DueInOrder(b.open, until);
    FilterMembers(b.open, until);
    JoinInOrder(b.ledger.settled, InExitOrder(b.open, until), t);
  }

  /** The entry the run has reached after `n` candidates. */
  ghost function LastEntry(ts: seq<CandidateTrade>, n: nat): int
    requires n <= |ts|
  {
    if ts == [] then 0 else if n == 0 then ts[0].entryTs else ts[n-1].entryTs
  }

  lemma OfferSeparates(b: Book, trade: CandidateTrade)
    requires Separates(b, trade.entryTs) && trade.entryTs <= trade.exitTs
    ensures Separates(Offer(b, trade), trade.entryTs)
  {
  }

  lemma {:induction false} OrderAt(ts: seq<CandidateTrade>, bs: seq<Book>, n: nat)
    requires IsRun(ts, bs) && InEntryOrder(ts) && n <= |ts|
    ensures ExitsInOrder(bs[n].ledger.settled) && Separates(bs[n], LastEntry(ts, n))
  {
    if n == 0 {
    } else {
      OrderAt(ts, bs, n - 1);
      SettleInOrder(bs[n-1], Some(ts[n-1].entryTs), LastEntry(ts, n - 1));
      OfferSeparates(Before(ts, bs, n - 1), ts[n-1]);
    }
  }

  /** Across all settlements of a run the exits are booked in time order. */
  lemma SettledInTimeOrder(ts: seq<CandidateTrade>, bs: seq<Book>)
    requires IsRun(ts, bs) && InEntryOrder(ts)
    ensures ExitsInOrder(Complete(bs).ledger.settled)
  {
    OrderAt(ts, bs, |ts|);
    SettleInOrder(bs[|ts|], None, LastEntry(ts, |ts|));
  }

  // ----- Drawdown of a run -----

  /**
   The drawdown a run reports is the worst loss between any two points of its curve exactly if the curve's
   negative points, should there be any, are outdone; a run that never goes negative has none.
   */
  lemma RunDrawdown(ts: seq<CandidateTrade>, bs: seq<Book>, r: SimResult)
    requires IsRun(ts, bs) && Reports(Complete(bs).ledger, r)
    ensures var curve := Complete(bs).ledger.equity;
            && (IsWorstPair(curve, r.maxDrawdownPct) <==> NegativesOutdone(curve))
            && ((forall k | 0 <= k < |curve| :: curve[k] >= 0.0) ==> NegativesOutdone(curve))
  {
    OnePassIsWorstPairExactly(Complete(bs).ledger.equity, r.maxDrawdownPct);
  }

  // ----- From candles to position size -----

  /** The fraction of the balance a trade moves the account by. */
  function AccountFraction(trade: CandidateTrade): real {
    trade.leverage as real * (trade.grossReturnPct - 0.1) / 1000.0
  }

  lemma LeverageInRange(sym: Symbol, df: seq<Candle>, idx: nat, d: Direction, hold: nat, t: Option<CandidateTrade>)
    requires CandidateExplains(sym, df, idx, d, hold, t) && t.Some?
    ensures 1 <= t.value.leverage <= 3
  {
    hide WalkExit, GrossPct, Vol24hPct;
  }

  lemma RegroupFraction(balance: real, lev: real, net: real)
    ensures balance * POSITION_FRACTION * lev * net / 100.0 == balance * (lev * net / 1000.0)
  {
    var x := lev * net;
    assert balance * POSITION_FRACTION * lev * net == balance * x * 0.1 by {
      assert balance * lev * net == balance * (lev * net);
    }
  }

  lemma FractionBounds(balance: real, trade: CandidateTrade)
    requires 1 <= trade.leverage <= 3 && -2.0 <= trade.grossReturnPct <= 3.0
    ensures SizedPnl(balance, trade) == balance * AccountFraction(trade)
    ensures -0.0063 <= AccountFraction(trade) <= 0.0087
    ensures trade.grossReturnPct <= 0.0 ==> AccountFraction(trade) < 0.0
    ensures trade.grossReturnPct > 0.1 ==> AccountFraction(trade) > 0.0
  {
    var lev, net := trade.leverage as real, trade.grossReturnPct - ROUND_TRIP_COST_PCT;
    RegroupFraction(balance, lev, net);
    assert lev == 1.0 || lev == 2.0 || lev == 3.0;
  }

  /**
   A candidate built from valid candles moves the account by a fixed fraction, between -0.63% and +0.87%, of
   whatever balance it is sized on; the fraction is negative for a stop and positive for a target.
   */
  lemma PositionBounded(sym: Symbol, df: seq<Candle>, idx: nat, d: Direction, hold: nat,
                        t: Option<CandidateTrade>, balance: real)
    requires ValidCandles(df) && hold >= 1
    requires CandidateExplains(sym, df, idx, d, hold, t) && t.Some?
    ensures var x := AccountFraction(t.value);
            && PositionFor(balance, t.value).pnl == balance * x
            && -0.0063 <= x <= 0.0087
            && (t.value.outcome == SL ==> x < 0.0) && (t.value.outcome == TP ==> x > 0.0)
  {
    hide CandidateExplains;
    LeverageInRange(sym, df, idx, d, hold, t);
    GrossBounds(sym, df, idx, d, hold, t);
    FractionBounds(balance, t.value);
  }

  // ----- What each settlement was sized on -----

  /** A settlement that was sized on point `s` of the curve, for one of the candidates. */
  ghost predicate SizedOn(ts: seq<CandidateTrade>, curve: seq<real>, s: nat, p: OpenPosition) {
    s < |curve| && exists k | 0 <= k < |ts| :: p == PositionFor(curve[s], ts[k])
  }

  /** It was sized on one of the points `from` to `to`. */
  ghost predicate SizedBetween(ts: seq<CandidateTrade>, curve: seq<real>, from: int, to: int, p: OpenPosition) {
    exists s: nat | from <= s <= to :: SizedOn(ts, curve, s, p)
  }

  /** Each settlement was sized on the balance of at most `lag` settlements before it. */
  ghost predicate SizedWithin(ts: seq<CandidateTrade>, l: Ledger, lag: nat) {
    forall i | 0 <= i < |l.settled| :: SizedBetween(ts, l.equity, i - lag, i, l.settled[i])
  }

  /** Every position, open or settled, was sized on a balance of the curve so far. */
  ghost predicate PositionsSized(ts: seq<CandidateTrade>, b: Book) {
    && |b.ledger.equity| == |b.ledger.settled| + 1
    && b.ledger.equity[|b.ledger.settled|] == b.ledger.balance
    && (forall p | p in b.open :: SizedBetween(ts, b.ledger.equity, 0, |b.ledger.settled|, p))
    && SizedWithin(ts, b.ledger, |b.ledger.settled|)
  }

  lemma SizedLonger(ts: seq<CandidateTrade>, curve: seq<real>, longer: seq<real>, from: int, to: int,
                    from': int, to': int, p: OpenPosition)
    requires curve <= longer && from' <= from && to <= to' && SizedBetween(ts, curve, from, to, p)
    ensures SizedBetween(ts, longer, from', to', p)
  {
    var s: nat :| from <= s <= to && SizedOn(ts, curve, s, p);
    assert longer[s] == curve[s];
    assert SizedOn(ts, longer, s, p);
  }

  lemma BookOneSized(ts: seq<CandidateTrade>, m: Ledger, p: OpenPosition)
    requires |m.equity| == |m.settled| + 1 && SizedWithin(ts, m, |m.settled|)
    requires SizedBetween(ts, m.equity, 0, |m.settled|, p)
    ensures var n := Book1(m, p); m.equity <= n.equity && SizedWithin(ts, n, |n.settled|)
  {
    hide SizedBetween;
    var n := Book1(m, p);
    forall i | 0 <= i < |n.settled| ensures SizedBetween(ts, n.equity, i - |n.settled|, i, n.settled[i]) {
      if i < |m.settled| {
        SizedLonger(ts, m.equity, n.equity, i - |m.settled|, i, i - |n.settled|, i, m.settled[i]);
      } else {
        SizedLonger(ts, m.equity, n.equity, 0, |m.settled|, i - |n.settled|, i, p);
      }
    }
  }

  /** The due positions are booked one after another, each sized on a balance no later than its own settlement. */
  lemma {:induction false} BookAllSized(ts: seq<CandidateTrade>, l: Ledger, due: seq<OpenPosition>)
    requires |l.equity| == |l.settled| + 1 && SizedWithin(ts, l, |l.settled|)
    requires forall p | p in due :: SizedBetween(ts, l.equity, 0, |l.settled|, p)
    requires l.equity[|l.settled|] == l.balance
    ensures var m := BookAll(l, due);
            && l.equity <= m.equity && |l.settled| <= |m.settled| && |m.equity| == |m.settled| + 1
            && SizedWithin(ts, m, |m.settled|) && m.equity[|m.settled|] == m.balance
  {
    hide SizedBetween, SizedWithin;
    if due == [] {
    } else {
      var init, p := due[..|due|-1], due[|due|-1];
      assert p in due && forall q | q in init :: q in due;
      BookAllSized(ts, l, init);
      var m := BookAll(l, init);
      SizedLonger(ts, l.equity, m.equity, 0, |l.settled|, 0, |m.settled|, p);
      BookOneSized(ts, m, p);
    }
  }

  lemma SettleSized(ts: seq<CandidateTrade>, b: Book, until: Option<int>)
    requires PositionsSized(ts, b)
    ensures PositionsSized(ts, Settle(b, until))
  {
    hide SizedBetween, SizedWithin, BookAll, InExitOrder, NotDue, IsDue;
    DueMembers(b.open, until);
    FilterMembers(b.open, until);
    BookAllSized(ts, b.ledger, InExitOrder(b.open, until));
    var c := Settle(b, until);
    forall p | p in c.open ensures SizedBetween(ts, c.ledger.equity, 0, |c.ledger.settled|, p) {
      SizedLonger(ts, b.ledger.equity, c.ledger.equity, 0, |b.ledger.settled|, 0, |c.ledger.settled|, p);
    }
  }

  lemma OfferSized(ts: seq<CandidateTrade>, b: Book, k: nat)
    requires PositionsSized(ts, b) && k < |ts|
    ensures PositionsSized(ts, Offer(b, ts[k]))
  {
    hide SizedWithin, PositionFor;
    var now := PositionFor(b.ledger.balance, ts[k]);
    assert SizedOn(ts, b.ledger.equity, |b.ledger.settled|, now);
    assert SizedBetween(ts, b.ledger.equity, 0, |b.ledger.settled|, now);
  }

  lemma {:induction false} SizedAt(ts: seq<CandidateTrade>, bs: seq<Book>, n: nat)
    requires IsRun(ts, bs) && n <= |ts|
    ensures PositionsSized(ts, bs[n])
  {
    hide Settle, Offer, SizedBetween;
    if n == 0 {
    } else {
      SizedAt(ts, bs, n - 1);
      SettleSized(ts, bs[n-1], Some(ts[n-1].entryTs));
      OfferSized(ts, Before(ts, bs, n - 1), n - 1);
      assert bs[n] == Step(bs[n-1], ts[n-1]);
    }
  }

  /** In every run each settlement was sized on some balance of the curve before it. */
  lemma RunIsSized(ts: seq<CandidateTrade>, bs: seq<Book>)
    requires IsRun(ts, bs)
    ensures SizedWithin(ts, Complete(bs).ledger, |Complete(bs).ledger.settled|)
  {
    hide Settle, SizedWithin;
    SizedAt(ts, bs, |ts|);
    SettleSized(ts, bs[|ts|], None);
  }
}
