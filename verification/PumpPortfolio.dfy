/**
 The pump portfolio: two concurrent slots, settlement deferred to the next candidate, and a cool-down of five
 signals after three stops in a row.  `PumpSimulation` is the simulator with its mutable state; `IsRun` relates
 it to the history its steps must produce.
 */
module PumpPortfolio {
  import opened Market
  import opened Sorting
  import opened PumpWalk
  import opened Drawdown

  const INITIAL_BALANCE: real := 100.0
  const POSITION_FRACTION: real := 0.10
  const ROUND_TRIP_COST_PCT: real := 0.10
  const MAX_CONCURRENT_POSITIONS: nat := 2
  const SKIP_AFTER_3_STOPS: nat := 5

  datatype OpenPosition = OpenPosition(exitTs: int, pnl: real, outcome: Outcome)

  /** What became of a candidate. */
  datatype Decision = Cooldown | SlotsFull | Accepted

  /** An accepted candidate and the position opened for it. */
  datatype Fill = Fill(trade: CandidateTrade, position: OpenPosition)

  datatype Counts = Counts(tp: nat, sl: nat, time: nat)

  /** The money side of the simulator; `settled` is its history. */
  datatype Ledger = Ledger(balance: real, equity: seq<real>, profits: seq<real>, losses: seq<real>,
                           counts: Counts, settled: seq<OpenPosition>)

  /** The cool-down side; `arms` counts how often it was armed. */
  datatype Gate = Gate(stopStreak: nat, skipSignals: nat, arms: nat)

  /** The whole simulator; `fills` and `decisions` are its history. */
  datatype Book = Book(ledger: Ledger, gate: Gate, open: seq<OpenPosition>, fills: seq<Fill>,
                       decisions: seq<Decision>)

  // ----- One settlement, one candidate -----

  predicate ExitLe(a: OpenPosition, b: OpenPosition) { a.exitTs <= b.exitTs }

  predicate IsDue(p: OpenPosition, until: Option<int>) { until.None? || p.exitTs <= until.value }

  function Due(open: seq<OpenPosition>, until: Option<int>): seq<OpenPosition> {
    if open == [] then []
    else
      var rest := Due(open[..|open|-1], until);
      if IsDue(open[|open|-1], until) then rest + [open[|open|-1]] else rest
  }

  function NotDue(open: seq<OpenPosition>, until: Option<int>): seq<OpenPosition> {
    if open == [] then []
    else
      var rest := NotDue(open[..|open|-1], until);
      if IsDue(open[|open|-1], until) then rest else rest + [open[|open|-1]]
  }

  function CountOne(c: Counts, o: Outcome): Counts {
    match o
    case TP => c.(tp := c.tp + 1)
    case SL => c.(sl := c.sl + 1)
    case TIME => c.(time := c.time + 1)
  }

  ghost function Book1(l: Ledger, p: OpenPosition): Ledger {
    Ledger(
      l.balance + p.pnl,
      l.equity + [l.balance + p.pnl],
      if p.pnl >= 0.0 then l.profits + [p.pnl] else l.profits,
      if p.pnl >= 0.0 then l.losses else l.losses + [-p.pnl],
      CountOne(l.counts, p.outcome),
      l.settled + [p])
  }

  ghost function Gate1(g: Gate, p: OpenPosition): Gate {
    if !p.outcome.SL? then g.(stopStreak := 0)
    else if g.stopStreak + 1 >= 3 then Gate(0, SKIP_AFTER_3_STOPS, g.arms + 1)
    else g.(stopStreak := g.stopStreak + 1)
  }

  ghost function BookAll(l: Ledger, due: seq<OpenPosition>): Ledger {
    if due == [] then l else Book1(BookAll(l, due[..|due|-1]), due[|due|-1])
  }

  ghost function GateAll(g: Gate, due: seq<OpenPosition>): Gate {
    if due == [] then g else Gate1(GateAll(g, due[..|due|-1]), due[|due|-1])
  }

  function InExitOrder(open: seq<OpenPosition>, until: Option<int>): seq<OpenPosition> {
    Sort(ExitLe, Due(open, until))
  }

  ghost function Settle(b: Book, until: Option<int>): Book {
    var due := InExitOrder(b.open, until);
    Book(BookAll(b.ledger, due), GateAll(b.gate, due), NotDue(b.open, until), b.fills, b.decisions)
  }

  function SizedPnl(balance: real, trade: CandidateTrade): real {
    balance * POSITION_FRACTION * trade.leverage as real * (trade.grossReturnPct - ROUND_TRIP_COST_PCT) / 100.0
  }

  function PositionFor(balance: real, trade: CandidateTrade): OpenPosition {
    OpenPosition(trade.exitTs, SizedPnl(balance, trade), trade.outcome)
  }

  /** The fate of a candidate once everything due at its entry has been settled. */
  ghost function Decide(g: Gate, slotsTaken: nat): Decision {
    if g.skipSignals > 0 then Cooldown
    else if slotsTaken >= MAX_CONCURRENT_POSITIONS then SlotsFull
    else Accepted
  }

  ghost function Offer(b: Book, trade: CandidateTrade): Book {
    var d := Decide(b.gate, |b.open|);
    var position := PositionFor(b.ledger.balance, trade);
    Book(
      b.ledger,
      if d.Cooldown? then b.gate.(skipSignals := b.gate.skipSignals - 1) else b.gate,
      if d.Accepted? then b.open + [position] else b.open,
      if d.Accepted? then b.fills + [Fill(trade, position)] else b.fills,
      b.decisions + [d])
  }

  ghost function Step(b: Book, trade: CandidateTrade): Book {
    Offer(Settle(b, Some(trade.entryTs)), trade)
  }

  /** The book before the first candidate. */
  ghost predicate Fresh(b: Book) {
    && b.ledger.balance == INITIAL_BALANCE && b.ledger.equity == [b.ledger.balance]
    && b.ledger.profits == [] && b.ledger.losses == [] && b.ledger.settled == []
    && b.ledger.counts.tp == 0 && b.ledger.counts.sl == 0 && b.ledger.counts.time == 0
    && b.gate.stopStreak == 0 && b.gate.skipSignals == 0 && b.gate.arms == 0
    && b.open == [] && b.fills == [] && b.decisions == []
  }

  /** `bs` is the history of the run: `bs[n]` is the book after the first `n` candidates. */
  ghost predicate IsRun(ts: seq<CandidateTrade>, bs: seq<Book>) {
    && |bs| == |ts| + 1
    && Fresh(bs[0])
    && forall n {:trigger ts[n]} | 0 <= n < |ts| :: bs[n+1] == Step(bs[n], ts[n])
  }

  const FRESH_BOOK: Book :=
    Book(Ledger(INITIAL_BALANCE, [INITIAL_BALANCE], [], [], Counts(0, 0, 0), []), Gate(0, 0, 0), [], [], [])

  /** The book after the first `n` candidates. */
  ghost function BookAfter(ts: seq<CandidateTrade>, n: nat): Book
    requires n <= |ts|
  {
    if n == 0 then FRESH_BOOK else Step(BookAfter(ts, n - 1), ts[n-1])
  }

  ghost function RunOf(ts: seq<CandidateTrade>): seq<Book> {
    seq(|ts| + 1, n requires 0 <= n <= |ts| => BookAfter(ts, n))
  }

  lemma {:induction false} RunReaches(ts: seq<CandidateTrade>, bs: seq<Book>, n: nat)
    requires IsRun(ts, bs) && n <= |ts|
    ensures bs[n] == BookAfter(ts, n)
  {
    hide Step;
    if n == 0 {
    } else {
      RunReaches(ts, bs, n - 1);
      assert bs[n] == Step(bs[n-1], ts[n-1]);
    }
  }

  /** A list of candidates has exactly one run. */
  lemma RunIsUnique(ts: seq<CandidateTrade>, bs: seq<Book>)
    ensures IsRun(ts, bs) <==> bs == RunOf(ts)
  {
    hide Step;
    if IsRun(ts, bs) {
      forall n | 0 <= n <= |ts| ensures bs[n] == RunOf(ts)[n] {
        RunReaches(ts, bs, n);
      }
    }
  }

  /** The book at the moment candidate `n` is looked at, everything due settled. */
  ghost function Before(ts: seq<CandidateTrade>, bs: seq<Book>, n: nat): Book
    requires n < |ts| && n < |bs|
  {
    Settle(bs[n], Some(ts[n].entryTs))
  }

  /** The book once every remaining position has been closed. */
  ghost function Complete(bs: seq<Book>): Book
    requires bs != []
  {
    Settle(bs[|bs|-1], None)
  }

  // ----- Report -----

  ghost function Sum(s: seq<real>): real {
    if s == [] then 0.0 else Sum(s[..|s|-1]) + s[|s|-1]
  }

  datatype SimResult = SimResult(
    finalBalance: real, pnlPct: real, maxDrawdownPct: real, profitFactor: Option<real>,
    winRatePct: real, timeRatePct: real, tpRatePct: real, slRatePct: real, nTrades: nat)

  function RatePct(part: nat, whole: nat): real {
    if whole == 0 then 0.0 else part as real / whole as real * 100.0
  }

  /** `None` as profit factor stands for infinity. */
  ghost predicate Reports(l: Ledger, r: SimResult) {
    var n := l.counts.tp + l.counts.sl + l.counts.time;
    && r.finalBalance == l.balance
    && r.pnlPct == (l.balance - INITIAL_BALANCE) / INITIAL_BALANCE * 100.0
    && IsWorstDrop(l.equity, |l.equity|, r.maxDrawdownPct)
    && (l.losses == [] ==> r.profitFactor.None?)
    && (l.losses != [] && Sum(l.losses) != 0.0 ==> r.profitFactor == Some(Sum(l.profits) / Sum(l.losses)))
    && r.nTrades == n
    && r.winRatePct == RatePct(l.counts.tp, l.counts.tp + l.counts.sl)
    && r.tpRatePct == RatePct(l.counts.tp, n)
    && r.slRatePct == RatePct(l.counts.sl, n)
    && r.timeRatePct == RatePct(l.counts.time, n)
  }

  // ----- The simulator -----

  method SumOf(s: seq<real>) returns (total: real)
    ensures total == Sum(s)
  {
    total := 0.0;
    for i := 0 to |s|
      invariant total == Sum(s[..i])
    {
      assert s[..i+1][..i] == s[..i];
      total := total + s[i];
    }
    assert s[..|s|] == s;
  }

  lemma {:induction false} NothingOpenAfterAll(open: seq<OpenPosition>)
    ensures NotDue(open, None) == [] && Due(open, None) == open
  {
    if open == [] {
    } else {
      NothingOpenAfterAll(open[..|open|-1]);
      assert open == open[..|open|-1] + [open[|open|-1]];
    }
  }

  class PumpSimulation {
    var balance: real
    var equityCurve: seq<real>
    var openPositions: seq<OpenPosition>
    var profits: seq<real>
    var losses: seq<real>
    var stopStreak: nat
    var skipSignals: nat
    var counts: Counts
    ghost var fills: seq<Fill>
    ghost var settled: seq<OpenPosition>
    ghost var decisions: seq<Decision>
    ghost var arms: nat

    ghost function LedgerView(): Ledger
      reads this
    {
      Ledger(balance, equityCurve, profits, losses, counts, settled)
    }

    ghost function GateView(): Gate
      reads this
    {
      Gate(stopStreak, skipSignals, arms)
    }

    ghost function View(): Book
      reads this
    {
      Book(LedgerView(), GateView(), openPositions, fills, decisions)
    }

    constructor ()
      ensures Fresh(View())
    {
      balance, equityCurve, openPositions := INITIAL_BALANCE, [INITIAL_BALANCE], [];
      profits, losses, stopStreak, skipSignals := [], [], 0, 0;
      counts := Counts(0, 0, 0);
      fills, settled, decisions, arms := [], [], [], 0;
    }

    /** One turn of the settlement loop. */
    method SettlePosition(position: OpenPosition)
      modifies this
      ensures LedgerView() == Book1(old(LedgerView()), position)
      ensures GateView() == Gate1(old(GateView()), position)
      ensures openPositions == old(openPositions) && fills == old(fills) && decisions == old(decisions)
    {
      hide Gate1;
      balance := balance + position.pnl;
      equityCurve := equityCurve + [balance];
      counts := CountOne(counts, position.outcome);
      if position.pnl >= 0.0 {
        profits := profits + [position.pnl];
      } else {
        losses := losses + [-position.pnl];
      }
      settled := settled + [position];
      assert LedgerView() == Book1(old(LedgerView()), position);
      NoteOutcome(position);
    }

    method NoteOutcome(position: OpenPosition)
      modifies `stopStreak, `skipSignals, `arms
      ensures GateView() == Gate1(old(GateView()), position)
    {
      if position.outcome.SL? {
        stopStreak := stopStreak + 1;
        if stopStreak >= 3 {
          skipSignals := SKIP_AFTER_3_STOPS;
          stopStreak := 0;
          arms := arms + 1;
        }
      } else {
        stopStreak := 0;
      }
    }

    method SettlePositions(until: Option<int>)
      modifies this
      ensures View() == Settle(old(View()), until)
    {
      hide Book1, Gate1, InExitOrder, NotDue;
      var toSettle := InExitOrder(openPositions, until);
      var stillOpen := if until.Some? then NotDue(openPositions, until) else [];
      NothingOpenAfterAll(openPositions);
      for i := 0 to |toSettle|
        invariant LedgerView() == BookAll(old(LedgerView()), toSettle[..i])
        invariant GateView() == GateAll(old(GateView()), toSettle[..i])
        invariant openPositions == old(openPositions) && fills == old(fills) && decisions == old(decisions)
      {
        assert toSettle[..i+1][..i] == toSettle[..i];
        SettlePosition(toSettle[i]);
      }
      assert toSettle[..|toSettle|] == toSettle;
      openPositions := stillOpen;
    }

    method Consider(trade: CandidateTrade)
      modifies this
      ensures View() == Step(old(View()), trade)
    {
      hide Settle;
      SettlePositions(Some(trade.entryTs));
      decisions := decisions + [Decide(GateView(), |openPositions|)];
      if skipSignals > 0 {
        skipSignals := skipSignals - 1;
        return;
      }
      if |openPositions| >= MAX_CONCURRENT_POSITIONS {
        return;
      }
      var margin := balance * POSITION_FRACTION;
      var netReturnPct := trade.grossReturnPct - ROUND_TRIP_COST_PCT;
      var pnl := margin * trade.leverage as real * netReturnPct / 100.0;
      assert pnl == SizedPnl(balance, trade);
      var position := OpenPosition(trade.exitTs, pnl, trade.outcome);
      openPositions := openPositions + [position];
      fills := fills + [Fill(trade, position)];
    }

    method Report() returns (r: SimResult)
      requires equityCurve != []
      requires losses != [] ==> Sum(losses) != 0.0
      ensures Reports(LedgerView(), r)
    {
      var total := counts.tp + counts.sl + counts.time;
      var won := SumOf(profits);
      var lost := SumOf(losses);
      var factor := if losses != [] then Some(won / lost) else None;
      var dd := MaxDrawdownPct(equityCurve);
      r := SimResult(
        balance, (balance - INITIAL_BALANCE) / INITIAL_BALANCE * 100.0, dd, factor,
        RatePct(counts.tp, counts.tp + counts.sl),
        RatePct(counts.time, total), RatePct(counts.tp, total), RatePct(counts.sl, total), total);
    }
  }

  lemma FreshIsUnique(b: Book)
    ensures Fresh(b) <==> b == FRESH_BOOK
  {
  }

  ghost predicate AllPositive(s: seq<real>) { forall k | 0 <= k < |s| :: s[k] > 0.0 }

  ghost function Account(profits: seq<real>, losses: seq<real>): real {
    100.0 + Sum(profits) - Sum(losses)
  }

  /** The balance is the starting balance plus profits less losses. */
  ghost predicate MoneyAdds(l: Ledger) {
    && l.balance == Account(l.profits, l.losses)
    && AllPositive(l.losses)
  }

  /** One curve point per settlement, each moving the balance by that position's result. */
  ghost predicate CurveRecords(l: Ledger) {
    && |l.equity| == |l.settled| + 1
    && l.equity[0] == 100.0
    && l.equity[|l.settled|] == l.balance
    && forall i {:trigger l.settled[i]} | 0 <= i < |l.settled| :: l.equity[i+1] == l.equity[i] + l.settled[i].pnl
  }

  ghost function CountOf(ps: seq<OpenPosition>, o: Outcome): nat {
    if ps == [] then 0 else CountOf(ps[..|ps|-1], o) + (if ps[|ps|-1].outcome == o then 1 else 0)
  }

  ghost predicate CountsMatch(l: Ledger) {
    && l.counts.tp == CountOf(l.settled, TP)
    && l.counts.sl == CountOf(l.settled, SL)
    && l.counts.time == CountOf(l.settled, TIME)
    && l.counts.tp + l.counts.sl + l.counts.time == |l.settled|
  }

  ghost predicate Sound(l: Ledger) { MoneyAdds(l) && CurveRecords(l) && CountsMatch(l) }

  ghost function Positions(fs: seq<Fill>): seq<OpenPosition> {
    if fs == [] then [] else Positions(fs[..|fs|-1]) + [fs[|fs|-1].position]
  }

  lemma {:induction false} DueSplit(open: seq<OpenPosition>, until: Option<int>)
    ensures multiset(Due(open, until)) + multiset(NotDue(open, until)) == multiset(open)
    ensures |Due(open, until)| + |NotDue(open, until)| == |open|
    ensures forall p | p in Due(open, until) :: IsDue(p, until)
    ensures forall p | p in NotDue(open, until) :: !IsDue(p, until)
  {
    hide IsDue;
    if open == [] {
    } else {
      var init := open[..|open|-1];
      DueSplit(init, until);
      assert open == init + [open[|open|-1]];
    }
  }

  /** Every accepted position is either open or has been settled, once. */
  ghost predicate NothingLost(b: Book) {
    multiset(b.open) + multiset(b.ledger.settled) == multiset(Positions(b.fills))
  }

  lemma SumAppend(s: seq<real>, x: real)
    ensures Sum(s + [x]) == Sum(s) + x
  {
    assert (s + [x])[..|s|] == s;
  }

  lemma AccountStep(profits: seq<real>, losses: seq<real>, pnl: real)
    ensures Account(profits + [pnl], losses) == Account(profits, losses) + pnl
    ensures Account(profits, losses + [-pnl]) == Account(profits, losses) + pnl
  {
    SumAppend(profits, pnl);
    SumAppend(losses, -pnl);
  }

  lemma MoneyStep(l: Ledger, p: OpenPosition)
    requires MoneyAdds(l)
    ensures MoneyAdds(Book1(l, p))
  {
    hide Sum;
    hide Account;
    AccountStep(l.profits, l.losses, p.pnl);
  }

  lemma CurveStep(l: Ledger, p: OpenPosition)
    requires CurveRecords(l)
    ensures CurveRecords(Book1(l, p))
  {
  }

  lemma CountsStep(l: Ledger, p: OpenPosition)
    requires CountsMatch(l)
    ensures CountsMatch(Book1(l, p))
  {
    assert (l.settled + [p])[..|l.settled|] == l.settled;
  }

  lemma StepSound(l: Ledger, p: OpenPosition)
    requires Sound(l)
    ensures Sound(Book1(l, p))
  {
    MoneyStep(l, p);
    CurveStep(l, p);
    CountsStep(l, p);
  }

  lemma {:induction false} BookAllSound(l: Ledger, due: seq<OpenPosition>)
    requires Sound(l)
    ensures Sound(BookAll(l, due))
  {
    if due == [] {
    } else {
      BookAllSound(l, due[..|due|-1]);
      StepSound(BookAll(l, due[..|due|-1]), due[|due|-1]);
    }
  }

  lemma {:induction false} BookAllHistory(l: Ledger, due: seq<OpenPosition>)
    ensures BookAll(l, due).settled == l.settled + due
  {
    if due == [] {
    } else {
      BookAllHistory(l, due[..|due|-1]);
      assert due == due[..|due|-1] + [due[|due|-1]];
    }
  }

  /** A settlement moves the due positions, in exit order, from the open list to the history. */
  lemma SettleSound(b: Book, until: Option<int>)
    requires Sound(b.ledger) && NothingLost(b)
    ensures var b' := Settle(b, until);
            && Sound(b'.ledger) && NothingLost(b')
            && b'.ledger.settled == b.ledger.settled + InExitOrder(b.open, until)
  {
    BookAllSound(b.ledger, InExitOrder(b.open, until));
    BookAllHistory(b.ledger, InExitOrder(b.open, until));
    SortContents(ExitLe, Due(b.open, until));
    DueSplit(b.open, until);
  }

  lemma OfferLosesNothing(b: Book, trade: CandidateTrade)
    requires NothingLost(b)
    ensures NothingLost(Offer(b, trade))
  {
    var position := PositionFor(b.ledger.balance, trade);
    assert (b.fills + [Fill(trade, position)])[..|b.fills|] == b.fills;
  }

  lemma {:induction false} LedgerAt(ts: seq<CandidateTrade>, bs: seq<Book>, n: nat)
    requires IsRun(ts, bs) && n <= |ts|
    ensures Sound(bs[n].ledger) && NothingLost(bs[n])
  {
    if n == 0 {
    } else {
      LedgerAt(ts, bs, n - 1);
      SettleSound(bs[n-1], Some(ts[n-1].entryTs));
      OfferLosesNothing(Before(ts, bs, n - 1), ts[n-1]);
    }
  }

  lemma {:induction false} SumPositive(s: seq<real>)
    requires AllPositive(s)
    ensures Sum(s) >= 0.0 && (s != [] ==> Sum(s) > 0.0)
  {
    if s == [] {
    } else {
      SumPositive(s[..|s|-1]);
    }
  }

  /**
   At the end the balance is the starting balance plus profits less losses, the curve has one point per
   settlement, and every accepted trade has been settled exactly once.
   */
  lemma LedgerOfRun(ts: seq<CandidateTrade>, bs: seq<Book>)
    requires IsRun(ts, bs)
    ensures var b := Complete(bs);
            && Sound(b.ledger)
            && b.open == []
            && multiset(b.ledger.settled) == multiset(Positions(b.fills))
            && (b.ledger.losses != [] ==> Sum(b.ledger.losses) > 0.0)
  {
    LedgerAt(ts, bs, |ts|);
    SettleSound(bs[|ts|], None);
    NothingOpenAfterAll(bs[|ts|].open);
    SumPositive(Complete(bs).ledger.losses);
  }

  /** What the report divides by is there: a starting point on the curve, and losses that add up to something. */
  lemma CompleteReportable(ts: seq<CandidateTrade>, bs: seq<Book>)
    requires IsRun(ts, bs)
    ensures var l := Complete(bs).ledger; l.equity != [] && (l.losses != [] ==> Sum(l.losses) != 0.0)
  {
    hide Sum, CountsMatch, MoneyAdds;
    LedgerOfRun(ts, bs);
  }

  method RunSimulation(candidates: seq<CandidateTrade>) returns (r: SimResult)
    ensures Reports(Complete(RunOf(candidates)).ledger, r)
  {
    hide Step, Settle, Sum, Sound, Fresh;
    var sim := new PumpSimulation();
    FreshIsUnique(sim.View());
    for i := 0 to |candidates|
      invariant sim.View() == BookAfter(candidates, i)
    {
      sim.Consider(candidates[i]);
    }
    RunIsUnique(candidates, RunOf(candidates));
    CompleteReportable(candidates, RunOf(candidates));
    sim.SettlePositions(None);
    r := sim.Report();
  }

  // ----- Ledger: money and trades are conserved -----

  lemma FactorAboveOne(won: real, lost: real)
    requires lost > 0.0
    ensures won / lost > 1.0 <==> won > lost
  {
    var f := won / lost;
    assert f * lost == won;
    ScaleOrder(1.0, f, lost);
    ScaleOrder(f, 1.0, lost);
  }

  /** With at least one loss, a profit factor above one means exactly that the account grew. */
  lemma ProfitFactorMeansGrowth(ts: seq<CandidateTrade>, bs: seq<Book>, r: SimResult)
    requires IsRun(ts, bs) && Reports(Complete(bs).ledger, r) && Complete(bs).ledger.losses != []
    ensures r.profitFactor.Some?
    ensures r.profitFactor.value > 1.0 <==> r.finalBalance > 100.0
    ensures r.pnlPct > 0.0 <==> r.finalBalance > 100.0
  {
    LedgerOfRun(ts, bs);
    FactorAboveOne(Sum(Complete(bs).ledger.profits), Sum(Complete(bs).ledger.losses));
  }

  lemma SumOfQuotients(x: real, y: real, z: real, k: real)
    requires k != 0.0
    ensures x / k + y / k + z / k == (x + y + z) / k
  {
  }

  lemma SharesAddUp(x: nat, y: nat, z: nat)
    ensures var n := x + y + z; n > 0 ==> RatePct(x, n) + RatePct(y, n) + RatePct(z, n) == 100.0
  {
    var n := x + y + z;
    if n > 0 {
      SumOfQuotients(x as real, y as real, z as real, n as real);
    }
  }

  lemma {:induction false} PositionsLength(fs: seq<Fill>)
    ensures |Positions(fs)| == |fs|
  {
    if fs == [] {
    } else {
      PositionsLength(fs[..|fs|-1]);
    }
  }

  /** The outcome rates are shares of the settled trades. */
  lemma RatesAreShares(ts: seq<CandidateTrade>, bs: seq<Book>, r: SimResult)
    requires IsRun(ts, bs) && Reports(Complete(bs).ledger, r)
    ensures r.nTrades == |Complete(bs).fills|
    ensures r.nTrades > 0 ==> r.tpRatePct + r.slRatePct + r.timeRatePct == 100.0
  {
    LedgerOfRun(ts, bs);
    var b := Complete(bs);
    PositionsLength(b.fills);
    assert |multiset(b.ledger.settled)| == |multiset(Positions(b.fills))|;
    SharesAddUp(b.ledger.counts.tp, b.ledger.counts.sl, b.ledger.counts.time);
  }
}
