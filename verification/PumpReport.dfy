/**
 The report of a pump run read back into its accepted trades: how many ended how, what each was sized on, and what
 that leaves of the account.
 */
module PumpReport {
  import opened Market
  import opened Sorting
  import opened PumpWalk
  import opened PumpPortfolio
  import opened PumpTheorems

  // ----- Sums over trades, in any order -----

  ghost function Total(ps: seq<OpenPosition>, f: OpenPosition -> real): real {
    if ps == [] then 0.0 else Total(ps[..|ps|-1], f) + f(ps[|ps|-1])
  }

  lemma TotalAppend(ps: seq<OpenPosition>, p: OpenPosition, f: OpenPosition -> real)
    ensures Total(ps + [p], f) == Total(ps, f) + f(p)
  {
    assert (ps + [p])[..|ps|] == ps;
  }

  lemma {:induction false} TotalWithout(ps: seq<OpenPosition>, p: OpenPosition, qs: seq<OpenPosition>,
                                        f: OpenPosition -> real)
    ensures Total(ps + [p] + qs, f) == Total(ps + qs, f) + f(p)
    decreases |qs|
  {
    if qs == [] {
      assert ps + [p] + qs == ps + [p] && ps + qs == ps;
      TotalAppend(ps, p, f);
    } else {
      var init, last := qs[..|qs|-1], qs[|qs|-1];
      assert ps + [p] + qs == (ps + [p] + init) + [last] && ps + qs == (ps + init) + [last];
      TotalWithout(ps, p, init, f);
      TotalAppend(ps + [p] + init, last, f);
      TotalAppend(ps + init, last, f);
    }
  }

  lemma {:induction false} TotalPermutes(ps: seq<OpenPosition>, qs: seq<OpenPosition>, f: OpenPosition -> real)
    requires multiset(ps) == multiset(qs)
    ensures Total(ps, f) == Total(qs, f)
    decreases |ps|
  {
    if ps == [] {
      assert |multiset(qs)| == 0;
    } else {
      var init, last := ps[..|ps|-1], ps[|ps|-1];
      DropLast(ps);
      assert last in multiset(qs);
      var i :| 0 <= i < |qs| && qs[i] == last;
      var rest := qs[..i] + qs[i+1..];
      RemoveAt(qs, i);
      CancelOne(multiset(init), multiset(rest), last);
      assert qs == qs[..i] + [last] + qs[i+1..];
      TotalWithout(qs[..i], last, qs[i+1..], f);
      TotalPermutes(init, rest, f);
    }
  }

  // ----- What is added up -----

  ghost function Result(p: OpenPosition): real { p.pnl }

  ghost function Won(p: OpenPosition): real { if p.pnl > 0.0 then p.pnl else 0.0 }

  ghost function Lost(p: OpenPosition): real { if p.pnl < 0.0 then -p.pnl else 0.0 }

  ghost function IsTp(p: OpenPosition): real { if p.outcome == TP then 1.0 else 0.0 }

  ghost function IsSl(p: OpenPosition): real { if p.outcome == SL then 1.0 else 0.0 }

  ghost function IsTime(p: OpenPosition): real { if p.outcome == TIME then 1.0 else 0.0 }

  /** The ledger's figures are totals over what has been settled. */
  ghost predicate Totals(l: Ledger) {
    && l.balance == 100.0 + Total(l.settled, Result)
    && Sum(l.profits) == Total(l.settled, Won) && Sum(l.losses) == Total(l.settled, Lost)
    && (l.losses == [] <==> forall p | p in l.settled :: p.pnl >= 0.0)
    && l.counts.tp as real == Total(l.settled, IsTp) && l.counts.sl as real == Total(l.settled, IsSl)
    && l.counts.time as real == Total(l.settled, IsTime)
  }

  lemma TotalsStep(l: Ledger, p: OpenPosition)
    requires Totals(l)
    ensures Totals(Book1(l, p))
  {
    hide Total, Sum;
    TotalAppend(l.settled, p, Result);
    TotalAppend(l.settled, p, Won);
    TotalAppend(l.settled, p, Lost);
    TotalAppend(l.settled, p, IsTp);
    TotalAppend(l.settled, p, IsSl);
    TotalAppend(l.settled, p, IsTime);
    SumAppend(l.profits, p.pnl);
    SumAppend(l.losses, -p.pnl);
  }

  lemma {:induction false} TotalsBookAll(l: Ledger, due: seq<OpenPosition>)
    requires Totals(l)
    ensures Totals(BookAll(l, due))
  {
    hide Totals, Book1;
    if due == [] {
    } else {
      TotalsBookAll(l, due[..|due|-1]);
      TotalsStep(BookAll(l, due[..|due|-1]), due[|due|-1]);
    }
  }

  lemma {:induction false} TotalsAt(ts: seq<CandidateTrade>, bs: seq<Book>, n: nat)
    requires IsRun(ts, bs) && n <= |ts|
    ensures Totals(bs[n].ledger)
  {
    if n == 0 {
    } else {
      hide Totals, BookAll;
      TotalsAt(ts, bs, n - 1);
      TotalsBookAll(bs[n-1].ledger, InExitOrder(bs[n-1].open, Some(ts[n-1].entryTs)));
      assert bs[n] == Step(bs[n-1], ts[n-1]);
    }
  }

  lemma TotalsOfRun(ts: seq<CandidateTrade>, bs: seq<Book>)
    requires IsRun(ts, bs)
    ensures Totals(Complete(bs).ledger)
  {
    TotalsAt(ts, bs, |ts|);
    TotalsBookAll(bs[|ts|].ledger, InExitOrder(bs[|ts|].open, None));
  }

  lemma ShareReading(part: nat, whole: nat)
    ensures whole == 0 ==> RatePct(part, whole) == 0.0
    ensures RatePct(part, whole) * whole as real == if whole == 0 then 0.0 else 100.0 * part as real
  {
    if whole > 0 {
      var q := part as real / whole as real;
      assert q * whole as real == part as real;
      assert RatePct(part, whole) == q * 100.0;
    }
  }

  lemma LossesReading(l: Ledger)
    requires Totals(l)
    ensures l.losses == [] <==> forall p | p in l.settled :: p.pnl >= 0.0
  {
  }

  /** The five counting figures, from the number of trades that ended each way. */
  ghost predicate CountsShown(r: SimResult, tp: real, sl: real, time: real) {
    var n := r.nTrades as real;
    && n == tp + sl + time
    && r.tpRatePct * n == 100.0 * tp && r.slRatePct * n == 100.0 * sl && r.timeRatePct * n == 100.0 * time
    && r.winRatePct * (tp + sl) == 100.0 * tp
    && (tp + sl == 0.0 ==> r.winRatePct == 0.0)
    && (n == 0.0 ==> r.tpRatePct == 0.0 && r.slRatePct == 0.0 && r.timeRatePct == 0.0)
  }

  lemma CountsAreShown(l: Ledger, r: SimResult)
    requires Reports(l, r)
    ensures CountsShown(r, l.counts.tp as real, l.counts.sl as real, l.counts.time as real)
  {
    hide RatePct, Sum;
    var n := l.counts.tp + l.counts.sl + l.counts.time;
    ShareReading(l.counts.tp, n);
    ShareReading(l.counts.sl, n);
    ShareReading(l.counts.time, n);
    ShareReading(l.counts.tp, l.counts.tp + l.counts.sl);
  }

  /** The outcome figures: rates in percent of all trades, the win rate in percent of those that hit a level. */
  lemma OutcomesReported(ts: seq<CandidateTrade>, bs: seq<Book>, r: SimResult)
    requires IsRun(ts, bs) && Reports(Complete(bs).ledger, r)
    ensures r.nTrades == |Complete(bs).fills|
    ensures var ps := Positions(Complete(bs).fills);
            CountsShown(r, Total(ps, IsTp), Total(ps, IsSl), Total(ps, IsTime))
  {
    hide Reports, CountsShown, Total;
    LedgerOfRun(ts, bs);
    TotalsOfRun(ts, bs);
    RatesAreShares(ts, bs, r);
    var l, ps := Complete(bs).ledger, Positions(Complete(bs).fills);
    TotalPermutes(l.settled, ps, IsTp);
    TotalPermutes(l.settled, ps, IsSl);
    TotalPermutes(l.settled, ps, IsTime);
    CountsAreShown(l, r);
  }

  lemma SameMembers(s: seq<OpenPosition>, t: seq<OpenPosition>)
    requires multiset(s) == multiset(t)
    ensures forall p :: p in s <==> p in t
  {
    forall p ensures p in s <==> p in t {
      assert p in multiset(s) <==> p in multiset(t);
    }
  }

  /**
   The money figures: the account is 100 plus every accepted trade's result, and the profit factor what was won over
   what was lost, infinite exactly if no trade lost anything.
   */
  lemma MoneyReported(ts: seq<CandidateTrade>, bs: seq<Book>, r: SimResult)
    requires IsRun(ts, bs) && Reports(Complete(bs).ledger, r)
    ensures var ps := Positions(Complete(bs).fills);
            && r.finalBalance == 100.0 + Total(ps, Result) && r.pnlPct == r.finalBalance - 100.0
            && (r.profitFactor.None? <==> forall p | p in ps :: p.pnl >= 0.0)
            && (r.profitFactor.Some? ==>
                  Total(ps, Lost) > 0.0 && r.profitFactor.value * Total(ps, Lost) == Total(ps, Won))
  {
    hide RatePct, Sum, Total;
    LedgerOfRun(ts, bs);
    TotalsOfRun(ts, bs);
    var l, ps := Complete(bs).ledger, Positions(Complete(bs).fills);
    TotalPermutes(l.settled, ps, Result);
    TotalPermutes(l.settled, ps, Won);
    TotalPermutes(l.settled, ps, Lost);
    LossesReading(l);
    SameMembers(l.settled, ps);
    var won, lost := Sum(l.profits), Sum(l.losses);
    if l.losses != [] {
      assert won / lost * lost == won;
    }
  }

  /** What an accepted trade was sized on: a tenth of the balance of its entry, its leverage, its return less 0.1%. */
  lemma SizeReported(ts: seq<CandidateTrade>, bs: seq<Book>, k: nat)
    requires IsRun(ts, bs) && InEntryOrder(ts) && k < |Complete(bs).fills|
    ensures var fs := Complete(bs).fills;
            var t, p := fs[k].trade, fs[k].position;
            && p.exitTs == t.exitTs && p.outcome == t.outcome
            && p.pnl == (100.0 + ClosedPnl(fs[..k], t.entryTs)) * 0.1 * t.leverage as real
                        * (t.grossReturnPct - 0.1) / 100.0
  {
    hide ClosedPnl;
    SlotsAndSizing(ts, bs);
    assert FillSized(Complete(bs).fills, k);
  }
}
