/**
 The candidate list of the equity simulation: one walk per signal row, sorted by entry and symbol.  The builder
 that detects its own signals runs the same walk over the same kind of rows, symbol by symbol.
 */
module PumpCandidates {
  import opened Market
  import opened Sorting
  import opened PumpWalk
  import opened PumpPortfolio
  import opened PumpTheorems
  import opened PumpSolvency

  datatype SignalRow = SignalRow(sym: Symbol, idx: nat, direction: Direction)

  type Frames = map<Symbol, seq<Candle>>

  predicate Covers(frames: Frames, rows: seq<SignalRow>) { forall r | r in rows :: r.sym in frames }

  /** The sort key of the list: entry time, then symbol. */
  predicate EntryLe(a: CandidateTrade, b: CandidateTrade) {
    a.entryTs < b.entryTs || (a.entryTs == b.entryTs && a.sym <= b.sym)
  }

  lemma EntryLeTotal(m: multiset<CandidateTrade>)
    ensures TotalOn(EntryLe, m)
  {
  }

  /** The trade a row gives rise to, if any. */
  ghost function TradeOf(frames: Frames, r: SignalRow, hold: nat): (t: Option<CandidateTrade>)
    requires r.sym in frames
    ensures CandidateExplains(r.sym, frames[r.sym], r.idx, r.direction, hold, t)
  {
    var df := frames[r.sym];
    if r.idx + 1 >= |df| || df[r.idx+1].open <= 0.0 then None
    else
      var x := WalkExit(r.direction, df, r.idx + 1, hold, TARGET_PCT, SL_PCT);
      Some(CandidateTrade(
        r.sym, df[r.idx+1].ts, df[x.bar].ts, r.direction, x.outcome, df[r.idx+1].open, x.price,
        GrossPct(r.direction, df[r.idx+1].open, x.price), ComputeLeverage(Vol24hPct(df, r.idx))))
  }

  ghost function OneTrade(frames: Frames, r: SignalRow, hold: nat): seq<CandidateTrade>
    requires r.sym in frames
  {
    if TradeOf(frames, r, hold).Some? then [TradeOf(frames, r, hold).value] else []
  }

  /** The trades of the rows, in row order. */
  ghost function Trades(frames: Frames, rows: seq<SignalRow>, hold: nat): seq<CandidateTrade>
    requires Covers(frames, rows)
  {
    if rows == [] then []
    else Trades(frames, rows[..|rows|-1], hold) + OneTrade(frames, rows[|rows|-1], hold)
  }

  method BuildFromSignalRows(frames: Frames, rows: seq<SignalRow>, timeExitMin: nat)
    returns (candidates: seq<CandidateTrade>)
    requires Covers(frames, rows)
    ensures candidates == Sort(EntryLe, Trades(frames, rows, timeExitMin))
  {
    candidates := [];
    for i := 0 to |rows|
      invariant candidates == Trades(frames, rows[..i], timeExitMin)
    {
      assert rows[..i+1][..i] == rows[..i];
      var r := rows[i];
      var t := BuildCandidate(r.sym, frames[r.sym], r.idx, r.direction, timeExitMin);
      assert t == TradeOf(frames, r, timeExitMin);
      if t.Some? {
        candidates := candidates + [t.value];
      }
    }
    assert rows[..|rows|] == rows;
    candidates := Sort(EntryLe, candidates);
  }

  // ----- What is on the list -----

  lemma {:induction false} TradesComeFromRows(frames: Frames, rows: seq<SignalRow>, hold: nat)
    requires Covers(frames, rows)
    ensures forall t | t in Trades(frames, rows, hold) :: exists r | r in rows :: TradeOf(frames, r, hold) == Some(t)
  {
    if rows == [] {
    } else {
      var init, last := rows[..|rows|-1], rows[|rows|-1];
      TradesComeFromRows(frames, init, hold);
      forall t | t in Trades(frames, rows, hold) ensures exists r | r in rows :: TradeOf(frames, r, hold) == Some(t) {
        if t in Trades(frames, init, hold) {
          var r :| r in init && TradeOf(frames, r, hold) == Some(t);
          assert r in rows;
        } else {
          assert last in rows && TradeOf(frames, last, hold) == Some(t);
        }
      }
    }
  }

  ghost predicate InOrder(df: seq<Candle>) { forall i, j | 0 <= i <= j < |df| :: df[i].ts <= df[j].ts }

  ghost predicate FramesInOrder(frames: Frames) { forall s | s in frames :: InOrder(frames[s]) }

  lemma SortedMembers(frames: Frames, rows: seq<SignalRow>, hold: nat)
    requires Covers(frames, rows)
    ensures var cs := Sort(EntryLe, Trades(frames, rows, hold));
            forall k | 0 <= k < |cs| :: exists r | r in rows :: TradeOf(frames, r, hold) == Some(cs[k])
  {
    var ts := Trades(frames, rows, hold);
    var cs := Sort(EntryLe, ts);
    SortContents(EntryLe, ts);
    TradesComeFromRows(frames, rows, hold);
    forall k | 0 <= k < |cs| ensures exists r | r in rows :: TradeOf(frames, r, hold) == Some(cs[k]) {
      assert cs[k] in multiset(cs);
      assert cs[k] in ts;
    }
  }

  lemma ListedExit(frames: Frames, rows: seq<SignalRow>, hold: nat, k: nat)
    requires Covers(frames, rows) && FramesInOrder(frames) && hold >= 1
    requires k < |Sort(EntryLe, Trades(frames, rows, hold))|
    ensures var t := Sort(EntryLe, Trades(frames, rows, hold))[k]; t.entryTs <= t.exitTs
  {
    hide Trades, Sort, TradeOf, CandidateExplains;
    SortedMembers(frames, rows, hold);
    var t := Sort(EntryLe, Trades(frames, rows, hold))[k];
    var r :| r in rows && TradeOf(frames, r, hold) == Some(t);
    ExitNotBeforeEntry(r.sym, frames[r.sym], r.idx, r.direction, hold, Some(t));
  }

  /** What the simulator relies on: from time-ordered frames the list is in entry order, no exit before its entry. */
  lemma CandidatesInEntryOrder(frames: Frames, rows: seq<SignalRow>, hold: nat)
    requires Covers(frames, rows) && FramesInOrder(frames) && hold >= 1
    ensures InEntryOrder(Sort(EntryLe, Trades(frames, rows, hold)))
  {
    hide Trades, Sort, TotalOn;
    var cs := Sort(EntryLe, Trades(frames, rows, hold));
    EntryLeTotal(multiset(Trades(frames, rows, hold)));
    SortSorts(EntryLe, Trades(frames, rows, hold));
    forall i, j | 0 <= i <= j < |cs| ensures cs[i].entryTs <= cs[j].entryTs {
      if i < j {
        assert EntryLe(cs[i], cs[j]);
      }
    }
    forall k | 0 <= k < |cs| ensures cs[k].entryTs <= cs[k].exitTs {
      ListedExit(frames, rows, hold, k);
    }
  }

  // ----- The list in rows and times -----

  /** The list is ordered by entry time, and by symbol where times are equal. */
  lemma ListInOrder(frames: Frames, rows: seq<SignalRow>, hold: nat)
    requires Covers(frames, rows)
    ensures var cs := Sort(EntryLe, Trades(frames, rows, hold));
            forall i, j | 0 <= i <= j < |cs| ::
              cs[i].entryTs <= cs[j].entryTs && (cs[i].entryTs == cs[j].entryTs ==> cs[i].sym <= cs[j].sym)
  {
    hide Trades, Sort, TotalOn;
    var cs := Sort(EntryLe, Trades(frames, rows, hold));
    EntryLeTotal(multiset(Trades(frames, rows, hold)));
    SortSorts(EntryLe, Trades(frames, rows, hold));
    forall i, j | 0 <= i <= j < |cs|
      ensures cs[i].entryTs <= cs[j].entryTs && (cs[i].entryTs == cs[j].entryTs ==> cs[i].sym <= cs[j].sym)
    {
      if i < j {
        assert EntryLe(cs[i], cs[j]);
      }
    }
  }

  /** There is a candle to enter at, with a positive price. */
  ghost predicate Tradeable(frames: Frames, r: SignalRow)
    requires r.sym in frames
  {
    r.idx + 1 < |frames[r.sym]| && frames[r.sym][r.idx+1].open > 0.0
  }

  ghost function TradeableRows(frames: Frames, rows: seq<SignalRow>): seq<SignalRow>
    requires Covers(frames, rows)
  {
    if rows == [] then []
    else
      var before := TradeableRows(frames, rows[..|rows|-1]);
      if Tradeable(frames, rows[|rows|-1]) then before + [rows[|rows|-1]] else before
  }

  lemma TradedExactly(frames: Frames, r: SignalRow, hold: nat)
    requires r.sym in frames
    ensures TradeOf(frames, r, hold).Some? <==> Tradeable(frames, r)
  {
  }

  lemma {:induction false} TradesAreOfTradeable(frames: Frames, rows: seq<SignalRow>, hold: nat)
    requires Covers(frames, rows)
    ensures var ts, rs := Trades(frames, rows, hold), TradeableRows(frames, rows);
            |ts| == |rs| && forall k | 0 <= k < |rs| ::
              rs[k].sym in frames && TradeOf(frames, rs[k], hold) == Some(ts[k])
  {
    hide TradeOf;
    if rows == [] {
    } else {
      var last := rows[|rows|-1];
      TradesAreOfTradeable(frames, rows[..|rows|-1], hold);
      assert TradeOf(frames, last, hold).Some? <==> Tradeable(frames, last) by { TradedExactly(frames, last, hold); }
    }
  }

  /** One trade for each row that can be traded, pumps and dumps alike, and no other: each explained by its candles. */
  lemma ListComplete(frames: Frames, rows: seq<SignalRow>, hold: nat) returns (ts: seq<CandidateTrade>)
    requires Covers(frames, rows)
    ensures multiset(ts) == multiset(Sort(EntryLe, Trades(frames, rows, hold)))
    ensures |ts| == |TradeableRows(frames, rows)|
    ensures forall k | 0 <= k < |ts| ::
              var r := TradeableRows(frames, rows)[k];
              r.sym in frames && CandidateExplains(r.sym, frames[r.sym], r.idx, r.direction, hold, Some(ts[k]))
  {
    hide Trades, TradeableRows, Sort, CandidateExplains;
    ts := Trades(frames, rows, hold);
    SortContents(EntryLe, ts);
    TradesAreOfTradeable(frames, rows, hold);
  }

  // ----- The order of the rows does not matter -----

  ghost predicate StrictFrames(frames: Frames) {
    forall s | s in frames :: forall i, j | 0 <= i < j < |frames[s]| :: frames[s][i].ts < frames[s][j].ts
  }

  /** No two rows disagree about the same candle. */
  ghost predicate Consistent(rows: seq<SignalRow>) {
    forall a, b | a in rows && b in rows && a.sym == b.sym && a.idx == b.idx :: a == b
  }

  lemma EntryOfRow(frames: Frames, r: SignalRow, hold: nat)
    requires r.sym in frames && TradeOf(frames, r, hold).Some?
    ensures var t := TradeOf(frames, r, hold).value;
            r.idx + 1 < |frames[r.sym]| && t.sym == r.sym && t.entryTs == frames[r.sym][r.idx+1].ts
  {
    hide WalkExit, GrossPct, Vol24hPct, ComputeLeverage;
  }

  lemma SameTimeSameBar(frames: Frames, sym: Symbol, i: nat, j: nat)
    requires StrictFrames(frames) && sym in frames && i < |frames[sym]| && j < |frames[sym]|
    requires frames[sym][i].ts == frames[sym][j].ts
    ensures i == j
  {
  }

  lemma KeyIdentifiesTrade(frames: Frames, rows: seq<SignalRow>, hold: nat, a: CandidateTrade, b: CandidateTrade)
    requires Covers(frames, rows) && StrictFrames(frames) && Consistent(rows)
    requires a in Trades(frames, rows, hold) && b in Trades(frames, rows, hold)
    requires EntryLe(a, b) && EntryLe(b, a)
    ensures a == b
  {
    hide Trades, TradeOf, StrictFrames, CandidateExplains;
    TradesComeFromRows(frames, rows, hold);
    var r :| r in rows && TradeOf(frames, r, hold) == Some(a);
    var s :| s in rows && TradeOf(frames, s, hold) == Some(b);
    EntryOfRow(frames, r, hold);
    EntryOfRow(frames, s, hold);
    SameTimeSameBar(frames, r.sym, r.idx + 1, s.idx + 1);
  }

  lemma TradesAppend(frames: Frames, rows: seq<SignalRow>, r: SignalRow, hold: nat)
    requires Covers(frames, rows) && r.sym in frames
    ensures Covers(frames, rows + [r])
    ensures Trades(frames, rows + [r], hold) == Trades(frames, rows, hold) + OneTrade(frames, r, hold)
  {
    hide OneTrade;
    assert (rows + [r])[..|rows|] == rows;
  }

  /** Removing a row removes its trade. */
  lemma {:induction false} TradesWithout(frames: Frames, before: seq<SignalRow>, r: SignalRow,
                                              after: seq<SignalRow>, hold: nat)
    requires Covers(frames, before) && r.sym in frames && Covers(frames, after)
    ensures Covers(frames, before + [r] + after) && Covers(frames, before + after)
    ensures multiset(Trades(frames, before + [r] + after, hold))
         == multiset(Trades(frames, before + after, hold)) + multiset(OneTrade(frames, r, hold))
    decreases |after|
  {
    hide Trades, OneTrade;
    if after == [] {
      assert before + [r] + after == before + [r] && before + after == before;
      TradesAppend(frames, before, r, hold);
    } else {
      var init, last := after[..|after|-1], after[|after|-1];
      assert before + [r] + after == (before + [r] + init) + [last] && before + after == (before + init) + [last];
      TradesWithout(frames, before, r, init, hold);
      TradesAppend(frames, before + [r] + init, last, hold);
      TradesAppend(frames, before + init, last, hold);
    }
  }

  lemma {:induction false} TradesPermute(frames: Frames, rows: seq<SignalRow>, other: seq<SignalRow>, hold: nat)
    requires Covers(frames, rows) && Covers(frames, other) && multiset(rows) == multiset(other)
    ensures multiset(Trades(frames, rows, hold)) == multiset(Trades(frames, other, hold))
    decreases |rows|
  {
    hide OneTrade;
    if rows == [] {
      assert |multiset(other)| == 0;
    } else {
      var init, last := rows[..|rows|-1], rows[|rows|-1];
      DropLast(rows);
      assert last in multiset(other);
      var i :| 0 <= i < |other| && other[i] == last;
      var rest := other[..i] + other[i+1..];
      RemoveAt(other, i);
      CancelOne(multiset(init), multiset(rest), last);
      assert other == other[..i] + [last] + other[i+1..];
      TradesWithout(frames, other[..i], last, other[i+1..], hold);
      TradesPermute(frames, init, rest, hold);
    }
  }

  /**
   Rows in any order give the same list, so scanning symbol by symbol and reading a saved signal table in
   its own order feed the simulator the same run.
   */
  lemma RowOrderIrrelevant(frames: Frames, rows: seq<SignalRow>, other: seq<SignalRow>, hold: nat)
    requires Covers(frames, rows) && Covers(frames, other) && multiset(rows) == multiset(other)
    requires StrictFrames(frames) && Consistent(rows)
    ensures Sort(EntryLe, Trades(frames, rows, hold)) == Sort(EntryLe, Trades(frames, other, hold))
  {
    hide Trades, Sort, TotalOn, SortedBy, StrictFrames, Consistent;
    var ts, us := Trades(frames, rows, hold), Trades(frames, other, hold);
    EntryLeTotal(multiset(ts));
    TradesPermute(frames, rows, other, hold);
    SortContents(EntryLe, ts);
    SortContents(EntryLe, us);
    SortSorts(EntryLe, ts);
    SortSorts(EntryLe, us);
    forall a, b | a in multiset(ts) && b in multiset(ts) && EntryLe(a, b) && EntryLe(b, a) ensures a == b {
      KeyIdentifiesTrade(frames, rows, hold, a, b);
    }
    SortedUnique(EntryLe, Sort(EntryLe, ts), Sort(EntryLe, us));
  }

  // ----- From candles to the finished run -----

  /** The trade moves the account by a fraction of the balance, at most 0.63% down and 0.87% up. */
  ghost predicate Modest(f: Fill, balance: real) {
    var x := AccountFraction(f.trade);
    f.position.pnl == balance * x && -0.0063 <= x <= 0.0087
  }

  lemma ListedModest(frames: Frames, rows: seq<SignalRow>, hold: nat, i: nat, balance: real)
    requires Covers(frames, rows) && hold >= 1
    requires forall s | s in frames :: ValidCandles(frames[s])
    requires i < |Sort(EntryLe, Trades(frames, rows, hold))|
    ensures var t := Sort(EntryLe, Trades(frames, rows, hold))[i]; Modest(Fill(t, PositionFor(balance, t)), balance)
  {
    hide Sort, Trades, TradeOf, PositionFor, CandidateExplains, ValidCandles;
    SortedMembers(frames, rows, hold);
    var t := Sort(EntryLe, Trades(frames, rows, hold))[i];
    var r :| r in rows && TradeOf(frames, r, hold) == Some(t);
    PositionBounded(r.sym, frames[r.sym], r.idx, r.direction, hold, Some(t), balance);
  }

  lemma LastBook(ts: seq<CandidateTrade>, bs: seq<Book>)
    requires IsRun(ts, bs)
    ensures |bs| == |ts| + 1 && Complete(bs).fills == bs[|ts|].fills
  {
  }

  lemma {:induction false} FillsAreCandidates(ts: seq<CandidateTrade>, bs: seq<Book>, n: nat, k: nat)
    requires IsRun(ts, bs) && n <= |ts| && k < |bs[n].fills|
    ensures exists i | 0 <= i < n :: ts[i] == bs[n].fills[k].trade
  {
    if n == 0 {
    } else {
      assert bs[n] == Step(bs[n-1], ts[n-1]);
      if k < |bs[n-1].fills| {
        FillsAreCandidates(ts, bs, n - 1, k);
      } else {
        assert bs[n].fills[k].trade == ts[n-1];
      }
    }
  }

  lemma FillModest(frames: Frames, rows: seq<SignalRow>, hold: nat, bs: seq<Book>, k: nat)
    requires Covers(frames, rows) && hold >= 1
    requires forall s | s in frames :: ValidCandles(frames[s])
    requires IsRun(Sort(EntryLe, Trades(frames, rows, hold)), bs)
    requires AllSized(Complete(bs).fills) && k < |Complete(bs).fills|
    ensures var fs := Complete(bs).fills; Modest(fs[k], 100.0 + ClosedPnl(fs[..k], fs[k].trade.entryTs))
  {
    hide Sort, Trades, IsRun, Settle, ClosedPnl, PositionFor;
    var cs := Sort(EntryLe, Trades(frames, rows, hold));
    LastBook(cs, bs);
    var fs := Complete(bs).fills;
    assert FillSized(fs, k);
    FillsAreCandidates(cs, bs, |cs|, k);
    var i :| 0 <= i < |cs| && cs[i] == fs[k].trade;
    ListedModest(frames, rows, hold, i, 100.0 + ClosedPnl(fs[..k], fs[k].trade.entryTs));
  }

  /**
   The run over a list built from valid, time-ordered candles, with nothing assumed about the list itself: at
   most two trades live at any instant, exits booked in time order, and every accepted trade bounded by the
   balance made of exactly the trades that had closed by its entry.
   */
  lemma BuiltRun(frames: Frames, rows: seq<SignalRow>, hold: nat, bs: seq<Book>)
    requires Covers(frames, rows) && FramesInOrder(frames) && hold >= 1
    requires forall s | s in frames :: ValidCandles(frames[s])
    requires IsRun(Sort(EntryLe, Trades(frames, rows, hold)), bs)
    ensures var fs := Complete(bs).fills;
            && (forall t :: |LiveAt(fs, t)| <= 2)
            && ExitsInOrder(Complete(bs).ledger.settled)
            && forall k | 0 <= k < |fs| :: Modest(fs[k], 100.0 + ClosedPnl(fs[..k], fs[k].trade.entryTs))
  {
    hide Sort, Trades, IsRun, Settle, Modest, AllSized, LiveAt, ClosedPnl, InEntryOrder;
    var cs := Sort(EntryLe, Trades(frames, rows, hold));
    LastBook(cs, bs);
    CandidatesInEntryOrder(frames, rows, hold);
    SlotsAndSizing(cs, bs);
    SettledInTimeOrder(cs, bs);
    var fs := Complete(bs).fills;
    forall k | 0 <= k < |fs|
      ensures Modest(fs[k], 100.0 + ClosedPnl(fs[..k], fs[k].trade.entryTs))
    {
      FillModest(frames, rows, hold, bs, k);
    }
  }

  /**
   The same run keeps its balance positive as long as no accepted trade is held while more than 583 others exit;
   no settlement then takes more than half of it, and with at most 39 none takes more than 0.81%.
   */
  lemma BuiltRunStaysPositive(frames: Frames, rows: seq<SignalRow>, hold: nat, bs: seq<Book>)
    requires Covers(frames, rows) && hold >= 1
    requires forall s | s in frames :: ValidCandles(frames[s])
    requires IsRun(Sort(EntryLe, Trades(frames, rows, hold)), bs)
    requires SpansAtMost(Complete(bs).fills, MOST_SPANNED)
    ensures FallsSlowly(Complete(bs).ledger.equity, 0.5)
    ensures SpansAtMost(Complete(bs).fills, 39) ==> FallsSlowly(Complete(bs).ledger.equity, 0.0081)
  {
    hide Sort, Trades, IsRun, AccountFraction, Settle, PositionFor, SpansAtMost, FallsSlowly, Bearable;
    var cs := Sort(EntryLe, Trades(frames, rows, hold));
    LastBook(cs, bs);
    forall k | 0 <= k < |cs| ensures AccountFraction(cs[k]) >= -WORST_FRACTION {
      ListedModest(frames, rows, hold, k, 0.0);
    }
    FillsBearable(cs, bs, |cs|);
    RunStaysPositive(cs, bs);
  }
}
