/**
 Exactly when the pump portfolio can be ruined: the 583 trades of `PumpSolvency` are the most.  With one more, a
 chain of overlapping long trades, each outlasting 583 short losses and the long trade before it, loses everything.
 */
module PumpRuin {
  import opened Market
  import opened Sorting
  import opened PumpWalk
  import opened PumpPortfolio
  import opened PumpTheorems
  import opened PumpSolvency

  // ----- A chain of long trades -----

  /** One long trade opens every 584 bars and is held until one bar after the next; short ones fill the bars between. */
  const LINK: nat := MOST_SPANNED + 1

  /** Every trade times out at -1.999%, just short of its stop, with leverage 3. */
  const SLIP: real := 0.006297

  function ChainTrade(n: nat): CandidateTrade {
    CandidateTrade(0, n, if n % LINK == 0 then n + LINK + 1 else n + 1, Pump, TIME, 100.0, 98.001, -1.999, 3)
  }

  function Chain(n: nat): seq<CandidateTrade> { seq(n, k requires 0 <= k < n => ChainTrade(k)) }

  /** The balance that trade `n` of the chain is sized on. */
  function BalanceAt(n: nat): real {
    if n == 0 then INITIAL_BALANCE
    else if n % LINK != 1 then BalanceAt(n - 1) * (1.0 - SLIP)
    else if n == 1 then BalanceAt(0)
    else BalanceAt(n - 1) - SLIP * BalanceAt(n - 1 - LINK)
  }

  ghost function ChainPosition(n: nat): OpenPosition { PositionFor(BalanceAt(n), ChainTrade(n)) }

  function LatestLong(n: nat): nat { n - n % LINK }

  /** What is open when trade `n` is looked at: the latest long one. */
  ghost function OpenBefore(n: nat): seq<OpenPosition> {
    if n == 0 then [] else [ChainPosition(LatestLong(n - 1))]
  }

  ghost predicate Calm(g: Gate) { g.stopStreak == 0 && g.skipSignals == 0 }

  ghost predicate OnCourse(b: Book, n: nat) {
    && b.ledger.balance == BalanceAt(n) && b.open == OpenBefore(n) && Calm(b.gate)
    && |b.fills| == n && forall k | 0 <= k < n :: b.fills[k].trade == ChainTrade(k)
  }

  lemma ChainLoses(n: nat)
    ensures var p := ChainPosition(n);
            p.pnl == -(SLIP * BalanceAt(n)) && p.exitTs == ChainTrade(n).exitTs && p.outcome == TIME
  {
    hide BalanceAt;
    RegroupFraction(BalanceAt(n), 3.0, -1.999 - ROUND_TRIP_COST_PCT);
  }

  lemma {:induction false} StaysCalm(g: Gate, due: seq<OpenPosition>)
    requires Calm(g) && forall p | p in due :: p.outcome == TIME
    ensures Calm(GateAll(g, due))
  {
    if due == [] {
    } else {
      StaysCalm(g, due[..|due|-1]);
    }
  }

  lemma SettleStaysCalm(b: Book, until: Option<int>)
    requires Calm(b.gate) && forall p | p in b.open :: p.outcome == TIME
    ensures Calm(Settle(b, until).gate)
  {
    var due := InExitOrder(b.open, until);
    DueSplit(b.open, until);
    SortContents(ExitLe, Due(b.open, until));
    forall p | p in due ensures p.outcome == TIME {
      assert p in multiset(due);
      assert p in multiset(b.open);
    }
    StaysCalm(b.gate, due);
  }

  lemma ChainOffered(s: Book, n: nat)
    requires OnCourse(s, n)
    ensures var b := Offer(s, ChainTrade(n));
            && b.ledger == s.ledger && b.open == OpenBefore(n) + [ChainPosition(n)] && Calm(b.gate)
            && |b.fills| == n + 1 && forall k | 0 <= k <= n :: b.fills[k].trade == ChainTrade(k)
  {
    hide BalanceAt, PositionFor, ChainTrade;
  }

  lemma ShortStep(n: nat)
    requires n > 0 && n % LINK != 1
    ensures BalanceAt(n) == BalanceAt(n - 1) * (1.0 - SLIP)
  {
  }

  lemma LongStep(n: nat)
    requires n > 1 && n % LINK == 1
    ensures n > LINK && BalanceAt(n) == BalanceAt(n - 1) - SLIP * BalanceAt(n - 1 - LINK)
  {
  }

  lemma ModLink(j: nat, i: nat)
    requires i < LINK
    ensures (LINK * j + i) % LINK == i
  {
  }

  lemma LongLatest(n: nat)
    requires n > 0 && n % LINK == 0
    ensures n >= LINK && LatestLong(n - 1) == n - LINK && LatestLong(n) == n && (n + 1) % LINK == 1
    ensures ChainTrade(n - LINK).exitTs == n + 1 && ChainTrade(n).exitTs > n + 1
  {
    var q := n / LINK;
    ModLink(q, 1);
    ModLink(q - 1, 0);
    ModLink(q - 1, LINK - 1);
  }

  lemma ShortLatest(n: nat)
    requires n > 0 && n % LINK != 0
    ensures LatestLong(n - 1) == LatestLong(n) && (n + 1) % LINK != 1
    ensures ChainTrade(LatestLong(n)).exitTs > n + 1 && ChainTrade(n).exitTs == n + 1
  {
    var q, r := n / LINK, n % LINK;
    ModLink(q, r - 1);
    ModLink(q, 0);
    if r + 1 < LINK {
      ModLink(q, r + 1);
    } else {
      ModLink(q + 1, 0);
    }
  }

  /** After a long trade the long one before it is due. */
  lemma LongSettled(b: Book, n: nat)
    requires n > 0 && n % LINK == 0
    requires b.ledger.balance == BalanceAt(n) && b.open == OpenBefore(n) + [ChainPosition(n)]
    ensures var s := Settle(b, Some(n + 1)); s.ledger.balance == BalanceAt(n + 1) && s.open == OpenBefore(n + 1)
  {
    hide BalanceAt, ChainPosition, LatestLong, ChainTrade, Settle;
    LongLatest(n);
    ChainLoses(n);
    ChainLoses(n - LINK);
    LongStep(n + 1);
    TwoInSteps(b, Some(n + 1));
    assert BookAt(b, 0).open == [ChainPosition(n)];
  }

  /** After a short trade it is due itself. */
  lemma ShortSettled(b: Book, n: nat)
    requires n > 0 && n % LINK != 0
    requires b.ledger.balance == BalanceAt(n) && b.open == OpenBefore(n) + [ChainPosition(n)]
    ensures var s := Settle(b, Some(n + 1)); s.ledger.balance == BalanceAt(n + 1) && s.open == OpenBefore(n + 1)
  {
    hide BalanceAt, ChainPosition, LatestLong, ChainTrade, Settle;
    ShortLatest(n);
    ChainLoses(n);
    ChainLoses(LatestLong(n));
    ShortStep(n + 1);
    TwoInSteps(b, Some(n + 1));
    assert BookAt(b, 1).open == [ChainPosition(LatestLong(n))];
  }

  /** After the very first trade nothing is due. */
  lemma FirstSettled(b: Book)
    requires b.ledger.balance == BalanceAt(0) && b.open == OpenBefore(0) + [ChainPosition(0)]
    ensures var s := Settle(b, Some(1)); s.ledger.balance == BalanceAt(1) && s.open == OpenBefore(1)
  {
    hide ChainPosition, Settle;
    ChainLoses(0);
    OneInSteps(b, Some(1));
  }

  /** What is left when the next trade of the chain is looked at. */
  lemma ChainSettled(b: Book, n: nat)
    requires b.ledger.balance == BalanceAt(n) && b.open == OpenBefore(n) + [ChainPosition(n)] && Calm(b.gate)
    ensures var s := Settle(b, Some(n + 1));
            s.ledger.balance == BalanceAt(n + 1) && s.open == OpenBefore(n + 1) && Calm(s.gate)
  {
    hide BalanceAt, ChainPosition, LatestLong, ChainTrade, Settle;
    ChainLoses(n);
    if n == 0 {
      FirstSettled(b);
    } else {
      ChainLoses(LatestLong(n - 1));
      if n % LINK == 0 {
        LongSettled(b, n);
      } else {
        ShortSettled(b, n);
      }
    }
    SettleStaysCalm(b, Some(n + 1));
  }

  lemma StartsPositive()
    ensures BalanceAt(0) == INITIAL_BALANCE
  {
  }

  lemma {:induction false} ChainAt(ts: seq<CandidateTrade>, bs: seq<Book>, n: nat)
    requires ts == Chain(|ts|) && IsRun(ts, bs) && n < |ts|
    ensures OnCourse(Before(ts, bs, n), n)
  {
    hide Offer, BalanceAt, ChainPosition, LatestLong, InExitOrder, NotDue, BookAll, GateAll;
    assert ts[n] == ChainTrade(n) && ts[n].entryTs == n;
    if n == 0 {
      NoneInSteps(bs[0], Some(n));
      SettleStaysCalm(bs[0], Some(n));
      StartsPositive();
    } else {
      ChainAt(ts, bs, n - 1);
      ChainOffered(Before(ts, bs, n - 1), n - 1);
      assert bs[n] == Step(bs[n-1], ts[n-1]);
      ChainSettled(bs[n], n - 1);
    }
  }

  /** Only the long trade before and the short ones up to the long trade after exit while a trade is held. */
  lemma ChainNeighbours(fs: seq<Fill>, k: nat, j: nat)
    requires k < |fs| && j < |fs| && fs[k].trade == ChainTrade(k) && fs[j].trade == ChainTrade(j)
    requires ExitsDuring(fs, k, j)
    ensures j + LINK == k || k < j < k + LINK
  {
  }

  ghost function Range(a: nat, n: nat): set<nat> { if n == 0 then {} else Range(a, n - 1) + {a + n - 1} }

  lemma {:induction false} RangeHolds(a: nat, n: nat)
    ensures |Range(a, n)| == n && forall j: nat :: j in Range(a, n) <==> a <= j < a + n
  {
    if n == 0 {
    } else {
      RangeHolds(a, n - 1);
    }
  }

  lemma ChainSpans(fs: seq<Fill>)
    requires forall k | 0 <= k < |fs| :: fs[k].trade == ChainTrade(k)
    ensures SpansAtMost(fs, LINK)
  {
    hide ExitsDuring, ChainTrade, Range;
    forall k | 0 <= k < |fs| ensures |OthersDuring(fs, k)| <= LINK {
      RangeHolds(k + 1, MOST_SPANNED);
      var near := Range(k + 1, MOST_SPANNED) + {if k >= LINK then k - LINK else k};
      forall j | j in OthersDuring(fs, k) ensures j in near {
        ChainNeighbours(fs, k, j);
      }
      SubsetSize(OthersDuring(fs, k), near);
    }
  }

  // ----- The chain loses everything -----

  /** Left after the 583 short trades of a link. */
  ghost function LinkKeeps(): real { Power(1.0 - SLIP, MOST_SPANNED) }

  lemma LinkKeepsLittle()
    ensures 0.0 < LinkKeeps() <= 0.025153507
  {
    hide Power;
    var x := 1.0 - SLIP;
    PowerOne(x);
    PowerInUnit(x, MOST_SPANNED);
    DoubledAtMost(x, 1, 0.993703, 0.987445653);
    DoubledAtMost(x, 2, 0.987445653, 0.975048918);
    DoubledAtMost(x, 4, 0.975048918, 0.950720393);
    OneMoreAtMost(x, 8, 0.950720393, 0.944733707);
    DoubledAtMost(x, 9, 0.944733707, 0.892521778);
    DoubledAtMost(x, 18, 0.892521778, 0.796595125);
    DoubledAtMost(x, 36, 0.796595125, 0.634563794);
    DoubledAtMost(x, 72, 0.634563794, 0.402671209);
    OneMoreAtMost(x, 144, 0.402671209, 0.400135589);
    DoubledAtMost(x, 145, 0.400135589, 0.160108490);
    OneMoreAtMost(x, 290, 0.160108490, 0.159100287);
    DoubledAtMost(x, 291, 0.159100287, 0.025312902);
    OneMoreAtMost(x, 582, 0.025312902, 0.025153507);
  }

  lemma OneMoreShort(j: nat, i: nat, b: real, p: real)
    requires 1 <= i <= MOST_SPANNED && BalanceAt(LINK * j + i) == b * p
    ensures BalanceAt(LINK * j + 1 + i) == b * (p * (1.0 - SLIP))
  {
    hide BalanceAt;
    var n := LINK * j + 1 + i;
    if i + 1 < LINK {
      ModLink(j, i + 1);
    } else {
      ModLink(j + 1, 0);
    }
    ShortStep(n);
    assert (b * p) * (1.0 - SLIP) == b * (p * (1.0 - SLIP));
  }

  lemma {:induction false} WithinLink(j: nat, i: nat)
    requires i <= MOST_SPANNED
    ensures BalanceAt(LINK * j + 1 + i) == BalanceAt(LINK * j + 1) * Power(1.0 - SLIP, i)
  {
    hide BalanceAt;
    if i == 0 {
    } else {
      WithinLink(j, i - 1);
      OneMoreShort(j, i, BalanceAt(LINK * j + 1), Power(1.0 - SLIP, i - 1));
    }
  }

  lemma LinkStarts(j: nat, n: nat)
    requires j > 0 && n == LINK * j + 1
    ensures n > 1 && n % LINK == 1 && n - 1 == LINK * j && n - 1 - LINK == LINK * (j - 1)
  {
    ModLink(j, 1);
  }

  /** From one long trade to the first short one after it. */
  lemma LongBalance(j: nat, n: nat, m: nat, before: nat)
    requires j > 0 && n == LINK * j + 1 && m == LINK * j && before == LINK * (j - 1)
    ensures BalanceAt(n) == BalanceAt(m) - SLIP * BalanceAt(before)
  {
    hide BalanceAt;
    LinkStarts(j, n);
    LongStep(n);
  }

  /** From there to the next long trade. */
  lemma ShortBalance(j: nat, n: nat, keeps: real)
    requires n == MOST_SPANNED && keeps == Power(1.0 - SLIP, n)
    ensures BalanceAt(LINK * (j + 1)) == BalanceAt(LINK * j + 1) * keeps
  {
    hide Power, BalanceAt;
    WithinLink(j, n);
    assert LINK * (j + 1) == LINK * j + 1 + n;
  }

  /** From one long trade, sized on `now`, to the next; `before` is what the one before it was sized on. */
  lemma LinkBalance(j: nat, before: real, now: real, after: real)
    requires j > 0 && before == BalanceAt(LINK * (j - 1)) && now == BalanceAt(LINK * j)
    requires after == BalanceAt(LINK * (j + 1))
    ensures after == (now - SLIP * before) * LinkKeeps()
  {
    hide Power, BalanceAt;
    ShortBalance(j, MOST_SPANNED, LinkKeeps());
    LongBalance(j, LINK * j + 1, LINK * j, LINK * (j - 1));
    var first := BalanceAt(LINK * j + 1);
    assert first == now - SLIP * before;
  }

  /** Each link makes the last long trade weigh more against the balance. */
  const GAIN: real := 0.0002

  lemma GainedShare(u: real)
    requires u >= 0.0
    ensures (u + GAIN) * (1.0 - u) <= 0.25 + GAIN
  {
    var w := u - 0.5;
    assert w * w >= 0.0;
    assert (u + GAIN) * (1.0 - u) == 0.25 - w * w + GAIN - GAIN * u;
  }

  lemma LinkCosts(now: real, keeps: real, shrink: real)
    requires now > 0.0 && 0.0 < keeps <= 0.025153507 && shrink <= 0.25 + GAIN
    ensures shrink * (now * keeps) <= SLIP * now
  {
    var kept := now * keeps;
    NonNegativeProduct(now, 0.025153507 - keeps);
    NonNegativeProduct(now, keeps);
    ScaleWeakly(shrink, 0.25 + GAIN, kept);
    assert kept <= now * 0.025153507;
  }

  lemma WeightRegrouped(a: real, b: real, c: real, d: real)
    ensures a * b * c * d == (d * b) * (a * c)
  {
    assert (a * b) * c == (a * c) * b;
    assert ((a * c) * b) * d == (a * c) * (b * d);
  }

  /** What a long trade sized on `before` costs is at least the share `u` of `now`. */
  ghost predicate Weighs(before: real, now: real, u: real) { SLIP * before >= u * now }

  /** One link: the long trade sized on `before` weighs at least `u` against `now`, and one more `GAIN` afterwards. */
  lemma WeightGrows(before: real, now: real, after: real, u: real, keeps: real)
    requires before > 0.0 && now > 0.0 && u >= 0.0 && Weighs(before, now, u)
    requires 0.0 < keeps <= 0.025153507 && after == (now - SLIP * before) * keeps
    ensures Weighs(now, after, u + GAIN)
  {
    var v, g := 1.0 - u, u + GAIN;
    assert now * v == now - u * now;
    ScaleWeakly(now - SLIP * before, now * v, keeps);
    ScaleWeakly(after, now * v * keeps, g);
    WeightRegrouped(now, v, keeps, g);
    GainedShare(u);
    LinkCosts(now, keeps, g * v);
  }

  /** The chain's balance is gone by some trade `n`. */
  ghost predicate Gone(n: nat) { BalanceAt(n) <= 0.0 }

  lemma SecondAsFirst(n: nat)
    requires n == 1
    ensures BalanceAt(n) == BalanceAt(0)
  {
  }

  /** After the first link its long trade weighs something. */
  lemma FirstLink(j: nat, first: real, after: real)
    requires j == 1 && first == BalanceAt(LINK * (j - 1)) && after == BalanceAt(LINK * j)
    ensures Weighs(first, after, GAIN)
  {
    hide BalanceAt, Power;
    StartsPositive();
    SecondAsFirst(1);
    ShortBalance(0, MOST_SPANNED, LinkKeeps());
    LinkKeepsLittle();
    assert first == 100.0 && after == 100.0 * LinkKeeps();
  }

  lemma {:induction false} WeightAfter(j: nat) returns (n: Option<nat>)
    ensures n.Some? ==> Gone(n.value)
    ensures n.None? ==> BalanceAt(LINK * j) > 0.0
    ensures n.None? && j > 0 ==>
              BalanceAt(LINK * (j - 1)) > 0.0
              && Weighs(BalanceAt(LINK * (j - 1)), BalanceAt(LINK * j), j as real * GAIN)
  {
    hide BalanceAt, Weighs;
    if j == 0 {
      StartsPositive();
      n := None;
    } else {
      n := WeightAfter(j - 1);
      if n.None? {
        var now, after := BalanceAt(LINK * (j - 1)), BalanceAt(LINK * j);
        if after <= 0.0 {
          n := Some(LINK * j);
        } else if j == 1 {
          FirstLink(j, now, after);
        } else {
          var before := BalanceAt(LINK * (j - 2));
          LinkKeepsLittle();
          LinkBalance(j - 1, before, now, after);
          WeightGrows(before, now, after, (j - 1) as real * GAIN, LinkKeeps());
        }
      }
    }
  }

  lemma RuinComes() returns (n: nat)
    ensures Gone(n)
  {
    hide BalanceAt;
    var j := 5000;
    var gone := WeightAfter(j);
    if gone.Some? {
      return gone.value;
    }
    n := LINK * j + 1;
    LongBalance(j, n, LINK * j, LINK * (j - 1));
  }

  // ----- Exactly how many trades a held one may outlast -----

  /** A trade with a leverage, outcome and return that candles can yield. */
  ghost predicate Plausible(t: CandidateTrade) {
    && 1 <= t.leverage <= 3
    && -SL_PCT <= t.grossReturnPct <= TARGET_PCT
    && (t.grossReturnPct == -SL_PCT <==> t.outcome == SL)
    && (t.grossReturnPct == TARGET_PCT <==> t.outcome == TP)
  }

  ghost predicate AllPlausible(ts: seq<CandidateTrade>) { forall k | 0 <= k < |ts| :: Plausible(ts[k]) }

  /** No run whose accepted trades are held while at most `most` others exit ever loses its whole balance. */
  ghost predicate NeverRuined(most: nat) {
    forall ts, bs | InEntryOrder(ts) && AllPlausible(ts) && IsRun(ts, bs) && SpansAtMost(Complete(bs).fills, most) ::
      StaysPositive(Complete(bs).ledger.equity)
  }

  lemma {:induction false} BookAllExtends(l: Ledger, due: seq<OpenPosition>)
    ensures l.equity <= BookAll(l, due).equity
  {
    if due == [] {
    } else {
      BookAllExtends(l, due[..|due|-1]);
    }
  }

  /** The balance of a book is the last point of its curve, which the rest of the run only extends. */
  lemma BalanceOnCurve(ts: seq<CandidateTrade>, bs: seq<Book>)
    requires IsRun(ts, bs)
    ensures bs[|ts|].ledger.balance in Complete(bs).ledger.equity && Complete(bs).fills == bs[|ts|].fills
  {
    LedgerAt(ts, bs, |ts|);
    hide Book1, BookAll;
    var l := bs[|ts|].ledger;
    BookAllExtends(l, InExitOrder(bs[|ts|].open, None));
    assert Complete(bs).ledger.equity[|l.settled|] == l.balance;
  }

  /** The book after the last trade of the chain. */
  lemma LastOfChain(ts: seq<CandidateTrade>, bs: seq<Book>, n: nat)
    requires ts == Chain(n + 1) && IsRun(ts, bs)
    ensures bs[n+1].ledger.balance == BalanceAt(n)
    ensures forall k | 0 <= k < |bs[n+1].fills| :: bs[n+1].fills[k].trade == ChainTrade(k)
  {
    hide BalanceAt, ChainPosition, ChainTrade, Settle, Offer, OpenBefore;
    ChainAt(ts, bs, n);
    ChainOffered(Before(ts, bs, n), n);
    assert ts[n] == ChainTrade(n);
    assert bs[n+1] == Step(bs[n], ts[n]);
  }

  lemma ChainIsRun(ts: seq<CandidateTrade>, bs: seq<Book>, n: nat)
    requires ts == Chain(n + 1) && IsRun(ts, bs)
    ensures forall k | 0 <= k < |Complete(bs).fills| :: Complete(bs).fills[k].trade == ChainTrade(k)
    ensures BalanceAt(n) in Complete(bs).ledger.equity
  {
    hide BalanceAt, ChainTrade, Settle, IsRun;
    LastOfChain(ts, bs, n);
    BalanceOnCurve(ts, bs);
  }

  /** The chain as a run whose balance reaches zero. */
  lemma ChainRuins() returns (ts: seq<CandidateTrade>, bs: seq<Book>)
    ensures InEntryOrder(ts) && AllPlausible(ts) && IsRun(ts, bs)
    ensures SpansAtMost(Complete(bs).fills, LINK) && !StaysPositive(Complete(bs).ledger.equity)
  {
    hide Settle, Offer, BalanceAt, SpansAtMost, IsRun;
    var n := RuinComes();
    ts := Chain(n + 1);
    bs := RunOf(ts);
    RunIsUnique(ts, bs);
    ChainIsRun(ts, bs, n);
    ChainSpans(Complete(bs).fills);
  }

  lemma AllPlausibleAt(ts: seq<CandidateTrade>, k: nat)
    requires AllPlausible(ts) && k < |ts|
    ensures Plausible(ts[k])
  {
  }

  lemma PlausibleFraction(t: CandidateTrade)
    requires Plausible(t)
    ensures AccountFraction(t) >= -WORST_FRACTION
  {
    FractionBounds(1.0, t);
  }

  lemma MoreSpanned(fs: seq<Fill>, few: nat, most: nat)
    requires SpansAtMost(fs, few) && few <= most
    ensures SpansAtMost(fs, most)
  {
  }

  lemma SlowIsPositive(curve: seq<real>, share: real)
    requires FallsSlowly(curve, share)
    ensures StaysPositive(curve)
  {
  }

  lemma SpanSuffices(ts: seq<CandidateTrade>, bs: seq<Book>, most: nat)
    requires AllPlausible(ts) && IsRun(ts, bs) && SpansAtMost(Complete(bs).fills, most) && most <= MOST_SPANNED
    ensures StaysPositive(Complete(bs).ledger.equity)
  {
    hide SpansAtMost, AllPlausible, Plausible, Bearable, AccountFraction, StaysPositive;
    MoreSpanned(Complete(bs).fills, most, MOST_SPANNED);
    forall k | 0 <= k < |ts| ensures AccountFraction(ts[k]) >= -WORST_FRACTION {
      AllPlausibleAt(ts, k);
      PlausibleFraction(ts[k]);
    }
    FillsBearable(ts, bs, |ts|);
    RunStaysPositive(ts, bs);
    SlowIsPositive(Complete(bs).ledger.equity, 0.5);
  }

  /**
   Over all lists of plausible trades in entry order, no run in which at most `most` others exit during an accepted
   trade can lose its balance if and only if `most` is at most 583.
   */
  lemma NeverRuinedExactly(most: nat)
    ensures NeverRuined(most) <==> most <= 583
  {
    hide SpansAtMost, InEntryOrder, AllPlausible, Settle, StaysPositive;
    if most <= MOST_SPANNED {
      forall ts, bs | InEntryOrder(ts) && AllPlausible(ts) && IsRun(ts, bs) && SpansAtMost(Complete(bs).fills, most)
        ensures StaysPositive(Complete(bs).ledger.equity)
      {
        SpanSuffices(ts, bs, most);
      }
    } else {
      var ts, bs := ChainRuins();
      MoreSpanned(Complete(bs).fills, LINK, most);
    }
  }
}
