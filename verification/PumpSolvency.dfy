/**
 How far a run of the pump portfolio can fall.  A position is sized on the balance at its entry and booked on the
 balance at its exit, so what decides is how many other accepted trades exit in between: with up to 583 the balance
 of every run stays positive.
 */
module PumpSolvency {
  import opened Market
  import opened Sorting
  import opened PumpWalk
  import opened PumpPortfolio
  import opened PumpTheorems

  // ----- What the claim is about -----

  /** Accepted trade `j` exits while accepted trade `k` is held. */
  ghost predicate ExitsDuring(fs: seq<Fill>, k: nat, j: nat)
    requires k < |fs| && j < |fs|
  {
    && j != k
    && (j < k ==> fs[k].trade.entryTs < fs[j].trade.exitTs)
    && fs[j].trade.exitTs <= fs[k].trade.exitTs
  }

  ghost function OthersDuring(fs: seq<Fill>, k: nat): set<nat>
    requires k < |fs|
  {
    set j: nat | j < |fs| && ExitsDuring(fs, k, j)
  }

  /** No accepted trade is held while more than `most` others exit. */
  ghost predicate SpansAtMost(fs: seq<Fill>, most: nat) {
    forall k | 0 <= k < |fs| :: |OthersDuring(fs, k)| <= most
  }

  /** The largest share of a balance that a trade built from candles can cost. */
  const WORST_FRACTION: real := 0.0063

  /** The most other trades that may exit while one is held. */
  const MOST_SPANNED: nat := 583

  ghost predicate Bearable(fs: seq<Fill>) {
    forall k | 0 <= k < |fs| :: AccountFraction(fs[k].trade) >= -WORST_FRACTION
  }

  ghost predicate StaysPositive(curve: seq<real>) { forall i | 0 <= i < |curve| :: curve[i] > 0.0 }

  /** The curve stays positive, and no settlement costs more than `share` of it. */
  ghost predicate FallsSlowly(curve: seq<real>, share: real) {
    && curve != []
    && StaysPositive(curve)
    && (forall i | 0 <= i < |curve| - 1 :: curve[i+1] >= curve[i] * (1.0 - share))
  }

  function Power(x: real, n: nat): real { if n == 0 then 1.0 else Power(x, n - 1) * x }

  /** With at most `more + 1` others exiting during a trade, no settlement costs more than `share`. */
  ghost predicate ShareSuffices(share: real, more: nat) {
    && 0.0 < share < 1.0
    && WORST_FRACTION <= share * (1.0 - share) * Power(1.0 - WORST_FRACTION, more)
  }

  // ----- Powers -----

  lemma {:induction false} PowerInUnit(x: real, n: nat)
    requires 0.0 < x <= 1.0
    ensures 0.0 < Power(x, n) <= 1.0
  {
    if n == 0 {
    } else {
      var p := Power(x, n - 1);
      PowerInUnit(x, n - 1);
      assert p * x > 0.0;
      NonNegativeProduct(1.0 - p, x);
    }
  }

  lemma {:induction false} PowerFalls(x: real, m: nat, n: nat)
    requires 0.0 < x <= 1.0 && m <= n
    ensures Power(x, n) <= Power(x, m)
    decreases n
  {
    if m == n {
    } else {
      PowerFalls(x, m, n - 1);
      PowerInUnit(x, n - 1);
      NonNegativeProduct(Power(x, n - 1), 1.0 - x);
    }
  }

  lemma {:induction false} PowerAdds(x: real, m: nat, n: nat)
    ensures Power(x, m + n) == Power(x, m) * Power(x, n)
  {
    if n == 0 {
    } else {
      PowerAdds(x, m, n - 1);
      var a, b := Power(x, m), Power(x, n - 1);
      assert (a * b) * x == a * (b * x);
    }
  }

  lemma SquareOrder(a: real, b: real)
    requires 0.0 <= a <= b
    ensures a * a <= b * b
  {
    NonNegativeProduct(b - a, a);
    NonNegativeProduct(b - a, b);
  }

  lemma ScaleWeakly(a: real, b: real, x: real)
    requires a <= b && x >= 0.0
    ensures a * x <= b * x
  {
    NonNegativeProduct(b - a, x);
  }

  lemma DoubledAtLeast(x: real, n: nat, low: real, next: real)
    requires Power(x, n) >= low >= 0.0 && low * low >= next
    ensures Power(x, 2 * n) >= next
  {
    PowerAdds(x, n, n);
    SquareOrder(low, Power(x, n));
  }

  lemma OneMoreAtLeast(x: real, n: nat, low: real, next: real)
    requires x >= 0.0 && Power(x, n) >= low && low * x >= next
    ensures Power(x, n + 1) >= next
  {
    ScaleWeakly(low, Power(x, n), x);
  }

  lemma DoubledAtMost(x: real, n: nat, high: real, next: real)
    requires 0.0 <= Power(x, n) <= high && high * high <= next
    ensures 0.0 <= Power(x, 2 * n) <= next
  {
    PowerAdds(x, n, n);
    SquareOrder(Power(x, n), high);
  }

  lemma OneMoreAtMost(x: real, n: nat, high: real, next: real)
    requires x >= 0.0 && 0.0 <= Power(x, n) <= high && high * x <= next
    ensures 0.0 <= Power(x, n + 1) <= next
  {
    ScaleWeakly(Power(x, n), high, x);
    NonNegativeProduct(Power(x, n), x);
  }

  lemma PowerOne(x: real)
    ensures Power(x, 1) == x
  {
    assert Power(x, 0) == 1.0;
  }

  /** The worst trade costs 0.63%: 582 of them leave more than 2.52% of a balance, and 38 leave more than 78.6%. */
  lemma KeptOverManyLosses()
    ensures Power(1.0 - WORST_FRACTION, MOST_SPANNED - 1) >= 0.02526
    ensures Power(1.0 - WORST_FRACTION, 38) >= 0.7865
  {
    hide Power;
    var x := 1.0 - WORST_FRACTION;
    PowerOne(x);
    DoubledAtLeast(x, 1, 0.9937, 0.987439690);
    DoubledAtLeast(x, 2, 0.987439690, 0.975037141);
    DoubledAtLeast(x, 4, 0.975037141, 0.950697426);
    OneMoreAtLeast(x, 8, 0.950697426, 0.944708032);
    DoubledAtLeast(x, 9, 0.944708032, 0.892473265);
    OneMoreAtLeast(x, 18, 0.892473265, 0.886850683);
    DoubledAtLeast(x, 19, 0.886850683, 0.786504133);
    DoubledAtLeast(x, 18, 0.892473265, 0.796508528);
    DoubledAtLeast(x, 36, 0.796508528, 0.634425835);
    DoubledAtLeast(x, 72, 0.634425835, 0.402496140);
    OneMoreAtLeast(x, 144, 0.402496140, 0.399960414);
    DoubledAtLeast(x, 145, 0.399960414, 0.159968332);
    OneMoreAtLeast(x, 290, 0.159968332, 0.158960531);
    DoubledAtLeast(x, 291, 0.158960531, 0.025268450);
  }

  // ----- Following each open position to its settlement -----

  /** An open position's trade, the point of the curve it was sized on, and the trades settled since. */
  datatype Held = Held(fill: nat, at: nat, since: set<nat>)

  ghost predicate Traced(b: Book, h: Held, p: OpenPosition) {
    && h.fill < |b.fills| && h.at < |b.ledger.equity|
    && p == PositionFor(b.ledger.equity[h.at], b.fills[h.fill].trade)
    && h.at + |h.since| == |b.ledger.settled|
    && forall j | j in h.since :: j < |b.fills| && ExitsDuring(b.fills, h.fill, j)
  }

  /** While two positions are open nothing has been settled since the younger was opened. */
  ghost predicate Paired(b: Book, older: Held, younger: Held)
    requires older.fill < |b.fills| && younger.fill < |b.fills|
  {
    && older.fill < younger.fill && younger.fill !in older.since && younger.since == {}
    && b.fills[younger.fill].trade.entryTs < b.fills[older.fill].trade.exitTs
  }

  ghost predicate Follows(b: Book, hs: seq<Held>) {
    && |hs| == |b.open| <= MAX_CONCURRENT_POSITIONS
    && |b.ledger.equity| == |b.ledger.settled| + 1
    && b.ledger.equity[|b.ledger.settled|] == b.ledger.balance
    && (forall i | 0 <= i < |hs| :: Traced(b, hs[i], b.open[i]))
    && (|hs| == 2 ==> Paired(b, hs[0], hs[1]))
  }

  /** Books the `i`-th open position. */
  ghost function BookAt(b: Book, i: nat): Book
    requires i < |b.open|
  {
    b.(ledger := Book1(b.ledger, b.open[i]), open := b.open[..i] + b.open[i+1..])
  }

  ghost predicate Earliest(b: Book, i: nat) {
    i < |b.open| && forall j | 0 <= j < |b.open| :: b.open[i].exitTs <= b.open[j].exitTs
  }

  ghost function AfterBooking(hs: seq<Held>, i: nat): seq<Held>
    requires i < |hs| <= 2
  {
    if |hs| == 1 then [] else [hs[1-i].(since := hs[1-i].since + {hs[i].fill})]
  }

  lemma BookAtFollows(b: Book, hs: seq<Held>, i: nat)
    requires Follows(b, hs) && Earliest(b, i)
    ensures Follows(BookAt(b, i), AfterBooking(hs, i))
  {
    if |hs| == 2 {
      var h, g := hs[1-i], hs[i];
      assert Traced(b, h, b.open[1-i]) && Traced(b, g, b.open[i]);
      assert BookAt(b, i).open == [b.open[1-i]];
      assert ExitsDuring(b.fills, h.fill, g.fill);
      assert Traced(BookAt(b, i), h.(since := h.since + {g.fill}), b.open[1-i]);
    } else {
      assert BookAt(b, i).open == [];
    }
  }

  // ----- The money of one settlement -----

  /** The balance has kept enough of what the oldest open position was sized on. */
  ghost predicate Backed(curve: seq<real>, at: nat, share: real)
    requires at < |curve|
  {
    var now := |curve| - 1;
    at < now ==> curve[at] * (1.0 - share) * Power(1.0 - WORST_FRACTION, now - at - 1) <= curve[now]
  }

  ghost predicate Solvent(b: Book, hs: seq<Held>, share: real)
    requires Follows(b, hs)
  {
    && FallsSlowly(b.ledger.equity, share)
    && (hs != [] ==> Traced(b, hs[0], b.open[0]) && Backed(b.ledger.equity, hs[0].at, share))
  }

  lemma WorstPnl(balance: real, trade: CandidateTrade)
    requires balance > 0.0 && AccountFraction(trade) >= -WORST_FRACTION
    ensures PositionFor(balance, trade).pnl >= -(balance * WORST_FRACTION)
  {
    var x := AccountFraction(trade);
    RegroupFraction(balance, trade.leverage as real, trade.grossReturnPct - ROUND_TRIP_COST_PCT);
    assert PositionFor(balance, trade).pnl == balance * x;
    NonNegativeProduct(balance, x + WORST_FRACTION);
  }

  lemma ShareIsEnough(share: real, more: nat)
    requires ShareSuffices(share, more)
    ensures WORST_FRACTION <= share < 1.0 && 0.0 < share
  {
    var kept := Power(1.0 - WORST_FRACTION, more);
    PowerInUnit(1.0 - WORST_FRACTION, more);
    NonNegativeProduct(share, share);
    NonNegativeProduct(share * (1.0 - share), 1.0 - kept);
  }

  lemma LossCovered(share: real, more: nat, n: nat)
    requires ShareSuffices(share, more) && n <= more
    ensures WORST_FRACTION <= Power(1.0 - WORST_FRACTION, n) * (share * (1.0 - share))
  {
    hide Power;
    var x, left := 1.0 - WORST_FRACTION, share * (1.0 - share);
    PowerFalls(x, n, more);
    NonNegativeProduct(share, 1.0 - share);
    ScaleWeakly(Power(x, more), Power(x, n), left);
    assert left * Power(x, more) == Power(x, more) * left;
  }

  lemma Regroup(a: real, b: real, c: real, d: real)
    ensures (c * (d * b)) * a == (a * b * c) * d
  {
    assert c * (d * b) == (c * b) * d;
    assert ((c * b) * d) * a == ((c * b) * a) * d;
    assert (c * b) * a == a * b * c;
  }

  /** What the oldest position can cost is at most `share` of the balance. */
  lemma OldestCosts(curve: seq<real>, at: nat, share: real, more: nat)
    requires FallsSlowly(curve, share) && at < |curve| && Backed(curve, at, share)
    requires ShareSuffices(share, more) && |curve| - 1 - at <= more + 1
    ensures curve[at] * WORST_FRACTION <= curve[|curve|-1] * share
  {
    hide Power, ShareSuffices;
    var now := |curve| - 1;
    ShareIsEnough(share, more);
    if at == now {
      ScaleWeakly(WORST_FRACTION, share, curve[at]);
    } else {
      var size, kept := curve[at], Power(1.0 - WORST_FRACTION, now - at - 1);
      LossCovered(share, more, now - at - 1);
      ScaleWeakly(WORST_FRACTION, kept * (share * (1.0 - share)), size);
      Regroup(size, 1.0 - share, kept, share);
      ScaleWeakly(size * (1.0 - share) * kept, curve[now], share);
    }
  }

  /** A settlement that costs at most `share` keeps the curve falling slowly. */
  lemma CurveAppend(curve: seq<real>, next: real, share: real)
    requires FallsSlowly(curve, share) && 0.0 < share < 1.0
    requires next >= curve[|curve|-1] * (1.0 - share)
    ensures FallsSlowly(curve + [next], share)
  {
    assert curve[|curve|-1] * (1.0 - share) > 0.0;
  }

  /** Settling the younger of two positions keeps the older one backed. */
  lemma OlderStaysBacked(curve: seq<real>, next: real, at: nat, share: real)
    requires FallsSlowly(curve, share) && at < |curve| && Backed(curve, at, share)
    requires WORST_FRACTION <= share < 1.0
    requires next >= curve[|curve|-1] * (1.0 - WORST_FRACTION)
    ensures Backed(curve + [next], at, share)
  {
    var now, x := |curve| - 1, 1.0 - WORST_FRACTION;
    if at == now {
      ScaleWeakly(1.0 - share, x, curve[now]);
      assert Power(x, 0) == 1.0;
    } else {
      var a, p := curve[at] * (1.0 - share), Power(x, now - at - 1);
      ScaleWeakly(a * p, curve[now], x);
      assert Power(x, now - at) == p * x;
      assert a * (p * x) == (a * p) * x;
    }
  }

  lemma {:induction false} SubsetSize<T>(a: set<T>, b: set<T>)
    requires a <= b
    ensures |a| <= |b|
  {
    if a == {} {
    } else {
      var x :| x in a;
      SubsetSize(a - {x}, b - {x});
    }
  }

  /** The held trade has no more others settled since its entry than exit during it. */
  lemma AgeBounded(b: Book, h: Held, p: OpenPosition, most: nat)
    requires Traced(b, h, p) && SpansAtMost(b.fills, most)
    ensures |b.ledger.settled| - h.at <= most
  {
    assert h.since <= OthersDuring(b.fills, h.fill);
    SubsetSize(h.since, OthersDuring(b.fills, h.fill));
  }

  lemma PositiveAt(curve: seq<real>, i: nat, share: real)
    requires FallsSlowly(curve, share) && i < |curve|
    ensures curve[i] > 0.0
  {
  }

  /** The oldest position is settled. */
  lemma OldestSettled(b: Book, hs: seq<Held>, share: real, more: nat)
    requires Follows(b, hs) && Solvent(b, hs, share) && hs != []
    requires ShareSuffices(share, more) && SpansAtMost(b.fills, more + 1) && Bearable(b.fills)
    ensures var next := b.ledger.balance + b.open[0].pnl;
            && next >= b.ledger.balance * (1.0 - share)
            && FallsSlowly(b.ledger.equity + [next], share)
  {
    hide SpansAtMost, PositionFor, AccountFraction, ShareSuffices, FallsSlowly, Backed, ExitsDuring;
    var curve, h := b.ledger.equity, hs[0];
    ShareIsEnough(share, more);
    AgeBounded(b, h, b.open[0], more + 1);
    OldestCosts(curve, h.at, share, more);
    PositiveAt(curve, h.at, share);
    WorstPnl(curve[h.at], b.fills[h.fill].trade);
    CurveAppend(curve, b.ledger.balance + b.open[0].pnl, share);
  }

  /** The younger of two positions is settled. */
  lemma YoungerSettled(b: Book, hs: seq<Held>, share: real)
    requires Follows(b, hs) && Solvent(b, hs, share) && |hs| == 2
    requires WORST_FRACTION <= share < 1.0 && Bearable(b.fills)
    ensures var next := b.ledger.balance + b.open[1].pnl;
            && FallsSlowly(b.ledger.equity + [next], share)
            && Backed(b.ledger.equity + [next], hs[0].at, share)
  {
    hide PositionFor, AccountFraction, FallsSlowly, Backed, ExitsDuring;
    var curve, h := b.ledger.equity, hs[1];
    var now, next := |curve| - 1, b.ledger.balance + b.open[1].pnl;
    assert Traced(b, h, b.open[1]) && h.at == now;
    PositiveAt(curve, now, share);
    WorstPnl(curve[now], b.fills[h.fill].trade);
    ScaleWeakly(WORST_FRACTION, share, curve[now]);
    CurveAppend(curve, next, share);
    OlderStaysBacked(curve, next, hs[0].at, share);
  }

  /** A position opened just before this settlement is backed by what the settlement left. */
  lemma YoungBacked(curve: seq<real>, next: real, share: real)
    requires curve != [] && next >= curve[|curve|-1] * (1.0 - share)
    ensures Backed(curve + [next], |curve| - 1, share)
  {
  }

  /** The invariant of a run; gate and decisions play no part in it. */
  ghost predicate Safe(b: Book, hs: seq<Held>, share: real) { Follows(b, hs) && Solvent(b, hs, share) }

  lemma YoungerHasNoAge(b: Book, hs: seq<Held>)
    requires Follows(b, hs) && |hs| == 2
    ensures hs[1].at == |b.ledger.settled|
  {
    assert Traced(b, hs[1], b.open[1]);
  }

  lemma FollowsTraced(b: Book, hs: seq<Held>)
    requires Follows(b, hs)
    ensures hs != [] ==> Traced(b, hs[0], b.open[0]) && hs[0].at < |b.ledger.equity|
  {
  }

  lemma BookAtSafe(b: Book, hs: seq<Held>, i: nat, share: real, more: nat)
    requires Safe(b, hs, share) && Earliest(b, i)
    requires ShareSuffices(share, more) && SpansAtMost(b.fills, more + 1) && Bearable(b.fills)
    ensures Safe(BookAt(b, i), AfterBooking(hs, i), share)
  {
    hide SpansAtMost, Bearable, ShareSuffices, FallsSlowly, Backed, Traced, Paired;
    BookAtFollows(b, hs, i);
    ShareIsEnough(share, more);
    assert BookAt(b, i).ledger.equity == b.ledger.equity + [b.ledger.balance + b.open[i].pnl];
    var later := AfterBooking(hs, i);
    if i == 0 {
      OldestSettled(b, hs, share, more);
      if |hs| == 2 {
        YoungerHasNoAge(b, hs);
        YoungBacked(b.ledger.equity, b.ledger.balance + b.open[0].pnl, share);
      }
    } else {
      YoungerSettled(b, hs, share);
    }
    FollowsTraced(BookAt(b, i), later);
  }

  // ----- From one settlement to a whole run -----

  /** Two books that differ at most in the gate and the decisions. */
  ghost predicate SameMoney(a: Book, b: Book) { a.ledger == b.ledger && a.open == b.open && a.fills == b.fills }

  lemma NoneDue(l: Ledger)
    ensures Sort(ExitLe, []) == [] && BookAll(l, []) == l
  {
  }

  lemma NoneInSteps(b: Book, until: Option<int>)
    requires b.open == []
    ensures SameMoney(Settle(b, until), b)
  {
    assert Due([], until) == [] && NotDue([], until) == [];
    NoneDue(b.ledger);
  }

  lemma OneDue(l: Ledger, p: OpenPosition)
    ensures Sort(ExitLe, [p]) == [p] && BookAll(l, [p]) == Book1(l, p)
  {
    assert [p][..0] == [];
    assert Sort(ExitLe, []) == [];
  }

  lemma TwoDue(l: Ledger, p: OpenPosition, q: OpenPosition)
    ensures Sort(ExitLe, [p, q]) == if ExitLe(p, q) then [p, q] else [q, p]
    ensures BookAll(l, [p, q]) == Book1(Book1(l, p), q) && BookAll(l, [q, p]) == Book1(Book1(l, q), p)
  {
    assert [p, q][..1] == [p] && [q, p][..1] == [q] && [p][..0] == [];
    OneDue(l, p);
    OneDue(l, q);
  }

  lemma OneSplit(p: OpenPosition, until: Option<int>)
    ensures Due([p], until) == if IsDue(p, until) then [p] else []
    ensures NotDue([p], until) == if IsDue(p, until) then [] else [p]
  {
    assert [p][..0] == [];
    assert Due([], until) == [] && NotDue([], until) == [];
  }

  lemma TwoSplit(p: OpenPosition, q: OpenPosition, until: Option<int>)
    ensures Due([p, q], until) == Due([p], until) + Due([q], until)
    ensures NotDue([p, q], until) == NotDue([p], until) + NotDue([q], until)
  {
    hide IsDue;
    assert [p, q][..1] == [p];
    OneSplit(q, until);
  }

  /** Settling one open position books it if it is due. */
  lemma OneInSteps(b: Book, until: Option<int>)
    requires |b.open| == 1
    ensures SameMoney(Settle(b, until), if IsDue(b.open[0], until) then BookAt(b, 0) else b)
  {
    hide Book1, IsDue, Due, NotDue, Sort, BookAll, GateAll;
    var p := b.open[0];
    assert b.open == [p] && BookAt(b, 0).open == [];
    OneSplit(p, until);
    NoneDue(b.ledger);
    OneDue(b.ledger, p);
  }

  /** Settling two open positions books those that are due, the earlier exit first. */
  lemma TwoInSteps(b: Book, until: Option<int>)
    requires |b.open| == 2
    ensures var p, q, s := b.open[0], b.open[1], Settle(b, until);
            var first := if ExitLe(p, q) then 0 else 1;
            && (!IsDue(p, until) && !IsDue(q, until) ==> SameMoney(s, b))
            && (IsDue(p, until) && !IsDue(q, until) ==> SameMoney(s, BookAt(b, 0)))
            && (!IsDue(p, until) && IsDue(q, until) ==> SameMoney(s, BookAt(b, 1)))
            && (IsDue(p, until) && IsDue(q, until) ==> SameMoney(s, BookAt(BookAt(b, first), 0)))
  {
    hide Book1, IsDue, Due, NotDue, ExitLe, Sort, BookAll, GateAll;
    var p, q := b.open[0], b.open[1];
    assert b.open == [p, q] && BookAt(b, 0).open == [q] && BookAt(b, 1).open == [p];
    assert BookAt(BookAt(b, 0), 0).open == [] && BookAt(BookAt(b, 1), 0).open == [];
    OneSplit(p, until);
    OneSplit(q, until);
    TwoSplit(p, q, until);
    assert [p] + [] == [p] && [] + [q] == [q] && [p] + [q] == [p, q] && [] + [] == b.open[..0];
    NoneDue(b.ledger);
    OneDue(b.ledger, p);
    OneDue(b.ledger, q);
    TwoDue(b.ledger, p, q);
  }

  /** So a settlement takes at most two steps, and each takes the earliest exit among the open positions. */
  lemma SettleInSteps(b: Book, until: Option<int>) returns (steps: nat, first: nat)
    requires |b.open| <= 2
    ensures steps <= |b.open| && (steps > 0 ==> Earliest(b, first))
    ensures steps == 0 ==> SameMoney(Settle(b, until), b)
    ensures steps == 1 ==> SameMoney(Settle(b, until), BookAt(b, first))
    ensures steps == 2 ==> SameMoney(Settle(b, until), BookAt(BookAt(b, first), 0))
  {
    hide SameMoney, Settle, BookAt;
    if b.open == [] {
      NoneInSteps(b, until);
      return 0, 0;
    }
    var p := b.open[0];
    if |b.open| == 1 {
      OneInSteps(b, until);
      return if IsDue(p, until) then 1 else 0, 0;
    }
    var q := b.open[1];
    TwoInSteps(b, until);
    steps := (if IsDue(p, until) then 1 else 0) + (if IsDue(q, until) then 1 else 0);
    first := if IsDue(p, until) && (!IsDue(q, until) || ExitLe(p, q)) then 0 else 1;
  }

  lemma SameMoneySafe(a: Book, b: Book, hs: seq<Held>, share: real)
    requires SameMoney(a, b) && Safe(b, hs, share)
    ensures Safe(a, hs, share)
  {
    hide PositionFor, ExitsDuring, FallsSlowly, Backed;
    forall i | 0 <= i < |hs| ensures Traced(a, hs[i], a.open[i]) {
      assert Traced(b, hs[i], b.open[i]);
    }
  }

  lemma SafeLengths(b: Book, hs: seq<Held>, share: real)
    requires Safe(b, hs, share)
    ensures |hs| == |b.open| <= 2
  {
  }

  lemma SettleSafe(b: Book, hs: seq<Held>, until: Option<int>, share: real, more: nat) returns (hs': seq<Held>)
    requires Safe(b, hs, share)
    requires ShareSuffices(share, more) && SpansAtMost(b.fills, more + 1) && Bearable(b.fills)
    ensures Safe(Settle(b, until), hs', share)
  {
    hide Settle, ShareSuffices, SpansAtMost, Bearable, Safe, Book1, SameMoney;
    SafeLengths(b, hs, share);
    var steps, first := SettleInSteps(b, until);
    if steps == 0 {
      SameMoneySafe(Settle(b, until), b, hs, share);
      return hs;
    }
    var c := BookAt(b, first);
    hs' := AfterBooking(hs, first);
    BookAtSafe(b, hs, first, share, more);
    if steps == 2 {
      SafeLengths(c, hs', share);
      BookAtSafe(c, hs', 0, share, more);
      hs' := AfterBooking(hs', 0);
      SameMoneySafe(Settle(b, until), BookAt(c, 0), hs', share);
    } else {
      SameMoneySafe(Settle(b, until), c, hs', share);
    }
  }

  lemma FewerSpanned(fs: seq<Fill>, f: Fill, most: nat)
    requires SpansAtMost(fs + [f], most)
    ensures SpansAtMost(fs, most)
  {
    var all := fs + [f];
    forall k | 0 <= k < |fs| ensures |OthersDuring(fs, k)| <= most {
      assert forall j: nat | j < |fs| :: ExitsDuring(fs, k, j) == ExitsDuring(all, k, j);
      assert |OthersDuring(all, k)| <= most;
      SubsetSize(OthersDuring(fs, k), OthersDuring(all, k));
    }
  }

  lemma TracedStays(b: Book, c: Book, h: Held, p: OpenPosition)
    requires Traced(b, h, p) && c.ledger == b.ledger && b.fills <= c.fills
    ensures Traced(c, h, p)
  {
    hide PositionFor;
    forall j | j in h.since ensures j < |c.fills| && ExitsDuring(c.fills, h.fill, j) {
      assert ExitsDuring(b.fills, h.fill, j);
    }
  }

  lemma NewTraced(b: Book, trade: CandidateTrade)
    requires |b.ledger.equity| == |b.ledger.settled| + 1
    requires b.ledger.equity[|b.ledger.settled|] == b.ledger.balance
    requires Decide(b.gate, |b.open|).Accepted?
    ensures var c := Offer(b, trade);
            Traced(c, Held(|b.fills|, |b.ledger.settled|, {}), c.open[|b.open|])
  {
    hide PositionFor;
  }

  lemma OldTraced(b: Book, h: Held, p: OpenPosition)
    requires Traced(b, h, p)
    ensures h.fill < |b.fills| && |b.fills| !in h.since && p.exitTs == b.fills[h.fill].trade.exitTs
  {
  }

  lemma OfferFollows(b: Book, hs: seq<Held>, trade: CandidateTrade) returns (hs': seq<Held>)
    requires Follows(b, hs)
    requires forall p | p in b.open :: trade.entryTs < p.exitTs
    ensures Follows(Offer(b, trade), hs') && hs <= hs'
    ensures forall h | h in hs' && h !in hs :: h.at == |b.ledger.settled|
  {
    hide Traced;
    var c := Offer(b, trade);
    forall i | 0 <= i < |hs| ensures Traced(c, hs[i], c.open[i]) {
      TracedStays(b, c, hs[i], b.open[i]);
    }
    if c.fills == b.fills {
      hs' := hs;
    } else {
      var h := Held(|b.fills|, |b.ledger.settled|, {});
      NewTraced(b, trade);
      hs' := hs + [h];
      if |hs| == 1 {
        OldTraced(b, hs[0], b.open[0]);
        assert b.open[0] in b.open;
      }
    }
  }

  lemma OfferSafe(b: Book, hs: seq<Held>, trade: CandidateTrade, share: real) returns (hs': seq<Held>)
    requires Safe(b, hs, share)
    requires forall p | p in b.open :: trade.entryTs < p.exitTs
    ensures Safe(Offer(b, trade), hs', share)
  {
    hide FallsSlowly, PositionFor, Paired;
    hs' := OfferFollows(b, hs, trade);
    if hs' != [] && hs != [] {
      assert hs'[0] == hs[0];
    }
  }

  lemma FreshSafe(b: Book, share: real)
    requires Fresh(b)
    ensures Safe(b, [], share)
  {
  }

  lemma SettledFills(b: Book, t: int)
    ensures var s := Settle(b, Some(t)); s.fills == b.fills && forall p | p in s.open :: t < p.exitTs
  {
    DueSplit(b.open, Some(t));
  }

  lemma {:induction false} SafeAt(ts: seq<CandidateTrade>, bs: seq<Book>, n: nat, share: real, more: nat)
    returns (hs: seq<Held>)
    requires IsRun(ts, bs) && n <= |ts|
    requires ShareSuffices(share, more) && SpansAtMost(bs[n].fills, more + 1) && Bearable(bs[n].fills)
    ensures Safe(bs[n], hs, share)
  {
    hide Settle, ShareSuffices, SpansAtMost, Safe;
    if n == 0 {
      hs := [];
      FreshSafe(bs[0], share);
    } else {
      var b, trade := bs[n-1], ts[n-1];
      var s := Before(ts, bs, n - 1);
      assert bs[n] == Offer(s, trade);
      SettledFills(b, trade.entryTs);
      if bs[n].fills != b.fills {
        FewerSpanned(b.fills, Fill(trade, PositionFor(s.ledger.balance, trade)), more + 1);
        assert Bearable(b.fills) by {
          forall k | 0 <= k < |b.fills| ensures AccountFraction(b.fills[k].trade) >= -WORST_FRACTION {
            assert bs[n].fills[k] == b.fills[k];
          }
        }
      }
      hs := SafeAt(ts, bs, n - 1, share, more);
      hs := SettleSafe(b, hs, Some(trade.entryTs), share, more);
      hs := OfferSafe(s, hs, trade, share);
    }
  }

  /** Accepted trades are no worse than the candidates. */
  lemma {:induction false} FillsBearable(ts: seq<CandidateTrade>, bs: seq<Book>, n: nat)
    requires IsRun(ts, bs) && n <= |ts|
    requires forall k | 0 <= k < |ts| :: AccountFraction(ts[k]) >= -WORST_FRACTION
    ensures Bearable(bs[n].fills)
  {
    hide AccountFraction, PositionFor;
    if n == 0 {
    } else {
      FillsBearable(ts, bs, n - 1);
      assert bs[n] == Step(bs[n-1], ts[n-1]);
    }
  }

  /**
   With at most `more + 1` other accepted trades exiting while one is held, whatever the order of the candidates,
   the balance stays positive and no settlement costs more than `share` of it.
   */
  lemma RunFallsSlowly(ts: seq<CandidateTrade>, bs: seq<Book>, share: real, more: nat)
    requires IsRun(ts, bs) && Bearable(Complete(bs).fills)
    requires ShareSuffices(share, more) && SpansAtMost(Complete(bs).fills, more + 1)
    ensures FallsSlowly(Complete(bs).ledger.equity, share)
  {
    hide ShareSuffices, SpansAtMost, Bearable, FallsSlowly;
    var hs := SafeAt(ts, bs, |ts|, share, more);
    hs := SettleSafe(bs[|ts|], hs, None, share, more);
  }

  /**
   As long as no accepted trade is held while more than 583 others exit, the balance stays positive and no
   settlement takes more than half of it; with at most 39, none takes more than 0.81%.
   */
  lemma RunStaysPositive(ts: seq<CandidateTrade>, bs: seq<Book>)
    requires IsRun(ts, bs) && Bearable(Complete(bs).fills)
    requires SpansAtMost(Complete(bs).fills, MOST_SPANNED)
    ensures FallsSlowly(Complete(bs).ledger.equity, 0.5)
    ensures SpansAtMost(Complete(bs).fills, 39) ==> FallsSlowly(Complete(bs).ledger.equity, 0.0081)
  {
    hide SpansAtMost, Bearable, FallsSlowly, Settle, Power;
    KeptOverManyLosses();
    RunFallsSlowly(ts, bs, 0.5, MOST_SPANNED - 1);
    if SpansAtMost(Complete(bs).fills, 39) {
      RunFallsSlowly(ts, bs, 0.0081, 38);
    }
  }
}
