/** A stable sort by a comparison, standing for the library sort the simulators call. */
module Sorting {
  /** Puts `x` behind every element that is not greater. */
  function Insert<T>(le: (T, T) -> bool, x: T, s: seq<T>): seq<T> {
    if s == [] || le(s[|s|-1], x) then s + [x] else Insert(le, x, s[..|s|-1]) + [s[|s|-1]]
  }

  function Sort<T>(le: (T, T) -> bool, s: seq<T>): seq<T> {
    if s == [] then [] else Insert(le, s[|s|-1], Sort(le, s[..|s|-1]))
  }

  /** `le` is a total order on the elements at hand. */
  ghost predicate TotalOn<T>(le: (T, T) -> bool, m: multiset<T>) {
    && (forall x, y | x in m && y in m :: le(x, y) || le(y, x))
    && (forall x, y, z | x in m && y in m && z in m :: le(x, y) && le(y, z) ==> le(x, z))
  }

  ghost predicate SortedBy<T>(le: (T, T) -> bool, s: seq<T>) {
    forall i, j | 0 <= i < j < |s| :: le(s[i], s[j])
  }

  lemma DropLast<T>(s: seq<T>)
    requires s != []
    ensures multiset(s) == multiset(s[..|s|-1]) + multiset{s[|s|-1]}
  {
    assert s == s[..|s|-1] + [s[|s|-1]];
  }

  lemma {:induction false} InsertContents<T>(le: (T, T) -> bool, x: T, s: seq<T>)
    ensures multiset(Insert(le, x, s)) == multiset(s) + multiset{x}
  {
    if s == [] || le(s[|s|-1], x) {
    } else {
      InsertContents(le, x, s[..|s|-1]);
      DropLast(s);
    }
  }

  lemma TotalOnFewer<T>(le: (T, T) -> bool, m: multiset<T>, n: multiset<T>)
    requires TotalOn(le, n) && m <= n
    ensures TotalOn(le, m)
  {
    assert forall x | x in m :: x in n;
  }

  lemma AppendSorted<T>(le: (T, T) -> bool, s: seq<T>, last: T)
    requires SortedBy(le, s) && forall i | 0 <= i < |s| :: le(s[i], last)
    ensures SortedBy(le, s + [last])
  {
  }

  /** Everything in a sorted sequence, and the inserted element if it goes in front, is below the last element. */
  lemma BelowLast<T>(le: (T, T) -> bool, x: T, s: seq<T>, y: T)
    requires s != [] && TotalOn(le, multiset(s) + multiset{x}) && SortedBy(le, s)
    requires y in multiset(s[..|s|-1]) || y == s[|s|-1] || (y == x && !le(s[|s|-1], x))
    ensures le(y, s[|s|-1])
  {
    var last := s[|s|-1];
    assert x in multiset(s) + multiset{x} && last in multiset(s) + multiset{x};
  }

  lemma PrefixSorted<T>(le: (T, T) -> bool, s: seq<T>)
    requires s != [] && SortedBy(le, s)
    ensures SortedBy(le, s[..|s|-1])
  {
  }

  lemma {:induction false} InsertSorted<T>(le: (T, T) -> bool, x: T, s: seq<T>)
    requires TotalOn(le, multiset(s) + multiset{x}) && SortedBy(le, s)
    ensures SortedBy(le, Insert(le, x, s))
    decreases |s|, 1
  {
    if s == [] {
    } else if le(s[|s|-1], x) {
      forall i | 0 <= i < |s| ensures le(s[i], x) {
        var all := multiset(s) + multiset{x};
        assert s[i] in all && s[|s|-1] in all && x in all;
      }
      AppendSorted(le, s, x);
    } else {
      InsertInFront(le, x, s);
    }
  }

  lemma InsertInFront<T>(le: (T, T) -> bool, x: T, s: seq<T>)
    requires s != [] && !le(s[|s|-1], x)
    requires TotalOn(le, multiset(s) + multiset{x}) && SortedBy(le, s)
    ensures SortedBy(le, Insert(le, x, s))
    decreases |s|, 0
  {
    hide TotalOn, SortedBy;
    var init, last := s[..|s|-1], s[|s|-1];
    DropLast(s);
    TotalOnFewer(le, multiset(init) + multiset{x}, multiset(s) + multiset{x});
    PrefixSorted(le, s);
    InsertSorted(le, x, init);
    InsertContents(le, x, init);
    var t := Insert(le, x, init);
    forall i | 0 <= i < |t| ensures le(t[i], last) {
      assert t[i] in multiset(t);
      BelowLast(le, x, s, t[i]);
    }
    AppendSorted(le, t, last);
  }

  lemma {:induction false} SortContents<T>(le: (T, T) -> bool, s: seq<T>)
    ensures multiset(Sort(le, s)) == multiset(s) && |Sort(le, s)| == |s|
  {
    if s == [] {
    } else {
      SortContents(le, s[..|s|-1]);
      InsertContents(le, s[|s|-1], Sort(le, s[..|s|-1]));
      DropLast(s);
    }
    assert |multiset(Sort(le, s))| == |Sort(le, s)|;
  }

  lemma {:induction false} SortSorts<T>(le: (T, T) -> bool, s: seq<T>)
    requires TotalOn(le, multiset(s))
    ensures SortedBy(le, Sort(le, s))
  {
    if s == [] {
    } else {
      var init := s[..|s|-1];
      DropLast(s);
      SortSorts(le, init);
      SortContents(le, init);
      InsertSorted(le, s[|s|-1], Sort(le, init));
    }
  }

  lemma RemoveAt<T>(s: seq<T>, i: nat)
    requires i < |s|
    ensures multiset(s) == multiset(s[..i] + s[i+1..]) + multiset{s[i]}
  {
    assert s == s[..i] + [s[i]] + s[i+1..];
  }

  /** Taking the same element from both sides leaves the same contents. */
  lemma CancelOne<T>(a: multiset<T>, b: multiset<T>, x: T)
    requires a + multiset{x} == b + multiset{x}
    ensures a == b
  {
    assert (a + multiset{x}) - multiset{x} == a && (b + multiset{x}) - multiset{x} == b;
  }

  /** The order tells the elements apart. */
  ghost predicate Distinguishes<T>(le: (T, T) -> bool, m: multiset<T>) {
    forall a, b | a in m && b in m && le(a, b) && le(b, a) :: a == b
  }

  lemma LastsAgree<T>(le: (T, T) -> bool, s: seq<T>, t: seq<T>)
    requires TotalOn(le, multiset(s)) && SortedBy(le, s) && SortedBy(le, t)
    requires s != [] && multiset(s) == multiset(t) && Distinguishes(le, multiset(s))
    ensures t != [] && s[|s|-1] == t[|t|-1]
  {
    assert |multiset(s)| == |multiset(t)|;
    var a, b := s[|s|-1], t[|t|-1];
    assert a in multiset(t) && b in multiset(s);
    var i :| 0 <= i < |s| && s[i] == b;
    var j :| 0 <= j < |t| && t[j] == a;
    assert le(a, a) && le(b, b);
  }

  lemma FewerStayApart<T>(le: (T, T) -> bool, m: multiset<T>, x: T)
    requires Distinguishes(le, m + multiset{x}) && TotalOn(le, m + multiset{x})
    ensures Distinguishes(le, m) && TotalOn(le, m)
  {
    assert forall y | y in m :: y in m + multiset{x};
  }

  /** A sorted sequence is determined by its contents when the order tells its elements apart. */
  lemma {:induction false} SortedUnique<T>(le: (T, T) -> bool, s: seq<T>, t: seq<T>)
    requires TotalOn(le, multiset(s)) && SortedBy(le, s) && SortedBy(le, t)
    requires multiset(s) == multiset(t) && Distinguishes(le, multiset(s))
    ensures s == t
  {
    hide TotalOn, SortedBy, Distinguishes;
    if s == [] {
      assert |multiset(t)| == 0;
    } else {
      LastsAgree(le, s, t);
      var s', t', last := s[..|s|-1], t[..|t|-1], s[|s|-1];
      DropLast(s);
      DropLast(t);
      CancelOne(multiset(s'), multiset(t'), last);
      FewerStayApart(le, multiset(s'), last);
      PrefixSorted(le, s);
      PrefixSorted(le, t);
      SortedUnique(le, s', t');
      assert s == s' + [last] && t == t' + [last];
    }
  }

  // ----- Stability -----

  /** The elements of `s` that the order does not tell from `x`, in their own order. */
  function Ties<T>(le: (T, T) -> bool, s: seq<T>, x: T): seq<T> {
    if s == [] then []
    else
      var init, last := Ties(le, s[..|s|-1], x), s[|s|-1];
      if le(last, x) && le(x, last) then init + [last] else init
  }

  lemma TiesAppend<T>(le: (T, T) -> bool, s: seq<T>, y: T, x: T)
    ensures Ties(le, s + [y], x) == if le(y, x) && le(x, y) then Ties(le, s, x) + [y] else Ties(le, s, x)
  {
    assert (s + [y])[..|s|] == s;
  }

  lemma NoTiePassed<T>(le: (T, T) -> bool, y: T, last: T, x: T, all: multiset<T>)
    requires TotalOn(le, all) && x in all && y in all && last in all && !le(last, y)
    ensures !(le(y, x) && le(x, y) && le(last, x) && le(x, last))
  {
  }

  /** An inserted element goes behind those it ties with. */
  lemma {:induction false} InsertKeepsTies<T>(le: (T, T) -> bool, y: T, s: seq<T>, x: T)
    requires TotalOn(le, multiset(s) + multiset{y} + multiset{x})
    ensures Ties(le, Insert(le, y, s), x) == Ties(le, s + [y], x)
  {
    TiesAppend(le, s, y, x);
    if s == [] || le(s[|s|-1], y) {
    } else {
      var init, last := s[..|s|-1], s[|s|-1];
      DropLast(s);
      var all := multiset(s) + multiset{y} + multiset{x};
      assert x in all && y in all && last in all;
      TotalOnFewer(le, multiset(init) + multiset{y} + multiset{x}, all);
      NoTiePassed(le, y, last, x, all);
      hide TotalOn;
      InsertKeepsTies(le, y, init, x);
      TiesAppend(le, init, y, x);
      TiesAppend(le, Insert(le, y, init), last, x);
    }
  }

  /** Sorting all but the last element leaves the same elements to be ordered. */
  lemma SortedPrefixTotal<T>(le: (T, T) -> bool, s: seq<T>, x: T)
    requires s != [] && TotalOn(le, multiset(s) + multiset{x})
    ensures var init, last := s[..|s|-1], s[|s|-1];
            && TotalOn(le, multiset(init) + multiset{x})
            && TotalOn(le, multiset(Sort(le, init)) + multiset{last} + multiset{x})
  {
    hide TotalOn, Sort;
    var init, last := s[..|s|-1], s[|s|-1];
    DropLast(s);
    SortContents(le, init);
    assert multiset(init) + multiset{last} + multiset{x} == multiset(s) + multiset{x};
    TotalOnFewer(le, multiset(init) + multiset{x}, multiset(s) + multiset{x});
  }

  /** Sorting keeps ties in their order. */
  lemma {:induction false} SortKeepsTies<T>(le: (T, T) -> bool, s: seq<T>, x: T)
    requires TotalOn(le, multiset(s) + multiset{x})
    ensures Ties(le, Sort(le, s), x) == Ties(le, s, x)
  {
    hide TotalOn, Ties;
    if s == [] {
    } else {
      var init, last := s[..|s|-1], s[|s|-1];
      SortedPrefixTotal(le, s, x);
      SortKeepsTies(le, init, x);
      InsertKeepsTies(le, last, Sort(le, init), x);
      TiesAppend(le, Sort(le, init), last, x);
      TiesAppend(le, init, last, x);
      assert s == init + [last];
    }
  }
}
