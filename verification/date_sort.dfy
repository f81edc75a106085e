/**
  Ordering records by next billing date, as `Array.prototype.sort` does with
  the comparator `a.next_bill_date - b.next_bill_date`. That sort is stable, so
  its result is fixed by the comparator: records with equal dates keep their
  input order. `SortByDate` is an insertion sort with the same result.
*/
module DateSort {
  import opened Types
  import opened Seqs

  predicate SortedByDate(s: seq<Subscription>)
  {
    forall i, j :: 0 <= i < j < |s| ==> s[i].nextBillDate <= s[j].nextBillDate
  }

  /** Selects the records billed at timestamp `d`. */
  function OnDate(d: int): Subscription -> bool
  {
    (s: Subscription) => s.nextBillDate == d
  }

  /** Places `x` after every record of `t` that bills no later than it. */
  function Insert(t: seq<Subscription>, x: Subscription): seq<Subscription>
    decreases |t|
  {
    if |t| == 0 then [x]
    else if t[|t| - 1].nextBillDate <= x.nextBillDate then t + [x]
    else Insert(t[..|t| - 1], x) + [t[|t| - 1]]
  }

  lemma {:induction false} InsertPermutes(t: seq<Subscription>, x: Subscription)
    ensures multiset(Insert(t, x)) == multiset(t) + multiset{x}
    decreases |t|
  {
    if |t| > 0 && t[|t| - 1].nextBillDate > x.nextBillDate {
      var init, last := t[..|t| - 1], t[|t| - 1];
      assert t == init + [last];
      InsertPermutes(init, x);
    }
  }

  lemma {:induction false} InsertSorted(t: seq<Subscription>, x: Subscription)
    requires SortedByDate(t)
    ensures SortedByDate(Insert(t, x))
    decreases |t|
  {
    if |t| > 0 && t[|t| - 1].nextBillDate > x.nextBillDate {
      var init, last := t[..|t| - 1], t[|t| - 1];
      assert t == init + [last];
      InsertSorted(init, x);
      InsertPermutes(init, x);
      var front := Insert(init, x);
      forall i | 0 <= i < |front|
        ensures front[i].nextBillDate <= last.nextBillDate
      {
        assert front[i] in multiset(front);
        if front[i] != x {
          assert front[i] in init;
        }
      }
      assert Insert(t, x) == front + [last];
    }
  }

  /** The records of `s`, earliest billing date first, ties in input order. */
  function SortByDate(s: seq<Subscription>): (r: seq<Subscription>)
    ensures SortedByDate(r)
    ensures multiset(r) == multiset(s)
    decreases |s|
  {
    if |s| == 0 then []
    else
      var init, last := s[..|s| - 1], s[|s| - 1];
      assert s == init + [last];
      var sortedInit := SortByDate(init);
      InsertSorted(sortedInit, last);
      InsertPermutes(sortedInit, last);
      Insert(sortedInit, last)
  }

  /** Inserting `x` puts it after every record of `t` on the same date. */
  lemma {:induction false} InsertStable(t: seq<Subscription>, x: Subscription, d: int)
    ensures Filter(Insert(t, x), OnDate(d)) == Filter(t, OnDate(d)) + Filter([x], OnDate(d))
    decreases |t|
  {
    if |t| == 0 {
      assert Insert(t, x) == [x];
    } else if t[|t| - 1].nextBillDate <= x.nextBillDate {
      assert Insert(t, x) == t + [x];
      FilterConcat(t, [x], OnDate(d));
    } else {
      InsertStable(t[..|t| - 1], x, d);
      InsertStableStep(t[..|t| - 1], t[|t| - 1], x, d);
      assert t == t[..|t| - 1] + [t[|t| - 1]];
    }
  }

  /** `x` goes in front of a last record billed later than it. */
  lemma InsertBeforeLater(init: seq<Subscription>, last: Subscription, x: Subscription)
    requires last.nextBillDate > x.nextBillDate
    ensures Insert(init + [last], x) == Insert(init, x) + [last]
  {
    var t := init + [last];
    assert t[..|t| - 1] == init && t[|t| - 1] == last;
  }

  /** The step of `InsertStable` where `x` moves in front of a later `last`. */
  lemma {:induction false} InsertStableStep(init: seq<Subscription>, last: Subscription, x: Subscription, d: int)
    requires last.nextBillDate > x.nextBillDate
    requires Filter(Insert(init, x), OnDate(d)) == Filter(init, OnDate(d)) + Filter([x], OnDate(d))
    ensures Filter(Insert(init + [last], x), OnDate(d))
            == Filter(init + [last], OnDate(d)) + Filter([x], OnDate(d))
  {
    var t := init + [last];
    var p := OnDate(d);
    var front := Insert(init, x);
    InsertBeforeLater(init, last, x);
    FilterConcat(front, [last], p);
    FilterConcat(init, [last], p);
    var fx, fl := Filter([x], p), Filter([last], p);
    assert fx == [] || fl == [] by {
      FilterSingleton(x, p);
      FilterSingleton(last, p);
    }
    assert fx + fl == fl + fx;
  }

  /** Sorting keeps the records of each date in their input order. */
  lemma {:induction false} SortByDateStable(s: seq<Subscription>, d: int)
    ensures Filter(SortByDate(s), OnDate(d)) == Filter(s, OnDate(d))
    decreases |s|
  {
    if |s| > 0 {
      var init, last := s[..|s| - 1], s[|s| - 1];
      assert s == init + [last];
      SortByDateStable(init, d);
      InsertStable(SortByDate(init), last, d);
      FilterConcat(init, [last], OnDate(d));
    }
  }

  /** Records on the same date in the same order, in both lists. */
  ghost predicate SameDateOrder(a: seq<Subscription>, b: seq<Subscription>)
  {
    forall d :: Filter(a, OnDate(d)) == Filter(b, OnDate(d))
  }

  lemma OnDateNonEmpty(s: seq<Subscription>)
    requires |s| > 0
    ensures Filter(s, OnDate(s[0].nextBillDate)) == [s[0]] + Filter(s[1..], OnDate(s[0].nextBillDate))
  {
  }

  lemma SameDateOrderEmpty(a: seq<Subscription>, b: seq<Subscription>)
    requires SameDateOrder(a, b)
    requires |b| == 0
    ensures |a| == 0
  {
    if |a| > 0 {
      OnDateNonEmpty(a);
      assert false;
    }
  }

  /** The head of a sorted list bills no later than any record of another list with the same records per date. */
  lemma HeadNoLater(a: seq<Subscription>, b: seq<Subscription>)
    requires |a| > 0 && |b| > 0
    requires SortedByDate(b)
    requires SameDateOrder(a, b)
    ensures b[0].nextBillDate <= a[0].nextBillDate
  {
    var da := a[0].nextBillDate;
    OnDateNonEmpty(a);
    assert Filter(a, OnDate(da)) == Filter(b, OnDate(da));
    FilterMembers(b, OnDate(da));
    assert a[0] in Filter(b, OnDate(da));
    var k :| 0 <= k < |b| && b[k] == a[0];
    assert b[0].nextBillDate <= b[k].nextBillDate;
  }

  /** Dropping a head billed on another date leaves the records of date `d` as they were. */
  lemma OnDateTail(s: seq<Subscription>, d: int)
    requires |s| > 0
    requires s[0].nextBillDate != d
    ensures Filter(s, OnDate(d)) == Filter(s[1..], OnDate(d))
  {
  }

  lemma SameDateOrderTails(a: seq<Subscription>, b: seq<Subscription>)
    requires |a| > 0 && |b| > 0
    requires a[0].nextBillDate == b[0].nextBillDate
    requires SameDateOrder(a, b)
    ensures a[0] == b[0]
    ensures SameDateOrder(a[1..], b[1..])
  {
    var d0 := a[0].nextBillDate;
    OnDateNonEmpty(a);
    OnDateNonEmpty(b);
    var fa, fb := Filter(a, OnDate(d0)), Filter(b, OnDate(d0));
    assert fa == fb;
    assert fa[0] == a[0] && fb[0] == b[0];
    assert Filter(a[1..], OnDate(d0)) == fa[1..] == fb[1..] == Filter(b[1..], OnDate(d0));
    forall d | d != d0
      ensures Filter(a[1..], OnDate(d)) == Filter(b[1..], OnDate(d))
    {
      OnDateTail(a, d);
      OnDateTail(b, d);
    }
  }

  /**
    A sorted list is fixed by the order of its records within each date: any
    stable sort by date returns exactly what `SortByDate` returns.
  */
  lemma {:induction false} StableSortUnique(a: seq<Subscription>, b: seq<Subscription>)
    requires SortedByDate(a) && SortedByDate(b)
    requires SameDateOrder(a, b)
    ensures a == b
    decreases |a|
  {
    if |b| == 0 {
      SameDateOrderEmpty(a, b);
    } else if |a| == 0 {
      SameDateOrderEmpty(b, a);
    } else {
      HeadNoLater(a, b);
      HeadNoLater(b, a);
      SameDateOrderTails(a, b);
      StableSortUnique(a[1..], b[1..]);
      assert a == [a[0]] + a[1..] && b == [b[0]] + b[1..];
    }
  }

  /** Whatever stable sort produced `r`, it equals the model's result. */
  lemma StableSortIsSortByDate(s: seq<Subscription>, r: seq<Subscription>)
    requires SortedByDate(r)
    requires SameDateOrder(r, s)
    ensures r == SortByDate(s)
  {
    forall d
      ensures Filter(r, OnDate(d)) == Filter(SortByDate(s), OnDate(d))
    {
      SortByDateStable(s, d);
    }
    StableSortUnique(r, SortByDate(s));
  }
}
