/**
 * The weekly view of the admin dashboard (components/dashboard-page.tsx): the timetable
 * grouped by `day_of_week`, each day's bucket sorted by start time, rendered Monday to Friday.
 */
module WeekView {
  import opened Seqs
  import opened Text
  import opened Timetable

  /** `groupedTimetable`: the reduce over the first `n` entries of the timetable, starting from `{}`. */
  function GroupedUpTo(s: seq<Entry>, n: nat): map<string, seq<Entry>>
    requires n <= |s|
  {
    if n == 0 then map[] else AddToDay(GroupedUpTo(s, n - 1), s[n - 1])
  }

  function Grouped(s: seq<Entry>): map<string, seq<Entry>> {
    GroupedUpTo(s, |s|)
  }

  /** The days that occur among the first `n` entries. */
  function DaysOf(s: seq<Entry>, n: nat): set<string>
    requires n <= |s|
  {
    set i | 0 <= i < n :: s[i].day_of_week
  }

  /** How many times `x` occurs in `s` if it falls on `day`, and zero otherwise. */
  function DayShare(s: seq<Entry>, day: string, x: Entry): nat {
    if x.day_of_week == day then multiset(s)[x] else 0
  }

  /**
   * The reduce callback as the component writes it: create the day's bucket when missing,
   * push the entry, sort the bucket in place. On a sorted bucket this is the reduce step.
   */
  method PushIntoDay(acc: map<string, seq<Entry>>, item: Entry) returns (next: map<string, seq<Entry>>)
    requires item.day_of_week in acc ==> Sorted(acc[item.day_of_week])
    ensures next == AddToDay(acc, item)
  {
    var day := item.day_of_week;
    next := acc;
    if day !in next {
      next := next[day := []];
    }
    var bucket := next[day];
    PushThenSort(bucket, item);
    bucket := SortByStart(bucket + [item]);
    next := next[day := bucket];
    AddToDayUnfold(acc, item);
  }

  /** `groupedTimetable`: the reduce over the whole timetable, one callback per entry. */
  method GroupByDay(timetable: seq<Entry>) returns (grouped: map<string, seq<Entry>>)
    ensures grouped == Grouped(timetable)
    ensures grouped.Keys == DaysOf(timetable, |timetable|)
    ensures forall d :: d in grouped ==> Sorted(grouped[d])
    ensures forall d, x :: d in grouped ==> multiset(grouped[d])[x] == DayShare(timetable, d, x)
  {
    grouped := map[];
    for i := 0 to |timetable|
      invariant grouped == GroupedUpTo(timetable, i)
    {
      GroupedSorted(timetable, i);
      grouped := PushIntoDay(grouped, timetable[i]);
    }
    GroupedBuckets(timetable, |timetable|);
    assert timetable[..|timetable|] == timetable;
  }

  /**
   * Every entry lands in exactly the bucket of its day: the buckets are keyed by the days that
   * occur, and each bucket holds precisely that day's entries (with their multiplicities), sorted.
   */
  lemma GroupedBuckets(s: seq<Entry>, n: nat)
    requires n <= |s|
    ensures GroupedUpTo(s, n).Keys == DaysOf(s, n)
    ensures forall d :: d in GroupedUpTo(s, n) ==> Sorted(GroupedUpTo(s, n)[d])
    ensures forall d, x :: d in GroupedUpTo(s, n) ==>
              multiset(GroupedUpTo(s, n)[d])[x] == DayShare(s[..n], d, x)
  {
    GroupedKeys(s, n);
    GroupedSorted(s, n);
    GroupedShares(s, n);
  }

  /** The buckets are keyed by exactly the days that occur. */
  lemma {:induction false} GroupedKeys(s: seq<Entry>, n: nat)
    requires n <= |s|
    ensures GroupedUpTo(s, n).Keys == DaysOf(s, n)
  {
    if n > 0 {
      GroupedKeys(s, n - 1);
      GroupedKeysStep(s, n);
      DaysOfStep(s, n);
    }
  }

  lemma GroupedKeysStep(s: seq<Entry>, n: nat)
    requires 0 < n <= |s|
    ensures GroupedUpTo(s, n).Keys == GroupedUpTo(s, n - 1).Keys + {s[n - 1].day_of_week}
  {
    AddToDayKeys(GroupedUpTo(s, n - 1), s[n - 1]);
  }

  lemma AddToDayKeys(g: map<string, seq<Entry>>, e: Entry)
    ensures AddToDay(g, e).Keys == g.Keys + {e.day_of_week}
  {
  }

  lemma DaysOfStep(s: seq<Entry>, n: nat)
    requires 0 < n <= |s|
    ensures DaysOf(s, n) == DaysOf(s, n - 1) + {s[n - 1].day_of_week}
  {
    forall d | d in DaysOf(s, n) ensures d in DaysOf(s, n - 1) + {s[n - 1].day_of_week} {
      var i :| 0 <= i < n && s[i].day_of_week == d;
    }
  }

  /** Every bucket is sorted by start time. */
  lemma {:induction false} GroupedSorted(s: seq<Entry>, n: nat)
    requires n <= |s|
    ensures forall d :: d in GroupedUpTo(s, n) ==> Sorted(GroupedUpTo(s, n)[d])
  {
    if n > 0 {
      GroupedSorted(s, n - 1);
      var g, e := GroupedUpTo(s, n - 1), s[n - 1];
      forall d | d in AddToDay(g, e) ensures Sorted(AddToDay(g, e)[d]) {
        if d != e.day_of_week {
          assert AddToDay(g, e)[d] == g[d];
        } else {
          var b := if d in g then g[d] else [];
          PushSortedSorted(b, e);
        }
      }
    }
  }

  /** Each bucket holds precisely its day's entries, with their multiplicities. */
  lemma {:induction false} GroupedShares(s: seq<Entry>, n: nat)
    requires n <= |s|
    ensures forall d, x :: d in GroupedUpTo(s, n) ==>
              multiset(GroupedUpTo(s, n)[d])[x] == DayShare(s[..n], d, x)
  {
    if n > 0 {
      GroupedShares(s, n - 1);
      GroupedCovers(s, n - 1);
      assert s[..n] == s[..n - 1] + [s[n - 1]];
      GroupedStepAll(GroupedUpTo(s, n - 1), s[..n - 1], s[n - 1]);
    }
  }

  /** Every entry seen so far has a bucket. */
  lemma GroupedCovers(s: seq<Entry>, n: nat)
    requires n <= |s|
    ensures forall y :: y in s[..n] ==> y.day_of_week in GroupedUpTo(s, n)
  {
    GroupedKeys(s, n);
    forall y | y in s[..n] ensures y.day_of_week in DaysOf(s, n) {
      var i :| 0 <= i < n && s[..n][i] == y;
      assert s[i] == y;
    }
  }

  lemma GroupedStepAll(g: map<string, seq<Entry>>, p: seq<Entry>, e: Entry)
    requires forall d, x :: d in g ==> multiset(g[d])[x] == DayShare(p, d, x)
    requires forall y :: y in p ==> y.day_of_week in g
    ensures forall d, x :: d in AddToDay(g, e) ==>
              multiset(AddToDay(g, e)[d])[x] == DayShare(p + [e], d, x)
  {
    forall d, x | d in AddToDay(g, e)
      ensures multiset(AddToDay(g, e)[d])[x] == DayShare(p + [e], d, x)
    {
      GroupedStep(g, p, e, d, x);
    }
  }

  /** One reduce step keeps every bucket equal to its day's share of the entries seen so far. */
  lemma GroupedStep(g: map<string, seq<Entry>>, p: seq<Entry>, e: Entry, d: string, x: Entry)
    requires d in g ==> multiset(g[d])[x] == DayShare(p, d, x)
    requires forall y :: y in p ==> y.day_of_week in g
    requires d in AddToDay(g, e)
    ensures multiset(AddToDay(g, e)[d])[x] == DayShare(p + [e], d, x)
  {
    var day := e.day_of_week;
    assert multiset(p + [e])[x] == multiset(p)[x] + multiset([e])[x];
    if d == day {
      var b := if day in g then g[day] else [];
      assert AddToDay(g, e)[d] == PushSorted(b, e);
      PushSortedMultiset(b, e);
      assert multiset(PushSorted(b, e))[x] == multiset(b)[x] + multiset([e])[x];
      if day !in g && x.day_of_week == d {
        assert x !in p;
        assert multiset(p)[x] == 0;
      }
    } else {
      assert AddToDay(g, e)[d] == g[d];
    }
  }

  /** The weekly view: each listed day's bucket (`groupedTimetable[day] || []`), one after another. */
  function Concat(grouped: map<string, seq<Entry>>, days: seq<string>): seq<Entry> {
    if days == [] then []
    else (if days[0] in grouped then grouped[days[0]] else []) + Concat(grouped, days[1..])
  }

  /** Rendering the buckets of distinct days shows each entry of those days exactly once. */
  lemma {:induction false} ConcatIsPermutation(s: seq<Entry>, days: seq<string>, x: Entry)
    requires forall i, j :: 0 <= i < j < |days| ==> days[i] != days[j]
    ensures multiset(Concat(Grouped(s), days))[x] == if x.day_of_week in days then multiset(s)[x] else 0
  {
    if days != [] {
      ConcatIsPermutation(s, days[1..], x);
      GroupedBuckets(s, |s|);
      assert s[..|s|] == s;
      var d := days[0];
      GroupedCovers(s, |s|);
    }
  }

  /** When every entry falls on a weekday, the weekly view is a permutation of the timetable. */
  lemma WeekViewIsPermutation(s: seq<Entry>)
    requires forall i :: 0 <= i < |s| ==> s[i].day_of_week in WeekDays
    ensures multiset(Concat(Grouped(s), WeekDays)) == multiset(s)
  {
    forall x ensures multiset(Concat(Grouped(s), WeekDays))[x] == multiset(s)[x] {
      ConcatIsPermutation(s, WeekDays, x);
    }
  }
}
