/**
 * The timetable view projection of the admin dashboard (components/dashboard-page.tsx):
 * the simplified-view filter with its title, the on-screen table and CSV export data,
 * and the per-day grouping of the weekly view.
 */
module Timetable {
  import opened Wrappers
  import opened Seqs
  import opened Text

  /** One row of `GET /timetable`; the two group fields are optional in the payload. */
  datatype Entry = Entry(
    timetable_id: string,
    course_name: string,
    faculty_name: string,
    classroom_name: string,
    day_of_week: string,
    start_time: string,
    end_time: string,
    student_group_id: Option<string>,
    group_name: Option<string>)

  datatype StudentGroup = StudentGroup(id: string, name: string, year: int, member_count: string)

  /** The simplified-view dialog's choices: `type` ('day' or 'group'), `timeframe` ('single' or 'week'), `value`. */
  datatype FilterOptions = FilterOptions(filterType: string, timeframe: string, value: string)

  /** What the simplified view shows: `filteredData` and `viewTitle`. */
  datatype View = View(data: seq<Entry>, title: string)

  const InitialFilter := FilterOptions("day", "single", "Monday")

  /** The days the weekly view renders, in order. */
  const WeekDays: seq<string> := ["Monday", "Tuesday", "Wednesday", "Thursday", "Friday"]

  function OnDay(day: string): Entry -> bool {
    (e: Entry) => e.day_of_week == day
  }

  /** `entry.student_group_id === id`: an entry without a group never matches. */
  function InGroup(id: string): Entry -> bool {
    (e: Entry) => e.student_group_id == Some(id)
  }

  function OnAnyDay(days: seq<string>): Entry -> bool {
    (e: Entry) => e.day_of_week in days
  }

  /** `studentGroups.find(g => g.id === id)?.name || ""`. */
  function GroupName(groups: seq<StudentGroup>, id: string): (name: string)
    ensures (forall i :: 0 <= i < |groups| ==> groups[i].id != id) ==> name == ""
    ensures forall i :: 0 <= i < |groups| && groups[i].id == id && (forall j :: 0 <= j < i ==> groups[j].id != id)
              ==> name == groups[i].name
  {
    if groups == [] then ""
    else if groups[0].id == id then groups[0].name
    else GroupName(groups[1..], id)
  }

  /** `handleApplyFilter`: the data and title of the simplified timetable view. */
  function ApplyFilter(timetable: seq<Entry>, groups: seq<StudentGroup>, opts: FilterOptions): (v: View)
    ensures opts.timeframe == "week" ==> v.data == timetable
    ensures opts.timeframe == "week" && opts.filterType == "group" ==>
              v.title == "Full Week Timetable for " + GroupName(groups, opts.value)
    ensures opts.timeframe == "week" && opts.filterType != "group" ==> v.title == "Full Week Timetable"
    ensures opts.timeframe != "week" && opts.filterType == "day" ==>
              Selects(v.data, timetable, OnDay(opts.value)) && v.title == "Timetable for " + opts.value
    ensures opts.timeframe != "week" && opts.filterType == "group" ==>
              Selects(v.data, timetable, InGroup(opts.value))
              && v.title == "Timetable for " + GroupName(groups, opts.value)
    ensures opts.timeframe != "week" && opts.filterType != "day" && opts.filterType != "group" ==>
              v.data == timetable && v.title == ""
  {
    FilterSelects(OnDay(opts.value), timetable);
    FilterSelects(InGroup(opts.value), timetable);
    var byType :=
      if opts.filterType == "day" then
        View(Filter(OnDay(opts.value), timetable), "Timetable for " + opts.value)
      else if opts.filterType == "group" then
        View(Filter(InGroup(opts.value), timetable), "Timetable for " + GroupName(groups, opts.value))
      else
        View(timetable, "");
    if opts.timeframe == "week" then
      View(timetable,
           if opts.filterType == "group" then "Full Week Timetable for " + GroupName(groups, opts.value)
           else "Full Week Timetable")
    else byType
  }

  /** `handleViewTimetableClick`: the schedule of one group. */
  function GroupSchedule(timetable: seq<Entry>, groupId: string): (r: seq<Entry>)
    ensures Selects(r, timetable, InGroup(groupId))
  {
    FilterSelects(InGroup(groupId), timetable);
    Filter(InGroup(groupId), timetable)
  }

  /** The group dialog shows what the simplified view shows for the same group on a single timeframe. */
  lemma GroupScheduleIsGroupView(timetable: seq<Entry>, groups: seq<StudentGroup>, groupId: string)
    ensures GroupSchedule(timetable, groupId) == ApplyFilter(timetable, groups, FilterOptions("group", "single", groupId)).data
  {
    var v := ApplyFilter(timetable, groups, FilterOptions("group", "single", groupId));
    SelectsUnique(v.data, timetable, InGroup(groupId));
    SelectsUnique(GroupSchedule(timetable, groupId), timetable, InGroup(groupId));
  }

  // ---------------------------------------------------------------------------
  // Table and CSV export

  datatype CsvHeader = CsvHeader(heading: string, key: string)

  /** `csvHeaders`: column labels and the entry field each column is read from. */
  const CsvHeaders: seq<CsvHeader> := [
    CsvHeader("Day", "day_of_week"),
    CsvHeader("Start Time", "start_time"),
    CsvHeader("End Time", "end_time"),
    CsvHeader("Course", "course_name"),
    CsvHeader("Group", "group_name"),
    CsvHeader("Faculty", "faculty_name"),
    CsvHeader("Room", "classroom_name")]

  /** The entry field named by `key` (an absent optional field reads as empty). */
  function FieldByKey(e: Entry, key: string): string {
    match key
    case "day_of_week" => e.day_of_week
    case "start_time" => e.start_time
    case "end_time" => e.end_time
    case "course_name" => e.course_name
    case "group_name" => e.group_name.GetOr("")
    case "faculty_name" => e.faculty_name
    case "classroom_name" => e.classroom_name
    case _ => ""
  }

  /** `s.substring(0, 5)`: the first five characters, or all of a shorter string. */
  function Prefix5(s: string): (r: string)
    ensures |r| <= 5 && r <= s
    ensures |s| <= 5 ==> r == s
  {
    if |s| <= 5 then s else s[..5]
  }

  /** The cells of one row of the on-screen table, with the times cut to HH:MM. */
  function TableRow(e: Entry): seq<string> {
    [e.day_of_week, Prefix5(e.start_time), Prefix5(e.end_time), e.course_name,
     e.group_name.GetOr(""), e.faculty_name, e.classroom_name]
  }

  /**
   * The header row and every table row line up: column k shows the field that
   * `csvHeaders[k]` names for the CSV file, times shortened to their first five characters.
   */
  lemma TableRowMatchesHeaders(e: Entry)
    ensures |CsvHeaders| == |TableRow(e)| == 7
    ensures forall k :: 0 <= k < 7 && k != 1 && k != 2 ==> TableRow(e)[k] == FieldByKey(e, CsvHeaders[k].key)
    ensures forall k :: 0 <= k < 7 && (k == 1 || k == 2) ==>
              TableRow(e)[k] == Prefix5(FieldByKey(e, CsvHeaders[k].key))
  {
  }

  /** `title.replace(/\s+/g, '-')`: each maximal run of white space becomes one '-'. */
  function DashRuns(s: string): (r: string)
    ensures |r| <= |s|
    decreases |s|
  {
    if s == [] then []
    else if IsWhitespace(s[0]) then "-" + DashRuns(TrimStart(s))
    else [s[0]] + DashRuns(s[1..])
  }

  /** No white space survives the rewriting. */
  lemma {:induction false} DashRunsNoWhitespace(s: string)
    ensures forall i :: 0 <= i < |DashRuns(s)| ==> !IsWhitespace(DashRuns(s)[i])
    decreases |s|
  {
    if s != [] {
      if IsWhitespace(s[0]) {
        DashRunsNoWhitespace(TrimStart(s));
      } else {
        DashRunsNoWhitespace(s[1..]);
      }
    }
  }

  /** The download name of the simplified view's CSV file. */
  function CsvFilename(title: string): (name: string)
    ensures name == DashRuns(title) + ".csv"
    ensures forall i :: 0 <= i < |name| ==> !IsWhitespace(name[i])
  {
    DashRunsNoWhitespace(title);
    DashRuns(title) + ".csv"
  }

  lemma {:induction false} DashRunsIdentity(s: string)
    requires forall i :: 0 <= i < |s| ==> !IsWhitespace(s[i])
    ensures DashRuns(s) == s
  {
    if s != [] { DashRunsIdentity(s[1..]); }
  }

  /** A title without white space is used as it is. */
  lemma DashRunsIdempotent(s: string)
    ensures DashRuns(DashRuns(s)) == DashRuns(s)
  {
    DashRunsNoWhitespace(s);
    DashRunsIdentity(DashRuns(s));
  }

  /**
   * Splitting a title at one maximal white-space run: the run becomes exactly one '-',
   * and the text on either side is rewritten independently.
   */
  lemma {:induction false} DashRunsSplice(a: string, w: string, b: string)
    requires w != [] && IsBlank(w)
    requires a == [] || !IsWhitespace(a[|a| - 1])
    requires b == [] || !IsWhitespace(b[0])
    ensures DashRuns(a + w + b) == DashRuns(a) + "-" + DashRuns(b)
  {
    DashRunsRunHead(w, b);
    DashRunsAppend(a, w + b, "-" + DashRuns(b));
    AppendAssoc(a, w, b);
    AppendAssoc(DashRuns(a), "-", DashRuns(b));
  }

  lemma {:induction false} DashRunsAppend(a: string, c: string, m: string)
    requires a == [] || !IsWhitespace(a[|a| - 1])
    requires DashRuns(c) == m
    ensures DashRuns(a + c) == DashRuns(a) + m
    decreases |a|
  {
    if a == [] {
      assert a + c == c;
    } else if IsWhitespace(a[0]) {
      var t := TrimStart(a);
      assert t != [] && t[|t| - 1] == a[|a| - 1];
      DashRunsAppend(t, c, m);
      DashRunsAppendBlank(a, c, m);
    } else {
      DashRunsAppend(a[1..], c, m);
      DashRunsAppendText(a, c, m);
    }
  }

  lemma DashRunsAppendBlank(a: string, c: string, m: string)
    requires a != [] && IsWhitespace(a[0]) && !IsWhitespace(a[|a| - 1])
    requires DashRuns(TrimStart(a) + c) == DashRuns(TrimStart(a)) + m
    ensures DashRuns(a + c) == DashRuns(a) + m
  {
    DashRunsBlankHead(a, c);
    DashRunsBlankUnfold(a);
    AppendAssoc("-", DashRuns(TrimStart(a)), m);
  }

  lemma DashRunsBlankUnfold(a: string)
    requires a != [] && IsWhitespace(a[0])
    ensures DashRuns(a) == "-" + DashRuns(TrimStart(a))
  {
  }

  lemma DashRunsAppendText(a: string, c: string, m: string)
    requires a != [] && !IsWhitespace(a[0])
    requires DashRuns(a[1..] + c) == DashRuns(a[1..]) + m
    ensures DashRuns(a + c) == DashRuns(a) + m
  {
    DashRunsTextHead(a, c);
  }

  lemma DashRunsRunHead(w: string, b: string)
    requires w != [] && IsBlank(w)
    requires b == [] || !IsWhitespace(b[0])
    ensures DashRuns(w + b) == "-" + DashRuns(b)
  {
    TrimStartSkipsRun(w, b);
    assert (w + b)[0] == w[0];
  }

  lemma DashRunsTextHead(a: string, c: string)
    requires a != [] && !IsWhitespace(a[0])
    ensures DashRuns(a + c) == [a[0]] + DashRuns(a[1..] + c)
  {
    assert (a + c)[0] == a[0];
    assert (a + c)[1..] == a[1..] + c;
  }

  lemma DashRunsBlankHead(a: string, c: string)
    requires a != [] && IsWhitespace(a[0]) && !IsWhitespace(a[|a| - 1])
    ensures DashRuns(a + c) == "-" + DashRuns(TrimStart(a) + c)
  {
    TrimStartAppend(a, c);
    assert (a + c)[0] == a[0];
  }

  lemma {:induction false} TrimStartAppend(a: string, c: string)
    requires a != [] && !IsWhitespace(a[|a| - 1])
    ensures TrimStart(a + c) == TrimStart(a) + c
  {
    if IsWhitespace(a[0]) {
      assert (a + c)[1..] == a[1..] + c;
      TrimStartAppend(a[1..], c);
    }
  }

  lemma {:induction false} TrimStartSkipsRun(w: string, b: string)
    requires IsBlank(w)
    requires b == [] || !IsWhitespace(b[0])
    ensures TrimStart(w + b) == b
  {
    if w != [] {
      assert (w + b)[1..] == w[1..] + b;
      TrimStartSkipsRun(w[1..], b);
    } else {
      assert w + b == b;
    }
  }

  // ---------------------------------------------------------------------------
  // Weekly view: grouping by day, each bucket sorted by start time

  /** Entries in ascending `start_time` order (`localeCompare` on HH:MM:SS strings). */
  ghost predicate Sorted(s: seq<Entry>) {
    forall i, j :: 0 <= i < j < |s| ==> LexLe(s[i].start_time, s[j].start_time)
  }

  /** Inserts `e` after every entry that starts no later than it, before the others. */
  function PushSorted(bucket: seq<Entry>, e: Entry): (r: seq<Entry>)
    ensures |r| == |bucket| + 1
  {
    if bucket == [] then [e]
    else if LexLe(bucket[0].start_time, e.start_time) then [bucket[0]] + PushSorted(bucket[1..], e)
    else [e] + bucket
  }

  /** The push adds exactly the new entry: the result is a permutation of the bucket plus `e`. */
  lemma {:induction false} PushSortedMultiset(bucket: seq<Entry>, e: Entry)
    ensures multiset(PushSorted(bucket, e)) == multiset(bucket) + multiset{e}
  {
    if bucket != [] {
      assert bucket == [bucket[0]] + bucket[1..];
      if LexLe(bucket[0].start_time, e.start_time) {
        PushSortedMultiset(bucket[1..], e);
      }
    }
  }

  lemma {:induction false} PushSortedSorted(bucket: seq<Entry>, e: Entry)
    requires Sorted(bucket)
    ensures Sorted(PushSorted(bucket, e))
  {
    if bucket != [] {
      var b0 := bucket[0];
      if LexLe(b0.start_time, e.start_time) {
        SortedTail(bucket);
        PushSortedSorted(bucket[1..], e);
        var t := PushSorted(bucket[1..], e);
        HeadBeforePushed(bucket, e);
        SortedCons(b0, t);
        PushSortedCons(bucket, e);
      } else {
        LexLeTotal(b0.start_time, e.start_time);
        forall j | 0 <= j < |bucket| ensures LexLe(e.start_time, bucket[j].start_time) {
          if j > 0 { LexLeTransitive(e.start_time, b0.start_time, bucket[j].start_time); }
        }
        SortedCons(e, bucket);
        PushSortedFront(bucket, e);
      }
    }
  }

  /** A sorted list stays sorted under a head that starts no later than any of its entries. */
  lemma SortedCons(x: Entry, s: seq<Entry>)
    requires Sorted(s)
    requires forall j :: 0 <= j < |s| ==> LexLe(x.start_time, s[j].start_time)
    ensures Sorted([x] + s)
  {
    forall i, j | 0 <= i < j < |[x] + s| ensures LexLe(([x] + s)[i].start_time, ([x] + s)[j].start_time) {
      if i > 0 {
        assert ([x] + s)[i] == s[i - 1];
      }
      assert ([x] + s)[j] == s[j - 1];
    }
  }

  /** The head of a sorted bucket starts no later than anything the push leaves behind it. */
  lemma HeadBeforePushed(bucket: seq<Entry>, e: Entry)
    requires Sorted(bucket) && bucket != [] && LexLe(bucket[0].start_time, e.start_time)
    ensures forall j :: 0 <= j < |PushSorted(bucket[1..], e)| ==>
              LexLe(bucket[0].start_time, PushSorted(bucket[1..], e)[j].start_time)
  {
    var t := PushSorted(bucket[1..], e);
    PushSortedMultiset(bucket[1..], e);
    forall j | 0 <= j < |t| ensures LexLe(bucket[0].start_time, t[j].start_time) {
      assert t[j] in multiset(t);
      if t[j] != e {
        assert t[j] in multiset(bucket[1..]);
        var k :| 0 <= k < |bucket[1..]| && bucket[1..][k] == t[j];
        assert bucket[k + 1] == t[j];
      }
    }
  }

  function NotAfter(e: Entry): Entry -> bool {
    (x: Entry) => LexLe(x.start_time, e.start_time)
  }

  function After(e: Entry): Entry -> bool {
    (x: Entry) => !LexLe(x.start_time, e.start_time)
  }

  lemma PushSortedCons(bucket: seq<Entry>, e: Entry)
    requires bucket != [] && LexLe(bucket[0].start_time, e.start_time)
    ensures PushSorted(bucket, e) == [bucket[0]] + PushSorted(bucket[1..], e)
  {
  }

  /**
   * Where the new entry lands in a sorted bucket: after every entry that starts no later
   * than it (equal start times keep insertion order) and before every entry that starts later.
   */
  lemma {:induction false} PushSortedPosition(bucket: seq<Entry>, e: Entry)
    requires Sorted(bucket)
    ensures PushSorted(bucket, e) == Filter(NotAfter(e), bucket) + [e] + Filter(After(e), bucket)
  {
    if bucket != [] {
      if LexLe(bucket[0].start_time, e.start_time) {
        SortedTail(bucket);
        PushSortedPosition(bucket[1..], e);
        PushSortedPast(bucket, e);
      } else {
        PushSortedBefore(bucket, e);
      }
    }
  }

  lemma SortedTail(s: seq<Entry>)
    requires s != [] && Sorted(s)
    ensures Sorted(s[1..])
  {
    forall i, j | 0 <= i < j < |s| - 1 ensures LexLe(s[1..][i].start_time, s[1..][j].start_time) {
      assert s[1..][i] == s[i + 1] && s[1..][j] == s[j + 1];
    }
  }

  /** An entry that starts no later than `e` stays in front of it. */
  lemma PushSortedPast(bucket: seq<Entry>, e: Entry)
    requires bucket != [] && LexLe(bucket[0].start_time, e.start_time)
    requires PushSorted(bucket[1..], e)
             == Filter(NotAfter(e), bucket[1..]) + [e] + Filter(After(e), bucket[1..])
    ensures PushSorted(bucket, e) == Filter(NotAfter(e), bucket) + [e] + Filter(After(e), bucket)
  {
    var b0 := bucket[0];
    assert NotAfter(e)(b0);
    assert !After(e)(b0);
    FilterCons(NotAfter(e), bucket);
    FilterCons(After(e), bucket);
    PushSortedCons(bucket, e);
    ConsInFront(PushSorted(bucket, e), PushSorted(bucket[1..], e), b0, e,
                Filter(NotAfter(e), bucket[1..]), Filter(After(e), bucket[1..]),
                Filter(NotAfter(e), bucket), Filter(After(e), bucket));
  }

  /** When the first entry of a sorted bucket starts later than `e`, every entry does. */
  lemma PushSortedBefore(bucket: seq<Entry>, e: Entry)
    requires Sorted(bucket) && bucket != [] && !LexLe(bucket[0].start_time, e.start_time)
    ensures PushSorted(bucket, e) == Filter(NotAfter(e), bucket) + [e] + Filter(After(e), bucket)
  {
    AllAfter(bucket, e);
    FilterKeepsAll(After(e), bucket);
    NoneSelected(NotAfter(e), bucket);
    PushSortedFront(bucket, e);
    assert [] + [e] == [e];
  }

  lemma AllAfter(bucket: seq<Entry>, e: Entry)
    requires Sorted(bucket) && bucket != [] && !LexLe(bucket[0].start_time, e.start_time)
    ensures forall j :: 0 <= j < |bucket| ==> After(e)(bucket[j])
  {
    forall j | 0 <= j < |bucket| ensures After(e)(bucket[j]) {
      if LexLe(bucket[j].start_time, e.start_time) {
        LexLeTransitive(bucket[0].start_time, bucket[j].start_time, e.start_time);
      }
    }
  }

  lemma PushSortedFront(bucket: seq<Entry>, e: Entry)
    requires bucket != [] && !LexLe(bucket[0].start_time, e.start_time)
    ensures PushSorted(bucket, e) == [e] + bucket
  {
  }

  /** `bucket.sort((a, b) => a.start_time.localeCompare(b.start_time))`, a stable sort. */
  function SortByStart(s: seq<Entry>): (r: seq<Entry>)
    ensures multiset(r) == multiset(s)
    ensures Sorted(r)
  {
    if s == [] then []
    else
      var prefix := SortByStart(s[..|s| - 1]);
      PushSortedSorted(prefix, s[|s| - 1]);
      PushSortedMultiset(prefix, s[|s| - 1]);
      assert s == s[..|s| - 1] + [s[|s| - 1]];
      PushSorted(prefix, s[|s| - 1])
  }

  lemma {:induction false} PushSortedAtEnd(bucket: seq<Entry>, e: Entry)
    requires forall i :: 0 <= i < |bucket| ==> LexLe(bucket[i].start_time, e.start_time)
    ensures PushSorted(bucket, e) == bucket + [e]
  {
    if bucket != [] { PushSortedAtEnd(bucket[1..], e); }
  }

  /** Sorting an already sorted bucket leaves it as it is. */
  lemma {:induction false} SortByStartSorted(s: seq<Entry>)
    requires Sorted(s)
    ensures SortByStart(s) == s
  {
    if s != [] {
      var n := |s| - 1;
      SortByStartSorted(s[..n]);
      PushSortedAtEnd(s[..n], s[n]);
      assert s[..n] + [s[n]] == s;
    }
  }

  /** The sort after a push onto a sorted bucket only places the new entry. */
  lemma PushThenSort(bucket: seq<Entry>, e: Entry)
    requires Sorted(bucket)
    ensures SortByStart(bucket + [e]) == PushSorted(bucket, e)
  {
    assert (bucket + [e])[..|bucket|] == bucket;
    SortByStartSorted(bucket);
  }

  /**
   * One step of the `timetable.reduce`: push the entry into its day's bucket and sort that
   * bucket. The buckets are kept sorted, so the sort after the push places the new entry
   * (`PushThenSort`), which is how the step is written here.
   */
  function AddToDay(acc: map<string, seq<Entry>>, e: Entry): map<string, seq<Entry>> {
    var bucket := if e.day_of_week in acc then acc[e.day_of_week] else [];
    acc[e.day_of_week := PushSorted(bucket, e)]
  }

  lemma AddToDayUnfold(acc: map<string, seq<Entry>>, item: Entry)
    ensures AddToDay(acc, item)
            == acc[item.day_of_week := PushSorted(if item.day_of_week in acc then acc[item.day_of_week] else [], item)]
  {
  }
}
