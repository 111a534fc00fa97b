/**
 * The student dashboard widgets (components/student-dashboard-widgets.tsx): today's classes,
 * the pending and overdue assignments, the local notification list built from the assignments,
 * and the status badge colour.
 */
module StudentWidgets {
  import opened Wrappers
  import opened Seqs

  /** The timetable entry as this widget receives it. */
  datatype ClassEntry = ClassEntry(timetable_id: string, course_name: string, day_of_week: string, start_time: string)

  /** An assignment; `submission_id` is `null` (`None`) until the student has submitted. */
  datatype Assignment = Assignment(id: string, title: string, course_name: string, due_date: string, submission_id: Option<string>)

  /** An entry of the local notification list: an assignment spread with an `isRead` flag. */
  datatype LocalNotification = LocalNotification(item: Assignment, isRead: bool)

  /** `!!a.submission_id`: a submission id that is present and non-empty. */
  predicate Submitted(a: Assignment) {
    a.submission_id.Some? && a.submission_id.value != ""
  }

  function OnDay(day: string): ClassEntry -> bool {
    (t: ClassEntry) => t.day_of_week == day
  }

  function NotSubmitted(): Assignment -> bool {
    (a: Assignment) => !Submitted(a)
  }

  /** `todaysClasses`: the entries whose day is `today` (the clock's weekday name), in timetable order. */
  function TodaysClasses(timetable: seq<ClassEntry>, today: string): (r: seq<ClassEntry>)
    ensures Selects(r, timetable, OnDay(today))
    ensures |r| <= |timetable|
  {
    FilterSelects(OnDay(today), timetable);
    FilterLength(OnDay(today), timetable);
    Filter(OnDay(today), timetable)
  }

  /** `pendingAssignments`: the assignments without a submission, in order. */
  function PendingAssignments(assignments: seq<Assignment>): (r: seq<Assignment>)
    ensures Selects(r, assignments, NotSubmitted())
    ensures forall i :: 0 <= i < |r| ==> !Submitted(r[i])
  {
    FilterSelects(NotSubmitted(), assignments);
    Filter(NotSubmitted(), assignments)
  }

  function UnsubmittedAnd(isOverdue: Assignment -> bool): Assignment -> bool {
    (a: Assignment) => !Submitted(a) && isOverdue(a)
  }

  /**
   * `overdueAssignments`: the pending assignments that `isOverdue` (due date before the clock's
   * now) holds of. They are exactly the assignments that are both unsubmitted and overdue.
   */
  function OverdueAssignments(assignments: seq<Assignment>, isOverdue: Assignment -> bool): (r: seq<Assignment>)
    ensures SubsequenceOf(r, PendingAssignments(assignments))
    ensures Selects(r, assignments, UnsubmittedAnd(isOverdue))
  {
    var pending := PendingAssignments(assignments);
    FilterIsSubsequence(isOverdue, pending);
    FilterFilter(NotSubmitted(), isOverdue, UnsubmittedAnd(isOverdue), assignments);
    FilterSelects(UnsubmittedAnd(isOverdue), assignments);
    Filter(isOverdue, pending)
  }

  /** The overdue count never exceeds the pending count. */
  lemma OverdueAtMostPending(assignments: seq<Assignment>, isOverdue: Assignment -> bool)
    ensures |OverdueAssignments(assignments, isOverdue)| <= |PendingAssignments(assignments)|
  {
    FilterLength(isOverdue, PendingAssignments(assignments));
  }

  /** The initial notification list: every assignment, in order, marked unread. */
  function InitialNotifications(assignments: seq<Assignment>): (r: seq<LocalNotification>)
    ensures |r| == |assignments|
    ensures forall i :: 0 <= i < |r| ==> r[i] == LocalNotification(assignments[i], false)
  {
    seq(|assignments|, i requires 0 <= i < |assignments| => LocalNotification(assignments[i], false))
  }

  function IsUnread(): LocalNotification -> bool {
    (n: LocalNotification) => !n.isRead
  }

  /**
   * `unreadNotifications.length`: the same count the notification centre shows
   * (`Notifications.UnreadCount`), taken here over the widget's own notification records.
   */
  function UnreadCount(ns: seq<LocalNotification>): (n: nat)
    ensures n == Count(IsUnread(), ns)
    ensures n <= |ns|
    ensures n == 0 <==> forall i :: 0 <= i < |ns| ==> ns[i].isRead
  {
    FilterLength(IsUnread(), ns);
    |Filter(IsUnread(), ns)|
  }

  /** Before any click, the notifications badge counts every assignment. */
  lemma InitialAllUnread(assignments: seq<Assignment>)
    ensures UnreadCount(InitialNotifications(assignments)) == |assignments|
  {
    var ns := InitialNotifications(assignments);
    FilterKeepsAll(IsUnread(), ns);
  }

  /** `markNotificationAsRead`: the entries with this id become read, the others are unchanged. */
  function MarkedAsRead(ns: seq<LocalNotification>, id: string): (r: seq<LocalNotification>)
    ensures |r| == |ns|
    ensures forall i :: 0 <= i < |ns| && ns[i].item.id == id ==> r[i] == ns[i].(isRead := true)
    ensures forall i :: 0 <= i < |ns| && ns[i].item.id != id ==> r[i] == ns[i]
  {
    if ns == [] then []
    else [if ns[0].item.id == id then ns[0].(isRead := true) else ns[0]] + MarkedAsRead(ns[1..], id)
  }

  function UnreadOther(id: string): LocalNotification -> bool {
    (n: LocalNotification) => !n.isRead && n.item.id != id
  }

  /** After marking `id` read, the unread ones are exactly the unread ones with another id. */
  lemma {:induction false} MarkedAsReadUnread(ns: seq<LocalNotification>, id: string)
    ensures Filter(IsUnread(), MarkedAsRead(ns, id)) == Filter(UnreadOther(id), ns)
  {
    if ns != [] {
      var r := MarkedAsRead(ns, id);
      MarkedAsReadUnread(ns[1..], id);
      assert r[1..] == MarkedAsRead(ns[1..], id);
      FilterCons(IsUnread(), r);
      FilterCons(UnreadOther(id), ns);
    }
  }

  /** Marking the same notification twice is the same as marking it once. */
  lemma {:induction false} MarkedAsReadIdempotent(ns: seq<LocalNotification>, id: string)
    ensures MarkedAsRead(MarkedAsRead(ns, id), id) == MarkedAsRead(ns, id)
  {
    if ns != [] { MarkedAsReadIdempotent(ns[1..], id); }
  }

  const SubmittedColor := "bg-green-100 text-green-800"
  const OverdueColor := "bg-red-100 text-red-800"
  const PendingColor := "bg-yellow-100 text-yellow-800"

  /** `getStatusColor`: green once submitted, otherwise red when overdue, otherwise yellow. */
  function StatusColor(submitted: bool, overdue: bool): (c: string)
    ensures c == SubmittedColor <==> submitted
    ensures c == OverdueColor <==> !submitted && overdue
    ensures c == PendingColor <==> !submitted && !overdue
  {
    if submitted then SubmittedColor
    else if overdue then OverdueColor
    else PendingColor
  }

  /**
   * The deadline list only shows pending assignments, so its badges are never green:
   * red exactly for the overdue ones.
   */
  lemma PendingBadgeNeverGreen(assignments: seq<Assignment>, i: nat, overdue: bool)
    requires i < |PendingAssignments(assignments)|
    ensures var a := PendingAssignments(assignments)[i];
            StatusColor(Submitted(a), overdue) == if overdue then OverdueColor else PendingColor
  {
  }

  /** The widget's local state: the notification list the student marks read. */
  class StudentDashboardWidgets {
    var notifications: seq<LocalNotification>

    constructor (assignments: seq<Assignment>)
      ensures notifications == InitialNotifications(assignments)
    {
      notifications := InitialNotifications(assignments);
    }

    method MarkNotificationAsRead(id: string)
      modifies this
      ensures notifications == MarkedAsRead(old(notifications), id)
      ensures Filter(IsUnread(), notifications) == Filter(UnreadOther(id), old(notifications))
    {
      MarkedAsReadUnread(notifications, id);
      notifications := MarkedAsRead(notifications, id);
    }
  }
}
