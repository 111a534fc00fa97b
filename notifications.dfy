/**
 * The floating notifications widget (components/notifications-widget.tsx): the unread
 * count, the bell badge, the priority colours, and the two "mark as read" updates.
 */
module Notifications {
  import opened Wrappers
  import opened Seqs
  import opened Text

  /** `type` is a keyword here, so the notification's kind is `kind`. */
  datatype Notification = Notification(
    id: string,
    kind: string,
    title: string,
    message: string,
    timestamp: string,
    isRead: bool,
    priority: string)

  function IsUnread(): Notification -> bool {
    (n: Notification) => !n.isRead
  }

  /** `notifications.filter(n => !n.isRead).length`. */
  function UnreadCount(ns: seq<Notification>): (n: nat)
    ensures n == Count(IsUnread(), ns)
    ensures n <= |ns|
    ensures n == 0 <==> forall i :: 0 <= i < |ns| ==> ns[i].isRead
  {
    FilterLength(IsUnread(), ns);
    |Filter(IsUnread(), ns)|
  }

  /** `prev.map(n => n.id === id ? { ...n, isRead: true } : n)`. */
  function MarkedRead(ns: seq<Notification>, id: string): (r: seq<Notification>)
    ensures |r| == |ns|
    ensures forall i :: 0 <= i < |ns| && ns[i].id == id ==> r[i] == ns[i].(isRead := true)
    ensures forall i :: 0 <= i < |ns| && ns[i].id != id ==> r[i] == ns[i]
  {
    if ns == [] then []
    else [if ns[0].id == id then ns[0].(isRead := true) else ns[0]] + MarkedRead(ns[1..], id)
  }

  /** `prev.map(n => ({ ...n, isRead: true }))`. */
  function AllMarkedRead(ns: seq<Notification>): (r: seq<Notification>)
    ensures |r| == |ns|
    ensures forall i :: 0 <= i < |ns| ==> r[i] == ns[i].(isRead := true)
  {
    if ns == [] then [] else [ns[0].(isRead := true)] + AllMarkedRead(ns[1..])
  }

  /** After "Mark all read" nothing is unread. */
  lemma AllMarkedReadClearsCount(ns: seq<Notification>)
    ensures UnreadCount(AllMarkedRead(ns)) == 0
  {
  }

  /** Some unread notification carries this id. */
  predicate UnreadWithId(ns: seq<Notification>, id: string) {
    exists i :: 0 <= i < |ns| && ns[i].id == id && !ns[i].isRead
  }

  lemma UnreadWithIdCons(ns: seq<Notification>, id: string)
    requires ns != []
    ensures UnreadWithId(ns, id) <==> (ns[0].id == id && !ns[0].isRead) || UnreadWithId(ns[1..], id)
  {
    if UnreadWithId(ns[1..], id) {
      var i :| 0 <= i < |ns[1..]| && ns[1..][i].id == id && !ns[1..][i].isRead;
      assert ns[i + 1] == ns[1..][i];
    }
    if UnreadWithId(ns, id) {
      var i :| 0 <= i < |ns| && ns[i].id == id && !ns[i].isRead;
      if i > 0 { assert ns[1..][i - 1] == ns[i]; }
    }
  }

  /** Marking one notification read never raises the count, and lowers it iff it hits an unread one. */
  lemma {:induction false} MarkedReadCount(ns: seq<Notification>, id: string)
    ensures Count(IsUnread(), MarkedRead(ns, id)) <= Count(IsUnread(), ns)
    ensures Count(IsUnread(), MarkedRead(ns, id)) < Count(IsUnread(), ns) <==> UnreadWithId(ns, id)
  {
    if ns != [] {
      MarkedReadCount(ns[1..], id);
      var r := MarkedRead(ns, id);
      assert r[1..] == MarkedRead(ns[1..], id);
      UnreadWithIdCons(ns, id);
    }
  }

  /** The same in terms of `unreadCount`. */
  lemma MarkedReadNeverIncreases(ns: seq<Notification>, id: string)
    ensures UnreadCount(MarkedRead(ns, id)) <= UnreadCount(ns)
  {
    MarkedReadCount(ns, id);
    FilterLength(IsUnread(), ns);
    FilterLength(IsUnread(), MarkedRead(ns, id));
  }

  lemma {:induction false} MarkedReadIdempotent(ns: seq<Notification>, id: string)
    ensures MarkedRead(MarkedRead(ns, id), id) == MarkedRead(ns, id)
  {
    if ns != [] { MarkedReadIdempotent(ns[1..], id); }
  }

  lemma {:induction false} AllMarkedReadIdempotent(ns: seq<Notification>)
    ensures AllMarkedRead(AllMarkedRead(ns)) == AllMarkedRead(ns)
  {
    if ns != [] { AllMarkedReadIdempotent(ns[1..]); }
  }

  /** Marking everything read subsumes marking any single one first. */
  lemma {:induction false} MarkAllAfterMark(ns: seq<Notification>, id: string)
    ensures AllMarkedRead(MarkedRead(ns, id)) == AllMarkedRead(ns)
  {
    if ns != [] { MarkAllAfterMark(ns[1..], id); }
  }

  /** The bell badge: hidden at 0, "9+" above 9, otherwise the count itself. */
  function BadgeText(count: nat): (r: Option<string>)
    ensures r.None? <==> count == 0
    ensures count > 9 ==> r == Some("9+")
    ensures 0 < count <= 9 ==> r.Some? && |r.value| == 1 && '0' <= r.value[0] <= '9' && ParseDigits(r.value) == count
  {
    NatToStringRoundTrip(count);
    if count == 0 then None
    else if count > 9 then Some("9+")
    else Some(NatToString(count))
  }

  /**
   * `getPriorityColor`: distinct classes for "high" and "medium", blue for everything else.
   * It mirrors the announcements section's table (`Announcements.PriorityColor`), the same
   * three cases with a background class added to each border class.
   */
  function PriorityColor(priority: string): (c: string)
    ensures c == "border-l-red-500 bg-red-50/50" <==> priority == "high"
    ensures c == "border-l-orange-500 bg-orange-50/50" <==> priority == "medium"
    ensures c == "border-l-blue-500 bg-blue-50/50" <==> priority != "high" && priority != "medium"
  {
    match priority
    case "high" => "border-l-red-500 bg-red-50/50"
    case "medium" => "border-l-orange-500 bg-orange-50/50"
    case _ => "border-l-blue-500 bg-blue-50/50"
  }

  class NotificationsWidget {
    var notifications: seq<Notification>
    var isExpanded: bool

    /** Mounting runs the effect that loads the demo list for the current login state. */
    constructor (demo: seq<Notification>)
      ensures notifications == demo && !isExpanded
    {
      notifications, isExpanded := demo, false;
    }

    /**
     * The same effect run again when `isLoggedIn` or `userType` changes: the list becomes the
     * demo list for the new login state, so every earlier read flag is dropped.
     */
    method Reload(demo: seq<Notification>)
      modifies this`notifications
      ensures notifications == demo
      ensures Unread() == Count(IsUnread(), demo)
    {
      notifications := demo;
    }

    function Unread(): nat
      reads this
    {
      UnreadCount(notifications)
    }

    /** The "Mark all read" button is rendered iff something is unread. */
    predicate ShowsMarkAllRead()
      reads this
    {
      Unread() > 0
    }

    method MarkAsRead(id: string)
      modifies this`notifications
      ensures notifications == MarkedRead(old(notifications), id)
      ensures Unread() <= old(Unread())
    {
      MarkedReadNeverIncreases(notifications, id);
      notifications := MarkedRead(notifications, id);
    }

    method MarkAllAsRead()
      modifies this`notifications
      ensures notifications == AllMarkedRead(old(notifications))
      ensures Unread() == 0 && !ShowsMarkAllRead()
    {
      notifications := AllMarkedRead(notifications);
    }

    method ToggleExpanded()
      modifies this`isExpanded
      ensures isExpanded == !old(isExpanded)
    {
      isExpanded := !isExpanded;
    }
  }
}
