/**
 * The notification list of the navigation bar: the unread badge, marking one
 * notification as read, clearing the list, and the archive view, which always
 * shows the seed notifications.
 */
module Notifications {

  datatype NotificationKind = REQUEST | ALERT | INFO

  datatype Notification = Notification(
    id: string,
    title: string,
    message: string,
    time: string,
    read: bool,
    kind: NotificationKind)

  /** The seed list: two unread notifications followed by two read ones. */
  const MockNotifications: seq<Notification> := [
    Notification("NOT-001", "Emergency Access Request",
      "Jaipur Police requested access to CAM-001 due to reported robbery in Sector 4.", "2 mins ago", false, REQUEST),
    Notification("NOT-002", "Crowd Density Alert",
      "Abnormal crowd detected at Hawa Mahal junction (CAM-EXT).", "15 mins ago", false, ALERT),
    Notification("NOT-003", "System Maintenance",
      "Scheduled downtime for AI nodes tonight at 2:00 AM.", "1 hour ago", true, INFO),
    Notification("NOT-004", "Traffic Clear",
      "Congestion at Ajmer Road has been resolved.", "3 hours ago", true, INFO)
  ]

  /** `notifications.filter(n => !n.read)` */
  function Unread(ns: seq<Notification>): (r: seq<Notification>)
    ensures |r| <= |ns|
  {
    if ns == [] then [] else (if !ns[0].read then [ns[0]] else []) + Unread(ns[1..])
  }

  /** The filter keeps exactly the unread entries. */
  lemma {:induction false} UnreadMembers(ns: seq<Notification>)
    ensures forall n :: n in Unread(ns) <==> n in ns && !n.read
  {
    if ns != [] {
      UnreadMembers(ns[1..]);
      assert forall n :: n in ns <==> n == ns[0] || n in ns[1..];
    }
  }

  /** The badge number. */
  function UnreadCount(ns: seq<Notification>): (k: nat)
    ensures k <= |ns|
    ensures k == 0 <==> forall i :: 0 <= i < |ns| ==> ns[i].read
  {
    var u := Unread(ns);
    UnreadMembers(ns);
    assert u == [] <==> forall i :: 0 <= i < |ns| ==> ns[i].read by {
      if u != [] {
        assert u[0] in ns;
      }
      if exists i :: 0 <= i < |ns| && !ns[i].read {
        var i :| 0 <= i < |ns| && !ns[i].read;
        assert ns[i] in u;
      }
    }
    |u|
  }

  /** `markAsRead(id)`: every entry with that id becomes read; nothing else changes. */
  function MarkedAsRead(ns: seq<Notification>, id: string): (r: seq<Notification>)
    ensures |r| == |ns|
    ensures forall i :: 0 <= i < |ns| ==> r[i] == if ns[i].id == id then ns[i].(read := true) else ns[i]
  {
    if ns == [] then [] else [if ns[0].id == id then ns[0].(read := true) else ns[0]] + MarkedAsRead(ns[1..], id)
  }

  lemma UnreadCons(n: Notification, t: seq<Notification>)
    ensures Unread([n] + t) == (if n.read then [] else [n]) + Unread(t)
  {
    assert ([n] + t)[0] == n && ([n] + t)[1..] == t;
  }

  /** The filter keeps list order and multiplicity: filtering a concatenation concatenates the filtered parts. */
  lemma {:induction false} UnreadAppend(a: seq<Notification>, b: seq<Notification>)
    ensures Unread(a + b) == Unread(a) + Unread(b)
  {
    if a != [] {
      var t := a[1..];
      var h := if a[0].read then [] else [a[0]];
      calc {
        Unread(a + b);
        { assert a + b == [a[0]] + (t + b); }
        Unread([a[0]] + (t + b));
        { UnreadCons(a[0], t + b); }
        h + Unread(t + b);
        { UnreadAppend(t, b); }
        h + (Unread(t) + Unread(b));
        (h + Unread(t)) + Unread(b);
        { UnreadCons(a[0], t); assert a == [a[0]] + t; }
        Unread(a) + Unread(b);
      }
    } else {
      assert a + b == b;
    }
  }

  /**
   * The badge is the number of unread entries: one entry counts 1 exactly
   * when it is unread, and the counts of two lists add up.
   */
  lemma UnreadCountAdds(a: seq<Notification>, b: seq<Notification>, n: Notification)
    ensures UnreadCount(a + b) == UnreadCount(a) + UnreadCount(b)
    ensures UnreadCount([n]) == if n.read then 0 else 1
  {
    UnreadAppend(a, b);
    UnreadCons(n, []);
  }

  /** The unread entries carrying `id`. */
  function UnreadWithId(ns: seq<Notification>, id: string): nat {
    if ns == [] then 0 else (if !ns[0].read && ns[0].id == id then 1 else 0) + UnreadWithId(ns[1..], id)
  }

  /** Marking as read takes exactly the unread entries with that id off the badge. */
  lemma {:induction false} MarkAsReadCount(ns: seq<Notification>, id: string)
    ensures UnreadCount(MarkedAsRead(ns, id)) == UnreadCount(ns) - UnreadWithId(ns, id)
    ensures UnreadCount(MarkedAsRead(ns, id)) <= UnreadCount(ns)
  {
    if ns != [] {
      MarkAsReadCount(ns[1..], id);
      var r := MarkedAsRead(ns, id);
      assert r[1..] == MarkedAsRead(ns[1..], id);
      assert Unread(r) == (if !r[0].read then [r[0]] else []) + Unread(r[1..]);
      assert Unread(ns) == (if !ns[0].read then [ns[0]] else []) + Unread(ns[1..]);
      assert UnreadWithId(ns[1..], id) <= UnreadCount(ns[1..]) by {
        UnreadWithIdBound(ns[1..], id);
      }
    }
  }

  lemma {:induction false} UnreadWithIdBound(ns: seq<Notification>, id: string)
    ensures UnreadWithId(ns, id) <= UnreadCount(ns)
  {
    if ns != [] {
      UnreadWithIdBound(ns[1..], id);
      assert Unread(ns) == (if !ns[0].read then [ns[0]] else []) + Unread(ns[1..]);
    }
  }

  /** Marking twice is marking once, and the list keeps its ids in order. */
  lemma MarkAsReadIdempotent(ns: seq<Notification>, id: string)
    ensures MarkedAsRead(MarkedAsRead(ns, id), id) == MarkedAsRead(ns, id)
    ensures forall i :: 0 <= i < |ns| ==> MarkedAsRead(ns, id)[i].id == ns[i].id
  {
  }

  /** After marking, no entry with that id is unread. */
  lemma MarkAsReadClearsId(ns: seq<Notification>, id: string)
    ensures UnreadWithId(MarkedAsRead(ns, id), id) == 0
  {
    if ns != [] {
      MarkAsReadClearsId(ns[1..], id);
      assert MarkedAsRead(ns, id)[1..] == MarkedAsRead(ns[1..], id);
    }
  }

  /** Four entries, the first two unread and the last two read: exactly the first two are unread. */
  lemma UnreadOfFour(ns: seq<Notification>)
    requires |ns| == 4 && !ns[0].read && !ns[1].read && ns[2].read && ns[3].read
    ensures Unread(ns) == ns[..2]
  {
    assert Unread(ns[3..]) == [] by {
      assert ns[3..][1..] == [];
    }
    assert Unread(ns[2..]) == [] by {
      assert ns[2..][1..] == ns[3..];
    }
    assert Unread(ns[1..]) == [ns[1]] by {
      assert ns[1..][1..] == ns[2..];
    }
  }

  /** The seed shows a badge of 2. */
  lemma SeedBadge()
    ensures UnreadCount(MockNotifications) == 2
  {
    var ns := MockNotifications;
    assert !ns[0].read && !ns[1].read && ns[2].read && ns[3].read;
    UnreadOfFour(ns);
  }

  /** The archive modal: it renders the seed list whenever it is shown, whatever the live list holds. */
  function ArchiveEntries(showHistory: bool): (r: seq<Notification>)
    ensures showHistory ==> |r| == 4 && UnreadCount(r) == 2 && r[0].id == "NOT-001"
    ensures !showHistory ==> r == []
  {
    SeedBadge();
    if showHistory then MockNotifications else []
  }

  class Navbar {
    var notifications: seq<Notification>
    var isNotificationsOpen: bool
    var showHistory: bool

    constructor ()
      ensures notifications == MockNotifications && !isNotificationsOpen && !showHistory
    {
      notifications := MockNotifications;
      isNotificationsOpen := false;
      showHistory := false;
    }

    method MarkAsRead(id: string)
      modifies this
      ensures notifications == MarkedAsRead(old(notifications), id)
      ensures isNotificationsOpen == old(isNotificationsOpen) && showHistory == old(showHistory)
    {
      notifications := MarkedAsRead(notifications, id);
    }

    /**
     * `handleClearAll`: the list is emptied and the badge goes away. The
     * archive view renders `MockNotifications` itself, so it keeps all four.
     */
    method ClearAll()
      modifies this
      ensures notifications == [] && UnreadCount(notifications) == 0
      ensures isNotificationsOpen == old(isNotificationsOpen) && showHistory == old(showHistory)
      ensures ArchiveEntries(showHistory) == old(ArchiveEntries(showHistory))
    {
      notifications := [];
    }

    method ToggleOpen()
      modifies this
      ensures isNotificationsOpen == !old(isNotificationsOpen)
      ensures notifications == old(notifications) && showHistory == old(showHistory)
    {
      isNotificationsOpen := !isNotificationsOpen;
    }

    /** "View Notification Archive": the dropdown closes and the archive opens over the live list. */
    method OpenArchive()
      modifies this
      ensures showHistory && !isNotificationsOpen && notifications == old(notifications)
      ensures ArchiveEntries(showHistory) == MockNotifications
    {
      isNotificationsOpen := false;
      showHistory := true;
    }

    /** Either close button of the archive: the archive then lists nothing; nothing else changes. */
    method CloseArchive()
      modifies this
      ensures !showHistory && ArchiveEntries(showHistory) == []
      ensures notifications == old(notifications) && isNotificationsOpen == old(isNotificationsOpen)
    {
      showHistory := false;
    }
  }
}
