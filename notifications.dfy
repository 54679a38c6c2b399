/** The notification list of the settings page (`NotificationsTab`): mark one
    or all as read, delete by id, and the unread count that drives the
    header's text and its "Mark all as read" button. */
module Notifications {
  import opened Seqs
  import opened Text

  datatype Kind = Alert | Info | Success

  datatype Notification = Notification(id: string, title: string, description: string, date: string,
                                       kind: Kind, read: bool)

  predicate IsUnread(n: Notification)
  {
    !n.read
  }

  /** `notifications.filter((n) => !n.read).length` */
  function UnreadCount(ns: seq<Notification>): nat
  {
    |Filter(ns, IsUnread)|
  }

  /** `markAsRead(id)`: entries with the id become read; the list is otherwise as it was. */
  function MarkRead(ns: seq<Notification>, id: string): seq<Notification>
  {
    seq(|ns|, i requires 0 <= i < |ns| => if ns[i].id == id then ns[i].(read := true) else ns[i])
  }

  /** `markAllAsRead`: every entry becomes read. */
  function MarkAllRead(ns: seq<Notification>): seq<Notification>
  {
    seq(|ns|, i requires 0 <= i < |ns| => ns[i].(read := true))
  }

  predicate HasOtherId(id: string, n: Notification)
  {
    n.id != id
  }

  /** `deleteNotification(id)`: the entries whose id differs, in order. */
  function Delete(ns: seq<Notification>, id: string): seq<Notification>
  {
    Filter(ns, (n: Notification) => HasOtherId(id, n))
  }

  // ---------------------------------------------------------------------------
  // What the operations promise

  /** The test for the entries an operation on `id` takes out of the unread count. */
  function UnreadWithId(id: string): Notification -> bool
  {
    (n: Notification) => n.id == id && !n.read
  }

  /** Marking one id read touches only the `read` flag of the entries with
      that id, keeps length and order, and doing it twice is doing it once. */
  lemma MarkReadSpec(ns: seq<Notification>, id: string)
    ensures |MarkRead(ns, id)| == |ns|
    ensures forall i | 0 <= i < |ns| ::
      && MarkRead(ns, id)[i].(read := ns[i].read) == ns[i]
      && MarkRead(ns, id)[i].read == (ns[i].read || ns[i].id == id)
    ensures MarkRead(MarkRead(ns, id), id) == MarkRead(ns, id)
  {
    var once := MarkRead(ns, id);
    assert forall i | 0 <= i < |ns| :: MarkRead(once, id)[i] == once[i];
  }

  /** Marking all read touches only the `read` flags, is idempotent and
      leaves nothing unread. */
  lemma MarkAllReadSpec(ns: seq<Notification>)
    ensures |MarkAllRead(ns)| == |ns|
    ensures forall i | 0 <= i < |ns| :: MarkAllRead(ns)[i] == ns[i].(read := true)
    ensures MarkAllRead(MarkAllRead(ns)) == MarkAllRead(ns)
    ensures UnreadCount(MarkAllRead(ns)) == 0
  {
    var all := MarkAllRead(ns);
    assert forall i | 0 <= i < |ns| :: MarkAllRead(all)[i] == all[i];
    NothingUnread(ns);
  }

  lemma {:induction false} NothingUnread(ns: seq<Notification>)
    ensures UnreadCount(MarkAllRead(ns)) == 0
  {
    if ns != [] {
      assert MarkAllRead(ns)[1..] == MarkAllRead(ns[1..]);
      NothingUnread(ns[1..]);
    }
  }

  /** Deleting an id removes every entry with it and keeps all others, in order. */
  lemma DeleteSpec(ns: seq<Notification>, id: string)
    ensures forall n :: n in Delete(ns, id) <==> n in ns && n.id != id
    ensures IsSubsequence(Delete(ns, id), ns)
    ensures |Delete(ns, id)| == |ns| - |Filter(ns, (n: Notification) => n.id == id)|
  {
    var other := (n: Notification) => HasOtherId(id, n);
    FilterCounts(ns, other);
    FilterIsSubsequence(ns, other);
    FilterSplits(ns, id);
  }

  lemma {:induction false} FilterSplits(ns: seq<Notification>, id: string)
    ensures |Filter(ns, (n: Notification) => HasOtherId(id, n))| + |Filter(ns, (n: Notification) => n.id == id)| == |ns|
  {
    if ns != [] {
      FilterSplits(ns[1..], id);
    }
  }

  /** Marking read lowers the unread count by the unread entries with the id. */
  lemma {:induction false} MarkReadUnread(ns: seq<Notification>, id: string)
    ensures UnreadCount(MarkRead(ns, id)) == UnreadCount(ns) - |Filter(ns, UnreadWithId(id))|
  {
    if ns != [] {
      assert MarkRead(ns, id)[1..] == MarkRead(ns[1..], id);
      MarkReadUnread(ns[1..], id);
    }
  }

  /** Deleting removes the unread entries with the id from the count. */
  lemma {:induction false} DeleteUnread(ns: seq<Notification>, id: string)
    ensures UnreadCount(Delete(ns, id)) == UnreadCount(ns) - |Filter(ns, UnreadWithId(id))|
  {
    if ns != [] {
      DeleteUnread(ns[1..], id);
      var rest := Delete(ns[1..], id);
      if ns[0].id != id {
        assert Delete(ns, id) == [ns[0]] + rest;
        assert ([ns[0]] + rest)[1..] == rest;
      }
    }
  }

  /** None of the three operations ever raises the unread count. */
  lemma UnreadNeverRises(ns: seq<Notification>, id: string)
    ensures UnreadCount(MarkRead(ns, id)) <= UnreadCount(ns)
    ensures UnreadCount(MarkAllRead(ns)) <= UnreadCount(ns)
    ensures UnreadCount(Delete(ns, id)) <= UnreadCount(ns)
  {
    MarkReadUnread(ns, id);
    MarkAllReadSpec(ns);
    DeleteUnread(ns, id);
  }

  // ---------------------------------------------------------------------------
  // The header

  /** `unreadCount !== 1 ? "s" : ""` */
  function PluralSuffix(count: nat): (s: string)
    ensures s == "s" <==> count != 1
    ensures s == [] <==> count == 1
  {
    if count != 1 then "s" else ""
  }

  /** The header's description line for `count` unread entries. */
  function SummaryFor(count: nat): string
  {
    "You have " + DecimalString(count) + " unread notification" + PluralSuffix(count)
  }

  /** The header's description line. */
  function Summary(ns: seq<Notification>): string
  {
    SummaryFor(UnreadCount(ns))
  }

  /** The "Mark all as read" button is shown while something is unread. */
  predicate ShowMarkAll(ns: seq<Notification>)
  {
    UnreadCount(ns) > 0
  }

  /** After "Mark all as read" the button disappears and the header reads
      "You have 0 unread notifications". */
  lemma MarkAllHidesButton(ns: seq<Notification>)
    ensures !ShowMarkAll(MarkAllRead(ns))
    ensures Summary(MarkAllRead(ns)) == "You have 0 unread notifications"
  {
    MarkAllReadSpec(ns);
  }

  /** The list the tab starts with: two of five entries unread. */
  function InitialNotifications(): seq<Notification>
  {
    [ Notification("1", "Low Stock Alert", "5 products are running low on stock", "2023-06-15", Alert, false),
      Notification("2", "New Sale Completed", "Sale #SALE-007 was completed successfully", "2023-06-14", Success, false),
      Notification("3", "Price Update", "Prices for 3 products were updated", "2023-06-13", Info, true),
      Notification("4", "Inventory Check Reminder", "Monthly inventory check is due in 3 days", "2023-06-12", Info, true),
      Notification("5", "Out of Stock Alert", "2 products are out of stock", "2023-06-11", Alert, true) ]
  }

  /** Two of the initial entries are unread, one of them with id "1". */
  lemma InitialCounts()
    ensures UnreadCount(InitialNotifications()) == 2
    ensures |Filter(InitialNotifications(), UnreadWithId("1"))| == 1
  {
    var ns := InitialNotifications();
    assert !ns[0].read && !ns[1].read && ns[2].read && ns[3].read && ns[4].read;
    assert ns[0].id == "1" && ns[1].id != "1";
    var byId := UnreadWithId("1");
    assert ns[4..][1..] == [];
    assert Filter(ns[4..], IsUnread) == [] && Filter(ns[4..], byId) == [];
    assert ns[3..][1..] == ns[4..];
    assert Filter(ns[3..], IsUnread) == [] && Filter(ns[3..], byId) == [];
    assert ns[2..][1..] == ns[3..];
    assert Filter(ns[2..], IsUnread) == [] && Filter(ns[2..], byId) == [];
    assert ns[1..][1..] == ns[2..];
  }

  /** The header text for one unread entry has no plural. */
  lemma SummaryOne()
    ensures SummaryFor(1) == "You have 1 unread notification"
  {
    assert DecimalString(1) == "1";
  }

  /** The header text for two unread entries. */
  lemma SummaryTwo()
    ensures SummaryFor(2) == "You have 2 unread notifications"
  {
    assert DecimalString(2) == "2";
  }

  /** The tab opens with "You have 2 unread notifications"; reading the
      first leaves one, and the text drops its plural. */
  lemma InitialSummary()
    ensures Summary(InitialNotifications()) == "You have 2 unread notifications"
    ensures Summary(MarkRead(InitialNotifications(), "1")) == "You have 1 unread notification"
  {
    InitialCounts();
    MarkReadUnread(InitialNotifications(), "1");
    SummaryOne();
    SummaryTwo();
  }

  // ---------------------------------------------------------------------------
  // The component's state

  /** The `notifications` state of the tab; each handler replaces the list
      with the transformed one. */
  class NotificationsTab {
    var notifications: seq<Notification>

    constructor ()
      ensures notifications == InitialNotifications()
    {
      notifications := InitialNotifications();
    }

    method MarkAsRead(id: string)
      modifies this
      ensures notifications == MarkRead(old(notifications), id)
      ensures UnreadCount(notifications) <= UnreadCount(old(notifications))
    {
      UnreadNeverRises(notifications, id);
      notifications := MarkRead(notifications, id);
    }

    method MarkAllAsRead()
      modifies this
      ensures notifications == MarkAllRead(old(notifications))
      ensures UnreadCount(notifications) == 0
    {
      MarkAllReadSpec(notifications);
      notifications := MarkAllRead(notifications);
    }

    method DeleteNotification(id: string)
      modifies this
      ensures notifications == Delete(old(notifications), id)
      ensures forall n | n in notifications :: n.id != id
    {
      DeleteSpec(notifications, id);
      notifications := Delete(notifications, id);
    }
  }
}
