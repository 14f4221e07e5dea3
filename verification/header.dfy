/** The notification bell of the page header (components/Header.tsx): the unread badge,
    and what a click on an entry or on its dismiss button does to the list. */
module Header {
  import opened Model
  import Notifications
  import Seqs

  /** `notifications.filter(n => !n.read).length`. */
  function UnreadCount(ns: seq<Notification>): nat {
    |Seqs.Filter(ns, (n: Notification) => !n.read)|
  }

  /** Reference count of the unread entries, one entry at a time. */
  function Unread(ns: seq<Notification>): nat
    decreases |ns|
  {
    if |ns| == 0 then 0 else (if ns[0].read then 0 else 1) + Unread(ns[1..])
  }

  /** Unread entries carrying the given id. */
  function UnreadWithId(ns: seq<Notification>, id: string): nat
    decreases |ns|
  {
    if |ns| == 0 then 0
    else (if !ns[0].read && ns[0].id == id then 1 else 0) + UnreadWithId(ns[1..], id)
  }

  /** The badge count is the number of entries not yet read, and it is zero exactly when all are read. */
  lemma {:induction false} UnreadCountCounts(ns: seq<Notification>)
    ensures UnreadCount(ns) == Unread(ns)
    ensures UnreadCount(ns) <= |ns|
    ensures UnreadCount(ns) == 0 <==> forall i :: 0 <= i < |ns| ==> ns[i].read
    decreases |ns|
  {
    if |ns| > 0 {
      UnreadCountCounts(ns[1..]);
      assert forall i :: 1 <= i < |ns| ==> ns[i] == ns[1..][i - 1];
    }
  }

  /** The badge is drawn when the count is positive. */
  predicate BadgeShown(ns: seq<Notification>) {
    UnreadCount(ns) > 0
  }

  /** The badge shows exactly when some notification is unread. */
  lemma BadgeShownIffUnread(ns: seq<Notification>)
    ensures BadgeShown(ns) <==> exists i :: 0 <= i < |ns| && !ns[i].read
  {
    UnreadCountCounts(ns);
  }

  /** `handleNotificationClick(notif)`: an unread entry is marked read, a read one changes nothing. */
  function Click(ns: seq<Notification>, clicked: Notification): (r: seq<Notification>)
    ensures clicked.read ==> r == ns
    ensures |r| == |ns|
    ensures !clicked.read ==> forall i :: 0 <= i < |ns| ==>
              r[i] == if ns[i].id == clicked.id then ns[i].(read := true) else ns[i]
  {
    if !clicked.read then Notifications.MarkRead(ns, clicked.id) else ns
  }

  /** The dismiss button: only entries with the clicked entry's id go. */
  function DismissClicked(ns: seq<Notification>, clicked: Notification): (r: seq<Notification>)
    ensures forall n :: n in r <==> n in ns && n.id != clicked.id
    ensures Seqs.Sublist(r, ns)
    ensures forall n :: multiset(r)[n] == if n.id != clicked.id then multiset(ns)[n] else 0
  {
    Notifications.Dismiss(ns, clicked.id)
  }

  /** Marking an id read lowers the unread count by exactly the number of unread entries with that id. */
  lemma {:induction false} MarkReadLowersUnread(ns: seq<Notification>, id: string)
    ensures Unread(Notifications.MarkRead(ns, id)) + UnreadWithId(ns, id) == Unread(ns)
    decreases |ns|
  {
    if |ns| > 0 {
      MarkReadLowersUnread(ns[1..], id);
      var r := Notifications.MarkRead(ns, id);
      assert r[1..] == Notifications.MarkRead(ns[1..], id);
    }
  }

  /** Clicking an unread notification whose id no other entry shares takes one off the badge. */
  lemma ClickUnreadUniqueLowersByOne(ns: seq<Notification>, k: nat)
    requires k < |ns| && !ns[k].read
    requires forall i :: 0 <= i < |ns| && i != k ==> ns[i].id != ns[k].id
    ensures UnreadCount(Click(ns, ns[k])) + 1 == UnreadCount(ns)
  {
    MarkReadLowersUnread(ns, ns[k].id);
    UnreadWithIdSingle(ns, k);
    UnreadCountCounts(ns);
    UnreadCountCounts(Click(ns, ns[k]));
  }

  lemma {:induction false} UnreadWithIdSingle(ns: seq<Notification>, k: nat)
    requires k < |ns| && !ns[k].read
    requires forall i :: 0 <= i < |ns| && i != k ==> ns[i].id != ns[k].id
    ensures UnreadWithId(ns, ns[k].id) == 1
    decreases |ns|
  {
    var id := ns[k].id;
    if k == 0 {
      UnreadWithIdAbsent(ns[1..], id);
    } else {
      assert ns[0].id != id;
      assert ns[1..][k - 1] == ns[k];
      UnreadWithIdSingle(ns[1..], k - 1);
    }
  }

  lemma {:induction false} UnreadWithIdAbsent(ns: seq<Notification>, id: string)
    requires forall i :: 0 <= i < |ns| ==> ns[i].id != id
    ensures UnreadWithId(ns, id) == 0
    decreases |ns|
  {
    if |ns| > 0 {
      UnreadWithIdAbsent(ns[1..], id);
    }
  }
}
