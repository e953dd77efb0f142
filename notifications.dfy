/** The notifications screen's list: replaced by a fetch, prepended to by
    the realtime insert subscription, and rewritten by `markAsRead`. */
module Notifications {
  import opened Wrappers

  /** A row of the `notifications` table. */
  datatype Notification = Notification(
    id: string,
    userId: string,
    title: string,
    message: string,
    read: bool,
    createdAt: int)

  /** The local update of `markAsRead(id)`: the `map` that sets `read` on
      every entry carrying the id and keeps every other entry as it is. */
  function MarkRead(s: seq<Notification>, id: string): (r: seq<Notification>)
    ensures |r| == |s|
    ensures forall i :: 0 <= i < |s| && s[i].id == id ==> r[i] == s[i].(read := true)
    ensures forall i :: 0 <= i < |s| && s[i].id != id ==> r[i] == s[i]
    decreases |s|
  {
    if s == [] then []
    else
      var n := s[0];
      [if n.id == id then n.(read := true) else n] + MarkRead(s[1..], id)
  }

  /** After the update no entry with the id is unread, and every entry
      keeps its id and content. */
  lemma MarkReadEffect(s: seq<Notification>, id: string)
    ensures forall n :: n in MarkRead(s, id) && n.id == id ==> n.read
    ensures forall i :: 0 <= i < |s| ==>
      var m := MarkRead(s, id)[i];
      m.id == s[i].id && m.userId == s[i].userId && m.title == s[i].title
      && m.message == s[i].message && m.createdAt == s[i].createdAt
  {
    var r := MarkRead(s, id);
    forall n | n in r && n.id == id ensures n.read {
      var i :| 0 <= i < |r| && r[i] == n;
    }
  }

  /** Marking the same id twice is the same as marking it once. */
  lemma {:induction false} MarkReadIdempotent(s: seq<Notification>, id: string)
    ensures MarkRead(MarkRead(s, id), id) == MarkRead(s, id)
  {
    var once := MarkRead(s, id);
    var twice := MarkRead(once, id);
    forall i | 0 <= i < |s| ensures twice[i] == once[i] {
      if s[i].id == id {
        assert once[i] == s[i].(read := true);
      }
    }
  }

  /** The local update commutes with a pushed insert. */
  lemma {:induction false} MarkReadPrepend(n: Notification, s: seq<Notification>, id: string)
    ensures MarkRead([n] + s, id) == MarkRead([n], id) + MarkRead(s, id)
  {
    var l, r := MarkRead([n] + s, id), MarkRead([n], id) + MarkRead(s, id);
    forall i | 0 <= i < |l| ensures l[i] == r[i] {
      if i > 0 {
        assert ([n] + s)[i] == s[i - 1];
      }
    }
  }

  /** A list that is not displaying the entry with the id is unchanged. */
  lemma {:induction false} MarkReadAbsent(s: seq<Notification>, id: string)
    requires forall n :: n in s ==> n.id != id
    ensures MarkRead(s, id) == s
  {
    var r := MarkRead(s, id);
    forall i | 0 <= i < |s| ensures r[i] == s[i] {
      assert s[i] in s;
    }
  }

  class NotificationsScreen {
    var notifications: seq<Notification>
    var loading: bool

    /** `useState<any[]>([])` and `useState(true)`. */
    constructor ()
      ensures notifications == [] && loading
    {
      notifications := [];
      loading := true;
    }

    /** `fetchNotifications`: `signedIn` is whether `getUser` returns a
        user and `data` the query's `data`. With no user it returns early;
        either way `finally` clears `loading`. */
    method Fetch(signedIn: bool, data: Option<seq<Notification>>)
      modifies this
      ensures !loading
      ensures signedIn ==> notifications == OrEmpty(data)
      ensures !signedIn ==> notifications == old(notifications)
    {
      if signedIn {
        notifications := OrEmpty(data);
      }
      loading := false;
    }

    /** The realtime `INSERT` callback: the new row goes in front. */
    method OnInsert(n: Notification)
      modifies this
      ensures notifications == [n] + old(notifications)
      ensures loading == old(loading)
    {
      notifications := [n] + notifications;
    }

    /** `markAsRead(id)`. The remote update's result is not inspected, so
        the local update happens whatever it was. */
    method MarkAsRead(id: string)
      modifies this
      ensures notifications == MarkRead(old(notifications), id)
      ensures loading == old(loading)
    {
      notifications := MarkRead(notifications, id);
    }

    /** A card's `onClick`: `markAsRead` is called only for an unread
        notification. `marked` reports whether it was called. */
    method Click(n: Notification) returns (marked: bool)
      modifies this
      ensures marked == !n.read
      ensures marked ==> notifications == MarkRead(old(notifications), n.id)
      ensures !marked ==> notifications == old(notifications)
      ensures loading == old(loading)
    {
      marked := !n.read;
      if marked {
        MarkAsRead(n.id);
      }
    }
  }
}
