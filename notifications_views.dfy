/** The notification endpoints: a user's own notifications, newest first;
    marking one or all of them read; edits refused. */
module NotificationViews {
  import opened Base
  import opened NotificationModels

  /** `filter(recipient=user)`, keeping the table's order. */
  function OwnRows(rows: seq<Notification>, user: UserId): (r: seq<Notification>)
    ensures forall n :: n in r <==> n in rows && n.recipient == user
    ensures multiset(r) <= multiset(rows)
    ensures forall n :: multiset(r)[n] == if n.recipient == user then multiset(rows)[n] else 0
    ensures |r| <= |rows|
  {
    if rows == [] then []
    else
      assert rows == [rows[0]] + rows[1..];
      (if rows[0].recipient == user then [rows[0]] else []) + OwnRows(rows[1..], user)
  }

  /** `get_queryset`: nothing for an anonymous request, otherwise exactly the
      requester's own notifications, newest first. */
  function Queryset(rows: seq<Notification>, user: Option<UserId>): (r: seq<Notification>)
    ensures user.None? ==> r == []
    ensures user.Some? ==> forall n :: n in r <==> n in rows && n.recipient == user.value
    ensures user.Some? ==> multiset(r) == multiset(OwnRows(rows, user.value))
    ensures user.Some? ==> forall n :: multiset(r)[n] == if n.recipient == user.value then multiset(rows)[n] else 0
    ensures NewestFirst(r)
  {
    match user
    case None => []
    case Some(u) =>
      var own := OwnRows(rows, u);
      var r := OrderNewestFirst(own);
      assert forall n :: n in r <==> n in own by {
        forall n ensures n in r <==> n in own {
          assert n in r <==> n in multiset(r);
        }
      }
      r
  }

  /** The row `pk` is the requester's own. */
  predicate Targets(n: Notification, user: UserId, pk: nat) {
    n.id == pk && n.recipient == user
  }

  /** The table after `read` of pk by user. */
  function MarkRead(rows: seq<Notification>, user: UserId, pk: nat): (r: seq<Notification>)
    ensures |r| == |rows|
    ensures forall i :: 0 <= i < |rows| && !Targets(rows[i], user, pk) ==> r[i] == rows[i]
    ensures forall i :: 0 <= i < |rows| && Targets(rows[i], user, pk) ==> r[i] == rows[i].(isRead := true)
  {
    seq(|rows|, i requires 0 <= i < |rows| =>
      if Targets(rows[i], user, pk) then rows[i].(isRead := true) else rows[i])
  }

  /** The table after `read_all` by user. */
  function MarkAllRead(rows: seq<Notification>, user: UserId): (r: seq<Notification>)
    ensures |r| == |rows|
    ensures forall i :: 0 <= i < |rows| && rows[i].recipient != user ==> r[i] == rows[i]
    ensures forall i :: 0 <= i < |rows| && rows[i].recipient == user ==> r[i] == rows[i].(isRead := true)
  {
    seq(|rows|, i requires 0 <= i < |rows| =>
      if rows[i].recipient == user && !rows[i].isRead then rows[i].(isRead := true) else rows[i])
  }

  /** Unread notifications of a user. */
  function Unread(rows: seq<Notification>, user: UserId): (r: seq<Notification>)
    ensures forall n :: n in r <==> n in rows && n.recipient == user && !n.isRead
  {
    if rows == [] then []
    else
      assert rows == [rows[0]] + rows[1..];
      (if rows[0].recipient == user && !rows[0].isRead then [rows[0]] else []) + Unread(rows[1..], user)
  }

  /** With distinct ids, `read` changes at most one row. */
  lemma MarkReadChangesOneRow(rows: seq<Notification>, user: UserId, pk: nat, nextId: nat)
    requires IdsBelow(rows, nextId)
    ensures forall i, j :: 0 <= i < j < |rows| && MarkRead(rows, user, pk)[i] != rows[i] ==>
              MarkRead(rows, user, pk)[j] == rows[j]
  {
  }

  /** Marking an already read notification leaves the table as it was, so
      `read` is idempotent. */
  lemma {:induction false} MarkReadIdempotent(rows: seq<Notification>, user: UserId, pk: nat)
    ensures MarkRead(MarkRead(rows, user, pk), user, pk) == MarkRead(rows, user, pk)
  {
    var once := MarkRead(rows, user, pk);
    var twice := MarkRead(once, user, pk);
    forall i | 0 <= i < |rows|
      ensures twice[i] == once[i]
    {
      if Targets(rows[i], user, pk) {
        assert Targets(once[i], user, pk);
      }
    }
  }

  /** After `read_all` the requester has no unread notification left, and
      every other user's rows are as they were. */
  lemma {:induction false} NothingUnreadAfterReadAll(rows: seq<Notification>, user: UserId)
    ensures Unread(MarkAllRead(rows, user), user) == []
    ensures forall other :: other != user ==> Unread(MarkAllRead(rows, user), other) == Unread(rows, other)
  {
    UnreadOfOthers(rows, user);
    NoneUnread(MarkAllRead(rows, user), user);
  }

  lemma {:induction false} NoneUnread(rows: seq<Notification>, user: UserId)
    requires forall i :: 0 <= i < |rows| && rows[i].recipient == user ==> rows[i].isRead
    ensures Unread(rows, user) == []
    decreases |rows|
  {
    if rows != [] {
      NoneUnread(rows[1..], user);
    }
  }

  lemma {:induction false} UnreadOfOthers(rows: seq<Notification>, user: UserId)
    ensures forall other :: other != user ==> Unread(MarkAllRead(rows, user), other) == Unread(rows, other)
    decreases |rows|
  {
    if rows != [] {
      UnreadOfOthers(rows[1..], user);
      assert MarkAllRead(rows, user)[1..] == MarkAllRead(rows[1..], user);
    }
  }

  /** `read`: 404 unless pk is one of the requester's own notifications;
      otherwise that one row becomes read and the table is otherwise
      unchanged. Permission (an authenticated requester) is checked before. */
  method Read(table: NotificationTable, user: UserId, pk: nat) returns (status: int)
    requires table.Valid()
    modifies table
    ensures table.Valid() && table.nextId == old(table.nextId)
    ensures status == OK <==> exists i :: 0 <= i < |old(table.rows)| && Targets(old(table.rows)[i], user, pk)
    ensures status == OK || status == NOT_FOUND
    ensures table.rows == MarkRead(old(table.rows), user, pk)
  {
    if i :| 0 <= i < |table.rows| && Targets(table.rows[i], user, pk) {
      table.rows := table.rows[i := table.rows[i].(isRead := true)];
      status := OK;
    } else {
      status := NOT_FOUND;
    }
  }

  /** `read_all`: every unread notification of the requester becomes read. */
  method ReadAll(table: NotificationTable, user: UserId) returns (status: int)
    requires table.Valid()
    modifies table
    ensures table.Valid() && table.nextId == old(table.nextId)
    ensures status == OK
    ensures table.rows == MarkAllRead(old(table.rows), user)
  {
    table.rows := MarkAllRead(table.rows, user);
    status := OK;
  }

  /** `update` and `partial_update`: always 405, nothing is written. */
  method Update(table: NotificationTable, user: UserId, pk: nat) returns (status: int)
    ensures status == METHOD_NOT_ALLOWED
  {
    status := METHOD_NOT_ALLOWED;
  }

  method PartialUpdate(table: NotificationTable, user: UserId, pk: nat) returns (status: int)
    ensures status == METHOD_NOT_ALLOWED
  {
    status := METHOD_NOT_ALLOWED;
  }
}
