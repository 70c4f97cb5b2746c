/** The `Notification` table: one row per notice that `actor` did something
    (`verb`) that concerns `recipient`, optionally about a post. */
module NotificationModels {
  import opened Base

  datatype Notification = Notification(
    id: nat,
    recipient: UserId,
    actor: UserId,
    post: Option<PostId>,
    verb: string,
    isRead: bool,
    createdAt: int)

  /** What a caller supplies for a new row: recipient, actor and verb are
      required, the post is optional; the rest is defaulted on insert. */
  datatype Draft = Draft(recipient: UserId, actor: UserId, post: Option<PostId>, verb: string)

  /** The row a draft becomes: given id, unread, stamped with the insert time. */
  function Saved(d: Draft, id: nat, now: int): (n: Notification)
    ensures !n.isRead && n.createdAt == now && n.id == id
    ensures n.recipient == d.recipient && n.actor == d.actor && n.post == d.post && n.verb == d.verb
  {
    Notification(id, d.recipient, d.actor, d.post, d.verb, false, now)
  }

  /** The rows a bulk insert of drafts adds, ids counting up from `first`. */
  function SavedAll(drafts: seq<Draft>, first: nat, now: int): (rows: seq<Notification>)
    ensures |rows| == |drafts|
    ensures forall i :: 0 <= i < |drafts| ==> rows[i] == Saved(drafts[i], first + i, now)
  {
    seq(|drafts|, i requires 0 <= i < |drafts| => Saved(drafts[i], first + i, now))
  }

  /** `__str__`: the recipient's and the actor's e-mail around the verb. */
  function Describe(n: Notification, recipientEmail: string, actorEmail: string): (s: string)
    ensures |s| == |recipientEmail| + |actorEmail| + |n.verb| + 7
    ensures s[..|recipientEmail|] == recipientEmail
    ensures s[|recipientEmail| + 4..|recipientEmail| + 4 + |actorEmail|] == actorEmail
    ensures s[|s| - |n.verb|..] == n.verb
  {
    recipientEmail + " <- " + actorEmail + " : " + n.verb
  }

  /** The default ordering, `-created_at`: newest first. */
  ghost predicate NewestFirst(rows: seq<Notification>) {
    forall i, j :: 0 <= i < j < |rows| ==> rows[i].createdAt >= rows[j].createdAt
  }

  /** Put n in front of the first row that is not newer than it. */
  function InsertNewestFirst(n: Notification, rows: seq<Notification>): (r: seq<Notification>)
    requires NewestFirst(rows)
    ensures NewestFirst(r)
    ensures multiset(r) == multiset(rows) + multiset{n}
    ensures |r| == |rows| + 1
    ensures r[0] == n || (rows != [] && r[0] == rows[0])
  {
    if rows == [] || n.createdAt >= rows[0].createdAt then [n] + rows
    else
      var rest := InsertNewestFirst(n, rows[1..]);
      assert rows == [rows[0]] + rows[1..];
      [rows[0]] + rest
  }

  /** The rows in the order the table hands them out. Rows created at the
      same instant keep their insertion order. */
  function OrderNewestFirst(rows: seq<Notification>): (r: seq<Notification>)
    ensures NewestFirst(r)
    ensures multiset(r) == multiset(rows)
  {
    if rows == [] then []
    else
      assert rows == [rows[0]] + rows[1..];
      InsertNewestFirst(rows[0], OrderNewestFirst(rows[1..]))
  }

  /** Two rows created at the same instant come out in insertion order. */
  lemma SameInstantKeepsOrder(a: Notification, b: Notification)
    requires a.createdAt == b.createdAt
    ensures OrderNewestFirst([a, b]) == [a, b]
  {
    assert [a, b][1..] == [b];
    assert OrderNewestFirst([b]) == [b] by {
      assert [b][1..] == [];
    }
  }

  /** Rows carry distinct ids, all below the next id to hand out. */
  ghost predicate IdsBelow(rows: seq<Notification>, nextId: nat) {
    && (forall i :: 0 <= i < |rows| ==> rows[i].id < nextId)
    && (forall i, j :: 0 <= i < j < |rows| ==> rows[i].id < rows[j].id)
  }

  /** The table itself. */
  class NotificationTable {
    var rows: seq<Notification>
    var nextId: nat

    ghost predicate Valid()
      reads this
    {
      IdsBelow(rows, nextId)
    }

    constructor ()
      ensures Valid() && rows == [] && nextId == 1
    {
      rows := [];
      nextId := 1;
    }

    /** `bulk_create`: every draft becomes one new unread row, in order;
        an empty list inserts nothing. */
    method BulkCreate(drafts: seq<Draft>, now: int)
      requires Valid()
      modifies this
      ensures Valid()
      ensures rows == old(rows) + SavedAll(drafts, old(nextId), now)
      ensures nextId == old(nextId) + |drafts|
    {
      rows := rows + SavedAll(drafts, nextId, now);
      nextId := nextId + |drafts|;
    }
  }
}
