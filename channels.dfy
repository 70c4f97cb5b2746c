/** The channel layer as the backend drives it: a registry from group names
    to the channel names subscribed to them, with `group_add`,
    `group_discard` and `group_send`. Sending is recorded rather than
    performed: every `group_send` appends to a log the event together with the
    channels that were members of the group at that moment, which is the set
    of consumers the layer hands the event to. */
module Channels {
  import opened Base
  import Text

  type ChannelName = string

  /** The JSON object a client receives for a new post. */
  datatype Payload = Payload(
    verb: string,
    postTitle: string,
    postSlug: string,
    actorEmail: string,
    actorId: UserId)

  /** A channel-layer message: "type" names the consumer handler that
      receives it, "content" is what that handler forwards. */
  datatype Event = Event(kind: string, content: Payload)

  /** One `group_send`: the group, the event, and the channels it reached. */
  datatype Delivery = Delivery(group: string, event: Event, recipients: set<ChannelName>)

  type Groups = map<string, set<ChannelName>>

  /** The per-user group, `f"user_{id}"`. */
  function GroupName(id: UserId): string {
    "user_" + Text.IntToString(id)
  }

  /** A group name is `user_` followed by the decimal text of the id. */
  lemma GroupNameText(id: UserId)
    ensures var g := GroupName(id);
      |g| > 5 && g[..5] == "user_" && g[5..] == Text.IntToString(id)
  {
  }

  /** Distinct users never share a group. */
  lemma GroupNameInjective(a: UserId, b: UserId)
    ensures GroupName(a) == GroupName(b) ==> a == b
  {
    if GroupName(a) == GroupName(b) {
      assert GroupName(a)[5..] == Text.IntToString(a);
      assert GroupName(b)[5..] == Text.IntToString(b);
      Text.IntToStringInjective(a, b);
    }
  }

  /** The channels subscribed to g; a group nobody joined is empty. */
  function Members(groups: Groups, g: string): set<ChannelName> {
    if g in groups then groups[g] else {}
  }

  /** No group is kept once its last channel has left. */
  ghost predicate WellFormed(groups: Groups) {
    forall g :: g in groups ==> groups[g] != {}
  }

  datatype Op =
    | Add(group: string, channel: ChannelName)
    | Discard(group: string, channel: ChannelName)
    | Send(group: string, event: Event)

  datatype Registry = Registry(groups: Groups, log: seq<Delivery>)

  /** The effect of one channel-layer call. */
  function Apply(r: Registry, op: Op): Registry {
    match op
    case Add(g, c) => r.(groups := r.groups[g := Members(r.groups, g) + {c}])
    case Discard(g, c) =>
      var rest := Members(r.groups, g) - {c};
      r.(groups := if rest == {} then r.groups - {g} else r.groups[g := rest])
    case Send(g, e) => r.(log := r.log + [Delivery(g, e, Members(r.groups, g))])
  }

  /** A sequence of calls, in order. */
  function Run(r: Registry, ops: seq<Op>): Registry
    decreases |ops|
  {
    if ops == [] then r else Run(Apply(r, ops[0]), ops[1..])
  }

  /** Each call changes the membership of its own (group, channel) pair
      only, and keeps the registry well formed. */
  lemma ApplyMembership(r: Registry, op: Op, h: string, d: ChannelName)
    requires WellFormed(r.groups)
    ensures WellFormed(Apply(r, op).groups)
    ensures op.Add? && h == op.group && d == op.channel ==> d in Members(Apply(r, op).groups, h)
    ensures op.Discard? && h == op.group && d == op.channel ==> d !in Members(Apply(r, op).groups, h)
    ensures !(op.Add? || op.Discard?) || h != op.group || d != op.channel ==>
              (d in Members(Apply(r, op).groups, h) <==> d in Members(r.groups, h))
  {
  }

  /** Discarding a channel that is not a member changes nothing. */
  lemma DiscardAbsentIsNoOp(r: Registry, g: string, c: ChannelName)
    requires WellFormed(r.groups)
    requires c !in Members(r.groups, g)
    ensures Apply(r, Discard(g, c)) == r
  {
    if g in r.groups {
      assert Members(r.groups, g) - {c} == r.groups[g];
      assert r.groups[g := r.groups[g]] == r.groups;
    }
  }

  /** Discarding twice is discarding once. */
  lemma DiscardIdempotent(r: Registry, g: string, c: ChannelName)
    requires WellFormed(r.groups)
    ensures Apply(Apply(r, Discard(g, c)), Discard(g, c)) == Apply(r, Discard(g, c))
  {
    ApplyMembership(r, Discard(g, c), g, c);
    DiscardAbsentIsNoOp(Apply(r, Discard(g, c)), g, c);
  }

  /** Joining and then leaving restores the registry. */
  lemma AddThenDiscard(r: Registry, g: string, c: ChannelName)
    requires WellFormed(r.groups)
    requires c !in Members(r.groups, g)
    ensures Apply(Apply(r, Add(g, c)), Discard(g, c)) == r
  {
    var after := Apply(Apply(r, Add(g, c)), Discard(g, c));
    assert Members(r.groups, g) + {c} - {c} == Members(r.groups, g);
    if g in r.groups {
      assert after.groups == r.groups[g := r.groups[g]];
    } else {
      assert after.groups == r.groups[g := {c}] - {g};
    }
    assert after.groups == r.groups;
  }

  /** The log only grows. */
  lemma {:induction false} RunExtendsLog(r: Registry, ops: seq<Op>)
    ensures |r.log| <= |Run(r, ops).log| && Run(r, ops).log[..|r.log|] == r.log
    decreases |ops|
  {
    if ops != [] {
      RunExtendsLog(Apply(r, ops[0]), ops[1..]);
    }
  }

  /** A channel that is in group g and is not discarded from it receives
      every event sent to g. */
  lemma {:induction false} SubscribedReceivesEverySend(r: Registry, ops: seq<Op>, g: string, c: ChannelName)
    requires WellFormed(r.groups)
    requires c in Members(r.groups, g)
    requires forall k :: 0 <= k < |ops| ==> ops[k] != Discard(g, c)
    ensures var s := Run(r, ops);
      forall k :: |r.log| <= k < |s.log| && s.log[k].group == g ==> c in s.log[k].recipients
    decreases |ops|
  {
    if ops != [] {
      var r1 := Apply(r, ops[0]);
      ApplyMembership(r, ops[0], g, c);
      SubscribedReceivesEverySend(r1, ops[1..], g, c);
      RunExtendsLog(r1, ops[1..]);
    }
  }

  /** A channel that is not in group g and does not join it again receives
      nothing sent to g; in particular nothing sent after it was discarded. */
  lemma {:induction false} AbsentReceivesNothing(r: Registry, ops: seq<Op>, g: string, c: ChannelName)
    requires WellFormed(r.groups)
    requires c !in Members(r.groups, g)
    requires forall k :: 0 <= k < |ops| ==> ops[k] != Add(g, c)
    ensures var s := Run(r, ops);
      forall k :: |r.log| <= k < |s.log| && s.log[k].group == g ==> c !in s.log[k].recipients
    decreases |ops|
  {
    if ops != [] {
      var r1 := Apply(r, ops[0]);
      ApplyMembership(r, ops[0], g, c);
      AbsentReceivesNothing(r1, ops[1..], g, c);
      RunExtendsLog(r1, ops[1..]);
    }
  }

  /** The process-wide channel layer. */
  class ChannelLayer {
    var groups: Groups
    var log: seq<Delivery>

    function State(): Registry
      reads this
    {
      Registry(groups, log)
    }

    ghost predicate Valid()
      reads this
    {
      WellFormed(groups)
    }

    constructor ()
      ensures Valid() && State() == Registry(map[], [])
    {
      groups := map[];
      log := [];
    }

    /** `group_add(g, c)`. */
    method GroupAdd(g: string, c: ChannelName)
      requires Valid()
      modifies this
      ensures Valid() && State() == Apply(old(State()), Add(g, c))
    {
      groups := groups[g := Members(groups, g) + {c}];
    }

    /** `group_discard(g, c)`; never an error. */
    method GroupDiscard(g: string, c: ChannelName)
      requires Valid()
      modifies this
      ensures Valid() && State() == Apply(old(State()), Discard(g, c))
    {
      var rest := Members(groups, g) - {c};
      if rest == {} {
        groups := groups - {g};
      } else {
        groups := groups[g := rest];
      }
    }

    /** `group_send(g, e)`: handed to every channel in g at this moment;
        dropped when the group is empty. */
    method GroupSend(g: string, e: Event)
      requires Valid()
      modifies this
      ensures Valid() && State() == Apply(old(State()), Send(g, e))
    {
      log := log + [Delivery(g, e, Members(groups, g))];
    }
  }
}
