/** The WebSocket consumer that bridges one connection to the per-user group
    of the channel layer. The user is taken, unauthenticated, from the
    `user_id` parameter of the connection's query string. */
module NotificationConsumers {
  import opened Base
  import Text
  import Channels

  /** `parse_qsl` reads '+' as a space. */
  function PlusToSpace(s: string): (r: string)
    ensures |r| == |s|
    ensures forall i :: 0 <= i < |s| ==> r[i] == (if s[i] == '+' then ' ' else s[i])
  {
    seq(|s|, i requires 0 <= i < |s| => if s[i] == '+' then ' ' else s[i])
  }

  /** One '&'-separated field as `parse_qsl` keeps it: split at the first
      '=', dropped when it has no '=' or its value is blank. */
  function Field(f: string): Option<(string, string)> {
    var name := Text.BeforeFirst(f, '=');
    if |name| + 1 >= |f| then None
    else Some((PlusToSpace(name), PlusToSpace(f[|name| + 1..])))
  }

  /** A field is kept exactly when some '=' has a character after it; the
      name and value are the parts around the first '='. */
  lemma FieldParts(f: string)
    ensures Field(f).Some? <==> exists i :: 0 <= i < |f| - 1 && f[i] == '='
    ensures Field(f).Some? ==>
      exists k :: 0 <= k < |f| - 1 && f[k] == '=' && '=' !in f[..k]
                  && Field(f).value == (PlusToSpace(f[..k]), PlusToSpace(f[k + 1..]))
  {
  }

  predicate Named(f: string, key: string) {
    Field(f).Some? && Field(f).value.0 == key
  }

  /** `parse_qs(...).get(key, [None])[0]`: the value of the first kept field
      named key. */
  function FirstValue(fields: seq<string>, key: string): (r: Option<string>)
    ensures r.None? <==> forall k :: 0 <= k < |fields| ==> !Named(fields[k], key)
    ensures r.Some? ==> exists k :: 0 <= k < |fields| && Field(fields[k]) == Some((key, r.value))
                                   && forall j :: 0 <= j < k ==> !Named(fields[j], key)
  {
    if fields == [] then None
    else if Named(fields[0], key) then Some(Field(fields[0]).value.1)
    else
      var r := FirstValue(fields[1..], key);
      if r.Some? then
        var k :| 0 < k + 1 <= |fields[1..]| && Field(fields[1..][k]) == Some((key, r.value))
                 && forall j :: 0 <= j < k ==> !Named(fields[1..][j], key);
        assert Field(fields[k + 1]) == Some((key, r.value));
        r
      else r
  }

  /** What `connect` makes of a query string. */
  datatype Handshake = NoUserId | NotAnInteger(raw: string) | ForUser(id: int)

  function ReadHandshake(queryString: string): (h: Handshake)
    ensures var userId := FirstValue(Text.Split(queryString, '&'), "user_id");
      && (h.NoUserId? <==> userId.None? || userId.value == "")
      && (h.NotAnInteger? ==> userId == Some(h.raw) && h.raw != "" && Text.PyInt(h.raw).None?)
      && (h.ForUser? ==> userId.Some? && Text.PyInt(userId.value) == Some(h.id))
  {
    var userId := FirstValue(Text.Split(queryString, '&'), "user_id");
    if userId.None? || userId.value == "" then NoUserId
    else match Text.PyInt(userId.value)
      case None => NotAnInteger(userId.value)
      case Some(n) => ForUser(n)
  }

  lemma PlusToSpaceKeeps(s: string)
    requires '+' !in s
    ensures PlusToSpace(s) == s
  {
  }

  /** `str(i)` is a sign and digits only. */
  lemma IntToStringCharacters(i: int)
    ensures forall k :: 0 <= k < |Text.IntToString(i)| ==>
      Text.IntToString(i)[k] == '-' || Text.IsDigit(Text.IntToString(i)[k])
  {
    var m: nat := if i < 0 then -i else i;
    assert Text.IntToString(i) == (if i < 0 then "-" else "") + Text.NatToString(m);
  }

  /** The text before the first separator is the first part. */
  lemma SplitFirst(head: string, sep: char, rest: string)
    requires sep !in head
    ensures Text.Split(head + [sep] + rest, sep) == [head] + Text.Split(rest, sep)
  {
    var s := head + [sep] + rest;
    var b := Text.BeforeFirst(s, sep);
    assert s[|head|] == sep;
    assert forall k :: 0 <= k < |head| ==> s[k] == head[k];
    assert |b| == |head|;
    assert b == head;
    assert s[|head| + 1..] == rest;
  }

  /** A field `user_id=<digits>` is read back as written. */
  lemma UserIdField(id: int)
    ensures Field("user_id=" + Text.IntToString(id)) == Some(("user_id", Text.IntToString(id)))
  {
    var v := Text.IntToString(id);
    var f := "user_id=" + v;
    var head := Text.BeforeFirst(f, '=');
    assert f[7] == '=';
    assert forall i :: 0 <= i < 7 ==> f[i] != '=';
    assert |head| == 7;
    assert head == "user_id";
    assert f[8..] == v;
    IntToStringCharacters(id);
    PlusToSpaceKeeps(v);
    PlusToSpaceKeeps("user_id");
  }

  /** A client that connects with `?user_id=<id>` joins the very group the
      new-post fan-out sends that user's notifications to. */
  lemma HandshakeOfCanonicalQuery(id: int)
    ensures ReadHandshake("user_id=" + Text.IntToString(id)) == ForUser(id)
  {
    var qs := "user_id=" + Text.IntToString(id);
    IntToStringCharacters(id);
    assert '&' !in qs;
    assert Text.Split(qs, '&') == [qs];
    UserIdField(id);
    Text.PyIntOfIntToString(id);
  }

  /** When `user_id` is repeated, the first occurrence wins. */
  lemma HandshakeUsesFirstUserId(a: int, b: int)
    ensures ReadHandshake("user_id=" + Text.IntToString(a) + "&user_id=" + Text.IntToString(b)) == ForUser(a)
  {
    var first := "user_id=" + Text.IntToString(a);
    var second := "user_id=" + Text.IntToString(b);
    IntToStringCharacters(a);
    assert '&' !in first;
    assert first + "&user_id=" + Text.IntToString(b) == first + ['&'] + second;
    SplitFirst(first, '&', second);
    var fields := Text.Split(first + ['&'] + second, '&');
    assert fields[0] == first;
    UserIdField(a);
    assert Named(fields[0], "user_id");
    assert FirstValue(fields, "user_id") == Some(Text.IntToString(a));
    Text.PyIntOfIntToString(a);
  }

  /** What became of a connection attempt: closed for want of a user id,
      crashed because `int()` raised, or accepted into the user's group. */
  datatype ConnectOutcome = Closed | Crashed | Accepted

  /** One consumer instance per WebSocket connection. */
  class NotificationConsumer {
    const channelName: Channels.ChannelName
    var userId: Option<int>
    var groupName: Option<string>
    /** The JSON frames sent to the client, in order. */
    var sent: seq<Channels.Payload>

    constructor (channelName: Channels.ChannelName)
      ensures this.channelName == channelName
      ensures userId == None && groupName == None && sent == []
    {
      this.channelName := channelName;
      userId := None;
      groupName := None;
      sent := [];
    }

    /** `connect`: read `user_id`, close when it is missing, otherwise join
        `user_<id>` and accept. `int()` raising leaves everything as it was. */
    method Connect(queryString: string, layer: Channels.ChannelLayer) returns (outcome: ConnectOutcome)
      requires layer.Valid()
      modifies this, layer
      ensures layer.Valid() && sent == old(sent)
      ensures match ReadHandshake(queryString)
        case NoUserId =>
          && outcome == Closed && layer.State() == old(layer.State())
          && userId == old(userId) && groupName == old(groupName)
        case NotAnInteger(_) =>
          && outcome == Crashed && layer.State() == old(layer.State())
          && userId == old(userId) && groupName == old(groupName)
        case ForUser(n) =>
          && outcome == Accepted
          && userId == Some(n) && groupName == Some(Channels.GroupName(n))
          && layer.State() == Channels.Apply(old(layer.State()), Channels.Add(Channels.GroupName(n), channelName))
    {
      var userIdParam := FirstValue(Text.Split(queryString, '&'), "user_id");
      if userIdParam.None? || userIdParam.value == "" {
        outcome := Closed;
        return;
      }
      var parsed := Text.PyInt(userIdParam.value);
      if parsed.None? {
        outcome := Crashed;
        return;
      }
      userId := parsed;
      groupName := Some(Channels.GroupName(parsed.value));
      layer.GroupAdd(groupName.value, channelName);
      outcome := Accepted;
    }

    /** `disconnect`: leave the group joined at connect time. Without one
        (the connection was closed in `connect`) reading `self.group_name`
        raises AttributeError, reported as false. */
    method Disconnect(layer: Channels.ChannelLayer) returns (ok: bool)
      requires layer.Valid()
      modifies layer
      ensures layer.Valid()
      ensures ok <==> groupName.Some?
      ensures ok ==> layer.State() == Channels.Apply(old(layer.State()), Channels.Discard(groupName.value, channelName))
      ensures !ok ==> layer.State() == old(layer.State())
    {
      if groupName.None? {
        return false;
      }
      layer.GroupDiscard(groupName.value, channelName);
      ok := true;
    }

    /** `send_notification`: forward the event's content unchanged. */
    method SendNotification(event: Channels.Event)
      modifies this
      ensures sent == old(sent) + [event.content]
      ensures userId == old(userId) && groupName == old(groupName)
    {
      sent := sent + [event.content];
    }
  }
}
