/** The post endpoints: creating a post and notifying the author's
    followers, the object-permission rule, reading, liking, editing,
    deleting and commenting. Views receive the signed-in user when the
    endpoint's permission class demands one. */
module BlogViews {
  import opened Base
  import Text
  import opened AccountModels
  import opened Channels
  import NotificationModels
  import opened BlogModels
  import BlogSerializers

  const SAFE_METHODS := {"GET", "HEAD", "OPTIONS"}

  /** The URL keyword a detail route passes: the viewset's `lookup_field`. */
  const LOOKUP_FIELD := "slug"

  const VERB_NEW_POST := "new_post"
  const SEND_NOTIFICATION := "send_notification"

  // ---------------------------------------------------------------------
  // Fan-out of a new post

  /** The users `s` names other than `u`, in order. */
  function Except(s: seq<UserId>, u: UserId): (r: seq<UserId>)
    ensures forall x :: x in r <==> x in s && x != u
    ensures |r| <= |s|
    decreases |s|
  {
    if s == [] then []
    else
      assert s == s[..|s| - 1] + [s[|s| - 1]];
      Except(s[..|s| - 1], u) + (if s[|s| - 1] == u then [] else [s[|s| - 1]])
  }

  /** Who is notified of a new post: the followers of the author, in table
      order, without the author. */
  function Audience(follows: seq<FollowEdge>, author: UserId): (r: seq<UserId>)
    ensures forall u :: u in r <==> FollowEdge(u, author) in follows && u != author
  {
    Except(FollowersOf(follows, author), author)
  }

  /** The channel-layer message for a new post. */
  function NewPostEvent(post: Post, author: User): Event {
    Event(SEND_NOTIFICATION, Payload(VERB_NEW_POST, post.title, post.slug, author.email, author.id))
  }

  /** The event is handled by `send_notification` and carries the verb
      `new_post`, the post's title and slug and the author's address and id. */
  lemma NewPostEventFields(post: Post, author: User)
    ensures var e := NewPostEvent(post, author);
      && e.kind == SEND_NOTIFICATION && e.content.verb == VERB_NEW_POST
      && e.content.postTitle == post.title && e.content.postSlug == post.slug
      && e.content.actorEmail == author.email && e.content.actorId == author.id
  {
  }

  /** One unsaved notification per member of the audience. */
  function Drafts(audience: seq<UserId>, author: UserId, post: PostId): (r: seq<NotificationModels.Draft>)
    ensures |r| == |audience|
    ensures forall i :: 0 <= i < |r| ==>
      r[i] == NotificationModels.Draft(audience[i], author, Some(post), VERB_NEW_POST)
  {
    seq(|audience|, i requires 0 <= i < |audience| =>
      NotificationModels.Draft(audience[i], author, Some(post), VERB_NEW_POST))
  }

  /** What the channel layer records for one `group_send` per member, the
      groups being left as they are. */
  function Deliveries(groups: Groups, audience: seq<UserId>, e: Event): (r: seq<Delivery>)
    ensures |r| == |audience|
    ensures forall i :: 0 <= i < |r| ==>
      r[i] == Delivery(GroupName(audience[i]), e, Members(groups, GroupName(audience[i])))
  {
    seq(|audience|, i requires 0 <= i < |audience| =>
      Delivery(GroupName(audience[i]), e, Members(groups, GroupName(audience[i]))))
  }

  /** The channel-layer calls of the fan-out. */
  function Sends(audience: seq<UserId>, e: Event): (ops: seq<Op>)
    ensures |ops| == |audience|
    ensures forall i :: 0 <= i < |ops| ==> ops[i] == Send(GroupName(audience[i]), e)
  {
    seq(|audience|, i requires 0 <= i < |audience| => Send(GroupName(audience[i]), e))
  }

  /** The externally visible effects of `perform_create`, in order. */
  datatype Effect =
    | Publish(group: string, event: Event)
    | BulkInsert(rows: seq<NotificationModels.Draft>)

  function Publishes(audience: seq<UserId>, e: Event): (r: seq<Effect>)
    ensures |r| == |audience|
    ensures forall i :: 0 <= i < |r| ==> r[i] == Publish(GroupName(audience[i]), e)
  {
    seq(|audience|, i requires 0 <= i < |audience| => Publish(GroupName(audience[i]), e))
  }

  /** The loop of `perform_create`: for each follow edge towards the author
      whose follower is not the author, keep a notification and publish the
      event to the follower's group; then insert all the notifications at
      once, even when there are none. */
  method FanOut(follows: seq<FollowEdge>, author: User, post: Post,
                layer: ChannelLayer, table: NotificationModels.NotificationTable, now: int)
    returns (effects: seq<Effect>)
    requires layer.Valid() && table.Valid()
    modifies layer, table
    ensures layer.Valid() && table.Valid()
    ensures var audience := Audience(follows, author.id);
      && layer.groups == old(layer.groups)
      && layer.log == old(layer.log) + Deliveries(old(layer.groups), audience, NewPostEvent(post, author))
      && table.rows == old(table.rows)
           + NotificationModels.SavedAll(Drafts(audience, author.id, post.id), old(table.nextId), now)
      && effects == Publishes(audience, NewPostEvent(post, author))
                    + [BulkInsert(Drafts(audience, author.id, post.id))]
  {
    var followers := FollowersOf(follows, author.id);
    var event := NewPostEvent(post, author);
    var notifications: seq<NotificationModels.Draft> := [];
    effects := [];
    var i := 0;
    while i < |followers|
      invariant 0 <= i <= |followers|
      invariant layer.Valid() && table.rows == old(table.rows) && table.nextId == old(table.nextId)
      invariant layer.groups == old(layer.groups)
      invariant layer.log == old(layer.log) + Deliveries(old(layer.groups), Except(followers[..i], author.id), event)
      invariant notifications == Drafts(Except(followers[..i], author.id), author.id, post.id)
      invariant effects == Publishes(Except(followers[..i], author.id), event)
    {
      var follower := followers[i];
      ghost var kept := Except(followers[..i], author.id);
      ExceptStep(followers, i, author.id);
      if follower != author.id {
        BuildersSnoc(kept, follower, author.id, post.id, old(layer.groups), event);
        notifications := notifications + [NotificationModels.Draft(follower, author.id, Some(post.id), VERB_NEW_POST)];
        PushTo(layer, old(layer.log), kept, follower, event);
        effects := effects + [Publish(GroupName(follower), event)];
      }
      i := i + 1;
    }
    assert followers[..i] == followers;
    table.BulkCreate(notifications, now);
    effects := effects + [BulkInsert(notifications)];
  }

  /** One `group_send` of the fan-out, to the group of the next member. */
  method PushTo(layer: ChannelLayer, ghost log0: seq<Delivery>, ghost sent: seq<UserId>, member: UserId, e: Event)
    requires layer.Valid() && layer.log == log0 + Deliveries(layer.groups, sent, e)
    modifies layer
    ensures layer.Valid() && layer.groups == old(layer.groups)
    ensures layer.log == log0 + Deliveries(layer.groups, sent + [member], e)
  {
    BuildersSnoc(sent, member, 0, 0, layer.groups, e);
    layer.GroupSend(GroupName(member), e);
  }

  /** One more step of the loop extends the kept followers by the next one,
      unless it is the author. */
  lemma ExceptStep(s: seq<UserId>, i: nat, u: UserId)
    requires i < |s|
    ensures Except(s[..i + 1], u) == Except(s[..i], u) + (if s[i] == u then [] else [s[i]])
  {
    assert s[..i + 1][..i] == s[..i];
  }

  /** The notifications, deliveries and publishes for one more member. */
  lemma BuildersSnoc(a: seq<UserId>, x: UserId, author: UserId, post: PostId, groups: Groups, e: Event)
    ensures Drafts(a + [x], author, post) == Drafts(a, author, post) + [NotificationModels.Draft(x, author, Some(post), VERB_NEW_POST)]
    ensures Deliveries(groups, a + [x], e) == Deliveries(groups, a, e) + [Delivery(GroupName(x), e, Members(groups, GroupName(x)))]
    ensures Publishes(a + [x], e) == Publishes(a, e) + [Publish(GroupName(x), e)]
  {
  }

  /** `perform_create`: save the post through the serializer, with the
      signed-in user as author, then fan out to the followers. */
  method PerformCreate(blog: BlogStore, accounts: AccountStore, layer: ChannelLayer,
                       table: NotificationModels.NotificationTable, env: Env,
                       author: UserId, title: string, content: string, images: Option<seq<string>>, now: int)
    returns (id: PostId, effects: seq<Effect>)
    requires blog.Valid() && accounts.Valid() && layer.Valid() && table.Valid()
    requires author in accounts.users
    modifies blog, layer, table
    ensures blog.Valid() && layer.Valid() && table.Valid()
    ensures id !in old(blog.posts) && blog.posts.Keys == old(blog.posts).Keys + {id}
    ensures forall q :: q in old(blog.posts) ==> blog.posts[q] == old(blog.posts)[q]
    ensures var p := blog.posts[id];
      && p.title == title && p.content == content && p.author == author
      && p.createdAt == now && p.updatedAt == now && p.likes == {} && p.views == 0 && !p.isDeleted
      && FirstFreeSlug(p.slug, env.slugify(title), OtherSlugs(old(blog.posts), None))
    ensures blog.images == old(blog.images) + BlogSerializers.NewImages(id, images.GetOr([]), old(blog.nextImageId))
    ensures blog.comments == old(blog.comments)
    ensures var audience := Audience(accounts.follows, author);
      var event := NewPostEvent(blog.posts[id], accounts.users[author]);
      && layer.groups == old(layer.groups)
      && layer.log == old(layer.log) + Deliveries(old(layer.groups), audience, event)
      && table.rows == old(table.rows)
           + NotificationModels.SavedAll(Drafts(audience, author, id), old(table.nextId), now)
      && effects == Publishes(audience, event) + [BulkInsert(Drafts(audience, author, id))]
  {
    id := BlogSerializers.Create(blog, env, author, title, content, images, now);
    effects := FanOut(accounts.follows, accounts.users[author], blog.posts[id], layer, table, now);
  }

  /** The sends of the fan-out, run one by one through the channel-layer
      model, append one delivery per member and leave the groups alone. */
  lemma {:induction false} SendsAsRun(r: Registry, audience: seq<UserId>, e: Event)
    ensures Run(r, Sends(audience, e)) == Registry(r.groups, r.log + Deliveries(r.groups, audience, e))
    decreases |audience|
  {
    if audience != [] {
      var d0 := Delivery(GroupName(audience[0]), e, Members(r.groups, GroupName(audience[0])));
      var r1 := Registry(r.groups, r.log + [d0]);
      var rest := Deliveries(r.groups, audience[1..], e);
      SendsStep(r, audience, e);
      DeliveriesCons(r.groups, audience, e);
      SendsAsRun(r1, audience[1..], e);
      assert r1.log + rest == r.log + ([d0] + rest);
    }
  }

  /** Running the sends of a non-empty audience is one send to the first
      member followed by the sends to the rest. */
  lemma SendsStep(r: Registry, audience: seq<UserId>, e: Event)
    requires audience != []
    ensures Run(r, Sends(audience, e))
         == Run(Registry(r.groups, r.log + [Delivery(GroupName(audience[0]), e, Members(r.groups, GroupName(audience[0])))]),
                Sends(audience[1..], e))
  {
    var ops := Sends(audience, e);
    assert ops[1..] == Sends(audience[1..], e);
  }

  lemma DeliveriesCons(groups: Groups, audience: seq<UserId>, e: Event)
    requires audience != []
    ensures Deliveries(groups, audience, e)
         == [Delivery(GroupName(audience[0]), e, Members(groups, GroupName(audience[0])))]
            + Deliveries(groups, audience[1..], e)
  {
  }

  /** Removing a user from a duplicate-free list keeps it duplicate-free. */
  lemma {:induction false} ExceptDistinct(s: seq<UserId>, u: UserId)
    requires Distinct(s)
    ensures Distinct(Except(s, u))
    decreases |s|
  {
    if s != [] {
      var init, last := s[..|s| - 1], s[|s| - 1];
      assert s == init + [last];
      DistinctSnoc(init, last);
      ExceptDistinct(init, u);
      if last != u {
        DistinctSnoc(Except(init, u), last);
      }
    }
  }

  /** A list with an element added at the end is duplicate-free exactly
      when the list is and does not hold the element. */
  lemma DistinctSnoc<T>(a: seq<T>, x: T)
    ensures Distinct(a + [x]) <==> Distinct(a) && x !in a
  {
    var s := a + [x];
    if Distinct(s) {
      forall i, j | 0 <= i < j < |a| ensures a[i] != a[j] {
        assert a[i] == s[i] && a[j] == s[j];
      }
      forall k | 0 <= k < |a| ensures a[k] != x {
        assert a[k] == s[k] && x == s[|a|];
      }
    }
  }

  /** In a duplicate-free list every value occurs once or not at all. */
  lemma {:induction false} DistinctMultiplicity<T>(s: seq<T>, x: T)
    requires Distinct(s)
    ensures multiset(s)[x] == if x in s then 1 else 0
    decreases |s|
  {
    if s != [] {
      var init, last := s[..|s| - 1], s[|s| - 1];
      assert s == init + [last];
      DistinctSnoc(init, last);
      DistinctMultiplicity(init, x);
    }
  }

  /** With at most one follow edge per pair, every follower other than the
      author receives exactly one notification, and nobody else any. */
  lemma OneNotificationPerFollower(follows: seq<FollowEdge>, author: UserId, post: PostId, u: UserId)
    requires NoDuplicateEdges(follows)
    ensures var audience := Audience(follows, author);
      multiset(audience)[u] == if FollowEdge(u, author) in follows && u != author then 1 else 0
    ensures var drafts := Drafts(Audience(follows, author), author, post);
      forall i :: 0 <= i < |drafts| ==>
        drafts[i].recipient != author && drafts[i].actor == author
        && drafts[i].post == Some(post) && drafts[i].verb == VERB_NEW_POST
  {
    FollowersDistinct(follows, author);
    ExceptDistinct(FollowersOf(follows, author), author);
    var audience := Audience(follows, author);
    DistinctMultiplicity(audience, u);
    forall i | 0 <= i < |audience| ensures audience[i] != author {
      assert audience[i] in audience;
    }
  }

  /** No event of the fan-out goes to the author's own group, even when the
      author follows themself. */
  lemma AuthorNotPublishedTo(follows: seq<FollowEdge>, author: User, post: Post, groups: Groups)
    ensures var d := Deliveries(groups, Audience(follows, author.id), NewPostEvent(post, author));
      forall k :: 0 <= k < |d| ==> d[k].group != GroupName(author.id)
  {
    var audience := Audience(follows, author.id);
    forall k | 0 <= k < |audience| ensures GroupName(audience[k]) != GroupName(author.id) {
      assert audience[k] in audience;
      GroupNameInjective(audience[k], author.id);
    }
  }

  /** A follower whose session is subscribed to its group when the post is
      created receives the post's payload. */
  lemma ConnectedFollowerReceives(follows: seq<FollowEdge>, author: User, post: Post, groups: Groups,
                                  u: UserId, c: ChannelName)
    requires FollowEdge(u, author.id) in follows && u != author.id
    requires c in Members(groups, GroupName(u))
    ensures var d := Deliveries(groups, Audience(follows, author.id), NewPostEvent(post, author));
      exists k :: 0 <= k < |d| && d[k].group == GroupName(u) && c in d[k].recipients
        && d[k].event.content == Payload(VERB_NEW_POST, post.title, post.slug, author.email, author.id)
  {
    var audience := Audience(follows, author.id);
    var k :| 0 <= k < |audience| && audience[k] == u;
    var d := Deliveries(groups, audience, NewPostEvent(post, author));
    assert d[k].group == GroupName(u) && c in d[k].recipients;
  }

  /** Without followers other than the author nothing is published and the
      bulk insert is empty. */
  lemma NoFollowersNoEffects(follows: seq<FollowEdge>, author: User, post: Post, groups: Groups)
    requires forall e :: e in follows && e.following == author.id ==> e.follower == author.id
    ensures Audience(follows, author.id) == []
    ensures Deliveries(groups, Audience(follows, author.id), NewPostEvent(post, author)) == []
    ensures Publishes(Audience(follows, author.id), NewPostEvent(post, author))
            + [BulkInsert(Drafts(Audience(follows, author.id), author.id, post.id))] == [BulkInsert([])]
  {
    ExceptOnlySelf(FollowersOf(follows, author.id), author.id);
  }

  /** Removing the only user a list names leaves it empty. */
  lemma {:induction false} ExceptOnlySelf(s: seq<UserId>, u: UserId)
    requires forall x :: x in s ==> x == u
    ensures Except(s, u) == []
    decreases |s|
  {
    if s != [] {
      var init := s[..|s| - 1];
      assert s == init + [s[|s| - 1]];
      assert s[|s| - 1] in s;
      forall x | x in init ensures x == u {
        assert x in s;
      }
      ExceptOnlySelf(s[..|s| - 1], u);
    }
  }

  // ---------------------------------------------------------------------
  // Permissions and serializer choice

  /** `IsAuthorOrAdminOrReadOnly.has_object_permission`; `requester` is
      None for an anonymous request. */
  function HasObjectPermission(verb: string, requester: Option<User>, post: Post): (allowed: bool)
    ensures verb in SAFE_METHODS ==> allowed
    ensures verb !in SAFE_METHODS ==>
      (allowed <==> requester.Some? && (IsAdmin(requester.value) || post.author == requester.value.id))
  {
    if verb in SAFE_METHODS then true
    else if requester.None? then false
    else if IsAdmin(requester.value) then true
    else post.author == requester.value.id
  }

  /** The role, staff and superuser flags each make a user an admin here. */
  predicate IsAdmin(u: User) {
    u.role == ROLE_ADMIN || u.isStaff || u.isSuperuser
  }

  /** An anonymous request may read any post and change none. */
  lemma AnonymousOnlyReads(verb: string, post: Post)
    ensures HasObjectPermission(verb, None, post) <==> verb in SAFE_METHODS
  {
  }

  /** A non-admin may change exactly their own posts. */
  lemma OwnPostsOnly(verb: string, u: User, post: Post)
    requires verb !in SAFE_METHODS && !IsAdmin(u)
    ensures HasObjectPermission(verb, Some(u), post) <==> post.author == u.id
  {
  }

  datatype SerializerClass = ListSerializer | DetailSerializer | CreateUpdateSerializer

  /** `get_serializer_class`: the detail serializer for `retrieve`, the
      write serializer for `create`, `update` and `partial_update`, and the
      list serializer for everything else. */
  function GetSerializerClass(action: string): (c: SerializerClass)
    ensures c == DetailSerializer <==> action == "retrieve"
    ensures c == CreateUpdateSerializer <==> action in {"create", "update", "partial_update"}
    ensures c == ListSerializer <==> action != "retrieve" && action !in {"create", "update", "partial_update"}
  {
    if action == "list" then ListSerializer
    else if action == "retrieve" then DetailSerializer
    else if action in ["create", "update", "partial_update"] then CreateUpdateSerializer
    else ListSerializer
  }

  // ---------------------------------------------------------------------
  // Object lookup

  /** The viewset's queryset: posts not soft-deleted. */
  function Visible(posts: map<PostId, Post>): (r: set<PostId>)
    ensures forall p :: p in r <==> p in posts && !posts[p].isDeleted
  {
    set p | p in posts && !posts[p].isDeleted
  }

  /** `get_object`: the visible post with the slug from the URL. */
  function FindBySlug(posts: map<PostId, Post>, slug: string): (r: Option<PostId>)
    requires UniqueSlugs(posts)
    ensures r.None? <==> forall p :: p in Visible(posts) ==> posts[p].slug != slug
    ensures r.Some? ==> r.value in Visible(posts) && posts[r.value].slug == slug
  {
    if exists p :: p in Visible(posts) && posts[p].slug == slug then
      var p :| p in Visible(posts) && posts[p].slug == slug;
      Some(p)
    else None
  }

  /** A soft-deleted post is found by no slug. */
  lemma DeletedIsNotFound(posts: map<PostId, Post>, id: PostId, now: int)
    requires UniqueSlugs(posts) && id in posts
    ensures var after := posts[id := posts[id].(isDeleted := true, deletedAt := Some(now))];
      UniqueSlugs(after) && FindBySlug(after, posts[id].slug).None?
  {
    var after := posts[id := posts[id].(isDeleted := true, deletedAt := Some(now))];
    assert id !in Visible(after);
  }

  // ---------------------------------------------------------------------
  // Detail endpoints

  /** `retrieve`: 404 when no visible post has the slug; otherwise the view
      counter goes up by one (only that column is written) and the post is
      returned. */
  method Retrieve(blog: BlogStore, slug: string) returns (status: int, shown: Option<Post>)
    requires blog.Valid()
    modifies blog
    ensures blog.Valid()
    ensures status == NOT_FOUND <==> FindBySlug(old(blog.posts), slug).None?
    ensures status == NOT_FOUND ==> blog.posts == old(blog.posts) && shown.None?
    ensures status != NOT_FOUND ==> (
      && status == OK
      && var id := FindBySlug(old(blog.posts), slug).value;
         && blog.posts == old(blog.posts)[id := old(blog.posts)[id].(views := old(blog.posts)[id].views + 1)]
         && shown == Some(blog.posts[id]))
    ensures blog.images == old(blog.images) && blog.comments == old(blog.comments)
  {
    var found := FindBySlug(blog.posts, slug);
    if found.None? {
      return NOT_FOUND, None;
    }
    var id := found.value;
    var p := blog.posts[id];
    blog.posts := blog.posts[id := p.(views := p.views + 1)];
    return OK, Some(blog.posts[id]);
  }

  /** Liking flips the user's membership in the likers. */
  function ToggleLike(likes: set<UserId>, u: UserId): (r: set<UserId>)
    ensures u in r <==> u !in likes
    ensures forall v :: v != u ==> (v in r <==> v in likes)
  {
    if u in likes then likes - {u} else likes + {u}
  }

  /** Two likes in a row restore the likers. */
  lemma LikeTwiceRestores(likes: set<UserId>, u: UserId)
    ensures ToggleLike(ToggleLike(likes, u), u) == likes
  {
  }

  /** A like changes the count by exactly one, up or down. */
  lemma LikeCountStep(p: Post, u: UserId)
    ensures var q := p.(likes := ToggleLike(p.likes, u));
      BlogSerializers.LikesCount(q) == if u in p.likes then BlogSerializers.LikesCount(p) - 1
                                        else BlogSerializers.LikesCount(p) + 1
  {
  }

  /** `like`: 404 for an unknown slug; otherwise toggle the user's like and
      answer 200, `liked` telling "Liked" from "Unliked". */
  method Like(blog: BlogStore, slug: string, user: UserId) returns (status: int, liked: bool)
    requires blog.Valid()
    modifies blog
    ensures blog.Valid()
    ensures status == NOT_FOUND <==> FindBySlug(old(blog.posts), slug).None?
    ensures status == NOT_FOUND ==> blog.posts == old(blog.posts)
    ensures status != NOT_FOUND ==> (
      && status == OK
      && var id := FindBySlug(old(blog.posts), slug).value;
         && liked == (user !in old(blog.posts)[id].likes)
         && blog.posts == old(blog.posts)[id := old(blog.posts)[id].(likes := ToggleLike(old(blog.posts)[id].likes, user))])
    ensures blog.images == old(blog.images) && blog.comments == old(blog.comments)
  {
    var found := FindBySlug(blog.posts, slug);
    if found.None? {
      return NOT_FOUND, false;
    }
    var id := found.value;
    var p := blog.posts[id];
    liked := user !in p.likes;
    blog.posts := blog.posts[id := p.(likes := ToggleLike(p.likes, user))];
    status := OK;
  }

  /** `update` / `partial_update`: 404 for an unknown slug, 403 unless the
      object permission allows the method, otherwise the serializer's update
      and 200. */
  method UpdatePost(blog: BlogStore, env: Env, verb: string, requester: User, slug: string,
                    input: BlogSerializers.PostInput, now: int)
    returns (status: int)
    requires blog.Valid()
    requires verb == "PUT" || verb == "PATCH"
    modifies blog
    ensures blog.Valid()
    ensures status == NOT_FOUND <==> FindBySlug(old(blog.posts), slug).None?
    ensures status == FORBIDDEN <==>
      FindBySlug(old(blog.posts), slug).Some?
      && !HasObjectPermission(verb, Some(requester), old(blog.posts)[FindBySlug(old(blog.posts), slug).value])
    ensures status != OK ==> blog.posts == old(blog.posts) && blog.images == old(blog.images)
    ensures status == OK ==>
      var id := FindBySlug(old(blog.posts), slug).value;
      var before := old(blog.posts)[id];
      && (IsAdmin(requester) || before.author == requester.id)
      && blog.posts.Keys == old(blog.posts).Keys
      && (forall q :: q in old(blog.posts) && q != id ==> blog.posts[q] == old(blog.posts)[q])
      && var after := blog.posts[id];
      && after.title == input.title.GetOr(before.title)
      && after.content == input.content.GetOr(before.content)
      && after.updatedAt == now
      && (before.slug != "" ==> after.slug == before.slug)
      && after == before.(title := after.title, content := after.content, updatedAt := now, slug := after.slug)
      && (input.images.None? ==> blog.images == old(blog.images))
      && (input.images.Some? ==>
            blog.images == ImagesNotOf(old(blog.images), id)
                           + BlogSerializers.NewImages(id, input.images.value, old(blog.nextImageId)))
    ensures blog.comments == old(blog.comments)
    ensures status == OK || status == NOT_FOUND || status == FORBIDDEN
  {
    var found := FindBySlug(blog.posts, slug);
    if found.None? {
      return NOT_FOUND;
    }
    var id := found.value;
    if !HasObjectPermission(verb, Some(requester), blog.posts[id]) {
      return FORBIDDEN;
    }
    BlogSerializers.Update(blog, env, id, input, now);
    status := OK;
  }

  /** `destroy`: 404 for an unknown slug, 403 unless the object permission
      allows it, otherwise the soft delete and 204. */
  method Destroy(blog: BlogStore, requester: User, slug: string, now: int) returns (status: int)
    requires blog.Valid()
    modifies blog
    ensures blog.Valid()
    ensures status == NOT_FOUND <==> FindBySlug(old(blog.posts), slug).None?
    ensures status == FORBIDDEN <==>
      FindBySlug(old(blog.posts), slug).Some?
      && !HasObjectPermission("DELETE", Some(requester), old(blog.posts)[FindBySlug(old(blog.posts), slug).value])
    ensures status != NO_CONTENT ==> blog.posts == old(blog.posts)
    ensures status == NO_CONTENT ==>
      var id := FindBySlug(old(blog.posts), slug).value;
      && blog.posts == old(blog.posts)[id := old(blog.posts)[id].(isDeleted := true, deletedAt := Some(now))]
      && FindBySlug(blog.posts, slug).None?
    ensures status == NO_CONTENT || status == NOT_FOUND || status == FORBIDDEN
    ensures blog.images == old(blog.images) && blog.comments == old(blog.comments)
  {
    var found := FindBySlug(blog.posts, slug);
    if found.None? {
      return NOT_FOUND;
    }
    var id := found.value;
    if !HasObjectPermission("DELETE", Some(requester), blog.posts[id]) {
      return FORBIDDEN;
    }
    DeletedIsNotFound(blog.posts, id, now);
    blog.Delete(id, now);
    status := NO_CONTENT;
  }

  // ---------------------------------------------------------------------
  // Comments

  /** `Comment.objects.get(id=parent_id, post=post)` succeeds. */
  predicate ParentOnPost(comments: seq<Comment>, parent: int, post: PostId) {
    exists i :: 0 <= i < |comments| && comments[i].id == parent && comments[i].post == Some(post)
  }

  /** How DRF runs a detail action: the handler is called with the route's
      keyword, `LOOKUP_FIELD`. A handler without a parameter of that name
      (and without `**kwargs`) raises `TypeError`, which escapes as a 500;
      otherwise the handler's own answer stands. */
  function DispatchDetailAction(params: set<string>, handlerStatus: int): (status: int)
    ensures LOOKUP_FIELD !in params ==> status == SERVER_ERROR
    ensures LOOKUP_FIELD in params ==> status == handlerStatus
  {
    if LOOKUP_FIELD in params then handlerStatus else SERVER_ERROR
  }

  /** The parameters of `like` and of `add_comment` as written. */
  const LIKE_PARAMS := {"self", "request", "slug"}
  const ADD_COMMENT_PARAMS_AS_WRITTEN := {"self", "request", "pk"}

  /** As written, `add_comment` names its URL parameter `pk` while the
      route passes `slug`, so every call fails before the body runs,
      whatever the body would have answered. `like` is reached. */
  lemma AddCommentAsWrittenAlwaysFails(handlerStatus: int)
    ensures DispatchDetailAction(ADD_COMMENT_PARAMS_AS_WRITTEN, handlerStatus) == SERVER_ERROR
    ensures DispatchDetailAction(LIKE_PARAMS, handlerStatus) == handlerStatus
  {
  }

  /** `add_comment` with its URL parameter named `slug`, as evidently
      intended: 404 for an unknown post; 400 when `parent_comment` is given
      and names no comment of this post; 400 when `content` is missing or
      blank; otherwise one new comment on the post by the user, with the
      stripped content and the parent, and 201. */
  method AddComment(blog: BlogStore, slug: string, user: UserId, parent: Option<int>,
                    content: Option<string>, now: int)
    returns (status: int)
    requires blog.Valid()
    modifies blog
    ensures blog.Valid()
    ensures status == NOT_FOUND <==> FindBySlug(old(blog.posts), slug).None?
    ensures status == BAD_REQUEST <==>
      FindBySlug(old(blog.posts), slug).Some?
      && ((parent.Some? && !ParentOnPost(old(blog.comments), parent.value, FindBySlug(old(blog.posts), slug).value))
          || content.None? || Text.Strip(content.value) == "")
    ensures status != CREATED ==> blog.comments == old(blog.comments)
    ensures status == CREATED ==>
      var post := FindBySlug(old(blog.posts), slug).value;
      && (parent.Some? ==> parent.value >= 0)
      && blog.comments == old(blog.comments)
           + [Comment(old(blog.nextCommentId), Some(post), Text.Strip(content.value), user, now,
                      if parent.Some? then Some(parent.value as nat) else None)]
    ensures status == CREATED || status == NOT_FOUND || status == BAD_REQUEST
    ensures blog.posts == old(blog.posts) && blog.images == old(blog.images)
  {
    var found := FindBySlug(blog.posts, slug);
    if found.None? {
      return NOT_FOUND;
    }
    var post := found.value;
    var parentId: Option<nat> := None;
    if parent.Some? {
      if !ParentOnPost(blog.comments, parent.value, post) {
        return BAD_REQUEST;
      }
      var i :| 0 <= i < |blog.comments| && blog.comments[i].id == parent.value && blog.comments[i].post == Some(post);
      parentId := Some(blog.comments[i].id);
    }
    if content.None? || Text.Strip(content.value) == "" {
      return BAD_REQUEST;
    }
    var c := blog.AddComment(post, Text.Strip(content.value), user, parentId, now);
    status := CREATED;
  }
}
