# MBlog backend core in Dafny

MBlog is a Django REST blogging backend. Users register and confirm their
e-mail with a six-digit code, log in for a token, follow each other, and
write posts with images, likes, views and threaded comments. Creating a post
writes one `Notification` row per follower and pushes the same event over a
Django Channels layer to a per-user group `user_<id>`. A WebSocket consumer
joins that group when a client connects with `?user_id=<id>`.

This project models that core and proves what it promises:

- `base.dfy`: the shared vocabulary. It holds the HTTP status codes, the
  `Option` type and the `Env` of opaque library functions (slugify,
  `str.title`, password hashing, e-mail normalisation, e-mail syntax).
- `text.dfy`: the string helpers the code relies on. These are `str(int)`,
  Python's `int(str)`, `strip`, `split` and a case-insensitive `contains`.
- `channels.dfy`: the in-memory channel layer. It is a registry from group
  names to sets of channel names, plus a log of every `group_send` and the
  channels it reached. It is given twice: as a pure `Apply`/`Run` semantics,
  and as the class `ChannelLayer`, whose methods are proved against it.
- `notifications_consumers.dfy`: `NotificationConsumer.connect`,
  `disconnect` and `send_notification`, with the query-string parsing.
- `notifications_models.dfy` and `notifications_views.dfy`: the
  notification table, its newest-first ordering, `bulk_create`, and the
  `read`/`read-all` endpoints.
- `accounts_models.dfy`, `accounts_utils.dfy`, `accounts_serializers.dfy`
  and `accounts_views.dfy`: the user manager and the user, code and follow
  tables. Also registration, login, logout, e-mail verification, password
  reset, follow/unfollow, the follower lists and the profile patch.
- `blogs_models.dfy`, `blogs_serializers.dfy` and `blogs_views.dfy`: posts
  with the slug loop of `Post.save` and the soft delete; the post
  serializers; and the post viewset. The viewset covers `perform_create`
  with its fan-out, the object permission, the serializer choice,
  `retrieve`, `like`, `update`, `destroy` and `add_comment`.

Tables that the code updates in place are classes whose methods change
fields (`AccountStore`, `BlogStore`, `NotificationTable`, `ChannelLayer`,
`NotificationConsumer`). Views are methods over those stores. Pure helpers
are functions with lemmas about them.

Inputs the code gets from the outside are parameters of the operations:

- the current time (`now`, in seconds);
- the random draw of `random.randint(100000, 999999)` (`draw`);
- the key a new auth token receives (`freshKey`);
- the user Django's `authenticate` returns (`authenticated`);
- the requesting user.

Three behaviours of the code that the model keeps as they are:

- The fan-out pushes every channel-layer event inside the loop and writes
  the notification rows afterwards, with one `bulk_create`.
- It calls `bulk_create` even when there is no follower to notify, which
  writes nothing.
- `disconnect` after a connection that was closed for want of a `user_id`
  has no group to leave, so it raises.

`BlogViews.PerformCreate` and `NotificationConsumers.NotificationConsumer.Disconnect`
state these outcomes.

## Model

| member | source | states |
|---|---|---|
| Text.PyInt | notifications/consumers.py:37 | `int()` of a blank string fails; a negative result comes only from a leading minus sign, and a leading minus never gives a positive result |
| Text.PyIntOfIntToString | notifications/consumers.py:37 | `int(str(i)) == i` for every integer, so the user id a consumer reads back is the one written into the query string |
| Channels.GroupNameText | notifications/consumers.py:38 | the group of a user is `user_` followed by the decimal text of the id |
| Channels.GroupNameInjective | notifications/consumers.py:38 | distinct users never share a group name `user_<id>` |
| Channels.ApplyMembership | notifications/consumers.py:43-47 | `group_add` makes the channel a member of its group and `group_discard` removes it; every other (group, channel) pair keeps its membership; no empty group is left behind |
| Channels.DiscardAbsentIsNoOp | notifications/consumers.py:46-47 | discarding a channel that is not in the group changes nothing |
| Channels.DiscardIdempotent | notifications/consumers.py:46-47 | discarding twice has the same effect as discarding once |
| Channels.AddThenDiscard | notifications/consumers.py:43-47 | joining a group and then leaving it restores the registry exactly |
| Channels.RunExtendsLog | blogs/views.py:65-77 | a sequence of channel-layer calls only appends to the delivery log |
| Channels.SubscribedReceivesEverySend | blogs/views.py:65-77 | a channel in group g that is not discarded from g is among the receivers of every later send to g |
| Channels.AbsentReceivesNothing | blogs/views.py:65-77 | a channel not in g that does not join g again receives none of the later sends to g |
| Channels.ChannelLayer.GroupAdd | notifications/consumers.py:43 | the layer's state becomes the `Apply` of an add of (group, channel) |
| Channels.ChannelLayer.GroupDiscard | notifications/consumers.py:47 | the layer's state becomes the `Apply` of a discard, never an error |
| Channels.ChannelLayer.GroupSend | blogs/views.py:65-77 | the event is logged with exactly the channels in the group at that moment; memberships are unchanged |
| NotificationConsumers.PlusToSpace | notifications/consumers.py:30 | same length as the input; every '+' becomes a space and every other character is kept |
| NotificationConsumers.FirstValue | notifications/consumers.py:30-31 | None exactly when no field is named `user_id`; otherwise the value of a field with that name |
| NotificationConsumers.FieldParts | notifications/consumers.py:31 | `parse_qs` keeps a field exactly when it has an `=` followed by a non-empty value; the name and value are the parts around the first `=`, with `+` read as a space |
| NotificationConsumers.ReadHandshake | notifications/consumers.py:29-37 | no user id exactly when the first `user_id` value is missing or empty; a value `int()` refuses is reported as not an integer; otherwise the user is the integer of that value |
| NotificationConsumers.HandshakeOfCanonicalQuery | notifications/consumers.py:29-38 | the query string `user_id=<id>` is read as user `id`, for every integer id |
| NotificationConsumers.HandshakeUsesFirstUserId | notifications/consumers.py:30-31 | when `user_id` is repeated, the first value wins |
| NotificationConsumers.NotificationConsumer.Connect | notifications/consumers.py:27-44 | no or empty `user_id` closes the socket with the layer unchanged; a non-integer raises; otherwise the consumer records the user and its group and joins it |
| NotificationConsumers.NotificationConsumer.Disconnect | notifications/consumers.py:46-48 | leaves exactly the group joined at connect; without one it fails and the layer is unchanged |
| NotificationConsumers.NotificationConsumer.SendNotification | notifications/consumers.py:50-53 | the event's content is appended unchanged to the frames sent to the client |
| NotificationModels.Saved | notifications/models.py:4-10 | a saved draft keeps recipient, actor, post and verb, is unread and is stamped with the insert time and its id |
| NotificationModels.SavedAll | notifications/models.py:4-10 | one saved row per draft, in order, with ids counting up from the first |
| NotificationModels.Describe | notifications/models.py:16-17 | `__str__` is the recipient's e-mail, then the actor's, then the verb, with its separators |
| NotificationModels.OrderNewestFirst | notifications/models.py:12-13 | the rows ordered by `-created_at` form a permutation of the table and are newest first |
| NotificationModels.SameInstantKeepsOrder | notifications/models.py:12-13 | two rows created at the same instant come out in insertion order, the earlier first |
| NotificationModels.NotificationTable.BulkCreate | blogs/views.py:79 | the table gains exactly the saved drafts, in order, with fresh ids |
| NotificationViews.OwnRows | notifications/views.py:12-22 | exactly the rows whose recipient is the user; a sub-multiset of the table |
| NotificationViews.Queryset | notifications/views.py:12-22 | empty for an anonymous request; otherwise exactly the user's notifications, each as often as in the table, newest first |
| NotificationViews.MarkRead | notifications/views.py:30-36 | only the requester's row with this pk becomes read; every other row is unchanged |
| NotificationViews.MarkAllRead | notifications/views.py:38-42 | every row of the requester becomes read; every other row is unchanged |
| NotificationViews.Unread | notifications/views.py:38-42 | exactly the unread rows of a user |
| NotificationViews.MarkReadChangesOneRow | notifications/views.py:30-36 | with distinct ids, `read` changes at most one row |
| NotificationViews.MarkReadIdempotent | notifications/views.py:30-36 | reading the same notification twice is the same as once |
| NotificationViews.NothingUnreadAfterReadAll | notifications/views.py:38-42 | after `read-all` the requester has no unread notification, and every other user's unread list is unchanged |
| NotificationViews.UnreadOfOthers | notifications/views.py:38-42 | `read-all` leaves every other user's unread notifications as they were |
| NotificationViews.Read | notifications/views.py:30-36 | 200 exactly when pk is one of the requester's notifications, else 404; the table becomes `MarkRead` of the old one |
| NotificationViews.ReadAll | notifications/views.py:38-42 | always 200; the table becomes `MarkAllRead` of the old one |
| NotificationViews.Update | notifications/views.py:24-25 | always 405 |
| NotificationViews.PartialUpdate | notifications/views.py:27-28 | always 405 |
| AccountModels.LocalPart | accounts/models.py:62-68 | the longest prefix of the address before the first '@' |
| AccountModels.FullName | accounts/models.py:62-65 | "first last" when both names are set; otherwise the title-cased local part of the e-mail |
| AccountModels.ShortName | accounts/models.py:67-68 | the first name when set, otherwise the local part of the e-mail |
| AccountModels.SetDefault | accounts/models.py:16-18 | a passed value is kept; a missing one becomes the default |
| AccountModels.NewUser | accounts/models.py:10 | the new row carries the address, the hash and each extra field, with staff and superuser false and active true unless passed |
| AccountModels.UserWithEmail | accounts/views.py:290-296 | the user with exactly this address, and None exactly when nobody has it |
| AccountModels.AccountStore.CreateUserFrom | accounts/models.py:6-13 | a missing e-mail is refused; an address whose normalised form is taken is refused; otherwise one new user with the normalised address and the hashed password, all other tables unchanged |
| AccountModels.AccountStore.CreateUser | accounts/models.py:15-19 | as `_create_user`, with staff and superuser defaulting to false and active to true |
| AccountModels.AccountStore.CreateSuperuser | accounts/models.py:22-26 | as `_create_user`, with staff, superuser and active defaulting to true: the new row holds the normalised address, the hashed password and the extra fields with those defaults |
| AccountModels.AccountStore.SaveUser | accounts/models.py:37-50 | the row is replaced and nothing else changes |
| AccountModels.AccountStore.UseCode | accounts/views.py:321-322 | only the code row's `is_used` becomes true |
| AccountModels.ExpiryIsFinal | accounts/models.py:86-87 | a code that has expired stays expired at every later instant |
| AccountModels.NewestMatch | accounts/views.py:299-306 | None exactly when no unused code of this user, value and purpose exists; otherwise one with the latest creation time |
| AccountModels.FollowersOf | accounts/views.py:246-253 | exactly the users with an edge towards pk |
| AccountModels.FollowingOf | accounts/views.py:270-277 | exactly the users pk has an edge towards |
| AccountModels.FollowersDistinct | accounts/models.py:98-100 | with each edge stored once, no follower is listed twice |
| AccountModels.Without | accounts/views.py:217-220 | exactly the edges other than the deleted one; unchanged when the edge is absent; keeps the table free of duplicates |
| AccountModels.WithoutRemovesOne | accounts/models.py:98-100 | deleting a present edge removes exactly one row |
| AccountModels.FollowThenUnfollow | accounts/views.py:160-231 | following and then unfollowing restores the follow table |
| AccountUtils.GeneratedCodeHasSixDigits | accounts/utils.py:29 | every drawn code is six decimal digits whose value is the draw |
| AccountUtils.FreshCodeLifetime | accounts/utils.py:31 | a new code is expired exactly when the time is past two minutes after issue |
| AccountUtils.GenerateVerificationCode | accounts/utils.py:25-39 | one new unused code row for the user and purpose, valid for two minutes; no other table changes |
| AccountUtils.Subject | accounts/utils.py:48-53 | the registration subject exactly for registration, the reset subject exactly for a reset, the fallback otherwise |
| AccountUtils.Message | accounts/utils.py:55-58 | the body quotes the code at a fixed place |
| AccountUtils.SendVerificationEmail | accounts/utils.py:41-60 | issues one code and returns the mail to the user's address, with the subject for the purpose and the code in the body |
| AccountSerializers.CharField | accounts/serializers.py:9-10 | a missing field is refused when required; a value is stripped, refused when blank unless blanks are allowed, and refused when too long |
| AccountSerializers.EmailField | accounts/serializers.py:48 | accepted exactly when the stripped text is non-blank, fits and is an address |
| AccountSerializers.RegistrationFields | accounts/serializers.py:9-13 | accepted exactly when the e-mail field is valid and not taken, no optional name or phone is invalid and both passwords are given; the accepted fields are the stripped values sent, absent optional ones None |
| AccountSerializers.ValidateRegistration | accounts/serializers.py:15-20 | accepted exactly when the fields are valid and the two passwords agree |
| AccountSerializers.ValidatedData | accounts/serializers.py:15-20 | the dictionary carries every sent field with its validated value |
| AccountSerializers.Create | accounts/serializers.py:22-26 | password2 is dropped and `create_user` is called with password1 and the other fields, with its outcomes |
| AccountSerializers.VerificationFields | accounts/serializers.py:44-49 | accepted exactly when the e-mail field is a valid address and the code is non-blank and at most six characters; the result is the stripped address and code sent |
| AccountSerializers.ResetRequestFields | accounts/serializers.py:51-52 | accepted exactly when the e-mail field is |
| AccountSerializers.ResetConfirmFields | accounts/serializers.py:54-63 | accepted only when address and code are accepted as for verification and both passwords are given, and then exactly when the passwords agree; the result carries that address and code and the stripped password |
| AccountSerializers.ApplyProfilePatch | accounts/serializers.py:28-42 | only the writable fields that were sent change; the id, join date, active flag and e-mail never do; an invalid field refuses the whole patch |
| AccountViews.TokenFor | accounts/views.py:31 | an existing token is kept; otherwise the user gets the fresh key; no other token changes |
| AccountViews.GetOrCreateToken | accounts/views.py:80 | the token table becomes `TokenFor` of the old one and the user's key is returned; no other table changes |
| AccountViews.CreateInactive | accounts/views.py:26-28 | the new user exists and is inactive, not staff, not superuser, with the normalised address, the hashed password and the names and phone sent (empty when absent); a normalised-address collision raises |
| AccountViews.Register | accounts/views.py:21-41 | 400 exactly on invalid input; 500 exactly when the normalised address is taken; otherwise 201 with one new inactive user, a token, one registration code and the mail that carries it |
| AccountViews.Login | accounts/views.py:47-86 | 400 when e-mail or password is missing or empty; 401 exactly when authentication fails; 403 exactly for an inactive account; 200 exactly otherwise, with the user's token |
| AccountViews.Logout | accounts/views.py:93-98 | always 200; the presented token, if any, is deleted and nothing else changes |
| AccountViews.UserQueryset | accounts/views.py:105-111 | staff and superusers see every user; anybody else sees exactly the active users |
| AccountViews.UsersQueryset | accounts/views.py:422-431 | the active users, narrowed by a non-empty `q` to those whose first name, last name or e-mail contains it ignoring case |
| AccountViews.SearchFindsEmailPart | accounts/views.py:426-431 | searching for part of an active user's e-mail finds them |
| AccountViews.CreateThroughUsers | accounts/views.py:112-116 | always 405 |
| AccountViews.Follow | accounts/views.py:160-193 | 404 for an unknown user, 400 for oneself or an existing edge; 201 exactly otherwise, and then exactly one edge is added |
| AccountViews.Unfollow | accounts/views.py:196-231 | 404 for an unknown user, 400 for oneself or a missing edge; 200 exactly otherwise, and then exactly that edge is removed |
| AccountViews.Followers | accounts/views.py:234-253 | None for an unknown user, else exactly the users following them |
| AccountViews.Following | accounts/views.py:256-277 | None for an unknown user, else exactly the users they follow |
| AccountViews.Confirm | accounts/views.py:290-318 | no user with the exact address; `NoCode` exactly when that user has no matching unused code; otherwise the answer is about the newest matching code: `Expired` when it has expired, `Accepted` exactly when it has not |
| AccountViews.AcceptedCodeIsSingleUse | accounts/views.py:321-322 | once the accepted code is marked used, the same confirmation is never accepted with it again |
| AccountViews.PurposesDoNotMix | accounts/views.py:302 | a confirmation only ever consumes a code of its own purpose |
| AccountViews.VerifyEmail | accounts/views.py:283-330 | 400 on invalid input, 404 for an unknown address, 400 for a missing or expired code; on 200 exactly that code becomes used and exactly that user becomes active |
| AccountViews.RequestReset | accounts/views.py:337-359 | 400 on invalid input, 404 for an unknown address; otherwise 200, one new reset code and the mail carrying it |
| AccountViews.ConfirmReset | accounts/views.py:362-410 | as verification but only with a reset code; on 200 the code becomes used and only the password changes, to the hash of the new one |
| AccountViews.UpdateMe | accounts/views.py:119-130 | 400 on an invalid patch with nothing changed; otherwise 200 with the requester's row replaced by the patched row |
| BlogModels.SlugCandidate | blogs/models.py:35-41 | the base itself first, then `base-k`: the base, a dash and the decimal k |
| BlogModels.SlugCandidatesDistinct | blogs/models.py:40-42 | different counters give different slugs |
| BlogModels.UniqueSlug | blogs/models.py:34-44 | the result is a candidate that nobody else holds; every earlier candidate is taken; the counter never exceeds the number of taken slugs, so the loop ends |
| BlogModels.OtherSlugs | blogs/models.py:40 | exactly the slugs of the posts other than this one, deleted posts included |
| BlogModels.BlogStore.FillSlug | blogs/models.py:32-46 | a post with a slug keeps it; one without gets the first free candidate for its slugified title |
| BlogModels.FirstFreeSlugUnique | blogs/models.py:36-44 | the slug search has a single answer: two first free candidates for one base and one set of taken slugs are equal |
| BlogModels.BlogStore.Insert | blogs/views.py:44 | one new post with the given fields, no likes, no views, not deleted, and as slug the first candidate for its slugified title that no other post holds; other posts unchanged |
| BlogModels.BlogStore.Update | blogs/serializers.py:104-106 | title, content and `updated_at` change; a non-empty slug is kept, an empty one becomes the first free candidate; the slug stays unique |
| BlogModels.BlogStore.Delete | blogs/models.py:21-24 | only `is_deleted` and `deleted_at` change; the row stays |
| BlogModels.BlogStore.AddImage | blogs/models.py:66-68 | exactly one image row for the post is appended |
| BlogModels.BlogStore.DeleteImagesOf | blogs/serializers.py:109 | exactly the post's image rows are removed |
| BlogModels.BlogStore.AddComment | blogs/models.py:49-60 | exactly one comment row with the post, content, author, time and parent is appended |
| BlogModels.ImagesNotOf | blogs/serializers.py:109 | exactly the image rows of other posts, in order |
| BlogModels.ImagesOf | blogs/models.py:67 | exactly the image rows of the post, in order |
| BlogSerializers.IsLiked | blogs/serializers.py:34-38 | false without a request or for an anonymous user; for a signed-in user, whether they are among the likers |
| BlogSerializers.LikedMeansCounted | blogs/serializers.py:31-38 | a post that shows as liked has a like count of at least one |
| BlogSerializers.NewImages | blogs/serializers.py:97-98 | one image row per upload, in order, all of the post |
| BlogSerializers.AddImages | blogs/serializers.py:97-98 | the images gain exactly `NewImages` of the uploads; posts and comments unchanged |
| BlogSerializers.Create | blogs/serializers.py:94-99 | one new post from the fields, with the first free slug, and one image row per upload, none when no images are sent |
| BlogSerializers.Update | blogs/serializers.py:101-113 | absent fields keep their value; without `images` the images are untouched; with `images`, even empty, the post's images are replaced by the uploads |
| BlogSerializers.ReplacedImages | blogs/serializers.py:108-111 | after a replacement the post's images are exactly the uploads, and every other post keeps its images |
| BlogSerializers.CreatedImages | blogs/serializers.py:95-98 | a new post ends up with exactly one image per upload |
| BlogViews.Audience | blogs/views.py:46-53 | exactly the followers of the author other than the author |
| BlogViews.Drafts | blogs/views.py:56-62 | one `new_post` notification per audience member, from the author, for the post |
| BlogViews.Deliveries | blogs/views.py:65-77 | one delivery per audience member to their group, reaching the channels subscribed at that moment |
| BlogViews.Sends | blogs/views.py:65-77 | one `group_send` of the event to each audience member's group, in order |
| BlogViews.Publishes | blogs/views.py:65-77 | one publish effect per audience member, in order |
| BlogViews.FanOut | blogs/views.py:46-79 | memberships unchanged; the log gains exactly the deliveries; the table gains exactly the saved drafts; the effects are the publishes followed by one bulk insert |
| BlogViews.PerformCreate | blogs/views.py:42-79 | the post is saved with the requester as author, the first free slug and one image row per upload, comments untouched; then each follower other than the author gets one publish to their group and one notification row, and the rows are written by one bulk insert at the end |
| BlogViews.SendsAsRun | blogs/views.py:65-77 | the fan-out's sends, run one by one through the channel layer, give exactly the deliveries and leave memberships unchanged |
| BlogViews.OneNotificationPerFollower | blogs/views.py:46-62 | with each edge stored once, every follower other than the author gets exactly one notification, and the author none |
| BlogViews.AuthorNotPublishedTo | blogs/views.py:52-53 | nothing of the fan-out goes to the author's own group |
| BlogViews.NewPostEventFields | blogs/views.py:67-76 | the event has type `send_notification`, verb `new_post`, the post's title and slug and the author's address and id |
| BlogViews.ConnectedFollowerReceives | blogs/views.py:65-77 | a follower's subscribed channel receives the new-post event |
| BlogViews.NoFollowersNoEffects | blogs/views.py:51-79 | without other followers nothing is published and the bulk insert is empty |
| BlogViews.HasObjectPermission | blogs/views.py:21-32 | safe methods are always allowed; anonymous users may not write; admins, staff and superusers may; anybody else only on their own post |
| BlogViews.AnonymousOnlyReads | blogs/views.py:22-27 | an anonymous request may read any post and change none |
| BlogViews.OwnPostsOnly | blogs/views.py:29-32 | a non-admin may change exactly their own posts |
| BlogViews.GetSerializerClass | blogs/views.py:80-88 | the detail serializer exactly for `retrieve`, the create/update serializer exactly for create, update and partial update, the list serializer otherwise |
| BlogViews.Visible | blogs/views.py:36 | exactly the posts not soft-deleted |
| BlogViews.FindBySlug | blogs/views.py:36-39 | None exactly when no visible post has the slug; otherwise the visible post with it |
| BlogViews.DeletedIsNotFound | blogs/views.py:36 | after a soft delete no slug finds the post |
| BlogViews.Retrieve | blogs/views.py:96-103 | 404 for an unknown slug with nothing changed; otherwise 200, only the post's views grow by one, and the post is shown |
| BlogViews.ToggleLike | blogs/views.py:111-116 | the user's like flips and nobody else's changes |
| BlogViews.LikeTwiceRestores | blogs/views.py:111-116 | two likes in a row restore the likers |
| BlogSerializers.LikesCount | blogs/serializers.py:31-32 | the count is zero exactly when nobody likes the post, and at least one when somebody does |
| BlogViews.LikeCountStep | blogs/views.py:111-116 | one like changes the like count by exactly one, up or down |
| BlogViews.Like | blogs/views.py:105-116 | 404 for an unknown slug; otherwise 200, only the post's likers change, and the result says whether the user now likes it |
| BlogViews.UpdatePost | blogs/views.py:21-37 | 404 for an unknown slug; 403 exactly when the object permission refuses; on 200 that post's absent fields keep their value, `updated_at` becomes now, a non-empty slug is kept, its images are untouched without `images` and replaced by the uploads with it, and no other post or comment changes |
| BlogViews.Destroy | blogs/views.py:21-37 | 404 for an unknown slug; 403 exactly when the object permission refuses; on 204 the post is soft-deleted and nothing else changes |
| BlogViews.DispatchDetailAction | blogs/views.py:39 | a detail action whose handler has no parameter named after `lookup_field` fails with 500; otherwise its status is the handler's |
| BlogViews.AddCommentAsWrittenAlwaysFails | blogs/views.py:127-128 | `add_comment`, with its parameter named `pk`, fails with 500 whatever the request, while `like` runs |
| BlogViews.AddComment | blogs/views.py:127-147 | 404 for an unknown slug; 400 exactly when the parent is not a comment of this post or the content is missing or blank; otherwise 201 and exactly one comment with the stripped content |

## Left out

- Sending e-mail, the WebSocket transport and the `print` logging are I/O.
  The model returns the mail and records the frames and deliveries instead.
- The clock, the random draw, the token key and Django's `authenticate` are
  parameters of the operations.
- `slugify`, `str.title`, `make_password`, `normalize_email` and the e-mail
  syntax check are opaque functions in `Base.Env`.
- `parse_qs` percent-decoding is not modelled; only '+' becomes a space.
- `int()` on non-ASCII digits is not modelled.
- A `parent_comment` that is not an integer string is not modelled: the
  parent arrives already parsed.
- Post field validation is not modelled: the 100-character title, non-blank
  title and content, and image file checks.
- A slug longer than the 100-character column is not modelled.
- `lookup_value_regex` is not modelled: any slug string may be looked up.
- Response bodies and the serializers' output shape are not modelled;
  the views return status codes, the rows they touch and the shown post.
- The `likes` action and the `GET` branch of `me` are read-only listings
  and are not modelled.
- `CommentViewSet` is a full model viewset over comments (listing, creating
  with the signed-in user as author, updating, deleting). It is not
  modelled: comments are written in this model only through `add_comment`.
- AccountViews.UserQueryset: the comment at accounts/views.py:110 says an
  ordinary user sees only themselves, but the code returns every active
  user; the model follows the code.
- `my_followers` and `my_following` are `Followers` and `Following` of the
  signed-in user and are not modelled separately.
- Concurrency is not modelled: two saves may race between the slug check
  and the write. Transactions and atomicity are not modelled either.
- The permission classes `IsAuthenticated` and `IsAuthenticatedOrReadOnly`
  are not modelled as such. Views that need a signed-in user take that user.
- AccountViews.Login: the 403 branch cannot be reached with Django's default
  `ModelBackend`, which refuses inactive users, so `authenticate` returns
  None and the answer is 401. The model keeps the branch because the
  authentication backend is a parameter.
- A nullable text column stored as NULL is modelled as the empty string.
- Notifications with equal `created_at` keep their insertion order, the
  earlier insertion first.
- AccountModels.NewestMatch: among matching codes created at the same
  instant, `order_by('-created_at').first()` leaves the choice to the
  database; the model takes the one stored last.
- AccountModels.FollowersOf: `Follow` has no default ordering, so the order
  in which the database yields an author's followers is unspecified. The
  model takes table order, and that order decides the order of the
  `group_send` calls and of the new notification ids.
- NotificationModels.SavedAll: every row of one `bulk_create` gets the same
  `now`, while `auto_now_add` reads the clock once per object; the model's
  clock is a single parameter.
- `UsersViewSet` is modelled, but the URL configuration registers only
  `UserViewSet`, so it is not reachable.
- AccountViews.Register: the uniqueness check compares the address as sent,
  while `create_user` stores it normalised. An address that differs from a
  stored one only in the case of its domain therefore passes validation and
  then hits the database constraint, and the model answers 500 there as the
  code does.
- A `pk` in `follow`, `unfollow`, `followers` or `following` that is not
  an integer makes `CustomUser.objects.get` raise `ValueError`, a 500. The
  model takes the key already parsed.
- `str.strip` and `icontains` are modelled on ASCII only: Unicode
  whitespace and Unicode case folding are not.
- A query string that is not valid UTF-8 makes `decode()` raise in
  `connect`. The model takes the query string already decoded.
- `blogs/urls.py` is not part of this model. The routing of the post viewset
  is assumed to match the router registration in `accounts/urls.py`.

## Findings

| source | as written | input that shows it | evidently intended | confidence | as-written member | corrected member |
|---|---|---|---|---|---|---|
| blogs/views.py:127-128 | `add_comment(self, request, pk=None)` on a viewset whose `lookup_field` is `slug`, so the router passes the keyword `slug` and the call raises `TypeError` | any POST to `posts/<slug>/comment/` | a parameter named `slug`, as `like` and `likes` have | not executed; the router registration of the post viewset is assumed | BlogViews.AddCommentAsWrittenAlwaysFails | BlogViews.AddComment |
