/** The post serializers: the computed `likes_count` and `is_liked` fields,
    and `create`/`update` of `PostCreateUpdateSerializer`, which write the
    post and its image rows. */
module BlogSerializers {
  import opened Base
  import opened BlogModels

  /** `likes.count()`. */
  function LikesCount(p: Post): (n: nat)
    ensures n == 0 <==> p.likes == {}
    ensures forall u :: u in p.likes ==> n >= 1
  {
    |p.likes|
  }

  /** Who a serializer's context says is asking: no request at all, an
      anonymous visitor, or a signed-in user. */
  datatype Viewer = NoRequest | Anonymous | Member(id: UserId)

  /** `get_is_liked`: false without a request or for an anonymous visitor;
      otherwise whether the user is among the likers. */
  function IsLiked(p: Post, viewer: Viewer): (liked: bool)
    ensures viewer.NoRequest? || viewer.Anonymous? ==> !liked
    ensures viewer.Member? ==> (liked <==> viewer.id in p.likes)
  {
    match viewer
    case NoRequest => false
    case Anonymous => false
    case Member(id) => id in p.likes
  }

  /** A post that shows as liked to some viewer has at least one like. */
  lemma LikedMeansCounted(p: Post, viewer: Viewer)
    requires IsLiked(p, viewer)
    ensures LikesCount(p) >= 1
  {
    assert viewer.id in p.likes;
  }

  /** The validated fields of `PostCreateUpdateSerializer`; None is a field
      the request did not supply. */
  datatype PostInput = PostInput(title: Option<string>, content: Option<string>, images: Option<seq<string>>)

  /** The image rows written for a list of uploads, one per upload in
      order, numbered from `firstId`. */
  function NewImages(post: PostId, files: seq<string>, firstId: nat): (r: seq<PostImage>)
    ensures |r| == |files|
    ensures forall i :: 0 <= i < |r| ==> r[i] == PostImage(firstId + i, post, files[i])
  {
    seq(|files|, i requires 0 <= i < |files| => PostImage(firstId + i, post, files[i]))
  }

  /** Adds one image row per upload, in order. */
  method AddImages(store: BlogStore, post: PostId, files: seq<string>)
    requires store.Valid() && post in store.posts
    modifies store
    ensures store.Valid()
    ensures store.images == old(store.images) + NewImages(post, files, old(store.nextImageId))
    ensures store.nextImageId == old(store.nextImageId) + |files|
    ensures store.posts == old(store.posts) && store.comments == old(store.comments)
    ensures store.nextCommentId == old(store.nextCommentId) && store.nextPostId == old(store.nextPostId)
  {
    var i := 0;
    while i < |files|
      invariant 0 <= i <= |files|
      invariant store.Valid()
      invariant store.images == old(store.images) + NewImages(post, files[..i], old(store.nextImageId))
      invariant store.nextImageId == old(store.nextImageId) + i
      invariant store.posts == old(store.posts) && store.comments == old(store.comments)
      invariant store.nextCommentId == old(store.nextCommentId) && store.nextPostId == old(store.nextPostId)
    {
      store.AddImage(post, files[i]);
      assert NewImages(post, files[..i + 1], old(store.nextImageId))
          == NewImages(post, files[..i], old(store.nextImageId)) + [PostImage(old(store.nextImageId) + i, post, files[i])];
      i := i + 1;
    }
    assert files[..i] == files;
  }

  /** `create`: the post row (with `author` from `serializer.save`), then
      one image row per upload; without `images` no image is written. */
  method Create(store: BlogStore, env: Env, author: UserId, title: string, content: string,
                images: Option<seq<string>>, now: int)
    returns (id: PostId)
    requires store.Valid()
    modifies store
    ensures store.Valid()
    ensures id !in old(store.posts) && store.posts.Keys == old(store.posts).Keys + {id}
    ensures forall q :: q in old(store.posts) ==> store.posts[q] == old(store.posts)[q]
    ensures var p := store.posts[id];
      && p.title == title && p.content == content && p.author == author
      && p.createdAt == now && p.updatedAt == now && p.likes == {} && p.views == 0
      && !p.isDeleted && FirstFreeSlug(p.slug, env.slugify(title), OtherSlugs(old(store.posts), None))
    ensures store.images == old(store.images) + NewImages(id, images.GetOr([]), old(store.nextImageId))
    ensures store.comments == old(store.comments)
  {
    var files := images.GetOr([]);
    id := store.Insert(env, title, content, author, now);
    AddImages(store, id, files);
  }

  /** `update`: absent fields keep their value; the post is saved (so
      `updated_at` becomes now and the slug is kept); when `images` is given,
      even empty, the post's old images are deleted and the new ones added. */
  method Update(store: BlogStore, env: Env, id: PostId, input: PostInput, now: int)
    requires store.Valid() && id in store.posts
    modifies store
    ensures store.Valid()
    ensures store.posts.Keys == old(store.posts).Keys
    ensures forall q :: q in old(store.posts) && q != id ==> store.posts[q] == old(store.posts)[q]
    ensures var before, after := old(store.posts)[id], store.posts[id];
      && after.title == input.title.GetOr(before.title)
      && after.content == input.content.GetOr(before.content)
      && after.updatedAt == now
      && (before.slug != "" ==> after.slug == before.slug)
      && (before.slug == "" ==> FirstFreeSlug(after.slug, env.slugify(after.title), OtherSlugs(old(store.posts), Some(id))))
      && after == before.(title := after.title, content := after.content, updatedAt := now, slug := after.slug)
    ensures input.images.None? ==> store.images == old(store.images)
    ensures input.images.Some? ==>
      store.images == ImagesNotOf(old(store.images), id) + NewImages(id, input.images.value, old(store.nextImageId))
    ensures store.comments == old(store.comments)
  {
    var title := input.title.GetOr(store.posts[id].title);
    var content := input.content.GetOr(store.posts[id].content);
    store.Update(env, id, title, content, now);
    if input.images.Some? {
      store.DeleteImagesOf(id);
      AddImages(store, id, input.images.value);
    }
  }

  /** Filtering the images of one post out of a concatenation filters each
      part. */
  lemma {:induction false} ImagesOfAppend(a: seq<PostImage>, b: seq<PostImage>, post: PostId)
    ensures ImagesOf(a + b, post) == ImagesOf(a, post) + ImagesOf(b, post)
  {
    if a != [] {
      assert (a + b)[0] == a[0] && (a + b)[1..] == a[1..] + b;
      ImagesOfAppend(a[1..], b, post);
    } else {
      assert a + b == b;
    }
  }

  /** The rows written for one post's uploads are all that post's. */
  lemma {:induction false} ImagesOfNew(post: PostId, other: PostId, files: seq<string>, firstId: nat)
    ensures ImagesOf(NewImages(post, files, firstId), post) == NewImages(post, files, firstId)
    ensures other != post ==> ImagesOf(NewImages(post, files, firstId), other) == []
    decreases |files|
  {
    if files != [] {
      var r := NewImages(post, files, firstId);
      var tail := NewImages(post, files[1..], firstId + 1);
      assert r == [r[0]] + tail;
      ImagesOfNew(post, other, files[1..], firstId + 1);
      ImagesOfAppend([r[0]], tail, post);
      ImagesOfAppend([r[0]], tail, other);
    }
  }

  /** Filtering out a post's images leaves none of them. */
  lemma {:induction false} ImagesOfWithout(images: seq<PostImage>, post: PostId, other: PostId)
    ensures ImagesOf(ImagesNotOf(images, post), post) == []
    ensures other != post ==> ImagesOf(ImagesNotOf(images, post), other) == ImagesOf(images, other)
  {
    if images != [] {
      ImagesOfWithout(images[1..], post, other);
      var head := if images[0].post == post then [] else [images[0]];
      ImagesOfAppend(head, ImagesNotOf(images[1..], post), post);
      ImagesOfAppend(head, ImagesNotOf(images[1..], post), other);
    }
  }

  /** After an update that supplies images, the post's images are exactly
      the uploads, and every other post keeps its images. */
  lemma ReplacedImages(images: seq<PostImage>, post: PostId, other: PostId, files: seq<string>, firstId: nat)
    ensures ImagesOf(ImagesNotOf(images, post) + NewImages(post, files, firstId), post)
         == NewImages(post, files, firstId)
    ensures other != post ==>
      ImagesOf(ImagesNotOf(images, post) + NewImages(post, files, firstId), other) == ImagesOf(images, other)
  {
    var kept, added := ImagesNotOf(images, post), NewImages(post, files, firstId);
    ImagesOfAppend(kept, added, post);
    ImagesOfAppend(kept, added, other);
    ImagesOfWithout(images, post, other);
    ImagesOfNew(post, other, files, firstId);
  }

  /** A post that had no images (a new one) ends up with exactly one image
      per upload. */
  lemma CreatedImages(images: seq<PostImage>, post: PostId, files: seq<string>, firstId: nat)
    requires forall m :: m in images ==> m.post != post
    ensures ImagesOf(images + NewImages(post, files, firstId), post) == NewImages(post, files, firstId)
    ensures |ImagesOf(images + NewImages(post, files, firstId), post)| == |files|
  {
    ImagesOfAppend(images, NewImages(post, files, firstId), post);
    ImagesOfNew(post, post, files, firstId);
  }
}
