/** Posts, their images and comments. Saving a post without a slug derives
    a unique one from the title; deleting a post only marks it deleted. */
module BlogModels {
  import opened Base
  import Text

  datatype Post = Post(
    id: PostId,
    title: string,
    content: string,
    author: UserId,
    createdAt: int,
    updatedAt: int,
    likes: set<UserId>,
    slug: string,
    views: nat,
    isDeleted: bool,
    deletedAt: Option<int>)

  /** An uploaded image; the file itself is an opaque name. */
  datatype PostImage = PostImage(id: nat, post: PostId, image: string)

  datatype Comment = Comment(
    id: nat,
    post: Option<PostId>,
    content: string,
    author: UserId,
    createdAt: int,
    parent: Option<nat>)

  /** The k-th slug tried for a base: the base itself, then `base-1`,
      `base-2`, and so on. */
  function SlugCandidate(base: string, k: nat): (s: string)
    ensures k == 0 ==> s == base
    ensures k > 0 ==> |s| > |base| + 1 && s[..|base|] == base && s[|base|] == '-'
                      && s[|base| + 1..] == Text.NatToString(k)
  {
    if k == 0 then base else base + "-" + Text.NatToString(k)
  }

  /** Different counters give different slugs. */
  lemma SlugCandidatesDistinct(base: string, j: nat, k: nat)
    requires j != k
    ensures SlugCandidate(base, j) != SlugCandidate(base, k)
  {
    if j > 0 && k > 0 {
      Text.DigitsValueOfNatToString(j);
      Text.DigitsValueOfNatToString(k);
    }
  }

  /** The first n candidates. */
  ghost function Candidates(base: string, n: nat): set<string> {
    set k | 0 <= k < n :: SlugCandidate(base, k)
  }

  lemma {:induction false} CandidatesSize(base: string, n: nat)
    ensures |Candidates(base, n)| == n
  {
    if n > 0 {
      CandidatesSize(base, n - 1);
      assert Candidates(base, n) == Candidates(base, n - 1) + {SlugCandidate(base, n - 1)};
      forall k | 0 <= k < n - 1 ensures SlugCandidate(base, k) != SlugCandidate(base, n - 1) {
        SlugCandidatesDistinct(base, k, n - 1);
      }
    }
  }

  /** The slug search of `Post.save`: try the candidates in order while
      another post has the one in hand. It returns the first free candidate
      and its counter, which never exceeds the number of slugs taken. */
  method UniqueSlug(base: string, taken: set<string>) returns (slug: string, counter: nat)
    ensures slug == SlugCandidate(base, counter) && slug !in taken
    ensures forall k :: 0 <= k < counter ==> SlugCandidate(base, k) in taken
    ensures counter <= |taken|
  {
    slug := base;
    counter := 0;
    while slug in taken
      invariant slug == SlugCandidate(base, counter)
      invariant Candidates(base, counter) <= taken
      invariant counter <= |taken|
      decreases |taken| - counter
    {
      assert Candidates(base, counter + 1) == Candidates(base, counter) + {slug};
      CandidatesSize(base, counter + 1);
      assert Candidates(base, counter + 1) <= taken;
      assert |Candidates(base, counter + 1)| <= |taken| by {
        SubsetSize(Candidates(base, counter + 1), taken);
      }
      counter := counter + 1;
      slug := base + "-" + Text.NatToString(counter);
    }
    forall k | 0 <= k < counter ensures SlugCandidate(base, k) in taken {
      assert SlugCandidate(base, k) in Candidates(base, counter);
    }
  }

  lemma SubsetSize<T>(a: set<T>, b: set<T>)
    requires a <= b
    ensures |a| <= |b|
  {
    assert b == a + (b - a);
  }

  /** The slugs of every post other than `self`, deleted ones included. */
  function OtherSlugs(posts: map<PostId, Post>, self: Option<PostId>): (r: set<string>)
    ensures forall p :: p in posts && Some(p) != self ==> posts[p].slug in r
    ensures forall s :: s in r ==> exists p :: p in posts && Some(p) != self && posts[p].slug == s
  {
    set p | p in posts && Some(p) != self :: posts[p].slug
  }

  /** `slug` is what the search of `Post.save` finds for `base` among the
      `taken` slugs: a free candidate whose every predecessor is taken. */
  ghost predicate FirstFreeSlug(slug: string, base: string, taken: set<string>) {
    && slug !in taken
    && exists k :: 0 <= k <= |taken| && slug == SlugCandidate(base, k)
                   && forall j :: 0 <= j < k ==> SlugCandidate(base, j) in taken
  }

  /** The search has one answer: two first free candidates are the same. */
  lemma FirstFreeSlugUnique(s1: string, s2: string, base: string, taken: set<string>)
    requires FirstFreeSlug(s1, base, taken) && FirstFreeSlug(s2, base, taken)
    ensures s1 == s2
  {
    var k1 :| 0 <= k1 <= |taken| && s1 == SlugCandidate(base, k1)
              && forall j :: 0 <= j < k1 ==> SlugCandidate(base, j) in taken;
    var k2 :| 0 <= k2 <= |taken| && s2 == SlugCandidate(base, k2)
              && forall j :: 0 <= j < k2 ==> SlugCandidate(base, j) in taken;
    assert k1 == k2;
  }

  /** No two posts share a slug. */
  ghost predicate UniqueSlugs(posts: map<PostId, Post>) {
    forall a, b :: a in posts && b in posts && a != b ==> posts[a].slug != posts[b].slug
  }

  /** The post tables. */
  class BlogStore {
    var posts: map<PostId, Post>
    var nextPostId: nat
    var images: seq<PostImage>
    var nextImageId: nat
    var comments: seq<Comment>
    var nextCommentId: nat

    ghost predicate Valid()
      reads this
    {
      && 0 < nextPostId
      && (forall p :: p in posts ==> posts[p].id == p && 0 < p < nextPostId)
      && UniqueSlugs(posts)
      && (forall i :: 0 <= i < |images| ==> images[i].post in posts && images[i].id < nextImageId)
      && (forall i :: 0 <= i < |comments| ==> comments[i].id < nextCommentId)
      && (forall i, j :: 0 <= i < j < |comments| ==> comments[i].id < comments[j].id)
    }

    constructor ()
      ensures Valid() && posts == map[] && images == [] && comments == []
    {
      posts := map[];
      nextPostId := 1;
      images := [];
      nextImageId := 1;
      comments := [];
      nextCommentId := 1;
    }

    /** The part of `save` before the row is written: a post with a slug
        keeps it; one without gets the first candidate for
        `slugify(title)` that no other post holds. */
    method FillSlug(env: Env, p: Post, self: Option<PostId>) returns (slug: string)
      ensures p.slug != "" ==> slug == p.slug
      ensures p.slug == "" ==>
        FirstFreeSlug(slug, env.slugify(p.title), OtherSlugs(posts, self))
    {
      if p.slug != "" {
        return p.slug;
      }
      var counter;
      slug, counter := UniqueSlug(env.slugify(p.title), OtherSlugs(posts, self));
    }

    /** `Post.objects.create(title=..., content=..., author=...)`: a new row
        with the defaults, a unique slug and both time stamps set to now. */
    method Insert(env: Env, title: string, content: string, author: UserId, now: int) returns (id: PostId)
      requires Valid()
      modifies this
      ensures Valid()
      ensures id !in old(posts) && posts.Keys == old(posts).Keys + {id}
      ensures forall q :: q in old(posts) ==> posts[q] == old(posts)[q]
      ensures var p := posts[id];
        && p.title == title && p.content == content && p.author == author
        && p.createdAt == now && p.updatedAt == now && p.likes == {} && p.views == 0
        && !p.isDeleted && p.deletedAt.None?
        && FirstFreeSlug(p.slug, env.slugify(title), OtherSlugs(old(posts), None))
      ensures images == old(images) && comments == old(comments)
      ensures nextImageId == old(nextImageId) && nextCommentId == old(nextCommentId)
    {
      var draft := Post(0, title, content, author, now, now, {}, "", 0, false, None);
      var slug := FillSlug(env, draft, None);
      id := nextPostId;
      posts := posts[id := draft.(id := id, slug := slug)];
      nextPostId := nextPostId + 1;
    }

    /** `instance.save()` for a stored post after its title and content were
        set: the slug is kept, or filled if it is empty, and `updated_at`
        becomes now. */
    method Update(env: Env, id: PostId, title: string, content: string, now: int)
      requires Valid() && id in posts
      modifies this
      ensures Valid()
      ensures posts.Keys == old(posts).Keys
      ensures forall q :: q in old(posts) && q != id ==> posts[q] == old(posts)[q]
      ensures var before := old(posts)[id];
        && posts[id] == before.(title := title, content := content, updatedAt := now, slug := posts[id].slug)
        && (before.slug != "" ==> posts[id].slug == before.slug)
        && posts[id].slug !in OtherSlugs(old(posts), Some(id))
        && (before.slug == "" ==> FirstFreeSlug(posts[id].slug, env.slugify(title), OtherSlugs(old(posts), Some(id))))
      ensures images == old(images) && comments == old(comments)
      ensures nextImageId == old(nextImageId) && nextCommentId == old(nextCommentId) && nextPostId == old(nextPostId)
    {
      var p := posts[id].(title := title, content := content, updatedAt := now);
      var slug := FillSlug(env, p, Some(id));
      posts := posts[id := p.(slug := slug)];
    }

    /** `Post.delete`: the row stays; it is marked deleted with the time.
        Only those two columns are written. */
    method Delete(id: PostId, now: int)
      requires Valid() && id in posts
      modifies this
      ensures Valid()
      ensures posts == old(posts)[id := old(posts)[id].(isDeleted := true, deletedAt := Some(now))]
      ensures images == old(images) && comments == old(comments)
      ensures nextImageId == old(nextImageId) && nextCommentId == old(nextCommentId) && nextPostId == old(nextPostId)
    {
      posts := posts[id := posts[id].(isDeleted := true, deletedAt := Some(now))];
    }

    /** `PostImage.objects.create(post=..., image=...)`. */
    method AddImage(post: PostId, image: string)
      requires Valid() && post in posts
      modifies this
      ensures Valid()
      ensures images == old(images) + [PostImage(old(nextImageId), post, image)]
      ensures nextImageId == old(nextImageId) + 1
      ensures posts == old(posts) && comments == old(comments)
      ensures nextCommentId == old(nextCommentId) && nextPostId == old(nextPostId)
    {
      images := images + [PostImage(nextImageId, post, image)];
      nextImageId := nextImageId + 1;
    }

    /** `instance.images.all().delete()`. */
    method DeleteImagesOf(post: PostId)
      requires Valid()
      modifies this
      ensures Valid()
      ensures images == ImagesNotOf(old(images), post)
      ensures posts == old(posts) && comments == old(comments)
      ensures nextImageId == old(nextImageId) && nextCommentId == old(nextCommentId) && nextPostId == old(nextPostId)
    {
      images := ImagesNotOf(images, post);
    }

    /** `Comment.objects.create(...)` / `serializer.save(author=...)`. */
    method AddComment(post: PostId, content: string, author: UserId, parent: Option<nat>, now: int)
      returns (c: Comment)
      requires Valid()
      modifies this
      ensures Valid()
      ensures c == Comment(old(nextCommentId), Some(post), content, author, now, parent)
      ensures comments == old(comments) + [c] && nextCommentId == old(nextCommentId) + 1
      ensures posts == old(posts) && images == old(images)
      ensures nextImageId == old(nextImageId) && nextPostId == old(nextPostId)
    {
      c := Comment(nextCommentId, Some(post), content, author, now, parent);
      comments := comments + [c];
      nextCommentId := nextCommentId + 1;
    }
  }

  /** The images of every other post, in order. */
  function ImagesNotOf(images: seq<PostImage>, post: PostId): (r: seq<PostImage>)
    ensures forall m :: m in r <==> m in images && m.post != post
    ensures |r| <= |images|
  {
    if images == [] then []
    else
      assert images == [images[0]] + images[1..];
      (if images[0].post == post then [] else [images[0]]) + ImagesNotOf(images[1..], post)
  }

  /** The images of one post, in order. */
  function ImagesOf(images: seq<PostImage>, post: PostId): (r: seq<PostImage>)
    ensures forall m :: m in r <==> m in images && m.post == post
    ensures |r| <= |images|
  {
    if images == [] then []
    else
      assert images == [images[0]] + images[1..];
      (if images[0].post == post then [images[0]] else []) + ImagesOf(images[1..], post)
  }
}
