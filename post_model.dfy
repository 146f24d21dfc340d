/** The Post model: the columns of the posts table, the like and comment rows
    that belong to a post, and the model's own mutators and query scope. */
module PostModel {
  import opened Common

  /** One row of the posts table. Counters are unsigned columns, modelled as
      unbounded naturals; `deleted` is the soft-delete marker. */
  datatype PostRecord = PostRecord(
    id: nat,
    userId: nat,
    categoryId: Option<nat>,
    title: string,
    slug: string,
    excerpt: Option<string>,
    content: string,
    featuredImage: Option<Path>,
    thumbnail: Option<Path>,
    ogImage: Option<Path>,
    readingTime: Option<nat>,
    metaTitle: Option<string>,
    metaDescription: Option<string>,
    canonicalUrl: Option<string>,
    status: Status,
    publishedAt: Option<Timestamp>,
    scheduledAt: Option<Timestamp>,
    viewCount: nat,
    likeCount: nat,
    commentCount: nat,
    allowComments: bool,
    deleted: bool)

  /** How the two timestamps must relate to the status once the status
      reconciler has run: a published post has a publication time and no
      schedule; a scheduled post has a schedule and no publication time; a
      draft or archived post has no schedule. */
  predicate TimestampsAgree(status: Status, publishedAt: Option<Timestamp>, scheduledAt: Option<Timestamp>) {
    match status
    case Published => publishedAt.Some? && scheduledAt.None?
    case Scheduled => scheduledAt.Some? && publishedAt.None?
    case Draft => scheduledAt.None?
    case Archived => scheduledAt.None?
  }

  /** A row of the likes table */
  datatype LikeRow = LikeRow(postId: nat, userId: nat)

  /** A row of the comments table (only the owning post matters here) */
  datatype CommentRow = CommentRow(postId: nat, userId: nat)

  /** `$post->likes()->count()`: the like rows of one post */
  function LikesOf(rows: seq<LikeRow>, postId: nat): (n: nat)
    ensures n <= |rows|
  {
    if rows == [] then 0
    else LikesOf(rows[..|rows| - 1], postId) + (if rows[|rows| - 1].postId == postId then 1 else 0)
  }

  /** The like rows of one (post, user) pair */
  function LikesBy(rows: seq<LikeRow>, postId: nat, userId: nat): (n: nat)
    ensures n <= LikesOf(rows, postId)
  {
    if rows == [] then 0
    else LikesBy(rows[..|rows| - 1], postId, userId) + (if rows[|rows| - 1] == LikeRow(postId, userId) then 1 else 0)
  }

  /** `$post->comments()->count()` */
  function CommentsOf(rows: seq<CommentRow>, postId: nat): (n: nat)
    ensures n <= |rows|
  {
    if rows == [] then 0
    else CommentsOf(rows[..|rows| - 1], postId) + (if rows[|rows| - 1].postId == postId then 1 else 0)
  }

  /** A pair has a like row exactly when its count is positive. */
  lemma {:induction false} LikesByPositive(rows: seq<LikeRow>, postId: nat, userId: nat)
    ensures LikesBy(rows, postId, userId) > 0 <==> LikeRow(postId, userId) in rows
  {
    if rows != [] {
      var init := rows[..|rows| - 1];
      LikesByPositive(init, postId, userId);
      assert rows == init + [rows[|rows| - 1]];
    }
  }

  /** The likes and comments tables, as the like controller and the model's
      relations see them. */
  class Tables {
    var likes: seq<LikeRow>
    var comments: seq<CommentRow>

    constructor (likes: seq<LikeRow>, comments: seq<CommentRow>)
      ensures this.likes == likes && this.comments == comments
    {
      this.likes := likes;
      this.comments := comments;
    }
  }

  /** An Eloquent Post model instance. Like Eloquent, it keeps its columns in
      one attribute record; `tags` is the post's side of the post_tag pivot. */
  class Post {
    var attributes: PostRecord
    var tags: set<nat>

    constructor (attributes: PostRecord, tags: set<nat>)
      ensures this.attributes == attributes && this.tags == tags
    {
      this.attributes := attributes;
      this.tags := tags;
    }

    /** `refreshEngagementCounts`: recount likes and comments from their tables
        and store both counters; nothing else about the post changes, and a
        post whose counters are already in sync is left as it was. */
    method RefreshEngagementCounts(tables: Tables)
      modifies this
      ensures attributes == old(attributes).(likeCount := LikesOf(tables.likes, old(attributes).id),
                                             commentCount := CommentsOf(tables.comments, old(attributes).id))
      ensures tags == old(tags)
      ensures old(attributes).likeCount == LikesOf(tables.likes, old(attributes).id)
              && old(attributes).commentCount == CommentsOf(tables.comments, old(attributes).id)
              ==> attributes == old(attributes)
    {
      var likeCount := LikesOf(tables.likes, attributes.id);
      var commentCount := CommentsOf(tables.comments, attributes.id);
      attributes := attributes.(likeCount := likeCount, commentCount := commentCount);
    }

    /** `incrementViewCounter`: one more view, every other column unchanged */
    method IncrementViewCounter()
      modifies this
      ensures attributes == old(attributes).(viewCount := old(attributes).viewCount + 1)
      ensures tags == old(tags)
    {
      attributes := attributes.(viewCount := attributes.viewCount + 1);
    }
  }

  /** The rows of `posts` that `keep` accepts, in their original order. */
  function Filter(posts: seq<PostRecord>, keep: PostRecord -> bool): (r: seq<PostRecord>)
    ensures |r| <= |posts|
    ensures forall p :: p in r <==> p in posts && keep(p)
  {
    if posts == [] then []
    else if keep(posts[0]) then [posts[0]] + Filter(posts[1..], keep)
    else Filter(posts[1..], keep)
  }

  /** `scopePublished`: exactly the published rows */
  function ScopePublished(posts: seq<PostRecord>): (r: seq<PostRecord>)
    ensures forall p :: p in r <==> p in posts && p.status == Published
  {
    Filter(posts, (p: PostRecord) => p.status == Published)
  }
}
