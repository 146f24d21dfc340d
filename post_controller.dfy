/** The post controller: listing, reading, creating and updating posts. */
module PostController {
  import opened Common
  import opened PostModel
  import opened Requests
  import opened Slugs
  import opened StatusTimestamps
  import opened Storage

  // ---------------------------------------------------------------- index

  /** The status restriction of `index`: a caller who is not an admin sees
      only published posts, whatever they ask for; an admin's filter is one of
      the four statuses, `all` (no restriction) or, when PHP reads it as false,
      nothing; any other filter is a validation error on `status`. */
  function StatusRestriction(isAdmin: bool, status: Option<string>): (r: Result<Option<Status>, Error>)
    ensures !isAdmin ==> r == Success(Some(Published))
    ensures isAdmin && (status.None? || Falsy(status.value) || status.value == "all") ==> r == Success(None)
    ensures isAdmin && status.Some? && ParseStatus(status.value).Some? ==> r == Success(ParseStatus(status.value))
    ensures r.Failure? <==> isAdmin && status.Some? && !Falsy(status.value) && status.value != "all"
                            && ParseStatus(status.value).None?
    ensures r.Failure? ==> r.error == ValidationError("status")
  {
    if !isAdmin then Success(Some(Published))
    else if status.None? || Falsy(status.value) || status.value == "all" then Success(None)
    else match ParseStatus(status.value)
      case Some(s) => Success(Some(s))
      case None => Failure(ValidationError("status"))
  }

  /** `(int) min($request->integer('per_page', 10) ?: 10, 100)` as written */
  function PerPageAsWritten(requested: Option<int>): (n: int)
    ensures n <= 100
    ensures requested.None? || requested.value == 0 ==> n == 10
  {
    var n := if requested.None? || requested.value == 0 then 10 else requested.value;
    if n < 100 then n else 100
  }

  /** As written, a negative `per_page` passes through the clamp. */
  lemma PerPageAsWrittenNegative()
    ensures PerPageAsWritten(Some(-1)) == -1
  {
  }

  /** The page size, with every request below 1 read like a missing one: an
      absent or zero request gives the default 10, and the size never exceeds
      100 or falls below 1. */
  function PerPage(requested: Option<int>): (n: int)
    ensures 1 <= n <= 100
    ensures requested.None? || requested.value < 1 ==> n == 10
    ensures requested.Some? && 1 <= requested.value <= 100 ==> n == requested.value
    ensures requested.Some? && 100 < requested.value ==> n == 100
  {
    var n := if requested.None? || requested.value < 1 then 10 else requested.value;
    if n < 100 then n else 100
  }

  /** The filters `index` applies to the live posts: the status restriction
      and the author and category ids (an id PHP reads as false, 0, does not
      filter). */
  predicate Listed(p: PostRecord, restriction: Option<Status>, authorId: int, categoryId: int) {
    && !p.deleted
    && (restriction.Some? ==> p.status == restriction.value)
    && (authorId != 0 ==> p.userId == authorId)
    && (categoryId != 0 ==> p.categoryId == Some(categoryId))
  }

  datatype Page = Page(posts: seq<PostRecord>, perPage: int)

  /** `index`, without search, tag filter, ordering and pagination: the posts
      the query can return, and the page size. */
  function Index(posts: seq<PostRecord>, isAdmin: bool, status: Option<string>,
                 authorId: int, categoryId: int, perPage: Option<int>): (r: Result<Page, Error>)
    ensures r.Failure? <==> StatusRestriction(isAdmin, status).Failure?
    ensures r.Success? ==> r.value.perPage == PerPage(perPage) && 1 <= r.value.perPage <= 100
    ensures r.Success? ==> forall p :: p in r.value.posts <==>
              p in posts && Listed(p, StatusRestriction(isAdmin, status).value, authorId, categoryId)
    ensures r.Success? && !isAdmin ==> forall p :: p in r.value.posts ==> p.status == Published && !p.deleted
  {
    match StatusRestriction(isAdmin, status)
    case Failure(e) => Failure(e)
    case Success(restriction) =>
      Success(Page(Filter(posts, (p: PostRecord) => Listed(p, restriction, authorId, categoryId)), PerPage(perPage)))
  }

  // ---------------------------------------------------------------- show

  /** `show`: a post that is not published is a 404 for callers who are not
      admins; reading a published post counts one view; nothing else changes. */
  method Show(post: Post, isAdmin: bool) returns (r: Result<PostRecord, Error>)
    requires !post.attributes.deleted
    modifies post
    ensures r.Failure? <==> old(post.attributes).status != Published && !isAdmin
    ensures r.Failure? ==> r.error == NotFound
    ensures r.Success? ==> r.value == post.attributes
    ensures old(post.attributes).status == Published ==>
              r.Success? && post.attributes == old(post.attributes).(viewCount := old(post.attributes).viewCount + 1)
    ensures old(post.attributes).status != Published ==> post.attributes == old(post.attributes)
    ensures post.tags == old(post.tags)
  {
    if post.attributes.status != Published && !isAdmin {
      return Failure(NotFound);
    }
    if post.attributes.status == Published {
      post.IncrementViewCounter();
    }
    r := Success(post.attributes);
  }

  // ---------------------------------------------------------------- destroy

  /** `destroy`: a soft delete. The row stays, with its slug and its image
      paths; the stored files are not removed. */
  method Destroy(post: Post)
    modifies post
    ensures post.attributes == old(post.attributes).(deleted := true)
    ensures post.tags == old(post.tags)
  {
    post.attributes := post.attributes.(deleted := true);
  }

  /** A soft-deleted post no longer holds its slug for the allocator, but the
      database's unique index, which also covers deleted rows, still does. */
  lemma SoftDeletedSlugStillTaken(p: PostRecord)
    ensures !SlugExists([p.(deleted := true)], p.slug, None)
    ensures SlugTakenInTable([p.(deleted := true)], p.slug, None)
  {
    assert [p.(deleted := true)][0].slug == p.slug;
  }

  /** A soft-deleted post is never listed. */
  lemma DestroyedPostNotListed(p: PostRecord, restriction: Option<Status>, authorId: int, categoryId: int)
    ensures !Listed(p.(deleted := true), restriction, authorId, categoryId)
  {
  }

  // ---------------------------------------------------------------- reading time

  /** `estimateReadingTime`: `max(1, ceil(words / 200))` minutes, i.e. the
      fewest whole minutes (at least one) that cover the words at 200 words a
      minute. */
  function EstimateReadingTime(words: nat): (minutes: nat)
    ensures 1 <= minutes
    ensures words <= 200 * minutes
    ensures 1 < minutes ==> 200 * (minutes - 1) < words
    ensures words <= 200 ==> minutes == 1
  {
    var rounded := (words + 199) / 200;
    if rounded < 1 then 1 else rounded
  }

  /** More words never read faster. */
  lemma EstimateReadingTimeMonotone(a: nat, b: nat)
    requires a <= b
    ensures EstimateReadingTime(a) <= EstimateReadingTime(b)
  {
  }

  /** `empty($data['reading_time'])` */
  predicate EmptyReadingTime(f: Field<nat>) {
    f.Absent? || f.Null? || f == Value(0)
  }

  // ---------------------------------------------------------------- fill

  /** A non-nullable column: a present key overwrites it */
  function Put<T>(current: T, f: Field<T>): T
    requires f != Null
  {
    if f.Value? then f.v else current
  }

  /** A nullable column: a present key overwrites it, null included */
  function PutNullable<T>(current: Option<T>, f: Field<T>): Option<T> {
    if f.Present() then f.AsOption() else current
  }

  /** `$post->fill($data)`: every present key of the payload overwrites its
      column; tags are not a column. */
  function Fill(p: PostRecord, d: Payload): PostRecord
    requires d.title != Null && d.slug != Null && d.content != Null && d.status != Null && d.allowComments != Null
  {
    p.(title := Put(p.title, d.title),
       slug := Put(p.slug, d.slug),
       excerpt := PutNullable(p.excerpt, d.excerpt),
       content := Put(p.content, d.content),
       readingTime := PutNullable(p.readingTime, d.readingTime),
       status := Put(p.status, d.status),
       featuredImage := PutNullable(p.featuredImage, d.featuredImage),
       thumbnail := PutNullable(p.thumbnail, d.thumbnail),
       ogImage := PutNullable(p.ogImage, d.ogImage),
       metaTitle := PutNullable(p.metaTitle, d.metaTitle),
       metaDescription := PutNullable(p.metaDescription, d.metaDescription),
       canonicalUrl := PutNullable(p.canonicalUrl, d.canonicalUrl),
       publishedAt := PutNullable(p.publishedAt, d.publishedAt),
       scheduledAt := PutNullable(p.scheduledAt, d.scheduledAt),
       categoryId := PutNullable(p.categoryId, d.categoryId),
       allowComments := Put(p.allowComments, d.allowComments))
  }

  /** The columns the controller copies from the payload without rules of its
      own: a present key sets the column, an absent key leaves `before`'s. */
  predicate PlainColumnsFilled(before: PostRecord, d: Payload, after: PostRecord)
    requires d.title != Null && d.content != Null && d.allowComments != Null
  {
    && after.title == Put(before.title, d.title)
    && after.content == Put(before.content, d.content)
    && after.allowComments == Put(before.allowComments, d.allowComments)
    && after.excerpt == PutNullable(before.excerpt, d.excerpt)
    && after.metaTitle == PutNullable(before.metaTitle, d.metaTitle)
    && after.metaDescription == PutNullable(before.metaDescription, d.metaDescription)
    && after.canonicalUrl == PutNullable(before.canonicalUrl, d.canonicalUrl)
    && after.categoryId == PutNullable(before.categoryId, d.categoryId)
  }

  /** Columns no request writes */
  predicate SameIdentityAndCounters(before: PostRecord, after: PostRecord) {
    && after.id == before.id
    && after.userId == before.userId
    && after.viewCount == before.viewCount
    && after.likeCount == before.likeCount
    && after.commentCount == before.commentCount
    && after.deleted == before.deleted
  }

  /** `$post->tags()->sync($ids)`: the pivot holds exactly these ids */
  function TagSet(ids: seq<nat>): (tags: set<nat>)
    ensures forall t :: t in tags <==> t in ids
  {
    set t | t in ids
  }

  // ---------------------------------------------------------------- images

  /** The image column after a request: an upload sets it to the new path, an
      explicit null clears it, and an absent key leaves it alone. */
  predicate ImageUpdated(before: Option<Path>, input: Field<Path>, after: Option<Path>) {
    match input
    case Absent => after == before
    case Null => after == None
    case Value(path) => after == Some(path)
  }

  function PathsOf(p: Option<Path>): set<Path> {
    if p.Some? then {p.value} else {}
  }

  /** The path one image key uploads */
  function UploadOf(input: Field<Path>): set<Path> {
    if input.Value? then {input.v} else {}
  }

  /** The stored file one image key replaces: the current one, whenever the
      key is mentioned, with an upload or a null */
  function ReplacedBy(current: Option<Path>, input: Field<Path>): set<Path> {
    if input.Present() then PathsOf(current) else {}
  }

  /** The paths this request uploads */
  function Uploads(d: Payload): set<Path> {
    UploadOf(d.featuredImage) + UploadOf(d.thumbnail) + UploadOf(d.ogImage)
  }

  /** The stored paths of `p` whose key the request mentions: these files are
      deleted, whether the key brings an upload or a null. */
  function Replaced(p: PostRecord, d: Payload): set<Path> {
    ReplacedBy(p.featuredImage, d.featuredImage) + ReplacedBy(p.thumbnail, d.thumbnail)
    + ReplacedBy(p.ogImage, d.ogImage)
  }

  /** Three add-then-remove steps whose additions avoid every removal add and
      remove all at once. */
  lemma ReplaceSteps(f: set<Path>, u1: set<Path>, u2: set<Path>, u3: set<Path>,
                     r1: set<Path>, r2: set<Path>, r3: set<Path>)
    requires (u1 + u2 + u3) !! (r1 + r2 + r3)
    ensures (((f + u1) - r1 + u2) - r2 + u3) - r3 == (f + u1 + u2 + u3) - (r1 + r2 + r3)
  {
  }

  function ImagePaths(p: PostRecord): set<Path> {
    PathsOf(p.featuredImage) + PathsOf(p.thumbnail) + PathsOf(p.ogImage)
  }

  /** The disk names every upload afresh: an uploaded path is new to the disk,
      differs from the post's current paths and from the other uploads. */
  predicate FreshUploads(d: Payload, before: PostRecord, files: set<Path>) {
    && Uploads(d) !! files
    && Uploads(d) !! ImagePaths(before)
    && (d.featuredImage.Value? && d.thumbnail.Value? ==> d.featuredImage.v != d.thumbnail.v)
    && (d.featuredImage.Value? && d.ogImage.Value? ==> d.featuredImage.v != d.ogImage.v)
    && (d.thumbnail.Value? && d.ogImage.Value? ==> d.thumbnail.v != d.ogImage.v)
  }

  /** Every image path of the post names a file on the disk, and no two of
      its image columns share a file. */
  predicate ImagesStored(p: PostRecord, files: set<Path>) {
    && ImagePaths(p) <= files
    && (p.featuredImage.Some? && p.thumbnail.Some? ==> p.featuredImage != p.thumbnail)
    && (p.featuredImage.Some? && p.ogImage.Some? ==> p.featuredImage != p.ogImage)
    && (p.thumbnail.Some? && p.ogImage.Some? ==> p.thumbnail != p.ogImage)
  }

  /** An update that stores its uploads, deletes the replaced files and writes
      the image columns by the rules keeps every image of the post on the disk. */
  lemma ImageUpdateKeepsImagesStored(before: PostRecord, d: Payload, files: set<Path>, after: PostRecord)
    requires FreshUploads(d, before, files)
    requires ImageUpdated(before.featuredImage, d.featuredImage, after.featuredImage)
    requires ImageUpdated(before.thumbnail, d.thumbnail, after.thumbnail)
    requires ImageUpdated(before.ogImage, d.ogImage, after.ogImage)
    ensures ImagesStored(before, files) ==> ImagesStored(after, (files + Uploads(d)) - Replaced(before, d))
  {
  }

  /** One image key of `update`: store the upload and delete the file it
      replaces, or delete the file an explicit null clears; an absent key
      touches nothing. Returns the key's new payload value. */
  method ReplaceImage(disk: Disk, current: Option<Path>, input: Field<Path>) returns (value: Field<Path>)
    modifies disk
    ensures value == input
    ensures disk.files == (old(disk.files) + UploadOf(input)) - ReplacedBy(current, input)
    ensures input.Value? ==> disk.files == (old(disk.files) + {input.v}) - PathsOf(current)
    ensures input.Null? ==> disk.files == old(disk.files) - PathsOf(current)
    ensures input.Absent? ==> disk.files == old(disk.files)
  {
    value := input;
    if input.Value? {
      disk.Put(input.v);
      if current.Some? {
        disk.Delete(current.value);
      }
    } else if input.Null? {
      if current.Some? {
        disk.Delete(current.value);
      }
    }
  }

  /** The three image keys of `update`, one after the other. The steps of
      `update` before this one leave the request's image keys as they are, so
      the keys are read from the request itself. */
  method ReplaceImages(disk: Disk, before: PostRecord, d: Payload)
    requires FreshUploads(d, before, disk.files)
    modifies disk
    ensures disk.files == (old(disk.files) + Uploads(d)) - Replaced(before, d)
  {
    ReplaceSteps(disk.files, UploadOf(d.featuredImage), UploadOf(d.thumbnail), UploadOf(d.ogImage),
                 ReplacedBy(before.featuredImage, d.featuredImage), ReplacedBy(before.thumbnail, d.thumbnail),
                 ReplacedBy(before.ogImage, d.ogImage));
    var _ := ReplaceImage(disk, before.featuredImage, d.featuredImage);
    var _ := ReplaceImage(disk, before.thumbnail, d.thumbnail);
    var _ := ReplaceImage(disk, before.ogImage, d.ogImage);
  }

  // ---------------------------------------------------------------- store

  /** The row `Post::create` starts from: the columns' defaults */
  function NewRecord(id: nat, userId: nat): (p: PostRecord)
    ensures p.status == Draft && p.allowComments && !p.deleted
    ensures p.viewCount == 0 && p.likeCount == 0 && p.commentCount == 0
  {
    PostRecord(id, userId, None, "", "", None, "", None, None, None, None, None, None, None,
               Draft, None, None, 0, 0, 0, true, false)
  }

  /** What a successful create puts in the new row */
  ghost predicate StoredColumns(table: seq<PostRecord>, d: Payload, userId: nat, newId: nat,
                                slugify: string -> string, token: string, wordCount: string -> nat,
                                now: Timestamp, p: PostRecord)
    requires ValidStore(d, table)
    requires |token| == 8
  {
    && SameIdentityAndCounters(NewRecord(newId, userId), p)
    && PlainColumnsFilled(NewRecord(newId, userId), d, p)
    && (d.slug.Value? ==> p.slug == d.slug.v)
    && (!d.slug.Value? ==> !SlugExists(table, p.slug, None) && BaseSlug(slugify(d.title.v), token) <= p.slug)
    && ImageUpdated(None, d.featuredImage, p.featuredImage)
    && ImageUpdated(None, d.thumbnail, p.thumbnail)
    && ImageUpdated(None, d.ogImage, p.ogImage)
    && p.readingTime == Some(d.readingTime.AsOption().GetOr(EstimateReadingTime(wordCount(d.content.v))))
    && p.status == d.status.AsOption().GetOr(Draft)
    && Reconciled(p.status, d, None, now, p.publishedAt, p.scheduledAt)
    && TimestampsAgree(p.status, p.publishedAt, p.scheduledAt)
  }

  /** The defaults `store` writes into the payload before reconciling:
      status `draft`, comments allowed, and an estimated reading time. */
  function WithStoreDefaults(data: Payload, wordCount: string -> nat): (out: Payload)
    requires data.content.Value?
    ensures out == data.(tags := Absent, status := out.status, allowComments := out.allowComments,
                         readingTime := out.readingTime)
  {
    data.(tags := Absent)
        .(status := Value(data.status.AsOption().GetOr(Draft)))
        .(allowComments := Value(data.allowComments.AsOption().GetOr(true)))
        .(readingTime := Value(data.readingTime.AsOption().GetOr(EstimateReadingTime(wordCount(data.content.v)))))
  }

  /** The payload the create steps produce, filled over the column defaults,
      gives the row `StoredColumns` describes. */
  lemma FillGivesStoredColumns(table: seq<PostRecord>, d: Payload, userId: nat, newId: nat,
                               slugify: string -> string, token: string, wordCount: string -> nat,
                               now: Timestamp, slugged: Payload, out: Payload)
    requires ValidStore(d, table)
    requires |token| == 8
    requires slugged == d.(slug := slugged.slug)
    requires d.slug.Value? ==> slugged.slug == d.slug
    requires !d.slug.Value? ==> slugged.slug.Value? && !SlugExists(table, slugged.slug.v, None)
                                && BaseSlug(slugify(d.title.v), token) <= slugged.slug.v
    requires ReconciledPayload(WithStoreDefaults(slugged, wordCount), None, now, out)
    ensures out.title != Null && out.slug != Null && out.content != Null
    ensures out.status != Null && out.allowComments != Null
    ensures StoredColumns(table, d, userId, newId, slugify, token, wordCount, now, Fill(NewRecord(newId, userId), out))
  {
  }

  /** The uploads of `store`, each stored under its path */
  method StoreUploads(disk: Disk, d: Payload)
    modifies disk
    ensures disk.files == old(disk.files) + Uploads(d)
  {
    if d.featuredImage.Value? {
      disk.Put(d.featuredImage.v);
    }
    if d.thumbnail.Value? {
      disk.Put(d.thumbnail.v);
    }
    if d.ogImage.Value? {
      disk.Put(d.ogImage.v);
    }
  }

  /** `store`: create a post from a validated payload. The uploads are stored
      before the status reconciler can fail, so a failed create leaves them on
      the disk. */
  method Store(table: seq<PostRecord>, d: Payload, userId: nat, newId: nat,
               slugify: string -> string, token: string, wordCount: string -> nat,
               now: Timestamp, disk: Disk)
    returns (r: Result<Post, Error>)
    requires ValidStore(d, table)
    requires |token| == 8
    requires FreshUploads(d, NewRecord(newId, userId), disk.files)
    modifies disk
    ensures disk.files == old(disk.files) + Uploads(d)
    ensures r.Failure? <==> d.status.AsOption().GetOr(Draft) == Scheduled && d.scheduledAt.AsOption().None?
    ensures r.Failure? ==> r.error == ValidationError("scheduled_at")
    ensures r.Success? ==> fresh(r.value)
    ensures r.Success? ==> StoredColumns(table, d, userId, newId, slugify, token, wordCount, now, r.value.attributes)
    ensures r.Success? ==> ImagesStored(r.value.attributes, disk.files)
    ensures r.Success? ==> r.value.tags == TagSet(d.tags.AsOption().GetOr([]))
  {
    var data := d;
    if !data.slug.Value? {
      var slug := MakeUniqueSlug(table, data.title.v, None, slugify, token);
      data := data.(slug := Value(slug));
    }
    var slugged := data;
    StoreUploads(disk, data);
    var tags := data.tags.AsOption().GetOr([]);
    data := WithStoreDefaults(data, wordCount);
    var reconciled := ApplyStatusTimestamps(data, None, now);
    if reconciled.Failure? {
      return Failure(reconciled.error);
    }
    data := reconciled.value;
    FillGivesStoredColumns(table, d, userId, newId, slugify, token, wordCount, now, slugged, data);
    var post := new Post(Fill(NewRecord(newId, userId), data), TagSet(tags));
    r := Success(post);
  }

  // ---------------------------------------------------------------- update

  /** The payload after the slug and reading-time rules of `update`: a
      mentioned slug that PHP reads as false is replaced by a fresh one made
      from the new title, else the old one, ignoring the post's own row; a
      reading time is estimated only when the content is sent and the reading
      time is empty. */
  ghost predicate Prepared(table: seq<PostRecord>, before: PostRecord, d: Payload,
                           slugify: string -> string, token: string, wordCount: string -> nat, data: Payload)
    requires |token| == 8
    requires d.content != Null
  {
    && data == d.(slug := data.slug, readingTime := data.readingTime)
    && (!d.slug.Present() ==> data.slug == Absent)
    && (d.slug.Value? && !Falsy(d.slug.v) ==> data.slug == d.slug)
    && (d.slug.Present() && (d.slug.Null? || Falsy(d.slug.v)) ==>
          && data.slug.Value?
          && !SlugExists(table, data.slug.v, Some(before.id))
          && BaseSlug(slugify(d.title.AsOption().GetOr(before.title)), token) <= data.slug.v)
    && (d.content.Present() && EmptyReadingTime(d.readingTime) ==>
          data.readingTime == Value(EstimateReadingTime(wordCount(d.content.v))))
    && (!(d.content.Present() && EmptyReadingTime(d.readingTime)) ==> data.readingTime == d.readingTime)
  }

  method PrepareUpdate(table: seq<PostRecord>, before: PostRecord, d: Payload,
                       slugify: string -> string, token: string, wordCount: string -> nat)
    returns (data: Payload)
    requires |token| == 8
    requires d.content != Null
    ensures Prepared(table, before, d, slugify, token, wordCount, data)
    ensures data.featuredImage == d.featuredImage && data.thumbnail == d.thumbnail && data.ogImage == d.ogImage
    ensures data.status == d.status && data.scheduledAt == d.scheduledAt
  {
    data := d;
    if data.slug.Present() {
      if data.slug.Null? || Falsy(data.slug.v) {
        var slug := MakeUniqueSlug(table, data.title.AsOption().GetOr(before.title), Some(before.id), slugify, token);
        data := data.(slug := Value(slug));
      }
    }
    if data.content.Present() && EmptyReadingTime(data.readingTime) {
      data := data.(readingTime := Value(EstimateReadingTime(wordCount(data.content.v))));
    }
  }

  /** What a successful update leaves in the post's columns */
  ghost predicate UpdatedColumns(before: PostRecord, d: Payload, table: seq<PostRecord>,
                                 slugify: string -> string, token: string, wordCount: string -> nat,
                                 now: Timestamp, after: PostRecord)
    requires ValidUpdate(d, table, before.id)
    requires |token| == 8
  {
    && SameIdentityAndCounters(before, after)
    && PlainColumnsFilled(before, d, after)
    && (!d.slug.Present() ==> after.slug == before.slug)
    && (d.slug.Value? && !Falsy(d.slug.v) ==> after.slug == d.slug.v)
    && (d.slug.Present() && (d.slug.Null? || Falsy(d.slug.v)) ==>
          && !SlugExists(table, after.slug, Some(before.id))
          && BaseSlug(slugify(d.title.AsOption().GetOr(before.title)), token) <= after.slug)
    && ImageUpdated(before.featuredImage, d.featuredImage, after.featuredImage)
    && ImageUpdated(before.thumbnail, d.thumbnail, after.thumbnail)
    && ImageUpdated(before.ogImage, d.ogImage, after.ogImage)
    && (d.content.Present() && EmptyReadingTime(d.readingTime) ==>
          after.readingTime == Some(EstimateReadingTime(wordCount(d.content.v))))
    && (!(d.content.Present() && EmptyReadingTime(d.readingTime)) ==>
          after.readingTime == PutNullable(before.readingTime, d.readingTime))
    && after.status == EffectiveStatus(d, Some(before))
    && Reconciled(after.status, d, Some(before), now, after.publishedAt, after.scheduledAt)
    && TimestampsAgree(after.status, after.publishedAt, after.scheduledAt)
  }

  /** The end of `update`: take the tags out of the payload, fill the rest
      into the post, and sync the tags when the request sent them (a null
      list clears them). */
  method Save(post: Post, data: Payload)
    requires data.title != Null && data.slug != Null && data.content != Null
    requires data.status != Null && data.allowComments != Null
    modifies post
    ensures post.attributes == Fill(old(post.attributes), data)
    ensures !data.tags.Present() ==> post.tags == old(post.tags)
    ensures data.tags.Present() ==> post.tags == TagSet(data.tags.AsOption().GetOr([]))
  {
    var fields := data;
    var tags: Option<seq<nat>> := None;
    if fields.tags.Present() {
      tags := Some(fields.tags.AsOption().GetOr([]));
      fields := fields.(tags := Absent);
    }
    post.attributes := Fill(post.attributes, fields);
    if tags.Some? {
      post.tags := TagSet(tags.value);
    }
  }

  /** The payload the update steps produce, filled over the post, gives the
      columns `UpdatedColumns` describes. */
  lemma FillGivesUpdatedColumns(before: PostRecord, d: Payload, table: seq<PostRecord>,
                                slugify: string -> string, token: string, wordCount: string -> nat,
                                now: Timestamp, data: Payload, out: Payload)
    requires ValidUpdate(d, table, before.id)
    requires |token| == 8
    requires Prepared(table, before, d, slugify, token, wordCount, data)
    requires ReconciledPayload(data, Some(before), now, out)
    ensures out.slug != Null
    ensures out.featuredImage == d.featuredImage && out.thumbnail == d.thumbnail && out.ogImage == d.ogImage
    ensures out.tags == d.tags
    ensures UpdatedColumns(before, d, table, slugify, token, wordCount, now, Fill(before, out))
  {
    assert EffectiveStatus(data, Some(before)) == EffectiveStatus(d, Some(before));
  }

  /** The successful end of `update`: fill the reconciled payload into the
      post and sync its tags. */
  method FinishUpdate(post: Post, before: PostRecord, d: Payload, table: seq<PostRecord>,
                      slugify: string -> string, token: string, wordCount: string -> nat,
                      now: Timestamp, prepared: Payload, data: Payload)
    requires post.attributes == before
    requires ValidUpdate(d, table, before.id)
    requires |token| == 8
    requires Prepared(table, before, d, slugify, token, wordCount, prepared)
    requires ReconciledPayload(prepared, Some(before), now, data)
    modifies post
    ensures UpdatedColumns(before, d, table, slugify, token, wordCount, now, post.attributes)
    ensures ImageUpdated(before.featuredImage, d.featuredImage, post.attributes.featuredImage)
    ensures ImageUpdated(before.thumbnail, d.thumbnail, post.attributes.thumbnail)
    ensures ImageUpdated(before.ogImage, d.ogImage, post.attributes.ogImage)
    ensures !d.tags.Present() ==> post.tags == old(post.tags)
    ensures d.tags.Present() ==> post.tags == TagSet(d.tags.AsOption().GetOr([]))
  {
    FillGivesUpdatedColumns(before, d, table, slugify, token, wordCount, now, prepared, data);
    Save(post, data);
  }

  /** `update`: a partial update of a post. It fails, with an error on
      `scheduled_at`, exactly when the post would end up scheduled without a
      schedule, and then changes nothing, on the disk either. Otherwise the
      columns follow the rules of `UpdatedColumns`, the tags are replaced only
      when the request sends them, and every image of the post stays on the
      disk. */
  method Update(post: Post, disk: Disk, table: seq<PostRecord>, d: Payload,
                slugify: string -> string, token: string, wordCount: string -> nat, now: Timestamp)
    returns (r: Result<(), Error>)
    requires ValidUpdate(d, table, post.attributes.id)
    requires |token| == 8
    requires FreshUploads(d, post.attributes, disk.files)
    modifies post, disk
    ensures r.Failure? <==> EffectiveStatus(d, Some(old(post.attributes))) == Scheduled
                            && d.scheduledAt.OrElse(old(post.attributes).scheduledAt).None?
    ensures r.Failure? ==> r.error == ValidationError("scheduled_at")
    ensures r.Failure? ==> post.attributes == old(post.attributes) && post.tags == old(post.tags)
                           && disk.files == old(disk.files)
    ensures r.Success? ==> UpdatedColumns(old(post.attributes), d, table, slugify, token, wordCount, now, post.attributes)
    ensures r.Success? ==> disk.files == (old(disk.files) + Uploads(d)) - Replaced(old(post.attributes), d)
    ensures r.Success? && ImagesStored(old(post.attributes), old(disk.files)) ==> ImagesStored(post.attributes, disk.files)
    ensures r.Success? && !d.tags.Present() ==> post.tags == old(post.tags)
    ensures r.Success? && d.tags.Present() ==> post.tags == TagSet(d.tags.AsOption().GetOr([]))
  {
    var before := post.attributes;
    ghost var files := disk.files;
    var prepared := PrepareUpdate(table, before, d, slugify, token, wordCount);
    var data := prepared;
    var reconciled := ApplyStatusTimestamps(data, Some(before), now);
    if reconciled.Failure? {
      return Failure(reconciled.error);
    }
    data := reconciled.value;
    ReplaceImages(disk, before, d);
    FinishUpdate(post, before, d, table, slugify, token, wordCount, now, prepared, data);
    ImageUpdateKeepsImagesStored(before, d, files, post.attributes);
    r := Success(());
  }

  /** `update` in the order the source runs it: the image files are stored
      and deleted before the status reconciler can fail. A failed update then
      leaves the post untouched while its replaced files are already gone. */
  method UpdateAsWritten(post: Post, disk: Disk, table: seq<PostRecord>, d: Payload,
                         slugify: string -> string, token: string, wordCount: string -> nat, now: Timestamp)
    returns (r: Result<(), Error>)
    requires ValidUpdate(d, table, post.attributes.id)
    requires |token| == 8
    requires FreshUploads(d, post.attributes, disk.files)
    modifies post, disk
    ensures r.Failure? <==> EffectiveStatus(d, Some(old(post.attributes))) == Scheduled
                            && d.scheduledAt.OrElse(old(post.attributes).scheduledAt).None?
    ensures r.Failure? ==> post.attributes == old(post.attributes) && post.tags == old(post.tags)
    ensures disk.files == (old(disk.files) + Uploads(d)) - Replaced(old(post.attributes), d)
    ensures r.Success? ==> UpdatedColumns(old(post.attributes), d, table, slugify, token, wordCount, now, post.attributes)
    ensures r.Success? && !d.tags.Present() ==> post.tags == old(post.tags)
    ensures r.Success? && d.tags.Present() ==> post.tags == TagSet(d.tags.AsOption().GetOr([]))
  {
    var before := post.attributes;
    var prepared := PrepareUpdate(table, before, d, slugify, token, wordCount);
    var data := prepared;
    ReplaceImages(disk, before, d);
    var reconciled := ApplyStatusTimestamps(data, Some(before), now);
    if reconciled.Failure? {
      return Failure(reconciled.error);
    }
    FinishUpdate(post, before, d, table, slugify, token, wordCount, now, prepared, reconciled.value);
    r := Success(());
  }

  /** A draft with a featured image, updated to `scheduled` with a new image
      and no schedule: the as-written update fails, the post still names its
      old image, and that file is no longer on the disk. */
  lemma FailedUpdateLeavesDanglingImage()
    ensures var before := NewRecord(1, 1).(title := "t", slug := "t", content := "c",
                                            featuredImage := Some("posts/old.jpg"));
            var d := Payload(Absent, Absent, Absent, Absent, Absent, Value(Scheduled),
                             Value("posts/new.jpg"), Absent, Absent, Absent, Absent, Absent,
                             Absent, Absent, Absent, Absent, Absent);
            var files: set<Path> := {"posts/old.jpg"};
            && ImagesStored(before, files)
            && FreshUploads(d, before, files)
            && EffectiveStatus(d, Some(before)) == Scheduled
            && d.scheduledAt.OrElse(before.scheduledAt).None?
            && !ImagesStored(before, (files + Uploads(d)) - Replaced(before, d))
  {
    var before := NewRecord(1, 1).(title := "t", slug := "t", content := "c",
                                   featuredImage := Some("posts/old.jpg"));
    var d := Payload(Absent, Absent, Absent, Absent, Absent, Value(Scheduled),
                     Value("posts/new.jpg"), Absent, Absent, Absent, Absent, Absent,
                     Absent, Absent, Absent, Absent, Absent);
    var files: set<Path> := {"posts/old.jpg"};
    assert "posts/old.jpg" != "posts/new.jpg";
    assert (files + Uploads(d)) - Replaced(before, d) == {"posts/new.jpg"};
  }
}
