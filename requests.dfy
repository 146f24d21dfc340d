/** The validated data of the create and update requests. Each key is Absent,
    Null or a Value; for the three image keys a Value is the path the disk gave
    the uploaded file. The form requests' rules appear only as the
    preconditions below. */
module Requests {
  import opened Common
  import opened PostModel

  datatype Payload = Payload(
    title: Field<string>,
    slug: Field<string>,
    excerpt: Field<string>,
    content: Field<string>,
    readingTime: Field<nat>,
    status: Field<Status>,
    featuredImage: Field<Path>,
    thumbnail: Field<Path>,
    ogImage: Field<Path>,
    metaTitle: Field<string>,
    metaDescription: Field<string>,
    canonicalUrl: Field<string>,
    publishedAt: Field<Timestamp>,
    scheduledAt: Field<Timestamp>,
    categoryId: Field<nat>,
    tags: Field<seq<nat>>,
    allowComments: Field<bool>)

  /** `reading_time` is an integer in 1..1440 when given */
  predicate ReadingTimeInRange(f: Field<nat>) {
    f.Value? ==> 1 <= f.v <= 1440
  }

  /** Some row of the table, other than the post `ignoreId` names, holds `slug`
      (the database `unique` rule: soft-deleted rows count). */
  predicate SlugTakenInTable(table: seq<PostRecord>, slug: string, ignoreId: Option<nat>) {
    exists i :: 0 <= i < |table| && table[i].slug == slug && Some(table[i].id) != ignoreId
  }

  /** The rules of the create request that the controller relies on */
  predicate ValidStore(d: Payload, table: seq<PostRecord>) {
    && d.title.Value?
    && d.content.Value?
    && d.allowComments != Null
    && ReadingTimeInRange(d.readingTime)
    && (d.slug.Value? ==> !SlugTakenInTable(table, d.slug.v, None))
  }

  /** The rules of the update request that the controller relies on: the
      non-nullable columns are never sent as null, and a given slug is free
      apart from the post's own row. */
  predicate ValidUpdate(d: Payload, table: seq<PostRecord>, postId: nat) {
    && d.title != Null
    && d.content != Null
    && d.status != Null
    && d.allowComments != Null
    && ReadingTimeInRange(d.readingTime)
    && (d.slug.Value? ==> !SlugTakenInTable(table, d.slug.v, Some(postId)))
  }
}
