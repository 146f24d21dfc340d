/** The like controller: a user likes or unlikes a post, and the post's
    cached `like_count` is recounted from the likes table afterwards. */
module LikeController {
  import opened Common
  import opened PostModel

  /** The JSON body and HTTP status of both endpoints */
  datatype LikeResponse = LikeResponse(liked: bool, likesCount: nat, httpStatus: nat)

  /** `$post->likes()->firstOrCreate(['user_id' => $user])`: add the row only
      when the pair has none. */
  function FirstOrCreate(rows: seq<LikeRow>, postId: nat, userId: nat): seq<LikeRow> {
    if LikeRow(postId, userId) in rows then rows else rows + [LikeRow(postId, userId)]
  }

  /** `Like::where('post_id', ..)->where('user_id', ..)->delete()`: drop every
      row of the pair, keeping the others in order. */
  function DeleteLikes(rows: seq<LikeRow>, postId: nat, userId: nat): seq<LikeRow> {
    if rows == [] then []
    else if rows[|rows| - 1] == LikeRow(postId, userId) then DeleteLikes(rows[..|rows| - 1], postId, userId)
    else DeleteLikes(rows[..|rows| - 1], postId, userId) + [rows[|rows| - 1]]
  }

  /** After a like the pair has a row, and exactly one if it had at most one
      before: the like never duplicates. */
  lemma {:induction false} FirstOrCreateLikes(rows: seq<LikeRow>, postId: nat, userId: nat)
    ensures LikeRow(postId, userId) in FirstOrCreate(rows, postId, userId)
    ensures LikesBy(rows, postId, userId) <= 1 ==> LikesBy(FirstOrCreate(rows, postId, userId), postId, userId) == 1
    ensures LikesBy(rows, postId, userId) > 0 ==>
              LikesBy(FirstOrCreate(rows, postId, userId), postId, userId) == LikesBy(rows, postId, userId)
  {
    LikesByPositive(rows, postId, userId);
    var after := FirstOrCreate(rows, postId, userId);
    if LikeRow(postId, userId) !in rows {
      assert after[..|after| - 1] == rows;
    }
  }

  /** Liking twice is liking once. */
  lemma FirstOrCreateIdempotent(rows: seq<LikeRow>, postId: nat, userId: nat)
    ensures FirstOrCreate(FirstOrCreate(rows, postId, userId), postId, userId) == FirstOrCreate(rows, postId, userId)
  {
  }

  /** A like leaves the rows of every other (post, user) pair as they were,
      and adds to the post's count exactly when the pair had no row. */
  lemma {:induction false} FirstOrCreateFrame(rows: seq<LikeRow>, postId: nat, userId: nat, p: nat, u: nat)
    ensures (p, u) != (postId, userId) ==> LikesBy(FirstOrCreate(rows, postId, userId), p, u) == LikesBy(rows, p, u)
    ensures p != postId ==> LikesOf(FirstOrCreate(rows, postId, userId), p) == LikesOf(rows, p)
    ensures LikesOf(FirstOrCreate(rows, postId, userId), postId)
            == LikesOf(rows, postId) + (if LikeRow(postId, userId) in rows then 0 else 1)
  {
    var after := FirstOrCreate(rows, postId, userId);
    if LikeRow(postId, userId) !in rows {
      assert after[..|after| - 1] == rows;
    }
  }

  /** Counting the rows of `rows + [row]` */
  lemma CountsAppend(rows: seq<LikeRow>, row: LikeRow, p: nat, u: nat)
    ensures LikesOf(rows + [row], p) == LikesOf(rows, p) + (if row.postId == p then 1 else 0)
    ensures LikesBy(rows + [row], p, u) == LikesBy(rows, p, u) + (if row == LikeRow(p, u) then 1 else 0)
  {
    assert (rows + [row])[..|rows|] == rows;
  }

  /** After an unlike the pair has no row, and unliking without a like
      changes nothing. */
  lemma {:induction false} DeleteLikesRemovesPair(rows: seq<LikeRow>, postId: nat, userId: nat)
    ensures LikeRow(postId, userId) !in DeleteLikes(rows, postId, userId)
    ensures LikeRow(postId, userId) !in rows ==> DeleteLikes(rows, postId, userId) == rows
  {
    if rows != [] {
      var init := rows[..|rows| - 1];
      DeleteLikesRemovesPair(init, postId, userId);
      assert rows == init + [rows[|rows| - 1]];
    }
  }

  /** An unlike keeps the rows of every other (post, user) pair, so other
      posts keep their like counts, and the post loses exactly the pair's
      rows. */
  lemma {:induction false} DeleteLikesCounts(rows: seq<LikeRow>, postId: nat, userId: nat, p: nat, u: nat)
    ensures (p, u) != (postId, userId) ==> LikesBy(DeleteLikes(rows, postId, userId), p, u) == LikesBy(rows, p, u)
    ensures p != postId ==> LikesOf(DeleteLikes(rows, postId, userId), p) == LikesOf(rows, p)
    ensures LikesOf(DeleteLikes(rows, postId, userId), postId) == LikesOf(rows, postId) - LikesBy(rows, postId, userId)
  {
    if rows != [] {
      var init, last := rows[..|rows| - 1], rows[|rows| - 1];
      DeleteLikesCounts(init, postId, userId, p, u);
      assert rows == init + [last];
      CountsAppend(init, last, p, u);
      CountsAppend(init, last, postId, userId);
      var rest := DeleteLikes(init, postId, userId);
      if last != LikeRow(postId, userId) {
        CountsAppend(rest, last, p, u);
        CountsAppend(rest, last, postId, userId);
      }
    }
  }

  /** `store`: like the post as `userId`, recount and store `like_count`
      quietly, and answer `liked: true` with status 201. The comments table
      and every other column of the post are untouched. */
  method Like(post: Post, tables: Tables, userId: nat) returns (resp: LikeResponse)
    modifies post, tables
    ensures tables.likes == FirstOrCreate(old(tables.likes), old(post.attributes).id, userId)
    ensures tables.comments == old(tables.comments)
    ensures post.attributes == old(post.attributes).(likeCount := LikesOf(tables.likes, old(post.attributes).id))
    ensures post.tags == old(post.tags)
    ensures resp == LikeResponse(true, post.attributes.likeCount, 201)
  {
    var postId := post.attributes.id;
    tables.likes := FirstOrCreate(tables.likes, postId, userId);
    var likeCount := LikesOf(tables.likes, postId);
    post.attributes := post.attributes.(likeCount := likeCount);
    resp := LikeResponse(true, likeCount, 201);
  }

  /** `destroy`: remove the user's like, recount and store `like_count`
      quietly, and answer `liked: false` with status 200. */
  method Unlike(post: Post, tables: Tables, userId: nat) returns (resp: LikeResponse)
    modifies post, tables
    ensures tables.likes == DeleteLikes(old(tables.likes), old(post.attributes).id, userId)
    ensures tables.comments == old(tables.comments)
    ensures post.attributes == old(post.attributes).(likeCount := LikesOf(tables.likes, old(post.attributes).id))
    ensures post.tags == old(post.tags)
    ensures resp == LikeResponse(false, post.attributes.likeCount, 200)
  {
    var postId := post.attributes.id;
    tables.likes := DeleteLikes(tables.likes, postId, userId);
    var likeCount := LikesOf(tables.likes, postId);
    post.attributes := post.attributes.(likeCount := likeCount);
    resp := LikeResponse(false, likeCount, 200);
  }

  /** Liking again changes neither the like rows nor the stored count: running
      the like on the state one like left behind is a no-op. */
  lemma LikeAgainIsNoOp(rows: seq<LikeRow>, post: PostRecord, userId: nat)
    ensures var once := FirstOrCreate(rows, post.id, userId);
            var counted := post.(likeCount := LikesOf(once, post.id));
            && FirstOrCreate(once, post.id, userId) == once
            && counted.(likeCount := LikesOf(FirstOrCreate(once, post.id, userId), post.id)) == counted
  {
  }
}
