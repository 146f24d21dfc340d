# Blog post lifecycle — a Dafny model

This project models the post lifecycle of a Laravel blog backend:

- the post controller's status/timestamp reconciler (`applyStatusTimestamps`);
- its slug allocator (`makeUniqueSlug` / `slugExists`);
- its reading-time estimate;
- the merge rules of `store` and `update` for slug, reading time, tags and the three image attachments;
- the visibility, status-filter and page-size rules of `index` and `show`;
- the soft delete of `destroy`;
- the like controller's like/unlike with its `like_count` recount;
- the Post model's `refreshEngagementCounts`, `incrementViewCounter` and `scopePublished`.

Modules follow the program's structure:

- `Common`: option/result types, the three states of a request key (`Absent | Null | Value`), post statuses, and PHP string truthiness.
- `PostModel`: the posts row written as `PostRecord`. The Eloquent model is a `Post` class that, like Eloquent, keeps its columns in one attribute record. This module also holds the like and comment tables and the model's mutators and scope.
- `Storage`: the public disk, reduced to a set of paths.
- `Requests`: the validated payloads and the form-request rules the controller relies on.
- `Slugs`, `StatusTimestamps`, `PostController`, `LikeController`.

The model treats these as parameters:

- the framework helpers `Str::slug` (any function, which may return `""`), `Str::random(8)` (any 8-character token) and `str_word_count(strip_tags(..))` (any word-count function);
- the clock, `Carbon::now`;
- the path the disk hands an upload;
- the authenticated caller's admin flag and id.

The image contracts of `Store` and `Update` assume, through `FreshUploads`, that the disk gives every upload a path that is new to the disk, differs from the post's current image paths and differs from the other uploads of the same request. The framework's random file names are what provide this. With a reused path, deleting the old file would delete the upload just stored.

The reconciler and the slug allocator are imperative methods, the same as the source code.
They are proved against specification predicates: `Reconciled` is the status/timestamp table, and `SlugExists`/`Candidate` give the slug order.
The `Post`, `Tables` and `Disk` classes are updated in place by `update`, `show`, `destroy`, like/unlike and the model's counter methods.

The model follows the code on three points where the code's behaviour is easy to misread:

- For a `draft` post whose payload mentions `published_at`, the code keeps the payload's value (null or a time) unchanged. It does not force null.
- Slug uniqueness in `slugExists` is checked only against non-deleted posts. The `unique` index on `slug` also covers soft-deleted rows (`SoftDeletedSlugStillTaken`).
- `saveQuietly` only suppresses model events. It would still bump `updated_at`, which this model does not represent.

## Model

| member | source | states |
|---|---|---|
| `Common.ParseStatusName` | database/migrations/2025_10_29_105640_create_posts_table.php:29 | each of the four status values stored in the `status` column reads back as that status |
| `Common.ParseStatus` | app/Http/Controllers/Api/PostController.php:28 | only the four column strings parse to a status, and each parses to the status that prints as it |
| `PostModel.LikesOf` | app/Http/Controllers/Api/LikeController.php:20 | `$post->likes()->count()`; its behaviour under a like and an unlike is stated by `FirstOrCreateFrame` and `DeleteLikesCounts` |
| `PostModel.CommentsOf` | app/Models/Post.php:89 | `$post->comments()->count()`; stored as `comment_count` by `RefreshEngagementCounts` |
| `PostModel.LikesByPositive` | app/Http/Controllers/Api/LikeController.php:16-18 | a (post, user) pair has a like row exactly when its row count is positive |
| `PostModel.Post.RefreshEngagementCounts` | app/Models/Post.php:85-91 | `like_count` and `comment_count` become this post's like and comment row counts, every other attribute and the tags are unchanged, and a post already in sync is left exactly as it was |
| `PostModel.Post.IncrementViewCounter` | app/Models/Post.php:93-96 | `view_count` rises by exactly one and every other attribute is unchanged |
| `PostModel.ScopePublished` | app/Models/Post.php:80-83 | a post is in the result if and only if it is in the input and is published |
| `Storage.Disk.Put` | app/Http/Controllers/Api/PostController.php:83 | after storing an upload the disk holds its path as well as every earlier file |
| `Storage.Disk.Delete` | app/Http/Controllers/Api/PostController.php:144 | after a delete the path is gone and every other file is still there |
| `Slugs.Decimal` | app/Http/Controllers/Api/PostController.php:218 | the counter prints as a non-empty string of decimal digits ending in its last digit, one character long exactly below 10 |
| `Slugs.DecimalInjective` | app/Http/Controllers/Api/PostController.php:218 | two counters that print the same are equal |
| `Slugs.CandidateInjective` | app/Http/Controllers/Api/PostController.php:214-219 | distinct attempts of the slug loop produce distinct candidate slugs |
| `Slugs.SlugExists` | app/Http/Controllers/Api/PostController.php:225-230 | `slugExists`: some live post other than the ignored one holds the slug; its properties are stated by `MakeUniqueSlug` (the result is not held) and `SoftDeletedSlugStillTaken` (deleted rows do not count) |
| `Slugs.BaseSlug` | app/Http/Controllers/Api/PostController.php:213 | the base slug is the slugified title, or the random token exactly when the slugified title is `""` or `"0"` |
| `Slugs.SlugStep` | app/Http/Controllers/Api/PostController.php:217-220 | one turn of the slug loop marks a taken, untried candidate as tried, so the tried set grows by one inside the finite set of taken slugs and later candidates stay untried |
| `Slugs.MakeUniqueSlug` | app/Http/Controllers/Api/PostController.php:211-230 | the loop terminates; the returned slug is held by no live post except the ignored one; it extends the base; it is the base when the base is free; and it is the first free one of `base`, `base-1`, `base-2`, ... |
| `StatusTimestamps.EffectiveStatus` | app/Http/Controllers/Api/PostController.php:241 | the payload's status, else the previous post's, else draft; stated as the failure condition and the table of `ApplyStatusTimestamps` and by `Update`'s `after.status` clause in `UpdatedColumns` |
| `StatusTimestamps.ReconciledAgree` | app/Http/Controllers/Api/PostController.php:244-255 | the reconciler's table never leaves a published post without `published_at` and always clears `scheduled_at` for non-scheduled posts |
| `StatusTimestamps.ApplyStatusTimestamps` | app/Http/Controllers/Api/PostController.php:239-262 | the effective status is the payload's, else the previous post's, else draft; it fails with an error on `scheduled_at` exactly when that status is scheduled and neither payload nor previous post gives a schedule; otherwise both timestamp keys hold the table's values (published: payload, else previous, else now; scheduled: no publication time, payload schedule else previous; draft/archived: no schedule, a mentioned `published_at` kept as given, else null for draft and the previous value for archived) and no other key changes |
| `PostController.StatusRestriction` | app/Http/Controllers/Api/PostController.php:23-40 | a non-admin is restricted to published posts; for an admin, no filter, a filter PHP reads as false, or `all` means no restriction; a valid status restricts to it; any other filter is a validation error on `status`, and only then |
| `PostController.PerPageAsWritten` | app/Http/Controllers/Api/PostController.php:66 | as written, the page size is at most 100 and is 10 when absent or zero |
| `PostController.PerPageAsWrittenNegative` | app/Http/Controllers/Api/PostController.php:66 | as written, a `per_page` of -1 yields a page size of -1 |
| `PostController.PerPage` | app/Http/Controllers/Api/PostController.php:66 | the page size is always in 1..100; absent or non-positive requests give 10, requests in 1..100 are kept, larger ones give 100 |
| `PostController.Index` | app/Http/Controllers/Api/PostController.php:18-74 | `index` fails exactly when the status filter is invalid; otherwise a post is listed if and only if it is live and passes the status, author and category filters; the page size is `PerPage` of the request (the corrected clamp), hence 10 when absent or zero and at most 100; a non-admin sees only published, live posts |
| `PostController.Show` | app/Http/Controllers/Api/PostController.php:115-131 | the read fails, with a 404, exactly when the post is not published and the caller is not an admin, so an admin always gets the post; a published post is returned with exactly one more view; a non-published post an admin reads is returned unchanged; tags never change |
| `PostController.Destroy` | app/Http/Controllers/Api/PostController.php:202-209 | the post is marked deleted and nothing else about it changes, images included |
| `PostController.SoftDeletedSlugStillTaken` | app/Http/Controllers/Api/PostController.php:225-230 | the slug of a soft-deleted post is free for the allocator yet still held in the table the unique index covers |
| `PostController.DestroyedPostNotListed` | app/Http/Controllers/Api/PostController.php:18-74 | a soft-deleted post is never listed by `index` |
| `PostController.EstimateReadingTime` | app/Http/Controllers/Api/PostController.php:232-237 | the estimate is the fewest whole minutes, at least one, that cover the words at 200 a minute; up to 200 words give 1 |
| `PostController.EstimateReadingTimeMonotone` | app/Http/Controllers/Api/PostController.php:232-237 | more words never give a shorter estimate |
| `PostController.ImageUpdateKeepsImagesStored` | app/Http/Controllers/Api/PostController.php:141-176 | if the image columns follow the update rules and the disk stores the uploads and deletes the replaced files, every image of the post is still on the disk and no two columns share a file |
| `PostController.ReplaceImage` | app/Http/Controllers/Api/PostController.php:141-150 | an upload is stored and the file it replaces is deleted; an explicit null deletes the current file; an absent key leaves the disk alone; the key's value is the input |
| `PostController.ReplaceSteps` | app/Http/Controllers/Api/PostController.php:141-176 | storing each upload before deleting the file it replaces, key by key, gives the same disk as adding all uploads and removing all replaced files, since no upload is a replaced file |
| `PostController.ReplaceImages` | app/Http/Controllers/Api/PostController.php:141-176 | the disk ends up with the uploads added and exactly the files of mentioned image keys removed |
| `PostController.WithStoreDefaults` | app/Http/Controllers/Api/PostController.php:94-99 | `store` drops the tags and fills only status, comments flag and reading time before reconciling; every other key is untouched |
| `PostController.FillGivesStoredColumns` | app/Http/Controllers/Api/PostController.php:76-104 | the payload built by `store`'s steps, filled over the column defaults, gives the row `StoredColumns` describes |
| `PostController.StoreUploads` | app/Http/Controllers/Api/PostController.php:82-92 | `store` adds exactly its uploads to the disk |
| `PostController.Store` | app/Http/Controllers/Api/PostController.php:76-113 | the uploads are stored whatever happens; creation fails exactly when the post would be scheduled without a schedule; otherwise the new post has the supplied slug or a fresh one from the title, the payload's columns, the default or estimated reading time, reconciled timestamps, all its images on the disk, and exactly the sent tags |
| `PostController.PrepareUpdate` | app/Http/Controllers/Api/PostController.php:137-139 | the slug changes only when the key is sent, and a sent slug PHP reads as false is replaced by a fresh one from the new or old title, ignoring the post's own row; a reading time is estimated only when content is sent and the reading time is empty; no other key changes |
| `PostController.Fill` | app/Http/Controllers/Api/PostController.php:190 | `$post->fill($data)`: a present key overwrites its column; its effect is stated by `Save` and, column by column, by `UpdatedColumns` through `FillGivesUpdatedColumns` and by `StoredColumns` through `FillGivesStoredColumns` |
| `PostController.Save` | app/Http/Controllers/Api/PostController.php:184-195 | the post's columns become the payload filled over the old ones; the tags are replaced only when the key is sent, a null list clearing them |
| `PostController.FillGivesUpdatedColumns` | app/Http/Controllers/Api/PostController.php:133-190 | the payload built by `update`'s steps, filled over the post, gives the columns `UpdatedColumns` describes |
| `PostController.FinishUpdate` | app/Http/Controllers/Api/PostController.php:184-195 | filling the reconciled payload and syncing tags gives the columns `UpdatedColumns` describes, the image columns follow the upload/null/absent rule, and tags change only when sent |
| `PostController.Update` | app/Http/Controllers/Api/PostController.php:133-200 | `update`, with the reconciler run before any file is touched: it fails exactly when the post would end up scheduled without a schedule, and then nothing changes, the disk included; otherwise unmentioned columns keep their values, the slug, image, reading-time and timestamp rules hold, images stay on the disk, and tags change only when sent |
| `PostController.UpdateAsWritten` | app/Http/Controllers/Api/PostController.php:133-200 | `update` as written: the disk loses the replaced files and gains the uploads even when the reconciler then fails and leaves the post unchanged |
| `PostController.FailedUpdateLeavesDanglingImage` | app/Http/Controllers/Api/PostController.php:141-150 | a draft with a stored featured image, updated to scheduled with a new image and no schedule, fails while its old image file is already deleted |
| `LikeController.FirstOrCreate` | app/Http/Controllers/Api/LikeController.php:16-18 | `firstOrCreate`: its properties are stated by `FirstOrCreateLikes`, `FirstOrCreateIdempotent` and `FirstOrCreateFrame` |
| `LikeController.DeleteLikes` | app/Http/Controllers/Api/LikeController.php:33-35 | the delete of the pair's rows: its properties are stated by `DeleteLikesRemovesPair` and `DeleteLikesCounts` |
| `LikeController.FirstOrCreateLikes` | app/Http/Controllers/Api/LikeController.php:16-18 | after a like the pair has a row; with at most one row before there is exactly one after; an existing like is not duplicated |
| `LikeController.FirstOrCreateIdempotent` | app/Http/Controllers/Api/LikeController.php:16-18 | liking twice leaves the same rows as liking once |
| `LikeController.FirstOrCreateFrame` | app/Http/Controllers/Api/LikeController.php:16-18 | other pairs' rows and other posts' counts are unchanged; the post's count rises by one exactly when the pair had no row |
| `LikeController.DeleteLikesRemovesPair` | app/Http/Controllers/Api/LikeController.php:33-35 | after an unlike the pair has no row; unliking without a row leaves the rows unchanged |
| `LikeController.DeleteLikesCounts` | app/Http/Controllers/Api/LikeController.php:33-35 | other pairs' rows and other posts' counts are unchanged; the post loses exactly the pair's rows |
| `LikeController.Like` | app/Http/Controllers/Api/LikeController.php:12-27 | the like rows become first-or-create of the pair; `like_count` becomes the post's row count with nothing else changed; the answer is `liked: true`, that count, status 201 |
| `LikeController.Unlike` | app/Http/Controllers/Api/LikeController.php:29-44 | the pair's rows are deleted; `like_count` becomes the post's row count with nothing else changed; the answer is `liked: false`, that count, status 200 |
| `LikeController.LikeAgainIsNoOp` | app/Http/Controllers/Api/LikeController.php:12-27 | liking again changes neither the like rows nor the stored `like_count` |

## Left out

- The dashboard controller and the post JSON resource: aggregate queries and serialization with nothing to prove.
- `index`: search, the tag filter, ordering and pagination are not modelled. The query's result is a filtered sequence that states membership, not order.
- Eager loading, `refresh()` and `load()` are not modelled: they reread state the model already holds.
- The form-request rules appear only as preconditions (`ValidStore`, `ValidUpdate`): required keys, the reading-time range 1..1440, and a slug that is free in the table.
- `PostController.Store`: for a generated slug it promises freedom only among live posts. A soft-deleted row holding the same slug would make the insert fail at the unique index; that database failure is not modelled.
- `PostController.Index`: it uses the corrected page size `PerPage`, so a `per_page` of -1 gives 10 where the source gives -1 (see Findings; `PerPageAsWritten` models the source).
- `Slugs.SlugExists`: slugs are compared by exact string equality. The database compares them under its collation, which may ignore case, so a stored `Hello` could block the candidate `hello` there but not in the model.
- Races between the slug check and the insert, and between `firstOrCreate`'s lookup and its insert: the model is sequential.
- `PostController.Show` requires a live post, because route model binding already answers 404 for a soft-deleted one.
- `created_at`/`updated_at` are not modelled.
- Counters and the reading time are unbounded naturals. The 64-bit and 16-bit column widths are not modelled. The estimate for very long content can exceed 1440, which the update request would reject on input, and is not bounded here.
- Image paths are treated as truthy whenever present. The disk never hands out `""` or `"0"`.
- The authenticated user is an abstract admin flag and id. Authorization middleware is not modelled.
- `refreshEngagementCounts` is modelled as a method of the model. Nothing in the modelled core calls it; the like controller recounts on its own.

## Findings

| source | as written | input that shows it | evidently intended | confidence | as-written member | corrected member |
|---|---|---|---|---|---|---|
| app/Http/Controllers/Api/PostController.php:141-182 | `update` stores uploads and deletes the replaced image files before `applyStatusTimestamps` may throw, so a rejected update keeps the old image path in the row while the file is gone | a draft post with `featured_image = posts/old.jpg`, updated with `status = scheduled`, a new featured image, and no `scheduled_at` | validate the status/schedule before touching the disk, so a failed update changes nothing | not executed | `PostController.FailedUpdateLeavesDanglingImage` | `PostController.Update` |
| app/Http/Controllers/Api/PostController.php:66 | `min($request->integer('per_page', 10) ?: 10, 100)` bounds the page size only from above, so a negative value passes through to the paginator | `per_page = -1` | a page size in 1..100 | not executed | `PostController.PerPageAsWrittenNegative` | `PostController.PerPage` |
