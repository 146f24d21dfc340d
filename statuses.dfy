/** The status/timestamp reconciler of the post controller
    (`applyStatusTimestamps`). */
module StatusTimestamps {
  import opened Common
  import opened PostModel
  import opened Requests

  /** `$data['status'] ?? $post?->status ?? 'draft'` */
  function EffectiveStatus(data: Payload, prev: Option<PostRecord>): Status {
    data.status.OrElse(if prev.Some? then Some(prev.value.status) else None).GetOr(Draft)
  }

  /** `$post?->published_at` */
  function PrevPublishedAt(prev: Option<PostRecord>): Option<Timestamp> {
    if prev.Some? then prev.value.publishedAt else None
  }

  /** `$post?->scheduled_at` */
  function PrevScheduledAt(prev: Option<PostRecord>): Option<Timestamp> {
    if prev.Some? then prev.value.scheduledAt else None
  }

  /** The final `published_at` and `scheduled_at` columns for `status`, as a
      table: a published post keeps the payload's publication time, else the
      previous one, else `now`; a scheduled post loses its publication time and
      takes the payload's schedule, else the previous one; draft and archived
      posts lose their schedule and keep a `published_at` the payload mentions
      (even as null), and otherwise a draft gets none while an archived post
      keeps its previous one. */
  ghost predicate Reconciled(status: Status, data: Payload, prev: Option<PostRecord>, now: Timestamp,
                             publishedAt: Option<Timestamp>, scheduledAt: Option<Timestamp>)
  {
    match status
    case Published =>
      && publishedAt == Some(data.publishedAt.OrElse(PrevPublishedAt(prev)).GetOr(now))
      && scheduledAt == None
    case Scheduled =>
      && publishedAt == None
      && scheduledAt == data.scheduledAt.OrElse(PrevScheduledAt(prev))
    case Draft =>
      && publishedAt == (if data.publishedAt.Present() then data.publishedAt.AsOption() else None)
      && scheduledAt == None
    case Archived =>
      && publishedAt == (if data.publishedAt.Present() then data.publishedAt.AsOption() else PrevPublishedAt(prev))
      && scheduledAt == None
  }

  /** The table above never leaves a published post without a publication
      time, and once a scheduled post has its schedule the columns agree with
      the status. */
  lemma ReconciledAgree(status: Status, data: Payload, prev: Option<PostRecord>, now: Timestamp,
                        publishedAt: Option<Timestamp>, scheduledAt: Option<Timestamp>)
    requires Reconciled(status, data, prev, now, publishedAt, scheduledAt)
    requires status == Scheduled ==> scheduledAt.Some?
    ensures TimestampsAgree(status, publishedAt, scheduledAt)
    ensures status == Published ==> publishedAt.Some?
  {
  }

  /** The payload `applyStatusTimestamps` leaves behind: both timestamp keys
      are present and hold the table's values, and no other key changed. */
  ghost predicate ReconciledPayload(data: Payload, prev: Option<PostRecord>, now: Timestamp, out: Payload) {
    && out == data.(publishedAt := out.publishedAt, scheduledAt := out.scheduledAt)
    && out.publishedAt.Present() && out.scheduledAt.Present()
    && Reconciled(EffectiveStatus(data, prev), data, prev, now, out.publishedAt.AsOption(), out.scheduledAt.AsOption())
    && TimestampsAgree(EffectiveStatus(data, prev), out.publishedAt.AsOption(), out.scheduledAt.AsOption())
  }

  /** `applyStatusTimestamps(&$data, $post)`: rewrite the two timestamp keys of
      the payload to the values of the table above, or fail with an error on
      `scheduled_at` when a scheduled post ends up without a schedule. No other
      key of the payload changes. */
  method ApplyStatusTimestamps(data: Payload, prev: Option<PostRecord>, now: Timestamp)
    returns (r: Result<Payload, Error>)
    ensures r.Failure? <==> EffectiveStatus(data, prev) == Scheduled
                            && data.scheduledAt.OrElse(PrevScheduledAt(prev)).None?
    ensures r.Failure? ==> r.error == ValidationError("scheduled_at")
    ensures r.Success? ==> ReconciledPayload(data, prev, now, r.value)
  {
    var status := EffectiveStatus(data, prev);
    var out := data;
    if status == Published {
      out := out.(publishedAt := Value(out.publishedAt.OrElse(PrevPublishedAt(prev)).GetOr(now)));
      out := out.(scheduledAt := Null);
    } else if status == Scheduled {
      out := out.(scheduledAt := FromOption(out.scheduledAt.OrElse(PrevScheduledAt(prev))));
      out := out.(publishedAt := Null);
    } else {
      if !out.publishedAt.Present() {
        out := out.(publishedAt := if status == Archived then FromOption(out.publishedAt.OrElse(PrevPublishedAt(prev))) else Null);
      }
      out := out.(scheduledAt := Null);
    }
    if status == Scheduled && !out.scheduledAt.Value? {
      return Failure(ValidationError("scheduled_at"));
    }
    return Success(out);
  }
}
