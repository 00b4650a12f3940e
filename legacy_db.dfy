/** src/db.js, the legacy alerter's store: one `posts` table keyed by post_id, and the
    four closures initDb returns over it. Opening the file, the pragmas and the DDL
    are not part of this model; the table is a map from post_id to its row. */
module LegacyDb {
  import opened Wrappers
  import opened JsValues

  /** `24 * 60 * 60`. */
  const SecondsPerDay: int := 86400

  /** The row insertIfNew receives (the postRow of index.js). */
  datatype NewRow = NewRow(
    postId: string, subreddit: string, title: string, link: string, matchedKeyword: string,
    firstSeenAt: int, publishedAt: Option<int>)

  /** A stored row of `posts`, without its key. */
  datatype AlertRow = AlertRow(
    subreddit: string, title: string, link: string, matchedKeyword: string,
    firstSeenAt: int, publishedAt: Option<int>, alertedAt: Option<int>, lastError: Option<string>)

  /** The row `INSERT OR IGNORE` writes for a new post: alerted_at and last_error NULL. */
  function Fresh(row: NewRow): AlertRow {
    AlertRow(row.subreddit, row.title, row.link, row.matchedKeyword, row.firstSeenAt, row.publishedAt, None, None)
  }

  /** The table after insertIfNew's `INSERT OR IGNORE`. */
  function Inserted(posts: map<string, AlertRow>, row: NewRow): (r: map<string, AlertRow>)
    ensures row.postId in r && r.Keys == posts.Keys + {row.postId}
    ensures row.postId in posts ==> r == posts
    ensures row.postId !in posts ==>
      r[row.postId].alertedAt.None? && r[row.postId].lastError.None? && r[row.postId].firstSeenAt == row.firstSeenAt
    ensures forall k | k in posts :: r[k] == posts[k]
  {
    if row.postId in posts then posts else posts[row.postId := Fresh(row)]
  }

  /** `!!row?.alerted_at`: NULL and 0 both read as not alerted. */
  predicate Alerted(posts: map<string, AlertRow>, postId: string) {
    postId in posts && TruthyInt(posts[postId].alertedAt)
  }

  /** markAlerted's UPDATE: alerted_at set and last_error cleared on that row only. */
  function MarkedAlerted(posts: map<string, AlertRow>, postId: string, now: int): (r: map<string, AlertRow>)
    ensures r.Keys == posts.Keys
    ensures postId in posts ==> r[postId].alertedAt == Some(now) && r[postId].lastError.None?
    ensures forall k | k in posts && k != postId :: r[k] == posts[k]
    ensures now != 0 ==> forall k | k in posts :: Alerted(r, k) <==> (k == postId || Alerted(posts, k))
  {
    if postId in posts then posts[postId := posts[postId].(alertedAt := Some(now), lastError := None)] else posts
  }

  /** markError's UPDATE: last_error set on that row only, alerted_at kept. */
  function MarkedError(posts: map<string, AlertRow>, postId: string, message: string): (r: map<string, AlertRow>)
    ensures r.Keys == posts.Keys
    ensures postId in posts ==> r[postId].lastError == Some(message)
    ensures forall k | k in posts :: r[k].alertedAt == posts[k].alertedAt && r[k].firstSeenAt == posts[k].firstSeenAt
    ensures forall k | k in posts && k != postId :: r[k] == posts[k]
    ensures forall k :: Alerted(r, k) <==> Alerted(posts, k)
  {
    if postId in posts then posts[postId := posts[postId].(lastError := Some(message))] else posts
  }

  /** purgeRetention's cutoff, `now - days * 24 * 60 * 60`. */
  function Cutoff(retentionDays: int, now: int): int {
    now - retentionDays * SecondsPerDay
  }

  /** `DELETE FROM posts WHERE first_seen_at < cutoff`. */
  function Purged(posts: map<string, AlertRow>, cutoff: int): (r: map<string, AlertRow>)
    ensures forall k :: k in r <==> k in posts && posts[k].firstSeenAt >= cutoff
    ensures forall k | k in r :: r[k] == posts[k]
  {
    map k | k in posts && posts[k].firstSeenAt >= cutoff :: posts[k]
  }

  /** Purging twice with the same cutoff is purging once. */
  lemma PurgeIdempotent(posts: map<string, AlertRow>, cutoff: int)
    ensures Purged(Purged(posts, cutoff), cutoff) == Purged(posts, cutoff)
  {
  }

  /** A longer retention keeps every row a shorter one keeps. */
  lemma LongerRetentionKeepsMore(posts: map<string, AlertRow>, days: int, days': int, now: int)
    requires days <= days'
    ensures Purged(posts, Cutoff(days, now)).Keys <= Purged(posts, Cutoff(days', now)).Keys
  {
  }

  /** A row first seen at `now` survives a purge at `now` with a non-negative
      retention. */
  lemma FreshRowSurvives(posts: map<string, AlertRow>, postId: string, days: nat, now: int)
    requires postId in posts && posts[postId].firstSeenAt == now
    ensures postId in Purged(posts, Cutoff(days, now))
  {
  }

  /** The alert store over the `posts` table. */
  class AlertStore {
    var posts: map<string, AlertRow>

    /** A new, empty table. */
    constructor ()
      ensures posts == map[]
    {
      posts := map[];
    }

    /** insertIfNew: the row is added only when its post_id is absent (an existing row,
        first_seen_at included, is untouched); the answer says whether the stored row
        has a truthy alerted_at. */
    method InsertIfNew(row: NewRow) returns (alreadyAlerted: bool)
      modifies this
      ensures posts == Inserted(old(posts), row)
      ensures alreadyAlerted <==> Alerted(posts, row.postId)
      ensures row.postId !in old(posts) ==> !alreadyAlerted
    {
      if row.postId !in posts {
        posts := posts[row.postId := Fresh(row)];
      }
      alreadyAlerted := TruthyInt(posts[row.postId].alertedAt);
    }

    /** setAlerted; a no-op for an unknown post_id. */
    method SetAlerted(postId: string, now: int)
      modifies this
      ensures posts == MarkedAlerted(old(posts), postId, now)
    {
      if postId in posts {
        posts := posts[postId := posts[postId].(alertedAt := Some(now), lastError := None)];
      }
    }

    /** setLastError; a no-op for an unknown post_id. */
    method SetLastError(postId: string, message: string)
      modifies this
      ensures posts == MarkedError(old(posts), postId, message)
    {
      if postId in posts {
        posts := posts[postId := posts[postId].(lastError := Some(message))];
      }
    }

    /** purgeRetention: exactly the rows first seen before the cutoff are deleted. */
    method PurgeRetention(retentionDays: int, now: int)
      modifies this
      ensures posts == Purged(old(posts), Cutoff(retentionDays, now))
    {
      var cutoff := now - retentionDays * 24 * 60 * 60;
      posts := map k | k in posts && posts[k].firstSeenAt >= cutoff :: posts[k];
    }
  }
}
