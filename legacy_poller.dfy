/** index.js pollOnce: one pass of the legacy alerter over the normalised feed posts.
    Each post whose title and body match a keyword is recorded (insert-or-ignore), and
    unless its row is already alerted, the Discord webhook is called; success marks
    the row alerted, failure records the error. The retention purge runs once at the
    end. The fetch and the clock are parameters; the webhook is an oracle taking the
    keyword, subreddit, title and link and answering with success or the error's
    message. */
module LegacyPoller {
  import opened Wrappers
  import opened JsValues
  import opened LegacyKeywords
  import opened LegacyRss
  import opened LegacyDb

  const UnknownSubreddit: string := "unknown"

  /** The table and the post ids the webhook was called for, in call order. */
  datatype PollState = PollState(posts: map<string, AlertRow>, sent: seq<string>)

  /** `post.subreddit || "unknown"`. */
  function SubredditOrUnknown(post: LegacyPost): string {
    if Truthy(post.subreddit) then post.subreddit.value else UnknownSubreddit
  }

  /** The keyword the post matches, if any. */
  function KeywordOf(post: LegacyPost): Option<string> {
    FindKeywordMatch(Some(post.title), Some(post.body))
  }

  /** The postRow built for a matching post, first seen `now`. */
  function RowFor(post: LegacyPost, keyword: string, now: int): NewRow {
    NewRow(post.postId, SubredditOrUnknown(post), post.title, post.link, keyword, now, post.publishedAt)
  }

  /** One iteration of the loop. */
  function Step(st: PollState, post: LegacyPost, now: int, send: (string, string, string, string) -> Result<(), string>)
    : PollState
  {
    match KeywordOf(post)
    case None => st
    case Some(keyword) =>
      var subreddit := SubredditOrUnknown(post);
      var table := Inserted(st.posts, RowFor(post, keyword, now));
      if Alerted(table, post.postId) then PollState(table, st.sent)
      else
        match send(keyword, subreddit, post.title, post.link)
        case Success(_) => PollState(MarkedAlerted(table, post.postId, now), st.sent + [post.postId])
        case Failure(message) => PollState(MarkedError(table, post.postId, message), st.sent + [post.postId])
  }

  /** The loop over the posts, in order. */
  function Run(st: PollState, posts: seq<LegacyPost>, now: int, send: (string, string, string, string) -> Result<(), string>)
    : PollState
    decreases |posts|
  {
    if posts == [] then st
    else Step(Run(st, posts[..|posts| - 1], now, send), posts[|posts| - 1], now, send)
  }

  /** A post without a keyword is neither stored nor alerted. */
  lemma StepNoKeyword(st: PollState, post: LegacyPost, now: int, send: (string, string, string, string) -> Result<(), string>)
    requires KeywordOf(post).None?
    ensures Step(st, post, now, send) == st
  {
  }

  /** A matching post's row is created, if new, with the post's fields, first seen
      `now`, "unknown" standing in for a missing subreddit. */
  lemma StepNewRow(st: PollState, post: LegacyPost, now: int, send: (string, string, string, string) -> Result<(), string>)
    requires KeywordOf(post).Some? && post.postId !in st.posts
    ensures var r := Step(st, post, now, send).posts[post.postId];
      && post.postId in Step(st, post, now, send).posts
      && r.firstSeenAt == now && r.subreddit == SubredditOrUnknown(post)
      && r.matchedKeyword == KeywordOf(post).value && r.title == post.title && r.link == post.link
  {
  }

  /** A matching post whose row is not alerted gets exactly one webhook call; success
      marks it alerted at `now` with no error, failure records the message and leaves
      it unalerted, so the next poll tries again. */
  lemma StepSend(st: PollState, post: LegacyPost, now: int, send: (string, string, string, string) -> Result<(), string>)
    requires KeywordOf(post).Some? && !Alerted(st.posts, post.postId)
    ensures var st' := Step(st, post, now, send);
            var outcome := send(KeywordOf(post).value, SubredditOrUnknown(post), post.title, post.link);
      && st'.sent == st.sent + [post.postId]
      && post.postId in st'.posts
      && (outcome.Success? ==> st'.posts[post.postId].alertedAt == Some(now) && st'.posts[post.postId].lastError.None?)
      && (outcome.Failure? ==> st'.posts[post.postId].lastError == Some(outcome.error) && !Alerted(st'.posts, post.postId))
  {
  }

  /** The webhook log only grows, and rows are never removed by the loop. */
  lemma {:induction false} RunGrows(st: PollState, posts: seq<LegacyPost>, now: int,
                                     send: (string, string, string, string) -> Result<(), string>)
    ensures var st' := Run(st, posts, now, send);
      st.sent <= st'.sent && st.posts.Keys <= st'.posts.Keys
    decreases |posts|
  {
    if posts != [] {
      RunGrows(st, posts[..|posts| - 1], now, send);
    }
  }

  /** A row that was already alerted before the poll is left exactly as it was, and
      the webhook is never called for it. */
  lemma {:induction false} AlertedUntouched(st: PollState, posts: seq<LegacyPost>, now: int,
                                            send: (string, string, string, string) -> Result<(), string>, id: string)
    requires Alerted(st.posts, id)
    ensures var st' := Run(st, posts, now, send);
      && |st.sent| <= |st'.sent| && st'.sent[..|st.sent|] == st.sent
      && id in st'.posts && st'.posts[id] == st.posts[id]
      && id !in st'.sent[|st.sent|..]
    decreases |posts|
  {
    if posts != [] {
      var mid := Run(st, posts[..|posts| - 1], now, send);
      AlertedUntouched(st, posts[..|posts| - 1], now, send, id);
      var st' := Run(st, posts, now, send);
      assert st' == Step(mid, posts[|posts| - 1], now, send);
      if st'.sent != mid.sent {
        assert st'.sent == mid.sent + [posts[|posts| - 1].postId];
        assert st'.sent[|st.sent|..] == mid.sent[|st.sent|..] + [posts[|posts| - 1].postId];
      }
    }
  }

  /** Posts that match no keyword leave no row behind: an id not in the table before
      the poll is in it afterwards only when some post with that id matched. */
  lemma {:induction false} OnlyMatchesStored(st: PollState, posts: seq<LegacyPost>, now: int,
                                             send: (string, string, string, string) -> Result<(), string>, id: string)
    requires id !in st.posts
    requires forall k | 0 <= k < |posts| && posts[k].postId == id :: KeywordOf(posts[k]).None?
    ensures id !in Run(st, posts, now, send).posts
    decreases |posts|
  {
    if posts != [] {
      OnlyMatchesStored(st, posts[..|posts| - 1], now, send, id);
    }
  }

  /** Every row the poll adds was first seen at `now`. */
  lemma {:induction false} NewRowsSeenNow(st: PollState, posts: seq<LegacyPost>, now: int,
                                          send: (string, string, string, string) -> Result<(), string>)
    ensures var st' := Run(st, posts, now, send);
      forall id | id in st'.posts && id !in st.posts :: st'.posts[id].firstSeenAt == now
    decreases |posts|
  {
    if posts != [] {
      NewRowsSeenNow(st, posts[..|posts| - 1], now, send);
      RunGrows(st, posts[..|posts| - 1], now, send);
    }
  }

  /** With a non-negative retention, the purge at the end of a poll keeps every row the
      poll added. */
  lemma NewRowsSurvivePurge(st: PollState, posts: seq<LegacyPost>, now: int,
                            send: (string, string, string, string) -> Result<(), string>, retentionDays: nat)
    ensures var st' := Run(st, posts, now, send);
      forall id | id in st'.posts && id !in st.posts :: id in Purged(st'.posts, Cutoff(retentionDays, now))
  {
    NewRowsSeenNow(st, posts, now, send);
  }

  /** pollOnce over the posts already fetched and normalised. */
  method PollOnce(db: AlertStore, posts: seq<LegacyPost>, retentionDays: int, now: int,
                  send: (string, string, string, string) -> Result<(), string>)
    returns (ghost sent: seq<string>)
    modifies db
    ensures var st := Run(PollState(old(db.posts), []), posts, now, send);
      db.posts == Purged(st.posts, Cutoff(retentionDays, now)) && sent == st.sent
  {
    ghost var st := PollState(db.posts, []);
    sent := [];
    var i := 0;
    while i < |posts|
      invariant 0 <= i <= |posts|
      invariant Run(st, posts[..i], now, send) == PollState(db.posts, sent)
    {
      var post := posts[i];
      assert posts[..i + 1][..i] == posts[..i];
      var keyword := FindKeywordMatch(Some(post.title), Some(post.body));
      if keyword.Some? {
        var subreddit := if Truthy(post.subreddit) then post.subreddit.value else "unknown";
        var row := NewRow(post.postId, subreddit, post.title, post.link, keyword.value, now, post.publishedAt);
        var alreadyAlerted := db.InsertIfNew(row);
        if !alreadyAlerted {
          var outcome := send(keyword.value, subreddit, post.title, post.link);
          if outcome.Success? {
            db.SetAlerted(post.postId, now);
          } else {
            db.SetLastError(post.postId, outcome.error);
          }
          sent := sent + [post.postId];
        }
      }
      i := i + 1;
    }
    assert posts[..i] == posts;
    db.PurgeRetention(retentionDays, now);
  }
}
