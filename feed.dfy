/** The feed side of server/lib/rss.js: the feed URL, the retry loop around one fetch
    with exponential backoff, and the normalisation of parsed items into posts.
    The HTTP request and the XML parsing are one attempt oracle; `Date.parse` is a
    parameter. */
module Feed {
  import opened Wrappers
  import opened Text
  import opened JsValues
  import opened RedditLinks

  /** The item fields the normalisation reads; absent fields are `None`. */
  datatype FeedItem = FeedItem(
    link: Option<string>, guid: Option<string>, id: Option<string>, title: Option<string>,
    contentSnippet: Option<string>, content: Option<string>, summary: Option<string>,
    isoDate: Option<string>, pubDate: Option<string>)

  /** A parsed feed; `items` is `None` when it is not an array. */
  datatype ParsedFeed = ParsedFeed(items: Option<seq<FeedItem>>)

  /** A normalised post, as the engine consumes it. */
  datatype Post = Post(
    postId: string, subreddit: Option<string>, title: string, body: string,
    link: string, publishedAt: Option<int>)

  const RedditFeedPrefix: string := "https://www.reddit.com/r/"
  const RedditFeedSuffix: string := "/new/.rss"
  const NoSubredditMessage: string := "At least one subreddit is required."
  const FetchFailedMessage: string := "Failed to fetch Reddit RSS feed."
  /** DEFAULT_REDDIT_MAX_RETRIES of server/lib/constants.js. */
  const DefaultMaxRetries: int := 4

  /** `.map((item) => String(item || "").trim()).filter(Boolean)`. */
  function CleanNames(items: seq<string>): seq<string>
    decreases |items|
  {
    if items == [] then []
    else (if Trim(items[0]) == "" then [] else [Trim(items[0])]) + CleanNames(items[1..])
  }

  /** The cleaned names are trimmed and non-empty. */
  lemma {:induction false} CleanNamesTrimmed(items: seq<string>)
    ensures forall y | y in CleanNames(items) :: y != "" && Trim(y) == y
    decreases |items|
  {
    if items != [] {
      var rest := CleanNames(items[1..]);
      CleanNamesTrimmed(items[1..]);
      forall y | y in CleanNames(items) ensures y != "" && Trim(y) == y {
        if y !in rest {
          TrimIdempotent(items[0]);
        }
      }
    }
  }

  /** No name is left exactly when every name is blank. */
  lemma {:induction false} CleanNamesEmpty(items: seq<string>)
    ensures CleanNames(items) == [] <==> forall k | 0 <= k < |items| :: IsBlank(items[k])
    decreases |items|
  {
    if items != [] {
      var tail := items[1..];
      CleanNamesEmpty(tail);
      AllBlankSplit(items);
    }
  }

  lemma AllBlankSplit(items: seq<string>)
    requires items != []
    ensures (forall k | 0 <= k < |items| :: IsBlank(items[k]))
      <==> IsBlank(items[0]) && forall k | 0 <= k < |items[1..]| :: IsBlank(items[1..][k])
  {
    var tail := items[1..];
    assert forall k | 0 <= k < |tail| :: tail[k] == items[k + 1];
    if IsBlank(items[0]) && forall k | 0 <= k < |tail| :: IsBlank(tail[k]) {
      forall k | 0 <= k < |items| ensures IsBlank(items[k]) {
        if k > 0 {
          assert items[k] == tail[k - 1];
        }
      }
    }
  }

  /** buildFeedUrl: fails when no name is left after trimming. */
  function BuildFeedUrl(subreddits: ListArg): (r: Result<string, string>)
    ensures r.Failure? <==> forall k | 0 <= k < |ItemsOr(subreddits, [])| :: IsBlank(ItemsOr(subreddits, [])[k])
    ensures r.Failure? ==> r.error == NoSubredditMessage
  {
    var cleaned := CleanNames(ItemsOr(subreddits, []));
    CleanNamesEmpty(ItemsOr(subreddits, []));
    if |cleaned| == 0 then Failure(NoSubredditMessage)
    else Success(RedditFeedPrefix + Join(cleaned, "+") + RedditFeedSuffix)
  }

  /** The URL carries the cleaned names, in order, between the fixed prefix and
      suffix: splitting that segment on `+` gives them back when no name holds a `+`. */
  lemma BuildFeedUrlRoundTrip(subreddits: ListArg)
    requires BuildFeedUrl(subreddits).Success?
    requires forall k | 0 <= k < |ItemsOr(subreddits, [])| :: '+' !in ItemsOr(subreddits, [])[k]
    ensures var url := BuildFeedUrl(subreddits).value;
            var cleaned := CleanNames(ItemsOr(subreddits, []));
      && |RedditFeedPrefix| + |RedditFeedSuffix| <= |url|
      && url[..|RedditFeedPrefix|] == RedditFeedPrefix
      && url[|url| - |RedditFeedSuffix|..] == RedditFeedSuffix
      && Split(url[|RedditFeedPrefix|..|url| - |RedditFeedSuffix|], '+') == cleaned
  {
    var items := ItemsOr(subreddits, []);
    var cleaned := CleanNames(items);
    CleanNamesNoPlus(items);
    var middle := Join(cleaned, "+");
    var url := RedditFeedPrefix + middle + RedditFeedSuffix;
    assert url[|RedditFeedPrefix|..|url| - |RedditFeedSuffix|] == middle;
    SplitJoin(cleaned, '+');
  }

  /** Trimming removes characters and adds none, so a `+`-free name stays `+`-free. */
  lemma {:induction false} CleanNamesNoPlus(items: seq<string>)
    requires forall k | 0 <= k < |items| :: '+' !in items[k]
    ensures forall k | 0 <= k < |CleanNames(items)| :: '+' !in CleanNames(items)[k]
    decreases |items|
  {
    if items != [] {
      CleanNamesNoPlus(items[1..]);
      var t := Trim(items[0]);
      assert forall c | c in t :: c in items[0];
    }
  }

  /** `2^n`. */
  function Pow2(n: nat): (r: nat)
    ensures r >= 1
  {
    if n == 0 then 1 else 2 * Pow2(n - 1)
  }

  /** The sleeps after the first `n` failed attempts: `500 * 2^(attempt - 1)` ms each. */
  function Backoff(n: nat): (r: seq<nat>)
    ensures |r| == n
    ensures forall i | 0 <= i < n :: r[i] == 500 * Pow2(i)
  {
    seq(n, i requires 0 <= i < n => 500 * Pow2(i))
  }

  lemma BackoffStep(m: nat)
    ensures Backoff(m + 1) == Backoff(m) + [500 * Pow2(m)]
  {
  }

  function Sum(xs: seq<nat>): nat
    decreases |xs|
  {
    if xs == [] then 0 else Sum(xs[..|xs| - 1]) + xs[|xs| - 1]
  }

  /** The total time slept after `n` failed attempts is `500 * (2^n - 1)` ms. */
  lemma {:induction false} BackoffTotal(n: nat)
    ensures Sum(Backoff(n)) == 500 * (Pow2(n) - 1)
  {
    if n > 0 {
      BackoffTotal(n - 1);
      assert Backoff(n)[..n - 1] == Backoff(n - 1);
    }
  }

  function Max0(n: int): nat {
    if n > 0 then n else 0
  }

  function Min(a: int, b: int): int {
    if a <= b then a else b
  }

  /** What the attempt loop promises for `n` allowed attempts at `url`: the requests
      stop at the first success; every earlier request failed; the sleeps follow the
      backoff schedule, with none after the last allowed attempt; a run without
      success ends with the last error, or a generic one when no request was made. */
  predicate RetryOutcome(url: string, n: int, fetchAttempt: (string, nat) -> Result<ParsedFeed, string>,
                         r: Result<ParsedFeed, string>, attempts: nat, sleeps: seq<nat>)
  {
    && attempts <= Max0(n)
    && (forall k | 1 <= k < attempts :: fetchAttempt(url, k).Failure?)
    && (r.Success? ==> 1 <= attempts && r == fetchAttempt(url, attempts) && sleeps == Backoff(attempts - 1))
    && (r.Failure? ==>
          && attempts == Max0(n)
          && (attempts == 0 ==> r.error == FetchFailedMessage)
          && (attempts > 0 ==> fetchAttempt(url, attempts) == Failure(r.error))
          && sleeps == Backoff(Max0(n - 1)))
  }

  /** The `for (let attempt = 1; attempt <= retries; ...)` loop of fetchRssFeed.
      `fetchAttempt(url, k)` is the outcome of the `k`-th request (response, status
      check and parsing, or a timeout): a parsed feed or an error message. Returns the
      outcome, the number of requests made and the sleeps taken. */
  method RetryFetch(url: string, n: int, fetchAttempt: (string, nat) -> Result<ParsedFeed, string>)
    returns (r: Result<ParsedFeed, string>, attempts: nat, sleeps: seq<nat>)
    ensures RetryOutcome(url, n, fetchAttempt, r, attempts, sleeps)
  {
    var lastError: Option<string> := None;
    attempts := 0;
    sleeps := [];
    var attempt := 1;
    while attempt <= n
      invariant 1 <= attempt <= Max0(n) + 1
      invariant attempts == attempt - 1
      invariant forall k | 1 <= k < attempt :: fetchAttempt(url, k).Failure?
      invariant lastError == if attempt == 1 then None else Some(fetchAttempt(url, attempt - 1).error)
      invariant sleeps == Backoff(Min(attempt - 1, Max0(n - 1)))
    {
      attempts := attempt;
      var outcome := fetchAttempt(url, attempt);
      if outcome.Success? {
        return outcome, attempts, sleeps;
      }
      lastError := Some(outcome.error);
      if attempt < n {
        BackoffStep(attempt - 1);
        sleeps := sleeps + [500 * Pow2(attempt - 1)];
      }
      attempt := attempt + 1;
    }
    r := Failure(if lastError.Some? then lastError.value else FetchFailedMessage);
  }

  /** fetchRssFeed: the URL is built first, so a list without names fails before any
      request; `retries` is `None` when the option is omitted. */
  method FetchRssFeed(subreddits: ListArg, retries: Option<int>, fetchAttempt: (string, nat) -> Result<ParsedFeed, string>)
    returns (r: Result<ParsedFeed, string>, attempts: nat, sleeps: seq<nat>)
    ensures BuildFeedUrl(subreddits).Failure? ==>
      r == Failure(NoSubredditMessage) && attempts == 0 && sleeps == []
    ensures BuildFeedUrl(subreddits).Success? ==>
      RetryOutcome(BuildFeedUrl(subreddits).value, retries.GetOr(DefaultMaxRetries), fetchAttempt, r, attempts, sleeps)
  {
    var built := BuildFeedUrl(subreddits);
    if built.Failure? {
      return Failure(built.error), 0, [];
    }
    r, attempts, sleeps := RetryFetch(built.value, retries.GetOr(DefaultMaxRetries), fetchAttempt);
  }

  /** One item: the id from guid (`guid || id || ""`) or link, and the field defaults. */
  function NormalizeItem(item: FeedItem, dateParse: string -> Num): (r: Option<Post>)
    ensures r.None? <==> ExtractPostId(OrDefault(item.link, ""), OrDefault(Or(item.guid, item.id), "")).None?
    ensures r.Some? ==>
      && r.value.postId != "" && AllAlnum(r.value.postId)
      && r.value.link == (if Truthy(item.link) then item.link.value else "")
      && r.value.title == (if Truthy(item.title) then item.title.value else "")
      && r.value.body == (if Truthy(item.contentSnippet) then item.contentSnippet.value
                          else if Truthy(item.content) then item.content.value
                          else if Truthy(item.summary) then item.summary.value
                          else "")
      && r.value.publishedAt == UnixSecondsFromDateString(if Truthy(item.isoDate) then item.isoDate else item.pubDate, dateParse)
      && r.value.subreddit == ExtractSubreddit(item.link)
  {
    var link := OrDefault(item.link, "");
    var guid := OrDefault(Or(item.guid, item.id), "");
    ExtractedIdIsAlnum(link, guid);
    match ExtractPostId(link, guid)
    case None => None
    case Some(postId) =>
      Some(Post(
        postId,
        ExtractSubreddit(Some(link)),
        OrDefault(item.title, ""),
        OrDefault(Or(Or(item.contentSnippet, item.content), item.summary), ""),
        link,
        UnixSecondsFromDateString(Or(item.isoDate, item.pubDate), dateParse)))
  }

  function NormalizeItems(items: seq<FeedItem>, dateParse: string -> Num): seq<Post>
    decreases |items|
  {
    if items == [] then []
    else
      var last := NormalizeItem(items[|items| - 1], dateParse);
      NormalizeItems(items[..|items| - 1], dateParse) + (if last.Some? then [last.value] else [])
  }

  /** normalizeFeedItems: a feed without an items array gives no posts. */
  function NormalizeFeedItems(feed: ParsedFeed, dateParse: string -> Num): seq<Post> {
    if feed.items.None? then [] else NormalizeItems(feed.items.value, dateParse)
  }

  /** The indices of the items that yield a post, in increasing order. */
  function KeptIndices(items: seq<FeedItem>, dateParse: string -> Num): seq<nat>
    decreases |items|
  {
    if items == [] then []
    else
      var prev := KeptIndices(items[..|items| - 1], dateParse);
      if NormalizeItem(items[|items| - 1], dateParse).Some? then prev + [|items| - 1] else prev
  }

  /** The kept indices are increasing and are exactly the items with a post id. */
  lemma KeptIndicesSpec(items: seq<FeedItem>, dateParse: string -> Num)
    ensures var idx := KeptIndices(items, dateParse);
      && (forall j | 0 <= j < |idx| :: idx[j] < |items|)
      && (forall j, k | 0 <= j < k < |idx| :: idx[j] < idx[k])
      && (forall i | 0 <= i < |items| :: i in idx <==> NormalizeItem(items[i], dateParse).Some?)
  {
    KeptIndicesBounded(items, dateParse);
    KeptIndicesIncreasing(items, dateParse);
    KeptIndicesExact(items, dateParse);
  }

  lemma {:induction false} KeptIndicesBounded(items: seq<FeedItem>, dateParse: string -> Num)
    ensures forall j | 0 <= j < |KeptIndices(items, dateParse)| :: KeptIndices(items, dateParse)[j] < |items|
    decreases |items|
  {
    if items != [] {
      KeptIndicesBounded(items[..|items| - 1], dateParse);
    }
  }

  lemma {:induction false} KeptIndicesIncreasing(items: seq<FeedItem>, dateParse: string -> Num)
    ensures forall j, k | 0 <= j < k < |KeptIndices(items, dateParse)| ::
      KeptIndices(items, dateParse)[j] < KeptIndices(items, dateParse)[k]
    decreases |items|
  {
    if items != [] {
      KeptIndicesIncreasing(items[..|items| - 1], dateParse);
      KeptIndicesBounded(items[..|items| - 1], dateParse);
    }
  }

  lemma KeptIndicesExact(items: seq<FeedItem>, dateParse: string -> Num)
    ensures forall i | 0 <= i < |items| :: i in KeptIndices(items, dateParse) <==> NormalizeItem(items[i], dateParse).Some?
  {
    forall i | 0 <= i < |items|
      ensures i in KeptIndices(items, dateParse) <==> NormalizeItem(items[i], dateParse).Some?
    {
      KeptIndex(items, dateParse, i);
    }
  }

  lemma {:induction false} KeptIndex(items: seq<FeedItem>, dateParse: string -> Num, i: nat)
    requires i < |items|
    ensures i in KeptIndices(items, dateParse) <==> NormalizeItem(items[i], dateParse).Some?
    decreases |items|
  {
    var p := items[..|items| - 1];
    KeptIndicesBounded(p, dateParse);
    if i < |p| {
      KeptIndex(p, dateParse, i);
      assert p[i] == items[i];
    }
  }

  /** normalizeFeedItems maps, in order, exactly the items that have a post id and
      drops the others. */
  lemma {:induction false} NormalizeItemsSpec(items: seq<FeedItem>, dateParse: string -> Num)
    ensures |NormalizeItems(items, dateParse)| == |KeptIndices(items, dateParse)|
    ensures forall j | 0 <= j < |NormalizeItems(items, dateParse)| ::
      && KeptIndices(items, dateParse)[j] < |items|
      && Some(NormalizeItems(items, dateParse)[j]) == NormalizeItem(items[KeptIndices(items, dateParse)[j]], dateParse)
    decreases |items|
  {
    KeptIndicesBounded(items, dateParse);
    if items != [] {
      var p := items[..|items| - 1];
      NormalizeItemsSpec(p, dateParse);
      KeptIndicesBounded(p, dateParse);
      var r, idx := NormalizeItems(items, dateParse), KeptIndices(items, dateParse);
      var rp, ip := NormalizeItems(p, dateParse), KeptIndices(p, dateParse);
      forall j | 0 <= j < |r| ensures Some(r[j]) == NormalizeItem(items[idx[j]], dateParse) {
        if j < |rp| {
          assert r[j] == rp[j] && idx[j] == ip[j];
          assert items[idx[j]] == p[ip[j]];
        }
      }
    }
  }
}
