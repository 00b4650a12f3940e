/** src/rss.js, the legacy alerter's feed normalisation. Its extractors and date
    conversion use the same regular expressions as server/lib/rss.js, so they are the
    functions of RedditLinks; what differs is the post record, which also carries the
    original feed item as `raw`, and the `|| null` on the subreddit. The fetch is not
    part of this model. */
module LegacyRss {
  import opened Wrappers
  import opened JsValues
  import opened RedditLinks
  import Feed

  /** A normalised legacy post. */
  datatype LegacyPost = LegacyPost(
    postId: string, subreddit: Option<string>, title: string, link: string, body: string,
    publishedAt: Option<int>, raw: Feed.FeedItem)

  /** The post without its `raw` item, in the engine's record shape. */
  function AsPost(p: LegacyPost): Feed.Post {
    Feed.Post(p.postId, p.subreddit, p.title, p.body, p.link, p.publishedAt)
  }

  /** One item of normalizeFeedItems' map; `None` when it has no post id. */
  function NormalizeItem(item: Feed.FeedItem, dateParse: string -> Num): Option<LegacyPost> {
    var link := OrDefault(item.link, "");
    var guid := OrDefault(Or(item.guid, item.id), "");
    match ExtractPostId(link, guid)
    case None => None
    case Some(postId) =>
      var subreddit := ExtractSubreddit(Some(link));
      Some(LegacyPost(
        postId,
        if Truthy(subreddit) then subreddit else None,
        OrDefault(item.title, ""),
        link,
        OrDefault(Or(Or(item.contentSnippet, item.content), item.summary), ""),
        UnixSecondsFromDateString(Or(item.isoDate, item.pubDate), dateParse),
        item))
  }

  function NormalizeItems(items: seq<Feed.FeedItem>, dateParse: string -> Num): seq<LegacyPost>
    decreases |items|
  {
    if items == [] then []
    else
      var last := NormalizeItem(items[|items| - 1], dateParse);
      NormalizeItems(items[..|items| - 1], dateParse) + (if last.Some? then [last.value] else [])
  }

  /** normalizeFeedItems: a feed without an items array gives no posts. */
  function NormalizeFeedItems(feed: Feed.ParsedFeed, dateParse: string -> Num): seq<LegacyPost> {
    if feed.items.None? then [] else NormalizeItems(feed.items.value, dateParse)
  }

  /** An item yields a legacy post exactly when it yields an engine post, and the two
      agree on every shared field; `raw` is the item itself. The `|| null` never
      changes the subreddit, which is never the empty string. */
  lemma NormalizeItemAgrees(item: Feed.FeedItem, dateParse: string -> Num)
    ensures NormalizeItem(item, dateParse).Some? <==> Feed.NormalizeItem(item, dateParse).Some?
    ensures NormalizeItem(item, dateParse).Some? ==>
      && AsPost(NormalizeItem(item, dateParse).value) == Feed.NormalizeItem(item, dateParse).value
      && NormalizeItem(item, dateParse).value.raw == item
  {
    var link := OrDefault(item.link, "");
    ExtractSubredditSpec(Some(link));
    var sub := ExtractSubreddit(Some(link));
    if sub.Some? && link != "" {
      var p :| 0 <= p <= |link| && SubredditMatch(link, p, sub.value);
    }
  }

  /** Every post of the legacy normalisation, stripped of `raw`, is the engine's
      normalisation of the same feed, in the same order. */
  lemma {:induction false} NormalizeItemsAgree(items: seq<Feed.FeedItem>, dateParse: string -> Num)
    ensures var r := NormalizeItems(items, dateParse);
      && |r| == |Feed.NormalizeItems(items, dateParse)|
      && forall j | 0 <= j < |r| :: AsPost(r[j]) == Feed.NormalizeItems(items, dateParse)[j]
    decreases |items|
  {
    if items != [] {
      NormalizeItemsAgree(items[..|items| - 1], dateParse);
      NormalizeItemAgrees(items[|items| - 1], dateParse);
    }
  }

  /** Items are kept in order, exactly those with a post id, each carrying its own
      item as `raw`. */
  lemma {:induction false} RawItemsKept(items: seq<Feed.FeedItem>, dateParse: string -> Num)
    ensures var idx := Feed.KeptIndices(items, dateParse);
            var r := NormalizeItems(items, dateParse);
      && |r| == |idx|
      && forall j | 0 <= j < |r| :: idx[j] < |items| && r[j].raw == items[idx[j]]
    decreases |items|
  {
    if items != [] {
      var p := items[..|items| - 1];
      RawItemsKept(p, dateParse);
      NormalizeItemAgrees(items[|items| - 1], dateParse);
      var idx, r := Feed.KeptIndices(p, dateParse), NormalizeItems(p, dateParse);
      forall j | 0 <= j < |r| ensures r[j].raw == items[idx[j]] {
        assert p[idx[j]] == items[idx[j]];
      }
    }
  }
}
