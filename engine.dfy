/** server/lib/engine.js: the ingestion run and the re-analysis run. The remote calls
    are oracles passed in as functions: `analyze` (analyzePost), `embed`
    (getEmbedding), `knn` (the k = 1 vector query against the current vector table),
    `notify` (the Discord notification), `newId` (the UUID of the n-th cluster the run
    creates), `fetchAttempt` and `dateParse` (the feed). A thrown error is a
    `Failure` carrying its message; the database keeps whatever the run had already
    committed. */
module Engine {
  import opened Wrappers
  import opened Text
  import opened JsValues
  import opened EngineStats
  import opened Heuristics
  import opened Feed
  import opened Store
  import opened Clustering
  import opened Progress

  const VecMissingIngestMessage: string :=
    "sqlite-vec extension is not available. Install/load sqlite-vec before running ingestion."
  const VecMissingRerunMessage: string :=
    "sqlite-vec extension is not available. Install/load sqlite-vec before running re-analysis."
  const NoIdeaText: string := "No AI idea available."

  /** What sendDiscordNewPostNotification does: resolve with `sent` true or false, or
      throw. */
  datatype NotifyOutcome = Sent | NotSent | Threw

  /** The `clusterMode` of a notification. */
  datatype ClusterMode = Existing | New

  /** `subredditList || settings.subreddit_list`: any array, even an empty one, wins. */
  function EffectiveList(arg: ListArg, stored: seq<string>): ListArg {
    if arg.List? then arg else List(stored)
  }

  /** `Number.isFinite(Number(arg)) ? Number(arg) : settings.cluster_distance_threshold`. */
  function EffectiveThreshold(arg: Num, settings: IngestSettings): real {
    if arg.Finite? then arg.r else settings.clusterDistanceThreshold
  }

  /** `posts.filter(passesHeuristicFilter)`, in feed order. */
  function FilterPosts(posts: seq<Post>, regex: Option<PainRegex>): (r: seq<Post>)
    ensures |r| <= |posts|
    ensures forall p | p in r :: p in posts && PassesHeuristicFilter(Some(p.title), Some(p.body), regex)
    ensures forall p | p in posts && PassesHeuristicFilter(Some(p.title), Some(p.body), regex) :: p in r
    decreases |posts|
  {
    if posts == [] then []
    else
      var rest := FilterPosts(posts[..|posts| - 1], regex);
      var p := posts[|posts| - 1];
      assert forall q | q in posts :: q in posts[..|posts| - 1] || q == p;
      if PassesHeuristicFilter(Some(p.title), Some(p.body), regex) then rest + [p] else rest
  }

  /** Without a regex every post passes. */
  lemma {:induction false} FilterFailOpen(posts: seq<Post>)
    ensures FilterPosts(posts, None) == posts
    decreases |posts|
  {
    if posts != [] {
      FilterFailOpen(posts[..|posts| - 1]);
      assert posts[..|posts| - 1] + [posts[|posts| - 1]] == posts;
    }
  }

  /** The counter identities of a finished ingestion loop. */
  predicate IngestCounts(st: IngestStats) {
    && st.deduped + st.analyzed == st.filtered
    && st.analyzed == st.skipped + st.clusteredExisting + st.clusteredNew
    && st.notified + st.notifyErrors <= st.clusteredExisting + st.clusteredNew
  }

  /** Counts one notification: `sent` adds to `notified`, a throw to `notifyErrors`,
      and neither stops the loop. */
  function CountNotification(st: IngestStats, outcome: NotifyOutcome): (r: IngestStats)
    ensures r.notified == st.notified + (if outcome == Sent then 1 else 0)
    ensures r.notifyErrors == st.notifyErrors + (if outcome == Threw then 1 else 0)
    ensures r.(notified := st.notified, notifyErrors := st.notifyErrors) == st
  {
    match outcome
    case Sent => st.(notified := st.notified + 1)
    case NotSent => st
    case Threw => st.(notifyErrors := st.notifyErrors + 1)
  }

  /** Where a post went: nowhere (not an opportunity), into an existing cluster, or
      into a cluster created for it. */
  datatype Placement = Skipped | Joined(clusterId: string) | Created(clusterId: string)

  /** The cluster an embedding joins: the one findNearestCluster picks from the nearest
      vector within the threshold, unless its id is empty. None means the post needs a
      cluster of its own. */
  function JoinTarget(clusters: map<string, Cluster>, vectors: map<int, seq<real>>, embedding: seq<real>,
                      threshold: real, knn: (seq<real>, map<int, seq<real>>) -> Option<VectorMatch>)
    : (r: Option<string>)
    requires RowidsDistinct(clusters)
    ensures r.Some? ==>
      && knn(embedding, vectors).Some? && knn(embedding, vectors).value.distance <= threshold
      && r.value in clusters && r.value != ""
      && clusters[r.value].rowid == knn(embedding, vectors).value.rowid
    ensures r.None? ==>
      || knn(embedding, vectors).None?
      || knn(embedding, vectors).value.distance > threshold
      || forall c | c in clusters && clusters[c].rowid == knn(embedding, vectors).value.rowid :: c == ""
  {
    var n := FindNearestCluster(clusters, knn(embedding, vectors), threshold);
    if n.Some? && n.value.clusterId != "" then Some(n.value.clusterId) else None
  }

  /** The cluster, post and vector tables a placement reads and writes. */
  datatype Tables = Tables(clusters: map<string, Cluster>, posts: map<string, AnalyzedPost>,
                           vectors: map<int, seq<real>>)

  /** The tables a re-analysis replays into: all three emptied. */
  const EmptyTables := Tables(map[], map[], map[])

  /** One analysed post of a run: the post, its analysis, the analysis a cluster created
      for it gets (`creation`), the tables it was placed against (`met`), and where it
      went. */
  datatype Placed = Placed(post: Post, analysis: Analysis, creation: Analysis, met: Tables, placement: Placement)

  /** The placement rule: a non-opportunity is skipped; an opportunity's pain point is
      embedded, and the post joins the cluster JoinTarget names or else gets a new one. */
  predicate Decided(e: Placed, threshold: real, embed: string -> Result<seq<real>, string>,
                    knn: (seq<real>, map<int, seq<real>>) -> Option<VectorMatch>)
  {
    && RowidsDistinct(e.met.clusters)
    && (e.placement.Skipped? <==> !e.analysis.isOpportunity)
    && (e.analysis.isOpportunity ==>
          && embed(e.analysis.painPointSummary).Success?
          && var target := JoinTarget(e.met.clusters, e.met.vectors, embed(e.analysis.painPointSummary).value, threshold, knn);
          && (e.placement.Joined? <==> target.Some?)
          && (e.placement.Joined? ==> target == Some(e.placement.clusterId)))
  }

  /** The id of the cluster a placement created, when it created one. */
  function CreatedId(p: Placement): set<string> {
    if p.Created? then {p.clusterId} else {}
  }

  /** The id of the post an entry stored: every post that was not skipped. */
  function EntryPlacedId(e: Placed): set<string> {
    if e.placement.Skipped? then {} else {e.post.postId}
  }

  /** The number of posts of a log that joined an existing cluster. */
  function CountJoined(log: seq<Placed>): nat {
    if log == [] then 0
    else CountJoined(log[..|log| - 1]) + if log[|log| - 1].placement.Joined? then 1 else 0
  }

  /** The number of posts of a log that got a cluster of their own. */
  function CountCreated(log: seq<Placed>): nat {
    if log == [] then 0
    else CountCreated(log[..|log| - 1]) + if log[|log| - 1].placement.Created? then 1 else 0
  }

  /** The ids of the posts a log placed in a cluster. */
  function PlacedIds(log: seq<Placed>): set<string> {
    if log == [] then {}
    else PlacedIds(log[..|log| - 1]) + EntryPlacedId(log[|log| - 1])
  }

  /** The ids of the clusters a log created. */
  function CreatedClusterIds(log: seq<Placed>): set<string> {
    if log == [] then {}
    else CreatedClusterIds(log[..|log| - 1]) + CreatedId(log[|log| - 1].placement)
  }

  /** The vector table after an entry: a created cluster's vector, under the rowid it
      got, holds the embedding of the pain point. */
  function WithCreatedVector(vectors: map<int, seq<real>>, e: Placed, embed: string -> Result<seq<real>, string>)
    : map<int, seq<real>>
  {
    if e.placement.Created? && embed(e.analysis.painPointSummary).Success? then
      vectors[NextRowid(e.met.clusters) := embed(e.analysis.painPointSummary).value]
    else vectors
  }

  /** The tables an entry left behind. A post joining a cluster is stored under it, and
      the cluster's count and last-seen time move, unless the post was stored already; a
      created cluster gets its row under the next rowid, its vector, and the post's row. */
  function After(e: Placed, now: int, embed: string -> Result<seq<real>, string>): Tables {
    var t := e.met;
    match e.placement
    case Skipped => t
    case Joined(c) =>
      if c in t.clusters && e.post.postId !in t.posts then
        Tables(t.clusters[c := t.clusters[c].(postCount := t.clusters[c].postCount + 1, lastSeenAt := now)],
               t.posts[e.post.postId := PostRow(c, e.post, now)], t.vectors)
      else t
    case Created(id) =>
      Tables(t.clusters[id := NewCluster(NextRowid(t.clusters), e.creation, now)],
             t.posts[e.post.postId := PostRow(id, e.post, now)], WithCreatedVector(t.vectors, e, embed))
  }

  /** The entries of a log met the tables in turn: the first met `t0`, and each later
      one the tables the entry before it left. */
  predicate Chained(t0: Tables, log: seq<Placed>, now: int, embed: string -> Result<seq<real>, string>) {
    && (|log| > 0 ==> log[0].met == t0)
    && forall k | 0 < k < |log| :: log[k].met == After(log[k - 1], now, embed)
  }

  /** The tables after a chained log that began on `t0`. */
  function Through(t0: Tables, log: seq<Placed>, now: int, embed: string -> Result<seq<real>, string>): Tables {
    if log == [] then t0 else After(log[|log| - 1], now, embed)
  }

  /** An entry placed against the tables a chained log left extends the chain. */
  lemma ChainStep(t0: Tables, log: seq<Placed>, e: Placed, now: int, embed: string -> Result<seq<real>, string>)
    requires Chained(t0, log, now, embed) && e.met == Through(t0, log, now, embed)
    ensures Chained(t0, log + [e], now, embed) && Through(t0, log + [e], now, embed) == After(e, now, embed)
  {
    var log' := log + [e];
    forall k | 0 < k < |log'| ensures log'[k].met == After(log'[k - 1], now, embed) {
      if k == |log| {
        assert log'[k - 1] == log[|log| - 1];
      }
    }
  }

  /** What an entry decided by the rule adds to the tables: the post's id unless it was
      skipped, the created cluster's id, and the created cluster's vector. */
  lemma AfterKeys(e: Placed, now: int, embed: string -> Result<seq<real>, string>, threshold: real,
                  knn: (seq<real>, map<int, seq<real>>) -> Option<VectorMatch>)
    requires Decided(e, threshold, embed, knn)
    ensures After(e, now, embed).posts.Keys == e.met.posts.Keys + EntryPlacedId(e)
    ensures After(e, now, embed).clusters.Keys == e.met.clusters.Keys + CreatedId(e.placement)
    ensures After(e, now, embed).vectors == WithCreatedVector(e.met.vectors, e, embed)
  {
  }

  /** The vector table after a log, starting from `vectors`. */
  function VectorsAfter(vectors: map<int, seq<real>>, log: seq<Placed>, embed: string -> Result<seq<real>, string>)
    : map<int, seq<real>>
  {
    if log == [] then vectors
    else WithCreatedVector(VectorsAfter(vectors, log[..|log| - 1], embed), log[|log| - 1], embed)
  }

  /** PlacedIds holds exactly the ids of the entries that were not skipped. */
  lemma {:induction false} PlacedIdsExactly(log: seq<Placed>, id: string)
    ensures id in PlacedIds(log) <==> exists k | 0 <= k < |log| :: !log[k].placement.Skipped? && log[k].post.postId == id
    decreases |log|
  {
    if log != [] {
      var init := log[..|log| - 1];
      PlacedIdsExactly(init, id);
      if exists k | 0 <= k < |init| :: !init[k].placement.Skipped? && init[k].post.postId == id {
        var k :| 0 <= k < |init| && !init[k].placement.Skipped? && init[k].post.postId == id;
        assert log[k] == init[k];
      }
    }
  }

  /** Appending an entry to a log counts it once, under its own placement. */
  lemma LogAppend(log: seq<Placed>, e: Placed, vectors: map<int, seq<real>>, embed: string -> Result<seq<real>, string>)
    ensures CountJoined(log + [e]) == CountJoined(log) + if e.placement.Joined? then 1 else 0
    ensures CountCreated(log + [e]) == CountCreated(log) + if e.placement.Created? then 1 else 0
    ensures PlacedIds(log + [e]) == PlacedIds(log) + EntryPlacedId(e)
    ensures CreatedClusterIds(log + [e]) == CreatedClusterIds(log) + CreatedId(e.placement)
    ensures VectorsAfter(vectors, log + [e], embed) == WithCreatedVector(VectorsAfter(vectors, log, embed), e, embed)
  {
    assert (log + [e])[..|log|] == log;
  }

  /** An entry of a re-analysis log: the replay of its row, with the row's analysis,
      placed by the rule; a cluster created for it falls back on the row's stored idea. */
  predicate ReplayEntry(e: Placed, row: StoredPost, reuse: bool, threshold: real,
                        analyze: (string, string) -> Result<Analysis, string>,
                        embed: string -> Result<seq<real>, string>,
                        knn: (seq<real>, map<int, seq<real>>) -> Option<VectorMatch>)
  {
    && e.post == ReplayPost(row)
    && AnalysisFor(reuse, row, analyze) == Success(e.analysis)
    && e.creation == ForNewCluster(e.analysis, row)
    && Decided(e, threshold, embed, knn)
  }

  /** The replay after the rows of `log`, begun on tables `t0`: each row placed as
      ReplayEntry says against the tables the rows before it left, `t` the tables the
      last one left, and so the tables grown by exactly what the log placed. */
  predicate Replayed(log: seq<Placed>, rows: seq<StoredPost>, reuse: bool, threshold: real, now: int,
                     analyze: (string, string) -> Result<Analysis, string>,
                     embed: string -> Result<seq<real>, string>,
                     knn: (seq<real>, map<int, seq<real>>) -> Option<VectorMatch>,
                     t0: Tables, t: Tables)
  {
    && |log| <= |rows|
    && (forall k | 0 <= k < |log| :: ReplayEntry(log[k], rows[k], reuse, threshold, analyze, embed, knn))
    && Chained(t0, log, now, embed)
    && t == Through(t0, log, now, embed)
    && t.posts.Keys == t0.posts.Keys + PlacedIds(log)
    && t.clusters.Keys == t0.clusters.Keys + CreatedClusterIds(log)
    && t.vectors == VectorsAfter(t0.vectors, log, embed)
  }

  /** The rerun counters after the rows of `log`: one analysed per row, the reused ones
      and the placements of the log counted, and nothing pruned yet. */
  predicate ReplayTally(st: RerunStats, log: seq<Placed>, rows: seq<StoredPost>, reuse: bool) {
    && |log| <= |rows|
    && st.total == |rows| && st.analyzed == |log| && st.prunedOrphans == None
    && RerunCounts(st)
    && st.reusedAnalysis == ReusedCount(reuse, rows, |log|)
    && st.clusteredExisting == CountJoined(log) && st.clusteredNew == CountCreated(log)
  }

  /** A re-analysis log stays well formed when the next row's entry is appended. */
  lemma ReplayLogStep(log: seq<Placed>, e: Placed, rows: seq<StoredPost>, reuse: bool, threshold: real,
                      analyze: (string, string) -> Result<Analysis, string>,
                      embed: string -> Result<seq<real>, string>,
                      knn: (seq<real>, map<int, seq<real>>) -> Option<VectorMatch>)
    requires |log| < |rows|
    requires forall k | 0 <= k < |log| :: ReplayEntry(log[k], rows[k], reuse, threshold, analyze, embed, knn)
    requires ReplayEntry(e, rows[|log|], reuse, threshold, analyze, embed, knn)
    ensures forall k | 0 <= k < |log + [e]| :: ReplayEntry((log + [e])[k], rows[k], reuse, threshold, analyze, embed, knn)
  {
  }

  /** When the counts agree with the posts, a cluster that counts a post has one, so
      pruning keeps every cluster. */
  lemma CountedClustersPruneNothing(clusters: map<string, Cluster>, posts: map<string, AnalyzedPost>)
    requires CountsAgree(clusters, posts) && CountedClusters(clusters)
    ensures forall c | c in clusters :: HasMember(posts, c)
  {
    forall c | c in clusters ensures HasMember(posts, c) {
      MembersEmpty(posts, c);
    }
  }

  /** What pruneOrphanClusters did to `unpruned`: the clusters with a post stay, and
      `pruned` counts the others. */
  predicate PrunedFrom(unpruned: map<string, Cluster>, clusters: map<string, Cluster>, posts: map<string, AnalyzedPost>,
                       pruned: nat)
  {
    && clusters == Pruned(unpruned, posts)
    && pruned == |unpruned.Keys - clusters.Keys|
    && forall c | c in clusters :: HasMember(posts, c)
  }

  /** The error placing a post raises against the given tables, or None when it is
      placed: only an opportunity can fail, on its embedding or, when no cluster is near
      enough, on creating its own cluster under `id`. */
  function PlaceFailure(clusters: map<string, Cluster>, posts: map<string, AnalyzedPost>,
                        vectors: map<int, seq<real>>, analysis: Analysis, post: Post, threshold: real,
                        embed: string -> Result<seq<real>, string>,
                        knn: (seq<real>, map<int, seq<real>>) -> Option<VectorMatch>,
                        id: string): Option<string>
    requires RowidsDistinct(clusters)
  {
    if !analysis.isOpportunity then None
    else
      var embedding := embed(analysis.painPointSummary);
      if embedding.Failure? then Some(embedding.error)
      else if JoinTarget(clusters, vectors, embedding.value, threshold, knn).Some? then None
      else CreateFailure(clusters, posts, vectors, id, embedding.value, post.postId)
  }

  /** An opportunity whose pain point has its embedding: the nearest cluster within the
      threshold takes the post, and failing one a new cluster is created (from
      `creation`) under `id`. */
  method PlaceEmbedded(db: Database, embedding: seq<real>, creation: Analysis, post: Post, threshold: real, now: int,
                       knn: (seq<real>, map<int, seq<real>>) -> Option<VectorMatch>,
                       id: string)
    returns (r: Result<Placement, string>)
    requires db.Consistent()
    modifies db
    ensures db.Consistent()
    ensures db.settingsRow == old(db.settingsRow)
    ensures r.Failure? ==> db.clusters == old(db.clusters) && db.posts == old(db.posts) && db.vectors == old(db.vectors)
    ensures r.Success? ==> post.postId in db.posts
    ensures forall c :: c in db.clusters <==> c in old(db.clusters) || (r.Success? && c in CreatedId(r.value))
    ensures forall id :: id in db.posts <==> id in old(db.posts) || (r.Success? && id == post.postId)
    ensures CountedClusters(old(db.clusters)) ==> CountedClusters(db.clusters)
    // Joining: the nearest cluster within the threshold always takes the post; its row
    // goes into the cluster, whose count and last-seen time move.
    ensures JoinTarget(old(db.clusters), old(db.vectors), embedding, threshold, knn).Some? ==>
      r == Success(Joined(JoinTarget(old(db.clusters), old(db.vectors), embedding, threshold, knn).value))
    ensures r.Success? && r.value.Joined? ==>
      var c := r.value.clusterId;
      && c in old(db.clusters)
      && db.vectors == old(db.vectors)
      && (post.postId in old(db.posts) ==> db.posts == old(db.posts) && db.clusters == old(db.clusters))
      && (post.postId !in old(db.posts) ==>
            && db.posts == old(db.posts)[post.postId := PostRow(c, post, now)]
            && db.clusters == old(db.clusters)[c := old(db.clusters)[c].(postCount := old(db.clusters)[c].postCount + 1, lastSeenAt := now)])
    // Creating: it fails exactly when createClusterFromPost's transaction does.
    ensures JoinTarget(old(db.clusters), old(db.vectors), embedding, threshold, knn).None? ==>
      && (r.Success? ==> r.value.Created?)
      && CreateFailure(old(db.clusters), old(db.posts), old(db.vectors), id, embedding, post.postId)
         == (if r.Failure? then Some(r.error) else None)
    ensures r.Success? && r.value.Created? ==>
      var rowid := NextRowid(old(db.clusters));
      && r.value.clusterId == id
      && db.clusters == old(db.clusters)[id := NewCluster(rowid, creation, now)]
      && db.vectors == old(db.vectors)[rowid := embedding]
      && db.posts == old(db.posts)[post.postId := PostRow(id, post, now)]
  {
    var target := JoinTarget(db.clusters, db.vectors, embedding, threshold, knn);
    if target.Some? {
      // The cluster exists, so the insert cannot meet a foreign-key error.
      var attached := AttachPostToCluster(db, target.value, post, now);
      return Success(Joined(target.value));
    }
    var created := CreateClusterFromPost(db, id, creation, embedding, post, now);
    if created.Failure? {
      return Failure(created.error);
    }
    r := Success(Created(created.value));
  }

  /** The part both loops share once a post has its analysis: a non-opportunity stops
      there; otherwise the pain point is embedded and PlaceEmbedded places it. */
  method PlacePost(db: Database, analysis: Analysis, creation: Analysis, post: Post, threshold: real, now: int,
                   embed: string -> Result<seq<real>, string>,
                   knn: (seq<real>, map<int, seq<real>>) -> Option<VectorMatch>,
                   id: string)
    returns (r: Result<Placement, string>)
    requires db.Consistent()
    modifies db
    ensures db.Consistent()
    ensures db.settingsRow == old(db.settingsRow)
    ensures old(db.posts).Keys <= db.posts.Keys && old(db.clusters).Keys <= db.clusters.Keys
    ensures !analysis.isOpportunity ==> r == Success(Skipped) && unchanged(db)
    ensures r.Success? ==>
      Decided(Placed(post, analysis, creation, Tables(old(db.clusters), old(db.posts), old(db.vectors)), r.value),
              threshold, embed, knn)
    // The tables it leaves are those its entry describes.
    ensures r.Success? ==>
      Tables(db.clusters, db.posts, db.vectors)
      == After(Placed(post, analysis, creation, Tables(old(db.clusters), old(db.posts), old(db.vectors)), r.value),
               now, embed)
    // It fails exactly when the embedding or the new cluster's transaction does, with
    // that error, and a failure leaves the tables as they were.
    ensures PlaceFailure(old(db.clusters), old(db.posts), old(db.vectors), analysis, post, threshold, embed, knn, id)
            == (if r.Failure? then Some(r.error) else None)
    ensures analysis.isOpportunity && embed(analysis.painPointSummary).Failure? ==>
      r == Failure(embed(analysis.painPointSummary).error) && unchanged(db)
    ensures r.Failure? ==> db.clusters == old(db.clusters) && db.posts == old(db.posts) && db.vectors == old(db.vectors)
    ensures analysis.isOpportunity && r.Success? ==> post.postId in db.posts
    ensures forall c :: c in db.clusters <==> c in old(db.clusters) || (r.Success? && c in CreatedId(r.value))
    ensures forall id :: id in db.posts <==> id in old(db.posts) || (r.Success? && !r.value.Skipped? && id == post.postId)
    ensures CountedClusters(old(db.clusters)) ==> CountedClusters(db.clusters)
    ensures analysis.isOpportunity && embed(analysis.painPointSummary).Success?
            && JoinTarget(old(db.clusters), old(db.vectors), embed(analysis.painPointSummary).value, threshold, knn).Some? ==>
      r == Success(Joined(JoinTarget(old(db.clusters), old(db.vectors), embed(analysis.painPointSummary).value, threshold, knn).value))
    ensures r.Success? && r.value.Joined? ==>
      var c := r.value.clusterId;
      && c in old(db.clusters)
      && db.vectors == old(db.vectors)
      && (post.postId in old(db.posts) ==> db.posts == old(db.posts) && db.clusters == old(db.clusters))
      && (post.postId !in old(db.posts) ==>
            && db.posts == old(db.posts)[post.postId := PostRow(c, post, now)]
            && db.clusters == old(db.clusters)[c := old(db.clusters)[c].(postCount := old(db.clusters)[c].postCount + 1, lastSeenAt := now)])
    // Creating: refused exactly when createClusterFromPost's transaction fails.
    ensures analysis.isOpportunity && embed(analysis.painPointSummary).Success?
            && JoinTarget(old(db.clusters), old(db.vectors), embed(analysis.painPointSummary).value, threshold, knn).None? ==>
      (r.Failure? <==>
        || id in old(db.clusters)
        || |embed(analysis.painPointSummary).value| != EmbeddingDimension
        || NextRowid(old(db.clusters)) in old(db.vectors)
        || post.postId in old(db.posts))
    ensures r.Success? && r.value.Created? ==>
      var rowid := NextRowid(old(db.clusters));
      && r.value.clusterId == id
      && db.clusters == old(db.clusters)[id := NewCluster(rowid, creation, now)]
      && db.vectors == old(db.vectors)[rowid := embed(analysis.painPointSummary).value]
      && db.posts == old(db.posts)[post.postId := PostRow(id, post, now)]
  {
    if !analysis.isOpportunity {
      return Success(Skipped);
    }
    var embedding := embed(analysis.painPointSummary);
    if embedding.Failure? {
      return Failure(embedding.error);
    }
    r := PlaceEmbedded(db, embedding.value, creation, post, threshold, now, knn, id);
  }

  /** What the ingestion loop did with one filtered post, given the tables it met when
      the post came up: passed over as already stored, or analysed, placed and, when it
      went into a cluster, notified about. */
  datatype Visit =
    | Deduped(post: Post, met: Tables)
    | Analysed(post: Post, met: Tables, entry: Placed, notice: Option<NotifyOutcome>)

  /** The notification a placement sends: none for a skipped post; otherwise one about
      the post's cluster, in the mode that says whether the cluster is new. */
  function NoticeFor(post: Post, analysis: Analysis, p: Placement,
                     notify: (Post, Analysis, string, ClusterMode) -> NotifyOutcome): Option<NotifyOutcome>
  {
    match p
    case Skipped => None
    case Joined(c) => Some(notify(post, analysis, c, Existing))
    case Created(c) => Some(notify(post, analysis, c, New))
  }

  function Notice(e: Placed, notify: (Post, Analysis, string, ClusterMode) -> NotifyOutcome): Option<NotifyOutcome> {
    NoticeFor(e.post, e.analysis, e.placement, notify)
  }

  /** The counters a placed post moves: its placement's, and its notification's. */
  function TallyPlaced(st: IngestStats, p: Placement, notice: Option<NotifyOutcome>): (r: IngestStats)
    ensures r.skipped == st.skipped + (if p.Skipped? then 1 else 0)
    ensures r.clusteredExisting == st.clusteredExisting + (if p.Joined? then 1 else 0)
    ensures r.clusteredNew == st.clusteredNew + (if p.Created? then 1 else 0)
    ensures r.notified == st.notified + (if notice == Some(Sent) then 1 else 0)
    ensures r.notifyErrors == st.notifyErrors + (if notice == Some(Threw) then 1 else 0)
    ensures r.total == st.total && r.filtered == st.filtered && r.deduped == st.deduped
    ensures r.analyzed == st.analyzed && r.prunedOrphans == st.prunedOrphans
  {
    var placedCount := match p
      case Skipped => st.(skipped := st.skipped + 1)
      case Joined(_) => st.(clusteredExisting := st.clusteredExisting + 1)
      case Created(_) => st.(clusteredNew := st.clusteredNew + 1);
    if notice.Some? then CountNotification(placedCount, notice.value) else placedCount
  }

  /** One visit of the ingestion loop, to `post`: a post already stored is passed over;
      every other one goes to the AI, is placed by the rule, and is notified about. */
  predicate IngestVisit(v: Visit, post: Post, threshold: real,
                        analyze: (string, string) -> Result<Analysis, string>,
                        embed: string -> Result<seq<real>, string>,
                        knn: (seq<real>, map<int, seq<real>>) -> Option<VectorMatch>,
                        notify: (Post, Analysis, string, ClusterMode) -> NotifyOutcome)
  {
    && v.post == post
    && (v.Deduped? <==> post.postId in v.met.posts)
    && (v.Analysed? ==>
          && v.entry.post == post
          && v.entry.met == v.met
          && analyze(post.title, post.body) == Success(v.entry.analysis)
          && v.entry.creation == v.entry.analysis
          && Decided(v.entry, threshold, embed, knn)
          && v.notice == Notice(v.entry, notify))
  }

  /** The tables after a visit: a passed-over post changes nothing. */
  function VisitAfter(v: Visit, now: int, embed: string -> Result<seq<real>, string>): Tables {
    if v.Analysed? then After(v.entry, now, embed) else v.met
  }

  /** The tables after a run of visits that began on `t0`. */
  function VisitsThrough(t0: Tables, visits: seq<Visit>, now: int, embed: string -> Result<seq<real>, string>): Tables {
    if visits == [] then t0 else VisitAfter(visits[|visits| - 1], now, embed)
  }

  /** The visits of the ingestion loop so far, over `filtered` in order: each visit is
      to the next filtered post and met the tables the previous one left (the first,
      the tables before the run, `t0`), and `t` is what the last one left. */
  predicate VisitsFollow(visits: seq<Visit>, filtered: seq<Post>, t0: Tables, t: Tables,
                         threshold: real, now: int,
                         analyze: (string, string) -> Result<Analysis, string>,
                         embed: string -> Result<seq<real>, string>,
                         knn: (seq<real>, map<int, seq<real>>) -> Option<VectorMatch>,
                         notify: (Post, Analysis, string, ClusterMode) -> NotifyOutcome)
  {
    && |visits| <= |filtered|
    && (forall j | 0 <= j < |visits| :: IngestVisit(visits[j], filtered[j], threshold, analyze, embed, knn, notify))
    && (|visits| > 0 ==> visits[0].met == t0)
    && (forall j | 0 < j < |visits| :: visits[j].met == VisitAfter(visits[j - 1], now, embed))
    && t == VisitsThrough(t0, visits, now, embed)
  }

  /** The kinds of visit the ingestion counters tell apart. */
  datatype VisitKind = WasStored | WasSkipped | WasJoined | WasCreated

  function KindOf(v: Visit): VisitKind {
    if v.Deduped? then WasStored
    else match v.entry.placement
      case Skipped => WasSkipped
      case Joined(_) => WasJoined
      case Created(_) => WasCreated
  }

  /** A visit whose notification had outcome `n`. */
  predicate Notified(v: Visit, n: NotifyOutcome) {
    v.Analysed? && v.notice == Some(n)
  }

  /** The ids of the clusters a visit created. */
  function VisitCreatedId(v: Visit): set<string> {
    if v.Analysed? then CreatedId(v.entry.placement) else {}
  }

  /** The number of visits of kind `k`. */
  function CountKind(visits: seq<Visit>, k: VisitKind): nat {
    if visits == [] then 0
    else CountKind(visits[..|visits| - 1], k) + if KindOf(visits[|visits| - 1]) == k then 1 else 0
  }

  /** The number of notifications with outcome `n`. */
  function CountNotices(visits: seq<Visit>, n: NotifyOutcome): nat {
    if visits == [] then 0
    else CountNotices(visits[..|visits| - 1], n) + if Notified(visits[|visits| - 1], n) then 1 else 0
  }

  /** The ids of the clusters a run of visits created. */
  function VisitCreatedIds(visits: seq<Visit>): set<string> {
    if visits == [] then {}
    else VisitCreatedIds(visits[..|visits| - 1]) + VisitCreatedId(visits[|visits| - 1])
  }

  /** The ingestion counters of a run are the numbers of its visits of each kind and of
      its notifications of each outcome. */
  predicate Tallies(st: IngestStats, visits: seq<Visit>) {
    && st.deduped == CountKind(visits, WasStored)
    && st.deduped + st.analyzed == |visits|
    && st.skipped == CountKind(visits, WasSkipped)
    && st.clusteredExisting == CountKind(visits, WasJoined)
    && st.clusteredNew == CountKind(visits, WasCreated)
    && st.notified == CountNotices(visits, Sent)
    && st.notifyErrors == CountNotices(visits, Threw)
  }

  /** How one visit moves the counters: one of deduped, skipped, clusteredExisting and
      clusteredNew by its kind, analyzed unless it was passed over, and the
      notification counter its outcome names. */
  predicate CountsVisit(st: IngestStats, next: IngestStats, v: Visit) {
    && next.total == st.total && next.filtered == st.filtered && next.prunedOrphans == st.prunedOrphans
    && next.deduped == st.deduped + (if KindOf(v) == WasStored then 1 else 0)
    && next.analyzed == st.analyzed + (if KindOf(v) == WasStored then 0 else 1)
    && next.skipped == st.skipped + (if KindOf(v) == WasSkipped then 1 else 0)
    && next.clusteredExisting == st.clusteredExisting + (if KindOf(v) == WasJoined then 1 else 0)
    && next.clusteredNew == st.clusteredNew + (if KindOf(v) == WasCreated then 1 else 0)
    && next.notified == st.notified + (if Notified(v, Sent) then 1 else 0)
    && next.notifyErrors == st.notifyErrors + (if Notified(v, Threw) then 1 else 0)
  }

  /** The counters partway through the ingestion loop over `filtered` of `total` posts:
      nothing pruned yet, every analysed post counted under one placement, at most one
      notification outcome per clustered post, and the tallies of the visits so far. */
  predicate IngestProgress(st: IngestStats, visits: seq<Visit>, total: nat, filtered: nat) {
    && st.total == total && st.filtered == filtered && st.prunedOrphans == 0
    && st.analyzed == st.skipped + st.clusteredExisting + st.clusteredNew
    && st.notified + st.notifyErrors <= st.clusteredExisting + st.clusteredNew
    && Tallies(st, visits)
  }

  /** A visit counted by CountsVisit keeps IngestProgress when its notification, if
      any, is about a clustered post. */
  lemma IngestProgressStep(st: IngestStats, next: IngestStats, visits: seq<Visit>, v: Visit, total: nat, filtered: nat)
    requires IngestProgress(st, visits, total, filtered) && CountsVisit(st, next, v)
    requires v.Analysed? && v.notice.Some? ==> !v.entry.placement.Skipped?
    ensures IngestProgress(next, visits + [v], total, filtered)
  {
    VisitsAppend(visits, v);
  }

  /** An analysed post counts once as analysed and once under its placement and its
      notification's outcome. */
  lemma TallyCountsVisit(st: IngestStats, v: Visit)
    requires v.Analysed?
    ensures CountsVisit(st, TallyPlaced(st.(analyzed := st.analyzed + 1), v.entry.placement, v.notice), v)
  {
  }

  /** Appending a visit counts it once, under its own kind and notification outcome. */
  lemma VisitsAppend(visits: seq<Visit>, v: Visit)
    ensures forall k :: CountKind(visits + [v], k) == CountKind(visits, k) + if KindOf(v) == k then 1 else 0
    ensures forall n :: CountNotices(visits + [v], n) == CountNotices(visits, n) + if Notified(v, n) then 1 else 0
    ensures VisitCreatedIds(visits + [v]) == VisitCreatedIds(visits) + VisitCreatedId(v)
  {
    assert (visits + [v])[..|visits|] == visits;
  }

  /** The visits stay in step with the filtered posts when the next post's visit, made
      against the tables the last one left, is appended. */
  lemma VisitStep(visits: seq<Visit>, v: Visit, filtered: seq<Post>, t0: Tables, t: Tables,
                  threshold: real, now: int,
                  analyze: (string, string) -> Result<Analysis, string>,
                  embed: string -> Result<seq<real>, string>,
                  knn: (seq<real>, map<int, seq<real>>) -> Option<VectorMatch>,
                  notify: (Post, Analysis, string, ClusterMode) -> NotifyOutcome)
    requires VisitsFollow(visits, filtered, t0, t, threshold, now, analyze, embed, knn, notify)
    requires |visits| < |filtered|
    requires IngestVisit(v, filtered[|visits|], threshold, analyze, embed, knn, notify) && v.met == t
    ensures VisitsFollow(visits + [v], filtered, t0, VisitAfter(v, now, embed), threshold, now, analyze, embed, knn, notify)
  {
    var visits' := visits + [v];
    forall j | 0 < j < |visits'| ensures visits'[j].met == VisitAfter(visits'[j - 1], now, embed) {
      if j == |visits| {
        assert visits'[j - 1] == visits[|visits| - 1];
      }
    }
  }

  /** The error the loop meets at `post`, against the given tables, or None when the
      post goes through: a stored post is passed over; otherwise the AI's error, or the
      error placing the post. */
  function StepError(post: Post, clusters: map<string, Cluster>, posts: map<string, AnalyzedPost>,
                     vectors: map<int, seq<real>>, threshold: real,
                     analyze: (string, string) -> Result<Analysis, string>,
                     embed: string -> Result<seq<real>, string>,
                     knn: (seq<real>, map<int, seq<real>>) -> Option<VectorMatch>,
                     id: string): Option<string>
    requires RowidsDistinct(clusters)
  {
    if post.postId in posts then None
    else match analyze(post.title, post.body)
      case Failure(e) => Some(e)
      case Success(a) => PlaceFailure(clusters, posts, vectors, a, post, threshold, embed, knn, id)
  }

  /** The loop stopped, with `err`, at the filtered post after its visits: the error that
      post raises against the tables the visits left, with the id the next new cluster
      would have taken. */
  predicate IngestStoppedAt(err: string, visits: seq<Visit>, filtered: seq<Post>, clusters: map<string, Cluster>,
                            posts: map<string, AnalyzedPost>, vectors: map<int, seq<real>>, threshold: real,
                            analyze: (string, string) -> Result<Analysis, string>,
                            embed: string -> Result<seq<real>, string>,
                            knn: (seq<real>, map<int, seq<real>>) -> Option<VectorMatch>,
                            newId: nat -> string)
  {
    && RowidsDistinct(clusters)
    && |visits| < |filtered|
    && StepError(filtered[|visits|], clusters, posts, vectors, threshold, analyze, embed, knn,
                 newId(CountKind(visits, WasCreated))) == Some(err)
  }

  /** One pass of the ingestion loop's body: skip a stored post, otherwise analyse the
      post (an error ends the run), place it under the id the next new cluster takes,
      and notify about a clustered post, counting the outcome. */
  method IngestOne(db: Database, post: Post, stats: IngestStats, threshold: real, now: int,
                   analyze: (string, string) -> Result<Analysis, string>,
                   embed: string -> Result<seq<real>, string>,
                   knn: (seq<real>, map<int, seq<real>>) -> Option<VectorMatch>,
                   notify: (Post, Analysis, string, ClusterMode) -> NotifyOutcome,
                   newId: nat -> string)
    returns (r: Result<IngestStats, string>, ghost visit: Visit)
    requires db.Consistent()
    modifies db
    ensures db.Consistent() && db.settingsRow == old(db.settingsRow)
    ensures old(db.posts).Keys <= db.posts.Keys
    ensures StepError(post, old(db.clusters), old(db.posts), old(db.vectors), threshold, analyze, embed, knn,
                      newId(stats.clusteredNew)) == (if r.Failure? then Some(r.error) else None)
    ensures r.Failure? ==> db.clusters == old(db.clusters) && db.posts == old(db.posts) && db.vectors == old(db.vectors)
    // The visit met the current tables and the tables it leaves are those it describes.
    ensures r.Success? ==>
      && IngestVisit(visit, post, threshold, analyze, embed, knn, notify)
      && visit.met == Tables(old(db.clusters), old(db.posts), old(db.vectors))
      && Tables(db.clusters, db.posts, db.vectors) == VisitAfter(visit, now, embed)
      && (forall c :: c in db.clusters <==> c in old(db.clusters) || c in VisitCreatedId(visit))
      && CountsVisit(stats, r.value, visit)
  {
    visit := Deduped(post, Tables(db.clusters, db.posts, db.vectors));
    if db.IsPostAlreadyAnalyzed(post.postId) {
      return Success(stats.(deduped := stats.deduped + 1)), visit;
    }
    var analysis := analyze(post.title, post.body);
    if analysis.Failure? {
      return Failure(analysis.error), visit;
    }
    var next := stats.(analyzed := stats.analyzed + 1);
    ghost var entry := Placed(post, analysis.value, analysis.value, visit.met, Skipped);
    var placed := PlacePost(db, analysis.value, analysis.value, post, threshold, now, embed, knn, newId(stats.clusteredNew));
    if placed.Failure? {
      return Failure(placed.error), visit;
    }
    entry := entry.(placement := placed.value);
    var notice := NoticeFor(post, analysis.value, placed.value, notify);
    visit := Analysed(post, entry.met, entry, notice);
    r := Success(TallyPlaced(next, placed.value, notice));
    TallyCountsVisit(stats, visit);
  }

  /** One more visit keeps the ingestion loop's invariants: the visits follow the
      filtered posts, each against the tables the one before it left, the cluster table
      holds the old clusters and those the visits created, and the counters tally the
      visits. */
  lemma IngestLoopStep(visits: seq<Visit>, v: Visit, filtered: seq<Post>, t0: Tables, t: Tables, t': Tables,
                       base: set<string>, st: IngestStats, next: IngestStats, total: nat, threshold: real, now: int,
                       analyze: (string, string) -> Result<Analysis, string>,
                       embed: string -> Result<seq<real>, string>,
                       knn: (seq<real>, map<int, seq<real>>) -> Option<VectorMatch>,
                       notify: (Post, Analysis, string, ClusterMode) -> NotifyOutcome)
    requires VisitsFollow(visits, filtered, t0, t, threshold, now, analyze, embed, knn, notify)
    requires |visits| < |filtered|
    requires IngestVisit(v, filtered[|visits|], threshold, analyze, embed, knn, notify) && v.met == t
    requires t' == VisitAfter(v, now, embed)
    requires t.clusters.Keys == base + VisitCreatedIds(visits)
    requires forall c :: c in t'.clusters <==> c in t.clusters || c in VisitCreatedId(v)
    requires IngestProgress(st, visits, total, |filtered|) && CountsVisit(st, next, v)
    ensures VisitsFollow(visits + [v], filtered, t0, t', threshold, now, analyze, embed, knn, notify)
    ensures t'.clusters.Keys == base + VisitCreatedIds(visits + [v])
    ensures IngestProgress(next, visits + [v], total, |filtered|)
  {
    VisitStep(visits, v, filtered, t0, t, threshold, now, analyze, embed, knn, notify);
    VisitsAppend(visits, v);
    KeysGrow(t.clusters.Keys, t'.clusters, base, VisitCreatedIds(visits), VisitCreatedId(v));
    IngestProgressStep(st, next, visits, v, total, |filtered|);
  }

  /** One pass of the ingestion loop over `filtered`, at the first post `visits` has not
      reached; `t0` holds the tables when the loop began and `base` their cluster ids.
      On success the pass adds one visit and keeps the loop's invariants; on an error
      the loop stops at this post. */
  method IngestNext(db: Database, filtered: seq<Post>, i: nat, ghost visits: seq<Visit>, ghost t0: Tables,
                    ghost base: set<string>, stats: IngestStats, total: nat, threshold: real, now: int,
                    analyze: (string, string) -> Result<Analysis, string>,
                    embed: string -> Result<seq<real>, string>,
                    knn: (seq<real>, map<int, seq<real>>) -> Option<VectorMatch>,
                    notify: (Post, Analysis, string, ClusterMode) -> NotifyOutcome,
                    newId: nat -> string)
    returns (r: Result<IngestStats, string>, ghost visits': seq<Visit>)
    requires db.Consistent() && i == |visits| < |filtered|
    requires VisitsFollow(visits, filtered, t0, Tables(db.clusters, db.posts, db.vectors), threshold, now,
                          analyze, embed, knn, notify)
    requires db.clusters.Keys == base + VisitCreatedIds(visits)
    requires IngestProgress(stats, visits, total, |filtered|)
    modifies db
    ensures db.Consistent() && db.settingsRow == old(db.settingsRow) && old(db.posts).Keys <= db.posts.Keys
    ensures VisitsFollow(visits', filtered, t0, Tables(db.clusters, db.posts, db.vectors), threshold, now,
                         analyze, embed, knn, notify)
    ensures r.Failure? ==>
      && visits' == visits
      && IngestStoppedAt(r.error, visits, filtered, db.clusters, db.posts, db.vectors, threshold, analyze, embed, knn, newId)
    ensures r.Success? ==>
      && |visits'| == |visits| + 1
      && db.clusters.Keys == base + VisitCreatedIds(visits')
      && IngestProgress(r.value, visits', total, |filtered|)
  {
    ghost var t := Tables(db.clusters, db.posts, db.vectors);
    ghost var visit;
    r, visit := IngestOne(db, filtered[i], stats, threshold, now, analyze, embed, knn, notify, newId);
    if r.Failure? {
      return r, visits;
    }
    IngestLoopStep(visits, visit, filtered, t0, t, Tables(db.clusters, db.posts, db.vectors), base,
                   stats, r.value, total, threshold, now, analyze, embed, knn, notify);
    visits' := visits + [visit];
  }

  /** The `for (const post of filtered)` loop of runIngestion, out of `total` fetched
      posts. `visits` records, in order, what became of each filtered post the loop
      reached: a post already stored never reaches the AI, and every other one does. On
      an error the loop stops at the post that raised it. */
  method IngestFiltered(db: Database, filtered: seq<Post>, total: nat, threshold: real, now: int,
                        analyze: (string, string) -> Result<Analysis, string>,
                        embed: string -> Result<seq<real>, string>,
                        knn: (seq<real>, map<int, seq<real>>) -> Option<VectorMatch>,
                        notify: (Post, Analysis, string, ClusterMode) -> NotifyOutcome,
                        newId: nat -> string)
    returns (r: Result<IngestStats, string>, ghost visits: seq<Visit>)
    requires db.Consistent()
    modifies db
    ensures db.Consistent()
    ensures db.settingsRow == old(db.settingsRow)
    ensures old(db.posts).Keys <= db.posts.Keys
    ensures VisitsFollow(visits, filtered, Tables(old(db.clusters), old(db.posts), old(db.vectors)),
                         Tables(db.clusters, db.posts, db.vectors), threshold, now, analyze, embed, knn, notify)
    ensures r.Failure? ==>
      IngestStoppedAt(r.error, visits, filtered, db.clusters, db.posts, db.vectors, threshold, analyze, embed, knn, newId)
    ensures r.Success? ==>
      && |visits| == |filtered|
      && IngestProgress(r.value, visits, total, |filtered|)
      && db.clusters.Keys == old(db.clusters).Keys + VisitCreatedIds(visits)
  {
    var stats := IngestStats(total, |filtered|, 0, 0, 0, 0, 0, 0, 0, 0);
    visits := [];
    var i := 0;
    while i < |filtered|
      invariant 0 <= i <= |filtered| && i == |visits|
      invariant db.Consistent()
      invariant db.settingsRow == old(db.settingsRow)
      invariant old(db.posts).Keys <= db.posts.Keys
      invariant VisitsFollow(visits, filtered, Tables(old(db.clusters), old(db.posts), old(db.vectors)),
                             Tables(db.clusters, db.posts, db.vectors), threshold, now, analyze, embed, knn, notify)
      invariant db.clusters.Keys == old(db.clusters).Keys + VisitCreatedIds(visits)
      invariant IngestProgress(stats, visits, total, |filtered|)
    {
      var next;
      next, visits := IngestNext(db, filtered, i, visits, Tables(old(db.clusters), old(db.posts), old(db.vectors)),
                                 old(db.clusters).Keys, stats, total,
                                 threshold, now, analyze, embed, knn, notify, newId);
      if next.Failure? {
        return next, visits;
      }
      stats := next.value;
      i := i + 1;
    }
    r := Success(stats);
  }

  /** The ingestion loop over the posts that pass the filter, and the pruning after
      it. `unpruned` is the cluster table the pruning starts from. */
  method IngestPosts(db: Database, posts: seq<Post>, regex: Option<PainRegex>, threshold: real, now: int,
                     analyze: (string, string) -> Result<Analysis, string>,
                     embed: string -> Result<seq<real>, string>,
                     knn: (seq<real>, map<int, seq<real>>) -> Option<VectorMatch>,
                     notify: (Post, Analysis, string, ClusterMode) -> NotifyOutcome,
                     newId: nat -> string)
    returns (r: Result<IngestStats, string>, ghost visits: seq<Visit>, ghost unpruned: map<string, Cluster>)
    requires db.Consistent()
    modifies db
    ensures db.Consistent()
    ensures db.settingsRow == old(db.settingsRow)
    ensures old(db.posts).Keys <= db.posts.Keys
    ensures VisitsFollow(visits, FilterPosts(posts, regex), Tables(old(db.clusters), old(db.posts), old(db.vectors)),
                         Tables(unpruned, db.posts, db.vectors), threshold, now, analyze, embed, knn, notify)
    ensures r.Failure? ==> unpruned == db.clusters
    ensures r.Failure? ==>
      IngestStoppedAt(r.error, visits, FilterPosts(posts, regex), db.clusters, db.posts, db.vectors,
                      threshold, analyze, embed, knn, newId)
    ensures r.Success? ==>
      && |visits| == |FilterPosts(posts, regex)|
      && r.value.total == |posts|
      && r.value.filtered == |FilterPosts(posts, regex)|
      && IngestCounts(r.value)
      && Tallies(r.value, visits)
      && unpruned.Keys == old(db.clusters).Keys + VisitCreatedIds(visits)
      && PrunedFrom(unpruned, db.clusters, db.posts, r.value.prunedOrphans)
  {
    var filtered := FilterPosts(posts, regex);
    var looped;
    looped, visits := IngestFiltered(db, filtered, |posts|, threshold, now, analyze, embed, knn, notify, newId);
    unpruned := db.clusters;
    if looped.Failure? {
      return looped, visits, unpruned;
    }
    var pruned := db.PruneOrphanClusters();
    r := Success(looped.value.(prunedOrphans := pruned));
  }

  /** The rest of runIngestion once the lists and the threshold are settled: fetch the
      feed of `subreddits` with the default retries, normalise it, and hand the posts to
      IngestPosts. `feed` is what the fetch returned and `filtered` the posts that pass
      the filter (none when the fetch failed). */
  method IngestFeed(db: Database, subreddits: ListArg, regex: Option<PainRegex>, threshold: real, now: int,
                    fetchAttempt: (string, nat) -> Result<ParsedFeed, string>,
                    dateParse: string -> Num,
                    analyze: (string, string) -> Result<Analysis, string>,
                    embed: string -> Result<seq<real>, string>,
                    knn: (seq<real>, map<int, seq<real>>) -> Option<VectorMatch>,
                    notify: (Post, Analysis, string, ClusterMode) -> NotifyOutcome,
                    newId: nat -> string)
    returns (r: Result<IngestStats, string>, ghost feed: Result<ParsedFeed, string>, ghost filtered: seq<Post>,
             ghost visits: seq<Visit>, ghost unpruned: map<string, Cluster>)
    requires db.Consistent()
    modifies db
    ensures db.Consistent()
    ensures db.settingsRow == old(db.settingsRow)
    ensures old(db.posts).Keys <= db.posts.Keys
    ensures BuildFeedUrl(subreddits).Failure? ==> r == Failure(NoSubredditMessage) && unchanged(db) && visits == []
    ensures BuildFeedUrl(subreddits).Success? ==>
      exists attempts: nat, sleeps: seq<nat> ::
        RetryOutcome(BuildFeedUrl(subreddits).value, DefaultMaxRetries, fetchAttempt, feed, attempts, sleeps)
    ensures feed.Failure? ==> r == Failure(feed.error) && unchanged(db) && filtered == [] && visits == []
    ensures feed.Success? ==> filtered == FilterPosts(NormalizeFeedItems(feed.value, dateParse), regex)
    ensures VisitsFollow(visits, filtered, Tables(old(db.clusters), old(db.posts), old(db.vectors)),
                         Tables(unpruned, db.posts, db.vectors), threshold, now, analyze, embed, knn, notify)
    ensures r.Failure? ==> unpruned == db.clusters
    ensures r.Failure? && feed.Success? ==>
      IngestStoppedAt(r.error, visits, filtered, db.clusters, db.posts, db.vectors, threshold, analyze, embed, knn, newId)
    ensures r.Success? ==>
      && feed.Success?
      && |visits| == |filtered|
      && r.value.total == |NormalizeFeedItems(feed.value, dateParse)|
      && r.value.filtered == |filtered|
      && IngestCounts(r.value)
      && Tallies(r.value, visits)
      && unpruned.Keys == old(db.clusters).Keys + VisitCreatedIds(visits)
      && PrunedFrom(unpruned, db.clusters, db.posts, r.value.prunedOrphans)
  {
    var fetched, attempts, sleeps := FetchRssFeed(subreddits, None, fetchAttempt);
    feed, filtered, visits, unpruned := fetched, [], [], db.clusters;
    if fetched.Failure? {
      return Failure(fetched.error), feed, filtered, visits, unpruned;
    }
    var posts := NormalizeFeedItems(fetched.value, dateParse);
    filtered := FilterPosts(posts, regex);
    r, visits, unpruned := IngestPosts(db, posts, regex, threshold, now, analyze, embed, knn, notify, newId);
  }

  /** runIngestion: without sqlite-vec it throws; otherwise the settings supply the lists
      the caller leaves out and the threshold when the caller's is not a finite number,
      and IngestFeed does the rest. */
  method RunIngestion(db: Database, vecReady: bool, subredditList: ListArg, heuristicPatterns: ListArg,
                      clusterDistanceThreshold: Num, now: int,
                      fetchAttempt: (string, nat) -> Result<ParsedFeed, string>,
                      dateParse: string -> Num,
                      analyze: (string, string) -> Result<Analysis, string>,
                      embed: string -> Result<seq<real>, string>,
                      knn: (seq<real>, map<int, seq<real>>) -> Option<VectorMatch>,
                      notify: (Post, Analysis, string, ClusterMode) -> NotifyOutcome,
                      newId: nat -> string)
    returns (r: Result<IngestStats, string>, ghost feed: Result<ParsedFeed, string>, ghost filtered: seq<Post>,
             ghost visits: seq<Visit>, ghost unpruned: map<string, Cluster>)
    requires db.Consistent()
    modifies db
    ensures db.Consistent()
    ensures db.settingsRow == old(db.settingsRow)
    ensures old(db.posts).Keys <= db.posts.Keys
    ensures !vecReady ==> r == Failure(VecMissingIngestMessage) && unchanged(db) && filtered == [] && visits == []
    ensures vecReady && BuildFeedUrl(EffectiveList(subredditList, old(db.GetIngestSettings()).subredditList)).Failure? ==>
      r == Failure(NoSubredditMessage) && unchanged(db) && visits == []
    // The feed is fetched, with the default retries, from the URL of the effective list;
    // a fetch failure is the run's failure.
    ensures vecReady && BuildFeedUrl(EffectiveList(subredditList, old(db.GetIngestSettings()).subredditList)).Success? ==>
      && (exists attempts: nat, sleeps: seq<nat> ::
            RetryOutcome(BuildFeedUrl(EffectiveList(subredditList, old(db.GetIngestSettings()).subredditList)).value,
                         DefaultMaxRetries, fetchAttempt, feed, attempts, sleeps))
      && (feed.Failure? ==> r == Failure(feed.error) && unchanged(db) && filtered == [] && visits == [])
    // The filter is built from the effective patterns, and every filtered post the loop
    // reached was passed over when stored or else analysed, placed by the effective
    // threshold and notified about.
    ensures vecReady && feed.Success? ==>
      filtered == FilterPosts(NormalizeFeedItems(feed.value, dateParse),
                              BuildPainRegex(EffectiveList(heuristicPatterns, old(db.GetIngestSettings()).heuristicPatterns)))
    ensures VisitsFollow(visits, filtered, Tables(old(db.clusters), old(db.posts), old(db.vectors)),
                         Tables(unpruned, db.posts, db.vectors),
                         EffectiveThreshold(clusterDistanceThreshold, old(db.GetIngestSettings())), now,
                         analyze, embed, knn, notify)
    ensures r.Failure? ==> unpruned == db.clusters
    ensures vecReady && r.Failure? && feed.Success? ==>
      IngestStoppedAt(r.error, visits, filtered, db.clusters, db.posts, db.vectors,
                      EffectiveThreshold(clusterDistanceThreshold, old(db.GetIngestSettings())),
                      analyze, embed, knn, newId)
    ensures r.Success? ==>
      && vecReady && feed.Success?
      && |visits| == |filtered|
      && r.value.total == |NormalizeFeedItems(feed.value, dateParse)|
      && r.value.filtered == |filtered|
      && IngestCounts(r.value)
      && Tallies(r.value, visits)
      && unpruned.Keys == old(db.clusters).Keys + VisitCreatedIds(visits)
      && PrunedFrom(unpruned, db.clusters, db.posts, r.value.prunedOrphans)
  {
    feed, filtered, visits, unpruned := Failure(VecMissingIngestMessage), [], [], db.clusters;
    if !vecReady {
      return Failure(VecMissingIngestMessage), feed, filtered, visits, unpruned;
    }
    var settings := db.GetIngestSettings();
    var subreddits := EffectiveList(subredditList, settings.subredditList);
    var patterns := EffectiveList(heuristicPatterns, settings.heuristicPatterns);
    var threshold := EffectiveThreshold(clusterDistanceThreshold, settings);
    var regex := BuildPainRegex(patterns);
    r, feed, filtered, visits, unpruned := IngestFeed(db, subreddits, regex, threshold, now, fetchAttempt, dateParse,
                                                      analyze, embed, knn, notify, newId);
  }

  /** The post a stored row is replayed as: its created_at is the publication time. */
  function ReplayPost(stored: StoredPost): Post {
    Post(stored.id, stored.subreddit, stored.title, stored.body, stored.url, Some(stored.createdAt))
  }

  /** In reuse mode a stored, non-empty pain point stands in for the AI's answer. */
  predicate Reuses(reuse: bool, stored: StoredPost) {
    reuse && Truthy(stored.painPointSummary)
  }

  /** The analysis a reused row supplies: an opportunity, with the stored idea or a
      placeholder as the solution. */
  function ReusedAnalysis(stored: StoredPost): Analysis
    requires stored.painPointSummary.Some?
  {
    Analysis(true, stored.painPointSummary.value, OrDefault(stored.existingSolutionIdea, NoIdeaText))
  }

  /** The analysis a new cluster is created from: an empty proposed solution falls back
      to the stored idea, then to the placeholder. */
  function ForNewCluster(analysis: Analysis, stored: StoredPost): (r: Analysis)
    ensures r.isOpportunity == analysis.isOpportunity && r.painPointSummary == analysis.painPointSummary
    ensures r.proposedSolution != ""
    ensures analysis.proposedSolution != "" ==> r.proposedSolution == analysis.proposedSolution
  {
    analysis.(proposedSolution :=
      if analysis.proposedSolution != "" then analysis.proposedSolution
      else OrDefault(stored.existingSolutionIdea, NoIdeaText))
  }

  /** The progress message after `k` of `total` posts. */
  function ProgressMessage(reuse: bool, k: nat, total: nat): string {
    (if reuse then "Processed " else "Analyzed ") + NatToString(k) + "/" + NatToString(total)
  }

  /** The counter identities of a re-analysis run. */
  predicate RerunCounts(st: RerunStats) {
    && st.analyzed == st.skipped + st.clusteredExisting + st.clusteredNew
    && st.reusedAnalysis <= st.analyzed
  }

  /** The analysis a stored row gets: its own in reuse mode, otherwise the AI's. */
  function AnalysisFor(reuse: bool, stored: StoredPost, analyze: (string, string) -> Result<Analysis, string>)
    : (r: Result<Analysis, string>)
    ensures Reuses(reuse, stored) ==> r.Success? && r.value.isOpportunity && Some(r.value.painPointSummary) == stored.painPointSummary
    ensures !Reuses(reuse, stored) ==> r == analyze(stored.title, stored.body)
  {
    if Reuses(reuse, stored) then Success(ReusedAnalysis(stored)) else analyze(stored.title, stored.body)
  }

  /** The number of rows among the first `n` whose stored analysis is reused. */
  function ReusedCount(reuse: bool, rows: seq<StoredPost>, n: nat): nat
    requires n <= |rows|
  {
    if n == 0 then 0
    else ReusedCount(reuse, rows, n - 1) + if Reuses(reuse, rows[n - 1]) then 1 else 0
  }

  /** Without the reuse flag every row goes to the AI. */
  lemma {:induction false} ReusedCountWithoutReuse(rows: seq<StoredPost>, n: nat)
    requires n <= |rows|
    ensures ReusedCount(false, rows, n) == 0
  {
    if n > 0 {
      ReusedCountWithoutReuse(rows, n - 1);
    }
  }

  /** No row is counted twice, and in reuse mode rows that all carry a pain point are
      all reused. */
  lemma {:induction false} ReusedCountBounds(reuse: bool, rows: seq<StoredPost>, n: nat)
    requires n <= |rows|
    ensures ReusedCount(reuse, rows, n) <= n
    ensures reuse && (forall k | 0 <= k < n :: Truthy(rows[k].painPointSummary)) ==>
      ReusedCount(reuse, rows, n) == n
  {
    if n > 0 {
      ReusedCountBounds(reuse, rows, n - 1);
    }
  }

  /** The counter a placement bumps in the rerun's statistics. */
  function Tally(stats: RerunStats, p: Placement): (r: RerunStats)
    ensures r.skipped == stats.skipped + (if p.Skipped? then 1 else 0)
    ensures r.clusteredExisting == stats.clusteredExisting + (if p.Joined? then 1 else 0)
    ensures r.clusteredNew == stats.clusteredNew + (if p.Created? then 1 else 0)
    ensures r.total == stats.total && r.analyzed == stats.analyzed
    ensures r.reusedAnalysis == stats.reusedAnalysis && r.prunedOrphans == stats.prunedOrphans
  {
    match p
    case Skipped => stats.(skipped := stats.skipped + 1)
    case Joined(_) => stats.(clusteredExisting := stats.clusteredExisting + 1)
    case Created(_) => stats.(clusteredNew := stats.clusteredNew + 1)
  }


  /** The error replaying `row` raises against the given tables, or None when the row
      goes through: the AI's error when the row is not reused, or the error placing it. */
  function ReplayError(row: StoredPost, clusters: map<string, Cluster>, posts: map<string, AnalyzedPost>,
                       vectors: map<int, seq<real>>, reuse: bool, threshold: real,
                       analyze: (string, string) -> Result<Analysis, string>,
                       embed: string -> Result<seq<real>, string>,
                       knn: (seq<real>, map<int, seq<real>>) -> Option<VectorMatch>,
                       id: string): Option<string>
    requires RowidsDistinct(clusters)
  {
    match AnalysisFor(reuse, row, analyze)
    case Failure(e) => Some(e)
    case Success(a) => PlaceFailure(clusters, posts, vectors, a, ReplayPost(row), threshold, embed, knn, id)
  }

  /** One pass of that loop's body: the row's analysis (a failure ends the run before
      anything is counted), its counters, the progress report, then its placement. */
  method ReplayRow(db: Database, progress: ProgressTracker, rows: seq<StoredPost>, i: nat, stats: RerunStats, reuse: bool,
                   threshold: real, now: int,
                   analyze: (string, string) -> Result<Analysis, string>,
                   embed: string -> Result<seq<real>, string>,
                   knn: (seq<real>, map<int, seq<real>>) -> Option<VectorMatch>,
                   newId: nat -> string)
    returns (r: Result<RerunStats, string>, ghost entry: Placed)
    requires db.Consistent()
    requires progress.Valid() && progress.status == Running && stats.analyzed < progress.total
    requires i < |rows| && stats.analyzed == i && stats.reusedAnalysis == ReusedCount(reuse, rows, i)
    requires RerunCounts(stats)
    modifies db, progress
    ensures db.Consistent() && db.settingsRow == old(db.settingsRow)
    ensures old(db.posts).Keys <= db.posts.Keys
    ensures progress.Valid() && progress.status == Running && progress.total == old(progress.total)
    ensures progress.stats == old(progress.stats) && progress.startedAt == old(progress.startedAt)
    // It fails exactly when the row's analysis or placement does, with that error, and
    // a failure leaves the tables as they were.
    ensures ReplayError(rows[i], old(db.clusters), old(db.posts), old(db.vectors), reuse, threshold, analyze, embed, knn,
                        newId(stats.clusteredNew)) == (if r.Failure? then Some(r.error) else None)
    ensures r.Failure? ==> db.clusters == old(db.clusters) && db.posts == old(db.posts) && db.vectors == old(db.vectors)
    // A row with its analysis is reported before it is placed; one without is not.
    ensures AnalysisFor(reuse, rows[i], analyze).Success? ==>
      progress.processed == i + 1 && progress.message == ProgressMessage(reuse, i + 1, stats.total)
    ensures AnalysisFor(reuse, rows[i], analyze).Failure? ==> unchanged(progress)
    ensures CountedClusters(old(db.clusters)) ==> CountedClusters(db.clusters)
    ensures r.Success? ==>
      && entry.post == ReplayPost(rows[i])
      && entry.met == Tables(old(db.clusters), old(db.posts), old(db.vectors))
      && ReplayEntry(entry, rows[i], reuse, threshold, analyze, embed, knn)
      && Tables(db.clusters, db.posts, db.vectors) == After(entry, now, embed)
      && progress.processed == r.value.analyzed == stats.analyzed + 1
      && r.value.total == stats.total && r.value.prunedOrphans == stats.prunedOrphans
      && r.value.reusedAnalysis == ReusedCount(reuse, rows, i + 1)
      && RerunCounts(r.value)
      && r.value.skipped == stats.skipped + (if entry.placement.Skipped? then 1 else 0)
      && r.value.clusteredExisting == stats.clusteredExisting + (if entry.placement.Joined? then 1 else 0)
      && r.value.clusteredNew == stats.clusteredNew + (if entry.placement.Created? then 1 else 0)
  {
    var stored := rows[i];
    entry := Placed(ReplayPost(stored), Analysis(false, "", ""), Analysis(false, "", ""),
                    Tables(db.clusters, db.posts, db.vectors), Skipped);
    var analysis := AnalysisFor(reuse, stored, analyze);
    if analysis.Failure? {
      return Failure(analysis.error), entry;
    }
    var next := stats;
    if Reuses(reuse, stored) {
      next := next.(reusedAnalysis := next.reusedAnalysis + 1);
    }
    next := next.(analyzed := next.analyzed + 1);
    progress.Update(next.analyzed, ProgressMessage(reuse, next.analyzed, next.total));
    r, entry := ReplayPlace(db, analysis.value, stored, next, threshold, now, embed, knn, newId(next.clusteredNew));
    ReusedCountBounds(reuse, rows, i + 1);
  }

  /** The placement half of that loop's body: the row's post placed with its analysis
      (a new cluster falls back on the stored idea for its solution) and counted. */
  method ReplayPlace(db: Database, analysis: Analysis, stored: StoredPost, stats: RerunStats, threshold: real,
                     now: int,
                     embed: string -> Result<seq<real>, string>,
                     knn: (seq<real>, map<int, seq<real>>) -> Option<VectorMatch>,
                     id: string)
    returns (r: Result<RerunStats, string>, ghost entry: Placed)
    requires db.Consistent()
    modifies db
    ensures db.Consistent() && db.settingsRow == old(db.settingsRow)
    ensures old(db.posts).Keys <= db.posts.Keys
    ensures PlaceFailure(old(db.clusters), old(db.posts), old(db.vectors), analysis, ReplayPost(stored), threshold,
                         embed, knn, id) == (if r.Failure? then Some(r.error) else None)
    ensures r.Failure? ==> db.clusters == old(db.clusters) && db.posts == old(db.posts) && db.vectors == old(db.vectors)
    ensures CountedClusters(old(db.clusters)) ==> CountedClusters(db.clusters)
    ensures r.Success? ==>
      && entry == Placed(ReplayPost(stored), analysis, ForNewCluster(analysis, stored),
                         Tables(old(db.clusters), old(db.posts), old(db.vectors)), entry.placement)
      && Decided(entry, threshold, embed, knn)
      && Tables(db.clusters, db.posts, db.vectors) == After(entry, now, embed)
      && r.value == Tally(stats, entry.placement)
  {
    entry := Placed(ReplayPost(stored), analysis, ForNewCluster(analysis, stored),
                    Tables(db.clusters, db.posts, db.vectors), Skipped);
    var placed := PlacePost(db, analysis, ForNewCluster(analysis, stored), ReplayPost(stored), threshold, now, embed,
                            knn, id);
    if placed.Failure? {
      return Failure(placed.error), entry;
    }
    entry := entry.(placement := placed.value);
    r := Success(Tally(stats, placed.value));
  }

  /** The tables an appended entry leaves hold the keys and vectors of the longer log. */
  lemma ReplayKeysStep(log: seq<Placed>, e: Placed, now: int, embed: string -> Result<seq<real>, string>,
                       threshold: real, knn: (seq<real>, map<int, seq<real>>) -> Option<VectorMatch>,
                       t0: Tables, t: Tables, t': Tables)
    requires Decided(e, threshold, embed, knn) && e.met == t && t' == After(e, now, embed)
    requires t.posts.Keys == t0.posts.Keys + PlacedIds(log)
    requires t.clusters.Keys == t0.clusters.Keys + CreatedClusterIds(log)
    requires t.vectors == VectorsAfter(t0.vectors, log, embed)
    ensures t'.posts.Keys == t0.posts.Keys + PlacedIds(log + [e])
    ensures t'.clusters.Keys == t0.clusters.Keys + CreatedClusterIds(log + [e])
    ensures t'.vectors == VectorsAfter(t0.vectors, log + [e], embed)
  {
    AfterKeys(e, now, embed, threshold, knn);
    LogAppend(log, e, t0.vectors, embed);
  }

  /** The log half of `ReplayLoopStep`: an entry placed against the tables the log left
      extends the replay, and the tables it leaves are the new end of the chain. */
  lemma ReplayedStep(log: seq<Placed>, e: Placed, rows: seq<StoredPost>, reuse: bool, threshold: real, now: int,
                     analyze: (string, string) -> Result<Analysis, string>,
                     embed: string -> Result<seq<real>, string>,
                     knn: (seq<real>, map<int, seq<real>>) -> Option<VectorMatch>,
                     t0: Tables, t: Tables, t': Tables)
    requires |log| < |rows|
    requires Replayed(log, rows, reuse, threshold, now, analyze, embed, knn, t0, t)
    requires ReplayEntry(e, rows[|log|], reuse, threshold, analyze, embed, knn)
    requires e.met == t && t' == After(e, now, embed)
    ensures Replayed(log + [e], rows, reuse, threshold, now, analyze, embed, knn, t0, t')
  {
    ReplayLogStep(log, e, rows, reuse, threshold, analyze, embed, knn);
    ChainStep(t0, log, e, now, embed);
    ReplayKeysStep(log, e, now, embed, threshold, knn, t0, t, t');
  }

  /** One more entry keeps the replay loop's invariants: the log replays the rows, each
      against the tables the one before it left, and the tables hold what they began
      with and what the log placed. */
  lemma ReplayLoopStep(log: seq<Placed>, e: Placed, rows: seq<StoredPost>, reuse: bool, threshold: real, now: int,
                       analyze: (string, string) -> Result<Analysis, string>,
                       embed: string -> Result<seq<real>, string>,
                       knn: (seq<real>, map<int, seq<real>>) -> Option<VectorMatch>,
                       t0: Tables, t: Tables, t': Tables, next: seq<Placed>, st: RerunStats, st': RerunStats)
    requires next == log + [e] && |log| < |rows|
    requires ReplayTally(st, log, rows, reuse)
    requires st'.analyzed == st.analyzed + 1 && st'.total == st.total && st'.prunedOrphans == st.prunedOrphans
    requires RerunCounts(st') && st'.reusedAnalysis == ReusedCount(reuse, rows, |log| + 1)
    requires st'.clusteredExisting == st.clusteredExisting + (if e.placement.Joined? then 1 else 0)
    requires st'.clusteredNew == st.clusteredNew + (if e.placement.Created? then 1 else 0)
    requires Replayed(log, rows, reuse, threshold, now, analyze, embed, knn, t0, t)
    requires ReplayEntry(e, rows[|log|], reuse, threshold, analyze, embed, knn)
    requires e.met == t && t' == After(e, now, embed)
    ensures |next| == |log| + 1 && next[|log|] == e
    ensures Replayed(next, rows, reuse, threshold, now, analyze, embed, knn, t0, t')
    ensures ReplayTally(st', next, rows, reuse)
  {
    ReplayedStep(log, e, rows, reuse, threshold, now, analyze, embed, knn, t0, t, t');
    LogAppend(log, e, t0.vectors, embed);
  }

  /** One pass of the replay loop at row `i`, with `log` the rows placed so far and `t0`
      the tables the loop began with. On success the pass adds the row's entry, placed
      against the current tables, to the log and keeps the loop's invariants; on an
      error the loop stops at this row. */
  method ReplayNext(db: Database, progress: ProgressTracker, rows: seq<StoredPost>, i: nat, ghost log: seq<Placed>,
                    ghost t0: Tables, stats: RerunStats, reuse: bool, threshold: real, now: int,
                    analyze: (string, string) -> Result<Analysis, string>,
                    embed: string -> Result<seq<real>, string>,
                    knn: (seq<real>, map<int, seq<real>>) -> Option<VectorMatch>,
                    newId: nat -> string)
    returns (r: Result<RerunStats, string>, ghost log': seq<Placed>)
    requires db.Consistent()
    requires progress.Valid() && progress.status == Running && progress.total == |rows|
    requires progress.processed == stats.analyzed
    requires i == |log| < |rows| && ReplayTally(stats, log, rows, reuse)
    requires Replayed(log, rows, reuse, threshold, now, analyze, embed, knn, t0, Tables(db.clusters, db.posts, db.vectors))
    modifies db, progress
    ensures db.Consistent() && db.settingsRow == old(db.settingsRow)
    ensures progress.Valid() && progress.status == Running && progress.total == |rows|
    ensures progress.stats == old(progress.stats) && progress.startedAt == old(progress.startedAt)
    ensures Replayed(log', rows, reuse, threshold, now, analyze, embed, knn, t0, Tables(db.clusters, db.posts, db.vectors))
    ensures CountedClusters(old(db.clusters)) ==> CountedClusters(db.clusters)
    ensures r.Failure? ==>
      && log' == log
      && ReplayError(rows[i], db.clusters, db.posts, db.vectors, reuse, threshold, analyze, embed, knn,
                     newId(CountCreated(log))) == Some(r.error)
    ensures r.Success? ==>
      && |log'| == i + 1 && log' == log + [log'[i]]
      && log'[i].met == Tables(old(db.clusters), old(db.posts), old(db.vectors))
      && progress.processed == r.value.analyzed
      && ReplayTally(r.value, log', rows, reuse)
  {
    ghost var t := Tables(db.clusters, db.posts, db.vectors);
    ghost var entry;
    r, entry := ReplayRow(db, progress, rows, i, stats, reuse, threshold, now, analyze, embed, knn, newId);
    if r.Failure? {
      assert Tables(db.clusters, db.posts, db.vectors) == t;
      return r, log;
    }
    log' := log + [entry];
    ReplayLoopStep(log, entry, rows, reuse, threshold, now, analyze, embed, knn, t0, t,
                   Tables(db.clusters, db.posts, db.vectors), log', stats, r.value);
  }

  /** The `for (const stored of existingPosts)` loop of rerunAnalysisForExistingPosts:
      every row is analysed (or reused), counted, reported to the progress record, and
      placed. An error ends the loop and is returned. `log` records, in row order, each
      row placed so far; the tables gain exactly what the log placed. */
  method ReplayRows(db: Database, progress: ProgressTracker, rows: seq<StoredPost>, reuse: bool, threshold: real,
                    now: int,
                    analyze: (string, string) -> Result<Analysis, string>,
                    embed: string -> Result<seq<real>, string>,
                    knn: (seq<real>, map<int, seq<real>>) -> Option<VectorMatch>,
                    newId: nat -> string)
    returns (r: Result<RerunStats, string>, ghost log: seq<Placed>)
    requires db.Consistent()
    requires progress.Valid() && progress.status == Running && progress.total == |rows| && progress.processed == 0
    modifies db, progress
    ensures db.Consistent() && db.settingsRow == old(db.settingsRow)
    ensures progress.Valid() && progress.status == Running && progress.total == |rows|
    ensures progress.stats == old(progress.stats) && progress.startedAt == old(progress.startedAt)
    ensures |log| <= |rows|
    ensures forall k | 0 <= k < |log| :: ReplayEntry(log[k], rows[k], reuse, threshold, analyze, embed, knn)
    // Each row met the tables the rows before it left, and the tables are those the
    // last one left.
    ensures Chained(Tables(old(db.clusters), old(db.posts), old(db.vectors)), log, now, embed)
    ensures Tables(db.clusters, db.posts, db.vectors)
            == Through(Tables(old(db.clusters), old(db.posts), old(db.vectors)), log, now, embed)
    ensures db.posts.Keys == old(db.posts).Keys + PlacedIds(log)
    ensures db.clusters.Keys == old(db.clusters).Keys + CreatedClusterIds(log)
    ensures db.vectors == VectorsAfter(old(db.vectors), log, embed)
    ensures CountedClusters(old(db.clusters)) ==> CountedClusters(db.clusters)
    // The loop stops at the first row whose analysis or placement fails, with its error.
    ensures r.Failure? ==>
      && |log| < |rows|
      && ReplayError(rows[|log|], db.clusters, db.posts, db.vectors, reuse, threshold, analyze, embed, knn,
                     newId(CountCreated(log))) == Some(r.error)
    ensures r.Success? ==>
      && RerunCounts(r.value)
      && r.value.total == r.value.analyzed == |rows| == |log| == progress.processed
      && r.value.prunedOrphans == None
      && r.value.reusedAnalysis == ReusedCount(reuse, rows, |rows|)
      && r.value.clusteredExisting == CountJoined(log)
      && r.value.clusteredNew == CountCreated(log)
  {
    var stats := RerunStats(|rows|, 0, 0, 0, 0, 0, None);
    log := [];
    var i := 0;
    while i < |rows|
      invariant 0 <= i <= |rows|
      invariant db.Consistent() && db.settingsRow == old(db.settingsRow)
      invariant progress.Valid() && progress.status == Running && progress.total == |rows|
      invariant progress.stats == old(progress.stats) && progress.startedAt == old(progress.startedAt)
      invariant progress.processed == stats.analyzed
      invariant i == |log| && ReplayTally(stats, log, rows, reuse)
      invariant Replayed(log, rows, reuse, threshold, now, analyze, embed, knn,
                         Tables(old(db.clusters), old(db.posts), old(db.vectors)),
                         Tables(db.clusters, db.posts, db.vectors))
      invariant CountedClusters(old(db.clusters)) ==> CountedClusters(db.clusters)
    {
      var next;
      next, log := ReplayNext(db, progress, rows, i, log, Tables(old(db.clusters), old(db.posts), old(db.vectors)),
                              stats, reuse, threshold, now, analyze, embed, knn, newId);
      if next.Failure? {
        return next, log;
      }
      stats := next.value;
      i := i + 1;
    }
    r := Success(stats);
  }

  /** Proof helper for `ReplayListed`: a union with the empty set of an emptied table is
      the other operand. */
  lemma UnionEmpty(empty: set<string>, s: set<string>)
    requires empty == {}
    ensures empty + s == s
  {
  }

  /** The pruning at the end of a re-analysis: every replayed cluster counts the post
      that made it, so it has a member and pruning removes nothing. */
  method PruneReplayed(db: Database) returns (pruned: nat)
    requires db.Consistent() && CountedClusters(db.clusters)
    modifies db
    ensures db.Consistent()
    ensures db.clusters == old(db.clusters) && db.posts == old(db.posts) && db.vectors == old(db.vectors)
    ensures db.settingsRow == old(db.settingsRow)
    ensures pruned == 0 && PrunedFrom(old(db.clusters), db.clusters, db.posts, pruned)
  {
    CountedClustersPruneNothing(db.clusters, db.posts);
    pruned := db.PruneOrphanClusters();
  }

  /** The part of rerunAnalysisForExistingPosts that follows a non-empty listing: empty
      the cluster tables, replay every row, prune once, and complete the progress record;
      an error marks the record failed and is returned. Every replayed cluster counts its
      post, so the pruning removes nothing. */
  method ReplayListed(db: Database, progress: ProgressTracker, rows: seq<StoredPost>, reuse: bool, threshold: real,
                      now: int, nowMs: int,
                      analyze: (string, string) -> Result<Analysis, string>,
                      embed: string -> Result<seq<real>, string>,
                      knn: (seq<real>, map<int, seq<real>>) -> Option<VectorMatch>,
                      newId: nat -> string)
    returns (r: Result<RerunStats, string>, ghost log: seq<Placed>, ghost unpruned: map<string, Cluster>)
    requires db.Consistent()
    requires progress.Valid() && progress.status == Running && progress.total == |rows| && progress.processed == 0
    modifies db, progress
    ensures db.Consistent() && progress.Valid()
    ensures db.settingsRow == old(db.settingsRow)
    ensures |log| <= |rows|
    ensures forall k | 0 <= k < |log| :: ReplayEntry(log[k], rows[k], reuse, threshold, analyze, embed, knn)
    ensures Chained(EmptyTables, log, now, embed)
    ensures Tables(unpruned, db.posts, db.vectors) == Through(EmptyTables, log, now, embed)
    ensures db.posts.Keys == PlacedIds(log)
    ensures db.vectors == VectorsAfter(map[], log, embed)
    ensures r.Failure? ==>
      && progress.status == Failed && progress.error.Some?
      && |log| < |rows|
      && ReplayError(rows[|log|], db.clusters, db.posts, db.vectors, reuse, threshold, analyze, embed, knn,
                     newId(CountCreated(log))) == Some(r.error)
    ensures r.Success? ==>
      && RerunCounts(r.value)
      && r.value.total == r.value.analyzed == |rows| == |log|
      && r.value.reusedAnalysis == ReusedCount(reuse, rows, |rows|)
      && (!reuse ==> r.value.reusedAnalysis == 0)
      && r.value.clusteredExisting == CountJoined(log)
      && r.value.clusteredNew == CountCreated(log)
      && progress.status == Done && progress.stats == Some(r.value)
      && progress.total == r.value.total
      && unpruned.Keys == CreatedClusterIds(log)
      && r.value.prunedOrphans == Some(0)
      && PrunedFrom(unpruned, db.clusters, db.posts, 0)
      && db.clusters == unpruned
  {
    db.ResetOpportunityData();
    ghost var posts0, clusters0 := db.posts.Keys, db.clusters.Keys;
    assert posts0 == {} && clusters0 == {};
    var replayed;
    replayed, log := ReplayRows(db, progress, rows, reuse, threshold, now, analyze, embed, knn, newId);
    UnionEmpty(posts0, PlacedIds(log));
    UnionEmpty(clusters0, CreatedClusterIds(log));
    unpruned := db.clusters;
    if replayed.Failure? {
      progress.Fail(Some(replayed.error), nowMs);
      return Failure(replayed.error), log, unpruned;
    }
    ReusedCountWithoutReuse(rows, |rows|);
    var pruned := PruneReplayed(db);
    var stats := replayed.value.(prunedOrphans := Some(pruned));
    progress.Complete(Some(stats), nowMs);
    r := Success(stats);
  }

  /** rerunAnalysisForExistingPosts: list the stored posts, start the progress record,
      and (unless there are none) hand the listing to ReplayListed. `listed` is the
      listing the run replays, `log` what became of each listed row, and `unpruned` the
      cluster table the final pruning starts from. */
  method RerunAnalysis(db: Database, progress: ProgressTracker, vecReady: bool, reuse: bool,
                       clusterDistanceThreshold: Num, now: int, nowMs: int,
                       analyze: (string, string) -> Result<Analysis, string>,
                       embed: string -> Result<seq<real>, string>,
                       knn: (seq<real>, map<int, seq<real>>) -> Option<VectorMatch>,
                       newId: nat -> string)
    returns (r: Result<RerunStats, string>, ghost listed: seq<StoredPost>, ghost log: seq<Placed>,
             ghost unpruned: map<string, Cluster>)
    requires db.Consistent() && progress.Valid()
    modifies db, progress
    ensures db.Consistent() && progress.Valid()
    ensures db.settingsRow == old(db.settingsRow)
    ensures !vecReady ==> r == Failure(VecMissingRerunMessage) && unchanged(db) && unchanged(progress)
    // The listing: every stored post once, joined with its cluster, oldest first.
    ensures vecReady ==>
      && SortedByCreatedAt(listed)
      && |listed| == |old(db.posts)| && RowIds(listed) == old(db.posts).Keys
      && forall y | y in listed :: y.id in old(db.posts) && y == old(db.RowOf(y.id))
    // No stored posts: complete at once, without resetting anything.
    ensures vecReady && old(db.posts) == map[] ==>
      && r == Success(RerunStats(0, 0, 0, 0, 0, 0, None))
      && unchanged(db)
      && progress.status == Done && progress.stats == Some(r.value)
    ensures vecReady && r.Failure? ==> progress.status == Failed && progress.error.Some?
    // Each replayed row was placed by the effective threshold, from an empty cluster
    // table for the first one.
    ensures |log| <= |listed|
    ensures forall k | 0 <= k < |log| ::
      ReplayEntry(log[k], listed[k], reuse, EffectiveThreshold(clusterDistanceThreshold, old(db.GetIngestSettings())),
                  analyze, embed, knn)
    ensures Chained(EmptyTables, log, now, embed)
    // After a replay the tables hold exactly what it placed.
    ensures vecReady && old(db.posts) != map[] ==>
      && Tables(unpruned, db.posts, db.vectors) == Through(EmptyTables, log, now, embed)
      && db.posts.Keys == PlacedIds(log)
      && db.vectors == VectorsAfter(map[], log, embed)
    // A replay stops at the first listed row whose analysis or placement fails.
    ensures vecReady && old(db.posts) != map[] && r.Failure? ==>
      && |log| < |listed|
      && ReplayError(listed[|log|], db.clusters, db.posts, db.vectors, reuse,
                     EffectiveThreshold(clusterDistanceThreshold, old(db.GetIngestSettings())),
                     analyze, embed, knn, newId(CountCreated(log))) == Some(r.error)
    ensures r.Success? ==>
      && RerunCounts(r.value)
      && r.value.total == r.value.analyzed == |old(db.posts)| == |log|
      && r.value.reusedAnalysis == ReusedCount(reuse, listed, |listed|)
      && (!reuse ==> r.value.reusedAnalysis == 0)
      && r.value.clusteredExisting == CountJoined(log)
      && r.value.clusteredNew == CountCreated(log)
      && progress.status == Done && progress.stats == Some(r.value)
      && progress.total == r.value.total
    // Pruning starts from the clusters the replay created, and removes none of them.
    ensures r.Success? ==> db.clusters == unpruned
    ensures r.Success? && old(db.posts) != map[] ==>
      && unpruned.Keys == CreatedClusterIds(log)
      && r.value.prunedOrphans == Some(0)
      && PrunedFrom(unpruned, db.clusters, db.posts, 0)
  {
    listed, log, unpruned := [], [], db.clusters;
    if !vecReady {
      return Failure(VecMissingRerunMessage), listed, log, unpruned;
    }
    var settings := db.GetIngestSettings();
    var threshold := EffectiveThreshold(clusterDistanceThreshold, settings);
    var rows := db.ListAllAnalyzedPosts();
    listed := rows;
    progress.Start(|rows|, nowMs);
    if |rows| == 0 {
      var stats := RerunStats(0, 0, 0, 0, 0, 0, None);
      progress.Complete(Some(stats), nowMs);
      return Success(stats), listed, log, unpruned;
    }
    r, log, unpruned := ReplayListed(db, progress, rows, reuse, threshold, now, nowMs, analyze, embed, knn, newId);
  }
}
