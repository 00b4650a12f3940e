/** The cluster store of server/lib/sqlite-helpers.js: the `opportunity_clusters`,
    `analyzed_posts` and `vec_opportunities` tables and the `ingest_settings` row,
    as maps that the helpers update in place.

    SQLite behaviour the model spells out: a new cluster row gets the rowid one above
    the largest present (1 in an empty table); `INSERT OR IGNORE` ignores only a
    primary-key conflict, while a missing cluster is a foreign-key error
    (`foreign_keys = ON`); deleting a cluster cascades to its posts. */
module Store {
  import opened Wrappers
  import opened JsValues
  import Heuristics

  /** The `FLOAT[1536]` column of `vec_opportunities`. */
  const EmbeddingDimension: nat := 1536
  /** DEFAULT_CLUSTER_DISTANCE_THRESHOLD of server/lib/constants.js. */
  const DefaultClusterDistanceThreshold: real := 0.15
  /** DEFAULT_SUBREDDITS of server/lib/constants.js. */
  const DefaultSubreddits: seq<string> := ["SaaS", "marketing", "smallbusiness", "startups"]
  const NewStatus: string := "new"
  const ForeignKeyError: string := "FOREIGN KEY constraint failed"
  const PrimaryKeyError: string := "UNIQUE constraint failed: opportunity_clusters.ID"
  /** The vector table's refusals: the texts are the model's own. */
  const VectorRowidTaken: string := "vec_opportunities rowid already present"
  const VectorDimensionMismatch: string := "vec_opportunities embedding is not 1536-dimensional"

  /** A row of `opportunity_clusters`, with its rowid. */
  datatype Cluster = Cluster(
    rowid: int, title: string, description: string, solutionIdea: string,
    postCount: int, status: string, lastSeenAt: int, createdAt: int)

  /** A row of `analyzed_posts` without its `ID` key. */
  datatype AnalyzedPost = AnalyzedPost(
    clusterId: string, subreddit: Option<string>, title: string, body: string,
    url: string, createdAt: int)

  /** A row of listAllAnalyzedPosts: the post joined (LEFT JOIN) with its cluster. */
  datatype StoredPost = StoredPost(
    id: string, subreddit: Option<string>, title: string, body: string, url: string,
    createdAt: int, painPointSummary: Option<string>, existingSolutionIdea: Option<string>)

  /** The `ingest_settings` row with ID 'default'. The two lists are kept as the lists
      `JSON.stringify` wrote; the cron column reads as `None` when null or absent, and
      the threshold column as the value `Number(...)` gives. */
  datatype SettingsRow = SettingsRow(
    subredditList: seq<string>, heuristicPatterns: seq<string>, cronIngestEnabled: Option<int>,
    clusterDistanceThreshold: Num, updatedAt: int)

  /** What getIngestSettings returns. */
  datatype IngestSettings = IngestSettings(
    subredditList: seq<string>, heuristicPatterns: seq<string>, cronIngestEnabled: bool,
    clusterDistanceThreshold: real, updatedAt: Option<int>)

  /** The largest element of a non-empty finite set. */
  function MaxOf(s: set<int>): (m: int)
    requires s != {}
    ensures m in s && forall x | x in s :: x <= m
  {
    MaxExists(s);
    var m :| m in s && forall x | x in s :: x <= m;
    m
  }

  lemma MaxExists(s: set<int>)
    requires s != {}
    ensures exists m | m in s :: forall x | x in s :: x <= m
  {
    var m := LargestOf(s);
    assert m in s;
  }

  /** The largest element, found by removing one element at a time. */
  ghost function LargestOf(s: set<int>): (m: int)
    requires s != {}
    ensures m in s && forall x | x in s :: x <= m
    decreases |s|
  {
    HasElement(s);
    var y :| y in s;
    if s == {y} then y
    else
      var rest := s - {y};
      var m := LargestOf(rest);
      assert forall x | x in s :: x == y || x in rest;
      if y > m then y else m
  }

  lemma HasElement(s: set<int>)
    requires s != {}
    ensures exists y :: y in s
  {
    if forall y :: y !in s {
      assert false;
    }
  }

  function Rowids(clusters: map<string, Cluster>): set<int> {
    set c | c in clusters :: clusters[c].rowid
  }

  /** The rowid SQLite gives the next cluster row. */
  function NextRowid(clusters: map<string, Cluster>): (r: int)
    ensures forall c | c in clusters :: clusters[c].rowid < r
    ensures clusters == map[] ==> r == 1
    ensures clusters != map[] ==> exists c | c in clusters :: clusters[c].rowid == r - 1
  {
    if clusters == map[] then 1
    else
      var c0 :| c0 in clusters;
      assert clusters[c0].rowid in Rowids(clusters);
      var m := MaxOf(Rowids(clusters));
      assert forall c | c in clusters :: clusters[c].rowid in Rowids(clusters);
      m + 1
  }

  /** The ids of the posts that reference cluster `c`. */
  function Members(posts: map<string, AnalyzedPost>, c: string): set<string> {
    set p | p in posts && posts[p].clusterId == c
  }

  predicate HasMember(posts: map<string, AnalyzedPost>, c: string) {
    exists p | p in posts :: posts[p].clusterId == c
  }

  /** The cluster table without the clusters no post belongs to. */
  function Pruned(clusters: map<string, Cluster>, posts: map<string, AnalyzedPost>): map<string, Cluster> {
    map c | c in clusters && HasMember(posts, c) :: clusters[c]
  }

  /** Pruning a table whose every cluster has a member removes nothing. */
  lemma PrunedNothing(clusters: map<string, Cluster>, posts: map<string, AnalyzedPost>)
    requires forall c | c in clusters :: HasMember(posts, c)
    ensures Pruned(clusters, posts) == clusters
  {
    assert Pruned(clusters, posts).Keys == clusters.Keys;
  }

  lemma MembersEmpty(posts: map<string, AnalyzedPost>, c: string)
    ensures Members(posts, c) == {} <==> !HasMember(posts, c)
  {
    if HasMember(posts, c) {
      var p :| p in posts && posts[p].clusterId == c;
      assert p in Members(posts, c);
    }
  }

  lemma MembersAdd(posts: map<string, AnalyzedPost>, id: string, post: AnalyzedPost, c: string)
    requires id !in posts
    ensures Members(posts[id := post], c) == if post.clusterId == c then Members(posts, c) + {id} else Members(posts, c)
    ensures |Members(posts[id := post], c)| == |Members(posts, c)| + (if post.clusterId == c then 1 else 0)
  {
    assert id !in Members(posts, c);
  }

  lemma MembersRemove(posts: map<string, AnalyzedPost>, id: string, c: string)
    requires id in posts
    ensures Members(posts - {id}, c) == Members(posts, c) - {id}
    ensures |Members(posts - {id}, c)| == |Members(posts, c)| - (if posts[id].clusterId == c then 1 else 0)
  {
  }

  /** getIngestSettings' defaulting of a stored row (or of no row). */
  function SettingsFromRow(row: Option<SettingsRow>): IngestSettings {
    match row
    case None => IngestSettings(DefaultSubreddits, Heuristics.DefaultHeuristicPatterns, true, DefaultClusterDistanceThreshold, None)
    case Some(r) =>
      IngestSettings(
        r.subredditList,
        r.heuristicPatterns,
        if r.cronIngestEnabled.None? then true else r.cronIngestEnabled.value == 1,
        if r.clusterDistanceThreshold.Finite? then r.clusterDistanceThreshold.r else DefaultClusterDistanceThreshold,
        Some(r.updatedAt))
  }

  /** The row upsertIngestSettings writes; `cron` and `threshold` are `None` when the
      caller omits them. */
  function SettingsRowFor(subredditList: ListArg, heuristicPatterns: ListArg, cron: Option<bool>,
                          threshold: Option<Num>, now: int): SettingsRow
  {
    var t := threshold.GetOr(Finite(DefaultClusterDistanceThreshold));
    SettingsRow(
      ItemsOr(subredditList, []),
      ItemsOr(heuristicPatterns, []),
      Some(if cron.GetOr(true) then 1 else 0),
      Finite(if t.Finite? then t.r else DefaultClusterDistanceThreshold),
      now)
  }

  /** Reading back what was saved gives the same lists and cron flag, the threshold
      when it was finite and the default otherwise, and the time of the save; omitted
      options read back as their defaults. */
  lemma SettingsRoundTrip(subredditList: ListArg, heuristicPatterns: ListArg, cron: Option<bool>,
                          threshold: Option<Num>, now: int)
    ensures var s := SettingsFromRow(Some(SettingsRowFor(subredditList, heuristicPatterns, cron, threshold, now)));
      && s.subredditList == ItemsOr(subredditList, [])
      && s.heuristicPatterns == ItemsOr(heuristicPatterns, [])
      && s.cronIngestEnabled == cron.GetOr(true)
      && (threshold.Some? && threshold.value.Finite? ==> s.clusterDistanceThreshold == threshold.value.r)
      && (threshold.None? || threshold.value.NonFinite? ==> s.clusterDistanceThreshold == DefaultClusterDistanceThreshold)
      && s.updatedAt == Some(now)
  {
  }

  /** Without a row the defaults apply; a null cron column reads as enabled, and a
      non-numeric threshold column as the default threshold. */
  lemma SettingsDefaults(row: SettingsRow)
    ensures SettingsFromRow(None) == IngestSettings(DefaultSubreddits, Heuristics.DefaultHeuristicPatterns, true, DefaultClusterDistanceThreshold, None)
    ensures row.cronIngestEnabled.None? ==> SettingsFromRow(Some(row)).cronIngestEnabled
    ensures row.clusterDistanceThreshold.NonFinite? ==> SettingsFromRow(Some(row)).clusterDistanceThreshold == DefaultClusterDistanceThreshold
    ensures SettingsFromRow(Some(row)).cronIngestEnabled <==> row.cronIngestEnabled.None? || row.cronIngestEnabled.value == 1
  {
  }

  /** listAllAnalyzedPosts' order: ascending `created_at`. */
  predicate SortedByCreatedAt(rows: seq<StoredPost>) {
    forall i, j | 0 <= i < j < |rows| :: rows[i].createdAt <= rows[j].createdAt
  }

  function RowIds(rows: seq<StoredPost>): set<string> {
    set y | y in rows :: y.id
  }

  /** Inserts a row after every row with a smaller or equal `created_at`. */
  function InsertByCreatedAt(rows: seq<StoredPost>, x: StoredPost): (r: seq<StoredPost>)
    requires SortedByCreatedAt(rows)
    ensures SortedByCreatedAt(r)
    ensures |r| == |rows| + 1
    ensures forall y :: y in r <==> y in rows || y == x
    decreases |rows|
  {
    if rows == [] then [x]
    else if x.createdAt < rows[0].createdAt then [x] + rows
    else
      var rest := InsertByCreatedAt(rows[1..], x);
      assert forall y | y in rows[1..] :: y in rows;
      assert forall y | y in rest :: y.createdAt >= rows[0].createdAt;
      [rows[0]] + rest
  }

  lemma RowIdsInsert(rows: seq<StoredPost>, x: StoredPost)
    requires SortedByCreatedAt(rows)
    ensures RowIds(InsertByCreatedAt(rows, x)) == RowIds(rows) + {x.id}
  {
    var r := InsertByCreatedAt(rows, x);
    forall k | k in RowIds(r) ensures k in RowIds(rows) + {x.id} {
      var y :| y in r && y.id == k;
    }
    forall k | k in RowIds(rows) + {x.id} ensures k in RowIds(r) {
      if k in RowIds(rows) {
        var y :| y in rows && y.id == k;
        assert y in r;
      } else {
        assert x in r;
      }
    }
  }

  /** MAX(created_at) over the posts of cluster `c`: null when it has none. */
  function LatestCreatedAt(posts: map<string, AnalyzedPost>, c: string): (r: Option<int>)
    ensures r.None? <==> !HasMember(posts, c)
    ensures r.Some? ==>
      && (exists p | p in posts && posts[p].clusterId == c :: posts[p].createdAt == r.value)
      && (forall p | p in posts && posts[p].clusterId == c :: posts[p].createdAt <= r.value)
  {
    var s := set p | p in posts && posts[p].clusterId == c :: posts[p].createdAt;
    CreatedAtsNonEmpty(posts, c);
    if s == {} then None
    else
      var m := MaxOf(s);
      assert forall p | p in posts && posts[p].clusterId == c :: posts[p].createdAt in s;
      Some(m)
  }

  lemma CreatedAtsNonEmpty(posts: map<string, AnalyzedPost>, c: string)
    ensures (set p | p in posts && posts[p].clusterId == c :: posts[p].createdAt) != {} <==> HasMember(posts, c)
  {
    var s := set p | p in posts && posts[p].clusterId == c :: posts[p].createdAt;
    if HasMember(posts, c) {
      var p :| p in posts && posts[p].clusterId == c;
      assert posts[p].createdAt in s;
    }
    if s != {} {
      var v :| v in s;
      var p :| p in posts && posts[p].clusterId == c && posts[p].createdAt == v;
    }
  }

  predicate ForeignKeysHold(clusters: map<string, Cluster>, posts: map<string, AnalyzedPost>) {
    forall id | id in posts :: posts[id].clusterId in clusters
  }

  predicate RowidsDistinct(clusters: map<string, Cluster>) {
    && (forall c | c in clusters :: clusters[c].rowid >= 1)
    && (forall c, d | c in clusters && d in clusters && c != d :: clusters[c].rowid != clusters[d].rowid)
  }

  predicate VectorsSized(vectors: map<int, seq<real>>) {
    forall r | r in vectors :: |vectors[r]| == EmbeddingDimension
  }

  predicate CountsAgree(clusters: map<string, Cluster>, posts: map<string, AnalyzedPost>) {
    forall c | c in clusters :: clusters[c].postCount == |Members(posts, c)|
  }

  /** Removing a cluster's only post together with the cluster keeps the tables
      consistent. */
  lemma RemoveLastMember(clusters: map<string, Cluster>, posts: map<string, AnalyzedPost>, postId: string)
    requires ForeignKeysHold(clusters, posts) && CountsAgree(clusters, posts) && RowidsDistinct(clusters)
    requires postId in posts && Members(posts, posts[postId].clusterId) == {postId}
    ensures var c := posts[postId].clusterId;
      ForeignKeysHold(clusters - {c}, posts - {postId}) && CountsAgree(clusters - {c}, posts - {postId})
      && RowidsDistinct(clusters - {c})
  {
    var c := posts[postId].clusterId;
    var posts' := posts - {postId};
    forall id | id in posts' ensures posts'[id].clusterId in clusters - {c} {
      assert id !in Members(posts, c);
    }
    forall d | d in clusters - {c} ensures clusters[d].postCount == |Members(posts', d)| {
      MembersRemove(posts, postId, d);
    }
  }

  /** Removing one of several posts of a cluster and recounting keeps the tables
      consistent, whatever `last_seen_at` becomes. */
  lemma RemoveMember(clusters: map<string, Cluster>, posts: map<string, AnalyzedPost>, postId: string, lastSeenAt: int)
    requires ForeignKeysHold(clusters, posts) && CountsAgree(clusters, posts) && RowidsDistinct(clusters)
    requires postId in posts
    ensures var c := posts[postId].clusterId;
      var posts' := posts - {postId};
      var clusters' := clusters[c := clusters[c].(postCount := |Members(posts', c)|, lastSeenAt := lastSeenAt)];
      ForeignKeysHold(clusters', posts') && CountsAgree(clusters', posts') && RowidsDistinct(clusters')
  {
    var c := posts[postId].clusterId;
    var posts' := posts - {postId};
    var clusters' := clusters[c := clusters[c].(postCount := |Members(posts', c)|, lastSeenAt := lastSeenAt)];
    forall d | d in clusters' ensures clusters'[d].postCount == |Members(posts', d)| {
      MembersRemove(posts, postId, d);
    }
  }

  class Database {
    var clusters: map<string, Cluster>
    var posts: map<string, AnalyzedPost>
    var vectors: map<int, seq<real>>
    var settingsRow: Option<SettingsRow>

    /** What the schema and the extension enforce: every post references an existing
        cluster, cluster rowids are positive and distinct, and every vector has 1536
        components. */
    predicate Valid()
      reads this
    {
      ForeignKeysHold(clusters, posts) && RowidsDistinct(clusters) && VectorsSized(vectors)
    }

    /** What the helpers maintain between calls: each cluster's post_count is its
        number of posts. */
    predicate Consistent()
      reads this
    {
      Valid() && CountsAgree(clusters, posts)
    }

    /** An empty database with no settings row. */
    constructor ()
      ensures Consistent()
      ensures clusters == map[] && posts == map[] && vectors == map[] && settingsRow == None
    {
      clusters := map[];
      posts := map[];
      vectors := map[];
      settingsRow := None;
    }

    /** isPostAlreadyAnalyzed. */
    predicate IsPostAlreadyAnalyzed(postId: string)
      reads this
    {
      postId in posts
    }

    /** getIngestSettings. */
    function GetIngestSettings(): IngestSettings
      reads this
    {
      SettingsFromRow(settingsRow)
    }

    /** insertAnalyzedPost (`INSERT OR IGNORE`): true exactly when a row was added; an
        existing post is left as it is; a missing cluster is a foreign-key error. */
    method InsertAnalyzedPost(id: string, post: AnalyzedPost) returns (r: Result<bool, string>)
      requires Valid()
      modifies this
      ensures Valid()
      ensures id in old(posts) ==> r == Success(false) && posts == old(posts)
      ensures id !in old(posts) && post.clusterId !in old(clusters) ==> r == Failure(ForeignKeyError) && posts == old(posts)
      ensures id !in old(posts) && post.clusterId in old(clusters) ==> r == Success(true) && posts == old(posts)[id := post]
      ensures clusters == old(clusters) && vectors == old(vectors) && settingsRow == old(settingsRow)
    {
      if id in posts {
        return Success(false);
      }
      if post.clusterId !in clusters {
        return Failure(ForeignKeyError);
      }
      posts := posts[id := post];
      r := Success(true);
    }

    /** createCluster: post_count 1, status 'new', last_seen_at = created_at = now, and
        the next rowid; an existing ID is a primary-key error. */
    method CreateCluster(id: string, title: string, description: string, solutionIdea: string, now: int)
      returns (r: Result<(), string>)
      requires Valid()
      modifies this
      ensures Valid()
      ensures id in old(clusters) ==> r == Failure(PrimaryKeyError) && clusters == old(clusters)
      ensures id !in old(clusters) ==>
        && r == Success(())
        && clusters == old(clusters)[id := Cluster(NextRowid(old(clusters)), title, description, solutionIdea, 1, NewStatus, now, now)]
      ensures posts == old(posts) && vectors == old(vectors) && settingsRow == old(settingsRow)
    {
      if id in clusters {
        return Failure(PrimaryKeyError);
      }
      var rowid := NextRowid(clusters);
      clusters := clusters[id := Cluster(rowid, title, description, solutionIdea, 1, NewStatus, now, now)];
      r := Success(());
    }

    /** The `INSERT INTO vec_opportunities(rowid, embedding)` of createClusterFromPost:
        the virtual table refuses a vector of another dimension and a rowid it already
        holds. */
    method InsertVector(rowid: int, embedding: seq<real>) returns (r: Result<(), string>)
      requires Valid()
      modifies this
      ensures Valid()
      ensures |embedding| != EmbeddingDimension ==> r == Failure(VectorDimensionMismatch) && vectors == old(vectors)
      ensures |embedding| == EmbeddingDimension && rowid in old(vectors) ==> r == Failure(VectorRowidTaken) && vectors == old(vectors)
      ensures |embedding| == EmbeddingDimension && rowid !in old(vectors) ==> r == Success(()) && vectors == old(vectors)[rowid := embedding]
      ensures clusters == old(clusters) && posts == old(posts) && settingsRow == old(settingsRow)
    {
      if |embedding| != EmbeddingDimension {
        return Failure(VectorDimensionMismatch);
      }
      if rowid in vectors {
        return Failure(VectorRowidTaken);
      }
      vectors := vectors[rowid := embedding];
      r := Success(());
    }

    /** bumpCluster: one more post and `last_seen_at` overwritten with `now` (not the
        larger of the two); an unknown ID changes nothing. */
    method BumpCluster(clusterId: string, now: int)
      requires Valid()
      modifies this
      ensures Valid()
      ensures clusterId in old(clusters) ==>
        clusters == old(clusters)[clusterId := old(clusters)[clusterId].(postCount := old(clusters)[clusterId].postCount + 1, lastSeenAt := now)]
      ensures clusterId !in old(clusters) ==> clusters == old(clusters)
      ensures posts == old(posts) && vectors == old(vectors) && settingsRow == old(settingsRow)
    {
      if clusterId in clusters {
        var c := clusters[clusterId];
        clusters := clusters[clusterId := c.(postCount := c.postCount + 1, lastSeenAt := now)];
      }
    }

    /** pruneOrphanClusters: deletes exactly the clusters no post references and returns
        their number; the vector rows stay. */
    method PruneOrphanClusters() returns (changes: nat)
      requires Consistent()
      modifies this
      ensures Consistent()
      ensures clusters == Pruned(old(clusters), old(posts))
      ensures forall c | c in clusters :: HasMember(posts, c)
      ensures changes == |old(clusters).Keys - clusters.Keys|
      ensures (forall c | c in old(clusters) :: HasMember(old(posts), c)) ==> clusters == old(clusters) && changes == 0
      ensures posts == old(posts) && vectors == old(vectors) && settingsRow == old(settingsRow)
    {
      var kept := Pruned(clusters, posts);
      changes := |clusters.Keys - kept.Keys|;
      if forall c | c in clusters :: HasMember(posts, c) {
        PrunedNothing(clusters, posts);
        assert clusters.Keys - kept.Keys == {};
      }
      forall id | id in posts ensures posts[id].clusterId in kept {
        assert HasMember(posts, posts[id].clusterId);
      }
      clusters := kept;
    }

    /** deletePostFromCluster. */
    method DeletePostFromCluster(clusterId: string, postId: string) returns (deleted: bool, clusterRemoved: bool)
      requires Consistent()
      modifies this
      ensures Consistent()
      ensures settingsRow == old(settingsRow)
      // No such post in that cluster: nothing happens.
      ensures postId !in old(posts) || old(posts)[postId].clusterId != clusterId ==>
        !deleted && !clusterRemoved && clusters == old(clusters) && posts == old(posts) && vectors == old(vectors)
      // Otherwise the post goes.
      ensures postId in old(posts) && old(posts)[postId].clusterId == clusterId ==>
        deleted && posts == old(posts) - {postId}
      // The last member: the cluster row and its vector row go too.
      ensures postId in old(posts) && old(posts)[postId].clusterId == clusterId && Members(old(posts), clusterId) == {postId} ==>
        && clusterRemoved
        && clusters == old(clusters) - {clusterId}
        && vectors == old(vectors) - {old(clusters)[clusterId].rowid}
      // Other members remain: recount, and the latest remaining created_at becomes
      // last_seen_at unless it is 0 (`latest || null`, then COALESCE).
      ensures postId in old(posts) && old(posts)[postId].clusterId == clusterId && Members(old(posts), clusterId) != {postId} ==>
        var latest := LatestCreatedAt(posts, clusterId);
        var c := old(clusters)[clusterId];
        && !clusterRemoved
        && latest.Some?
        && clusters == old(clusters)[clusterId := c.(postCount := |Members(posts, clusterId)|,
                                                      lastSeenAt := if latest.value != 0 then latest.value else c.lastSeenAt)]
        && vectors == old(vectors)
    {
      if postId !in posts || posts[postId].clusterId != clusterId {
        return false, false;
      }
      MembersRemove(posts, postId, clusterId);
      MembersEmpty(posts - {postId}, clusterId);
      var remainingCount := |Members(posts - {postId}, clusterId)|;
      if remainingCount <= 0 {
        assert Members(posts, clusterId) == {postId};
        RemoveLastMember(clusters, posts, postId);
        var rowid := clusters[clusterId].rowid;
        posts := posts - {postId};
        vectors := vectors - {rowid};
        clusters := clusters - {clusterId};
        return true, true;
      }
      var latest := LatestCreatedAt(posts - {postId}, clusterId);
      var c := clusters[clusterId];
      var lastSeen := if latest.value != 0 then latest.value else c.lastSeenAt;
      RemoveMember(clusters, posts, postId, lastSeen);
      posts := posts - {postId};
      clusters := clusters[clusterId := c.(postCount := remainingCount, lastSeenAt := lastSeen)];
      return true, false;
    }

    /** resetOpportunityData: one transaction empties posts, vectors and clusters, after
        which no post counts as analyzed. */
    method ResetOpportunityData()
      requires Valid()
      modifies this
      ensures Consistent()
      ensures posts == map[] && vectors == map[] && clusters == map[]
      ensures forall id :: !IsPostAlreadyAnalyzed(id)
      ensures settingsRow == old(settingsRow)
    {
      posts := map[];
      vectors := map[];
      clusters := map[];
    }

    /** upsertIngestSettings: insert or overwrite the single settings row. */
    method UpsertIngestSettings(subredditList: ListArg, heuristicPatterns: ListArg, cron: Option<bool>,
                                threshold: Option<Num>, now: int)
      requires Valid()
      modifies this
      ensures Valid()
      ensures settingsRow == Some(SettingsRowFor(subredditList, heuristicPatterns, cron, threshold, now))
      ensures clusters == old(clusters) && posts == old(posts) && vectors == old(vectors)
    {
      settingsRow := Some(SettingsRowFor(subredditList, heuristicPatterns, cron, threshold, now));
    }

    /** One row of listAllAnalyzedPosts: the cluster's description is the post's pain
        point and its solution idea the existing idea; both are null without a cluster. */
    function RowOf(id: string): StoredPost
      reads this
      requires id in posts
    {
      var p := posts[id];
      StoredPost(id, p.subreddit, p.title, p.body, p.url, p.createdAt,
        if p.clusterId in clusters then Some(clusters[p.clusterId].description) else None,
        if p.clusterId in clusters then Some(clusters[p.clusterId].solutionIdea) else None)
    }

    /** listAllAnalyzedPosts: every post exactly once, joined with its cluster, by
        ascending `created_at` (ties in an order SQLite leaves open). */
    method ListAllAnalyzedPosts() returns (rows: seq<StoredPost>)
      ensures SortedByCreatedAt(rows)
      ensures |rows| == |posts| && RowIds(rows) == posts.Keys
      ensures forall y | y in rows :: y.id in posts && y == RowOf(y.id)
    {
      rows := [];
      var left := posts.Keys;
      while left != {}
        invariant left <= posts.Keys
        invariant SortedByCreatedAt(rows)
        invariant RowIds(rows) == posts.Keys - left
        invariant |rows| == |posts.Keys - left|
        invariant forall y | y in rows :: y.id in posts && y == RowOf(y.id)
        decreases |left|
      {
        var id :| id in left;
        ghost var done := posts.Keys - left;
        var row := RowOf(id);
        RowIdsInsert(rows, row);
        rows := InsertByCreatedAt(rows, row);
        left := left - {id};
        assert posts.Keys - left == done + {id};
        assert id !in done;
      }
    }
  }
}
