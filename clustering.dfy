/** server/lib/clustering.js: deciding whether a post's embedding joins an existing
    cluster, attaching a post to a cluster, and creating a cluster from a post in one
    transaction. The k = 1 nearest-neighbour query of the vector extension is an
    oracle whose answer (`Option<VectorMatch>`) is a parameter; the UUID of a new
    cluster is a parameter too. */
module Clustering {
  import opened Wrappers
  import opened JsValues
  import opened Feed
  import opened Store

  /** What analyzePost returns once its schema has been checked. */
  datatype Analysis = Analysis(isOpportunity: bool, painPointSummary: string, proposedSolution: string)

  /** The row of the k = 1 vector query. */
  datatype VectorMatch = VectorMatch(rowid: int, distance: real)

  /** What findNearestCluster returns when it finds a cluster. */
  datatype NearestCluster = NearestCluster(clusterId: string, distance: real, rowid: int)

  const PostAlreadyAnalyzedMessage: string := "Post already analyzed; skipping new cluster creation."

  /** `SELECT ID FROM opportunity_clusters WHERE rowid = ? LIMIT 1`: rowids are
      distinct, so at most one cluster answers. */
  function ClusterWithRowid(clusters: map<string, Cluster>, rowid: int): (r: Option<string>)
    requires RowidsDistinct(clusters)
    ensures r.None? <==> forall c | c in clusters :: clusters[c].rowid != rowid
    ensures r.Some? ==> r.value in clusters && clusters[r.value].rowid == rowid
  {
    if exists c | c in clusters :: clusters[c].rowid == rowid then
      var c :| c in clusters && clusters[c].rowid == rowid;
      Some(c)
    else None
  }

  /** findNearestCluster: the nearest vector counts only when its distance is at most
      the threshold and a cluster row still carries its rowid. */
  function FindNearestCluster(clusters: map<string, Cluster>, vectorMatch: Option<VectorMatch>, threshold: real)
    : (r: Option<NearestCluster>)
    requires RowidsDistinct(clusters)
    ensures vectorMatch.None? ==> r.None?
    ensures vectorMatch.Some? && vectorMatch.value.distance > threshold ==> r.None?
    ensures r.Some? <==>
      && vectorMatch.Some? && vectorMatch.value.distance <= threshold
      && exists c | c in clusters :: clusters[c].rowid == vectorMatch.value.rowid
    ensures r.Some? ==>
      && r.value.clusterId in clusters
      && clusters[r.value.clusterId].rowid == vectorMatch.value.rowid == r.value.rowid
      && r.value.distance == vectorMatch.value.distance
  {
    match vectorMatch
    case None => None
    case Some(m) =>
      if m.distance > threshold then None
      else
        match ClusterWithRowid(clusters, m.rowid)
        case None => None
        case Some(c) => Some(NearestCluster(c, m.distance, m.rowid))
  }

  /** A larger threshold never loses a match, and keeps the cluster it matched. */
  lemma ThresholdMonotone(clusters: map<string, Cluster>, vectorMatch: Option<VectorMatch>, t: real, t': real)
    requires RowidsDistinct(clusters) && t <= t'
    ensures FindNearestCluster(clusters, vectorMatch, t).Some? ==>
      FindNearestCluster(clusters, vectorMatch, t') == FindNearestCluster(clusters, vectorMatch, t)
  {
    if FindNearestCluster(clusters, vectorMatch, t).Some? {
      var m := vectorMatch.value;
      var c := FindNearestCluster(clusters, vectorMatch, t).value.clusterId;
      var c' := FindNearestCluster(clusters, vectorMatch, t').value.clusterId;
      assert clusters[c].rowid == clusters[c'].rowid;
    }
  }

  /** The answer depends on the clusters only through the one holding the rowid:
      clusters with other rowids may come and go. */
  lemma NearestIgnoresOtherClusters(clusters: map<string, Cluster>, more: map<string, Cluster>,
                                    vectorMatch: Option<VectorMatch>, threshold: real)
    requires RowidsDistinct(clusters) && RowidsDistinct(more)
    requires clusters.Keys <= more.Keys && forall c | c in clusters :: more[c] == clusters[c]
    requires vectorMatch.Some? ==> forall c | c in more && c !in clusters :: more[c].rowid != vectorMatch.value.rowid
    ensures FindNearestCluster(clusters, vectorMatch, threshold) == FindNearestCluster(more, vectorMatch, threshold)
  {
    if vectorMatch.Some? && vectorMatch.value.distance <= threshold {
      var m := vectorMatch.value;
      if exists c | c in clusters :: clusters[c].rowid == m.rowid {
        var c := ClusterWithRowid(clusters, m.rowid).value;
        var d := ClusterWithRowid(more, m.rowid).value;
        assert more[c].rowid == more[d].rowid;
      }
    }
  }

  /** `post.publishedAt || now`: a missing or zero publication time becomes `now`. */
  function CreatedAtOf(post: Post, now: int): int {
    if TruthyInt(post.publishedAt) then post.publishedAt.value else now
  }

  /** The analyzed_posts row both helpers insert for `post` in cluster `clusterId`. */
  function PostRow(clusterId: string, post: Post, now: int): AnalyzedPost {
    AnalyzedPost(clusterId, post.subreddit, post.title, post.body, post.link, CreatedAtOf(post, now))
  }

  /** The cluster row createClusterFromPost writes. */
  function NewCluster(rowid: int, analysis: Analysis, now: int): Cluster {
    Cluster(rowid, analysis.painPointSummary, analysis.painPointSummary, analysis.proposedSolution, 1, NewStatus, now, now)
  }

  /** A row's created_at is the post's publication time when there is a non-zero one. */
  lemma PostRowCreatedAt(clusterId: string, post: Post, now: int)
    ensures post.publishedAt.Some? && post.publishedAt.value != 0 ==> PostRow(clusterId, post, now).createdAt == post.publishedAt.value
    ensures post.publishedAt.None? || post.publishedAt.value == 0 ==> PostRow(clusterId, post, now).createdAt == now
    ensures PostRow(clusterId, post, now).clusterId == clusterId
  {
  }

  /** attachPostToCluster: insert the post, and bump the cluster exactly when a row was
      added. It returns the cluster id it was given; a missing cluster surfaces as the
      insert's foreign-key error. Each cluster's post_count stays its number of posts. */
  method AttachPostToCluster(s: Database, clusterId: string, post: Post, now: int) returns (r: Result<string, string>)
    requires s.Consistent()
    modifies s
    ensures s.Consistent()
    ensures s.vectors == old(s.vectors) && s.settingsRow == old(s.settingsRow)
    ensures post.postId in old(s.posts) ==>
      r == Success(clusterId) && s.posts == old(s.posts) && s.clusters == old(s.clusters)
    ensures post.postId !in old(s.posts) && clusterId !in old(s.clusters) ==>
      r == Failure(ForeignKeyError) && s.posts == old(s.posts) && s.clusters == old(s.clusters)
    ensures post.postId !in old(s.posts) && clusterId in old(s.clusters) ==>
      var c := old(s.clusters)[clusterId];
      && r == Success(clusterId)
      && s.posts == old(s.posts)[post.postId := PostRow(clusterId, post, now)]
      && s.clusters == old(s.clusters)[clusterId := c.(postCount := c.postCount + 1, lastSeenAt := now)]
    ensures forall c :: c in s.clusters <==> c in old(s.clusters)
    ensures forall id :: id in s.posts <==> id in old(s.posts) || (r.Success? && id == post.postId)
    ensures CountedClusters(old(s.clusters)) ==> CountedClusters(s.clusters)
  {
    ghost var posts0 := s.posts;
    var inserted := s.InsertAnalyzedPost(post.postId, PostRow(clusterId, post, now));
    if inserted.Failure? {
      return Failure(inserted.error);
    }
    if inserted.value {
      ghost var clusters0 := s.clusters;
      s.BumpCluster(clusterId, now);
      assert CountedClusters(clusters0) ==> CountedClusters(s.clusters);
      forall c | c in s.clusters ensures s.clusters[c].postCount == |Members(s.posts, c)| {
        MembersAdd(posts0, post.postId, PostRow(clusterId, post, now), c);
      }
    }
    r := Success(clusterId);
  }

  /** Every cluster counts at least one post. */
  predicate CountedClusters(clusters: map<string, Cluster>) {
    forall c | c in clusters :: clusters[c].postCount >= 1
  }

  /** Proof helper, to keep the set reasoning out of the cluster methods' proofs: storing
      a cluster that counts a post keeps every cluster counting one. */
  lemma CountedStore(clusters: map<string, Cluster>, id: string, cluster: Cluster)
    requires CountedClusters(clusters) && cluster.postCount >= 1
    ensures CountedClusters(clusters[id := cluster])
  {
  }

  /** Proof helper for the ingestion loop's key bookkeeping: a table that held
      `base + added` and gained exactly the keys of `step` holds `base + (added + step)`. */
  lemma KeysGrow<V>(before: set<string>, after: map<string, V>, base: set<string>, added: set<string>, step: set<string>)
    requires before == base + added
    requires forall k :: k in after <==> k in before || k in step
    ensures after.Keys == base + (added + step)
  {
  }
  /** The error createClusterFromPost's transaction raises against the given tables, in
      the order its statements meet them (the cluster insert, the vector insert, the
      post insert), or None when it commits. */
  function CreateFailure(clusters: map<string, Cluster>, posts: map<string, AnalyzedPost>,
                         vectors: map<int, seq<real>>, clusterId: string, embedding: seq<real>,
                         postId: string): Option<string>
  {
    if clusterId in clusters then Some(PrimaryKeyError)
    else if |embedding| != EmbeddingDimension then Some(VectorDimensionMismatch)
    else if NextRowid(clusters) in vectors then Some(VectorRowidTaken)
    else if postId in posts then Some(PostAlreadyAnalyzedMessage)
    else None
  }

  /** createClusterFromPost, the transaction: the cluster row (title and description
      the pain point, the solution idea the proposed solution), the vector under the
      cluster's rowid, then the post. Any failure rolls all three tables back. */
  method CreateClusterFromPost(s: Database, clusterId: string, analysis: Analysis, embedding: seq<real>,
                               post: Post, now: int)
    returns (r: Result<string, string>)
    requires s.Consistent()
    modifies s
    ensures s.Consistent()
    ensures s.settingsRow == old(s.settingsRow)
    ensures r.Failure? <==>
      || clusterId in old(s.clusters)
      || |embedding| != EmbeddingDimension
      || NextRowid(old(s.clusters)) in old(s.vectors)
      || post.postId in old(s.posts)
    ensures r.Failure? ==>
      s.clusters == old(s.clusters) && s.posts == old(s.posts) && s.vectors == old(s.vectors)
    ensures r.Success? ==>
      var rowid := NextRowid(old(s.clusters));
      && r.value == clusterId
      && s.clusters == old(s.clusters)[clusterId := NewCluster(rowid, analysis, now)]
      && s.vectors == old(s.vectors)[rowid := embedding]
      && s.posts == old(s.posts)[post.postId := PostRow(clusterId, post, now)]
    ensures CreateFailure(old(s.clusters), old(s.posts), old(s.vectors), clusterId, embedding, post.postId)
            == (if r.Failure? then Some(r.error) else None)
    ensures forall c :: c in s.clusters <==> c in old(s.clusters) || (r.Success? && c == clusterId)
    ensures forall id :: id in s.posts <==> id in old(s.posts) || (r.Success? && id == post.postId)
    ensures CountedClusters(old(s.clusters)) ==> CountedClusters(s.clusters)
  {
    var clusters0, posts0, vectors0 := s.clusters, s.posts, s.vectors;
    var created := s.CreateCluster(clusterId, analysis.painPointSummary, analysis.painPointSummary,
                                   analysis.proposedSolution, now);
    if created.Failure? {
      return Failure(created.error);
    }
    // The row just inserted always has a rowid of at least 1, so the source's
    // "Failed to resolve cluster rowid" branch cannot be taken.
    var rowid := s.clusters[clusterId].rowid;
    var vectorInserted := s.InsertVector(rowid, embedding);
    if vectorInserted.Failure? {
      s.clusters, s.posts, s.vectors := clusters0, posts0, vectors0;
      return Failure(vectorInserted.error);
    }
    var inserted := s.InsertAnalyzedPost(post.postId, PostRow(clusterId, post, now));
    if inserted.Failure? || !inserted.value {
      s.clusters, s.posts, s.vectors := clusters0, posts0, vectors0;
      return Failure(PostAlreadyAnalyzedMessage);
    }
    NewClusterCounts(clusters0, posts0, clusterId, NewCluster(rowid, analysis, now), post.postId, PostRow(clusterId, post, now));
    if CountedClusters(clusters0) {
      CountedStore(clusters0, clusterId, NewCluster(rowid, analysis, now));
    }
    r := Success(clusterId);
  }

  /** A new cluster holding exactly one new post keeps every post_count equal to the
      cluster's number of posts. */
  lemma NewClusterCounts(clusters: map<string, Cluster>, posts: map<string, AnalyzedPost>, clusterId: string,
                         cluster: Cluster, postId: string, row: AnalyzedPost)
    requires ForeignKeysHold(clusters, posts) && CountsAgree(clusters, posts)
    requires clusterId !in clusters && postId !in posts && row.clusterId == clusterId && cluster.postCount == 1
    ensures CountsAgree(clusters[clusterId := cluster], posts[postId := row])
  {
    var clusters' := clusters[clusterId := cluster];
    var posts' := posts[postId := row];
    forall c | c in clusters' ensures clusters'[c].postCount == |Members(posts', c)| {
      MembersAdd(posts, postId, row, c);
      if c == clusterId {
        assert Members(posts, c) == {} by {
          forall p | p in posts ensures posts[p].clusterId != c {
            assert posts[p].clusterId in clusters;
          }
        }
      }
    }
  }
}
