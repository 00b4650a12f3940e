# reddit-monitor, modelled in Dafny

reddit-monitor watches Reddit's RSS feeds and does two things with them.

- **The opportunity engine** (`server/lib/`). It runs an ingestion pass:
  - fetch the `/new/.rss` feed of the configured subreddits, with retries and exponential backoff;
  - normalise the feed items into posts;
  - keep the posts that match a word-bounded heuristic pattern;
  - skip posts already analysed;
  - ask an AI classifier whether a post describes a pain point;
  - embed the pain point and attach the post to the nearest existing cluster within a distance threshold, or create a new cluster for it;
  - send a Discord notification;
  - prune the clusters left without posts.

  A second pass replays every stored post into a freshly emptied cluster store. It reuses the stored analysis on request, and it reports its progress through a shared progress record. A settings endpoint normalises and stores the subreddit and pattern lists.
- **The legacy keyword alerter** (`index.js`, `src/`). Its configuration is validated at start-up. Each poll matches every feed post against a fixed keyword list and records each match once in a `posts` table. It calls a Discord webhook for every match not yet alerted, and purges rows older than the retention period.

The model works as follows.

- Stateful parts are classes whose fields are the tables or the record. There is one per store:
  - `Store.Database`: clusters, analysed posts, the vector table and the settings row.
  - `Progress.ProgressTracker`.
  - `LegacyDb.AlertStore`.
- Their methods are specified against functions of the old state. The loops of the source are `while` loops proved against specification functions.
- The engine's two loops also return ghost records. The ingestion loop returns its visits, one per filtered post it reached: passed over as already stored, or analysed with the placement log entry and the notification outcome. The replay returns a placement log. Each entry records a post, the analysis it was placed by, the analysis a new cluster would be created from, the cluster, post and vector tables it met, and where it went. `Engine.After` gives the tables the entry leaves. Each entry and each visit met the tables the one before it left (`Engine.Chained`, `Engine.VisitsFollow`), and the first met the tables the loop began with, so the tables at the end of a run are a function of its log. `Engine.Decided` states the attach-or-create rule for an entry against `Engine.JoinTarget`, which is the source's `findNearestCluster` test. The runs' counters are counts over those records, and a failing run names the post or row it stopped at through `Engine.StepError` and `Engine.ReplayError`.
- Remote and foreign calls are function parameters (oracles). These include the AI's `analyzePost` and `getEmbedding`, the k = 1 vector search, the Discord calls, `fetch` plus XML parsing, `Date.parse`, UUID generation and the clock.

Modules follow the source files:

| module | source |
|---|---|
| `Text`, `JsValues`, `Wrappers`, `Distinct` | shared string helpers: JS `trim`, `toLowerCase`, `split`/`join`, `includes`, truthiness, the `or` operator, and case-insensitive keep-first deduplication |
| `Store` | `server/lib/sqlite-helpers.js` |
| `Clustering` | `server/lib/clustering.js` |
| `Engine`, `EngineStats` | `server/lib/engine.js` |
| `Heuristics` | `server/lib/heuristics.js` |
| `Feed`, `RedditLinks` | `server/lib/rss.js` (the extractors are shared with `src/rss.js`) |
| `Progress` | `server/lib/reanalyze-progress.js` |
| `SettingsApi` | `server/api/settings/index.post.js` |
| `LegacyRss` | `src/rss.js` |
| `LegacyKeywords` | `src/keywords.js` |
| `LegacyDb` | `src/db.js` |
| `LegacyConfig` | `src/config.js` |
| `LegacyPoller` | `index.js` (`pollOnce`) |

## Model

| member | source | states |
|---|---|---|
| Store.Database.constructor | server/lib/sqlite-helpers.js:139-147 | the empty store of a fresh database (no clusters, posts, vectors or settings row), the same tables `resetOpportunityData` leaves behind, satisfies the table invariants |
| Store.Database.InsertAnalyzedPost | server/lib/sqlite-helpers.js:267-300 | `INSERT OR IGNORE`: an existing id leaves the table untouched and answers false. A new id referencing an existing cluster is added and answers true. A new id referencing a missing cluster fails with the foreign-key error. No other table changes |
| Store.Database.CreateCluster | server/lib/sqlite-helpers.js:227-243 | a new id gets a row with post_count 1, status 'new', last_seen_at = created_at = now and the next rowid. A taken id fails with the primary-key error and changes nothing |
| Store.Database.InsertVector | server/lib/clustering.js:88-90 | a vector of the wrong dimension, or one whose rowid is taken, is refused and the vector table is unchanged. Otherwise exactly that row is added |
| Store.Database.BumpCluster | server/lib/sqlite-helpers.js:245-250 | post_count of that cluster goes up by exactly 1 and its last_seen_at becomes `now` (overwritten, not maximised). Every other cluster and table is unchanged, and an unknown id changes nothing |
| Store.Database.PruneOrphanClusters | server/lib/sqlite-helpers.js:252-265 | deletes exactly the clusters no post references and returns how many were deleted. Afterwards every cluster has a post. The posts, the vectors and the settings are unchanged, so the vector rows of pruned clusters remain |
| Store.PrunedNothing | server/lib/sqlite-helpers.js:252-265 | when every cluster has a post, pruning keeps the table as it is |
| Store.Database.DeletePostFromCluster | server/lib/sqlite-helpers.js:302-364 | when no such post is in that cluster: answers (false, false) and changes nothing. Deleting the last member removes the post, the cluster and the cluster's vector row, and answers (true, true). Deleting another member sets post_count to the remaining count and last_seen_at to their latest created_at (the old value kept when that is 0), and answers (true, false) |
| Store.Database.ResetOpportunityData | server/lib/sqlite-helpers.js:139-152 | posts, vectors and clusters are all empty afterwards, so isPostAlreadyAnalyzed is false for every id. The settings row is kept |
| Store.Database.UpsertIngestSettings | server/lib/sqlite-helpers.js:154-193 | the single settings row becomes the row built from the arguments; no other table changes |
| Store.Database.ListAllAnalyzedPosts | server/lib/sqlite-helpers.js:119-137 | every stored post exactly once, sorted by ascending created_at, each joined with its cluster's description and solution idea |
| Store.SettingsRoundTrip | server/lib/sqlite-helpers.js:154-225 | reading back a saved row gives the same lists (a missing list as empty) and cron flag (default true). A finite threshold is returned as saved; a non-finite or absent one reads back as the default 0.15 |
| Store.SettingsDefaults | server/lib/sqlite-helpers.js:195-225 | without a row the four defaults apply. A null cron column reads as enabled, otherwise exactly the value 1 does. A non-finite stored threshold reads as the default |
| Store.NextRowid | server/lib/clustering.js:75-81 | the rowid a new cluster gets: larger than every existing rowid, 1 for an empty table, otherwise one more than the largest |
| Store.LatestCreatedAt | server/lib/sqlite-helpers.js:350-354 | `MAX(created_at)` over a cluster's posts: null exactly when the cluster has no post, otherwise a created_at of one of its posts that no other post of the cluster exceeds |
| Store.InsertByCreatedAt | server/lib/sqlite-helpers.js:133 | inserting a row into a list sorted by created_at keeps it sorted and adds exactly that row |
| Store.RemoveLastMember | server/lib/sqlite-helpers.js:329-348 | removing a cluster's only post together with the cluster keeps foreign keys, post counts and distinct rowids |
| Store.RemoveMember | server/lib/sqlite-helpers.js:350-360 | removing one of several posts and recounting keeps foreign keys, post counts and distinct rowids |
| Store.MembersAdd | server/lib/sqlite-helpers.js:267-300 | adding a post to a cluster adds exactly its id to the cluster's members, so the member count goes up by one |
| Store.MembersRemove | server/lib/sqlite-helpers.js:314-327 | removing a post takes exactly its id out of its cluster's members, so the count drops by one |
| Clustering.ClusterWithRowid | server/lib/clustering.js:31-35 | the cluster whose rowid is the given one, if any. None exactly when no cluster has that rowid |
| Clustering.FindNearestCluster | server/lib/clustering.js:10-43 | null when the search finds no vector or its distance exceeds the threshold (equality matches). Otherwise some cluster holding the vector's rowid exists exactly when the result is non-null, and the result is that cluster's id, rowid and distance |
| Clustering.ThresholdMonotone | server/lib/clustering.js:27-29 | a larger threshold never loses a match, and it keeps the same cluster |
| Clustering.NearestIgnoresOtherClusters | server/lib/clustering.js:31-42 | adding clusters that do not hold the matched rowid does not change the answer |
| Clustering.PostRowCreatedAt | server/lib/clustering.js:53 | the stored post's created_at is the publication time when it is present and non-zero, otherwise `now`. The post references the given cluster |
| Clustering.AttachPostToCluster | server/lib/clustering.js:45-61 | an already-stored post changes nothing. A new post is inserted and its cluster is bumped (post_count + 1, last_seen_at = now). The answer is the given cluster id; vectors and settings are unchanged |
| Clustering.CreateClusterFromPost | server/lib/clustering.js:63-109 | fails exactly when the id is taken, the embedding has the wrong dimension, the next rowid already holds a vector, or the post is already stored. A failure leaves every table unchanged. On success exactly one cluster (title = description = pain point, solution idea = proposed solution), one vector under its rowid and one post referencing it are added |
| Clustering.NewClusterCounts | server/lib/clustering.js:92-104 | a new cluster with post_count 1 and its one new post keep every post_count equal to the cluster's member count |
| Engine.FilterPosts | server/lib/engine.js:60-62 | the kept posts are exactly the input posts that pass the heuristic filter |
| Engine.FilterFailOpen | server/lib/engine.js:60-62 | with no regex, every post is kept |
| Engine.CountNotification | server/lib/engine.js:111-124 | a sent result adds exactly one to notified, a throw exactly one to notifyErrors, a result that was not sent adds nothing, and no other counter changes |
| Engine.TallyPlaced | server/lib/engine.js:96-145 | the counters a placed post moves: skipped, clusteredExisting or clusteredNew by its placement, then notified for a sent notification and notifyErrors for a thrown one; nothing else changes |
| Engine.TallyCountsVisit | server/lib/engine.js:93-145 | an analysed post counts once as analysed and once under its placement and its notification outcome |
| Engine.PlacePost | server/lib/engine.js:96-145 | a non-opportunity is skipped and the store is unchanged. A failed embedding is the answer and changes nothing. When JoinTarget finds a cluster within the threshold, the answer is Joined with that cluster and the post is stored in it with the cluster's count and last-seen time moved. Otherwise a new cluster is created under the supplied id with the next rowid, its vector and the post, refused (changing nothing) exactly when the id or rowid is taken, the embedding has the wrong dimension or the post is already stored. Every success is Decided against the tables it met, Skipped exactly for a non-opportunity and Joined exactly when JoinTarget finds a cluster, and the three tables afterwards are exactly After of that entry |
| Engine.PlaceEmbedded | server/lib/engine.js:101-145 | an opportunity with its embedding joins the JoinTarget cluster whenever there is one (its row stored, the count and last-seen time moved); otherwise a cluster is created under the given id, failing (and changing nothing) exactly as createClusterFromPost's transaction does, and on success the new cluster, its vector and the post row are exactly what is added |
| Engine.JoinTarget | server/lib/engine.js:101-107 | the cluster a post joins: one exists exactly when the vector search finds a row within the threshold that a cluster with a non-empty id holds, and it is that cluster |
| Engine.IngestPosts | server/lib/engine.js:74-148 | total is the number of posts and filtered the number passing the filter. The visits follow the filtered posts in order: the first met the tables as they were, each later one the tables the visit before it left, and the post, vector and unpruned cluster tables at the end are those the last visit left. A post is passed over exactly when its id was stored when it came up; every other one got the AI's answer, was placed as Decided by the threshold against the tables it met and, when clustered, notified about. On success every filtered post was visited; deduped, skipped, clusteredExisting and clusteredNew count the visits of each kind, notified and notifyErrors the sent and thrown notifications. A failure is the error of the post where the loop stopped, against the tables the earlier visits left (the AI's, the embedding's, or the new cluster's transaction's), and prunes nothing; a thrown notification never fails a run. The table before pruning holds the old clusters and those the visits created, and prunedOrphans counts the ones the pruning removed |
| Engine.IngestFiltered | server/lib/engine.js:87-146 | the loop over the filtered posts: the visits follow the posts in order, all of them on success, the first meeting the tables as they were and each later one the tables the one before it left, and the tables at the end are those the last visit left; the counters tally the visits and the cluster table holds the old clusters and those the visits created; a failure is the error of the post where it stopped |
| Engine.IngestNext | server/lib/engine.js:87-146 | one pass of that loop: on success one more visit, to the next filtered post, placed against the current tables, with the chain of tables and the loop's other invariants kept; a failure is that post's error against the current tables and adds no visit |
| Engine.IngestOne | server/lib/engine.js:88-145 | one filtered post, visited against the tables as they were: a stored post counts as deduped and changes nothing; otherwise it fails exactly when StepError gives an error (the AI's, the embedding's, or the transaction's), leaving the tables as they were, and on success the visit records the AI's answer, the placement Decided against the old tables and the notification outcome, the tables afterwards are exactly those the visit leaves, and the counters move as CountsVisit says |
| Engine.VisitStep | server/lib/engine.js:87-91 | a visit to the next filtered post that met the tables the previous visits left keeps the visits following the filtered posts, and the tables it leaves are the new end of the chain |
| Engine.IngestLoopStep | server/lib/engine.js:87-146 | one more visit, placed against the tables the earlier ones left, keeps the loop's invariants: the visits follow the posts, the tables are those the last visit left, the cluster table holds the old clusters plus those the visits created, and the counters tally the visits |
| Engine.IngestFeed | server/lib/engine.js:54-148 | the feed is fetched from the URL of the given subreddits with the default retries, and a fetch failure is the answer and changes nothing. total counts the normalised feed and the visits follow the posts passing the regex, chained through the tables from the old ones to the final post, vector and unpruned cluster tables; completeness, the failure rule, the counters and the pruning are those of IngestPosts |
| Engine.RunIngestion | server/lib/engine.js:26-155 | without sqlite-vec it fails and changes nothing. The subreddit and pattern lists are the caller's, else the settings'; a list without names fails before any fetch and changes nothing. The feed comes from the URL of that list, and its normalised posts are filtered by the effective patterns. Every filtered post not already stored reaches the AI and is placed as Decided by EffectiveThreshold (a finite caller threshold, else the settings') against the tables the posts before it left, starting from the tables as they were, and the final post, vector and unpruned cluster tables are those the last visit left. A run fails only with the AI's, the embedding's or a new cluster's error at the post where it stopped, never for a notification. The counters count the visits of each kind and the sent and thrown notifications, and prunedOrphans the clusters pruned from the old ones plus those created |
| Engine.ForNewCluster | server/lib/engine.js:256-263 | the analysis a new cluster gets keeps the classification and pain point, and its proposed solution is never empty: its own when non-empty, else a fallback |
| Engine.AnalysisFor | server/lib/engine.js:204-216 | in reuse mode, a row with a stored pain point gets an opportunity carrying that pain point without calling the AI; every other row gets the AI's answer |
| Engine.ReplayRows | server/lib/engine.js:203-269 | after the replay loop analyzed = total = rows = progress.processed, analyzed = skipped + clusteredExisting + clusteredNew, and reusedAnalysis is the number of rows whose stored analysis was reused. The log holds, row by row, each post placed as Decided with the analysis AnalysisFor gives it, the first against the tables as they were and each later one against the tables the entry before it left, and the tables at the end are those the last entry left; clusteredExisting and clusteredNew count its Joined and Created entries. The post and cluster keys grow by exactly what the log placed and created, and the vectors by those of its Created entries. A failure is the error of the first row whose analysis, embedding or new cluster failed, against the tables the earlier rows left |
| Engine.ReplayNext | server/lib/engine.js:203-269 | one pass of that loop: on success one more log entry for the row, placed against the tables as they were, with the chain of tables and the counters still those of the log; a failure is the row's error and adds nothing |
| Engine.ReplayLoopStep | server/lib/engine.js:203-269 | one more entry, placed against the tables the log left, keeps the replay's invariants: each entry replays its row, the tables are those the last entry left and hold what they began with plus what the log placed, and the counters count the log |
| Engine.ChainStep | server/lib/engine.js:203-269 | an entry that met the tables at the end of a chained log extends the chain, and the tables it leaves are the new end |
| Engine.AfterKeys | server/lib/engine.js:231-268 | a Decided entry adds to the post table exactly the id of the post it placed, to the cluster table exactly the id of the cluster it created, and to the vector table exactly the created cluster's vector |
| Engine.ReplayedStep | server/lib/engine.js:203-269 | an entry that replays the next row against the tables the log left extends the replay: every entry replays its row and the chain of tables reaches the tables the new entry leaves |
| Engine.ReplayKeysStep | server/lib/engine.js:231-268 | after an entry the post and cluster keys are the starting keys plus everything the longer log placed and created, and the vectors those of its Created entries |
| Engine.ReplayRow | server/lib/engine.js:204-268 | one pass of the loop: it fails exactly when ReplayError gives an error (the AI's, the embedding's or the new cluster's), with that error, and a failure leaves the tables as they were. A row with its analysis is reported to the progress record with processed = analyzed and the message "Processed k/n" or "Analyzed k/n"; a row without one leaves the record untouched. On success analyzed moves by one, reusedAnalysis counts the row when its stored analysis is reused, exactly the counter of the row's placement moves, the entry met the tables as they were and is Decided, and the tables afterwards are exactly those the entry leaves |
| Engine.ReplayPlace | server/lib/engine.js:231-268 | the placement half of the row: it fails exactly when PlaceFailure gives an error, leaving the tables as they were; on success the entry carries the row's post, its analysis, the analysis a new cluster is created from (an empty proposed solution replaced by the stored idea, else the placeholder) and the tables as they were, its placement is Decided, the tables afterwards are exactly those the entry leaves, and exactly the counter of its placement moves |
| Engine.Tally | server/lib/engine.js:231-268 | a replayed row moves exactly the counter of its placement (skipped, clusteredExisting or clusteredNew) by one and no other |
| Engine.ReusedCountBounds | server/lib/engine.js:206-213 | at most one reuse per row, and in reuse mode with every row carrying a stored pain point, every row is reused |
| Engine.ReusedCountWithoutReuse | server/lib/engine.js:206-213 | outside reuse mode no row is reused |
| Engine.RerunAnalysis | server/lib/engine.js:157-283 | without sqlite-vec it fails and changes nothing. The replay runs over the listing: every stored post once, oldest first. With no stored posts it completes the progress record at once, without resetting anything. Any error marks the progress record failed, and a replay fails only with the error of the first row whose analysis, embedding or new cluster failed. Each replayed row was placed as Decided by EffectiveThreshold, the first against emptied tables and each later one against the tables the row before it left; the unpruned cluster table and the post and vector tables at the end are those the last entry left, so the posts are exactly those the log placed and the vectors those of its Created entries. A completed run has total = analyzed = the number of stored posts, reusedAnalysis the reused rows (0 outside reuse mode), clusteredExisting and clusteredNew the Joined and Created placements, and records its stats as done; when there were posts, the table before pruning is exactly the created clusters, the pruning removes none of them and prunedOrphans is 0 |
| Engine.ReplayListed | server/lib/engine.js:198-272 | the replay of a non-empty listing from emptied tables, each entry against the tables the one before it left: afterwards the unpruned clusters, the posts and the vectors are those the last entry left, so the posts are exactly those the log placed and the vectors those of its Created entries; a failure marks the progress record failed and is the first failing row's error; a success prunes nothing from the created clusters and completes the record |
| Engine.PruneReplayed | server/lib/engine.js:271 | after a replay every cluster counts the post that made it, so the pruning removes nothing and answers 0 |
| Engine.CountedClustersPruneNothing | server/lib/sqlite-helpers.js:252-265 | when every post_count is positive and agrees with the posts, every cluster has a post |
| Heuristics.NormalizeTerms | server/lib/heuristics.js:3-20 | the loop computes the keep-first deduplication of the trimmed, lower-cased items; a missing list gives none |
| Heuristics.NormalizeTermsShape | server/lib/heuristics.js:3-20 | the terms are non-empty, trimmed, lower-case and pairwise distinct, appear in input order, and every first occurrence of a term is kept |
| Heuristics.NormalizedItems | server/lib/heuristics.js:8-10 | item by item, the trimmed and lower-cased form of each input |
| Heuristics.UnescapeEscape | server/lib/heuristics.js:24 | escaping the regular-expression metacharacters with a backslash makes each term an alternative that reads back as the literal term |
| Heuristics.EscapeAll | server/lib/heuristics.js:23-25 | each alternative is its term escaped, in order |
| Heuristics.BuildPainRegexNull | server/lib/heuristics.js:22-29 | the regex is null exactly when no term survives normalisation. An explicit null or an empty list gives null, while an omitted argument uses the default patterns and gives a regex |
| Heuristics.PassesIff | server/lib/heuristics.js:31-39 | a post passes exactly when no term is configured, or some term occurs, ignoring case, with a word boundary on both sides in title + "\n" + body |
| Heuristics.TestEscapedIff | server/lib/heuristics.js:31 | the alternation of escaped terms matches exactly where one term occurs literally, word-bounded |
| Heuristics.PassesOrderInsensitive | server/lib/heuristics.js:22-39 | two pattern lists with the same set of normalised terms filter every post identically, whatever their order and repetitions |
| Heuristics.SameTermSet | server/lib/heuristics.js:3-20 | the kept terms are, as a set, exactly the non-empty normalised items |
| Heuristics.LowerKeepsTrim | server/lib/heuristics.js:8-10 | lower-casing a trimmed string leaves it trimmed |
| Feed.BuildFeedUrl | server/lib/rss.js:12-22 | fails with "At least one subreddit is required." exactly when every name is blank (or the list is missing) |
| Feed.BuildFeedUrlRoundTrip | server/lib/rss.js:21 | the URL is the fixed prefix, then the cleaned names joined with "+", then the suffix; names without "+" are recovered by splitting |
| Feed.CleanNamesTrimmed | server/lib/rss.js:13-15 | every cleaned name is trimmed and non-empty |
| Feed.CleanNamesEmpty | server/lib/rss.js:13-17 | no name is left exactly when every name is blank |
| Feed.Backoff | server/lib/rss.js:116-118 | the k-th sleep (from 0) is 500·2^k ms |
| Feed.BackoffTotal | server/lib/rss.js:116-118 | after n failed attempts the total sleep is 500·(2^n − 1) ms |
| Feed.RetryFetch | server/lib/rss.js:91-125 | at most `retries` attempts, each after a failed one. Success returns the first successful attempt, having slept the backoff after each earlier failure. Failure means every attempt failed: it returns the last error (or the generic one when no attempt ran), with a sleep after every attempt but the last |
| Feed.FetchRssFeed | server/lib/rss.js:83-126 | a list without names fails before any attempt; otherwise the retry loop's outcome at the built URL, with 4 retries by default |
| Feed.NormalizeItem | server/lib/rss.js:130-145 | an item yields a post exactly when a post id is extracted from the link and the guid (the guid field, else the id field, else ""). The title defaults to "", the body is contentSnippet, then content, then summary, then "", and the subreddit and date come from the extractors |
| Feed.NormalizeItemsSpec | server/lib/rss.js:128-146 | the posts are, in order, those of the kept items |
| Feed.KeptIndicesExact | server/lib/rss.js:145 | an item is kept exactly when it has a post id |
| Feed.KeptIndicesIncreasing | server/lib/rss.js:131-145 | the kept items keep their feed order |
| RedditLinks.LeftmostSpec | server/lib/rss.js:42-47 | `match` finds a match exactly when one exists, and returns the leftmost one |
| RedditLinks.CommentsAtIff | server/lib/rss.js:42 | the matcher at a position captures exactly an id such that `/comments/` + a non-empty alnum id + `/` occurs there |
| RedditLinks.ShortLinkAtIff | server/lib/rss.js:47 | the matcher captures exactly an id such that `redd.it/` + a non-empty alnum id + an optional `/` ends the string there |
| RedditLinks.ThingAtIff | server/lib/rss.js:56 | the matcher captures exactly an id such that a word boundary + `t3_` + a non-empty alnum id + a word boundary occurs there |
| RedditLinks.SubredditAtIff | server/lib/rss.js:79 | the matcher captures exactly a name such that `/r/` + a non-empty name without `/` + `/comments/` occurs there |
| RedditLinks.ExtractPostIdFromUrlSpec | server/lib/rss.js:37-53 | a falsy URL gives null. Otherwise the result is the id of the leftmost comments link; failing that, the id of a trailing short link; else null |
| RedditLinks.ExtractPostIdSpec | server/lib/rss.js:55-72 | the id comes from the leftmost `t3_` token of the guid; failing that, from a URL pattern in the guid; failing that, from a URL pattern in the link; else null |
| RedditLinks.ExtractedIdIsAlnum | server/lib/rss.js:55-72 | every extracted id is a non-empty run of ASCII letters and digits |
| RedditLinks.ExtractSubredditSpec | server/lib/rss.js:74-81 | a falsy link gives null. Otherwise the result is the name of the leftmost `/r/<name>/comments/`, else null |
| RedditLinks.UnixSecondsFromDateString | server/lib/rss.js:24-35 | null for a falsy value or a non-finite parse; otherwise the floor of the milliseconds divided by 1000 |
| Progress.PercentFrom | server/lib/reanalyze-progress.js:16-26 | always within [0, 100]: 100 when done, else 0 when the total is 0 |
| Progress.RoundPercentNearest | server/lib/reanalyze-progress.js:25 | the rounded percent is the integer nearest to 100·processed/total, halves rounding up |
| Progress.RoundPercentZero | server/lib/reanalyze-progress.js:25 | no work done is 0 percent |
| Progress.PercentInRange | server/lib/reanalyze-progress.js:16-26 | for 0 ≤ processed ≤ total the clamp never applies and the percent grows with processed, from 0 to 100 |
| Progress.ProgressTracker.constructor | server/lib/reanalyze-progress.js:1-14 | the initial state: idle, inactive, zeros, empty message, no error, no times, no stats |
| Progress.ProgressTracker.Start | server/lib/reanalyze-progress.js:28-38 | running and active, the new total, processed and percent 0, no error, started now, not finished. Stats from an earlier run are kept |
| Progress.ProgressTracker.Update | server/lib/reanalyze-progress.js:40-44 | processed is clamped into [0, total], the percent is recomputed and the message replaced. Status, total, error, times and stats are unchanged |
| Progress.ProgressTracker.Complete | server/lib/reanalyze-progress.js:46-55 | done and inactive, processed = total, percent 100, no error, finished now, the given stats stored |
| Progress.ProgressTracker.Fail | server/lib/reanalyze-progress.js:57-64 | failed and inactive, processed unchanged, the percent recomputed, the error's message (or the default text) stored, finished now |
| Progress.ProgressTracker.Get | server/lib/reanalyze-progress.js:66-70 | a value copy of every field, which later updates cannot alter |
| SettingsApi.NormalizeStringArray | server/api/settings/index.post.js:6-29 | a non-array gives []. Otherwise the loop computes the case-insensitive keep-first deduplication of the trimmed items |
| SettingsApi.NormalizedListShape | server/api/settings/index.post.js:11-28 | the result is trimmed, non-blank items of the input in input order, pairwise distinct ignoring case. Every first occurrence of a key is kept with its own casing |
| SettingsApi.TrimmedItems | server/api/settings/index.post.js:14 | item by item, the trimmed form of each input |
| SettingsApi.SaveSettings | server/api/settings/index.post.js:31-59 | an empty normalised subreddit list is rejected with 400 before the patterns are checked, and an empty pattern list with 400; either way nothing is saved. When both normalised lists are non-empty the save succeeds: the settings row holds the two lists, and the cron flag and threshold return to their defaults (true, 0.15). The answer is the settings read back |
| Distinct.KeepFirstDistinct | server/api/settings/index.post.js:19-25 | no two kept entries are equal ignoring case |
| Distinct.KeepFirstFromInput | server/api/settings/index.post.js:15-26 | every kept entry is a non-empty entry of the input |
| Distinct.KeepFirstKeys | server/api/settings/index.post.js:19-24 | the lower-cased kept entries are exactly the lower-cased non-empty entries |
| Distinct.KeepFirstSubsequence | server/api/settings/index.post.js:13-26 | the kept entries keep their input order |
| Distinct.FirstOccurrenceKept | server/api/settings/index.post.js:19-25 | the first entry of each case-insensitive class is kept, with its own casing |
| Text.Trim | server/lib/rss.js:14 | the result has no trim-space character at either end |
| Text.TrimSlice | server/lib/rss.js:14 | the trim is a slice of the input, and everything cut off on either side is trim-space |
| Text.TrimIdempotent | server/lib/rss.js:14 | trimming twice is trimming once |
| Text.SplitJoin | server/lib/rss.js:21 | splitting a "+"-join of names without "+" gives the names back |
| Text.ContainsIff | src/keywords.js:14 | `includes` holds exactly when the needle occurs at some position |
| JsValues.OrDefault | server/lib/rss.js:133 | a string field or a default: the value when it is a non-empty string, else the default |
| JsValues.Or | server/lib/rss.js:134 | the `or` of two string fields is truthy exactly when one of them is |
| LegacyRss.NormalizeItemAgrees | src/rss.js:66-95 | an item yields a legacy post exactly when it yields an engine post, the two agree on every shared field, and `raw` is the item itself. The `or null` fallback never changes the subreddit |
| LegacyRss.NormalizeItemsAgree | src/rss.js:66-95 | the legacy posts, without `raw`, are the engine's posts for the same feed, in the same order |
| LegacyRss.RawItemsKept | src/rss.js:91-94 | the items are kept in order, exactly those with a post id, each carrying its own item as `raw` |
| LegacyKeywords.FirstMatchSpec | src/keywords.js:11-17 | the search answers with the first keyword, in list order, that occurs, and with none exactly when no keyword occurs |
| LegacyKeywords.FindKeywordMatchSpec | src/keywords.js:11-17 | null exactly when no keyword occurs in the lower-cased title + "\n" + body (missing fields read as ""); otherwise a member of the keyword list that occurs |
| LegacyKeywords.MatchInsideWord | src/keywords.js:12-14 | no word boundary is required: "replay" is found in the title "Replays" |
| LegacyDb.Inserted | src/db.js:33-39 | `INSERT OR IGNORE`: an existing row, first_seen_at included, is unchanged. A new one is added with alerted_at and last_error null |
| LegacyDb.MarkedAlerted | src/db.js:45-47 | sets alerted_at and clears last_error on that row only, and no-ops for an unknown id. With a non-zero time, the alerted rows are the old ones plus that row |
| LegacyDb.MarkedError | src/db.js:49-51 | sets last_error on that row only; alerted_at, first_seen_at and which rows count as alerted are unchanged |
| LegacyDb.Purged | src/db.js:53-55 | keeps exactly the rows first seen at or after the cutoff, unchanged |
| LegacyDb.PurgeIdempotent | src/db.js:71-74 | purging twice with one cutoff is purging once |
| LegacyDb.LongerRetentionKeepsMore | src/db.js:71-74 | a longer retention keeps every row a shorter one keeps |
| LegacyDb.FreshRowSurvives | src/db.js:71-74 | a row first seen now survives a purge now with a non-negative retention |
| LegacyDb.AlertStore.constructor | src/db.js:16-31 | an empty table |
| LegacyDb.AlertStore.InsertIfNew | src/db.js:57-61 | the table becomes the insert-or-ignore of the row. The answer is true exactly when the stored row has a truthy alerted_at, so a new row is never already alerted |
| LegacyDb.AlertStore.SetAlerted | src/db.js:63-65 | the table becomes the marked-alerted table |
| LegacyDb.AlertStore.SetLastError | src/db.js:67-69 | the table becomes the marked-error table |
| LegacyDb.AlertStore.PurgeRetention | src/db.js:71-74 | the table becomes the purge at `now − days·86400` |
| LegacyConfig.AssertValidProfileIds | src/config.js:37-45 | the loop throws exactly the message of the specification: the first blank or repeated trimmed id |
| LegacyConfig.IdsErrorSpec | src/config.js:37-45 | ids are accepted exactly when every trimmed id is non-blank and no two are equal |
| LegacyConfig.IdsErrorExtends | src/config.js:37-45 | once a prefix is rejected, the whole list is rejected with the same message |
| LegacyConfig.TrimmedSetSpec | src/config.js:38-43 | the seen set holds exactly the trimmed ids |
| LegacyConfig.AssertNoOverlappingSubreddits | src/config.js:18-35 | the nested loops throw exactly the message of the specification: the first pair whose key was last seen under a different profile id |
| LegacyConfig.CheckProfilePairs | src/config.js:21-33 | the inner loop over one profile's subreddits: its error and its seen map are those of the specification after that profile's pairs |
| LegacyConfig.PairStep | src/config.js:22-32 | one subreddit of a profile: a clash throws the whole validator's message; otherwise the pairs so far still pass and the seen map gains the key, unless it is blank |
| LegacyConfig.OverlapErrorSpec | src/config.js:18-35 | with non-empty profile ids, the validator accepts exactly when every two pairs with the same non-blank key name the same profile, so repeats within a profile and blank names never clash |
| LegacyConfig.LatestMapLast | src/config.js:26-32 | the seen map holds a non-blank key exactly when some pair has it, mapped to the id of the last such pair; blank keys are never stored |
| LegacyConfig.AgreeStep | src/config.js:26-31 | one more pair keeps all pairs in agreement exactly when it does not clash |
| LegacyConfig.OverlapErrorAppend | src/config.js:27-30 | pairs after a rejected sequence do not change the message |
| LegacyConfig.Profiles | src/config.js:60-74 | one profile per task, in order, each built from its task and index |
| LegacyConfig.ProfileIdTrimmed | src/config.js:65 | a profile id (the trimmed task ID, or `task<idx+1>` when blank) is never blank and is already trimmed |
| LegacyConfig.ProfileIdsChecked | src/config.js:60-80 | on loadConfig's profiles the id validator never reports a blank id, and accepts exactly when the ids are pairwise distinct |
| LegacyConfig.ProfilesAgree | src/config.js:81 | profiles that the overlap validator accepts never share a non-blank subreddit key between two ids |
| LegacyConfig.LoadConfig | src/config.js:47-92 | the method's outcome is the configuration function's outcome, checking the webhook, the task list, then the ids, then the overlaps, in that order |
| LegacyConfig.LoadedFailures | src/config.js:55-81 | loadConfig fails only for a blank webhook (checked before any profile is built, with the missing-variable message), no tasks (with its message), a duplicate profile id or an overlap; it never reports a blank id, since every profile id has a fallback |
| LegacyConfig.LoadedSuccess | src/config.js:83-91 | a loaded configuration has the trimmed, non-empty webhook, the default port, poll interval, retention, path and user agent, and at least one profile. Its profile ids are pairwise distinct and its profiles do not overlap |
| LegacyConfig.BuildFeedUrlAgrees | src/config.js:14-16 | on trimmed, non-blank names the legacy URL is the engine's URL |
| LegacyConfig.BuildFeedUrlRoundTrip | src/config.js:14-16 | names without "+" are recovered from a profile's feed URL |
| LegacyConfig.LoadConfigAsWrittenFails | src/config.js:63 | as written, loadConfig never returns a configuration. With a webhook and a task it fails with the TypeError of calling the undefined `normalizeKeywords` |
| LegacyConfig.OneTaskIdsAccepted | src/config.js:37-45 | for the one-task list of the finding, the id validator accepts the profiles |
| LegacyConfig.OneTaskOverlapAccepted | src/config.js:18-35 | for the one-task list of the finding, the overlap validator accepts the profiles |
| LegacyPoller.PollOnce | index.js:15-65 | the loop's table and webhook calls are those of the specification over the posts, then the purge at `now − retentionDays·86400` |
| LegacyPoller.StepNoKeyword | index.js:25-26 | a post without a keyword is neither stored nor alerted |
| LegacyPoller.StepNewRow | index.js:28-39 | a matching post's new row is first seen now, carries the matched keyword, title and link, and stores "unknown" for a missing subreddit |
| LegacyPoller.StepSend | index.js:39-61 | a matching, unalerted post gets exactly one webhook call. Success marks it alerted now with no error; failure records the message and leaves it unalerted, so the next poll retries |
| LegacyPoller.AlertedUntouched | index.js:39-40 | a row already alerted before the poll is left exactly as it was, and the webhook is never called for it |
| LegacyPoller.RunGrows | index.js:24-62 | the loop only adds rows and webhook calls, never removes them |
| LegacyPoller.OnlyMatchesStored | index.js:25-39 | an id not stored before the poll is stored afterwards only when some post with that id matched a keyword |
| LegacyPoller.NewRowsSeenNow | index.js:35 | every row the poll adds was first seen now |
| LegacyPoller.NewRowsSurvivePurge | index.js:64 | with a non-negative retention, the end-of-poll purge keeps every row the poll added |

## Left out

- Text.Lower: `toLowerCase` is modelled on ASCII letters only, so Unicode case mapping is not captured. The same holds for the `i` flag of the regular expressions.
- Progress.RoundPercentNearest: `Math.round(processed / total * 100)` is modelled exactly over the integers, as the nearest integer with halves rounding up. Floating-point error at exact halves is not modelled.
- Progress.ProgressTracker.Start: takes a numeric total. `Number(total) || 0` on a non-numeric value is not modelled; its only caller passes an array length.
- Feed.RetryFetch: the 15-second timeout and the abort controller are folded into the outcome of each attempt, the `fetchAttempt` oracle, which also stands for the HTTP status check and the XML parsing. Sleeping is recorded as the list of durations, not performed.
- Heuristics.PassesIff: the regular expression is modelled as what it matches (escaped literal alternatives between `\b` anchors); general regular-expression parsing is not modelled.
- Store.Database.UpsertIngestSettings: the `ingest_settings` DDL in `server/lib/schema.js` has no `cluster_distance_threshold` column, although the SQL reads and writes one. The model treats the settings row as an abstract record holding it, as the helpers assume. JSON encoding of the lists is an identity.
- Store.Database.InsertVector: the sqlite-vec error texts are the model's own; only the conditions under which the extension refuses a row are modelled.
- Clustering.CreateClusterFromPost: the "Failed to resolve cluster rowid" branch cannot be reached, because the row inserted just before it always has a positive rowid. The model has no such failure.
- Store.Database.PruneOrphanClusters: the vector rows of pruned clusters are kept, as in the source. The model does not require every cluster to have a vector.
- Engine.RunIngestion: the vector search is an oracle over the current vector table (`knn`). Distances are reals, and the vector arithmetic of sqlite-vec is not modelled. The Discord notification is an oracle whose outcome is sent, not sent, or thrown. The AI answers are oracles with no constraint on their content, so the non-empty summary and the embedding length that `server/lib/ai.js` produces are not assumed: a wrong-sized embedding makes cluster creation fail.
- Engine.RunIngestion / Engine.RerunAnalysis: each run is modelled as atomic. Nothing else touches the store or the progress record while a run waits on the AI, the embedding or the notification. In the source, the scheduled ingest, a second run, the settings route or the post-delete route can change the store at those awaits. For example, a rerun's `resetOpportunityData` between an ingestion's dedupe check and its attach makes the attach fail on the foreign key. Those interleavings are not modelled.
- Engine.RunIngestion: console logging, the subreddit lists it prints, and `sqliteVecReady` (a boolean parameter) are left out. UUIDs come from the `newId` parameter and the clock from `now`.
- SettingsApi.NormalizeStringArray and Heuristics.NormalizeTerms: `String(item || "")` of non-string array items is not modelled; items are strings.
- LegacyPoller.PollOnce: takes the posts already fetched and normalised. `index.js` passes `config.feedUrl` to the fetch, but loadConfig produces only per-profile feed URLs, so that value is undefined. The fetch (`src/rss.js` fetchRssFeed) is left out together with it.
- LegacyPoller.PollOnce: the webhook (`src/discord.js`) is an oracle answering success or the error's message; `String(err)` of a non-Error throw is folded into that message.
- LegacyConfig.LoadConfig: `path.resolve` of the SQLite path is the identity. The task list (`src/tasks.js`) and keyword normalisation are parameters.
- `listOpportunities`, `getOpportunityById` and `getPostsByClusterId` (read-side queries with Float32 vector decoding and sorting), `getUserByEmail` and `createUser` are not part of this model.
- The database bootstrap (`server/lib/sqlite.js`, `server/lib/schema.js`, the `initDb` set-up in `src/db.js`) is not part of this model. So are authentication, the HTTP routes other than the settings save, the scheduled ingest task, and `startPolling` and `main` in `index.js`. These are plumbing, timers and framework glue.

## Findings

| source | as written | input that shows it | evidently intended | confidence | as-written member | corrected member |
|---|---|---|---|---|---|---|
| src/config.js:63 | loadConfig calls `normalizeKeywords`, imported at line 12 from `src/keywords.js`. That module exports only `KEYWORDS` and `findKeywordMatch` (src/keywords.js:19), so the import is undefined and the call throws a TypeError for the first task. loadConfig can never return a configuration | a non-blank DISCORD_WEBHOOK_URL and one task with ID "a" and SUBREDDITS ["r"] (`OneTask`); both validators accept its profile | each task's keywords normalised by a function that exists, after which the validators decide | not executed | LegacyConfig.LoadConfigAsWrittenFails | LegacyConfig.LoadConfig |
