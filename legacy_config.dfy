/** src/config.js: building the legacy alerter's configuration from the environment
    and the task list, with the two validators it runs over the profiles. The task
    list (src/tasks.js) is a parameter; keyword normalisation is a parameter too,
    because the function the source imports for it does not exist (see
    LoadConfigAsWritten). */
module LegacyConfig {
  import opened Wrappers
  import opened Text
  import opened JsValues
  import Feed

  /** src/constants.js. */
  const DefaultPollIntervalSeconds: int := 300
  const DefaultRetentionDays: int := 60
  const DefaultPort: int := 4009
  const DefaultSqlitePath: string := "./data/reddit-monitor.sqlite"
  const DefaultUserAgent: string := "reddit-monitor/1.0 (internal)"

  const MissingWebhookMessage: string := "Missing required env var: DISCORD_WEBHOOK_URL"
  const NoTasksMessage: string := "No TASKS configured. Add entries to src/tasks.js"
  const EmptyIdMessage: string := "Each task must have a non-empty ID"
  /** The TypeError of calling an undefined import. */
  const NotAFunctionMessage: string := "normalizeKeywords is not a function"

  function DuplicateIdMessage(id: string): string {
    "Duplicate task ID: " + id
  }

  function OverlapMessage(subreddit: string, prev: string, id: string): string {
    "Profiles must not overlap subreddits. Duplicate: r/" + (subreddit + " in " + prev + " and " + id)
  }

  /** One entry of TASKS; absent fields are `None` / `Undefined`. */
  datatype Task = Task(id: Option<string>, name: Option<string>, subreddits: ListArg, keywords: ListArg)

  datatype Profile = Profile(id: string, name: Option<string>, subreddits: seq<string>, keywords: seq<string>, feedUrl: string)

  datatype Config = Config(
    port: int, pollIntervalSeconds: int, retentionDays: int, sqlitePath: string, userAgent: string,
    discordWebhookUrl: string, profiles: seq<Profile>)

  /** A validator's outcome as a Result: a message means it threw. */
  function ResultOf(e: Option<string>): (r: Result<(), string>)
    ensures r.Success? <==> e.None?
  {
    if e.None? then Success(()) else Failure(e.value)
  }

  // ---------------------------------------------------------------- buildFeedUrl

  /** buildFeedUrl: the names joined with "+", with no cleaning and no check. */
  function BuildFeedUrl(subreddits: seq<string>): string {
    Feed.RedditFeedPrefix + Join(subreddits, "+") + Feed.RedditFeedSuffix
  }

  /** Trimming and dropping blanks leaves an already clean list as it is. */
  lemma {:induction false} CleanNamesOfClean(items: seq<string>)
    requires forall k | 0 <= k < |items| :: items[k] != "" && Trim(items[k]) == items[k]
    ensures Feed.CleanNames(items) == items
    decreases |items|
  {
    if items != [] {
      CleanNamesOfClean(items[1..]);
    }
  }

  /** On a non-empty list of trimmed, non-blank names the legacy URL is the one the
      engine's buildFeedUrl builds; the engine's version differs only by its cleaning
      and its check for an empty list. */
  lemma BuildFeedUrlAgrees(subreddits: seq<string>)
    requires subreddits != []
    requires forall k | 0 <= k < |subreddits| :: subreddits[k] != "" && Trim(subreddits[k]) == subreddits[k]
    ensures Feed.BuildFeedUrl(List(subreddits)) == Success(BuildFeedUrl(subreddits))
  {
    CleanNamesOfClean(subreddits);
  }

  /** Without a `+` in any name, the names are recovered from the URL. */
  lemma BuildFeedUrlRoundTrip(subreddits: seq<string>)
    requires subreddits != []
    requires forall k | 0 <= k < |subreddits| :: '+' !in subreddits[k]
    ensures var url := BuildFeedUrl(subreddits);
      && |Feed.RedditFeedPrefix| + |Feed.RedditFeedSuffix| <= |url|
      && Split(url[|Feed.RedditFeedPrefix|..|url| - |Feed.RedditFeedSuffix|], '+') == subreddits
  {
    var middle := Join(subreddits, "+");
    var url := BuildFeedUrl(subreddits);
    assert url[|Feed.RedditFeedPrefix|..|url| - |Feed.RedditFeedSuffix|] == middle;
    SplitJoin(subreddits, '+');
  }

  // ---------------------------------------------------------- assertValidProfileIds

  function Ids(profiles: seq<Profile>): (r: seq<string>)
    ensures |r| == |profiles| && forall i | 0 <= i < |profiles| :: r[i] == profiles[i].id
  {
    seq(|profiles|, i requires 0 <= i < |profiles| => profiles[i].id)
  }

  /** The `seen` set of assertValidProfileIds after the given ids. */
  function TrimmedSet(ids: seq<string>): set<string>
    decreases |ids|
  {
    if ids == [] then {} else TrimmedSet(ids[..|ids| - 1]) + {Trim(ids[|ids| - 1])}
  }

  /** The seen set holds exactly the trimmed ids. */
  lemma TrimmedSetSpec(ids: seq<string>)
    ensures forall k | 0 <= k < |ids| :: Trim(ids[k]) in TrimmedSet(ids)
    ensures forall x | x in TrimmedSet(ids) :: exists k | 0 <= k < |ids| :: Trim(ids[k]) == x
  {
    forall k | 0 <= k < |ids| ensures Trim(ids[k]) in TrimmedSet(ids) {
      TrimmedSetHas(ids, k);
    }
    forall x | x in TrimmedSet(ids) ensures exists k | 0 <= k < |ids| :: Trim(ids[k]) == x {
      var k := TrimmedSetWitness(ids, x);
    }
  }

  lemma {:induction false} TrimmedSetHas(ids: seq<string>, k: nat)
    requires k < |ids|
    ensures Trim(ids[k]) in TrimmedSet(ids)
    decreases |ids|
  {
    if k < |ids| - 1 {
      var prefix := ids[..|ids| - 1];
      TrimmedSetHas(prefix, k);
      assert prefix[k] == ids[k];
    }
  }

  lemma {:induction false} TrimmedSetWitness(ids: seq<string>, x: string) returns (k: nat)
    requires x in TrimmedSet(ids)
    ensures k < |ids| && Trim(ids[k]) == x
    decreases |ids|
  {
    var prefix := ids[..|ids| - 1];
    var last := Trim(ids[|ids| - 1]);
    assert TrimmedSet(ids) == TrimmedSet(prefix) + {last};
    if x == last {
      k := |ids| - 1;
    } else {
      assert x in TrimmedSet(prefix);
      k := TrimmedSetWitness(prefix, x);
      assert prefix[k] == ids[k];
    }
  }

  /** The message assertValidProfileIds throws, if any: the first id that is blank
      after trimming or equal to an earlier trimmed id decides it. */
  function IdsError(ids: seq<string>): Option<string>
    decreases |ids|
  {
    if ids == [] then None
    else
      var prefix := ids[..|ids| - 1];
      match IdsError(prefix)
      case Some(e) => Some(e)
      case None =>
        var id := Trim(ids[|ids| - 1]);
        if id == "" then Some(EmptyIdMessage)
        else if id in TrimmedSet(prefix) then Some(DuplicateIdMessage(id))
        else None
  }

  /** Every trimmed id is non-blank and no two are equal. */
  predicate IdsValid(ids: seq<string>) {
    && (forall i | 0 <= i < |ids| :: Trim(ids[i]) != "")
    && (forall i, j | 0 <= i < j < |ids| :: Trim(ids[i]) != Trim(ids[j]))
  }

  /** A list of ids is valid exactly when all but its last are, and the last is
      non-blank and not among the earlier trimmed ids. */
  lemma IdsValidStep(ids: seq<string>)
    requires ids != []
    ensures var prefix, id := ids[..|ids| - 1], Trim(ids[|ids| - 1]);
      IdsValid(ids) <==> IdsValid(prefix) && id != "" && id !in TrimmedSet(prefix)
  {
    var prefix, id := ids[..|ids| - 1], Trim(ids[|ids| - 1]);
    if IdsValid(ids) {
      IdsValidShrinks(ids);
    }
    if IdsValid(prefix) && id != "" && id !in TrimmedSet(prefix) {
      IdsValidGrows(ids);
    }
  }

  lemma IdsValidShrinks(ids: seq<string>)
    requires ids != [] && IdsValid(ids)
    ensures var prefix, id := ids[..|ids| - 1], Trim(ids[|ids| - 1]);
      IdsValid(prefix) && id != "" && id !in TrimmedSet(prefix)
  {
    var prefix, last := ids[..|ids| - 1], |ids| - 1;
    forall i | 0 <= i < |prefix| ensures Trim(prefix[i]) != "" {
      assert prefix[i] == ids[i];
    }
    forall i, j | 0 <= i < j < |prefix| ensures Trim(prefix[i]) != Trim(prefix[j]) {
      assert prefix[i] == ids[i] && prefix[j] == ids[j];
    }
    forall i | 0 <= i < |prefix| ensures Trim(prefix[i]) != Trim(ids[last]) {
      assert prefix[i] == ids[i];
    }
    TrimmedSetAbsent(prefix, Trim(ids[last]));
  }

  /** A trimmed value no element has is not in the trimmed set. */
  lemma TrimmedSetAbsent(ids: seq<string>, x: string)
    requires forall k | 0 <= k < |ids| :: Trim(ids[k]) != x
    ensures x !in TrimmedSet(ids)
  {
    if x in TrimmedSet(ids) {
      var k := TrimmedSetWitness(ids, x);
    }
  }

  lemma IdsValidGrows(ids: seq<string>)
    requires ids != []
    requires var prefix, id := ids[..|ids| - 1], Trim(ids[|ids| - 1]);
      IdsValid(prefix) && id != "" && id !in TrimmedSet(prefix)
    ensures IdsValid(ids)
  {
    var prefix, last := ids[..|ids| - 1], |ids| - 1;
    forall i | 0 <= i < |ids| ensures Trim(ids[i]) != "" {
      if i < last {
        assert prefix[i] == ids[i];
      }
    }
    forall i, j | 0 <= i < j < |ids| ensures Trim(ids[i]) != Trim(ids[j]) {
      IdsDistinctPair(ids, i, j);
    }
  }

  lemma IdsDistinctPair(ids: seq<string>, i: nat, j: nat)
    requires i < j < |ids|
    requires var prefix, id := ids[..|ids| - 1], Trim(ids[|ids| - 1]);
      IdsValid(prefix) && id !in TrimmedSet(prefix)
    ensures Trim(ids[i]) != Trim(ids[j])
  {
    var prefix := ids[..|ids| - 1];
    assert prefix[i] == ids[i];
    if j == |ids| - 1 {
      TrimmedSetHas(prefix, i);
    } else {
      assert prefix[j] == ids[j];
    }
  }

  /** Ids are accepted exactly when every trimmed id is non-blank and no two are equal. */
  lemma {:induction false} IdsErrorSpec(ids: seq<string>)
    ensures IdsError(ids).None? <==> IdsValid(ids)
    decreases |ids|
  {
    if ids != [] {
      IdsErrorSpec(ids[..|ids| - 1]);
      IdsValidStep(ids);
    }
  }

  /** Once a prefix is rejected, so is the whole list, with the same message. */
  lemma {:induction false} IdsErrorExtends(ids: seq<string>, n: nat)
    requires n <= |ids| && IdsError(ids[..n]).Some?
    ensures IdsError(ids) == IdsError(ids[..n])
    decreases |ids| - n
  {
    if n < |ids| {
      var prefix := ids[..|ids| - 1];
      assert prefix[..n] == ids[..n];
      IdsErrorExtends(prefix, n);
    } else {
      assert ids[..n] == ids;
    }
  }

  /** One more id, after an accepted prefix. */
  lemma IdsStep(ids: seq<string>, i: nat)
    requires i < |ids| && IdsError(ids[..i]).None?
    ensures var id := Trim(ids[i]);
      IdsError(ids[..i + 1]) ==
        if id == "" then Some(EmptyIdMessage)
        else if id in TrimmedSet(ids[..i]) then Some(DuplicateIdMessage(id))
        else None
    ensures TrimmedSet(ids[..i + 1]) == TrimmedSet(ids[..i]) + {Trim(ids[i])}
  {
    var next := ids[..i + 1];
    assert next[..i] == ids[..i];
  }

  /** assertValidProfileIds: the loop with its set of seen ids. */
  method AssertValidProfileIds(profiles: seq<Profile>) returns (r: Result<(), string>)
    ensures r == ResultOf(IdsError(Ids(profiles)))
  {
    ghost var ids := Ids(profiles);
    var seen: set<string> := {};
    var i := 0;
    while i < |profiles|
      invariant 0 <= i <= |profiles|
      invariant IdsError(ids[..i]).None?
      invariant seen == TrimmedSet(ids[..i])
    {
      var id := Trim(profiles[i].id);
      IdsStep(ids, i);
      if id == "" {
        IdsErrorExtends(ids, i + 1);
        return Failure(EmptyIdMessage);
      }
      if id in seen {
        IdsErrorExtends(ids, i + 1);
        return Failure(DuplicateIdMessage(id));
      }
      seen := seen + {id};
      i := i + 1;
    }
    assert ids[..i] == ids;
    r := Success(());
  }

  // --------------------------------------------------- assertNoOverlappingSubreddits

  /** One (profile id, subreddit as written) pair, in loop order, with the subreddit's
      key. */
  datatype Entry = Entry(id: string, subreddit: string, key: string)

  /** `String(subreddit || "").trim().toLowerCase()`. */
  function Key(subreddit: string): string {
    Lower(Trim(subreddit))
  }

  function Pairs(p: Profile): (r: seq<Entry>)
    ensures |r| == |p.subreddits| && forall j | 0 <= j < |r| :: r[j] == Entry(p.id, p.subreddits[j], Key(p.subreddits[j]))
  {
    seq(|p.subreddits|, j requires 0 <= j < |p.subreddits| => Entry(p.id, p.subreddits[j], Key(p.subreddits[j])))
  }

  /** The pairs the two nested loops visit, in order. */
  function Entries(profiles: seq<Profile>): seq<Entry>
    decreases |profiles|
  {
    if profiles == [] then []
    else Entries(profiles[..|profiles| - 1]) + Pairs(profiles[|profiles| - 1])
  }

  /** The `seen` map after the given pairs: each non-blank key to the id of its last
      pair. */
  function LatestMap(es: seq<Entry>): map<string, string>
    decreases |es|
  {
    if es == [] then map[]
    else
      var m := LatestMap(es[..|es| - 1]);
      var key := es[|es| - 1].key;
      if key == "" then m else m[key := es[|es| - 1].id]
  }

  /** `prev && prev !== profile.id` for the pair `e` after the pairs `done`. */
  predicate Clashes(done: seq<Entry>, e: Entry) {
    var key := e.key;
    var m := LatestMap(done);
    key != "" && key in m && m[key] != "" && m[key] != e.id
  }

  /** The message assertNoOverlappingSubreddits throws, if any: the first clashing pair
      decides it. */
  function OverlapError(es: seq<Entry>): Option<string>
    decreases |es|
  {
    if es == [] then None
    else
      var done := es[..|es| - 1];
      var e := es[|es| - 1];
      match OverlapError(done)
      case Some(msg) => Some(msg)
      case None =>
        if Clashes(done, e) then Some(OverlapMessage(e.subreddit, LatestMap(done)[e.key], e.id))
        else None
  }

  lemma {:induction false} OverlapErrorExtends(es: seq<Entry>, n: nat)
    requires n <= |es| && OverlapError(es[..n]).Some?
    ensures OverlapError(es) == OverlapError(es[..n])
    decreases |es| - n
  {
    if n < |es| {
      var done := es[..|es| - 1];
      assert done[..n] == es[..n];
      OverlapErrorExtends(done, n);
    } else {
      assert es[..n] == es;
    }
  }

  /** Pairs after a rejected sequence do not change the message. */
  lemma OverlapErrorAppend(a: seq<Entry>, b: seq<Entry>)
    requires OverlapError(a).Some?
    ensures OverlapError(a + b) == OverlapError(a)
  {
    assert (a + b)[..|a|] == a;
    OverlapErrorExtends(a + b, |a|);
  }

  /** The pairs of the first `k` profiles come first among all pairs. */
  lemma {:induction false} EntriesPrefix(profiles: seq<Profile>, k: nat)
    requires k <= |profiles|
    ensures Entries(profiles[..k]) <= Entries(profiles)
    decreases |profiles|
  {
    if k < |profiles| {
      var init := profiles[..|profiles| - 1];
      assert init[..k] == profiles[..k];
      EntriesPrefix(init, k);
    } else {
      assert profiles[..k] == profiles;
    }
  }

  /** The pairs of one more profile follow those of the ones before it. */
  lemma EntriesStep(profiles: seq<Profile>, i: nat)
    requires i < |profiles|
    ensures Entries(profiles[..i + 1]) == Entries(profiles[..i]) + Pairs(profiles[i])
    ensures Entries(profiles[..i + 1]) <= Entries(profiles)
  {
    assert profiles[..i + 1][..i] == profiles[..i];
    EntriesPrefix(profiles, i + 1);
  }

  /** The index of the last pair with the given key, or -1. */
  function LastWith(es: seq<Entry>, key: string): (r: int)
    ensures -1 <= r < |es|
    ensures r >= 0 ==> es[r].key == key
    ensures forall j | r < j < |es| :: es[j].key != key
    decreases |es|
  {
    if es == [] then -1
    else if es[|es| - 1].key == key then |es| - 1
    else LastWith(es[..|es| - 1], key)
  }

  /** The seen map holds a non-blank key exactly when some pair has it, mapped to the
      id of the last such pair; it never holds the blank key. */
  lemma {:induction false} LatestMapLast(es: seq<Entry>, key: string)
    ensures key == "" ==> key !in LatestMap(es)
    ensures key != "" ==> (key in LatestMap(es) <==> LastWith(es, key) >= 0)
    ensures key in LatestMap(es) ==> LatestMap(es)[key] == es[LastWith(es, key)].id
    decreases |es|
  {
    if es != [] {
      LatestMapLast(es[..|es| - 1], key);
    }
  }

  /** Two pairs with the same non-blank key always name the same profile id. */
  predicate Agree(es: seq<Entry>) {
    forall j, k | 0 <= j < k < |es| && es[j].key != "" && es[j].key == es[k].key ::
      es[j].id == es[k].id
  }

  /** One more pair keeps the pairs in agreement exactly when it does not clash. */
  lemma AgreeStep(done: seq<Entry>, e: Entry)
    requires forall k | 0 <= k < |done| :: done[k].id != ""
    requires Agree(done)
    ensures Agree(done + [e]) <==> !Clashes(done, e)
  {
    var es := done + [e];
    var key := e.key;
    LatestMapLast(done, key);
    var last := LastWith(done, key);
    assert forall j | 0 <= j < |done| :: es[j] == done[j];
    if Clashes(done, e) {
      assert es[last].key == es[|es| - 1].key && es[last].id != es[|es| - 1].id;
    } else {
      forall j, k | 0 <= j < k < |es| && es[j].key != "" && es[j].key == es[k].key
        ensures es[j].id == es[k].id
      {
        if k == |es| - 1 {
          assert done[j].id == done[last].id by {
            if j < last { assert done[j].key == done[last].key; }
          }
        }
      }
    }
  }

  /** With non-empty profile ids (which loadConfig guarantees), the validator throws
      exactly when one subreddit key appears under two different profile ids;
      repeats within one profile and blank names never throw. */
  lemma {:induction false} OverlapErrorSpec(es: seq<Entry>)
    requires forall k | 0 <= k < |es| :: es[k].id != ""
    ensures OverlapError(es).None? <==> Agree(es)
    decreases |es|
  {
    if es != [] {
      var done := es[..|es| - 1];
      var e := es[|es| - 1];
      assert es == done + [e];
      assert forall j | 0 <= j < |done| :: done[j] == es[j];
      OverlapErrorSpec(done);
      if Agree(done) {
        AgreeStep(done, e);
      } else {
        var j, k :| 0 <= j < k < |done| && done[j].key != "" && done[j].key == done[k].key
          && done[j].id != done[k].id;
        assert es[j] == done[j] && es[k] == done[k];
      }
    }
  }

  /** One more pair, after pairs that did not clash. */
  lemma OverlapStep(done: seq<Entry>, e: Entry)
    requires OverlapError(done).None?
    ensures OverlapError(done + [e]) ==
      if Clashes(done, e) then Some(OverlapMessage(e.subreddit, LatestMap(done)[e.key], e.id)) else None
    ensures LatestMap(done + [e]) == if e.key == "" then LatestMap(done) else LatestMap(done)[e.key := e.id]
  {
    assert (done + [e])[..|done|] == done;
  }

  /** A sequence followed by anything that starts all pairs is a prefix of them. */
  lemma PrefixOfEntries(next: seq<Entry>, rest: seq<Entry>, all: seq<Entry>)
    requires next + rest <= all
    ensures |next| <= |all| && next == all[..|next|]
  {
    assert (next + rest)[..|next|] == next;
  }

  /** Taking one more element of `b` after `a`. */
  lemma AppendTakeStep<T>(a: seq<T>, b: seq<T>, j: nat)
    requires j < |b|
    ensures a + b[..j + 1] == (a + b[..j]) + [b[j]]
    ensures (a + b)[..|a| + j + 1] == a + b[..j + 1]
  {
    assert b[..j + 1] == b[..j] + [b[j]];
  }

  /** One subreddit of a profile: what the pair `pairs[j]`, which is `(id, subreddit,
      key)`, does after the pairs `done + pairs[..j]`, which did not clash and left the
      map `seen`. */
  lemma PairStep(done: seq<Entry>, pairs: seq<Entry>, j: nat, seen: map<string, string>,
                 id: string, subreddit: string, key: string)
    requires j < |pairs| && pairs[j] == Entry(id, subreddit, key)
    requires OverlapError(done + pairs[..j]).None? && seen == LatestMap(done + pairs[..j])
    ensures key != "" && key in seen && seen[key] != "" && seen[key] != id ==>
      OverlapError(done + pairs) == Some(OverlapMessage(subreddit, seen[key], id))
    ensures key == "" ==>
      OverlapError(done + pairs[..j + 1]).None? && LatestMap(done + pairs[..j + 1]) == seen
    ensures key != "" && !(key in seen && seen[key] != "" && seen[key] != id) ==>
      OverlapError(done + pairs[..j + 1]).None? && LatestMap(done + pairs[..j + 1]) == seen[key := id]
  {
    var e := pairs[j];
    var prefix := done + pairs[..j];
    AppendTakeStep(done, pairs, j);
    OverlapStep(prefix, e);
    if Clashes(prefix, e) {
      OverlapErrorAppend(prefix + [e], pairs[j + 1..]);
      assert (prefix + [e]) + pairs[j + 1..] == done + pairs by {
        assert pairs == pairs[..j + 1] + pairs[j + 1..];
      }
    }
  }

  /** The inner loop of assertNoOverlappingSubreddits over one profile's subreddits,
      continuing from the pairs `done` and their `seen` map. */
  method CheckProfilePairs(profile: Profile, seen0: map<string, string>, ghost done: seq<Entry>)
    returns (err: Option<string>, seen: map<string, string>)
    requires OverlapError(done).None? && seen0 == LatestMap(done)
    ensures err == OverlapError(done + Pairs(profile))
    ensures err.None? ==> seen == LatestMap(done + Pairs(profile))
  {
    ghost var pairs := Pairs(profile);
    seen := seen0;
    assert done + pairs[..0] == done;
    var j := 0;
    while j < |profile.subreddits|
      invariant 0 <= j <= |profile.subreddits|
      invariant OverlapError(done + pairs[..j]).None?
      invariant seen == LatestMap(done + pairs[..j])
    {
      var subreddit := profile.subreddits[j];
      var key := Key(subreddit);
      PairStep(done, pairs, j, seen, profile.id, subreddit, key);
      if key != "" {
        if key in seen && seen[key] != "" && seen[key] != profile.id {
          return Some(OverlapMessage(subreddit, seen[key], profile.id)), seen;
        }
        seen := seen[key := profile.id];
      }
      j := j + 1;
    }
    assert pairs[..j] == pairs;
    err := None;
  }

  /** assertNoOverlappingSubreddits: the loops over profiles and their subreddits, with
      the map from key to the latest profile id. */
  method AssertNoOverlappingSubreddits(profiles: seq<Profile>) returns (r: Result<(), string>)
    ensures r == ResultOf(OverlapError(Entries(profiles)))
  {
    var seen: map<string, string> := map[];
    var i := 0;
    while i < |profiles|
      invariant 0 <= i <= |profiles|
      invariant OverlapError(Entries(profiles[..i])).None?
      invariant seen == LatestMap(Entries(profiles[..i]))
    {
      EntriesStep(profiles, i);
      var err;
      err, seen := CheckProfilePairs(profiles[i], seen, Entries(profiles[..i]));
      if err.Some? {
        ghost var upto := Entries(profiles[..i + 1]);
        PrefixOfEntries(upto, [], Entries(profiles));
        OverlapErrorExtends(Entries(profiles), |upto|);
        return Failure(err.value);
      }
      i := i + 1;
    }
    assert profiles[..i] == profiles;
    r := Success(());
  }

  // ------------------------------------------------------------------- loadConfig

  /** `String(task?.ID || "").trim() || \`task${idx + 1}\``. */
  function ProfileId(task: Task, idx: nat): string {
    var id := Trim(OrDefault(task.id, ""));
    if id != "" then id else "task" + NatToString(idx + 1)
  }

  /** `(task?.NAME || "").trim() || null`. */
  function ProfileName(task: Task): Option<string> {
    var name := Trim(OrDefault(task.name, ""));
    if name == "" then None else Some(name)
  }

  function ProfileFor(task: Task, idx: nat, normalizeKeywords: seq<string> -> seq<string>): Profile {
    var subreddits := ItemsOr(task.subreddits, []);
    Profile(ProfileId(task, idx), ProfileName(task), subreddits, normalizeKeywords(ItemsOr(task.keywords, [])),
            BuildFeedUrl(subreddits))
  }

  function Profiles(tasks: seq<Task>, normalizeKeywords: seq<string> -> seq<string>): (r: seq<Profile>)
    ensures |r| == |tasks| && forall i | 0 <= i < |tasks| :: r[i] == ProfileFor(tasks[i], i, normalizeKeywords)
  {
    seq(|tasks|, i requires 0 <= i < |tasks| => ProfileFor(tasks[i], i, normalizeKeywords))
  }

  /** A profile id is never blank and is already trimmed, so assertValidProfileIds can
      only report duplicates on loadConfig's profiles. */
  lemma ProfileIdTrimmed(task: Task, idx: nat)
    ensures ProfileId(task, idx) != "" && Trim(ProfileId(task, idx)) == ProfileId(task, idx)
  {
    var id := Trim(OrDefault(task.id, ""));
    if id != "" {
      TrimIdempotent(OrDefault(task.id, ""));
    } else {
      var digits := NatToString(idx + 1);
      var s := "task" + digits;
      assert !IsTrimSpace(s[0]);
      assert s[|s| - 1] == digits[|digits| - 1];
      TrimUnbordered(s);
    }
  }

  /** The environment value after `(x || "").trim()`. */
  function WebhookUrl(webhook: Option<string>): string {
    Trim(OrDefault(webhook, ""))
  }

  function ConfigFor(webhook: Option<string>, profiles: seq<Profile>): Config {
    Config(DefaultPort, DefaultPollIntervalSeconds, DefaultRetentionDays, DefaultSqlitePath, DefaultUserAgent,
           WebhookUrl(webhook), profiles)
  }

  /** loadConfig's outcome: the webhook, the profiles, the empty-list check, the id
      validator, then the overlap validator, the first failure winning. */
  function Loaded(webhook: Option<string>, tasks: seq<Task>, normalizeKeywords: seq<string> -> seq<string>)
    : Result<Config, string>
  {
    if WebhookUrl(webhook) == "" then Failure(MissingWebhookMessage)
    else if tasks == [] then Failure(NoTasksMessage)
    else
      var profiles := Profiles(tasks, normalizeKeywords);
      match IdsError(Ids(profiles))
      case Some(e) => Failure(e)
      case None =>
        match OverlapError(Entries(profiles))
        case Some(e) => Failure(e)
        case None => Success(ConfigFor(webhook, profiles))
  }

  /** loadConfig fails only for a blank webhook, no tasks, a duplicate profile id or an
      overlap; the blank-id message never surfaces, since every profile has an id. */
  lemma LoadedFailures(webhook: Option<string>, tasks: seq<Task>, normalizeKeywords: seq<string> -> seq<string>)
    ensures var r := Loaded(webhook, tasks, normalizeKeywords);
      && (WebhookUrl(webhook) == "" ==> r == Failure(MissingWebhookMessage))
      && (WebhookUrl(webhook) != "" && tasks == [] ==> r == Failure(NoTasksMessage))
      && r != Failure(EmptyIdMessage)
      && (r.Failure? ==>
        || WebhookUrl(webhook) == "" || tasks == []
        || IdsError(Ids(Profiles(tasks, normalizeKeywords))).Some?
        || OverlapError(Entries(Profiles(tasks, normalizeKeywords))).Some?)
  {
    var profiles := Profiles(tasks, normalizeKeywords);
    ProfileIdsChecked(tasks, normalizeKeywords);
    if IdsError(Ids(profiles)).None? && OverlapError(Entries(profiles)).Some? {
      OverlapMessageNotEmptyId(Entries(profiles));
    }
  }

  /** A loaded configuration has a webhook, at least one profile, pairwise distinct
      profile ids and no subreddit shared by two profiles. */
  lemma LoadedSuccess(webhook: Option<string>, tasks: seq<Task>, normalizeKeywords: seq<string> -> seq<string>)
    requires Loaded(webhook, tasks, normalizeKeywords).Success?
    ensures var c := Loaded(webhook, tasks, normalizeKeywords).value;
      && c == ConfigFor(webhook, Profiles(tasks, normalizeKeywords))
      && c.discordWebhookUrl != "" && c.profiles != []
      && (forall i, j | 0 <= i < j < |tasks| :: c.profiles[i].id != c.profiles[j].id)
      && Agree(Entries(c.profiles))
  {
    ProfileIdsChecked(tasks, normalizeKeywords);
    ProfilesAgree(tasks, normalizeKeywords);
  }

  /** loadConfig, in its order; each validator is the method modelling it. */
  method LoadConfig(webhook: Option<string>, tasks: seq<Task>, normalizeKeywords: seq<string> -> seq<string>)
    returns (r: Result<Config, string>)
    ensures r == Loaded(webhook, tasks, normalizeKeywords)
  {
    var url := Trim(OrDefault(webhook, ""));
    if url == "" {
      return Failure(MissingWebhookMessage);
    }
    var profiles := Profiles(tasks, normalizeKeywords);
    if |profiles| == 0 {
      return Failure(NoTasksMessage);
    }
    var idsOk := AssertValidProfileIds(profiles);
    if idsOk.Failure? {
      return Failure(idsOk.error);
    }
    var overlapOk := AssertNoOverlappingSubreddits(profiles);
    if overlapOk.Failure? {
      return Failure(overlapOk.error);
    }
    r := Success(ConfigFor(webhook, profiles));
  }

  /** On loadConfig's profiles the id validator never reports a blank id, and accepts
      exactly when the ids are pairwise distinct. */
  lemma ProfileIdsChecked(tasks: seq<Task>, normalizeKeywords: seq<string> -> seq<string>)
    ensures var ids := Ids(Profiles(tasks, normalizeKeywords));
      && IdsError(ids) != Some(EmptyIdMessage)
      && (IdsError(ids).None? <==> forall i, j | 0 <= i < j < |ids| :: ids[i] != ids[j])
  {
    var ids := Ids(Profiles(tasks, normalizeKeywords));
    forall i | 0 <= i < |ids| ensures ids[i] != "" && Trim(ids[i]) == ids[i] {
      ProfileIdTrimmed(tasks[i], i);
    }
    IdsErrorSpec(ids);
    if IdsError(ids).Some? {
      IdsFirstError(ids);
    }
  }

  /** loadConfig's profiles that the overlap validator accepts agree on every
      subreddit. */
  lemma ProfilesAgree(tasks: seq<Task>, normalizeKeywords: seq<string> -> seq<string>)
    requires OverlapError(Entries(Profiles(tasks, normalizeKeywords))).None?
    ensures Agree(Entries(Profiles(tasks, normalizeKeywords)))
  {
    var profiles := Profiles(tasks, normalizeKeywords);
    forall i | 0 <= i < |profiles| ensures profiles[i].id != "" {
      ProfileIdTrimmed(tasks[i], i);
    }
    EntriesIdsNonEmpty(profiles);
    OverlapErrorSpec(Entries(profiles));
  }

  /** With no blank id, the ids validator can only report a duplicate. */
  lemma {:induction false} IdsFirstError(ids: seq<string>)
    requires forall i | 0 <= i < |ids| :: Trim(ids[i]) != ""
    ensures IdsError(ids) != Some(EmptyIdMessage)
    decreases |ids|
  {
    if ids != [] {
      var prefix := ids[..|ids| - 1];
      assert forall i | 0 <= i < |prefix| :: prefix[i] == ids[i];
      IdsFirstError(prefix);
      assert DuplicateIdMessage(Trim(ids[|ids| - 1]))[0] == 'D';
    }
  }

  /** The overlap validator never throws the ids validator's message. */
  lemma {:induction false} OverlapMessageNotEmptyId(es: seq<Entry>)
    ensures OverlapError(es) != Some(EmptyIdMessage)
    decreases |es|
  {
    if es != [] {
      OverlapMessageNotEmptyId(es[..|es| - 1]);
      var e := es[|es| - 1];
      var done := es[..|es| - 1];
      if Clashes(done, e) {
        var msg := OverlapMessage(e.subreddit, LatestMap(done)[e.key], e.id);
        var head := "Profiles must not overlap subreddits. Duplicate: r/";
        assert |msg| >= |head| > |EmptyIdMessage|;
      }
    }
  }

  /** Every pair carries the id of its profile, so none is blank when no profile id is. */
  lemma {:induction false} EntriesIdsNonEmpty(profiles: seq<Profile>)
    requires forall i | 0 <= i < |profiles| :: profiles[i].id != ""
    ensures forall k | 0 <= k < |Entries(profiles)| :: Entries(profiles)[k].id != ""
    decreases |profiles|
  {
    if profiles != [] {
      var init := profiles[..|profiles| - 1];
      assert forall i | 0 <= i < |init| :: init[i] == profiles[i];
      EntriesIdsNonEmpty(init);
      var es := Entries(profiles);
      var n := |Entries(init)|;
      forall k | 0 <= k < |es| ensures es[k].id != "" {
        if k < n {
          assert es[k] == Entries(init)[k];
        } else {
          assert es[k] == Pairs(profiles[|profiles| - 1])[k - n];
        }
      }
    }
  }

  /** loadConfig as the source has it: the imported normalizeKeywords is undefined, so
      mapping the first task throws a TypeError. */
  function LoadConfigAsWritten(webhook: Option<string>, tasks: seq<Task>): Result<Config, string> {
    if WebhookUrl(webhook) == "" then Failure(MissingWebhookMessage)
    else if tasks != [] then Failure(NotAFunctionMessage)
    else Failure(NoTasksMessage)
  }

  /** As written, loadConfig never returns a configuration. */
  lemma LoadConfigAsWrittenFails(webhook: Option<string>, tasks: seq<Task>)
    ensures LoadConfigAsWritten(webhook, tasks).Failure?
    ensures WebhookUrl(webhook) != "" && tasks != [] ==> LoadConfigAsWritten(webhook, tasks) == Failure(NotAFunctionMessage)
  {
  }

  /** A single pair never clashes. */
  lemma OnePairAccepted(e: Entry)
    ensures OverlapError([e]).None?
  {
    assert [e][..0] == [];
  }

  /** A single non-blank id is accepted. */
  lemma OneIdAccepted(id: string)
    requires Trim(id) != ""
    ensures IdsError([id]).None?
  {
    assert [id][..0] == [];
  }

  /** The pairs of a single profile are its own. */
  lemma OneProfileEntries(p: Profile)
    ensures Entries([p]) == Pairs(p)
  {
    assert [p][..0] == [];
  }

  /** One task with an id and one subreddit. */
  const OneTask: seq<Task> := [Task(Some("a"), None, List(["r"]), Undefined)]

  /** `(x || "").trim()` of a one-letter value is the letter. */
  lemma TrimLetter(c: char)
    requires 'a' <= c <= 'z'
    ensures Trim([c]) == [c]
  {
    TrimUnbordered([c]);
  }

  /** The single profile built from OneTask. */
  lemma OneTaskProfile(normalizeKeywords: seq<string> -> seq<string>)
    ensures |Profiles(OneTask, normalizeKeywords)| == 1
    ensures Profiles(OneTask, normalizeKeywords)[0].id == "a"
    ensures Profiles(OneTask, normalizeKeywords)[0].subreddits == ["r"]
  {
    var t := OneTask[0];
    var ps := Profiles(OneTask, normalizeKeywords);
    assert ps[0] == ProfileFor(t, 0, normalizeKeywords);
    OneTaskId();
  }

  lemma OneTaskId()
    ensures ProfileId(OneTask[0], 0) == "a"
  {
    var t := OneTask[0];
    assert OrDefault(t.id, "") == "a";
    TrimLetter('a');
  }

  /** The input that shows it: with one task that has an id and one subreddit, the
      id validator accepts the profiles the intended loadConfig builds... */
  lemma OneTaskIdsAccepted(normalizeKeywords: seq<string> -> seq<string>)
    ensures IdsError(Ids(Profiles(OneTask, normalizeKeywords))).None?
  {
    var ids := Ids(Profiles(OneTask, normalizeKeywords));
    OneTaskProfile(normalizeKeywords);
    TrimLetter('a');
    assert |ids| == 1 && Trim(ids[0]) != "";
    IdsErrorSpec(ids);
  }

  /** ...and so does the overlap validator; LoadConfigAsWrittenFails shows the code as
      written throwing on the same input. */
  lemma OneTaskOverlapAccepted(normalizeKeywords: seq<string> -> seq<string>)
    ensures OverlapError(Entries(Profiles(OneTask, normalizeKeywords))).None?
  {
    var profiles := Profiles(OneTask, normalizeKeywords);
    OneTaskProfile(normalizeKeywords);
    assert profiles == [profiles[0]];
    OneSubredditAccepted(profiles[0]);
  }

  /** A single profile with a single subreddit never overlaps. */
  lemma OneSubredditAccepted(p: Profile)
    requires |p.subreddits| == 1
    ensures OverlapError(Entries([p])).None?
  {
    OneProfileEntries(p);
    var es := Pairs(p);
    assert es == [es[0]];
    OnePairAccepted(es[0]);
  }
}
