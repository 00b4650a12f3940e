/** The POST handler of server/api/settings/index.post.js: both lists in the request
    body are normalised, validated (subreddits first), and saved without the cron flag
    or the threshold. A list field that is not an array is `Undefined` or `Null`;
    array items arrive already converted by `String(item || "")`. */
module SettingsApi {
  import opened Wrappers
  import opened Text
  import opened JsValues
  import Distinct
  import opened Store
  import Feed

  const NoPatternMessage: string := "At least one heuristic pattern is required."

  /** A rejected request: the HTTP status and the message. */
  datatype HttpError = HttpError(status: nat, message: string)

  function TrimmedItems(items: seq<string>): (r: seq<string>)
    ensures |r| == |items|
    ensures forall i | 0 <= i < |items| :: r[i] == Trim(items[i])
  {
    seq(|items|, i requires 0 <= i < |items| => Trim(items[i]))
  }

  /** One step of the specification: the effect of the item at index `i`. */
  lemma KeepFirstTrimmedStep(xs: seq<string>, i: nat)
    requires i < |xs|
    ensures var n := Trim(xs[i]);
            var r := Distinct.KeepFirst(TrimmedItems(xs[..i]));
      Distinct.KeepFirst(TrimmedItems(xs[..i + 1]))
        == if n == "" || Lower(n) in Distinct.KeySet(r) then r else r + [n]
  {
    var ys := TrimmedItems(xs[..i + 1]);
    assert ys[..|ys| - 1] == TrimmedItems(xs[..i]);
  }

  /** normalizeStringArray: a non-array gives []; otherwise each trimmed, non-blank
      item is kept, in its own casing, unless an earlier kept item has the same
      lower-cased form. */
  method NormalizeStringArray(value: ListArg) returns (out: seq<string>)
    ensures !value.List? ==> out == []
    ensures out == Distinct.KeepFirst(TrimmedItems(ItemsOr(value, [])))
  {
    if !value.List? {
      return [];
    }
    var xs := value.items;
    out := [];
    var seen: set<string> := {};
    var i := 0;
    while i < |xs|
      invariant 0 <= i <= |xs|
      invariant out == Distinct.KeepFirst(TrimmedItems(xs[..i]))
      invariant seen == Distinct.KeySet(out)
    {
      var normalized := Trim(xs[i]);
      KeepFirstTrimmedStep(xs, i);
      if normalized != "" {
        var key := Lower(normalized);
        if key !in seen {
          Distinct.KeySetAppend(out, normalized);
          seen := seen + {key};
          out := out + [normalized];
        }
      }
      i := i + 1;
    }
    assert xs[..i] == xs;
  }

  /** What the normalised list is: trimmed non-blank items of the input, in input
      order, pairwise distinct ignoring case, covering every case-folded item of the
      input, each the first of its class in its original casing. */
  lemma NormalizedListShape(items: seq<string>)
    ensures forall y | y in Distinct.KeepFirst(TrimmedItems(items)) :: y != "" && Trim(y) == y
    ensures forall i, j | 0 <= i < j < |Distinct.KeepFirst(TrimmedItems(items))| ::
      Lower(Distinct.KeepFirst(TrimmedItems(items))[i]) != Lower(Distinct.KeepFirst(TrimmedItems(items))[j])
    ensures Distinct.IsSubsequence(Distinct.KeepFirst(TrimmedItems(items)), TrimmedItems(items))
    ensures forall m | 0 <= m < |items| && Distinct.IsFirstOfKey(TrimmedItems(items), m) ::
      Trim(items[m]) in Distinct.KeepFirst(TrimmedItems(items))
  {
    NormalizedItemsTrimmed(items);
    var xs := TrimmedItems(items);
    Distinct.KeepFirstDistinct(xs);
    Distinct.KeepFirstSubsequence(xs);
    NormalizedFirstsKept(items);
  }

  lemma NormalizedItemsTrimmed(items: seq<string>)
    ensures forall y | y in Distinct.KeepFirst(TrimmedItems(items)) :: y != "" && Trim(y) == y
  {
    var xs := TrimmedItems(items);
    Distinct.KeepFirstFromInput(xs);
    forall y | y in Distinct.KeepFirst(xs) ensures Trim(y) == y {
      var k :| 0 <= k < |xs| && xs[k] == y;
      TrimIdempotent(items[k]);
    }
  }

  lemma NormalizedFirstsKept(items: seq<string>)
    ensures forall m | 0 <= m < |items| && Distinct.IsFirstOfKey(TrimmedItems(items), m) ::
      Trim(items[m]) in Distinct.KeepFirst(TrimmedItems(items))
  {
    var xs := TrimmedItems(items);
    forall m | 0 <= m < |items| && Distinct.IsFirstOfKey(xs, m) ensures Trim(items[m]) in Distinct.KeepFirst(xs) {
      Distinct.FirstOccurrenceKept(xs, m);
    }
  }

  /** The handler: validation, then upsertIngestSettings with only the two lists,
      then the settings as read back. */
  method SaveSettings(db: Database, subredditList: ListArg, heuristicPatterns: ListArg, now: int)
    returns (r: Result<IngestSettings, HttpError>)
    requires db.Valid()
    modifies db
    ensures db.Valid()
    ensures db.clusters == old(db.clusters) && db.posts == old(db.posts) && db.vectors == old(db.vectors)
    ensures Distinct.KeepFirst(TrimmedItems(ItemsOr(subredditList, []))) == [] ==>
      r == Failure(HttpError(400, Feed.NoSubredditMessage)) && unchanged(db)
    ensures Distinct.KeepFirst(TrimmedItems(ItemsOr(subredditList, []))) != []
            && Distinct.KeepFirst(TrimmedItems(ItemsOr(heuristicPatterns, []))) == [] ==>
      r == Failure(HttpError(400, NoPatternMessage)) && unchanged(db)
    ensures (Distinct.KeepFirst(TrimmedItems(ItemsOr(subredditList, []))) != []
             && Distinct.KeepFirst(TrimmedItems(ItemsOr(heuristicPatterns, []))) != []) ==> r.Success?
    ensures r.Success? ==>
      && db.settingsRow == Some(SettingsRowFor(
           List(Distinct.KeepFirst(TrimmedItems(ItemsOr(subredditList, [])))),
           List(Distinct.KeepFirst(TrimmedItems(ItemsOr(heuristicPatterns, [])))), None, None, now))
      && r.value == db.GetIngestSettings()
      && r.value.subredditList != [] && r.value.heuristicPatterns != []
      && r.value.cronIngestEnabled && r.value.clusterDistanceThreshold == DefaultClusterDistanceThreshold
  {
    var subreddits := NormalizeStringArray(subredditList);
    var patterns := NormalizeStringArray(heuristicPatterns);
    if |subreddits| == 0 {
      return Failure(HttpError(400, Feed.NoSubredditMessage));
    }
    if |patterns| == 0 {
      return Failure(HttpError(400, NoPatternMessage));
    }
    db.UpsertIngestSettings(List(subreddits), List(patterns), None, None, now);
    r := Success(db.GetIngestSettings());
  }
}
