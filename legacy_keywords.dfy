/** src/keywords.js: the legacy alerter's keyword test, a first-match search of a
    fixed keyword list in the lower-cased `title + "\n" + body`, by plain substring
    (no word boundaries). */
module LegacyKeywords {
  import opened Wrappers
  import opened Text
  import opened JsValues

  const Keywords: seq<string> :=
    ["vod review", "replay", "recording", "low fps", "overwolf", "insights.gg", "record games"]

  /** The text searched: missing fields read as "", the whole lower-cased. */
  function Haystack(title: Option<string>, body: Option<string>): string {
    Lower(OrDefault(title, "") + "\n" + OrDefault(body, ""))
  }

  /** The first of `ks` that occurs in `h`. */
  function FirstMatch(h: string, ks: seq<string>): (r: Option<string>)
    decreases |ks|
  {
    if ks == [] then None
    else if Contains(h, ks[0]) then Some(ks[0])
    else FirstMatch(h, ks[1..])
  }

  /** findKeywordMatch. */
  function FindKeywordMatch(title: Option<string>, body: Option<string>): Option<string> {
    FirstMatch(Haystack(title, body), Keywords)
  }

  /** The search answers with the first keyword, in list order, that occurs; and with
      none exactly when no keyword occurs. */
  lemma {:induction false} FirstMatchSpec(h: string, ks: seq<string>)
    ensures FirstMatch(h, ks).None? <==> forall k | k in ks :: !Contains(h, k)
    ensures FirstMatch(h, ks).Some? ==>
      exists i | 0 <= i < |ks| :: ks[i] == FirstMatch(h, ks).value
        && Contains(h, ks[i]) && forall j | 0 <= j < i :: !Contains(h, ks[j])
    decreases |ks|
  {
    if ks != [] {
      FirstMatchSpec(h, ks[1..]);
      if !Contains(h, ks[0]) {
        assert forall k | k in ks :: k == ks[0] || k in ks[1..];
        assert forall k | k in ks[1..] :: k in ks;
        if FirstMatch(h, ks).Some? {
          var i :| 0 <= i < |ks[1..]| && ks[1..][i] == FirstMatch(h, ks[1..]).value
            && Contains(h, ks[1..][i]) && forall j | 0 <= j < i :: !Contains(h, ks[1..][j]);
          assert ks[i + 1] == ks[1..][i];
          forall j | 0 <= j < i + 1 ensures !Contains(h, ks[j]) {
            if j > 0 { assert ks[j] == ks[1..][j - 1]; }
          }
        }
      } else {
        assert ks[0] in ks;
      }
    }
  }

  /** The result is null exactly when no keyword occurs in the lower-cased text, and
      is otherwise a keyword that occurs, every earlier keyword being absent. */
  lemma FindKeywordMatchSpec(title: Option<string>, body: Option<string>)
    ensures var r := FindKeywordMatch(title, body);
      && (r.None? <==> forall k | k in Keywords :: !Contains(Haystack(title, body), k))
      && (r.Some? ==> r.value in Keywords && Contains(Haystack(title, body), r.value))
  {
    FirstMatchSpec(Haystack(title, body), Keywords);
  }

  /** A needle longer than the text never occurs in it. */
  lemma TooLongAbsent(h: string, n: string)
    requires |n| > |h|
    ensures !Contains(h, n)
  {
    ContainsIff(h, n);
  }

  /** No word boundary is required: "replay" is found inside "Replays". */
  lemma MatchInsideWord()
    ensures FindKeywordMatch(Some("Replays"), None) == Some("replay")
  {
    var h := Haystack(Some("Replays"), None);
    assert h == "replays\n" by {
      assert |h| == 8;
      forall i | 0 <= i < 8 ensures h[i] == "replays\n"[i] {
        assert h[i] == LowerChar("Replays\n"[i]);
      }
    }
    TooLongAbsent(h, "vod review");
    assert "replay" <= h;
  }
}
