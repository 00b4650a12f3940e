/** The Reddit link and guid extractors shared, character for character, by
    server/lib/rss.js and src/rss.js, and their date conversion.

    Each regular expression is modelled by a matcher that says whether it matches
    at one start position and what its capture group holds; `match` without the
    `g` flag returns the match at the leftmost start position. */
module RedditLinks {
  import opened Wrappers
  import opened Text
  import opened JsValues

  /** A matcher: the capture group of a match starting at a position, if any. */
  type Matcher = (string, nat) -> Option<string>

  /** `s.match(re)`: the first start position, from `from` on, where the matcher succeeds. */
  function Leftmost(s: string, m: Matcher, from: nat): Option<string>
    decreases |s| + 1 - from
  {
    if from > |s| then None
    else if m(s, from).Some? then m(s, from)
    else Leftmost(s, m, from + 1)
  }

  /** The leftmost scan finds a match exactly when one exists, and it returns the
      capture of the first position that matches. */
  lemma {:induction false} LeftmostSpec(s: string, m: Matcher, from: nat)
    ensures Leftmost(s, m, from).Some? <==> exists p | from <= p <= |s| :: m(s, p).Some?
    ensures Leftmost(s, m, from).Some? ==>
      exists p | from <= p <= |s| :: m(s, p) == Leftmost(s, m, from) && forall q | from <= q < p :: m(s, q).None?
    decreases |s| + 1 - from
  {
    if from <= |s| && m(s, from).None? {
      LeftmostSpec(s, m, from + 1);
      if Leftmost(s, m, from).Some? {
        var p :| from + 1 <= p <= |s| && m(s, p) == Leftmost(s, m, from) && forall q | from + 1 <= q < p :: m(s, q).None?;
        assert forall q | from <= q < p :: m(s, q).None?;
      }
    }
  }

  /** The length of the longest run of `[a-z0-9]` (flag `i`) starting at `i`. */
  function AlnumRun(s: string, i: nat): (n: nat)
    requires i <= |s|
    ensures i + n <= |s|
    ensures forall k | i <= k < i + n :: IsAsciiAlnum(s[k])
    ensures i + n == |s| || !IsAsciiAlnum(s[i + n])
    decreases |s| - i
  {
    if i < |s| && IsAsciiAlnum(s[i]) then 1 + AlnumRun(s, i + 1) else 0
  }

  /** The length of the longest run of `[^/]` starting at `i`. */
  function NonSlashRun(s: string, i: nat): (n: nat)
    requires i <= |s|
    ensures i + n <= |s|
    ensures forall k | i <= k < i + n :: s[k] != '/'
    ensures i + n == |s| || s[i + n] == '/'
    decreases |s| - i
  {
    if i < |s| && s[i] != '/' then 1 + NonSlashRun(s, i + 1) else 0
  }

  /** `lit` (lower case) occurs at `p`, ignoring ASCII case. */
  predicate OccursAtIgnoringCase(s: string, lit: string, p: nat) {
    p + |lit| <= |s| && Lower(s[p..p + |lit|]) == lit
  }

  predicate AllAlnum(id: string) {
    forall k | 0 <= k < |id| :: IsAsciiAlnum(id[k])
  }

  /** An alnum run followed by a non-alnum character or the end is the longest run. */
  lemma AlnumRunIs(s: string, i: nat, n: nat)
    requires i + n <= |s|
    requires forall k | i <= k < i + n :: IsAsciiAlnum(s[k])
    requires i + n == |s| || !IsAsciiAlnum(s[i + n])
    ensures AlnumRun(s, i) == n
  {
  }

  lemma NonSlashRunIs(s: string, i: nat, n: nat)
    requires i + n <= |s|
    requires forall k | i <= k < i + n :: s[k] != '/'
    requires i + n == |s| || s[i + n] == '/'
    ensures NonSlashRun(s, i) == n
  {
  }

  // ----- /\/comments\/([a-z0-9]+)\//i -----

  function CommentsAt(s: string, p: nat): Option<string> {
    if OccursAtIgnoringCase(s, "/comments/", p) then
      var n := AlnumRun(s, p + 10);
      if n > 0 && p + 10 + n < |s| && s[p + 10 + n] == '/' then Some(s[p + 10..p + 10 + n]) else None
    else None
  }

  /** What the pattern says: `/comments/`, then a non-empty alnum `id`, then `/`. */
  predicate CommentsMatch(s: string, p: nat, id: string) {
    && OccursAtIgnoringCase(s, "/comments/", p)
    && id != [] && AllAlnum(id)
    && p + 10 + |id| < |s|
    && s[p + 10..p + 10 + |id|] == id
    && s[p + 10 + |id|] == '/'
  }

  /** The greedy run needs no backtracking: the matcher captures exactly the ids the
      pattern allows at that position. */
  lemma CommentsAtIff(s: string, p: nat, id: string)
    ensures CommentsAt(s, p) == Some(id) <==> CommentsMatch(s, p, id)
  {
    if CommentsMatch(s, p, id) {
      forall k | p + 10 <= k < p + 10 + |id| ensures IsAsciiAlnum(s[k]) {
        assert s[k] == id[k - (p + 10)];
      }
      AlnumRunIs(s, p + 10, |id|);
    }
  }

  // ----- /redd\.it\/([a-z0-9]+)\/?$/i -----

  function ShortLinkAt(s: string, p: nat): Option<string> {
    if OccursAtIgnoringCase(s, "redd.it/", p) then
      var n := AlnumRun(s, p + 8);
      var e := p + 8 + n;
      if n > 0 && (e == |s| || (e + 1 == |s| && s[e] == '/')) then Some(s[p + 8..e]) else None
    else None
  }

  /** `redd.it/`, a non-empty alnum `id`, an optional `/`, and the end of the string. */
  predicate ShortLinkMatch(s: string, p: nat, id: string) {
    && OccursAtIgnoringCase(s, "redd.it/", p)
    && id != [] && AllAlnum(id)
    && p + 8 + |id| <= |s|
    && s[p + 8..p + 8 + |id|] == id
    && (p + 8 + |id| == |s| || (p + 8 + |id| + 1 == |s| && s[p + 8 + |id|] == '/'))
  }

  lemma ShortLinkAtIff(s: string, p: nat, id: string)
    ensures ShortLinkAt(s, p) == Some(id) <==> ShortLinkMatch(s, p, id)
  {
    if ShortLinkMatch(s, p, id) {
      forall k | p + 8 <= k < p + 8 + |id| ensures IsAsciiAlnum(s[k]) {
        assert s[k] == id[k - (p + 8)];
      }
      AlnumRunIs(s, p + 8, |id|);
    }
  }

  // ----- /\bt3_([a-z0-9]+)\b/i -----

  function ThingAt(s: string, p: nat): Option<string> {
    if p <= |s| && IsWordBoundary(s, p) && OccursAtIgnoringCase(s, "t3_", p) then
      var n := AlnumRun(s, p + 3);
      if n > 0 && IsWordBoundary(s, p + 3 + n) then Some(s[p + 3..p + 3 + n]) else None
    else None
  }

  /** A word boundary, `t3_`, a non-empty alnum `id`, and a word boundary. */
  predicate ThingMatch(s: string, p: nat, id: string) {
    && p + 3 + |id| <= |s|
    && IsWordBoundary(s, p)
    && OccursAtIgnoringCase(s, "t3_", p)
    && id != [] && AllAlnum(id)
    && s[p + 3..p + 3 + |id|] == id
    && IsWordBoundary(s, p + 3 + |id|)
  }

  lemma ThingAtIff(s: string, p: nat, id: string)
    ensures ThingAt(s, p) == Some(id) <==> ThingMatch(s, p, id)
  {
    if ThingMatch(s, p, id) {
      var e := p + 3 + |id|;
      forall k | p + 3 <= k < e ensures IsAsciiAlnum(s[k]) {
        assert s[k] == id[k - (p + 3)];
      }
      assert IsAsciiAlnum(s[e - 1]);
      AlnumRunIs(s, p + 3, |id|);
    }
  }

  // ----- /\/r\/([^/]+)\/comments\//i -----

  function SubredditAt(s: string, p: nat): Option<string> {
    if OccursAtIgnoringCase(s, "/r/", p) then
      var n := NonSlashRun(s, p + 3);
      if n > 0 && OccursAtIgnoringCase(s, "/comments/", p + 3 + n) then Some(s[p + 3..p + 3 + n]) else None
    else None
  }

  /** `/r/`, a non-empty `name` without `/`, then `/comments/`. */
  predicate SubredditMatch(s: string, p: nat, name: string) {
    && OccursAtIgnoringCase(s, "/r/", p)
    && name != [] && '/' !in name
    && p + 3 + |name| <= |s|
    && s[p + 3..p + 3 + |name|] == name
    && OccursAtIgnoringCase(s, "/comments/", p + 3 + |name|)
  }

  lemma SubredditAtIff(s: string, p: nat, name: string)
    ensures SubredditAt(s, p) == Some(name) <==> SubredditMatch(s, p, name)
  {
    if SubredditMatch(s, p, name) {
      var e := p + 3 + |name|;
      forall k | p + 3 <= k < e ensures s[k] != '/' {
        assert s[k] == name[k - (p + 3)];
      }
      assert Lower(s[e..e + 10])[0] == '/';
      NonSlashRunIs(s, p + 3, |name|);
    }
  }

  // ----- the extractors -----

  /** extractPostIdFromUrl: the comments pattern first, then the short link. */
  function ExtractPostIdFromUrl(url: Option<string>): Option<string> {
    if !Truthy(url) then None
    else
      var fromComments := Leftmost(url.value, CommentsAt, 0);
      if fromComments.Some? then fromComments else Leftmost(url.value, ShortLinkAt, 0)
  }

  /** extractPostId: a `t3_` token in the guid, then a URL pattern in the guid, then
      a URL pattern in the link. */
  function ExtractPostId(link: string, guid: string): Option<string> {
    var fromGuidThing := Leftmost(guid, ThingAt, 0);
    if fromGuidThing.Some? then fromGuidThing
    else
      var fromGuidUrl := ExtractPostIdFromUrl(Some(guid));
      if fromGuidUrl.Some? then fromGuidUrl
      else ExtractPostIdFromUrl(Some(link))
  }

  /** extractSubreddit. */
  function ExtractSubreddit(link: Option<string>): Option<string> {
    if !Truthy(link) then None else Leftmost(link.value, SubredditAt, 0)
  }

  /** The id of the leftmost comments link, else of a trailing short link. */
  ghost predicate FirstCommentsId(u: string, id: string) {
    exists p | 0 <= p <= |u| :: CommentsMatch(u, p, id) && forall q, x | 0 <= q < p :: !CommentsMatch(u, q, x)
  }

  ghost predicate NoCommentsLink(u: string) {
    forall q, x | 0 <= q <= |u| :: !CommentsMatch(u, q, x)
  }

  ghost predicate FirstShortLinkId(u: string, id: string) {
    exists p | 0 <= p <= |u| :: ShortLinkMatch(u, p, id) && forall q, x | 0 <= q < p :: !ShortLinkMatch(u, q, x)
  }

  ghost predicate NoShortLink(u: string) {
    forall q, x | 0 <= q <= |u| :: !ShortLinkMatch(u, q, x)
  }

  /** The leftmost scan of a matcher, in terms of its pattern predicate. */
  lemma LeftmostComments(u: string)
    ensures Leftmost(u, CommentsAt, 0).None? <==> NoCommentsLink(u)
    ensures Leftmost(u, CommentsAt, 0).Some? ==> FirstCommentsId(u, Leftmost(u, CommentsAt, 0).value)
  {
    LeftmostSpec(u, CommentsAt, 0);
    forall q, x | 0 <= q <= |u| ensures CommentsAt(u, q) == Some(x) <==> CommentsMatch(u, q, x) {
      CommentsAtIff(u, q, x);
    }
    var r := Leftmost(u, CommentsAt, 0);
    if r.Some? {
      var p :| 0 <= p <= |u| && CommentsAt(u, p) == r && forall q | 0 <= q < p :: CommentsAt(u, q).None?;
      assert CommentsMatch(u, p, r.value);
    } else {
      forall q, x | 0 <= q <= |u| ensures !CommentsMatch(u, q, x) {
        assert CommentsAt(u, q).None?;
      }
    }
  }

  lemma LeftmostShortLink(u: string)
    ensures Leftmost(u, ShortLinkAt, 0).None? <==> NoShortLink(u)
    ensures Leftmost(u, ShortLinkAt, 0).Some? ==> FirstShortLinkId(u, Leftmost(u, ShortLinkAt, 0).value)
  {
    LeftmostSpec(u, ShortLinkAt, 0);
    forall q, x | 0 <= q <= |u| ensures ShortLinkAt(u, q) == Some(x) <==> ShortLinkMatch(u, q, x) {
      ShortLinkAtIff(u, q, x);
    }
    var r := Leftmost(u, ShortLinkAt, 0);
    if r.Some? {
      var p :| 0 <= p <= |u| && ShortLinkAt(u, p) == r && forall q | 0 <= q < p :: ShortLinkAt(u, q).None?;
      assert ShortLinkMatch(u, p, r.value);
    } else {
      forall q, x | 0 <= q <= |u| ensures !ShortLinkMatch(u, q, x) {
        assert ShortLinkAt(u, q).None?;
      }
    }
  }

  /** extractPostIdFromUrl takes the leftmost `/comments/<id>/` when there is one,
      else the trailing `redd.it/<id>`, else nothing; an empty or missing URL gives
      nothing. */
  lemma ExtractPostIdFromUrlSpec(url: Option<string>)
    ensures !Truthy(url) ==> ExtractPostIdFromUrl(url) == None
    ensures Truthy(url) ==>
      var u := url.value;
      && (!NoCommentsLink(u) ==> ExtractPostIdFromUrl(url).Some? && FirstCommentsId(u, ExtractPostIdFromUrl(url).value))
      && (NoCommentsLink(u) && !NoShortLink(u) ==> ExtractPostIdFromUrl(url).Some? && FirstShortLinkId(u, ExtractPostIdFromUrl(url).value))
      && (NoCommentsLink(u) && NoShortLink(u) ==> ExtractPostIdFromUrl(url) == None)
  {
    if Truthy(url) {
      LeftmostComments(url.value);
      LeftmostShortLink(url.value);
    }
  }

  ghost predicate HasThing(g: string) {
    exists p, x | 0 <= p <= |g| :: ThingMatch(g, p, x)
  }

  ghost predicate FirstThingId(g: string, id: string) {
    exists p | 0 <= p <= |g| :: ThingMatch(g, p, id) && forall q, x | 0 <= q < p :: !ThingMatch(g, q, x)
  }

  /** extractPostId prefers the leftmost `t3_<id>` token of the guid; failing that it
      uses the guid as a URL, and only then the link. */
  lemma ExtractPostIdSpec(link: string, guid: string)
    ensures HasThing(guid) ==> ExtractPostId(link, guid).Some? && FirstThingId(guid, ExtractPostId(link, guid).value)
    ensures !HasThing(guid) && ExtractPostIdFromUrl(Some(guid)).Some? ==>
      ExtractPostId(link, guid) == ExtractPostIdFromUrl(Some(guid))
    ensures !HasThing(guid) && ExtractPostIdFromUrl(Some(guid)).None? ==>
      ExtractPostId(link, guid) == ExtractPostIdFromUrl(Some(link))
  {
    LeftmostSpec(guid, ThingAt, 0);
    forall q, x | 0 <= q <= |guid| ensures ThingAt(guid, q) == Some(x) <==> ThingMatch(guid, q, x) {
      ThingAtIff(guid, q, x);
    }
    var r := Leftmost(guid, ThingAt, 0);
    if r.Some? {
      var p :| 0 <= p <= |guid| && ThingAt(guid, p) == r && forall q | 0 <= q < p :: ThingAt(guid, q).None?;
      assert ThingMatch(guid, p, r.value);
    } else {
      forall q, x | 0 <= q <= |guid| ensures !ThingMatch(guid, q, x) {
        assert ThingAt(guid, q).None?;
      }
    }
  }

  /** Every extracted id is a non-empty run of ASCII letters and digits, so it is truthy. */
  lemma ExtractedIdIsAlnum(link: string, guid: string)
    ensures ExtractPostId(link, guid).Some? ==>
      ExtractPostId(link, guid).value != [] && AllAlnum(ExtractPostId(link, guid).value)
  {
    ExtractPostIdSpec(link, guid);
    ExtractPostIdFromUrlSpec(Some(guid));
    ExtractPostIdFromUrlSpec(Some(link));
  }

  /** extractSubreddit returns the name of the leftmost `/r/<name>/comments/`, else nothing. */
  lemma ExtractSubredditSpec(link: Option<string>)
    ensures !Truthy(link) ==> ExtractSubreddit(link) == None
    ensures Truthy(link) ==>
      var u := link.value;
      && (ExtractSubreddit(link).None? <==> forall q, x | 0 <= q <= |u| :: !SubredditMatch(u, q, x))
      && (ExtractSubreddit(link).Some? ==>
            exists p | 0 <= p <= |u| :: SubredditMatch(u, p, ExtractSubreddit(link).value)
                                      && forall q, x | 0 <= q < p :: !SubredditMatch(u, q, x))
  {
    if Truthy(link) {
      var u := link.value;
      LeftmostSpec(u, SubredditAt, 0);
      forall q, x | 0 <= q <= |u| ensures SubredditAt(u, q) == Some(x) <==> SubredditMatch(u, q, x) {
        SubredditAtIff(u, q, x);
      }
      var r := Leftmost(u, SubredditAt, 0);
      if r.Some? {
        var p :| 0 <= p <= |u| && SubredditAt(u, p) == r && forall q | 0 <= q < p :: SubredditAt(u, q).None?;
        assert SubredditMatch(u, p, r.value);
      } else {
        forall q, x | 0 <= q <= |u| ensures !SubredditMatch(u, q, x) {
          assert SubredditAt(u, q).None?;
        }
      }
    }
  }

  /** unixSecondsFromDateString, with `Date.parse` as a parameter: null for a falsy or
      unparseable value, else the whole seconds of the parsed milliseconds, rounded
      down. */
  function UnixSecondsFromDateString(value: Option<string>, dateParse: string -> Num): (r: Option<int>)
    ensures !Truthy(value) ==> r == None
    ensures Truthy(value) && dateParse(value.value).NonFinite? ==> r == None
    ensures Truthy(value) && dateParse(value.value).Finite? ==>
      r.Some? && (r.value * 1000) as real <= dateParse(value.value).r < ((r.value + 1) * 1000) as real
  {
    if !Truthy(value) then None
    else match dateParse(value.value)
      case NonFinite => None
      case Finite(ms) => Some((ms / 1000.0).Floor)
  }
}
