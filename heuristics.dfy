/** The heuristic pre-filter of server/lib/heuristics.js: pattern normalisation,
    the escaped word-boundary alternation `\b(t1|t2|...)\b` with flag `i`, and the
    fail-open test on `title + "\n" + body`. */
module Heuristics {
  import opened Wrappers
  import opened Text
  import opened JsValues
  import Distinct

  /** DEFAULT_HEURISTIC_PATTERNS of server/lib/constants.js. */
  const DefaultHeuristicPatterns: seq<string> :=
    ["how to", "struggling with", "hate doing", "alternative to", "too expensive", "wish there was"]

  /** `String(item || "").trim().toLowerCase()`. */
  function NormalizeTerm(item: string): string {
    Lower(Trim(item))
  }

  function NormalizedItems(items: seq<string>): (r: seq<string>)
    ensures |r| == |items|
    ensures forall i | 0 <= i < |items| :: r[i] == NormalizeTerm(items[i])
  {
    seq(|items|, i requires 0 <= i < |items| => NormalizeTerm(items[i]))
  }

  lemma NormalizedItemsPrefix(items: seq<string>, i: nat)
    requires i <= |items|
    ensures NormalizedItems(items)[..i] == NormalizedItems(items[..i])
  {
  }

  /** One step of the specification: the effect of the item at index `i`. */
  lemma KeepFirstNormalizedStep(xs: seq<string>, i: nat)
    requires i < |xs|
    ensures var n := NormalizeTerm(xs[i]);
            var r := Distinct.KeepFirst(NormalizedItems(xs[..i]));
      Distinct.KeepFirst(NormalizedItems(xs[..i + 1]))
        == if n == "" || Lower(n) in Distinct.KeySet(r) then r else r + [n]
  {
    var ys := NormalizedItems(xs[..i + 1]);
    assert ys[..|ys| - 1] == NormalizedItems(xs[..i]);
  }

  /** normalizeTerms: a loop that pushes each new non-empty normalised item into
      `out` and records it in `seen`. */
  method NormalizeTerms(items: ListArg) returns (out: seq<string>)
    ensures out == Distinct.KeepFirst(NormalizedItems(ItemsOr(items, [])))
  {
    var xs := ItemsOr(items, []);
    out := [];
    var seen: set<string> := {};
    var i := 0;
    while i < |xs|
      invariant 0 <= i <= |xs|
      invariant out == Distinct.KeepFirst(NormalizedItems(xs[..i]))
      invariant seen == Distinct.KeySet(out)
    {
      var normalized := Lower(Trim(xs[i]));
      LowerIdempotent(Trim(xs[i]));
      KeepFirstNormalizedStep(xs, i);
      if normalized == "" || normalized in seen {
      } else {
        Distinct.KeySetAppend(out, normalized);
        seen := seen + {normalized};
        out := out + [normalized];
      }
      i := i + 1;
    }
    assert xs[..i] == xs;
  }

  /** The terms `buildPainRegex` joins: the normalised, de-duplicated patterns, where
      only an `undefined` argument falls back to the defaults. */
  function PatternTerms(patterns: ListArg): seq<string> {
    var items := if patterns.Undefined? then DefaultHeuristicPatterns else ItemsOr(patterns, []);
    Distinct.KeepFirst(NormalizedItems(items))
  }

  /** The characters `[.*+?^${}()|[\]\\]` that the source escapes with a backslash. */
  predicate IsRegexMeta(c: char) {
    c in ".*+?^${}()|[]\\"
  }

  /** `term.replace(/[.*+?^${}()|[\]\\]/g, "\\$&")`. */
  function Escape(t: string): string
    decreases |t|
  {
    if t == [] then []
    else (if IsRegexMeta(t[0]) then ['\\', t[0]] else [t[0]]) + Escape(t[1..])
  }

  /** Reads a regular-expression fragment made of plain and escaped characters as the
      literal text it matches; an unescaped metacharacter makes it no plain literal. */
  function Unescape(p: string): Option<string>
    decreases |p|
  {
    if p == [] then Some([])
    else if p[0] == '\\' then
      if |p| == 1 then None
      else match Unescape(p[2..]) case Some(rest) => Some([p[1]] + rest) case None => None
    else if IsRegexMeta(p[0]) then None
    else match Unescape(p[1..]) case Some(rest) => Some([p[0]] + rest) case None => None
  }

  /** Escaping makes every term an alternative that matches the term literally. */
  lemma {:induction false} UnescapeEscape(t: string)
    ensures Unescape(Escape(t)) == Some(t)
    decreases |t|
  {
    if t != [] {
      UnescapeEscape(t[1..]);
      var e := Escape(t);
      if IsRegexMeta(t[0]) {
        assert e == ['\\', t[0]] + Escape(t[1..]);
        assert e[2..] == Escape(t[1..]);
      } else {
        assert e == [t[0]] + Escape(t[1..]);
        assert e[1..] == Escape(t[1..]);
      }
      assert [t[0]] + t[1..] == t;
    }
  }

  /** The compiled `\b(alt1|alt2|...)\b` with flag `i`, given by its escaped alternatives. */
  datatype PainRegex = PainRegex(alternatives: seq<string>)

  /** The regular expression's source text. */
  function Source(rx: PainRegex): string {
    "\\b(" + Join(rx.alternatives, "|") + ")\\b"
  }

  function EscapeAll(terms: seq<string>): (r: seq<string>)
    ensures |r| == |terms|
    ensures forall k | 0 <= k < |terms| :: r[k] == Escape(terms[k])
  {
    seq(|terms|, k requires 0 <= k < |terms| => Escape(terms[k]))
  }

  /** buildPainRegex: null when no term remains. */
  function BuildPainRegex(patterns: ListArg): Option<PainRegex> {
    var terms := PatternTerms(patterns);
    if |terms| == 0 then None else Some(PainRegex(EscapeAll(terms)))
  }

  /** `lit` occurs at `p`, ignoring ASCII case, with a word boundary on both sides. */
  predicate LiteralMatchAt(h: string, p: nat, lit: string) {
    && p + |lit| <= |h|
    && Lower(h[p..p + |lit|]) == Lower(lit)
    && IsWordBoundary(h, p)
    && IsWordBoundary(h, p + |lit|)
  }

  predicate AlternativeMatchesAt(h: string, p: nat, alt: string) {
    match Unescape(alt)
    case Some(lit) => LiteralMatchAt(h, p, lit)
    case None => false
  }

  /** `regex.test(h)`: the alternation backtracks over every start and every alternative. */
  predicate Test(rx: PainRegex, h: string) {
    exists p, k | 0 <= p <= |h| && 0 <= k < |rx.alternatives| :: AlternativeMatchesAt(h, p, rx.alternatives[k])
  }

  /** `${title || ""}\n${body || ""}`. */
  function Haystack(title: Option<string>, body: Option<string>): string {
    OrDefault(title, "") + "\n" + OrDefault(body, "")
  }

  /** passesHeuristicFilter: fail-open when there is no regex. */
  predicate PassesHeuristicFilter(title: Option<string>, body: Option<string>, regex: Option<PainRegex>) {
    var haystack := Haystack(title, body);
    if regex.None? then true else Test(regex.value, haystack)
  }

  /** The normalised terms are trimmed, lower-cased, non-empty, pairwise distinct and
      kept in first-occurrence order. */
  lemma NormalizeTermsShape(items: seq<string>)
    ensures forall y | y in Distinct.KeepFirst(NormalizedItems(items)) :: y != "" && Lower(y) == y && Trim(y) == y
    ensures forall i, j | 0 <= i < j < |Distinct.KeepFirst(NormalizedItems(items))| ::
      Distinct.KeepFirst(NormalizedItems(items))[i] != Distinct.KeepFirst(NormalizedItems(items))[j]
    ensures forall m | 0 <= m < |items| && Distinct.IsFirstOfKey(NormalizedItems(items), m) ::
      NormalizeTerm(items[m]) in Distinct.KeepFirst(NormalizedItems(items))
    ensures Distinct.IsSubsequence(Distinct.KeepFirst(NormalizedItems(items)), NormalizedItems(items))
  {
    var xs := NormalizedItems(items);
    NormalizedTermsTrimmed(items);
    Distinct.KeepFirstDistinct(xs);
    Distinct.KeepFirstSubsequence(xs);
    forall m | 0 <= m < |items| && Distinct.IsFirstOfKey(xs, m) ensures NormalizeTerm(items[m]) in Distinct.KeepFirst(xs) {
      Distinct.FirstOccurrenceKept(xs, m);
    }
  }

  lemma NormalizedTermsTrimmed(items: seq<string>)
    ensures forall y | y in Distinct.KeepFirst(NormalizedItems(items)) :: y != "" && Lower(y) == y && Trim(y) == y
  {
    var xs := NormalizedItems(items);
    Distinct.KeepFirstFromInput(xs);
    forall y | y in Distinct.KeepFirst(xs) ensures Lower(y) == y && Trim(y) == y {
      var m :| 0 <= m < |xs| && xs[m] == y;
      LowerIdempotent(Trim(items[m]));
      LowerKeepsTrim(Trim(items[m]));
    }
  }

  /** Lower-casing a trimmed string leaves it trimmed (ASCII letters are not spaces). */
  lemma LowerKeepsTrim(s: string)
    requires Trim(s) == s
    ensures Trim(Lower(s)) == Lower(s)
  {
    var l := Lower(s);
    if s != [] {
      assert !IsTrimSpace(s[0]) && !IsTrimSpace(s[|s| - 1]);
      assert !IsTrimSpace(l[0]) && !IsTrimSpace(l[|l| - 1]);
      assert TrimStart(l) == l;
      assert TrimEnd(l) == l;
    }
  }

  /** The regex is null exactly when no term survives normalisation: an explicit empty
      list or `null` gives null, while an omitted argument uses the defaults. */
  lemma BuildPainRegexNull(patterns: ListArg)
    ensures BuildPainRegex(patterns).None? <==> PatternTerms(patterns) == []
    ensures patterns == Null || patterns == List([]) ==> BuildPainRegex(patterns).None?
    ensures patterns == Undefined ==> BuildPainRegex(patterns).Some?
  {
    if patterns == Undefined {
      DefaultTermsKept();
    }
  }

  /** The default patterns survive normalisation: the first one is kept. */
  lemma DefaultTermsKept()
    ensures PatternTerms(Undefined) != []
  {
    var xs := NormalizedItems(DefaultHeuristicPatterns);
    TrimNonBlank("how to", 0);
    assert xs[0] != "";
    assert Distinct.IsFirstOfKey(xs, 0);
    Distinct.FirstOccurrenceKept(xs, 0);
  }

  /** A post passes exactly when no term is configured or some normalised term occurs,
      ignoring case, between two word boundaries of the haystack. */
  lemma PassesIff(title: Option<string>, body: Option<string>, patterns: ListArg)
    ensures var h := Haystack(title, body);
            var terms := PatternTerms(patterns);
      PassesHeuristicFilter(title, body, BuildPainRegex(patterns))
      <==> (terms == [] || exists p, t | 0 <= p <= |h| && t in terms :: LiteralMatchAt(h, p, t))
  {
    var terms := PatternTerms(patterns);
    if terms != [] {
      TestEscapedIff(terms, Haystack(title, body));
    }
  }

  /** The alternation of escaped terms matches exactly where one of the terms occurs. */
  lemma TestEscapedIff(terms: seq<string>, h: string)
    ensures Test(PainRegex(EscapeAll(terms)), h)
      <==> exists p, t | 0 <= p <= |h| && t in terms :: LiteralMatchAt(h, p, t)
  {
    var rx := PainRegex(EscapeAll(terms));
    if Test(rx, h) {
      var p, k :| 0 <= p <= |h| && 0 <= k < |rx.alternatives| && AlternativeMatchesAt(h, p, rx.alternatives[k]);
      UnescapeEscape(terms[k]);
      assert LiteralMatchAt(h, p, terms[k]);
    }
    if exists p, t | 0 <= p <= |h| && t in terms :: LiteralMatchAt(h, p, t) {
      var p, t :| 0 <= p <= |h| && t in terms && LiteralMatchAt(h, p, t);
      var k :| 0 <= k < |terms| && terms[k] == t;
      UnescapeEscape(terms[k]);
      assert AlternativeMatchesAt(h, p, rx.alternatives[k]);
    }
  }

  /** Reordering or repeating patterns does not change the outcome: only the set of
      normalised non-empty patterns matters. */
  lemma PassesOrderInsensitive(title: Option<string>, body: Option<string>, ps: ListArg, qs: ListArg)
    requires Distinct.NonEmptyKeys(NormalizedItems(if ps.Undefined? then DefaultHeuristicPatterns else ItemsOr(ps, [])))
          == Distinct.NonEmptyKeys(NormalizedItems(if qs.Undefined? then DefaultHeuristicPatterns else ItemsOr(qs, [])))
    ensures PassesHeuristicFilter(title, body, BuildPainRegex(ps)) == PassesHeuristicFilter(title, body, BuildPainRegex(qs))
  {
    var ts := PatternTerms(ps);
    var us := PatternTerms(qs);
    SameTermSet(if ps.Undefined? then DefaultHeuristicPatterns else ItemsOr(ps, []));
    SameTermSet(if qs.Undefined? then DefaultHeuristicPatterns else ItemsOr(qs, []));
    assert forall t :: t in ts <==> t in us;
    assert ts == [] <==> us == [] by {
      if ts != [] { assert ts[0] in us; }
      if us != [] { assert us[0] in ts; }
    }
    PassesIff(title, body, ps);
    PassesIff(title, body, qs);
  }

  /** Normalised items are already lower-cased. */
  lemma NormalizedItemsLower(items: seq<string>)
    ensures forall l | 0 <= l < |items| :: Lower(NormalizedItems(items)[l]) == NormalizedItems(items)[l]
  {
    forall l | 0 <= l < |items| ensures Lower(NormalizedItems(items)[l]) == NormalizedItems(items)[l] {
      LowerIdempotent(Trim(items[l]));
    }
  }

  /** The kept terms are exactly the non-empty normalised items, as a set. */
  lemma SameTermSet(items: seq<string>)
    ensures forall t :: t in Distinct.KeepFirst(NormalizedItems(items)) <==> t in Distinct.NonEmptyKeys(NormalizedItems(items))
  {
    var xs := NormalizedItems(items);
    var out := Distinct.KeepFirst(xs);
    Distinct.KeepFirstShape(xs);
    NormalizedItemsLower(items);
    assert forall y | y in out :: Lower(y) == y;
    forall t ensures t in out <==> t in Distinct.NonEmptyKeys(xs) {
      if t in out {
        assert Lower(t) in Distinct.KeySet(out);
      }
      if t in Distinct.NonEmptyKeys(xs) {
        var y :| y in out && Lower(y) == t;
      }
    }
  }
}
