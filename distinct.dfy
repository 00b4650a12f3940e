/** First-occurrence de-duplication under ASCII case folding: the list shape that
    `normalizeTerms` (server/lib/heuristics.js) and `normalizeStringArray`
    (server/api/settings/index.post.js) both build with an output array and a `seen`
    set. Blank entries are skipped and an entry whose lower-cased form was already
    kept is skipped. */
module Distinct {
  import opened Text

  /** The lower-cased forms of the kept entries: the `seen` set of the loops. */
  function KeySet(r: seq<string>): set<string> {
    set y | y in r :: Lower(y)
  }

  /** Keeping one more entry adds its lower-cased form to the keys. */
  lemma KeySetAppend(r: seq<string>, x: string)
    ensures KeySet(r + [x]) == KeySet(r) + {Lower(x)}
  {
  }

  /** The specification: process the entries left to right, as the loops do. */
  function KeepFirst(xs: seq<string>): seq<string>
    decreases |xs|
  {
    if xs == [] then []
    else
      var r := KeepFirst(xs[..|xs| - 1]);
      var x := xs[|xs| - 1];
      if x == "" || Lower(x) in KeySet(r) then r else r + [x]
  }

  /** The lower-cased forms of the non-empty entries. */
  function NonEmptyKeys(xs: seq<string>): set<string> {
    set l | 0 <= l < |xs| && xs[l] != "" :: Lower(xs[l])
  }

  /** `xs[m]` is non-empty and no earlier non-empty entry has its lower-cased form. */
  predicate IsFirstOfKey(xs: seq<string>, m: nat)
    requires m < |xs|
  {
    xs[m] != "" && forall l | 0 <= l < m :: xs[l] == "" || Lower(xs[l]) != Lower(xs[m])
  }

  /** `r` keeps some entries of `xs`, in their order. */
  predicate IsSubsequence(r: seq<string>, xs: seq<string>)
    decreases |xs|
  {
    if r == [] then true
    else if xs == [] then false
    else if r[|r| - 1] == xs[|xs| - 1] then IsSubsequence(r[..|r| - 1], xs[..|xs| - 1])
    else IsSubsequence(r, xs[..|xs| - 1])
  }

  /** What is kept: non-empty entries of the input, in input order, with pairwise
      distinct lower-cased forms that cover every non-empty input entry. */
  lemma KeepFirstShape(xs: seq<string>)
    ensures var r := KeepFirst(xs);
      && (forall i | 0 <= i < |r| :: r[i] != "" && r[i] in xs)
      && (forall i, j | 0 <= i < j < |r| :: Lower(r[i]) != Lower(r[j]))
      && KeySet(r) == NonEmptyKeys(xs)
      && IsSubsequence(r, xs)
  {
    KeepFirstFromInput(xs);
    KeepFirstDistinct(xs);
    KeepFirstKeys(xs);
    KeepFirstSubsequence(xs);
  }

  lemma {:induction false} KeepFirstFromInput(xs: seq<string>)
    ensures forall y | y in KeepFirst(xs) :: y != "" && y in xs
    decreases |xs|
  {
    if xs != [] {
      var p := xs[..|xs| - 1];
      KeepFirstFromInput(p);
      forall y | y in p ensures y in xs {
        var l :| 0 <= l < |p| && p[l] == y;
        assert xs[l] == y;
      }
    }
  }

  lemma {:induction false} KeepFirstDistinct(xs: seq<string>)
    ensures forall i, j | 0 <= i < j < |KeepFirst(xs)| :: Lower(KeepFirst(xs)[i]) != Lower(KeepFirst(xs)[j])
    decreases |xs|
  {
    if xs != [] {
      var p := xs[..|xs| - 1];
      var x := xs[|xs| - 1];
      KeepFirstDistinct(p);
      var r0 := KeepFirst(p);
      if !(x == "" || Lower(x) in KeySet(r0)) {
        var r := r0 + [x];
        forall i, j | 0 <= i < j < |r| ensures Lower(r[i]) != Lower(r[j]) {
          if j == |r| - 1 {
            assert r[i] in r0;
          } else {
            assert r[i] == r0[i] && r[j] == r0[j];
          }
        }
      }
    }
  }

  /** One more entry adds its lower-cased form to the non-empty keys, unless blank. */
  lemma NonEmptyKeysStep(xs: seq<string>)
    requires xs != []
    ensures var x := xs[|xs| - 1];
      NonEmptyKeys(xs) == NonEmptyKeys(xs[..|xs| - 1]) + (if x == "" then {} else {Lower(x)})
  {
    var p := xs[..|xs| - 1];
    var x := xs[|xs| - 1];
    forall k | k in NonEmptyKeys(xs) ensures k in NonEmptyKeys(p) + (if x == "" then {} else {Lower(x)}) {
      var l :| 0 <= l < |xs| && xs[l] != "" && Lower(xs[l]) == k;
      if l < |p| { assert p[l] == xs[l]; }
    }
    forall k | k in NonEmptyKeys(p) ensures k in NonEmptyKeys(xs) {
      var l :| 0 <= l < |p| && p[l] != "" && Lower(p[l]) == k;
      assert xs[l] == p[l];
    }
    if x != "" { assert Lower(xs[|xs| - 1]) in NonEmptyKeys(xs); }
  }

  lemma {:induction false} KeepFirstKeys(xs: seq<string>)
    ensures KeySet(KeepFirst(xs)) == NonEmptyKeys(xs)
    decreases |xs|
  {
    if xs != [] {
      var p := xs[..|xs| - 1];
      var x := xs[|xs| - 1];
      KeepFirstKeys(p);
      NonEmptyKeysStep(xs);
      var r0 := KeepFirst(p);
      if !(x == "" || Lower(x) in KeySet(r0)) {
        KeySetAppend(r0, x);
      }
    }
  }

  lemma {:induction false} KeepFirstSubsequence(xs: seq<string>)
    ensures IsSubsequence(KeepFirst(xs), xs)
    decreases |xs|
  {
    if xs != [] {
      var p := xs[..|xs| - 1];
      var x := xs[|xs| - 1];
      KeepFirstSubsequence(p);
      var r0 := KeepFirst(p);
      assert p + [x] == xs;
      if x == "" || Lower(x) in KeySet(r0) {
        SubsequenceExtend(r0, p, x);
      } else {
        var r := r0 + [x];
        assert r[..|r| - 1] == r0;
      }
    }
  }

  lemma {:induction false} SubsequenceExtend(r: seq<string>, p: seq<string>, x: string)
    requires IsSubsequence(r, p)
    ensures IsSubsequence(r, p + [x])
    decreases |p|, 1
  {
    var xs := p + [x];
    assert xs[..|xs| - 1] == p;
    if r != [] && r[|r| - 1] == x {
      SubsequenceDropLast(r, p);
    }
  }

  lemma {:induction false} SubsequenceDropLast(r: seq<string>, xs: seq<string>)
    requires r != [] && IsSubsequence(r, xs)
    ensures IsSubsequence(r[..|r| - 1], xs)
    decreases |xs|, 0
  {
    if xs != [] {
      var rr := r[..|r| - 1];
      if r[|r| - 1] == xs[|xs| - 1] {
        if rr != [] {
          SubsequenceDropLast(rr, xs[..|xs| - 1]);
        }
        SubsequenceExtend(rr, xs[..|xs| - 1], xs[|xs| - 1]);
        assert xs[..|xs| - 1] + [xs[|xs| - 1]] == xs;
      } else {
        SubsequenceDropLast(r, xs[..|xs| - 1]);
        SubsequenceExtend(rr, xs[..|xs| - 1], xs[|xs| - 1]);
        assert xs[..|xs| - 1] + [xs[|xs| - 1]] == xs;
      }
    }
  }

  /** The first entry of each case-folded class is the one kept, with its own casing. */
  lemma {:induction false} FirstOccurrenceKept(xs: seq<string>, m: nat)
    requires m < |xs| && IsFirstOfKey(xs, m)
    ensures xs[m] in KeepFirst(xs)
    decreases |xs|
  {
    var p := xs[..|xs| - 1];
    if m < |xs| - 1 {
      assert IsFirstOfKey(p, m) by {
        forall l | 0 <= l < m ensures p[l] == "" || Lower(p[l]) != Lower(p[m]) {
          assert p[l] == xs[l];
        }
      }
      FirstOccurrenceKept(p, m);
    } else {
      KeepFirstShape(p);
    }
  }
}
