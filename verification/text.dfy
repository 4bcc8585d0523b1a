/**
  Literal text replacement, the core of `String.prototype.replace` with a
  global pattern when the pattern has no regular-expression meaning and the
  replacement has no `$` sequences: matches are found left to right, they do
  not overlap, and inserted text is never scanned again.
 */
module Text {

  /** `pat` occurs in `s` starting at index `i`. */
  predicate MatchAt(s: string, pat: string, i: nat) {
    i + |pat| <= |s| && s[i..i + |pat|] == pat
  }

  /** No occurrence of `pat` in `s` starts before index `n`. */
  predicate NoMatchBefore(s: string, pat: string, n: nat) {
    forall i: nat :: i < n ==> !MatchAt(s, pat, i)
  }

  /** `pat` does not occur anywhere in `s`. */
  predicate Absent(s: string, pat: string) {
    NoMatchBefore(s, pat, |s|)
  }

  /** Replaces every leftmost, non-overlapping occurrence of `pat` in `s` by `rep`. */
  function ReplaceAll(s: string, pat: string, rep: string): string
    requires pat != []
    decreases |s|
  {
    if |s| < |pat| then s
    else if s[..|pat|] == pat then rep + ReplaceAll(s[|pat|..], pat, rep)
    else [s[0]] + ReplaceAll(s[1..], pat, rep)
  }

  lemma MatchAtShift(c: char, s: string, pat: string, i: nat)
    ensures MatchAt([c] + s, pat, i + 1) <==> MatchAt(s, pat, i)
  {
    if i + 1 + |pat| <= |[c] + s| {
      assert ([c] + s)[i + 1..i + 1 + |pat|] == s[i..i + |pat|];
    }
  }

  /** A prefix in which no occurrence starts is copied through unchanged. */
  lemma {:induction false} ReplaceAllSkip(a: string, b: string, pat: string, rep: string)
    requires pat != []
    requires NoMatchBefore(a + b, pat, |a|)
    ensures ReplaceAll(a + b, pat, rep) == a + ReplaceAll(b, pat, rep)
    decreases |a|
  {
    if a == [] {
      assert a + b == b;
    } else {
      var s := a + b;
      assert !MatchAt(s, pat, 0);
      if |s| < |pat| {
        assert ReplaceAll(b, pat, rep) == b;
      } else {
        var t := a[1..] + b;
        assert s[1..] == t;
        assert ReplaceAll(s, pat, rep) == [a[0]] + ReplaceAll(t, pat, rep);
        SkipTail(a, b, pat);
        ReplaceAllSkip(a[1..], b, pat, rep);
      }
    }
  }

  lemma SkipTail(a: string, b: string, pat: string)
    requires a != []
    requires NoMatchBefore(a + b, pat, |a|)
    ensures NoMatchBefore(a[1..] + b, pat, |a| - 1)
  {
    assert a + b == [a[0]] + (a[1..] + b);
    forall i: nat | i < |a| - 1
      ensures !MatchAt(a[1..] + b, pat, i)
    {
      MatchAtShift(a[0], a[1..] + b, pat, i);
      assert !MatchAt(a + b, pat, i + 1);
    }
  }

  /** Text containing no occurrence of the pattern is returned unchanged. */
  lemma ReplaceAllAbsent(s: string, pat: string, rep: string)
    requires pat != []
    requires Absent(s, pat)
    ensures ReplaceAll(s, pat, rep) == s
  {
    assert s + [] == s;
    ReplaceAllSkip(s, [], pat, rep);
  }

  /**
    The leftmost occurrence is replaced, and scanning resumes after it: the
    inserted `rep` is not looked at again.
   */
  lemma ReplaceAllLeftmost(a: string, pat: string, b: string, rep: string)
    requires pat != []
    requires NoMatchBefore(a + pat + b, pat, |a|)
    ensures ReplaceAll(a + pat + b, pat, rep) == a + rep + ReplaceAll(b, pat, rep)
  {
    assert a + pat + b == a + (pat + b);
    ReplaceAllSkip(a, pat + b, pat, rep);
    assert (pat + b)[..|pat|] == pat;
    assert (pat + b)[|pat|..] == b;
  }
}
