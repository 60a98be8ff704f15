/** Fuzzy keyword matching (app/processing/keywords.py): a linear-time test for edit distance at most
    one, proved against the textbook recursive Levenshtein distance. */
module KeywordMatching {
  import opened Wrappers

  function Min(x: nat, y: nat): nat {
    if x <= y then x else y
  }

  /** The reference: the usual recursive edit distance. Each step deletes from `a`, inserts from `b`,
      or replaces one head by the other (for free when they agree). */
  function Lev(a: string, b: string): nat
    decreases |a| + |b|
  {
    if a == "" then |b|
    else if b == "" then |a|
    else
      var delete := Lev(a[1..], b) + 1;
      var insert := Lev(a, b[1..]) + 1;
      var replace := Lev(a[1..], b[1..]) + (if a[0] == b[0] then 0 else 1);
      Min(delete, Min(insert, replace))
  }

  /** Number of positions at which two strings of equal length differ. */
  function Mismatches(a: string, b: string): nat
    requires |a| == |b|
  {
    if a == "" then 0
    else (if a[0] == b[0] then 0 else 1) + Mismatches(a[1..], b[1..])
  }

  /** `b` is `a` with one extra character, found by skipping at the first disagreement. */
  predicate SkipsOne(a: string, b: string)
    requires |b| == |a| + 1
  {
    if a == "" then true
    else if a[0] == b[0] then SkipsOne(a[1..], b[1..])
    else a == b[1..]
  }

  lemma {:induction false} LevSymmetric(a: string, b: string)
    ensures Lev(a, b) == Lev(b, a)
    decreases |a| + |b|
  {
    if a == "" || b == "" {
    } else {
      LevSymmetric(a[1..], b);
      LevSymmetric(a, b[1..]);
      LevSymmetric(a[1..], b[1..]);
    }
  }

  lemma {:induction false} LevAtLeastLengthGap(a: string, b: string)
    ensures |a| - |b| <= Lev(a, b) && |b| - |a| <= Lev(a, b)
    decreases |a| + |b|
  {
    if a == "" || b == "" {
    } else {
      LevAtLeastLengthGap(a[1..], b);
      LevAtLeastLengthGap(a, b[1..]);
      LevAtLeastLengthGap(a[1..], b[1..]);
    }
  }

  lemma {:induction false} LevZero(a: string, b: string)
    ensures Lev(a, b) == 0 <==> a == b
  {
    if a == "" || b == "" {
    } else {
      LevZero(a[1..], b[1..]);
      if a == b {
        assert a[1..] == b[1..];
      } else if a[0] == b[0] {
        assert a == [a[0]] + a[1..] && b == [b[0]] + b[1..];
      }
    }
  }

  lemma {:induction false} MismatchesZero(a: string, b: string)
    requires |a| == |b|
    ensures Mismatches(a, b) == 0 <==> a == b
  {
    if a == "" {
    } else {
      MismatchesZero(a[1..], b[1..]);
      assert a == [a[0]] + a[1..] && b == [b[0]] + b[1..];
    }
  }

  /** Equal lengths: an edit distance of at most one is at most one replaced character. */
  lemma {:induction false} LevEqualLengths(a: string, b: string)
    requires |a| == |b|
    ensures Min(Lev(a, b), 2) == Min(Mismatches(a, b), 2)
  {
    if a == "" {
    } else {
      LevEqualLengths(a[1..], b[1..]);
      LevAtLeastLengthGap(a[1..], b);
      LevAtLeastLengthGap(a, b[1..]);
      LevZero(a, b);
      MismatchesZero(a, b);
    }
  }

  /** Lengths one apart: an edit distance of one is one skipped character. */
  lemma {:induction false} LevLengthsOneApart(a: string, b: string)
    requires |b| == |a| + 1
    ensures Lev(a, b) >= 1
    ensures Lev(a, b) == 1 <==> SkipsOne(a, b)
  {
    LevAtLeastLengthGap(a, b);
    if a == "" {
    } else {
      LevLengthsOneApart(a[1..], b[1..]);
      LevAtLeastLengthGap(a[1..], b);
      LevAtLeastLengthGap(a[1..], b[1..]);
      LevZero(a, b[1..]);
      if a[0] == b[0] && a == b[1..] {
        // Skipping here or skipping later: the heads agree, so the tails still differ by one skip.
        assert b[1..] == [a[0]] + a[1..];
        LevPrepend(a[0], a[1..]);
      }
    }
  }

  lemma LevPrepend(c: char, x: string)
    ensures Lev(x, [c] + x) <= 1
  {
    LevZero(x, x);
    assert ([c] + x)[1..] == x;
  }

  /** The bounded distance the source computes, for all strings. */
  method LevenshteinAtMostOne(left: string, right: string) returns (distance: nat)
    ensures distance == Min(Lev(left, right), 2)
  {
    LevZero(left, right);
    LevAtLeastLengthGap(left, right);
    if left == right {
      return 0;
    }
    if |left| - |right| > 1 || |right| - |left| > 1 {
      return 2;
    }
    if |left| == |right| {
      LevEqualLengths(left, right);
      var mismatches := Mismatches(left, right);
      return if mismatches <= 1 then mismatches else 2;
    }

    var shorter, longer := left, right;
    if |left| > |right| {
      shorter, longer := right, left;
    }
    LevSymmetric(left, right);
    LevLengthsOneApart(shorter, longer);
    var mismatchSeen := false;
    var shortIndex, longIndex := 0, 0;
    while shortIndex < |shorter| && longIndex < |longer|
      invariant 0 <= shortIndex <= |shorter|
      invariant longIndex == if mismatchSeen then shortIndex + 1 else shortIndex
      invariant SkipsOne(shorter, longer) <==>
                if mismatchSeen then shorter[shortIndex..] == longer[longIndex..]
                else SkipsOne(shorter[shortIndex..], longer[longIndex..])
      decreases |longer| - longIndex
    {
      ghost var s, l := shorter[shortIndex..], longer[longIndex..];
      assert s[1..] == shorter[shortIndex + 1..] && l[1..] == longer[longIndex + 1..];
      assert s == [s[0]] + s[1..] && l == [l[0]] + l[1..];
      if shorter[shortIndex] == longer[longIndex] {
        shortIndex := shortIndex + 1;
        longIndex := longIndex + 1;
        continue;
      }
      if mismatchSeen {
        return 2;
      }
      mismatchSeen := true;
      longIndex := longIndex + 1;
    }
    return 1;
  }

  datatype KeywordRule = KeywordRule(phrase: string, weight: int, category: Option<string>)

  datatype KeywordHit = KeywordHit(
    phrase: string, matchedText: string, weight: int, category: Option<string>,
    isRegex: bool, isFuzzy: bool, distance: nat)

  predicate FuzzyMatch(phrase: string, word: string) {
    |word| >= 6 && Lev(phrase, word) <= 1
  }

  /** Reports the first word of at least six characters within one edit of a phrase that is a single word of at least
      six characters itself, with its true distance; nothing exactly when the phrase is not or no such word exists. */
  method MatchFuzzyWord(rule: KeywordRule, phrase: string, words: seq<string>) returns (hit: Option<KeywordHit>)
    ensures hit.None? <==> ' ' in phrase || |phrase| < 6
                           || forall w :: w in words && |w| >= 6 ==> Lev(phrase, w) > 1
    ensures hit.Some? ==> exists k ::
              && 0 <= k < |words| && FuzzyMatch(phrase, words[k])
              && (forall j :: 0 <= j < k ==> !FuzzyMatch(phrase, words[j]))
              && hit.value == KeywordHit(rule.phrase, words[k], rule.weight, rule.category, false,
                                         words[k] != phrase, Lev(phrase, words[k]))
  {
    if ' ' in phrase || |phrase| < 6 {
      return None;
    }
    for k := 0 to |words|
      invariant forall j :: 0 <= j < k ==> !FuzzyMatch(phrase, words[j])
    {
      var word := words[k];
      if |word| < 6 {
        continue;
      }
      var distance := LevenshteinAtMostOne(phrase, word);
      if distance <= 1 {
        LevZero(phrase, word);
        assert word in words && FuzzyMatch(phrase, word);
        return Some(KeywordHit(rule.phrase, word, rule.weight, rule.category, false, distance > 0, distance));
      }
    }
    return None;
  }
}
