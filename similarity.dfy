/**
 * `similarity` from the SIREN matcher: a score in [0, 1] between two names,
 * compared in their normalised form.  In order: equal names score 1; if
 * one contains the other the score is shorter/longer; otherwise it is one
 * minus the edit distance over the longer length.
 */
module NameSimilarity {
  import opened Text
  import opened Normalize
  import opened EditDistance

  /** JavaScript's `s.includes(p)`: `p` occurs in `s` at some offset. */
  predicate Includes(s: string, p: string) {
    exists i :: 0 <= i <= |s| - |p| && OccursAt(s, p, i)
  }

  predicate OccursAt(s: string, p: string, i: nat) {
    i + |p| <= |s| && s[i..i + |p|] == p
  }

  function Max(x: nat, y: nat): nat {
    if x >= y then x else y
  }

  /** The score of two already normalised names. */
  function Score(s1: string, s2: string): real {
    if s1 == s2 then 1.0
    else if Includes(s1, s2) || Includes(s2, s1) then
      var shorter := if |s1| < |s2| then s1 else s2;
      var longer := if |s1| >= |s2| then s1 else s2;
      (|shorter| as real) / (|longer| as real)
    else
      var maxLen := Max(|s1|, |s2|);
      if maxLen == 0 then 1.0
      else 1.0 - (Lev(s1, s2) as real) / (maxLen as real)
  }

  /**
   * `similarity(str1, str2)`: a fraction in [0, 1] that is 1 exactly when
   * the two names normalise to the same string.
   */
  function Similarity(str1: string, str2: string): (r: real)
    ensures 0.0 <= r <= 1.0
    ensures r == 1.0 <==> NormalizeName(str1) == NormalizeName(str2)
  {
    ScoreRange(NormalizeName(str1), NormalizeName(str2));
    Score(NormalizeName(str1), NormalizeName(str2))
  }

  /** The executable form: normalise both names and run the table-filling distance. */
  method ComputeSimilarity(str1: string, str2: string) returns (r: real)
    ensures r == Similarity(str1, str2)
    ensures 0.0 <= r <= 1.0
    ensures r == 1.0 <==> NormalizeName(str1) == NormalizeName(str2)
  {
    var s1 := NormalizeName(str1);
    var s2 := NormalizeName(str2);
    if s1 == s2 {
      return 1.0;
    }
    if Includes(s1, s2) || Includes(s2, s1) {
      var shorter := if |s1| < |s2| then s1 else s2;
      var longer := if |s1| >= |s2| then s1 else s2;
      return (|shorter| as real) / (|longer| as real);
    }
    var maxLen := Max(|s1|, |s2|);
    if maxLen == 0 {
      return 1.0;
    }
    var distance := LevenshteinDistance(s1, s2);
    r := 1.0 - (distance as real) / (maxLen as real);
  }

  // ---------------------------------------------------------------------
  // Properties
  // ---------------------------------------------------------------------

  lemma Fraction(x: nat, y: nat)
    requires 0 < y && x <= y
    ensures 0.0 <= (x as real) / (y as real) <= 1.0
    ensures (x as real) / (y as real) == 1.0 <==> x == y
    ensures x == 0 ==> (x as real) / (y as real) == 0.0
  {
    var q := (x as real) / (y as real);
    assert q * (y as real) == x as real;
  }

  /** An occurrence as long as the string is the string itself. */
  lemma IncludesSameLength(s: string, p: string)
    requires Includes(s, p) && |s| == |p|
    ensures s == p
  {
    var i :| 0 <= i <= |s| - |p| && OccursAt(s, p, i);
    assert i == 0 && s[0..|s|] == s;
  }

  lemma IncludesShorter(s: string, p: string)
    requires Includes(s, p)
    ensures |p| <= |s|
  {
  }

  /** The scores of normalised names lie in [0, 1], and 1 means equal. */
  lemma ScoreRange(s1: string, s2: string)
    ensures 0.0 <= Score(s1, s2) <= 1.0
    ensures Score(s1, s2) == 1.0 <==> s1 == s2
  {
    if s1 != s2 {
      if Includes(s1, s2) || Includes(s2, s1) {
        var shorter := if |s1| < |s2| then s1 else s2;
        var longer := if |s1| >= |s2| then s1 else s2;
        if |s1| == |s2| {
          if Includes(s1, s2) { IncludesSameLength(s1, s2); } else { IncludesSameLength(s2, s1); }
        }
        assert |shorter| < |longer|;
        Fraction(|shorter|, |longer|);
      } else {
        var maxLen := Max(|s1|, |s2|);
        LevUpperBound(s1, s2);
        LevZeroIff(s1, s2);
        Fraction(Lev(s1, s2), maxLen);
      }
    }
  }

  /** The score does not depend on the order of its arguments. */
  lemma ScoreSymmetric(s1: string, s2: string)
    ensures Score(s1, s2) == Score(s2, s1)
  {
    if s1 != s2 && (Includes(s1, s2) || Includes(s2, s1)) && |s1| == |s2| {
      if Includes(s1, s2) { IncludesSameLength(s1, s2); } else { IncludesSameLength(s2, s1); }
    }
    LevSymmetric(s1, s2);
  }

  /** similarity is symmetric. */
  lemma SimilaritySymmetric(str1: string, str2: string)
    ensures Similarity(str1, str2) == Similarity(str2, str1)
  {
    ScoreSymmetric(NormalizeName(str1), NormalizeName(str2));
  }

  /**
   * When one distinct normalised name contains the other, the score is
   * shorter/longer, below 1, and 0 when the shorter one is empty.
   */
  lemma ContainmentScore(s1: string, s2: string)
    requires s1 != s2 && Includes(s1, s2)
    ensures |s2| < |s1|
    ensures Score(s1, s2) == (|s2| as real) / (|s1| as real)
    ensures Score(s1, s2) < 1.0
    ensures s2 == [] ==> Score(s1, s2) == 0.0
  {
    if |s1| == |s2| {
      IncludesSameLength(s1, s2);
    }
    Fraction(|s2|, |s1|);
  }

  /** The empty string occurs in every string. */
  lemma IncludesEmpty(s: string)
    ensures Includes(s, [])
  {
    assert OccursAt(s, [], 0);
  }

  /**
   * In the edit-distance branch the names differ, so the longer length is
   * positive and the `maxLen === 0` guard never fires.
   */
  lemma DistanceBranch(s1: string, s2: string)
    requires s1 != s2 && !Includes(s1, s2) && !Includes(s2, s1)
    ensures Max(|s1|, |s2|) > 0
    ensures Score(s1, s2) == 1.0 - (Lev(s1, s2) as real) / (Max(|s1|, |s2|) as real)
    ensures 0.0 <= Score(s1, s2) < 1.0
  {
    IncludesEmpty(s1);
    ScoreRange(s1, s2);
  }
}
