/**
 * `levenshteinDistance` from the SIREN matcher: unit-cost edit distance,
 * computed by filling an (m+1) x (n+1) table in nested loops.
 *
 * `Lev` is the recurrence on prefixes that the table realises; the method
 * is proved to return `Lev` of its inputs, and the metric properties the
 * matcher relies on are proved about `Lev`.
 */
module EditDistance {

  function Min3(x: nat, y: nat, z: nat): (r: nat)
    ensures r <= x && r <= y && r <= z
    ensures r == x || r == y || r == z
  {
    if x <= y && x <= z then x else if y <= z then y else z
  }

  /** Edit distance between `a` and `b`: deletions, insertions, substitutions, each costing 1. */
  function Lev(a: string, b: string): nat
    decreases |a| + |b|
  {
    if |a| == 0 then |b|
    else if |b| == 0 then |a|
    else
      var cost := if a[|a| - 1] == b[|b| - 1] then 0 else 1;
      Min3(Lev(a[..|a| - 1], b) + 1, Lev(a, b[..|b| - 1]) + 1, Lev(a[..|a| - 1], b[..|b| - 1]) + cost)
  }

  /** Row `r` of the table holds the distances from the length-r prefix of `s1`. */
  ghost predicate RowDone(dp: array2<nat>, s1: string, s2: string, r: nat)
    requires dp.Length0 == |s1| + 1 && dp.Length1 == |s2| + 1 && r <= |s1|
    reads dp
  {
    forall c :: 0 <= c <= |s2| ==> dp[r, c] == Lev(s1[..r], s2[..c])
  }

  /** The dynamic-programming table: `dp[i, j]` ends as the distance of the length-i and length-j prefixes. */
  method LevenshteinDistance(s1: string, s2: string) returns (d: nat)
    ensures d == Lev(s1, s2)
  {
    var m := |s1|;
    var n := |s2|;
    var dp := new nat[m + 1, n + 1];
    var i := 0;
    while i <= m
      invariant 0 <= i <= m + 1
      invariant forall r :: 0 <= r < i ==> dp[r, 0] == r
    {
      dp[i, 0] := i;
      i := i + 1;
    }
    var j := 0;
    while j <= n
      invariant 0 <= j <= n + 1
      invariant forall c :: 0 <= c < j ==> dp[0, c] == c
      invariant forall r :: 0 <= r <= m ==> dp[r, 0] == r
    {
      dp[0, j] := j;
      j := j + 1;
    }
    assert RowDone(dp, s1, s2, 0);
    i := 1;
    while i <= m
      invariant 1 <= i <= m + 1
      invariant forall r :: 0 <= r < i ==> RowDone(dp, s1, s2, r)
      invariant forall r :: i <= r <= m ==> dp[r, 0] == r
    {
      FillRow(dp, s1, s2, i);
      i := i + 1;
    }
    assert RowDone(dp, s1, s2, m);
    assert s1[..m] == s1 && s2[..n] == s2;
    d := dp[m, n];
  }

  /** The inner loop: fills row `i` from row `i - 1` and the cell to the left. */
  method FillRow(dp: array2<nat>, s1: string, s2: string, i: nat)
    requires dp.Length0 == |s1| + 1 && dp.Length1 == |s2| + 1 && 1 <= i <= |s1|
    requires forall r :: 0 <= r < i ==> RowDone(dp, s1, s2, r)
    requires dp[i, 0] == i
    modifies dp
    ensures forall r :: 0 <= r <= i ==> RowDone(dp, s1, s2, r)
    ensures forall r, c :: 0 <= r <= |s1| && r != i && 0 <= c <= |s2| ==> dp[r, c] == old(dp[r, c])
  {
    var n := |s2|;
    assert dp[i, 0] == Lev(s1[..i], s2[..0]);
    var j := 1;
    while j <= n
      invariant 1 <= j <= n + 1
      invariant forall c :: 0 <= c < j ==> dp[i, c] == Lev(s1[..i], s2[..c])
      invariant forall r, c :: 0 <= r <= |s1| && r != i && 0 <= c <= n ==> dp[r, c] == old(dp[r, c])
    {
      var cost := if s1[i - 1] == s2[j - 1] then 0 else 1;
      LevStep(s1, s2, i, j);
      assert old(RowDone(dp, s1, s2, i - 1));
      assert dp[i - 1, j] == Lev(s1[..i - 1], s2[..j]);
      assert dp[i - 1, j - 1] == Lev(s1[..i - 1], s2[..j - 1]);
      var v := Min3(dp[i - 1, j] + 1, dp[i, j - 1] + 1, dp[i - 1, j - 1] + cost);
      assert v == Lev(s1[..i], s2[..j]);
      dp[i, j] := v;
      j := j + 1;
    }
    forall r | 0 <= r < i ensures RowDone(dp, s1, s2, r) {
      assert old(RowDone(dp, s1, s2, r));
    }
  }

  /** One cell of the recurrence, on prefixes of the two inputs. */
  lemma LevStep(s1: string, s2: string, i: nat, j: nat)
    requires 1 <= i <= |s1| && 1 <= j <= |s2|
    ensures Lev(s1[..i], s2[..j]) == Min3(
      Lev(s1[..i - 1], s2[..j]) + 1,
      Lev(s1[..i], s2[..j - 1]) + 1,
      Lev(s1[..i - 1], s2[..j - 1]) + (if s1[i - 1] == s2[j - 1] then 0 else 1))
  {
    assert s1[..i][..i - 1] == s1[..i - 1];
    assert s2[..j][..j - 1] == s2[..j - 1];
  }

  // ---------------------------------------------------------------------
  // Metric properties
  // ---------------------------------------------------------------------

  /** The distance is symmetric. */
  lemma {:induction false} LevSymmetric(a: string, b: string)
    ensures Lev(a, b) == Lev(b, a)
    decreases |a| + |b|
  {
    if |a| > 0 && |b| > 0 {
      var a' := a[..|a| - 1];
      var b' := b[..|b| - 1];
      LevSymmetric(a', b);
      LevSymmetric(a, b');
      LevSymmetric(a', b');
    }
  }

  /** The distance is at least the difference of the lengths. */
  lemma {:induction false} LevLowerBound(a: string, b: string)
    ensures Lev(a, b) >= |a| - |b| && Lev(a, b) >= |b| - |a|
    decreases |a| + |b|
  {
    if |a| > 0 && |b| > 0 {
      LevLowerBound(a[..|a| - 1], b);
      LevLowerBound(a, b[..|b| - 1]);
      LevLowerBound(a[..|a| - 1], b[..|b| - 1]);
    }
  }

  /** The distance is at most the longer length. */
  lemma {:induction false} LevUpperBound(a: string, b: string)
    ensures Lev(a, b) <= if |a| >= |b| then |a| else |b|
    decreases |a| + |b|
  {
    if |a| > 0 && |b| > 0 {
      LevUpperBound(a[..|a| - 1], b[..|b| - 1]);
    }
  }

  /** The distance is zero exactly between equal strings. */
  lemma LevZeroIff(a: string, b: string)
    ensures Lev(a, b) == 0 <==> a == b
  {
    if a == b {
      LevSelf(a);
    }
    if Lev(a, b) == 0 {
      LevZeroEqual(a, b);
    }
  }

  /** A string is at distance zero from itself. */
  lemma {:induction false} LevSelf(a: string)
    ensures Lev(a, a) == 0
    decreases |a|
  {
    if |a| > 0 {
      LevSelf(a[..|a| - 1]);
    }
  }

  /** Strings at distance zero are equal. */
  lemma {:induction false} LevZeroEqual(a: string, b: string)
    requires Lev(a, b) == 0
    ensures a == b
    decreases |a| + |b|
  {
    if |a| > 0 && |b| > 0 {
      var a' := a[..|a| - 1];
      var b' := b[..|b| - 1];
      LevLowerBound(a', b);
      LevLowerBound(a, b');
      assert Lev(a', b') == 0 && a[|a| - 1] == b[|b| - 1];
      LevZeroEqual(a', b');
      assert a == a' + [a[|a| - 1]] && b == b' + [b[|b| - 1]];
    }
  }
}
