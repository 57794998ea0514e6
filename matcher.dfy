/**
 * `findBestMatch` from the SIREN matcher: score every registry candidate
 * against the company, keep the first one with the strictly greatest
 * positive score, and grade it HIGH, MEDIUM or LOW.
 */
module Matcher {
  import opened Wrappers
  import opened Normalize
  import opened NameSimilarity

  /**
   * One establishment returned by the registry.  A missing denomination,
   * sigle or city is the empty string, as the `|| ''` defaults make it.
   */
  datatype Candidate = Candidate(
    denomination: string,
    sigle: string,
    city: string,
    siege: bool,
    siren: string,
    siret: string)

  datatype Confidence = High | Medium | Low

  /** The best candidate with the scores that selected it. */
  datatype Scored = Scored(candidate: Candidate, nameSimilarity: real, cityMatch: bool, score: real)

  datatype Match = Match(best: Scored, confidence: Confidence)

  /** The better of the denomination and (when present) sigle similarities. */
  function NameSim(name: string, c: Candidate): real {
    var d := Similarity(name, c.denomination);
    var s := if c.sigle != "" then Similarity(name, c.sigle) else 0.0;
    if d >= s then d else s
  }

  /** Both cities are present and normalise to the same string. */
  predicate CityMatch(city: string, c: Candidate) {
    city != "" && c.city != "" && NormalizeName(city) == NormalizeName(c.city)
  }

  /** nameSim, plus 0.2 for a matching city, plus 0.1 for a headquarters. */
  function TotalScore(name: string, city: string, c: Candidate): real {
    NameSim(name, c) + (if CityMatch(city, c) then 0.2 else 0.0) + (if c.siege then 0.1 else 0.0)
  }

  function ScoredOf(name: string, city: string, c: Candidate): Scored {
    Scored(c, NameSim(name, c), CityMatch(city, c), TotalScore(name, city, c))
  }

  /** The ordered thresholds on the winner's name similarity. */
  function Tier(sim: real, cityMatch: bool): (r: Confidence)
    ensures r == High <==> sim >= 0.98 || (sim >= 0.95 && cityMatch)
    ensures r == Low <==> sim < 0.8 && (sim < 0.6 || !cityMatch)
  {
    if sim >= 0.98 then High
    else if sim >= 0.95 && cityMatch then High
    else if sim >= 0.8 || (sim >= 0.6 && cityMatch) then Medium
    else Low
  }

  /** The scored form of every candidate, in order. */
  function ScoresOf(name: string, city: string, rs: seq<Candidate>): (r: seq<Scored>)
    ensures |r| == |rs|
    ensures forall j {:trigger rs[j]} :: 0 <= j < |rs| ==> r[j] == ScoredOf(name, city, rs[j])
  {
    seq(|rs|, j requires 0 <= j < |rs| => ScoredOf(name, city, rs[j]))
  }

  /** `sc` holds the scored form of every candidate, in order. */
  predicate Agrees(name: string, city: string, results: seq<Candidate>, sc: seq<Scored>) {
    |sc| == |results|
    && forall j {:trigger results[j]} :: 0 <= j < |results| ==> sc[j] == ScoredOf(name, city, results[j])
  }

  /** `k` holds a greatest score, strictly greater than every earlier one. */
  predicate IsBest(sc: seq<Scored>, k: int) {
    0 <= k < |sc|
    && (forall j :: 0 <= j < |sc| ==> sc[j].score <= sc[k].score)
    && (forall j :: 0 <= j < k ==> sc[j].score < sc[k].score)
  }

  /** The loop body's scoring, with the similarity computed by the table-filling method. */
  method ScoreCandidate(name: string, city: string, c: Candidate) returns (s: Scored)
    ensures s == ScoredOf(name, city, c)
    ensures 0.0 <= s.nameSimilarity <= 1.0
    ensures 0.0 <= s.score <= 1.3
  {
    var nameSim := ComputeNameSim(name, c);
    var cityMatch := CityMatch(city, c);
    var cityBonus := if cityMatch then 0.2 else 0.0;
    var hqBonus := if c.siege then 0.1 else 0.0;
    s := Scored(c, nameSim, cityMatch, nameSim + cityBonus + hqBonus);
    ScoreBounds(name, city, c);
  }

  /** The denomination similarity, or the sigle's when a sigle is present and scores higher. */
  method ComputeNameSim(name: string, c: Candidate) returns (nameSim: real)
    ensures nameSim == NameSim(name, c)
  {
    var d := ComputeSimilarity(name, c.denomination);
    var g := 0.0;
    if c.sigle != "" {
      g := ComputeSimilarity(name, c.sigle);
    }
    nameSim := if d >= g then d else g;
  }

  /** Some position of a non-empty score list is a first greatest one. */
  lemma {:induction false} BestExists(sc: seq<Scored>)
    requires |sc| > 0
    ensures exists k :: IsBest(sc, k)
    decreases |sc|
  {
    if |sc| > 1 {
      var init := sc[..|sc| - 1];
      BestExists(init);
      var k :| IsBest(init, k);
      assert forall j :: 0 <= j < |init| ==> init[j] == sc[j];
      if sc[|sc| - 1].score > sc[k].score {
        assert IsBest(sc, |sc| - 1);
      } else {
        assert IsBest(sc, k);
      }
    } else {
      assert IsBest(sc, 0);
    }
  }

  /**
   * What the scan selects from a list of scores: nothing when every score
   * is 0 (no candidate, or none scoring at all), otherwise the first
   * greatest-scoring entry with its tier.
   */
  ghost function BestOf(sc: seq<Scored>): (m: Option<Match>)
    ensures m.None? <==> forall j :: 0 <= j < |sc| ==> sc[j].score == 0.0
    ensures m.Some? ==> exists k :: IsBest(sc, k) && m.value.best == sc[k]
    ensures m.Some? ==> m.value.confidence == Tier(m.value.best.nameSimilarity, m.value.best.cityMatch)
  {
    if forall j :: 0 <= j < |sc| ==> sc[j].score == 0.0 then None
    else
      BestExists(sc);
      var k :| IsBest(sc, k);
      Some(Match(sc[k], Tier(sc[k].nameSimilarity, sc[k].cityMatch)))
  }

  /** What `findBestMatch` returns, as a definition. */
  ghost function MatchOf(name: string, city: string, results: seq<Candidate>): Option<Match> {
    BestOf(ScoresOf(name, city, results))
  }

  /** Scores the `i`-th candidate; `sc` only names the result for the caller's invariants. */
  method ScoreAt(name: string, city: string, results: seq<Candidate>, i: int, ghost sc: seq<Scored>)
    returns (s: Scored)
    requires 0 <= i < |results| && Agrees(name, city, results, sc)
    ensures s == sc[i] && s.score >= 0.0
  {
    s := ScoreCandidate(name, city, results[i]);
  }

  /**
   * The strict-maximum scan.  No candidate, or no candidate with a
   * positive score, gives None; otherwise the result is the first candidate
   * with the greatest score, graded by `Tier`.
   */
  method FindBestMatch(name: string, city: string, results: seq<Candidate>) returns (m: Option<Match>)
    ensures var sc := ScoresOf(name, city, results);
      m.None? <==> forall j :: 0 <= j < |sc| ==> sc[j].score == 0.0
    ensures var sc := ScoresOf(name, city, results);
      m.Some? ==> exists k :: (IsBest(sc, k) && m.value.best == sc[k]
        && m.value.confidence == Tier(sc[k].nameSimilarity, sc[k].cityMatch))
    ensures m == MatchOf(name, city, results)
  {
    ghost var sc := ScoresOf(name, city, results);
    if |results| == 0 {
      return None;
    }
    var bestMatch, k := Scan(name, city, results, sc);
    if bestMatch.None? {
      return None;
    }
    var b := bestMatch.value;
    m := Some(Match(b, Tier(b.nameSimilarity, b.cityMatch)));
    forall k' | IsBest(sc, k') ensures k' == k {
      BestUnique(sc, k', k);
    }
  }

  /**
   * The loop of the scan: `bestScore` starts at 0 and only a strictly
   * greater score replaces the current best.  `sc` names the scores the
   * loop computes, so that the invariants need not unfold the scoring.
   */
  method Scan(name: string, city: string, results: seq<Candidate>, ghost sc: seq<Scored>)
    returns (bestMatch: Option<Scored>, ghost k: int)
    requires |sc| == |results|
    requires Agrees(name, city, results, sc)
    ensures bestMatch.None? <==> forall j :: 0 <= j < |sc| ==> sc[j].score == 0.0
    ensures bestMatch.Some? ==> IsBest(sc, k) && bestMatch.value == sc[k]
  {
    var bestScore := 0.0;
    bestMatch := None;
    k := 0;
    var i := 0;
    while i < |results|
      invariant 0 <= i <= |results|
      invariant forall j :: 0 <= j < i ==> sc[j].score >= 0.0
      invariant bestMatch.None? ==> (bestScore == 0.0
        && forall j :: 0 <= j < i ==> sc[j].score == 0.0)
      invariant bestMatch.Some? ==> (0 <= k < i
        && bestMatch.value == sc[k]
        && bestScore == sc[k].score && bestScore > 0.0
        && (forall j :: 0 <= j < i ==> sc[j].score <= bestScore)
        && (forall j :: 0 <= j < k ==> sc[j].score < bestScore))
    {
      var s := ScoreAt(name, city, results, i, sc);
      if s.score > bestScore {
        bestScore := s.score;
        bestMatch := Some(s);
        k := i;
      }
      i := i + 1;
    }
  }

  // ---------------------------------------------------------------------
  // Properties
  // ---------------------------------------------------------------------

  /** Every total score lies in [0, 1.3]. */
  lemma ScoreBounds(name: string, city: string, c: Candidate)
    ensures 0.0 <= NameSim(name, c) <= 1.0
    ensures 0.0 <= TotalScore(name, city, c) <= 1.3
  {
  }

  /** At most one position satisfies IsBest: the selection is determined. */
  lemma BestUnique(sc: seq<Scored>, k1: int, k2: int)
    requires IsBest(sc, k1) && IsBest(sc, k2)
    ensures k1 == k2
  {
    BestDominates(sc, k1, k2);
    BestDominates(sc, k2, k1);
  }

  lemma BestDominates(sc: seq<Scored>, k: int, j: int)
    requires IsBest(sc, k) && 0 <= j < |sc|
    ensures sc[j].score <= sc[k].score
    ensures j < k ==> sc[j].score < sc[k].score
  {
  }

  /**
   * Ties go to the first candidate, so the result depends on the order of
   * the registry's answer: two headquarters that differ only in their
   * SIREN tie with a positive score, and whichever comes first is the only
   * one that can be selected.
   */
  lemma OrderDecidesTies(name: string, city: string, a: Candidate, other: string)
    requires a.siege && other != a.siren
    ensures var b := a.(siren := other);
      var ab := ScoresOf(name, city, [a, b]);
      var ba := ScoresOf(name, city, [b, a]);
      IsBest(ab, 0) && ab[0].candidate.siren == a.siren
      && IsBest(ba, 0) && ba[0].candidate.siren == other
      && (forall k :: IsBest(ab, k) ==> k == 0)
      && (forall k :: IsBest(ba, k) ==> k == 0)
  {
    var b := a.(siren := other);
    var sa := ScoredOf(name, city, a);
    var sb := ScoredOf(name, city, b);
    SirenNotScored(name, city, a, other);
    ScoresOfPair(name, city, a, b);
    ScoresOfPair(name, city, b, a);
    FirstOfTieIsBest(sa, sb);
    FirstOfTieIsBest(sb, sa);
  }

  /** The scores of a two-candidate list. */
  lemma ScoresOfPair(name: string, city: string, x: Candidate, y: Candidate)
    ensures ScoresOf(name, city, [x, y]) == [ScoredOf(name, city, x), ScoredOf(name, city, y)]
  {
  }

  /** The SIREN plays no part in the score. */
  lemma SirenNotScored(name: string, city: string, a: Candidate, other: string)
    ensures ScoredOf(name, city, a.(siren := other)).score == ScoredOf(name, city, a).score
  {
    var b := a.(siren := other);
    assert b.denomination == a.denomination && b.sigle == a.sigle;
    assert b.city == a.city && b.siege == a.siege;
  }

  /** Of two equal scores, the first is the best and the only best. */
  lemma FirstOfTieIsBest(s1: Scored, s2: Scored)
    requires s1.score == s2.score
    ensures IsBest([s1, s2], 0)
    ensures forall k :: IsBest([s1, s2], k) ==> k == 0
  {
    forall k | IsBest([s1, s2], k) ensures k == 0 {
      BestUnique([s1, s2], k, 0);
    }
  }

  /** Rank of a tier, LOW < MEDIUM < HIGH. */
  function Rank(t: Confidence): nat {
    match t
    case Low => 0
    case Medium => 1
    case High => 2
  }

  /** A higher name similarity never yields a lower tier. */
  lemma TierMonotone(s: real, t: real, cityMatch: bool)
    requires s <= t
    ensures Rank(Tier(s, cityMatch)) <= Rank(Tier(t, cityMatch))
  {
  }

  /** A matching city never lowers the tier. */
  lemma TierCityHelps(s: real)
    ensures Rank(Tier(s, false)) <= Rank(Tier(s, true))
  {
  }

  /**
   * Boundary cases of the ordered thresholds: a perfect name is HIGH even
   * without the city; 0.97 needs the city to be HIGH; 0.7 needs it to be
   * MEDIUM.
   */
  lemma TierExamples()
    ensures Tier(0.98, false) == High
    ensures Tier(0.97, false) == Medium && Tier(0.97, true) == High
    ensures Tier(0.7, false) == Low && Tier(0.7, true) == Medium
    ensures Tier(0.59, true) == Low
  {
  }
}
