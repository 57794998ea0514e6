/**
 * `slugify`, shared verbatim by the import script and the three deal
 * insertion scripts: lower-case, `&` to `-and-`, every run of characters
 * outside `[a-z0-9]` to one `-`, then strip hyphens from both ends.
 */
module Slug {
  import opened Text

  predicate IsSlugChar(c: char) {
    IsLowerAscii(c) || IsDigit(c)
  }

  /** The class `[^a-z0-9]` whose runs become one hyphen. */
  predicate NonSlug(c: char) {
    !IsSlugChar(c)
  }

  predicate IsDash(c: char) {
    c == '-'
  }

  /** `.replace(/[&]/g, '-and-')`. */
  function ExpandAmp(s: string): (r: string)
    ensures '&' !in s ==> r == s
  {
    if s == [] then []
    else (if s[0] == '&' then "-and-" else [s[0]]) + ExpandAmp(s[1..])
  }

  /** The characters before the hyphen runs are collapsed. */
  function Prep(s: string): string {
    ExpandAmp(MapChars(s, LowerChar))
  }

  /**
   * The whole chain of `slugify`, as written; a slug is the input's
   * `[a-z0-9]` runs (after the two maps) joined by single hyphens.
   */
  function Slugify(s: string): (r: string)
    ensures r == Join(Words(Prep(s), NonSlug), '-')
  {
    Canonical(Prep(s), NonSlug, '-', IsDash);
    Strip(Collapse(Prep(s), NonSlug, '-'), IsDash)
  }

  // ---------------------------------------------------------------------
  // Properties
  // ---------------------------------------------------------------------

  /**
   * A slug uses only `[a-z0-9-]`, neither starts nor ends with a hyphen,
   * and never has two hyphens in a row.
   */
  lemma SlugShape(s: string)
    ensures forall c :: c in Slugify(s) ==> IsSlugChar(c) || c == '-'
    ensures Slugify(s) == [] || (Slugify(s)[0] != '-' && Slugify(s)[|Slugify(s)| - 1] != '-')
    ensures forall i :: 0 <= i < |Slugify(s)| - 1 ==>
      !(Slugify(s)[i] == '-' && Slugify(s)[i + 1] == '-')
  {
    var ws := Words(Prep(s), NonSlug);
    var g := Slugify(s);
    WordsAreWords(Prep(s), NonSlug);
    forall c | c in g ensures IsSlugChar(c) || c == '-' {
      JoinChars(ws, '-', c);
      if c != '-' {
        var i :| 0 <= i < |ws| && c in ws[i];
        assert Outside(ws[i], NonSlug);
      }
    }
    if ws != [] {
      JoinEnds(ws, '-', NonSlug);
    }
    forall i | 0 <= i < |g| - 1 ensures !(g[i] == '-' && g[i + 1] == '-') {
      JoinSingleSeparators(ws, '-', NonSlug, i);
    }
  }

  /** The two maps leave a slug as it is. */
  lemma PrepFixesSlug(g: string)
    requires forall c :: c in g ==> IsSlugChar(c) || c == '-'
    ensures Prep(g) == g
  {
    MapCharsFixed(g, LowerChar);
  }

  /** slugify is idempotent. */
  lemma SlugIdempotent(s: string)
    ensures Slugify(Slugify(s)) == Slugify(s)
  {
    var g := Slugify(s);
    var ws := Words(Prep(s), NonSlug);
    SlugShape(s);
    PrepFixesSlug(g);
    WordsAreWords(Prep(s), NonSlug);
    WordsOfJoin(ws, '-', NonSlug);
  }

  lemma {:induction false} ExpandAmpConcat(x: string, y: string)
    ensures ExpandAmp(x + y) == ExpandAmp(x) + ExpandAmp(y)
    decreases |x|
  {
    if x == [] {
      assert x + y == y;
    } else {
      assert (x + y)[0] == x[0];
      assert (x + y)[1..] == x[1..] + y;
      ExpandAmpConcat(x[1..], y);
    }
  }

  /** `Join` of the ampersand's word between two word lists. */
  function Around(left: string, right: string): string {
    (if left == [] then [] else left + "-") + "and" + (if right == [] then [] else "-" + right)
  }

  /** An ampersand becomes the word `and` between hyphens: `slugify("R&D")` is `r-and-d`. */
  lemma SlugAmpersand(a: string, b: string)
    ensures Slugify(a + "&" + b) == Around(Slugify(a), Slugify(b))
  {
    var xs := Words(Prep(a), NonSlug);
    var ys := Words(Prep(b), NonSlug);
    WordsAmp(a, b);
    WordsAreWords(Prep(a), NonSlug);
    WordsAreWords(Prep(b), NonSlug);
    JoinAround(xs, ys);
  }

  lemma PrepAmp(a: string, b: string)
    ensures Prep(a + "&" + b) == Prep(a) + ['-'] + ("and" + ['-'] + Prep(b))
  {
    LowerAmp(a, b);
    ExpandAmpAround(MapChars(a, LowerChar), MapChars(b, LowerChar));
  }

  lemma LowerAmp(a: string, b: string)
    ensures MapChars(a + "&" + b, LowerChar) == MapChars(a, LowerChar) + "&" + MapChars(b, LowerChar)
  {
    MapCharsConcat(a + "&", b, LowerChar);
    MapCharsConcat(a, "&", LowerChar);
    assert MapChars("&", LowerChar) == "&";
  }

  lemma ExpandAmpAround(x: string, y: string)
    ensures ExpandAmp(x + "&" + y) == ExpandAmp(x) + ['-'] + ("and" + ['-'] + ExpandAmp(y))
  {
    ExpandAmpConcat(x + "&", y);
    ExpandAmpConcat(x, "&");
    assert ExpandAmp("&") == "-and-";
    DashAnd(ExpandAmp(x), ExpandAmp(y));
  }

  lemma DashAnd(p: string, q: string)
    ensures p + "-and-" + q == p + ['-'] + ("and" + ['-'] + q)
  {
    assert "-and-" == ['-'] + "and" + ['-'];
  }

  lemma WordsAmp(a: string, b: string)
    ensures Words(Prep(a + "&" + b), NonSlug)
      == Words(Prep(a), NonSlug) + ["and"] + Words(Prep(b), NonSlug)
  {
    PrepAmp(a, b);
    WordsAroundAnd(Prep(a), Prep(b));
  }

  /** The words of `p-and-q`: those of `p`, the word `and`, then those of `q`. */
  lemma WordsAroundAnd(p: string, q: string)
    ensures Words(p + ['-'] + ("and" + ['-'] + q), NonSlug)
      == Words(p, NonSlug) + ["and"] + Words(q, NonSlug)
  {
    WordsConcat(p, '-', "and" + ['-'] + q, NonSlug);
    WordsOfAnd(q);
    assert Words(p, NonSlug) + (["and"] + Words(q, NonSlug)) == Words(p, NonSlug) + ["and"] + Words(q, NonSlug);
  }

  /** The words of `and-` followed by `s`: the word `and`, then those of `s`. */
  lemma WordsOfAnd(s: string)
    ensures Words("and" + ['-'] + s, NonSlug) == ["and"] + Words(s, NonSlug)
  {
    assert Outside("and", NonSlug);
    assert "and" + ['-'] + s == "and" + (['-'] + s);
    WordsWordThen("and", ['-'] + s, NonSlug);
    WordsSkip('-', s, NonSlug);
  }

  lemma JoinAround(xs: seq<string>, ys: seq<string>)
    requires WordsIn(xs, NonSlug) && WordsIn(ys, NonSlug)
    ensures Join(xs + ["and"] + ys, '-') == Around(Join(xs, '-'), Join(ys, '-'))
  {
    assert Join(["and"], '-') == "and";
    if xs != [] {
      JoinAppend(xs, ["and"], '-');
      JoinEnds(xs, '-', NonSlug);
    } else {
      assert xs + ["and"] + ys == ["and"] + ys;
    }
    if ys != [] {
      JoinAppend(xs + ["and"], ys, '-');
      JoinEnds(ys, '-', NonSlug);
    } else {
      assert xs + ["and"] + ys == xs + ["and"];
    }
  }
}
