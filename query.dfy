/**
 * The Sirene search query built by `searchSirene` from a company name and
 * an optional city: `escapeQuery`, upper-casing, the phrase-or-wildcard
 * clause rule and the fixed active-entity filter.
 */
module Query {
  import opened Text

  /** The Lucene-reserved characters `escapeQuery` blanks out. */
  const Reserved: string := "+-&|!(){}[]^\"~*?:\\/"

  predicate IsReserved(c: char) {
    c in Reserved
  }

  /** `.replace(/[+\-&|!(){}[\]^"~*?:\\/]/g, ' ')`, one character at a time. */
  function ReservedToSpace(c: char): char {
    if IsReserved(c) then ' ' else c
  }

  /**
   * `escapeQuery`: blank the reserved characters, collapse whitespace, trim;
   * what is left is the words of the blanked input joined by single spaces.
   */
  function EscapeQuery(s: string): (r: string)
    ensures r == Join(Words(MapChars(s, ReservedToSpace), IsWs), ' ')
  {
    Canonical(MapChars(s, ReservedToSpace), IsWs, ' ', IsWs);
    Strip(Collapse(MapChars(s, ReservedToSpace), IsWs, ' '), IsWs)
  }

  /** `escapeQuery(s).toUpperCase()`, the term placed in a clause. */
  function SearchTerm(s: string): string {
    MapChars(EscapeQuery(s), UpperChar)
  }

  /** `field:"TERM"` for a term with a space, `field:TERM*` otherwise. */
  function Clause(field: string, term: string): string {
    if ' ' in term then field + ":\"" + term + "\"" else field + ":" + term + "*"
  }

  const ActiveFilter: string := " AND etatAdministratifUniteLegale:A"
  const NameField: string := "denominationUniteLegale"
  const CityField: string := "libelleCommuneEtablissement"

  /**
   * The query string of `searchSirene(name, city)`; the empty city stands
   * for a missing one (`null` or `''`, both falsy), which adds no clause.
   */
  function BuildQuery(name: string, city: string): (q: string)
    ensures |q| >= |ActiveFilter| && q[|q| - |ActiveFilter|..] == ActiveFilter
    ensures var nc := Clause(NameField, SearchTerm(name));
      |nc| <= |q| && q[..|nc|] == nc
    ensures city == "" ==> q == Clause(NameField, SearchTerm(name)) + ActiveFilter
  {
    var nc := Clause(NameField, SearchTerm(name));
    var head := nc + CityPart(city);
    assert head[..|nc|] == nc;
    assert (head + ActiveFilter)[..|nc|] == nc;
    head + ActiveFilter
  }

  /** The city clause, present only for a city. */
  function CityPart(city: string): string {
    if city != "" then " AND " + Clause(CityField, SearchTerm(city)) else ""
  }

  // ---------------------------------------------------------------------
  // Properties
  // ---------------------------------------------------------------------

  /**
   * The escaped name holds no reserved character and no whitespace other
   * than single inner spaces.
   */
  lemma EscapeQueryClean(s: string)
    ensures forall c :: c in EscapeQuery(s) ==> !IsReserved(c) && (IsWs(c) ==> c == ' ')
    ensures EscapeQuery(s) == [] || EscapeQuery(s)[0] != ' '
    ensures EscapeQuery(s) == [] || EscapeQuery(s)[|EscapeQuery(s)| - 1] != ' '
    ensures forall i :: 0 <= i < |EscapeQuery(s)| - 1 ==>
      !(EscapeQuery(s)[i] == ' ' && EscapeQuery(s)[i + 1] == ' ')
  {
    var m := MapChars(s, ReservedToSpace);
    var e := EscapeQuery(s);
    forall c | c in e ensures !IsReserved(c) && (IsWs(c) ==> c == ' ') {
      JoinedWordChar(m, c);
      if c != ' ' {
        var n :| 0 <= n < |m| && m[n] == c;
        assert m[n] == ReservedToSpace(s[n]);
      }
    }
    JoinedWordsSpacing(m);
  }

  /** A character of the joined words of `m` is the separator or a non-blank character of `m`. */
  lemma JoinedWordChar(m: string, c: char)
    requires c in Join(Words(m, IsWs), ' ')
    ensures c == ' ' || (c in m && !IsWs(c))
  {
    var ws := Words(m, IsWs);
    WordsAreWords(m, IsWs);
    JoinChars(ws, ' ', c);
    if c != ' ' {
      var i :| 0 <= i < |ws| && c in ws[i];
      assert !IsWs(c) by { assert Outside(ws[i], IsWs); }
      WordCharsFromString(m, IsWs, i, c);
    }
  }

  /** The joined words of `m` neither start nor end with a space, and never hold two in a row. */
  lemma JoinedWordsSpacing(m: string)
    ensures var e := Join(Words(m, IsWs), ' ');
      (e == [] || (e[0] != ' ' && e[|e| - 1] != ' ')) &&
      forall i :: 0 <= i < |e| - 1 ==> !(e[i] == ' ' && e[i + 1] == ' ')
  {
    var ws := Words(m, IsWs);
    var e := Join(ws, ' ');
    WordsAreWords(m, IsWs);
    if ws != [] {
      JoinEnds(ws, ' ', IsWs);
    }
    forall i | 0 <= i < |e| - 1 ensures !(e[i] == ' ' && e[i + 1] == ' ') {
      JoinSingleSeparators(ws, ' ', IsWs, i);
    }
  }

  /** Escaping twice is escaping once. */
  lemma EscapeQueryIdempotent(s: string)
    ensures EscapeQuery(EscapeQuery(s)) == EscapeQuery(s)
  {
    var e := EscapeQuery(s);
    var ws := Words(MapChars(s, ReservedToSpace), IsWs);
    EscapeQueryClean(s);
    MapCharsFixed(e, ReservedToSpace);
    WordsAreWords(MapChars(s, ReservedToSpace), IsWs);
    WordsOfJoin(ws, ' ', IsWs);
  }

  /** Upper-casing neither creates nor removes spaces. */
  lemma UpperKeepsSpaces(s: string)
    ensures (' ' in MapChars(s, UpperChar)) <==> (' ' in s)
  {
    var u := MapChars(s, UpperChar);
    if ' ' in s {
      var i :| 0 <= i < |s| && s[i] == ' ';
      assert u[i] == ' ';
    }
    if ' ' in u {
      var i :| 0 <= i < |u| && u[i] == ' ';
      assert s[i] == ' ';
    }
  }

  /**
   * A name is searched as a quoted phrase exactly when it has two or more
   * words once the reserved characters are blanked; otherwise (one word,
   * or none at all) it is searched with a trailing wildcard.
   */
  lemma NameClauseShape(name: string)
    ensures |Words(MapChars(name, ReservedToSpace), IsWs)| >= 2 ==>
      BuildQuery(name, "") == NameField + ":\"" + SearchTerm(name) + "\"" + ActiveFilter
    ensures |Words(MapChars(name, ReservedToSpace), IsWs)| < 2 ==>
      BuildQuery(name, "") == NameField + ":" + SearchTerm(name) + "*" + ActiveFilter
  {
    var term := SearchTerm(name);
    TermHasSpace(name);
    assert BuildQuery(name, "") == Clause(NameField, term) + ActiveFilter by {
      assert CityPart("") == [];
    }
  }

  /** The search term contains a space exactly when the name has two or more words. */
  lemma TermHasSpace(name: string)
    ensures (' ' in SearchTerm(name)) <==> |Words(MapChars(name, ReservedToSpace), IsWs)| >= 2
  {
    var words := Words(MapChars(name, ReservedToSpace), IsWs);
    WordsAreWords(MapChars(name, ReservedToSpace), IsWs);
    JoinHasSeparator(words, ' ', IsWs);
    UpperKeepsSpaces(EscapeQuery(name));
  }

  /**
   * An empty (or all-reserved) name is not rejected: it searches for every
   * denomination, `denominationUniteLegale:*`.
   */
  lemma EmptyNameSearchesEverything(name: string)
    requires forall c :: c in name ==> IsReserved(c) || IsWs(c)
    ensures BuildQuery(name, "") == NameField + ":" + "*" + ActiveFilter
  {
    var m := MapChars(name, ReservedToSpace);
    assert Words(m, IsWs) == [] by {
      assert forall i :: 0 <= i < |m| ==> IsWs(m[i]) by {
        forall i | 0 <= i < |m| ensures IsWs(m[i]) {
          assert name[i] in name;
        }
      }
      DropLeadingSuffix(m, IsWs);
      assert DropLeading(m, IsWs) == [];
    }
  }

  /**
   * The city clause: none without a city; otherwise a quoted phrase when
   * the city has two or more words and a `TERM*` prefix when it has fewer.
   */
  lemma CityClauseShape(city: string)
    ensures city == "" ==> CityPart(city) == ""
    ensures city != "" && |Words(MapChars(city, ReservedToSpace), IsWs)| >= 2 ==>
      CityPart(city) == " AND " + (CityField + ":\"" + SearchTerm(city) + "\"")
    ensures city != "" && |Words(MapChars(city, ReservedToSpace), IsWs)| < 2 ==>
      CityPart(city) == " AND " + (CityField + ":" + SearchTerm(city) + "*")
  {
    TermHasSpace(city);
  }

  /**
   * With a city, the query is the name clause, then the city clause chosen
   * by the same phrase-or-wildcard rule, then the active-entity filter.
   */
  lemma CityClauseInQuery(name: string, city: string)
    requires city != ""
    ensures |Words(MapChars(city, ReservedToSpace), IsWs)| >= 2 ==>
      BuildQuery(name, city) == Clause(NameField, SearchTerm(name))
        + (" AND " + (CityField + ":\"" + SearchTerm(city) + "\"")) + ActiveFilter
    ensures |Words(MapChars(city, ReservedToSpace), IsWs)| < 2 ==>
      BuildQuery(name, city) == Clause(NameField, SearchTerm(name))
        + (" AND " + (CityField + ":" + SearchTerm(city) + "*")) + ActiveFilter
  {
    CityClauseShape(city);
  }
}
