/**
 * `normalizeName` from the SIREN matcher: the canonical form in which
 * company and city names are compared.
 *
 * The chain is modelled step by step (upper-case, drop combining accents,
 * map every other special character to a space, delete whole-word legal
 * forms, collapse whitespace, trim) and then proved equal to the reference
 * view "the input's tokens, legal forms removed, joined by single spaces".
 */
module Normalize {
  import opened Text

  /** The French legal-form tokens the normaliser deletes. */
  const LegalForms: set<string> := {"SAS", "SA", "SARL", "SASU", "SNC", "EURL", "SCI", "GIE"}

  /** U+0300 to U+036F, the combining diacritical marks NFD splits off. */
  predicate IsCombiningMark(c: char) {
    '\U{0300}' <= c <= '\U{036F}'
  }

  predicate NotCombiningMark(c: char) {
    !IsCombiningMark(c)
  }

  /** The characters the normaliser keeps: `[A-Z0-9\s]`. */
  predicate IsNameChar(c: char) {
    IsUpperAscii(c) || IsDigit(c) || IsWs(c)
  }

  /** `.replace(/[^A-Z0-9\s]/g, ' ')`, one character at a time. */
  function SpecialToSpace(c: char): char {
    if IsNameChar(c) then c else ' '
  }

  /** The first four steps: upper-case, (NFD), strip accents, specials to spaces. */
  function Prep(s: string): (r: string)
    ensures forall c :: c in r ==> IsNameChar(c)
  {
    MapChars(KeepChars(MapChars(s, UpperChar), NotCombiningMark), SpecialToSpace)
  }

  /**
   * `.replace(/\b(SAS|SA|...)\b/g, '')` on a string over `[A-Z0-9\s]`:
   * there `\b` only falls at the edges of a maximal run of non-whitespace,
   * so a match is exactly a whole token equal to a legal form, and the
   * whitespace around it stays.
   */
  function DropLegalForms(s: string): (r: string)
    ensures (s == [] || IsWs(s[0])) ==> (r == [] || IsWs(r[0]))
    decreases |s|
  {
    if s == [] then []
    else if IsWs(s[0]) then [s[0]] + DropLegalForms(s[1..])
    else
      var w := Span(s, IsWs);
      var rest := DropLegalForms(s[|w|..]);
      if w in LegalForms then rest else w + rest
  }

  /**
   * The whole chain of `normalizeName`, as written; the result is the
   * tokens of the prepared input that are not legal forms, joined by
   * single spaces.
   */
  function NormalizeName(s: string): (r: string)
    ensures r == Join(FilterLegal(Words(Prep(s), IsWs)), ' ')
  {
    Canonical(DropLegalForms(Prep(s)), IsWs, ' ', IsWs);
    DropLegalFormsWords(Prep(s));
    Strip(Collapse(DropLegalForms(Prep(s)), IsWs, ' '), IsWs)
  }

  /** Reference view: the tokens that are not legal forms, in order. */
  function FilterLegal(ws: seq<string>): (r: seq<string>)
    ensures |r| <= |ws|
    ensures forall w :: w in r ==> w in ws && w !in LegalForms
  {
    if ws == [] then []
    else (if ws[0] in LegalForms then [] else [ws[0]]) + FilterLegal(ws[1..])
  }

  // ---------------------------------------------------------------------
  // The chain against the reference view
  // ---------------------------------------------------------------------

  lemma {:induction false} FilterLegalConcat(xs: seq<string>, ys: seq<string>)
    ensures FilterLegal(xs + ys) == FilterLegal(xs) + FilterLegal(ys)
    decreases |xs|
  {
    if xs == [] {
      assert xs + ys == ys;
    } else {
      assert (xs + ys)[0] == xs[0];
      assert (xs + ys)[1..] == xs[1..] + ys;
      FilterLegalConcat(xs[1..], ys);
    }
  }

  lemma {:induction false} FilterLegalWords(ws: seq<string>, k: char -> bool)
    requires WordsIn(ws, k)
    ensures WordsIn(FilterLegal(ws), k)
  {
    var r := FilterLegal(ws);
    forall i | 0 <= i < |r| ensures r[i] != [] && Outside(r[i], k) {
      assert r[i] in r;
      var n :| 0 <= n < |ws| && ws[n] == r[i];
    }
  }

  /** Removing legal forms a second time removes nothing. */
  lemma {:induction false} FilterLegalIdempotent(ws: seq<string>)
    ensures FilterLegal(FilterLegal(ws)) == FilterLegal(ws)
    decreases |ws|
  {
    if ws != [] {
      FilterLegalIdempotent(ws[1..]);
      var head := if ws[0] in LegalForms then [] else [ws[0]];
      assert FilterLegal(ws) == head + FilterLegal(ws[1..]);
      FilterLegalConcat(head, FilterLegal(ws[1..]));
      if ws[0] !in LegalForms {
        assert FilterLegal(head) == head by {
          assert head[1..] == [];
        }
      }
    }
  }

  /** Deleting legal-form tokens from the text deletes them from its words. */
  lemma {:induction false} DropLegalFormsWords(s: string)
    ensures Words(DropLegalForms(s), IsWs) == FilterLegal(Words(s, IsWs))
    decreases |s|
  {
    if s == [] {
    } else if IsWs(s[0]) {
      assert s == [s[0]] + s[1..];
      WordsSkip(s[0], s[1..], IsWs);
      WordsSkip(s[0], DropLegalForms(s[1..]), IsWs);
      DropLegalFormsWords(s[1..]);
    } else {
      var w := Span(s, IsWs);
      var tail := s[|w|..];
      var rest := DropLegalForms(tail);
      DropLegalFormsWords(tail);
      assert Words(s, IsWs) == [w] + Words(tail, IsWs) by { WordsFirst(s, IsWs); }
      assert FilterLegal([w] + Words(tail, IsWs))
          == (if w in LegalForms then [] else [w]) + FilterLegal(Words(tail, IsWs)) by {
        assert ([w] + Words(tail, IsWs))[1..] == Words(tail, IsWs);
      }
      if w !in LegalForms {
        assert rest == [] || IsWs(rest[0]);
        SpanPrefix(s, IsWs);
        WordsWordThen(w, rest, IsWs);
      }
    }
  }

  /** The words of a normalised name: tokens of the prepared input minus legal forms. */
  lemma NormalizeWords(s: string)
    ensures Words(NormalizeName(s), IsWs) == FilterLegal(Words(Prep(s), IsWs))
    ensures WordsIn(FilterLegal(Words(Prep(s), IsWs)), IsWs)
  {
    WordsAreWords(Prep(s), IsWs);
    FilterLegalWords(Words(Prep(s), IsWs), IsWs);
    WordsOfJoin(FilterLegal(Words(Prep(s), IsWs)), ' ', IsWs);
  }

  /** A character of a word of `s` is a character of `s`. */
  lemma WordsChars(s: string, k: char -> bool, ws: seq<string>, c: char)
    requires ws == Words(s, k)
    requires exists i :: 0 <= i < |ws| && c in ws[i]
    ensures c in s
  {
    var i :| 0 <= i < |ws| && c in ws[i];
    WordCharsFromString(s, k, i, c);
  }

  /**
   * The output uses only `A-Z`, `0-9` and single spaces, with no space at
   * either end, and none of its tokens is a legal form.
   */
  lemma NormalizeShape(s: string)
    ensures forall c :: c in NormalizeName(s) ==> IsUpperAscii(c) || IsDigit(c) || c == ' '
    ensures NormalizeName(s) == [] || NormalizeName(s)[0] != ' '
    ensures NormalizeName(s) == [] || NormalizeName(s)[|NormalizeName(s)| - 1] != ' '
    ensures forall i :: 0 <= i < |NormalizeName(s)| - 1 ==>
      !(NormalizeName(s)[i] == ' ' && NormalizeName(s)[i + 1] == ' ')
    ensures forall w :: w in Words(NormalizeName(s), IsWs) ==> w !in LegalForms
  {
    var n := NormalizeName(s);
    var ws := FilterLegal(Words(Prep(s), IsWs));
    NormalizeWords(s);
    forall c | c in n ensures IsUpperAscii(c) || IsDigit(c) || c == ' ' {
      JoinChars(ws, ' ', c);
      if c != ' ' {
        var i :| 0 <= i < |ws| && c in ws[i];
        assert ws[i] in ws;
        var m :| 0 <= m < |Words(Prep(s), IsWs)| && Words(Prep(s), IsWs)[m] == ws[i];
        WordsChars(Prep(s), IsWs, Words(Prep(s), IsWs), c);
        assert !IsWs(c) by { assert Outside(ws[i], IsWs); }
      }
    }
    if ws != [] {
      JoinEnds(ws, ' ', IsWs);
    }
    forall i | 0 <= i < |n| - 1 ensures !(n[i] == ' ' && n[i + 1] == ' ') {
      JoinSingleSeparators(ws, ' ', IsWs, i);
    }
  }

  /** Characters the later steps of the chain leave alone. */
  lemma PrepFixes(s: string)
    requires forall c :: c in s ==> IsUpperAscii(c) || IsDigit(c) || c == ' '
    ensures Prep(s) == s
  {
    MapCharsFixed(s, UpperChar);
    KeepCharsAll(s, NotCombiningMark);
    MapCharsFixed(s, SpecialToSpace);
  }

  /** normalizeName is idempotent. */
  lemma NormalizeIdempotent(s: string)
    ensures NormalizeName(NormalizeName(s)) == NormalizeName(s)
  {
    var n := NormalizeName(s);
    var ws := FilterLegal(Words(Prep(s), IsWs));
    NormalizeShape(s);
    PrepFixes(n);
    NormalizeWords(s);
    FilterLegalIdempotent(Words(Prep(s), IsWs));
  }

  /** Prep distributes over concatenation. */
  lemma PrepConcat(x: string, y: string)
    ensures Prep(x + y) == Prep(x) + Prep(y)
  {
    MapCharsConcat(x, y, UpperChar);
    KeepCharsConcat(MapChars(x, UpperChar), MapChars(y, UpperChar), NotCombiningMark);
    MapCharsConcat(KeepChars(MapChars(x, UpperChar), NotCombiningMark),
                   KeepChars(MapChars(y, UpperChar), NotCombiningMark), SpecialToSpace);
  }

  /** Every legal form is a single upper-case token. */
  lemma LegalFormIsWord(form: string)
    requires form in LegalForms
    ensures form != [] && forall c :: c in form ==> IsUpperAscii(c)
    ensures Outside(form, IsWs)
  {
    assert forall c :: c in form ==> IsUpperAscii(c);
  }

  /** A trailing legal form does not change the normalised name: "Acme SAS" ~ "Acme". */
  lemma NormalizeDropsLegalSuffix(x: string, form: string)
    requires form in LegalForms
    ensures NormalizeName(x + " " + form) == NormalizeName(x)
  {
    var p := Prep(x);
    assert Prep(x + " " + form) == p + [' '] + form by {
      assert Prep(form) == form by { PrepFixes(form); }
      assert Prep(" ") == " " by { PrepFixes(" "); }
      PrepConcat(x + " ", form);
      PrepConcat(x, " ");
    }
    assert Words(p + [' '] + form, IsWs) == Words(p, IsWs) + [form] by {
      WordsConcat(p, ' ', form, IsWs);
      LegalFormIsWord(form);
      WordsOfWord(form, IsWs);
    }
    assert FilterLegal(Words(p, IsWs) + [form]) == FilterLegal(Words(p, IsWs)) by {
      FilterLegalConcat(Words(p, IsWs), [form]);
      assert FilterLegal([form]) == [] by { assert [form][1..] == []; }
    }
  }
}
