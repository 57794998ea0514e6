/**
 * The string machinery shared by the scripts' regular-expression chains.
 *
 * Three chains in the repository have the same shape: map some characters
 * to a separator, replace every run of separators by one separator
 * (`.replace(/[...]+/g, j)`), then strip separators from both ends
 * (`.trim()` or `.replace(/^-+|-+$/g, '')`).  This module defines those
 * steps literally (Collapse, Strip) next to an independent reference view
 * of a string as the list of its words (Words, Join), and proves that the
 * chain always yields the words joined by single separators (Canonical).
 */
module Text {

  /** JavaScript's `\s`, which is also the set `String.prototype.trim` removes. */
  predicate IsWs(c: char) {
    c == ' ' || c == '\t' || c == '\n' || c == '\U{000B}' || c == '\U{000C}' || c == '\r'
    || c == '\U{00A0}' || c == '\U{1680}' || ('\U{2000}' <= c <= '\U{200A}')
    || c == '\U{2028}' || c == '\U{2029}' || c == '\U{202F}' || c == '\U{205F}'
    || c == '\U{3000}' || c == '\U{FEFF}'
  }

  predicate IsUpperAscii(c: char) { 'A' <= c <= 'Z' }
  predicate IsLowerAscii(c: char) { 'a' <= c <= 'z' }
  predicate IsDigit(c: char) { '0' <= c <= '9' }

  /** `toUpperCase` on ASCII letters; other characters are left as they are. */
  function UpperChar(c: char): (r: char)
    ensures IsLowerAscii(c) ==> IsUpperAscii(r)
    ensures !IsLowerAscii(c) ==> r == c
  {
    if IsLowerAscii(c) then (c as int - 32) as char else c
  }

  /** `toLowerCase` on ASCII letters; other characters are left as they are. */
  function LowerChar(c: char): (r: char)
    ensures IsUpperAscii(c) ==> IsLowerAscii(r)
    ensures !IsUpperAscii(c) ==> r == c
  {
    if IsUpperAscii(c) then (c as int + 32) as char else c
  }

  /** No character of `w` belongs to `k`. */
  predicate Outside(w: string, k: char -> bool) {
    forall c :: c in w ==> !k(c)
  }

  /** Every element is a non-empty run of characters outside `k`. */
  predicate WordsIn(ws: seq<string>, k: char -> bool) {
    forall i :: 0 <= i < |ws| ==> ws[i] != [] && Outside(ws[i], k)
  }

  /** `s` without its leading characters of class `k`. */
  function DropLeading(s: string, k: char -> bool): (r: string)
    ensures |r| <= |s|
    ensures r == [] || !k(r[0])
  {
    if s != [] && k(s[0]) then DropLeading(s[1..], k) else s
  }

  /** `s` without its trailing characters of class `k`. */
  function DropTrailing(s: string, k: char -> bool): (r: string)
    ensures |r| <= |s|
    ensures r == [] || !k(r[|r| - 1])
  {
    if s != [] && k(s[|s| - 1]) then DropTrailing(s[..|s| - 1], k) else s
  }

  /** Removes the characters of `k` from both ends (`trim` for Whitespace). */
  function Strip(s: string, k: char -> bool): string {
    DropTrailing(DropLeading(s, k), k)
  }

  /** `s.replace(/k+/g, j)`: every maximal run of class-`k` characters becomes one `j`. */
  function Collapse(s: string, k: char -> bool, j: char): string
    decreases |s|
  {
    if s == [] then []
    else if k(s[0]) then [j] + Collapse(DropLeading(s, k), k, j)
    else [s[0]] + Collapse(s[1..], k, j)
  }

  /** The longest prefix of `s` with no character of class `k`. */
  function Span(s: string, k: char -> bool): (r: string)
    ensures |r| <= |s|
    ensures |r| < |s| ==> k(s[|r|])
    ensures r != [] <==> s != [] && !k(s[0])
  {
    if s != [] && !k(s[0]) then [s[0]] + Span(s[1..], k) else []
  }

  /** Reference view: the maximal runs of characters outside `k`, in order. */
  function Words(s: string, k: char -> bool): seq<string>
    decreases |s|
  {
    var t := DropLeading(s, k);
    if t == [] then []
    else
      var w := Span(t, k);
      [w] + Words(t[|w|..], k)
  }

  /** The words glued together with one `j` between neighbours. */
  function Join(ws: seq<string>, j: char): string {
    if ws == [] then []
    else if |ws| == 1 then ws[0]
    else ws[0] + [j] + Join(ws[1..], j)
  }

  // ---------------------------------------------------------------------
  // The helpers' shapes
  // ---------------------------------------------------------------------

  lemma {:induction false} DropLeadingSuffix(s: string, k: char -> bool)
    ensures DropLeading(s, k) == s[|s| - |DropLeading(s, k)|..]
    ensures forall i :: 0 <= i < |s| - |DropLeading(s, k)| ==> k(s[i])
    decreases |s|
  {
    if s != [] && k(s[0]) {
      DropLeadingSuffix(s[1..], k);
      assert s[1..][|s| - 1 - |DropLeading(s[1..], k)|..] == s[|s| - |DropLeading(s, k)|..];
    }
  }

  lemma {:induction false} DropTrailingPrefix(s: string, k: char -> bool)
    ensures DropTrailing(s, k) == s[..|DropTrailing(s, k)|]
    ensures forall i :: |DropTrailing(s, k)| <= i < |s| ==> k(s[i])
    decreases |s|
  {
    if s != [] && k(s[|s| - 1]) {
      DropTrailingPrefix(s[..|s| - 1], k);
      assert s[..|s| - 1][..|DropTrailing(s, k)|] == s[..|DropTrailing(s, k)|];
    }
  }

  lemma {:induction false} SpanPrefix(s: string, k: char -> bool)
    ensures Span(s, k) == s[..|Span(s, k)|]
    ensures Outside(Span(s, k), k)
    decreases |s|
  {
    if s != [] && !k(s[0]) {
      SpanPrefix(s[1..], k);
      var r := Span(s[1..], k);
      assert Span(s, k) == [s[0]] + r;
      assert [s[0]] + s[1..][..|r|] == s[..|r| + 1];
      forall c | c in Span(s, k) ensures !k(c) {
        if c != s[0] { assert c in r; }
      }
    }
  }

  // ---------------------------------------------------------------------
  // Words
  // ---------------------------------------------------------------------

  /** One unfolding of Words on a string that starts with a word. */
  lemma WordsFirst(t: string, k: char -> bool)
    requires t != [] && !k(t[0])
    ensures Words(t, k) == [Span(t, k)] + Words(t[|Span(t, k)|..], k)
  {
    assert DropLeading(t, k) == t;
  }

  lemma {:induction false} WordsAreWords(s: string, k: char -> bool)
    ensures WordsIn(Words(s, k), k)
    decreases |s|
  {
    var t := DropLeading(s, k);
    if t != [] {
      var w := Span(t, k);
      SpanPrefix(t, k);
      WordsAreWords(t[|w|..], k);
      assert Words(s, k) == [w] + Words(t[|w|..], k);
    }
  }

  /** Every character of a word is a character of the string. */
  lemma {:induction false} WordCharsFromString(s: string, k: char -> bool, i: nat, c: char)
    requires i < |Words(s, k)| && c in Words(s, k)[i]
    ensures c in s
    decreases |s|
  {
    var t := DropLeading(s, k);
    assert t != [];
    var w := Span(t, k);
    var rest := t[|w|..];
    assert Words(s, k) == [w] + Words(rest, k);
    assert c in t by {
      if i > 0 {
        assert Words(s, k)[i] == Words(rest, k)[i - 1];
        WordCharsFromString(rest, k, i - 1, c);
        InSuffix(t, |w|, c);
      } else {
        SpanPrefix(t, k);
        InPrefix(t, |w|, c);
      }
    }
    DropLeadingSuffix(s, k);
    InSuffix(s, |s| - |t|, c);
  }

  lemma InSuffix(x: string, n: nat, c: char)
    requires n <= |x| && c in x[n..]
    ensures c in x
  {
    var m :| 0 <= m < |x[n..]| && x[n..][m] == c;
    assert x[n + m] == c;
  }

  lemma InPrefix(x: string, n: nat, c: char)
    requires n <= |x| && c in x[..n]
    ensures c in x
  {
    var m :| 0 <= m < n && x[..n][m] == c;
    assert x[m] == c;
  }

  /** A leading separator contributes no word. */
  lemma WordsSkip(c: char, s: string, k: char -> bool)
    requires k(c)
    ensures Words([c] + s, k) == Words(s, k)
  {
    assert ([c] + s)[1..] == s;
    assert DropLeading([c] + s, k) == DropLeading(s, k);
  }

  lemma {:induction false} SpanConcat(x: string, z: string, k: char -> bool)
    ensures Span(x + z, k) == if |Span(x, k)| < |x| then Span(x, k) else x + Span(z, k)
    decreases |x|
  {
    if x == [] {
      assert x + z == z;
    } else if k(x[0]) {
      assert (x + z)[0] == x[0];
      assert Span(x + z, k) == [];
      assert Span(x, k) == [];
    } else {
      assert (x + z)[0] == x[0];
      assert (x + z)[1..] == x[1..] + z;
      SpanConcat(x[1..], z, k);
      assert Span(x + z, k) == [x[0]] + Span(x[1..] + z, k);
      assert Span(x, k) == [x[0]] + Span(x[1..], k);
      if |Span(x[1..], k)| < |x[1..]| {
      } else {
        assert [x[0]] + (x[1..] + Span(z, k)) == x + Span(z, k);
      }
    }
  }

  lemma {:induction false} SpanOfWord(w: string, k: char -> bool)
    requires Outside(w, k)
    ensures Span(w, k) == w
    decreases |w|
  {
    if w != [] {
      assert w[0] in w;
      assert Outside(w[1..], k) by {
        forall c | c in w[1..] ensures !k(c) { assert c in w; }
      }
      SpanOfWord(w[1..], k);
      assert Span(w, k) == [w[0]] + Span(w[1..], k);
      assert [w[0]] + w[1..] == w;
    }
  }

  /** A word followed by nothing or by a separator is the first word. */
  lemma WordsWordThen(w: string, z: string, k: char -> bool)
    requires w != [] && Outside(w, k)
    requires z == [] || k(z[0])
    ensures Words(w + z, k) == [w] + Words(z, k)
  {
    assert w[0] in w;
    assert (w + z)[0] == w[0];
    SpanOfWord(w, k);
    SpanConcat(w, z, k);
    assert Span(z, k) == [];
    assert Span(w + z, k) == w;
    assert (w + z)[|w|..] == z;
    WordsFirst(w + z, k);
  }

  /** Words of a concatenation through a separator. */
  lemma {:induction false} WordsConcat(x: string, c: char, y: string, k: char -> bool)
    requires k(c)
    ensures Words(x + [c] + y, k) == Words(x, k) + Words(y, k)
    decreases |x|
  {
    var z := x + [c] + y;
    if x == [] {
      assert z == [c] + y;
      WordsSkip(c, y, k);
      assert Words(x, k) == [];
    } else if k(x[0]) {
      WordsConcat(x[1..], c, y, k);
      WordsConcatSkip(x, c, y, k);
    } else {
      WordsConcat(x[|Span(x, k)|..], c, y, k);
      WordsConcatWord(x, c, y, k);
    }
  }

  /** The step of `WordsConcat` past a leading separator character of `x`. */
  lemma WordsConcatSkip(x: string, c: char, y: string, k: char -> bool)
    requires x != [] && k(x[0])
    requires Words(x[1..] + [c] + y, k) == Words(x[1..], k) + Words(y, k)
    ensures Words(x + [c] + y, k) == Words(x, k) + Words(y, k)
  {
    var x1 := x[1..];
    WordsSkipFirst(x, c, y, k);
    calc {
      Words(x + [c] + y, k);
      Words(x1 + [c] + y, k);
      Words(x1, k) + Words(y, k);
      Words(x, k) + Words(y, k);
    }
  }

  lemma ConsAssoc<T>(w: T, a: seq<T>, b: seq<T>)
    ensures [w] + (a + b) == ([w] + a) + b
  {
  }

  /** The step of `WordsConcat` past a leading word of `x`. */
  lemma WordsConcatWord(x: string, c: char, y: string, k: char -> bool)
    requires k(c) && x != [] && !k(x[0])
    requires Words(x[|Span(x, k)|..] + [c] + y, k) == Words(x[|Span(x, k)|..], k) + Words(y, k)
    ensures Words(x + [c] + y, k) == Words(x, k) + Words(y, k)
  {
    var w := Span(x, k);
    var rest := x[|w|..];
    WordsWordFirst(x, c, y, k);
    ConsAssoc(w, Words(rest, k), Words(y, k));
  }

  /** A leading separator character is skipped on both sides of the concatenation. */
  lemma WordsSkipFirst(x: string, c: char, y: string, k: char -> bool)
    requires x != [] && k(x[0])
    ensures Words(x + [c] + y, k) == Words(x[1..] + [c] + y, k)
    ensures Words(x, k) == Words(x[1..], k)
  {
    assert x + [c] + y == [x[0]] + (x[1..] + [c] + y);
    WordsSkip(x[0], x[1..] + [c] + y, k);
    assert x == [x[0]] + x[1..];
    WordsSkip(x[0], x[1..], k);
  }

  /** A leading word is the first word on both sides of the concatenation. */
  lemma WordsWordFirst(x: string, c: char, y: string, k: char -> bool)
    requires k(c) && x != [] && !k(x[0])
    ensures Words(x + [c] + y, k) == [Span(x, k)] + Words(x[|Span(x, k)|..] + [c] + y, k)
    ensures Words(x, k) == [Span(x, k)] + Words(x[|Span(x, k)|..], k)
  {
    var z := x + [c] + y;
    var w := Span(x, k);
    var rest := x[|w|..];
    assert Span(z, k) == w by {
      assert z == x + ([c] + y);
      SpanConcat(x, [c] + y, k);
      if |w| == |x| {
        SpanPrefix(x, k);
        assert Span([c] + y, k) == [];
      }
    }
    assert z[|w|..] == rest + [c] + y;
    assert z[0] == x[0];
    WordsFirst(z, k);
    WordsFirst(x, k);
  }

  /** Words is a left inverse of Join. */
  lemma {:induction false} WordsOfJoin(ws: seq<string>, j: char, k: char -> bool)
    requires WordsIn(ws, k) && k(j)
    ensures Words(Join(ws, j), k) == ws
    decreases |ws|
  {
    if |ws| == 1 {
      WordsWordThen(ws[0], [], k);
      assert ws[0] + [] == ws[0];
      assert Words([], k) == [];
    } else if |ws| > 1 {
      assert WordsIn(ws[1..], k) by {
        forall i | 0 <= i < |ws[1..]| ensures ws[1..][i] != [] && Outside(ws[1..][i], k) {
          assert ws[1..][i] == ws[i + 1];
        }
      }
      WordsOfJoin(ws[1..], j, k);
      var r := Join(ws[1..], j);
      assert Join(ws, j) == ws[0] + ([j] + r);
      WordsWordThen(ws[0], [j] + r, k);
      WordsSkip(j, r, k);
      assert ws == [ws[0]] + ws[1..];
    } else {
      assert Words([], k) == [];
    }
  }

  /** A joined list of words begins and ends outside the separator class. */
  lemma {:induction false} JoinEnds(ws: seq<string>, j: char, k: char -> bool)
    requires WordsIn(ws, k) && ws != []
    ensures Join(ws, j) != []
    ensures Join(ws, j)[0] == ws[0][0]
    ensures Join(ws, j)[|Join(ws, j)| - 1] == ws[|ws| - 1][|ws[|ws| - 1]| - 1]
    ensures !k(Join(ws, j)[0]) && !k(Join(ws, j)[|Join(ws, j)| - 1])
    decreases |ws|
  {
    var w := ws[0];
    assert w[0] in w;
    if |ws| > 1 {
      assert WordsIn(ws[1..], k) by {
        forall i | 0 <= i < |ws[1..]| ensures ws[1..][i] != [] && Outside(ws[1..][i], k) {
          assert ws[1..][i] == ws[i + 1];
        }
      }
      JoinEnds(ws[1..], j, k);
      var r := Join(ws[1..], j);
      var s := Join(ws, j);
      assert s == w + [j] + r;
      assert s[|s| - 1] == r[|r| - 1];
      assert ws[1..][|ws[1..]| - 1] == ws[|ws| - 1];
      var v := ws[|ws| - 1];
      assert v[|v| - 1] in v;
    } else {
      assert w[|w| - 1] in w;
    }
  }

  /** The separator occurs in a join of two or more words, and only then. */
  lemma {:induction false} JoinHasSeparator(ws: seq<string>, j: char, k: char -> bool)
    requires WordsIn(ws, k) && k(j)
    ensures (j in Join(ws, j)) <==> |ws| >= 2
  {
    if |ws| == 1 {
      assert ws[0] == Join(ws, j);
      assert Outside(ws[0], k);
    } else if |ws| >= 2 {
      assert Join(ws, j) == ws[0] + [j] + Join(ws[1..], j);
      assert Join(ws, j)[|ws[0]|] == j;
    }
  }

  /** The characters of a join are the separator and characters of the words. */
  lemma {:induction false} JoinChars(ws: seq<string>, j: char, c: char)
    requires c in Join(ws, j)
    ensures c == j || exists i :: 0 <= i < |ws| && c in ws[i]
    decreases |ws|
  {
    if |ws| == 1 {
      assert c in ws[0];
    } else if |ws| > 1 {
      var r := Join(ws[1..], j);
      assert Join(ws, j) == ws[0] + [j] + r;
      if c in ws[0] {
      } else if c == j {
      } else {
        assert c in r;
        JoinChars(ws[1..], j, c);
        var i :| 0 <= i < |ws[1..]| && c in ws[1..][i];
        assert c in ws[i + 1];
      }
    }
  }

  /** No two separators are adjacent in a join. */
  lemma {:induction false} JoinSingleSeparators(ws: seq<string>, j: char, k: char -> bool, i: nat)
    requires WordsIn(ws, k) && k(j) && i + 1 < |Join(ws, j)|
    ensures !(k(Join(ws, j)[i]) && k(Join(ws, j)[i + 1]))
    decreases |ws|
  {
    var s := Join(ws, j);
    if |ws| > 1 {
      var w := ws[0];
      var r := Join(ws[1..], j);
      assert s == w + [j] + r;
      assert WordsIn(ws[1..], k) by {
        forall n | 0 <= n < |ws[1..]| ensures ws[1..][n] != [] && Outside(ws[1..][n], k) {
          assert ws[1..][n] == ws[n + 1];
        }
      }
      JoinEnds(ws[1..], j, k);
      if i + 1 < |w| {
        assert s[i + 1] == w[i + 1] && w[i + 1] in w;
      } else if i + 1 == |w| {
        assert s[i] == w[i] && w[i] in w;
      } else if i == |w| {
        assert s[i + 1] == r[0];
      } else {
        JoinSingleSeparators(ws[1..], j, k, i - |w| - 1);
        assert s[i] == r[i - |w| - 1] && s[i + 1] == r[i - |w|];
      }
    } else {
      assert s == ws[0];
      assert s[i] in ws[0];
    }
  }

  // ---------------------------------------------------------------------
  // Collapse and Strip against the reference view
  // ---------------------------------------------------------------------

  lemma {:induction false} CollapseWord(s: string, k: char -> bool, j: char)
    requires s != [] && !k(s[0])
    ensures Collapse(s, k, j) == Span(s, k) + Collapse(s[|Span(s, k)|..], k, j)
    decreases |s|
  {
    var c := s[0];
    assert Collapse(s, k, j) == [c] + Collapse(s[1..], k, j);
    if |s| > 1 && !k(s[1]) {
      CollapseWord(s[1..], k, j);
      assert Span(s, k) == [c] + Span(s[1..], k);
      assert s[|Span(s, k)|..] == s[1..][|Span(s[1..], k)|..];
    } else {
      assert Span(s[1..], k) == [];
      assert Span(s, k) == [c];
      assert s[|Span(s, k)|..] == s[1..];
    }
  }

  /** Collapsing a string that starts with a separator run. */
  lemma CollapseRun(s: string, k: char -> bool, j: char)
    requires s != [] && k(s[0])
    ensures Collapse(s, k, j) == [j] + Collapse(DropLeading(s, k), k, j)
  {
  }

  /** Words ignore a leading separator run. */
  lemma WordsDropLeading(s: string, k: char -> bool)
    ensures Words(s, k) == Words(DropLeading(s, k), k)
  {
    var t := DropLeading(s, k);
    assert t == [] || !k(t[0]);
    assert DropLeading(t, k) == t;
  }

  /**
   * On a string that starts with a word, collapsing yields the joined
   * words, plus one separator if the string ended in a separator run.
   */
  lemma {:induction false} CollapseShape(t: string, k: char -> bool, j: char)
    requires k(j)
    requires t != [] && !k(t[0])
    ensures Words(t, k) != []
    ensures Collapse(t, k, j) ==
      Join(Words(t, k), j) + (if k(t[|t| - 1]) then [j] else [])
    decreases |t|
  {
    var rest := t[|Span(t, k)|..];
    if rest == [] {
      CollapseOneWord(t, k, j);
    } else if DropLeading(rest, k) == [] {
      CollapseWordThenRun(t, k, j);
    } else {
      SpanPrefix(t, k);
      CollapseShape(DropLeading(rest, k), k, j);
      CollapseWordThenMore(t, k, j);
    }
  }

  /** `CollapseShape` for a string that is a single word. */
  lemma CollapseOneWord(t: string, k: char -> bool, j: char)
    requires t != [] && !k(t[0]) && t[|Span(t, k)|..] == []
    ensures Words(t, k) == [t] && !k(t[|t| - 1])
    ensures Collapse(t, k, j) == t
  {
    var w := Span(t, k);
    CollapseWord(t, k, j);
    WordsFirst(t, k);
    SpanPrefix(t, k);
    assert w == t;
    assert t[|t| - 1] in w;
    assert Collapse(t[|w|..], k, j) == [] && Words(t[|w|..], k) == [];
  }

  /** `CollapseShape` for a single word followed by a separator run. */
  lemma CollapseWordThenRun(t: string, k: char -> bool, j: char)
    requires t != [] && !k(t[0])
    requires t[|Span(t, k)|..] != [] && DropLeading(t[|Span(t, k)|..], k) == []
    ensures Words(t, k) == [Span(t, k)] && k(t[|t| - 1])
    ensures Collapse(t, k, j) == Span(t, k) + [j]
  {
    var w := Span(t, k);
    var rest := t[|w|..];
    CollapseWord(t, k, j);
    WordsFirst(t, k);
    CollapseRun(rest, k, j);
    WordsDropLeading(rest, k);
    DropLeadingSuffix(rest, k);
    assert t[|t| - 1] == rest[|rest| - 1];
    assert Collapse([], k, j) == [] && Words([], k) == [];
  }

  /** The recursive step of `CollapseShape`: a word, a separator run, then more words. */
  lemma CollapseWordThenMore(t: string, k: char -> bool, j: char)
    requires k(j) && t != [] && !k(t[0])
    requires |Span(t, k)| <= |t|
    requires t[|Span(t, k)|..] != []
    requires var u := DropLeading(t[|Span(t, k)|..], k);
      u != [] && Words(u, k) != [] &&
      Collapse(u, k, j) == Join(Words(u, k), j) + (if k(u[|u| - 1]) then [j] else [])
    ensures Words(t, k) != []
    ensures Collapse(t, k, j) ==
      Join(Words(t, k), j) + (if k(t[|t| - 1]) then [j] else [])
  {
    var w := Span(t, k);
    var rest := t[|w|..];
    var u := DropLeading(rest, k);
    var ws := Words(u, k);
    var tail: string := if k(u[|u| - 1]) then [j] else [];
    assert u[|u| - 1] == t[|t| - 1] by {
      DropLeadingSuffix(rest, k);
      assert rest[|rest| - 1] == t[|t| - 1];
    }
    assert Collapse(t, k, j) == w + ([j] + Collapse(u, k, j)) by {
      CollapseWord(t, k, j);
      CollapseRun(rest, k, j);
    }
    assert Words(t, k) == [w] + ws by {
      WordsFirst(t, k);
      WordsDropLeading(rest, k);
    }
    JoinCons(w, ws, j, tail);
  }

  /** Joining a word in front of a non-empty list of words. */
  lemma JoinCons(w: string, ws: seq<string>, j: char, tail: string)
    requires ws != []
    ensures w + ([j] + (Join(ws, j) + tail)) == Join([w] + ws, j) + tail
  {
    assert ([w] + ws)[1..] == ws;
  }

  lemma DropLeadingNone(s: string, k: char -> bool)
    requires s == [] || !k(s[0])
    ensures DropLeading(s, k) == s
  {
  }

  lemma DropTrailingNone(s: string, k: char -> bool)
    requires s == [] || !k(s[|s| - 1])
    ensures DropTrailing(s, k) == s
  {
  }

  /**
   * The chain "collapse runs of k into j, then strip class p from both
   * ends" produces exactly the words of the input joined by single j's,
   * when j is itself stripped and everything stripped is a separator.
   */
  lemma Canonical(s: string, k: char -> bool, j: char, p: char -> bool)
    requires k(j) && p(j)
    requires forall c :: p(c) ==> k(c)
    ensures Strip(Collapse(s, k, j), p) == Join(Words(s, k), j)
  {
    var u := DropLeading(s, k);
    var x := Collapse(s, k, j);
    var core := Collapse(u, k, j);
    assert Words(s, k) == Words(u, k) by { WordsDropLeading(s, k); }
    assert Strip(x, p) == Strip(core, p) by {
      if s != [] && k(s[0]) {
        CollapseRun(s, k, j);
        assert x == [j] + core;
        assert DropLeading(x, p) == DropLeading(core, p) by { assert x[1..] == core; }
      } else {
        assert u == s;
      }
    }
    if u == [] {
      assert core == [] && Words(u, k) == [];
    } else {
      StripCore(u, k, j, p);
    }
  }

  /** Canonical, for a string that starts with a word. */
  lemma StripCore(u: string, k: char -> bool, j: char, p: char -> bool)
    requires k(j) && p(j)
    requires forall c :: p(c) ==> k(c)
    requires u != [] && !k(u[0])
    ensures Strip(Collapse(u, k, j), p) == Join(Words(u, k), j)
  {
    var core := Collapse(u, k, j);
    CollapseShape(u, k, j);
    var ws := Words(u, k);
    var body := Join(ws, j);
    assert !p(body[0]) && !p(body[|body| - 1]) by {
      WordsAreWords(u, k);
      JoinEnds(ws, j, k);
    }
    var tail: string := if k(u[|u| - 1]) then [j] else [];
    assert core == body + tail;
    assert DropLeading(core, p) == core by {
      assert core[0] == body[0];
      DropLeadingNone(core, p);
    }
    assert DropTrailing(core, p) == body by {
      if tail != [] {
        assert core[|core| - 1] == j;
        assert core[..|core| - 1] == body;
      } else {
        assert core == body;
      }
      DropTrailingNone(body, p);
    }
  }
  // ---------------------------------------------------------------------
  // Character-wise maps and filters
  // ---------------------------------------------------------------------

  /** Applies `f` to every character (`.replace(/[...]/g, c)`, case maps). */
  function MapChars(s: string, f: char -> char): (r: string)
    ensures |r| == |s|
    ensures forall i :: 0 <= i < |s| ==> r[i] == f(s[i])
  {
    if s == [] then [] else [f(s[0])] + MapChars(s[1..], f)
  }

  /** Keeps the characters satisfying `p` (`.replace(/[...]/g, '')`). */
  function KeepChars(s: string, p: char -> bool): (r: string)
    ensures |r| <= |s|
    ensures forall c :: c in r ==> c in s && p(c)
  {
    if s == [] then [] else (if p(s[0]) then [s[0]] else []) + KeepChars(s[1..], p)
  }

  lemma {:induction false} MapCharsConcat(x: string, y: string, f: char -> char)
    ensures MapChars(x + y, f) == MapChars(x, f) + MapChars(y, f)
  {
    assert MapChars(x + y, f) == MapChars(x, f) + MapChars(y, f);
  }

  lemma {:induction false} KeepCharsConcat(x: string, y: string, p: char -> bool)
    ensures KeepChars(x + y, p) == KeepChars(x, p) + KeepChars(y, p)
    decreases |x|
  {
    if x == [] {
      assert x + y == y;
    } else {
      assert (x + y)[0] == x[0];
      assert (x + y)[1..] == x[1..] + y;
      KeepCharsConcat(x[1..], y, p);
    }
  }

  lemma {:induction false} KeepCharsAll(s: string, p: char -> bool)
    requires forall c :: c in s ==> p(c)
    ensures KeepChars(s, p) == s
    decreases |s|
  {
    if s != [] {
      assert s[0] in s;
      assert forall c :: c in s[1..] ==> c in s;
      KeepCharsAll(s[1..], p);
      assert [s[0]] + s[1..] == s;
    }
  }

  lemma MapCharsFixed(s: string, f: char -> char)
    requires forall c :: c in s ==> f(c) == c
    ensures MapChars(s, f) == s
  {
    assert forall i :: 0 <= i < |s| ==> s[i] in s;
  }

  // ---------------------------------------------------------------------
  // More about Join and Words
  // ---------------------------------------------------------------------

  /** Joining two non-empty lists puts one separator between their joins. */
  lemma {:induction false} JoinAppend(xs: seq<string>, ys: seq<string>, j: char)
    requires xs != [] && ys != []
    ensures Join(xs + ys, j) == Join(xs, j) + [j] + Join(ys, j)
    decreases |xs|
  {
    if |xs| == 1 {
      assert (xs + ys)[1..] == ys;
    } else {
      assert (xs + ys)[1..] == xs[1..] + ys;
      JoinAppend(xs[1..], ys, j);
    }
  }

  /** A single word is its own list of words. */
  lemma WordsOfWord(w: string, k: char -> bool)
    requires w != [] && Outside(w, k)
    ensures Words(w, k) == [w]
  {
    WordsWordThen(w, [], k);
    assert w + [] == w;
  }

  lemma WordsInSlice(ws: seq<string>, k: char -> bool, a: nat, b: nat)
    requires WordsIn(ws, k) && a <= b <= |ws|
    ensures WordsIn(ws[a..b], k)
  {
    forall i | 0 <= i < b - a ensures ws[a..b][i] != [] && Outside(ws[a..b][i], k) {
      assert ws[a..b][i] == ws[a + i];
    }
  }

  lemma WordsInConcat(xs: seq<string>, ys: seq<string>, k: char -> bool)
    requires WordsIn(xs, k) && WordsIn(ys, k)
    ensures WordsIn(xs + ys, k)
  {
    forall i | 0 <= i < |xs + ys| ensures (xs + ys)[i] != [] && Outside((xs + ys)[i], k) {
      if i < |xs| { assert (xs + ys)[i] == xs[i]; } else { assert (xs + ys)[i] == ys[i - |xs|]; }
    }
  }

  /** `xs.join(sep)` for a separator string. */
  function JoinWith(ws: seq<string>, sep: string): string {
    if ws == [] then []
    else if |ws| == 1 then ws[0]
    else ws[0] + sep + JoinWith(ws[1..], sep)
  }

  /** `trim()`: JavaScript trims exactly the characters `\s` matches. */
  function Trim(s: string): string {
    Strip(s, IsWs)
  }

  /** A string with no whitespace at either end is its own trim. */
  lemma TrimFixed(s: string)
    requires s == [] || (!IsWs(s[0]) && !IsWs(s[|s| - 1]))
    ensures Trim(s) == s
  {
  }

  /** A trimmed string starts and ends with a non-blank, or is empty. */
  lemma TrimEnds(s: string)
    ensures Trim(s) == [] || (!IsWs(Trim(s)[0]) && !IsWs(Trim(s)[|Trim(s)| - 1]))
  {
    var d := DropLeading(s, IsWs);
    DropTrailingPrefix(d, IsWs);
  }

  /** An all-blank string trims to nothing. */
  lemma {:induction false} TrimBlank(s: string)
    requires forall c :: c in s ==> IsWs(c)
    ensures DropLeading(s, IsWs) == [] && Trim(s) == []
    decreases |s|
  {
    if s != [] {
      assert s[0] in s;
      assert forall c :: c in s[1..] ==> c in s;
      TrimBlank(s[1..]);
    }
  }

  lemma JoinWithFirst(ws: seq<string>, sep: string)
    requires ws != [] && ws[0] != []
    ensures JoinWith(ws, sep) != [] && JoinWith(ws, sep)[0] == ws[0][0]
  {
  }
}
