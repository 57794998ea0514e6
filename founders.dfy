/**
 * `parseFounders` from the import script: split a founders cell such as
 * "Ada Lovelace (https://linkedin.com/in/ada), Alan Turing" into
 * `{full_name, linkedin_url}` records.
 *
 * The two regular expressions are modelled by what they match:
 * `split(/,\s*(?=[A-Z])/)` by `SplitParts`, the anchored
 * `^(.+?)\s*\(?(https?:\/\/[^\s)]+)\)?$` by `LinkedinMatch`, and
 * `replace(/\s*\([^)]*$/, '')` by `CutParen`.  The loop over the parts is
 * the method `ParseFounders`, proved equal to `FoundersOf`.
 */
module Founders {
  import opened Wrappers
  import opened Text

  /** One founder record; a `null` LinkedIn URL is `None`. */
  datatype Founder = Founder(fullName: string, linkedinUrl: Option<string>)

  /** The characters `.` does not match. */
  predicate IsLineTerminator(c: char) {
    c == '\n' || c == '\r' || c == '\U{2028}' || c == '\U{2029}'
  }

  // ---------------------------------------------------------------------
  // split(/,\s*(?=[A-Z])/)
  // ---------------------------------------------------------------------

  /** A match of `,\s*(?=[A-Z])` starts here: a comma, blanks, then `A`-`Z`. */
  predicate IsSplitAt(s: string) {
    s != [] && s[0] == ','
    && var t := DropLeading(s[1..], IsWs);
       t != [] && IsUpperAscii(t[0])
  }

  /**
   * The pieces of the split: the comma and the blanks after it are
   * consumed, the capital letter starts the next piece.
   */
  function SplitParts(s: string): (parts: seq<string>)
    ensures |parts| >= 1
    decreases |s|
  {
    if s == [] then [""]
    else if IsSplitAt(s) then [""] + SplitParts(DropLeading(s[1..], IsWs))
    else
      var rest := SplitParts(s[1..]);
      [[s[0]] + rest[0]] + rest[1..]
  }

  // ---------------------------------------------------------------------
  // ^(.+?)\s*\(?(https?:\/\/[^\s)]+)\)?$
  // ---------------------------------------------------------------------

  /** `[^\s)]`. */
  predicate IsUrlBodyChar(c: char) {
    !IsWs(c) && c != ')'
  }

  /** The whole of `u` matches `https?:\/\/[^\s)]+`. */
  predicate IsUrl(u: string) {
    (|u| > 7 && u[..7] == "http://" && forall c :: c in u[7..] ==> IsUrlBodyChar(c))
    || (|u| > 8 && u[..8] == "https://" && forall c :: c in u[8..] ==> IsUrlBodyChar(c))
  }

  /**
   * Whether `u` matches `\s*\(?(https?:\/\/[^\s)]+)\)?$`, and the second
   * group if it does.  Each optional part is forced: the blanks are all
   * taken, a `(` must be taken, and a final `)` cannot belong to the URL.
   */
  function UrlTail(u: string): (r: Option<string>)
    ensures r.Some? ==> IsUrl(r.value)
  {
    if IsUrl(UrlCore(u)) then Some(UrlCore(u)) else None
  }

  /** What is left for the second group once the blanks and parentheses are set aside. */
  function UrlCore(u: string): string {
    var a := DropLeading(u, IsWs);
    var b := if a != [] && a[0] == '(' then a[1..] else a;
    if b != [] && b[|b| - 1] == ')' then b[..|b| - 1] else b
  }

  /**
   * The lazy `(.+?)`: try the first group `t[..k]` for k = 1, 2, ... until
   * the rest matches; `.` stops at a line terminator.
   */
  function UrlFrom(t: string, k: nat): (r: Option<(string, string)>)
    requires k >= 1
    ensures r.Some? ==> r.value.0 != [] && |r.value.0| <= |t| && r.value.0 == t[..|r.value.0|]
    ensures r.Some? ==> IsUrl(r.value.1)
    decreases |t| - k
  {
    if k > |t| then None
    else if IsLineTerminator(t[k - 1]) then None
    else match UrlTail(t[k..])
      case Some(url) => Some((t[..k], url))
      case None => UrlFrom(t, k + 1)
  }

  /** The two groups of the LinkedIn pattern, if it matches. */
  function LinkedinMatch(t: string): Option<(string, string)> {
    UrlFrom(t, 1)
  }

  // ---------------------------------------------------------------------
  // replace(/\s*\([^)]*$/, '')
  // ---------------------------------------------------------------------

  /** The first `(` with no `)` after it, searching from `q`. */
  function UnclosedFrom(t: string, q: nat): (r: Option<nat>)
    ensures r.Some? ==> q <= r.value < |t| && t[r.value] == '(' && ')' !in t[r.value + 1..]
    decreases |t| - q
  {
    if q >= |t| then None
    else if t[q] == '(' && ')' !in t[q + 1..] then Some(q)
    else UnclosedFrom(t, q + 1)
  }

  /**
   * The text before a trailing unclosed `(`: the earliest match of the
   * pattern starts with the blanks before the first such parenthesis.
   */
  function CutParen(t: string): string {
    match UnclosedFrom(t, 0)
    case None => t
    case Some(q) => DropTrailing(t[..q], IsWs)
  }

  // ---------------------------------------------------------------------
  // The parse
  // ---------------------------------------------------------------------

  /** What the loop body makes of one piece of the split. */
  function ParsePart(part: string): (r: Option<Founder>)
    ensures Trim(part) == [] ==> r == None
    ensures r.Some? ==> r.value.fullName != [] && Trim(r.value.fullName) == r.value.fullName
    ensures r.Some? && r.value.linkedinUrl.Some? ==> IsUrl(r.value.linkedinUrl.value)
  {
    var trimmed := Trim(part);
    if trimmed == [] then None
    else match LinkedinMatch(trimmed)
      case Some((name, url)) =>
        TrimEnds(part);
        assert name[0] == trimmed[0];
        TrimNonEmpty(name);
        TrimEnds(name);
        TrimFixed(Trim(name));
        UrlTrimmed(url);
        Some(Founder(Trim(name), Some(Trim(url))))
      case None =>
        var clean := Trim(CutParen(trimmed));
        TrimEnds(CutParen(trimmed));
        TrimFixed(clean);
        if clean == [] then None else Some(Founder(clean, None))
  }

  /** The founders among the parse results, in order. */
  function Somes(os: seq<Option<Founder>>): (fs: seq<Founder>)
    ensures |fs| <= |os|
    ensures forall f :: f in fs ==> Some(f) in os
    decreases |os|
  {
    if os == [] then []
    else
      var rest := Somes(os[..|os| - 1]);
      match os[|os| - 1]
      case None => rest
      case Some(f) => rest + [f]
  }

  /** The parse of every piece, in order. */
  function ParseEach(parts: seq<string>): (os: seq<Option<Founder>>)
    ensures |os| == |parts|
    ensures forall i {:trigger os[i]} :: 0 <= i < |parts| ==> os[i] == ParsePart(parts[i])
  {
    seq(|parts|, i requires 0 <= i < |parts| => ParsePart(parts[i]))
  }

  /** The founders the loop collects from the pieces, in order. */
  function CollectParts(parts: seq<string>): (fs: seq<Founder>)
    ensures |fs| <= |parts|
    ensures forall f :: f in fs ==> f.fullName != []
  {
    var os := ParseEach(parts);
    assert forall f :: Some(f) in os ==> f.fullName != [] by {
      forall f | Some(f) in os ensures f.fullName != [] {
        var i :| 0 <= i < |os| && os[i] == Some(f);
      }
    }
    Somes(os)
  }

  /** `parseFounders` as a definition: no founders for a blank cell. */
  function FoundersOf(s: string): seq<Founder> {
    if Trim(s) == [] then [] else CollectParts(SplitParts(s))
  }

  /** `parseFounders`: split, then push the record of every usable piece. */
  method ParseFounders(foundersString: string) returns (founders: seq<Founder>)
    ensures founders == FoundersOf(foundersString)
    ensures forall f :: f in founders ==> f.fullName != []
    ensures |founders| <= |SplitParts(foundersString)|
  {
    if Trim(foundersString) == [] {
      return [];
    }
    founders := [];
    var parts := SplitParts(foundersString);
    var i := 0;
    while i < |parts|
      invariant 0 <= i <= |parts|
      invariant founders == CollectParts(parts[..i])
    {
      CollectStep(parts, i);
      var f := ParsePart(parts[i]);
      if f.Some? {
        founders := founders + [f.value];
      }
      i := i + 1;
    }
    assert parts[..i] == parts;
  }

  // ---------------------------------------------------------------------
  // Properties
  // ---------------------------------------------------------------------

  /** One more piece adds its founder, if it parses to one. */
  lemma CollectStep(parts: seq<string>, i: int)
    requires 0 <= i < |parts|
    ensures CollectParts(parts[..i + 1]) == CollectParts(parts[..i])
      + (if ParsePart(parts[i]).Some? then [ParsePart(parts[i]).value] else [])
  {
    var os := ParseEach(parts[..i + 1]);
    assert os[..i] == ParseEach(parts[..i]);
    assert os[i] == ParsePart(parts[i]);
  }

  /** A null, empty or blank cell has no founders. */
  lemma BlankHasNoFounders(s: string)
    requires forall c :: c in s ==> IsWs(c)
    ensures FoundersOf(s) == []
  {
    TrimBlank(s);
  }

  /** Where no comma is followed by blanks and `A`-`Z`, nothing is split. */
  lemma {:induction false} NoSplitPoint(s: string)
    requires forall i :: 0 <= i < |s| ==> !IsSplitAt(s[i..])
    ensures SplitParts(s) == [s]
    decreases |s|
  {
    if s != [] {
      assert !IsSplitAt(s[0..]) && s[0..] == s;
      forall i | 0 <= i < |s[1..]| ensures !IsSplitAt(s[1..][i..]) {
        assert s[1..][i..] == s[i + 1..];
      }
      NoSplitPoint(s[1..]);
      assert [s[0]] + s[1..] == s;
    }
  }

  /** A comma-free prefix stays in the first piece. */
  lemma {:induction false} SplitCommaFree(x: string, r: string)
    requires ',' !in x
    ensures SplitParts(x + r) == [x + SplitParts(r)[0]] + SplitParts(r)[1..]
    decreases |x|
  {
    if x != [] {
      assert (x + r)[0] == x[0];
      assert (x + r)[1..] == x[1..] + r;
      SplitCommaFree(x[1..], r);
      assert [x[0]] + (x[1..] + SplitParts(r)[0]) == x + SplitParts(r)[0];
    } else {
      assert x + r == r;
      assert x + SplitParts(r)[0] == SplitParts(r)[0];
      assert SplitParts(r) == [SplitParts(r)[0]] + SplitParts(r)[1..];
    }
  }

  /** ", " before a capital letter is a split point. */
  lemma SplitAtSeparator(r: string)
    requires r != [] && IsUpperAscii(r[0])
    ensures SplitParts(", " + r) == [""] + SplitParts(r)
  {
    var s := ", " + r;
    assert s[1..] == [' '] + r;
    assert DropLeading([' '] + r, IsWs) == DropLeading(r, IsWs) by {
      assert ([' '] + r)[1..] == r;
    }
    assert DropLeading(r, IsWs) == r;
  }

  /** Pieces that start with a capital and hold no comma survive a join with ", ". */
  lemma {:induction false} SplitJoin(es: seq<string>)
    requires es != []
    requires forall i :: 0 <= i < |es| ==> es[i] != [] && IsUpperAscii(es[i][0]) && ',' !in es[i]
    ensures SplitParts(JoinWith(es, ", ")) == es
    decreases |es|
  {
    if |es| == 1 {
      SplitCommaFree(es[0], []);
      assert es[0] + [] == es[0];
    } else {
      var rest := JoinWith(es[1..], ", ");
      SplitJoin(es[1..]);
      assert rest[0] == es[1][0] by { JoinWithFirst(es[1..], ", "); }
      assert JoinWith(es, ", ") == es[0] + (", " + rest);
      SplitCommaFree(es[0], ", " + rest);
      SplitAtSeparator(rest);
      assert es[0] + "" == es[0];
    }
  }

  /** A name the parse gives back unchanged. */
  predicate IsPlainName(n: string) {
    n != [] && IsUpperAscii(n[0]) && !IsWs(n[|n| - 1])
    && forall c :: c in n ==> c != ',' && c != '(' && c != ':' && !IsLineTerminator(c)
  }

  /** A founder `Render` and the parse agree on. */
  predicate IsPlainFounder(f: Founder) {
    IsPlainName(f.fullName)
    && (f.linkedinUrl.Some? ==> IsUrl(f.linkedinUrl.value) && ',' !in f.linkedinUrl.value)
  }

  /** The cell format of the import sheet: "Name" or "Name (url)". */
  function Render(f: Founder): string {
    match f.linkedinUrl
    case None => f.fullName
    case Some(url) => f.fullName + " (" + url + ")"
  }

  /** The rendering of every founder, in order. */
  function RenderEach(fs: seq<Founder>): (rs: seq<string>)
    ensures |rs| == |fs|
    ensures forall i :: 0 <= i < |fs| ==> rs[i] == Render(fs[i])
    decreases |fs|
  {
    if fs == [] then [] else RenderEach(fs[..|fs| - 1]) + [Render(fs[|fs| - 1])]
  }

  function RenderAll(fs: seq<Founder>): string {
    JoinWith(RenderEach(fs), ", ")
  }

  /** A plain founder's rendering has no comma and starts with its capital. */
  lemma RenderShape(f: Founder)
    requires IsPlainFounder(f)
    ensures ',' !in Render(f)
    ensures Render(f) != [] && Render(f)[0] == f.fullName[0]
  {
    var n := f.fullName;
    if f.linkedinUrl.Some? {
      var url := f.linkedinUrl.value;
      assert Render(f) == n + (" (" + (url + ")"));
    }
  }

  /** A URL has no blanks, so it is its own trim. */
  lemma UrlTrimmed(u: string)
    requires IsUrl(u)
    ensures Trim(u) == u
  {
    if |u| > 7 && u[..7] == "http://" {
      assert u[0] == u[..7][0];
      assert u[4] == u[..7][4] == ':';
      assert |u| > 8 ==> u[..8][4] == u[4];
      assert u[|u| - 1] == u[7..][|u| - 8] && u[7..][|u| - 8] in u[7..];
    } else {
      assert u[0] == u[..8][0];
      assert u[|u| - 1] == u[8..][|u| - 9] && u[8..][|u| - 9] in u[8..];
    }
    TrimFixed(u);
  }

  /** No tail that starts inside a plain name matches the URL pattern. */
  lemma NoUrlInName(y: string, url: string)
    requires y != [] && !IsWs(y[|y| - 1])
    requires forall c :: c in y ==> c != '(' && c != ':'
    ensures UrlTail(y + " (" + url + ")") == None
  {
    var v := y + " (" + url + ")";
    var y' := DropLeading(y, IsWs);
    NameTrimmed(y, url);
    var c := y' + " (" + url;
    assert UrlCore(v) == c by {
      var a := y' + " (" + url + ")";
      assert a[0] == y'[0] && a[|a| - 1] == ')' && a[..|a| - 1] == c;
    }
    SpaceBeforeScheme(c, |y'|);
  }

  /** Leading blanks come off a name that does not end in one, and leave no `(` or `:` behind. */
  lemma NameTrimmed(y: string, url: string)
    requires y != [] && !IsWs(y[|y| - 1])
    requires forall c :: c in y ==> c != '(' && c != ':'
    ensures DropLeading(y, IsWs) != []
    ensures forall i :: 0 <= i < |DropLeading(y, IsWs)| ==>
      DropLeading(y, IsWs)[i] != '(' && DropLeading(y, IsWs)[i] != ':'
    ensures DropLeading(y + " (" + url + ")", IsWs) == DropLeading(y, IsWs) + " (" + url + ")"
  {
    var y' := DropLeading(y, IsWs);
    DropLeadingSuffix(y, IsWs);
    assert y' != [] by {
      assert y[|y| - 1] == y[|y| - |y'|..][|y'| - 1];
    }
    DropLeadingConcat(y, " (" + url + ")");
    assert y + " (" + url + ")" == y + (" (" + url + ")");
    forall i | 0 <= i < |y'| ensures y'[i] != '(' && y'[i] != ':' {
      assert y'[i] == y[|y| - |y'| + i] && y[|y| - |y'| + i] in y;
    }
  }

  /** A blank before the `://` of the scheme spoils the match. */
  lemma SpaceBeforeScheme(c: string, n: nat)
    requires 0 < n < |c| && c[n] == ' '
    requires forall i :: 0 <= i < n ==> c[i] != ':'
    ensures !IsUrl(c)
  {
    SchemeShape(c);
  }

  /** A URL starts with four non-blank letters and then `:` or `s:`. */
  lemma SchemeShape(c: string)
    ensures IsUrl(c) ==> (|c| > 7 && (forall i :: 0 <= i < 4 ==> c[i] != ' ' && c[i] != ':')
                          && (c[4] == ':' || (c[4] == 's' && c[5] == ':')))
  {
    if IsUrl(c) {
      if |c| > 7 && c[..7] == "http://" {
        assert c[..4] == "http" && c[4] == c[..7][4];
      } else {
        assert c[..4] == "http" && c[4] == c[..8][4] && c[5] == c[..8][5];
      }
    }
  }

  /** The second group is made of characters of the tail. */
  lemma UrlCoreChars(u: string)
    ensures forall x :: x in UrlCore(u) ==> x in u
  {
    var a := DropLeading(u, IsWs);
    var b := if a != [] && a[0] == '(' then a[1..] else a;
    DropLeadingSuffix(u, IsWs);
    forall x | x in UrlCore(u) ensures x in u {
      if b != [] && b[|b| - 1] == ')' { InPrefix(b, |b| - 1, x); }
      if a != [] && a[0] == '(' { InSuffix(a, 1, x); }
      InSuffix(u, |u| - |a|, x);
    }
  }

  /** Without a colon there is no scheme. */
  lemma NoColonNoUrl(c: string)
    requires forall x :: x in c ==> x != ':'
    ensures !IsUrl(c)
  {
    SchemeShape(c);
    if |c| > 5 {
      assert c[4] in c && c[5] in c;
    }
  }

  /** Leading blanks come off the first part when it is not all blank. */
  lemma {:induction false} DropLeadingConcat(y: string, z: string)
    requires DropLeading(y, IsWs) != []
    ensures DropLeading(y + z, IsWs) == DropLeading(y, IsWs) + z
    decreases |y|
  {
    if y != [] && IsWs(y[0]) {
      assert (y + z)[1..] == y[1..] + z;
      DropLeadingConcat(y[1..], z);
    }
  }

  /** The lazy group stops exactly at the end of a plain name. */
  lemma {:induction false} MatchEndsAtName(name: string, url: string, k: nat)
    requires IsPlainName(name) && IsUrl(url)
    requires 1 <= k <= |name|
    ensures UrlFrom(name + " (" + url + ")", k) == Some((name, url))
    decreases |name| - k
  {
    var t := name + " (" + url + ")";
    assert t[k - 1] == name[k - 1] && name[k - 1] in name;
    if k == |name| {
      assert t[..k] == name;
      assert t[k..] == " (" + url + ")";
      UrlAfterName(url);
      UrlFromHit(t, k, url);
    } else {
      assert t[k..] == name[k..] + " (" + url + ")";
      assert name[|name| - 1] == name[k..][|name[k..]| - 1];
      forall c | c in name[k..] ensures c != '(' && c != ':' {
        InSuffix(name, k, c);
      }
      NoUrlInName(name[k..], url);
      MatchEndsAtName(name, url, k + 1);
      UrlFromSkip(t, k);
    }
  }

  /** The tail ` (url)` matches with the URL as the second group. */
  lemma UrlAfterName(url: string)
    requires IsUrl(url)
    ensures UrlTail(" (" + url + ")") == Some(url)
  {
    var u := " (" + url + ")";
    assert u[1..] == "(" + url + ")";
    assert DropLeading(u, IsWs) == "(" + url + ")";
    assert ("(" + url + ")")[1..] == url + ")";
    assert (url + ")")[..|url|] == url;
  }

  /** The lazy group stops at `k` when the tail after it matches. */
  lemma UrlFromHit(t: string, k: nat, url: string)
    requires 1 <= k <= |t| && !IsLineTerminator(t[k - 1])
    requires UrlTail(t[k..]) == Some(url)
    ensures UrlFrom(t, k) == Some((t[..k], url))
  {
  }

  /** The lazy group finds nothing once it passes the end or a line terminator. */
  lemma UrlFromStop(t: string, k: nat)
    requires k >= 1
    requires k > |t| || IsLineTerminator(t[k - 1])
    ensures UrlFrom(t, k) == None
  {
  }

  /** The lazy group grows past `k` when the tail after it does not match. */
  lemma UrlFromSkip(t: string, k: nat)
    requires 1 <= k <= |t| && !IsLineTerminator(t[k - 1])
    requires UrlTail(t[k..]) == None
    ensures UrlFrom(t, k) == UrlFrom(t, k + 1)
  {
  }

  /** A plain name matches no LinkedIn pattern at any split of the lazy group. */
  lemma {:induction false} NoMatchInName(name: string, k: nat)
    requires ':' !in name
    requires k >= 1
    ensures UrlFrom(name, k) == None
    decreases |name| - k
  {
    if k <= |name| && !IsLineTerminator(name[k - 1]) {
      NoTailInName(name, k);
      NoMatchInName(name, k + 1);
      UrlFromSkip(name, k);
    } else {
      UrlFromStop(name, k);
    }
  }

  /** No tail of a name without a colon matches the URL part of the pattern. */
  lemma NoTailInName(name: string, k: nat)
    requires ':' !in name && k <= |name|
    ensures UrlTail(name[k..]) == None
  {
    assert ':' !in name[k..] by {
      if ':' in name[k..] { InSuffix(name, k, ':'); }
    }
    NoColonNoTail(name[k..]);
  }

  /** A tail without a colon does not match the URL part of the pattern. */
  lemma NoColonNoTail(u: string)
    requires ':' !in u
    ensures UrlTail(u) == None
  {
    UrlCoreChars(u);
    NoColonNoUrl(UrlCore(u));
  }

  /** Parsing the rendering of one plain founder gives the founder back. */
  lemma ParsePartRender(f: Founder)
    requires IsPlainFounder(f)
    ensures ParsePart(Render(f)) == Some(f)
  {
    var n := f.fullName;
    TrimFixed(n);
    match f.linkedinUrl
    case None =>
      NoMatchInName(n, 1);
      assert UnclosedFrom(n, 0) == None by { NoParen(n, 0); }
    case Some(url) =>
      var t := n + " (" + url + ")";
      assert t[0] == n[0] && t[|t| - 1] == ')';
      TrimFixed(t);
      MatchEndsAtName(n, url, 1);
      UrlTrimmed(url);
  }

  lemma {:induction false} NoParen(t: string, q: nat)
    requires '(' !in t
    ensures UnclosedFrom(t, q) == None
    decreases |t| - q
  {
    if q < |t| {
      assert t[q] in t;
      NoParen(t, q + 1);
    }
  }

  /** Collecting the parse of each rendering gives the founders back. */
  lemma CollectRendered(fs: seq<Founder>)
    requires forall f :: f in fs ==> IsPlainFounder(f)
    ensures CollectParts(RenderEach(fs)) == fs
  {
    var rs := RenderEach(fs);
    var os := ParseEach(rs);
    forall i | 0 <= i < |fs| ensures os[i] == Some(fs[i]) {
      assert fs[i] in fs;
      ParsePartRender(fs[i]);
    }
    SomesAll(os, fs);
  }

  /** Parse results that are each a founder give those founders, in order. */
  lemma {:induction false} SomesAll(os: seq<Option<Founder>>, fs: seq<Founder>)
    requires |os| == |fs|
    requires forall i :: 0 <= i < |os| ==> os[i] == Some(fs[i])
    ensures Somes(os) == fs
    decreases |os|
  {
    if os != [] {
      var n := |os| - 1;
      SomesAll(os[..n], fs[..n]);
      assert fs[..n] + [fs[n]] == fs;
    }
  }

  /**
   * The round trip of the import format: founders with plain names (a
   * capital first, no comma, parenthesis or colon) and comma-free URLs
   * are read back exactly from "Name (url), Name, ...".
   */
  lemma ParseRenderAll(fs: seq<Founder>)
    requires forall f :: f in fs ==> IsPlainFounder(f)
    ensures FoundersOf(RenderAll(fs)) == fs
  {
    var rs := RenderEach(fs);
    if fs != [] {
      forall i | 0 <= i < |rs| ensures rs[i] != [] && IsUpperAscii(rs[i][0]) && ',' !in rs[i] {
        assert fs[i] in fs;
        RenderShape(fs[i]);
      }
      SplitJoin(rs);
      assert RenderAll(fs)[0] == rs[0][0] by { JoinWithFirst(rs, ", "); }
      TrimNonEmpty(RenderAll(fs));
      CollectRendered(fs);
    }
  }

  lemma TrimNonEmpty(s: string)
    requires s != [] && !IsWs(s[0])
    ensures Trim(s) != []
  {
    assert DropLeading(s, IsWs) == s;
    DropTrailingPrefix(s, IsWs);
  }
}
