/**
 * `parseInvestors` from the import script: split an investors cell on
 * every comma, trim each piece and drop the empty ones.
 */
module Investors {
  import opened Text

  /** `split(',')`: every comma ends a piece, so there is one piece more than commas. */
  function SplitComma(s: string): (parts: seq<string>)
    ensures |parts| >= 1
    ensures forall i :: 0 <= i < |parts| ==> ',' !in parts[i]
    decreases |s|
  {
    if s == [] then [""]
    else if s[0] == ',' then [""] + SplitComma(s[1..])
    else
      var rest := SplitComma(s[1..]);
      assert forall i :: 1 <= i < |rest| ==> ',' !in rest[i];
      [[s[0]] + rest[0]] + rest[1..]
  }

  /** `.map(inv => inv.trim()).filter(inv => inv.length > 0)`. */
  function Clean(parts: seq<string>): (r: seq<string>)
    ensures |r| <= |parts|
    decreases |parts|
  {
    if parts == [] then []
    else (if Trim(parts[0]) == [] then [] else [Trim(parts[0])]) + Clean(parts[1..])
  }

  /** `parseInvestors`: no investors for a null, empty or blank cell. */
  function ParseInvestors(s: string): (r: seq<string>)
    ensures forall x :: x in r ==> x != [] && Trim(x) == x && ',' !in x
  {
    if Trim(s) == [] then [] else CleanShape(SplitComma(s)); Clean(SplitComma(s))
  }

  // ---------------------------------------------------------------------
  // Properties
  // ---------------------------------------------------------------------

  /** Gluing the pieces back with commas gives the input: the split loses nothing. */
  lemma {:induction false} JoinSplitComma(s: string)
    ensures JoinWith(SplitComma(s), ",") == s
    decreases |s|
  {
    if s != [] {
      var rest := SplitComma(s[1..]);
      JoinSplitComma(s[1..]);
      if s[0] == ',' {
        assert JoinWith([""] + rest, ",") == "" + "," + JoinWith(rest, ",") by {
          assert ([""] + rest)[1..] == rest;
        }
        assert s == [s[0]] + s[1..];
      } else {
        JoinWithHead([s[0]], rest[0], rest[1..], ",");
        assert [rest[0]] + rest[1..] == rest;
        assert s == [s[0]] + s[1..];
      }
    }
  }

  /** Prepending to the first piece prepends to the join. */
  lemma JoinWithHead(a: string, b: string, ws: seq<string>, sep: string)
    ensures JoinWith([a + b] + ws, sep) == a + JoinWith([b] + ws, sep)
  {
    if ws != [] {
      assert ([a + b] + ws)[1..] == ws && ([b] + ws)[1..] == ws;
    }
  }

  /** Every investor is a trimmed, non-empty, comma-free piece of the input. */
  lemma {:induction false} CleanShape(parts: seq<string>)
    requires forall i :: 0 <= i < |parts| ==> ',' !in parts[i]
    ensures forall x :: x in Clean(parts) ==> x != [] && Trim(x) == x && ',' !in x
    decreases |parts|
  {
    if parts != [] {
      CleanShape(parts[1..]);
      var t := Trim(parts[0]);
      if t != [] {
        TrimEnds(parts[0]);
        TrimFixed(t);
        TrimSubstring(parts[0]);
      }
    }
  }

  /** The trim of a string is one of its substrings. */
  lemma TrimSubstring(s: string)
    ensures forall c :: c in Trim(s) ==> c in s
  {
    var d := DropLeading(s, IsWs);
    DropLeadingSuffix(s, IsWs);
    DropTrailingPrefix(d, IsWs);
    forall c | c in Trim(s) ensures c in s {
      InPrefix(d, |Trim(s)|, c);
      InSuffix(s, |s| - |d|, c);
    }
  }

  /** The split of a ", "-joined list: the first name as it is, the others after a blank. */
  lemma {:induction false} CleanJoin(xs: seq<string>)
    requires xs != []
    requires forall i :: 0 <= i < |xs| ==> xs[i] != [] && Trim(xs[i]) == xs[i] && ',' !in xs[i]
    ensures SplitComma(JoinWith(xs, ", "))[0] == xs[0]
    ensures Clean(SplitComma(JoinWith(xs, ", "))) == xs
    decreases |xs|
  {
    var x := xs[0];
    if |xs| == 1 {
      SplitCommaFree(x, "");
      assert x + "" == x;
      assert Clean([x]) == [x] by { assert [x][1..] == []; }
    } else {
      var j := JoinWith(xs[1..], ", ");
      CleanJoin(xs[1..]);
      assert JoinWith(xs, ", ") == x + (", " + j);
      SplitAfterSeparator(x, j);
      CleanAfterSeparator(x, SplitComma(j));
    }
  }

  /** The split of `x + ", " + j`: `x`, then the pieces of `j` with a blank before the first. */
  lemma SplitAfterSeparator(x: string, j: string)
    requires ',' !in x
    ensures SplitComma(x + (", " + j))
      == [x] + ([" " + SplitComma(j)[0]] + SplitComma(j)[1..])
  {
    var p := SplitComma(j);
    SplitCommaFree(x, ", " + j);
    assert SplitComma(", " + j) == [""] + SplitComma(" " + j) by {
      assert (", " + j)[1..] == " " + j;
    }
    assert SplitComma(" " + j) == [" " + p[0]] + p[1..] by {
      assert (" " + j)[1..] == j;
    }
    assert x + "" == x;
  }

  /** Cleaning drops the blank the separator left before a trimmed piece. */
  lemma CleanAfterSeparator(x: string, p: seq<string>)
    requires |p| >= 1 && x != [] && Trim(x) == x && p[0] != [] && Trim(p[0]) == p[0]
    ensures Clean([x] + ([" " + p[0]] + p[1..])) == [x] + Clean(p)
  {
    var parts := [x] + ([" " + p[0]] + p[1..]);
    TrimLeadingBlank(p[0]);
    assert Clean(parts) == [x] + Clean([" " + p[0]] + p[1..]) by {
      assert parts[1..] == [" " + p[0]] + p[1..];
    }
    assert Clean([" " + p[0]] + p[1..]) == [p[0]] + Clean(p[1..]) by {
      assert ([" " + p[0]] + p[1..])[1..] == p[1..];
    }
    assert Clean(p) == [p[0]] + Clean(p[1..]);
  }

  /** A blank before a trimmed string is trimmed away. */
  lemma TrimLeadingBlank(s: string)
    requires Trim(s) == s
    ensures Trim(" " + s) == s
  {
    assert DropLeading(" " + s, IsWs) == DropLeading(s, IsWs) by {
      assert (" " + s)[1..] == s;
    }
  }

  /** A comma-free prefix stays in the first piece. */
  lemma {:induction false} SplitCommaFree(x: string, r: string)
    requires ',' !in x
    ensures SplitComma(x + r) == [x + SplitComma(r)[0]] + SplitComma(r)[1..]
    decreases |x|
  {
    if x != [] {
      assert (x + r)[0] == x[0];
      assert (x + r)[1..] == x[1..] + r;
      SplitCommaFree(x[1..], r);
      assert [x[0]] + (x[1..] + SplitComma(r)[0]) == x + SplitComma(r)[0];
    } else {
      assert x + r == r;
      assert x + SplitComma(r)[0] == SplitComma(r)[0];
      assert SplitComma(r) == [SplitComma(r)[0]] + SplitComma(r)[1..];
    }
  }

  /** The round trip: trimmed, non-empty, comma-free names survive a join with ", ". */
  lemma ParseJoin(xs: seq<string>)
    requires forall i :: 0 <= i < |xs| ==> xs[i] != [] && Trim(xs[i]) == xs[i] && ',' !in xs[i]
    ensures ParseInvestors(JoinWith(xs, ", ")) == xs
  {
    if xs != [] {
      CleanJoin(xs);
      var s := JoinWith(xs, ", ");
      JoinSplitComma(s);
      assert Trim(s) != [] by {
        TrimEnds(xs[0]);
        JoinWithFirst(xs, ", ");
        assert DropLeading(s, IsWs) == s;
        DropTrailingPrefix(s, IsWs);
      }
    }
  }
}
