/**
 * String helpers with the meaning the Python service relies on: `strip`, `lstrip(chars)`,
 * ASCII `lower`, `startswith`, the `in` substring test, `sep.join(xs)` and `s.split(d)`.
 */
module Text {

  /** The characters `strip()` removes: ASCII space, tab, line feed, carriage return, vertical tab, form feed. */
  const Whitespace: set<char> := {' ', '\t', '\n', '\r', '\U{B}', '\U{C}'}

  /** A non-empty string that starts and ends with a non-whitespace character: what `strip()` leaves behind. */
  predicate Trimmed(s: string)
  {
    |s| > 0 && s[0] !in Whitespace && s[|s| - 1] !in Whitespace
  }

  /** `s.lstrip(cs)`: the longest suffix of `s` whose removed prefix is made only of characters in `cs`. */
  function TrimLeft(s: string, cs: set<char>): (r: string)
    ensures |r| <= |s| && r == s[|s| - |r|..]
    ensures forall i :: 0 <= i < |s| - |r| ==> s[i] in cs
    ensures r == [] || r[0] !in cs
  {
    if |s| > 0 && s[0] in cs then TrimLeft(s[1..], cs) else s
  }

  /** Left-stripping a run of characters from `cs` stops at the first character outside `cs`. */
  lemma {:induction false} TrimLeftPrefix(p: string, q: string, cs: set<char>)
    requires forall i :: 0 <= i < |p| ==> p[i] in cs
    requires q == [] || q[0] !in cs
    ensures TrimLeft(p + q, cs) == q
  {
    if |p| > 0 {
      assert (p + q)[1..] == p[1..] + q;
      TrimLeftPrefix(p[1..], q, cs);
    }
  }

  /** `s.rstrip(cs)`: the longest prefix of `s` whose removed suffix is made only of characters in `cs`. */
  function TrimRight(s: string, cs: set<char>): (r: string)
    ensures |r| <= |s| && r == s[..|r|]
    ensures forall i :: |r| <= i < |s| ==> s[i] in cs
    ensures r == [] || r[|r| - 1] !in cs
  {
    if |s| > 0 && s[|s| - 1] in cs then TrimRight(s[..|s| - 1], cs) else s
  }

  /** `s.strip()`: a trimmed part of `s`, or nothing. */
  function Strip(s: string): (r: string)
    ensures r != [] ==> Trimmed(r)
  {
    TrimRight(TrimLeft(s, Whitespace), Whitespace)
  }

  /** Every character is whitespace (vacuously so for the empty string). */
  predicate Blank(s: string)
  {
    forall i :: 0 <= i < |s| ==> s[i] in Whitespace
  }

  /** Stripping leaves nothing exactly when the string is all whitespace. */
  lemma StripBlank(s: string)
    ensures Strip(s) == [] <==> Blank(s)
  {
  }

  lemma BlankConcat(a: string, b: string)
    ensures Blank(a + b) <==> Blank(a) && Blank(b)
  {
    assert forall i :: 0 <= i < |a| ==> (a + b)[i] == a[i];
    assert forall i :: 0 <= i < |b| ==> (a + b)[|a| + i] == b[i];
  }

  /** Stripping a string that is already trimmed changes nothing. */
  lemma StripTrimmed(s: string)
    requires Trimmed(s)
    ensures Strip(s) == s
  {
    var t := TrimLeft(s, Whitespace);
    assert |t| == |s|;
    var r := TrimRight(t, Whitespace);
    assert |r| == |t|;
  }

  /** ASCII lower-casing of one character. */
  function LowerChar(c: char): char
  {
    if 'A' <= c <= 'Z' then (c as int - 'A' as int + 'a' as int) as char else c
  }

  /** `s.lower()` restricted to ASCII letters: the same length, lower-cased position by position. */
  function Lower(s: string): (r: string)
    ensures |r| == |s|
  {
    seq(|s|, i requires 0 <= i < |s| => LowerChar(s[i]))
  }

  /** Lower-casing leaves no ASCII capital and changes no character that is not one. */
  lemma LowerSpec(s: string)
    ensures forall i :: 0 <= i < |s| ==> !('A' <= Lower(s)[i] <= 'Z')
    ensures forall i :: 0 <= i < |s| && !('A' <= s[i] <= 'Z') ==> Lower(s)[i] == s[i]
  {
  }

  /**
   * Position-by-position form of `StartsWith(Lower(s), p)` from index `i` on; it unfolds on
   * literal strings, which is how the examples decide marker tests.
   */
  predicate LowerPrefixFrom(s: string, p: string, i: nat)
    decreases |p| - i
  {
    i >= |p| || (i < |s| && LowerChar(s[i]) == p[i] && LowerPrefixFrom(s, p, i + 1))
  }

  /** The position-by-position check agrees with lower-casing and then testing the prefix. */
  lemma LowerPrefixFromSpec(s: string, p: string)
    ensures LowerPrefixFrom(s, p, 0) <==> StartsWith(Lower(s), p)
  {
    LowerPrefixFromAt(s, p, 0);
    if LowerPrefixFrom(s, p, 0) && |p| > 0 {
      assert LowerAgreesAt(s, p, |p| - 1);
    }
    if |p| <= |s| {
      assert StartsWith(Lower(s), p) <==> forall j :: 0 <= j < |p| ==> Lower(s)[j] == p[j];
      forall j | 0 <= j < |p|
        ensures Lower(s)[j] == p[j] <==> LowerAgreesAt(s, p, j)
      {
      }
      assert StartsWith(Lower(s), p) <==> forall j :: 0 <= j < |p| ==> LowerAgreesAt(s, p, j);
    }
  }

  lemma {:induction false} LowerPrefixFromAt(s: string, p: string, i: nat)
    requires i <= |p|
    ensures LowerPrefixFrom(s, p, i) <==> forall j :: i <= j < |p| ==> LowerAgreesAt(s, p, j)
    decreases |p| - i
  {
    if i < |p| {
      LowerPrefixFromAt(s, p, i + 1);
      assert LowerPrefixFrom(s, p, i) <==> LowerAgreesAt(s, p, i) && LowerPrefixFrom(s, p, i + 1);
    }
  }

  predicate LowerAgreesAt(s: string, p: string, j: int)
  {
    0 <= j < |p| && j < |s| && LowerChar(s[j]) == p[j]
  }

  /** `s.startswith(p)`. */
  predicate StartsWith(s: string, p: string)
  {
    |p| <= |s| && s[..|p|] == p
  }

  /** A case-insensitive prefix of `a` stays one of any text that starts with `a`. */
  lemma LowerPrefixExtends(s: string, a: string, p: string)
    requires StartsWith(s, a) && StartsWith(Lower(a), p)
    ensures StartsWith(Lower(s), p)
  {
    forall j | 0 <= j < |p|
      ensures Lower(s)[j] == p[j]
    {
      assert Lower(a)[j] == p[j];
      assert s[j] == a[j];
    }
  }

  /** `sub` occurs in `s` starting at index `i`. */
  predicate OccursAt(s: string, sub: string, i: int)
  {
    0 <= i && i + |sub| <= |s| && s[i..i + |sub|] == sub
  }

  /** Python's `sub in s` for strings. */
  predicate Contains(s: string, sub: string)
  {
    exists i | 0 <= i <= |s| - |sub| :: OccursAt(s, sub, i)
  }

  /** A string lacking one of the characters of `sub` does not contain `sub`. */
  lemma NotContainsMissingChar(s: string, sub: string, k: nat)
    requires k < |sub| && sub[k] !in s
    ensures !Contains(s, sub)
  {
    forall i | 0 <= i <= |s| - |sub|
      ensures !OccursAt(s, sub, i)
    {
      assert s[i..i + |sub|][k] == s[i + k];
    }
  }

  /** An occurrence stays an occurrence when text is put in front. */
  lemma OccursAtShift(a: string, b: string, sub: string, i: int)
    requires OccursAt(b, sub, i)
    ensures OccursAt(a + b, sub, |a| + i)
  {
    assert (a + b)[|a| + i..|a| + i + |sub|] == b[i..i + |sub|];
  }

  /** Every string contains itself. */
  lemma ContainsSelf(s: string)
    ensures Contains(s, s)
  {
    assert OccursAt(s, s, 0);
  }

  /** Text put in front of or behind a string keeps what it contains. */
  lemma ContainsWithin(a: string, b: string, c: string, sub: string)
    requires Contains(b, sub)
    ensures Contains(a + b + c, sub)
  {
    var i :| 0 <= i <= |b| - |sub| && OccursAt(b, sub, i);
    assert (a + b + c)[|a| + i..|a| + i + |sub|] == b[i..i + |sub|];
    assert OccursAt(a + b + c, sub, |a| + i);
  }

  /** `sep.join(xs)`. */
  function Join(sep: string, xs: seq<string>): string
  {
    if |xs| == 0 then "" else if |xs| == 1 then xs[0] else xs[0] + sep + Join(sep, xs[1..])
  }

  /** With a whitespace separator, a join is all whitespace exactly when every element is. */
  lemma {:induction false} JoinBlank(sep: string, xs: seq<string>)
    requires Blank(sep)
    ensures Blank(Join(sep, xs)) <==> forall k :: 0 <= k < |xs| ==> Blank(xs[k])
  {
    if |xs| > 1 {
      JoinBlank(sep, xs[1..]);
      BlankConcat(xs[0], sep);
      BlankConcat(xs[0] + sep, Join(sep, xs[1..]));
      assert forall k :: 1 <= k < |xs| ==> xs[k] == xs[1..][k - 1];
    }
  }

  /** Joining two non-empty lists is joining each and putting one separator between them. */
  lemma {:induction false} JoinAppend(sep: string, a: seq<string>, b: seq<string>)
    requires |a| > 0 && |b| > 0
    ensures Join(sep, a + b) == Join(sep, a) + sep + Join(sep, b)
  {
    if |a| == 1 {
      assert (a + b)[1..] == b;
    } else {
      assert (a + b)[1..] == a[1..] + b;
      JoinAppend(sep, a[1..], b);
    }
  }

  /** The joined text begins with the first element and ends with the last one. */
  lemma {:induction false} JoinEnds(sep: string, xs: seq<string>)
    requires |xs| > 0
    ensures StartsWith(Join(sep, xs), xs[0])
    ensures var j := Join(sep, xs); |xs[|xs| - 1]| <= |j| && j[|j| - |xs[|xs| - 1]|..] == xs[|xs| - 1]
  {
    if |xs| > 1 {
      JoinEnds(sep, xs[1..]);
      var j := Join(sep, xs);
      assert j[..|xs[0]|] == xs[0];
    }
  }

  /** A join of two or more elements opens with the first one and a separator. */
  lemma JoinOpening(sep: string, xs: seq<string>)
    requires |xs| > 1
    ensures StartsWith(Join(sep, xs), xs[0] + sep)
  {
    var j := Join(sep, xs);
    assert j == xs[0] + sep + Join(sep, xs[1..]);
    assert j[..|xs[0] + sep|] == xs[0] + sep;
  }

  /** A join of two or more elements whose last one is empty ends with the separator. */
  lemma JoinEnding(sep: string, xs: seq<string>)
    requires |xs| > 1 && xs[|xs| - 1] == "" && |sep| > 0
    ensures var j := Join(sep, xs); |j| > 0 && j[|j| - 1] == sep[|sep| - 1]
  {
    var n := |xs|;
    JoinAppend(sep, xs[..n - 1], xs[n - 1..]);
    assert xs[..n - 1] + xs[n - 1..] == xs;
    assert Join(sep, xs[n - 1..]) == "";
  }

  /** Joining trimmed strings gives a trimmed string, whatever the separator. */
  lemma JoinTrimmed(sep: string, xs: seq<string>)
    requires |xs| > 0
    requires forall k :: 0 <= k < |xs| ==> Trimmed(xs[k])
    ensures Trimmed(Join(sep, xs))
  {
    JoinEnds(sep, xs);
    var j, last := Join(sep, xs), xs[|xs| - 1];
    assert j[0] == xs[0][0];
    assert j[|j| - 1] == j[|j| - |last|..][|last| - 1];
  }

  /** Every joined element can be found in the joined text. */
  lemma {:induction false} JoinContainsEach(sep: string, xs: seq<string>, k: nat)
    requires k < |xs|
    ensures Contains(Join(sep, xs), xs[k])
  {
    var j := Join(sep, xs);
    if k == 0 {
      JoinEnds(sep, xs);
      assert OccursAt(j, xs[0], 0);
    } else {
      JoinContainsEach(sep, xs[1..], k - 1);
      var rest := Join(sep, xs[1..]);
      var i :| 0 <= i <= |rest| - |xs[k]| && OccursAt(rest, xs[k], i);
      OccursAtShift(xs[0] + sep, rest, xs[k], i);
      assert OccursAt(j, xs[k], |xs[0] + sep| + i);
    }
  }

  /** A join holds a character only if the separator or one of the elements does. */
  lemma {:induction false} JoinFree(sep: string, xs: seq<string>, d: char)
    requires d !in sep && forall k :: 0 <= k < |xs| ==> d !in xs[k]
    ensures d !in Join(sep, xs)
  {
    if |xs| > 1 {
      JoinFree(sep, xs[1..], d);
    }
  }

  /** `s.split(d)`: the pieces of `s` between occurrences of `d`; never an empty list. */
  function SplitOn(s: string, d: char): (r: seq<string>)
    ensures |r| >= 1
    ensures forall k :: 0 <= k < |r| ==> d !in r[k]
  {
    if |s| == 0 then [""]
    else
      var rest := SplitOn(s[1..], d);
      if s[0] == d then [""] + rest else [[s[0]] + rest[0]] + rest[1..]
  }

  /** Joining the pieces back with the delimiter gives the original string. */
  lemma {:induction false} JoinSplitOn(s: string, d: char)
    ensures Join([d], SplitOn(s, d)) == s
  {
    if |s| > 0 {
      var rest := SplitOn(s[1..], d);
      JoinSplitOn(s[1..], d);
      if s[0] == d {
        assert ([""] + rest)[1..] == rest;
      } else if |rest| > 1 {
        var r := SplitOn(s, d);
        assert r[1..] == rest[1..];
        assert Join([d], rest) == rest[0] + [d] + Join([d], rest[1..]);
      }
    }
  }

  /** A string free of the delimiter is one piece. */
  lemma {:induction false} SplitOnNone(s: string, d: char)
    requires d !in s
    ensures SplitOn(s, d) == [s]
  {
    if |s| > 0 {
      assert d !in s[1..];
      SplitOnNone(s[1..], d);
      assert [s[0]] + s[1..] == s;
    }
  }

  /** Splitting `a + [d] + b`, with `d` absent from `a`, gives `a` and then the pieces of `b`. */
  lemma {:induction false} SplitOnCons(a: string, b: string, d: char)
    requires d !in a
    ensures SplitOn(a + [d] + b, d) == [a] + SplitOn(b, d)
  {
    var s := a + [d] + b;
    if |a| == 0 {
      assert s[1..] == b;
    } else {
      assert s[1..] == a[1..] + [d] + b;
      assert d !in a[1..];
      SplitOnCons(a[1..], b, d);
      assert [s[0]] + a[1..] == a;
    }
  }

  /** Splitting at a delimiter splits each side separately: the pieces of `a`, then those of `b`. */
  lemma {:induction false} SplitOnAppend(a: string, b: string, d: char)
    ensures SplitOn(a + [d] + b, d) == SplitOn(a, d) + SplitOn(b, d)
  {
    var s := a + [d] + b;
    if |a| == 0 {
      assert s[1..] == b;
    } else {
      assert s[1..] == a[1..] + [d] + b;
      SplitOnAppend(a[1..], b, d);
    }
  }

  /** Splitting undoes joining, when no element holds the delimiter. */
  lemma {:induction false} SplitOnJoin(xs: seq<string>, d: char)
    requires |xs| > 0
    requires forall k :: 0 <= k < |xs| ==> d !in xs[k]
    ensures SplitOn(Join([d], xs), d) == xs
  {
    if |xs| == 1 {
      SplitOnNone(xs[0], d);
    } else {
      SplitOnJoin(xs[1..], d);
      SplitOnCons(xs[0], Join([d], xs[1..]), d);
    }
  }

  /**
   * `[s.strip() for s in segs if s.strip()]`: the stripped, non-blank entries of `segs`, in order.
   */
  function NonBlankLines(segs: seq<string>): seq<string>
  {
    if |segs| == 0 then []
    else
      var line := Strip(segs[|segs| - 1]);
      NonBlankLines(segs[..|segs| - 1]) + (if line == "" then [] else [line])
  }

  /** There are no more lines than pieces, and every line is trimmed. */
  lemma {:induction false} NonBlankLinesTrimmed(segs: seq<string>)
    ensures |NonBlankLines(segs)| <= |segs|
    ensures forall k :: 0 <= k < |NonBlankLines(segs)| ==> Trimmed(NonBlankLines(segs)[k])
  {
    if |segs| > 0 {
      var init := segs[..|segs| - 1];
      NonBlankLinesTrimmed(init);
    }
  }

  /** One more piece adds its stripped text, unless that is blank. */
  lemma NonBlankLinesSnoc(init: seq<string>, last: string)
    ensures NonBlankLines(init + [last]) == NonBlankLines(init) + (if Strip(last) == "" then [] else [Strip(last)])
  {
    assert (init + [last])[..|init|] == init;
  }

  /** Pieces that are already trimmed all survive, unchanged and in order. */
  lemma {:induction false} NonBlankLinesOfTrimmed(segs: seq<string>)
    requires forall k :: 0 <= k < |segs| ==> Trimmed(segs[k])
    ensures NonBlankLines(segs) == segs
  {
    if |segs| > 0 {
      var init, last := segs[..|segs| - 1], segs[|segs| - 1];
      assert segs == init + [last];
      NonBlankLinesSnoc(init, last);
      NonBlankLinesOfTrimmed(init);
      StripTrimmed(last);
    }
  }

  /** No line survives exactly when every piece is blank. */
  lemma {:induction false} NonBlankLinesEmpty(segs: seq<string>)
    ensures NonBlankLines(segs) == [] <==> forall k :: 0 <= k < |segs| ==> Strip(segs[k]) == ""
  {
    if |segs| > 0 {
      var init := segs[..|segs| - 1];
      NonBlankLinesEmpty(init);
      assert forall k :: 0 <= k < |init| ==> init[k] == segs[k];
      assert NonBlankLines(segs) == [] <==> NonBlankLines(init) == [] && Strip(segs[|segs| - 1]) == "";
    }
  }

  /** Stripping adds no character. */
  lemma StripFree(s: string, d: char)
    requires d !in s
    ensures d !in Strip(s)
  {
    var t := TrimLeft(s, Whitespace);
    forall i | 0 <= i < |t|
      ensures t[i] != d
    {
      assert t[i] == s[|s| - |t| + i];
    }
    var r := TrimRight(t, Whitespace);
    forall i | 0 <= i < |r|
      ensures r[i] != d
    {
      assert r[i] == t[i];
    }
  }

  /** The surviving lines hold a character only if some piece does. */
  lemma {:induction false} NonBlankLinesFree(segs: seq<string>, d: char)
    requires forall k :: 0 <= k < |segs| ==> d !in segs[k]
    ensures forall k :: 0 <= k < |NonBlankLines(segs)| ==> d !in NonBlankLines(segs)[k]
  {
    if |segs| > 0 {
      var init := segs[..|segs| - 1];
      assert forall k :: 0 <= k < |init| ==> init[k] == segs[k];
      NonBlankLinesFree(init, d);
      StripFree(segs[|segs| - 1], d);
    }
  }
}
