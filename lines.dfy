/** The text side of tailing: cutting the unread part of a file into the
    lines that iterating over an open file yields, and Python's str.strip()
    applied to a matched line before it is stored. */
module Lines {

  /** The pieces glued back together. */
  function Concat(pieces: seq<string>): string
  {
    if pieces == [] then [] else pieces[0] + Concat(pieces[1..])
  }

  /** A piece as file iteration yields it: not empty, and a newline occurs
      at most as its last character. */
  predicate IsLine(l: string)
  {
    l != [] && forall k :: 0 <= k < |l| - 1 ==> l[k] != '\n'
  }

  /** The pieces are lines, and every one but the last ends with a newline:
      only the final piece may be an unterminated tail. */
  predicate WellSplit(pieces: seq<string>)
  {
    && (forall i :: 0 <= i < |pieces| ==> IsLine(pieces[i]))
    && (forall i :: 0 <= i < |pieces| - 1 ==> pieces[i][|pieces[i]| - 1] == '\n')
  }

  /** Length of the first line of s: up to and including the first newline,
      or all of s when it has none. */
  function FirstLineLength(s: string): (n: nat)
    requires s != []
    ensures 0 < n <= |s|
    ensures forall k :: 0 <= k < n - 1 ==> s[k] != '\n'
    ensures n == |s| || s[n - 1] == '\n'
  {
    if s[0] == '\n' || |s| == 1 then 1 else 1 + FirstLineLength(s[1..])
  }

  /** The lines of s in order, newline terminators kept, the last one
      possibly unterminated. */
  function SplitLines(s: string): (r: seq<string>)
    ensures Concat(r) == s
    ensures WellSplit(r)
    ensures s == [] <==> r == []
    decreases |s|
  {
    if s == [] then []
    else
      var n := FirstLineLength(s);
      var rest := SplitLines(s[n..]);
      assert s == s[..n] + s[n..];
      assert IsLine(s[..n]);
      WellSplitCons(s[..n], rest);
      [s[..n]] + rest
  }

  /** A line put in front of well-split pieces keeps them well split,
      provided it ends with a newline when pieces follow it. */
  lemma WellSplitCons(line: string, rest: seq<string>)
    requires IsLine(line) && WellSplit(rest)
    requires rest != [] ==> line[|line| - 1] == '\n'
    ensures WellSplit([line] + rest)
    ensures Concat([line] + rest) == line + Concat(rest)
  {
    var r := [line] + rest;
    assert r[1..] == rest;
    forall i | 1 <= i < |r|
      ensures r[i] == rest[i - 1]
    {
    }
  }

  /** The ASCII characters str.strip() removes by default: space, tab,
      line feed, vertical tab, form feed, carriage return, and the file,
      group, record and unit separators. */
  predicate IsSpace(c: char)
  {
    c == ' ' || c == '\t' || c == '\n' || c == '\r' || c == '\U{B}' || c == '\U{C}'
    || c == '\U{1C}' || c == '\U{1D}' || c == '\U{1E}' || c == '\U{1F}'
  }

  /** The first index from i on that does not hold whitespace (|s| if none). */
  function SkipSpace(s: string, i: nat): (n: nat)
    requires i <= |s|
    ensures i <= n <= |s|
    ensures forall k :: i <= k < n ==> IsSpace(s[k])
    ensures n == |s| || !IsSpace(s[n])
    decreases |s| - i
  {
    if i < |s| && IsSpace(s[i]) then SkipSpace(s, i + 1) else i
  }

  /** The start of the whitespace run that ends at j, not going below lo. */
  function BackOverSpace(s: string, lo: nat, j: nat): (n: nat)
    requires lo <= j <= |s|
    ensures lo <= n <= j
    ensures forall k :: n <= k < j ==> IsSpace(s[k])
    ensures n == lo || !IsSpace(s[n - 1])
    decreases j
  {
    if j > lo && IsSpace(s[j - 1]) then BackOverSpace(s, lo, j - 1) else j
  }

  /** r is the infix s[a..b], and only whitespace lies outside it. */
  predicate IsInfixAmidSpace(s: string, r: string, a: nat, b: nat)
  {
    && a <= b <= |s| && r == s[a..b]
    && (forall k :: 0 <= k < a ==> IsSpace(s[k]))
    && (forall k :: b <= k < |s| ==> IsSpace(s[k]))
  }

  /** str.strip(): the infix left once the whitespace is cut off both ends. */
  function Strip(s: string): (r: string)
    ensures |r| <= |s|
  {
    s[SkipSpace(s, 0)..BackOverSpace(s, SkipSpace(s, 0), |s|)]
  }

  /** What Strip keeps is an infix of s with only whitespace outside it,
      and it neither starts nor ends with whitespace. */
  lemma StripTrims(s: string)
    ensures exists a: nat, b: nat :: IsInfixAmidSpace(s, Strip(s), a, b)
    ensures var r := Strip(s); r == [] || (!IsSpace(r[0]) && !IsSpace(r[|r| - 1]))
  {
    var a := SkipSpace(s, 0);
    var b := BackOverSpace(s, a, |s|);
    assert Strip(s) == s[a..b];
    assert IsInfixAmidSpace(s, s[a..b], a, b);
    if a < b {
      assert s[a..b][0] == s[a] && s[a..b][b - a - 1] == s[b - 1];
    }
  }

  /** Strip is the only infix of s with only whitespace outside it that
      neither starts nor ends with whitespace. */
  lemma StripUnique(s: string, r: string, a: nat, b: nat)
    requires IsInfixAmidSpace(s, r, a, b)
    requires r == [] || (!IsSpace(r[0]) && !IsSpace(r[|r| - 1]))
    ensures r == Strip(s)
  {
    var a0 := SkipSpace(s, 0);
    var b0 := BackOverSpace(s, a0, |s|);
    if r == [] {
      assert forall k :: 0 <= k < |s| ==> IsSpace(s[k]);
      assert a0 == |s|;
    } else {
      assert s[a] == r[0] && s[b - 1] == r[|r| - 1];
      assert a0 == a;
      assert b0 == b;
    }
  }

  /** Whitespace in front of s is cut off: it does not change what Strip keeps. */
  lemma StripLeadingSpace(c: char, s: string)
    requires IsSpace(c)
    ensures Strip([c] + s) == Strip(s)
  {
    StripTrims(s);
    var a: nat, b: nat :| IsInfixAmidSpace(s, Strip(s), a, b);
    var t := [c] + s;
    assert t[a + 1..b + 1] == s[a..b];
    forall k | 0 <= k < a + 1
      ensures IsSpace(t[k])
    {
      if k > 0 {
        assert t[k] == s[k - 1];
      }
    }
    forall k | b + 1 <= k < |t|
      ensures IsSpace(t[k])
    {
      assert t[k] == s[k - 1];
    }
    StripUnique(t, Strip(s), a + 1, b + 1);
  }

  /** Whitespace after s is cut off: it does not change what Strip keeps. */
  lemma StripTrailingSpace(c: char, s: string)
    requires IsSpace(c)
    ensures Strip(s + [c]) == Strip(s)
  {
    StripTrims(s);
    var a: nat, b: nat :| IsInfixAmidSpace(s, Strip(s), a, b);
    var t := s + [c];
    assert t[a..b] == s[a..b];
    forall k | 0 <= k < a
      ensures IsSpace(t[k])
    {
      assert t[k] == s[k];
    }
    forall k | b <= k < |t|
      ensures IsSpace(t[k])
    {
      if k < |s| {
        assert t[k] == s[k];
      }
    }
    StripUnique(t, Strip(s), a, b);
  }

  /** The separators U+001C to U+001F are cut off like any other whitespace. */
  lemma StripCutsSeparators()
    ensures Strip("\U{1C}\U{1D} ok\U{1E}\U{1F}") == "ok"
  {
    var s := "\U{1C}\U{1D} ok\U{1E}\U{1F}";
    assert SkipSpace(s, 0) == SkipSpace(s, 1) == SkipSpace(s, 2) == SkipSpace(s, 3) == 3;
    assert BackOverSpace(s, 3, 7) == BackOverSpace(s, 3, 6) == BackOverSpace(s, 3, 5) == 5;
    assert s[3..5] == "ok";
  }
}
