/** Python string operations the budgeting code rests on: strip, splitlines, join. */
module Text {

  /** `str.isspace` for one character. */
  predicate IsSpace(c: char)
  {
    var n := c as int;
    || 9 <= n <= 13 || 28 <= n <= 32 || n == 0x85 || n == 0xA0 || n == 0x1680
    || 0x2000 <= n <= 0x200A || n == 0x2028 || n == 0x2029 || n == 0x202F || n == 0x205F || n == 0x3000
  }

  /** A line boundary of `str.splitlines`. */
  predicate IsBreak(c: char)
  {
    var n := c as int;
    10 <= n <= 13 || 28 <= n <= 30 || n == 0x85 || n == 0x2028 || n == 0x2029
  }

  lemma {:induction false} BreakIsSpace(c: char)
    requires IsBreak(c)
    ensures IsSpace(c)
  {
  }

  predicate NoBreak(s: string)
  {
    forall i :: 0 <= i < |s| ==> !IsBreak(s[i])
  }

  predicate IsBlank(s: string)
  {
    forall i :: 0 <= i < |s| ==> IsSpace(s[i])
  }

  // ----- strip ------------------------------------------------------------------

  function TrimLeft(s: string): (r: string)
    ensures |r| <= |s| && r == s[|s| - |r|..]
    ensures r != [] ==> !IsSpace(r[0])
    ensures IsBlank(s[..|s| - |r|])
  {
    if s != [] && IsSpace(s[0]) then TrimLeft(s[1..]) else s
  }

  function TrimRight(s: string): (r: string)
    ensures |r| <= |s| && r == s[..|r|]
    ensures r != [] ==> !IsSpace(r[|r| - 1])
    ensures IsBlank(s[|r|..])
  {
    if s != [] && IsSpace(s[|s| - 1]) then
      var r := TrimRight(s[..|s| - 1]);
      assert s[|r|..] == s[..|s| - 1][|r|..] + [s[|s| - 1]];
      r
    else s
  }

  /** `str.strip`. */
  function Strip(s: string): (r: string)
  {
    TrimRight(TrimLeft(s))
  }

  predicate Stripped(s: string)
  {
    s != [] ==> !IsSpace(s[0]) && !IsSpace(s[|s| - 1])
  }

  /** Where the stripped text sits in the original. */
  lemma {:induction false} StripSpan(s: string) returns (i: nat)
    ensures i + |Strip(s)| <= |s| && Strip(s) == s[i..i + |Strip(s)|]
    ensures Stripped(Strip(s))
    ensures Strip(s) == [] <==> IsBlank(s)
  {
    hide TrimLeft, TrimRight, IsSpace;
    var l := TrimLeft(s);
    i := |s| - |l|;
    var r := TrimRight(l);
    SliceOfSlice(s, l, r, i);
    if r == [] {
      BlankHalves(s, i);
    }
  }

  lemma {:induction false} SliceOfSlice(s: string, l: string, r: string, i: nat)
    requires i <= |s| && l == s[i..] && |r| <= |l| && r == l[..|r|]
    ensures r == s[i..i + |r|] && (r != [] ==> r[0] == l[0] == s[i]) && l[|r|..] == s[i + |r|..]
  {
  }

  lemma {:induction false} BlankHalves(s: string, i: nat)
    requires i <= |s| && IsBlank(s[..i]) && IsBlank(s[i..])
    ensures IsBlank(s)
  {
    hide IsSpace;
    forall k | 0 <= k < |s|
      ensures IsSpace(s[k])
    {
      assert if k < i then s[k] == s[..i][k] else s[k] == s[i..][k - i];
    }
  }

  lemma {:induction false} StripOfStripped(s: string)
    requires Stripped(s)
    ensures Strip(s) == s
  {
  }

  // ----- splitlines and join ------------------------------------------------------

  /** Index of the first line boundary, or the length. */
  function FirstBreak(s: string): (e: nat)
    ensures e <= |s| && NoBreak(s[..e])
    ensures e < |s| ==> IsBreak(s[e])
  {
    if s == [] || IsBreak(s[0]) then 0 else
      var e := FirstBreak(s[1..]) + 1;
      assert s[..e] == [s[0]] + s[1..][..e - 1];
      e
  }

  /** Characters taken by the boundary at `e`: two for a carriage return and line feed. */
  function BreakWidth(s: string, e: nat): (w: nat)
    requires e <= |s|
    ensures e + w <= |s| && (e < |s| ==> w > 0)
    ensures w == 2 ==> IsBreak(s[e + 1])
  {
    if e == |s| then 0
    else if s[e] == '\r' && e + 1 < |s| && s[e + 1] == '\n' then 2
    else 1
  }

  /** `str.splitlines`. */
  function SplitLines(s: string): (r: seq<string>)
    ensures forall l :: l in r ==> NoBreak(l)
    decreases |s|
  {
    if s == [] then []
    else
      var e := FirstBreak(s);
      if e == |s| then [s[..e]] else [s[..e]] + SplitLines(s[e + BreakWidth(s, e)..])
  }

  /**
    Where lines end: at every boundary character, a carriage return and line feed counting as
    one, and at the end; nothing else is taken away.
   */
  lemma {:induction false} LinesEnd(x: string, c: char, rest: string)
    requires NoBreak(x) && IsBreak(c)
    ensures x != "" ==> SplitLines(x) == [x]
    ensures !(c == '\r' && "\n" <= rest) ==> SplitLines(x + [c] + rest) == [x] + SplitLines(rest)
    ensures SplitLines(x + ['\r', '\n'] + rest) == [x] + SplitLines(rest)
  {
    hide IsBreak, SplitLines;
    LastLine(x);
    if !(c == '\r' && "\n" <= rest) {
      LineEnds(x, [c], rest);
    }
    ReturnBreaks();
    LineEnds(x, ['\r', '\n'], rest);
  }

  lemma {:induction false} ReturnBreaks()
    ensures IsBreak('\r')
  {
  }

  lemma {:induction false} LastLine(x: string)
    requires NoBreak(x)
    ensures x != "" ==> SplitLines(x) == [x]
  {
    hide IsBreak;
    FirstBreakIs(x, |x|);
    assert x[..|x|] == x;
  }

  lemma {:induction false} LineEnds(x: string, end: string, rest: string)
    requires NoBreak(x) && |end| >= 1 && IsBreak(end[0])
    requires end == ['\r', '\n'] || (|end| == 1 && !(end[0] == '\r' && "\n" <= rest))
    ensures SplitLines(x + end + rest) == [x] + SplitLines(rest)
  {
    hide IsBreak, FirstBreak;
    var s := x + end + rest;
    assert s[|x|] == end[0] && forall k :: 0 <= k < |x| ==> s[k] == x[k];
    FirstBreakIs(s, |x|);
    assert |x| + 1 < |s| ==> s[|x| + 1] == if |end| == 2 then end[1] else rest[0];
    assert BreakWidth(s, |x|) == |end|;
    assert s[..|x|] == x && s[|x| + |end|..] == rest;
  }

  lemma {:induction false} FirstBreakIs(s: string, e: nat)
    requires e <= |s| && (forall k :: 0 <= k < e ==> !IsBreak(s[k])) && (e < |s| ==> IsBreak(s[e]))
    ensures FirstBreak(s) == e
  {
    hide IsBreak;
    var f := FirstBreak(s);
    assert forall k :: 0 <= k < f ==> s[..f][k] == s[k];
  }

  /** `"\n".join`. */
  function Join(lines: seq<string>): (r: string)
  {
    if lines == [] then "" else if |lines| == 1 then lines[0] else lines[0] + "\n" + Join(lines[1..])
  }

  lemma {:induction false} FirstBreakAt(x: string, rest: string)
    requires NoBreak(x)
    ensures FirstBreak(x + "\n" + rest) == |x| && FirstBreak(x) == |x|
    ensures BreakWidth(x + "\n" + rest, |x|) == 1
  {
    var s := x + "\n" + rest;
    assert s[|x|] == '\n';
    var e := FirstBreak(s);
    assert forall k :: 0 <= k < |x| ==> s[k] == x[k];
  }

  /** Joining and splitting are inverse on nonempty lines. */
  lemma {:induction false} SplitOfJoin(lines: seq<string>)
    requires forall l :: l in lines ==> l != [] && NoBreak(l)
    ensures SplitLines(Join(lines)) == lines
    decreases |lines|
  {
    hide FirstBreak, BreakWidth, NoBreak;
    if |lines| == 1 {
      FirstBreakAt(lines[0], "");
      assert lines[0][..|lines[0]|] == lines[0];
    } else if |lines| > 1 {
      var x, rest := lines[0], Join(lines[1..]);
      FirstBreakAt(x, rest);
      assert forall l :: l in lines[1..] ==> l in lines;
      SplitOfJoin(lines[1..]);
      AroundBreak(x, rest);
      assert lines == [x] + lines[1..];
    }
  }

  lemma {:induction false} AroundBreak(x: string, rest: string)
    ensures var s := x + "\n" + rest; s[..|x|] == x && s[|x| + 1..] == rest
  {
  }

  lemma {:induction false} JoinSnoc(lines: seq<string>, l: string)
    ensures |Join(lines + [l])| == if lines == [] then |l| else |Join(lines)| + 1 + |l|
    ensures lines != [] ==> Join(lines + [l]) == Join(lines) + "\n" + l
  {
    if lines == [] {
      assert lines + [l] == [l];
    } else if |lines| == 1 {
      assert (lines + [l])[1..] == [l];
    } else {
      JoinSnoc(lines[1..], l);
      assert (lines + [l])[1..] == lines[1..] + [l];
      assert lines[0] + "\n" + (Join(lines[1..]) + "\n" + l) == (lines[0] + "\n" + Join(lines[1..])) + "\n" + l;
    }
  }

  // ----- tokens --------------------------------------------------------------------

  /** `estimate_tokens`: four characters per token, none for blank text. */
  function Tokens(s: string): (n: nat)
    ensures n == 0 <==> IsBlank(s)
    ensures n > 0 ==> |s| < 4 * n + 4 && (n == 1 || 4 * n <= |s|)
  {
    if IsBlank(s) then 0 else if |s| / 4 < 1 then 1 else |s| / 4
  }

  /** `total_tokens`. */
  function TotalTokens(texts: seq<string>): (n: nat)
  {
    if texts == [] then 0 else Tokens(texts[0]) + TotalTokens(texts[1..])
  }

  lemma {:induction false} TotalConcat(a: seq<string>, b: seq<string>)
    ensures TotalTokens(a + b) == TotalTokens(a) + TotalTokens(b)
  {
    if a == [] {
      assert a + b == b;
    } else {
      assert (a + b)[1..] == a[1..] + b;
      TotalConcat(a[1..], b);
    }
  }
}
