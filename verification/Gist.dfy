/**
  Gist texts: fitting complete facts to a budget (tsm/budget.py
  `fit_complete_facts_to_budget`) and reading the facts of a stored gist back
  (tsm/compaction.py `_gist_lines`).
 */
module Gist {
  import opened Text

  // ----- finding the facts of a generated text ------------------------------------

  /** `[line.strip() for line in lines if line.strip()]`. */
  function Nonblank(lines: seq<string>): (r: seq<string>)
  {
    if lines == [] then []
    else if Strip(lines[0]) == [] then Nonblank(lines[1..])
    else [Strip(lines[0])] + Nonblank(lines[1..])
  }

  predicate EndsSentence(c: char)
  {
    c == '.' || c == '!' || c == '?'
  }

  /** First index after a sentence mark that holds white space, or the length. */
  function SentenceEnd(s: string, p: nat): (e: nat)
    requires 1 <= p <= |s|
    ensures p <= e <= |s|
    decreases |s| - p
  {
    if p == |s| || (EndsSentence(s[p - 1]) && IsSpace(s[p])) then p else SentenceEnd(s, p + 1)
  }

  /** `re.split` after each sentence mark, at the white space that follows it. */
  function Sentences(s: string): (r: seq<string>)
    decreases |s|
  {
    if s == [] then []
    else
      var e := SentenceEnd(s, 1);
      [s[..e]] + Sentences(TrimLeft(s[e..]))
  }

  predicate IsDigit(c: char)
  {
    '0' <= c <= '9'
  }

  function Digits(s: string): (n: nat)
    ensures n <= |s|
  {
    if s != [] && IsDigit(s[0]) then 1 + Digits(s[1..]) else 0
  }

  /** Characters of a leading bullet (`-`, `*`) or number (`12.`, `12)`). */
  function BulletWidth(s: string): (n: nat)
    ensures n <= |s|
  {
    if s == [] then 0
    else if s[0] == '-' || s[0] == '*' then 1
    else
      var d := Digits(s);
      if 0 < d < |s| && (s[d] == '.' || s[d] == ')') then d + 1 else 0
  }

  function Unbulleted(lines: seq<string>): (r: seq<string>)
  {
    if lines == [] then []
    else
      var fact := Strip(lines[0][BulletWidth(lines[0])..]);
      if fact == [] then Unbulleted(lines[1..]) else [fact] + Unbulleted(lines[1..])
  }

  /** The fact units of a generated text. */
  function Facts(text: string): (r: seq<string>)
  {
    var lines := Nonblank(SplitLines(text));
    Unbulleted(if |lines| <= 1 then Nonblank(Sentences(text)) else lines)
  }

  // ----- every fact is one stripped, nonempty line ------------------------------------

  predicate FactOk(f: string)
  {
    f != [] && Stripped(f) && NoBreak(f)
  }

  /** `p` occurs in `s` at `i`. */
  predicate At(s: string, p: string, i: nat)
  {
    i + |p| <= |s| && forall k {:trigger p[k]} :: 0 <= k < |p| ==> p[k] == s[i + k]
  }

  lemma {:induction false} AtAt(s: string, p: string, q: string, i: nat, j: nat)
    requires At(s, p, i) && At(p, q, j)
    ensures At(s, q, i + j)
  {
    forall k | 0 <= k < |q|
      ensures q[k] == s[i + j + k]
    {
      assert q[k] == p[j + k] && p[j + k] == s[i + (j + k)];
    }
  }

  lemma {:induction false} NonblankSource(lines: seq<string>, l: string) returns (x: string, i: nat)
    requires l in Nonblank(lines)
    ensures x in lines && l == Strip(x) && l != [] && At(x, l, i)
  {
    if Strip(lines[0]) != [] && l == Strip(lines[0]) {
      x := lines[0];
      i := StripSpan(x);
    } else {
      x, i := NonblankSource(lines[1..], l);
    }
  }

  lemma {:induction false} UnbulletedSource(lines: seq<string>, f: string) returns (x: string, i: nat)
    requires f in Unbulleted(lines)
    ensures x in lines && f != [] && Stripped(f) && At(x, f, i)
  {
    hide Strip, BulletWidth, IsSpace;
    var y := lines[0][BulletWidth(lines[0])..];
    var k := StripSpan(y);
    if Strip(y) != [] && f == Strip(y) {
      x, i := lines[0], BulletWidth(lines[0]) + k;
      assert At(x, y, BulletWidth(x)) && At(y, f, k);
      hide At;
      AtAt(x, y, f, BulletWidth(x), k);
    } else {
      x, i := UnbulletedSource(lines[1..], f);
    }
  }

  lemma {:induction false} TailAt(s: string, t: string, e: nat)
    requires e <= |s| && |t| <= |s| - e && t == s[e..][|s| - e - |t|..]
    ensures At(s, t, |s| - |t|)
  {
  }

  lemma {:induction false} SentenceSource(s: string, p: string) returns (i: nat)
    requires p in Sentences(s)
    ensures At(s, p, i)
    decreases |s|
  {
    hide SentenceEnd, TrimLeft, IsSpace, At;
    var e := SentenceEnd(s, 1);
    var t := TrimLeft(s[e..]);
    if p == s[..e] {
      i := 0;
      PrefixAt(s, e);
    } else {
      var j := SentenceSource(t, p);
      i := |s| - |t| + j;
      TailAt(s, t, e);
      AtAt(s, t, p, |s| - |t|, j);
    }
  }

  lemma {:induction false} PrefixAt(s: string, e: nat)
    requires e <= |s|
    ensures At(s, s[..e], 0)
  {
  }

  lemma {:induction false} SomeLine(s: string, j: nat)
    requires j < |s| && !IsSpace(s[j])
    ensures |Nonblank(SplitLines(s))| >= 1
    decreases |s|
  {
    hide IsSpace, IsBreak, Strip, Nonblank, SplitLines;
    var e := FirstBreak(s);
    if e == |s| {
      OnlyLine(s, j);
    } else {
      FirstLine(s);
      if j < e {
        assert !IsSpace(s[..e][j]);
      } else {
        var w := BreakWidth(s, e);
        BreakIsSpace(s[e]);
        if w == 2 {
          BreakIsSpace(s[e + 1]);
        }
        SomeLine(s[e + w..], j - e - w);
      }
    }
  }

  lemma {:induction false} OnlyLine(s: string, j: nat)
    requires FirstBreak(s) == |s| && j < |s| && !IsSpace(s[j])
    ensures |Nonblank(SplitLines(s))| >= 1
  {
    hide IsSpace, IsBreak, Strip, FirstBreak, BreakWidth;
    var k := StripSpan(s);
    assert s[..|s|] == s;
  }

  /** Text on both sides of a line boundary makes two lines. */
  lemma {:induction false} TwoLines(s: string, i: nat, q: nat, j: nat)
    requires i < q < j < |s| && !IsSpace(s[i]) && IsBreak(s[q]) && !IsSpace(s[j])
    ensures |Nonblank(SplitLines(s))| >= 2
    decreases |s|
  {
    hide IsSpace, IsBreak, Strip, Nonblank, SplitLines;
    BreakIsSpace(s[q]);
    var e := FirstBreak(s);
    assert e <= q;
    var w := BreakWidth(s, e);
    BreakIsSpace(s[e]);
    if w == 2 {
      BreakIsSpace(s[e + 1]);
    }
    FirstLine(s);
    if i < e {
      assert !IsSpace(s[..e][i]);
      SomeLine(s[e + w..], j - e - w);
    } else {
      TwoLines(s[e + w..], i - e - w, q - e - w, j - e - w);
    }
  }

  lemma {:induction false} FirstLine(s: string)
    requires FirstBreak(s) < |s|
    ensures var e := FirstBreak(s);
            |Nonblank(SplitLines(s))|
            == (if IsBlank(s[..e]) then 0 else 1) + |Nonblank(SplitLines(s[e + BreakWidth(s, e)..]))|
  {
    hide IsSpace, IsBreak, Strip, FirstBreak, BreakWidth;
    var e := FirstBreak(s);
    var k := StripSpan(s[..e]);
    var rest := SplitLines(s[e + BreakWidth(s, e)..]);
    assert SplitLines(s)[1..] == rest;
  }

  lemma {:induction false} FactsAreLines(text: string, f: string)
    requires f in Facts(text)
    ensures FactOk(f)
  {
    hide IsSpace, IsBreak, Nonblank, SplitLines, Sentences, Unbulleted, FactOk;
    if |Nonblank(SplitLines(text))| <= 1 {
      SentenceFact(text, f);
    } else {
      LineFact(text, f);
    }
  }

  lemma {:induction false} SentenceFact(text: string, f: string)
    requires |Nonblank(SplitLines(text))| <= 1 && f in Unbulleted(Nonblank(Sentences(text)))
    ensures FactOk(f)
  {
    hide At, IsSpace, IsBreak, Nonblank, SplitLines, Sentences, Unbulleted, NoBreak, Strip, Stripped;
    var l, i := UnbulletedSource(Nonblank(Sentences(text)), f);
    var p, j := NonblankSource(Sentences(text), l);
    var k := SentenceSource(text, p);
    AtAt(p, l, f, j, i);
    AtAt(text, p, f, k, j + i);
    OneLineHasNoBreak(text, f, k + (j + i));
  }

  lemma {:induction false} LineFact(text: string, f: string)
    requires f in Unbulleted(Nonblank(SplitLines(text)))
    ensures FactOk(f)
  {
    hide At, IsSpace, IsBreak, Nonblank, Unbulleted, NoBreak, Strip, Stripped;
    var l, i := UnbulletedSource(Nonblank(SplitLines(text)), f);
    var p, j := NonblankSource(SplitLines(text), l);
    AtAt(p, l, f, j, i);
    PartHasNoBreak(p, f, j + i);
  }

  lemma {:induction false} PartHasNoBreak(p: string, f: string, i: nat)
    requires NoBreak(p) && At(p, f, i)
    ensures NoBreak(f)
  {
    hide IsBreak;
  }

  lemma {:induction false} OneLineHasNoBreak(text: string, f: string, k: nat)
    requires |Nonblank(SplitLines(text))| <= 1 && f != [] && Stripped(f) && At(text, f, k)
    ensures NoBreak(f)
  {
    hide IsBreak, IsSpace, Nonblank, SplitLines;
    forall n | 0 <= n < |f|
      ensures !IsBreak(f[n])
    {
      assert f[n] == text[k + n] && f[0] == text[k] && f[|f| - 1] == text[k + |f| - 1];
      if IsBreak(f[n]) {
        BreakIsSpace(f[n]);
        TwoLines(text, k, k + n, k + |f| - 1);
      }
    }
  }

  // ----- which facts they are --------------------------------------------------------------

  /** `line` is the fact `f` as a model lists it: plain, behind a dash or a star, or numbered `12.` or `12)`. */
  ghost predicate Lists(line: string, f: string)
  {
    || line == "- " + f || line == "* " + f
    || (line == f && f != "" && f[0] != '-' && f[0] != '*' && !('0' <= f[0] <= '9'))
    || exists d: string :: d != "" && (forall i :: 0 <= i < |d| ==> '0' <= d[i] <= '9')
                           && (line == d + ". " + f || line == d + ") " + f)
  }

  lemma {:induction false} DigitsOf(d: string, rest: string)
    requires (forall i :: 0 <= i < |d| ==> '0' <= d[i] <= '9') && rest != "" && !IsDigit(rest[0])
    ensures Digits(d + rest) == |d|
  {
    if d == "" {
      assert d + rest == rest;
    } else {
      assert (d + rest)[1..] == d[1..] + rest;
      DigitsOf(d[1..], rest);
    }
  }

  /** What is behind a bullet of width `w` and a blank. */
  lemma {:induction false} BehindBullet(line: string, f: string, w: nat)
    requires Bulleted(line, f, w) && FactOk(f)
    ensures Strip(line[BulletWidth(line)..]) == f
  {
    hide BulletWidth, IsSpace, IsBreak, Strip;
    assert line[w..] == [' '] + f;
    StripPadded(f);
  }

  lemma {:induction false} StripPadded(f: string)
    requires FactOk(f)
    ensures Strip([' '] + f) == f
  {
    var s := [' '] + f;
    assert s[1..] == f;
    assert TrimLeft(s) == TrimLeft(f) == f;
    assert TrimRight(f) == f;
  }

  /** `line` is a bullet of width `w`, a blank, and `f`. */
  ghost predicate Bulleted(line: string, f: string, w: nat)
  {
    && w + 1 + |f| == |line| && line[w] == ' ' && line[w + 1..] == f && BulletWidth(line) == w && w > 0 && !IsSpace(line[0])
    && forall i :: 0 <= i < w ==> !IsBreak(line[i])
  }

  lemma {:induction false} ListedWidth(line: string, f: string) returns (w: nat)
    requires Lists(line, f) && line != f
    ensures Bulleted(line, f, w)
  {
    hide Bulleted;
    if line == "- " + f || line == "* " + f {
      w := 1;
      DashWidth(line, f);
    } else {
      var d: string :| d != "" && (forall i :: 0 <= i < |d| ==> '0' <= d[i] <= '9') && (line == d + ". " + f || line == d + ") " + f);
      w := |d| + 1;
      NumberWidth(line, f, d, if line == d + ". " + f then '.' else ')');
    }
  }

  lemma {:induction false} DashWidth(line: string, f: string)
    requires line == "- " + f || line == "* " + f
    ensures Bulleted(line, f, 1)
  {
    assert line[2..] == f;
  }

  lemma {:induction false} NumberWidth(line: string, f: string, d: string, mark: char)
    requires d != "" && (forall i :: 0 <= i < |d| ==> '0' <= d[i] <= '9')
    requires (mark == '.' || mark == ')') && line == d + [mark] + " " + f
    ensures Bulleted(line, f, |d| + 1)
  {
    var rest := [mark] + " " + f;
    assert line == d + rest;
    DigitsOf(d, rest);
    assert line[0] == d[0] && line[|d|] == mark && line[|d| + 1] == ' ' && line[|d| + 2..] == f;
    forall i | 0 <= i < |d| + 1
      ensures !IsBreak(line[i])
    {
      assert i < |d| ==> line[i] == d[i];
    }
  }

  lemma {:induction false} ListedReads(line: string, f: string)
    requires Lists(line, f) && FactOk(f)
    ensures Strip(line[BulletWidth(line)..]) == f && FactOk(line)
  {
    hide IsSpace, IsBreak, Strip, BulletWidth, Lists;
    if line == f {
      PlainWidth(f);
      assert line[0..] == line;
      StripOfStripped(f);
    } else {
      var w := ListedWidth(line, f);
      BehindBullet(line, f, w);
      assert line[|line| - 1] == f[|f| - 1];
      forall i | 0 <= i < |line|
        ensures !IsBreak(line[i])
      {
        BlankIsNoBreak();
        assert i > w ==> line[i] == f[i - w - 1];
      }
    }
  }

  lemma {:induction false} PlainWidth(f: string)
    requires Lists(f, f) && f != ""
    ensures BulletWidth(f) == 0
  {
  }

  lemma {:induction false} BlankIsNoBreak()
    ensures !IsBreak(' ')
  {
  }

  /** A reply that lists two or more facts is read as exactly those facts, however each line is marked. */
  lemma {:induction false} ListIsRead(lines: seq<string>, facts: seq<string>)
    requires |lines| == |facts| >= 2
    requires forall i :: 0 <= i < |facts| ==> FactOk(facts[i]) && Lists(lines[i], facts[i])
    ensures Facts(Join(lines)) == facts
  {
    hide IsSpace, IsBreak, Strip, BulletWidth, Lists, SplitLines, Join, Nonblank, Unbulleted, Sentences;
    forall l | l in lines
      ensures FactOk(l)
    {
      var i :| 0 <= i < |lines| && lines[i] == l;
      ListedReads(lines[i], facts[i]);
    }
    SplitOfJoin(lines);
    NonblankAll(lines);
    UnbulletAll(lines, facts);
  }

  lemma {:induction false} NonblankAll(lines: seq<string>)
    requires forall l :: l in lines ==> FactOk(l)
    ensures Nonblank(lines) == lines
  {
    hide IsSpace, Strip;
    if lines != [] {
      assert lines[0] in lines && forall l :: l in lines[1..] ==> l in lines;
      StripOfStripped(lines[0]);
      NonblankAll(lines[1..]);
    }
  }

  lemma {:induction false} UnbulletAll(lines: seq<string>, facts: seq<string>)
    requires |lines| == |facts| && forall i :: 0 <= i < |facts| ==> FactOk(facts[i]) && Lists(lines[i], facts[i])
    ensures Unbulleted(lines) == facts
  {
    hide IsSpace, IsBreak, Strip, BulletWidth, Lists;
    if lines != [] {
      ListedReads(lines[0], facts[0]);
      UnbulletAll(lines[1..], facts[1..]);
      assert [facts[0]] + facts[1..] == facts;
    }
  }

  /** Positions counted from `n` places further back. */
  function Moved(at: seq<nat>, n: nat): (r: seq<nat>)
    ensures |r| == |at| && forall k :: 0 <= k < |at| ==> r[k] == at[k] + n
  {
    seq(|at|, k requires 0 <= k < |at| => at[k] + n)
  }

  /** Line `line` without its bullet, or nothing. */
  function Content(line: string): (r: string)
  {
    Strip(Strip(line)[BulletWidth(Strip(line))..])
  }

  /** No line is lost: the facts are, in order, the contents of the lines that have any. */
  lemma {:induction false} LinesAreRead(lines: seq<string>) returns (at: seq<nat>)
    ensures var facts := Unbulleted(Nonblank(lines));
            && |at| == |facts| && (forall k :: 0 <= k < |at| ==> at[k] < |lines| && facts[k] == Content(lines[at[k]]))
            && (forall k, l :: 0 <= k < l < |at| ==> at[k] < at[l])
            && (forall i: nat :: i < |lines| ==> (i in at <==> Content(lines[i]) != ""))
  {
    hide Content, Nonblank, Unbulleted;
    at := [];
    if lines == [] {
      NothingRead();
    } else {
      var tail := LinesAreRead(lines[1..]);
      NonblankCons(lines);
      at := ConsPositions(tail, Content(lines[0]) != "");
    }
  }

  lemma {:induction false} NothingRead()
    ensures Unbulleted(Nonblank([])) == []
  {
  }

  /** Positions in a list from those in its tail. */
  lemma {:induction false} ConsPositions(tail: seq<nat>, own: bool) returns (at: seq<nat>)
    requires forall k, l :: 0 <= k < l < |tail| ==> tail[k] < tail[l]
    ensures var n := if own then 1 else 0;
            && |at| == n + |tail| && (own ==> at[0] == 0) && (forall k :: n <= k < |at| ==> at[k] == tail[k - n] + 1)
            && (forall k, l :: 0 <= k < l < |at| ==> at[k] < at[l])
            && (forall i: nat :: i in at <==> if i == 0 then own else i - 1 in tail)
  {
    at := (if own then [0] else []) + Moved(tail, 1);
    forall i: nat | i > 0
      ensures i in at <==> i - 1 in tail
    {
      Shifted(tail, i);
    }
  }

  lemma {:induction false} Shifted(at: seq<nat>, i: nat)
    requires i > 0
    ensures i in Moved(at, 1) <==> i - 1 in at
  {
    var later := Moved(at, 1);
    if i - 1 in at {
      var k :| 0 <= k < |at| && at[k] == i - 1;
      assert later[k] == i;
    }
  }

  lemma {:induction false} BlankContent(line: string)
    requires Strip(line) == ""
    ensures Content(line) == ""
  {
  }

  lemma {:induction false} NonblankCons(lines: seq<string>)
    requires lines != []
    ensures Unbulleted(Nonblank(lines))
            == (if Content(lines[0]) == "" then [] else [Content(lines[0])]) + Unbulleted(Nonblank(lines[1..]))
  {
    hide Strip, BulletWidth;
    if Strip(lines[0]) == "" {
      BlankContent(lines[0]);
    } else {
      assert Nonblank(lines)[1..] == Nonblank(lines[1..]);
    }
  }

  /** A sentence mark at `q - 1` with white space behind it. */
  predicate Boundary(s: string, q: nat)
    requires 1 <= q < |s|
  {
    (s[q - 1] == '.' || s[q - 1] == '!' || s[q - 1] == '?') && IsSpace(s[q])
  }

  lemma {:induction false} FirstBoundary(s: string, p: nat)
    requires 1 <= p <= |s|
    ensures SentenceEnd(s, p) < |s| ==> Boundary(s, SentenceEnd(s, p))
    ensures forall q :: p <= q < SentenceEnd(s, p) ==> !Boundary(s, q)
    decreases |s| - p
  {
    hide IsSpace;
    if !(p == |s| || (EndsSentence(s[p - 1]) && IsSpace(s[p]))) {
      FirstBoundary(s, p + 1);
    }
  }

  /** Where the part behind the `k`-th starts, or the end. */
  function NextStart(s: string, at: seq<nat>, k: nat): (r: nat)
    requires k < |at|
  {
    if k + 1 < |at| then at[k + 1] else |s|
  }

  /** `parts` stand in `s` from `at` on, with nothing but white space between and behind them. */
  ghost predicate Covers(s: string, parts: seq<string>, at: seq<nat>)
  {
    && |at| == |parts| && (s != "" ==> parts != [] && at[0] == 0)
    && forall k :: 0 <= k < |parts| ==> StandsAt(s, parts[k], at[k], NextStart(s, at, k))
  }

  /** From `at` to `end` there is `part` and then white space. */
  ghost predicate StandsAt(s: string, part: string, at: nat, end: nat)
  {
    at + |part| <= end <= |s| && s[at..at + |part|] == part && IsBlank(s[at + |part|..end])
  }

  /** Every part ends behind a sentence mark or at the end of `s`, and holds no mark with white space behind it. */
  ghost predicate AtMarks(s: string, parts: seq<string>, at: seq<nat>)
  {
    && |at| == |parts|
    && (forall k :: 0 <= k < |at| ==> 1 <= at[k] + |parts[k]| <= |s|)
    && (forall k :: 0 <= k < |at| && at[k] + |parts[k]| < |s| ==> Boundary(s, at[k] + |parts[k]|))
    && (forall k, q :: 0 <= k < |at| && 1 <= q < |parts[k]| ==> !Boundary(parts[k], q))
  }

  /**
    A text on one line is cut into its sentences: nothing but white space is lost, every cut
    is behind a sentence mark, and no sentence holds another such mark.
   */
  lemma {:induction false} SentencesCover(s: string) returns (at: seq<nat>)
    ensures Covers(s, Sentences(s), at) && AtMarks(s, Sentences(s), at)
    decreases |s|
  {
    hide IsSpace, SentenceEnd, TrimLeft, Boundary, Covers, AtMarks;
    at := [];
    if s == "" {
      NoSentences();
    } else {
      var e := SentenceEnd(s, 1);
      var t := TrimLeft(s[e..]);
      var tail := SentencesCover(t);
      FirstBoundary(s, 1);
      at := [0] + Moved(tail, |s| - |t|);
      CoversOn(s, e, t, Sentences(t), tail);
      MarksOn(s, e, t, Sentences(t), tail);
    }
  }

  lemma {:induction false} NoSentences()
    ensures Covers("", Sentences(""), []) && AtMarks("", Sentences(""), [])
  {
  }

  lemma {:induction false} MarksOn(s: string, e: nat, t: string, parts: seq<string>, tail: seq<nat>)
    requires 1 <= e <= |s| && |t| <= |s| - e && t == s[e..][|s| - e - |t|..] && AtMarks(t, parts, tail)
    requires (e < |s| ==> Boundary(s, e)) && forall q :: 1 <= q < e ==> !Boundary(s, q)
    ensures AtMarks(s, [s[..e]] + parts, [0] + Moved(tail, |s| - |t|))
  {
    hide Boundary;
    var n := |s| - |t|;
    assert t == s[n..];
    var all, at := [s[..e]] + parts, [0] + Moved(tail, n);
    forall k | 0 <= k < |at| && at[k] + |all[k]| < |s|
      ensures Boundary(s, at[k] + |all[k]|)
    {
      if k > 0 {
        SameBoundary(s, t, n, tail[k - 1] + |parts[k - 1]|);
      }
    }
    forall k, q | 0 <= k < |at| && 1 <= q < |all[k]|
      ensures !Boundary(all[k], q)
    {
      if k == 0 {
        PrefixBoundary(s, e, q);
      }
    }
  }

  lemma {:induction false} PrefixBoundary(s: string, e: nat, q: nat)
    requires 1 <= q < e <= |s|
    ensures Boundary(s[..e], q) == Boundary(s, q)
  {
  }

  lemma {:induction false} SameBoundary(s: string, t: string, n: nat, q: nat)
    requires n + |t| == |s| && t == s[n..] && 1 <= q < |t|
    ensures Boundary(s, n + q) == Boundary(t, q)
  {
  }

  lemma {:induction false} CoversOn(s: string, e: nat, t: string, parts: seq<string>, tail: seq<nat>)
    requires 1 <= e <= |s| && |t| <= |s| - e && t == s[e..][|s| - e - |t|..] && IsBlank(s[e..][..|s| - e - |t|])
    requires Covers(t, parts, tail) && (t == "" ==> parts == [])
    ensures Covers(s, [s[..e]] + parts, [0] + Moved(tail, |s| - |t|))
  {
    hide IsSpace, StandsAt, Moved;
    var n := |s| - |t|;
    SplitAt(s, e, t);
    var all, at := [s[..e]] + parts, [0] + Moved(tail, n);
    FirstStands(s, e, n);
    forall k | 0 <= k < |all|
      ensures StandsAt(s, all[k], at[k], NextStart(s, at, k))
    {
      if k > 0 {
        var i := k - 1;
        assert all[k] == parts[i] && at[k] == n + tail[i] && NextStart(s, at, k) == n + NextStart(t, tail, i);
        StandsLater(s, t, n, parts[i], tail[i], NextStart(t, tail, i));
      } else {
        assert NextStart(s, at, 0) == n;
      }
    }
  }

  lemma {:induction false} SplitAt(s: string, e: nat, t: string)
    requires e <= |s| && |t| <= |s| - e && t == s[e..][|s| - e - |t|..]
    ensures var n := |s| - |t|; t == s[n..] && s[e..][..n - e] == s[e..n]
  {
  }

  lemma {:induction false} FirstStands(s: string, e: nat, n: nat)
    requires e <= n <= |s| && IsBlank(s[e..n])
    ensures StandsAt(s, s[..e], 0, n)
  {
  }

  lemma {:induction false} StandsLater(s: string, t: string, n: nat, part: string, at: nat, end: nat)
    requires n + |t| == |s| && t == s[n..] && StandsAt(t, part, at, end)
    ensures StandsAt(s, part, n + at, n + end)
  {
    hide IsSpace;
    assert t[at..at + |part|] == s[n + at..n + at + |part|];
    assert t[at + |part|..end] == s[n + at + |part|..n + end];
  }

  // ----- fitting ------------------------------------------------------------------------

  function Bullets(facts: seq<string>): (r: seq<string>)
    ensures |r| == |facts|
    ensures forall i :: 0 <= i < |facts| ==> r[i] == "- " + facts[i]
  {
    if facts == [] then [] else ["- " + facts[0]] + Bullets(facts[1..])
  }

  /** Printed size of a list of facts. */
  function Size(facts: seq<string>): (n: nat)
  {
    Tokens(Join(Bullets(facts)))
  }

  /** The facts kept, each one only if everything kept so far still fits with it. */
  function KeepFrom(selected: seq<string>, facts: seq<string>, budget: int): (r: seq<string>)
    ensures selected <= r
    decreases |facts|
  {
    if facts == [] then selected
    else KeepFrom(if Size(selected + [facts[0]]) <= budget then selected + [facts[0]] else selected, facts[1..], budget)
  }

  function Kept(text: string, budget: int): (r: seq<string>)
  {
    if text == [] || budget <= 0 then [] else KeepFrom([], Facts(text), budget)
  }

  lemma {:induction false} BulletsSnoc(facts: seq<string>, f: string)
    ensures Bullets(facts + [f]) == Bullets(facts) + ["- " + f]
  {
  }

  /** `fit_complete_facts_to_budget`. */
  method FitCompleteFacts(text: string, budget: int) returns (gist: string)
    ensures gist == Join(Bullets(Kept(text, budget)))
  {
    if text == [] || budget <= 0 {
      return "";
    }
    var facts := Facts(text);
    var selected: seq<string> := [];
    ghost var kept: seq<string> := [];
    for i := 0 to |facts|
      invariant selected == Bullets(kept)
      invariant KeepFrom(kept, facts[i..], budget) == KeepFrom([], facts, budget)
    {
      assert facts[i..][1..] == facts[i + 1..];
      BulletsSnoc(kept, facts[i]);
      var candidate := Join(selected + ["- " + facts[i]]);
      if Tokens(candidate) <= budget {
        selected := selected + ["- " + facts[i]];
        kept := kept + [facts[i]];
      }
    }
    gist := Join(selected);
  }

  lemma {:induction false} KeepFits(selected: seq<string>, facts: seq<string>, budget: int)
    requires Size(selected) <= budget
    ensures Size(KeepFrom(selected, facts, budget)) <= budget
    decreases |facts|
  {
    if facts != [] {
      hide Size;
      var next := if Size(selected + [facts[0]]) <= budget then selected + [facts[0]] else selected;
      KeepFits(next, facts[1..], budget);
    }
  }

  /** A fitted gist never exceeds its limit, whatever text it was made from. */
  lemma {:induction false} FitIsWithinBudget(text: string, budget: nat)
    ensures Size(Kept(text, budget)) <= budget
  {
    if text != [] && budget > 0 {
      KeepFits([], Facts(text), budget);
    }
  }

  /** `r` picks whole elements of `facts`, in order. */
  ghost predicate Subsequence(r: seq<string>, facts: seq<string>)
    decreases |facts|
  {
    r == [] || (facts != [] && ((r[0] == facts[0] && Subsequence(r[1..], facts[1..])) || Subsequence(r, facts[1..])))
  }

  lemma {:induction false} KeepIsSubsequence(selected: seq<string>, facts: seq<string>, budget: int)
    ensures Subsequence(KeepFrom(selected, facts, budget)[|selected|..], facts)
    decreases |facts|
  {
    if facts != [] {
      hide Size;
      var r := KeepFrom(selected, facts, budget);
      if Size(selected + [facts[0]]) <= budget {
        KeepIsSubsequence(selected + [facts[0]], facts[1..], budget);
        assert r[|selected|..][1..] == r[|selected| + 1..];
        assert r[|selected|] == (selected + [facts[0]])[|selected|];
      } else {
        KeepIsSubsequence(selected, facts[1..], budget);
      }
    }
  }

  lemma {:induction false} SizeGrows(a: seq<string>, b: seq<string>, f: string)
    requires f != [] && !IsSpace(f[0])
    ensures Size(a + [f]) <= Size(a + b + [f])
    decreases |b|
  {
    JoinLonger(a, b, f);
    BulletShown(a, f);
    BulletShown(a + b, f);
  }

  lemma {:induction false} BulletShown(a: seq<string>, f: string)
    requires f != []
    ensures !IsBlank(Join(Bullets(a + [f])))
  {
    BulletsSnoc(a, f);
    JoinSnoc(Bullets(a), "- " + f);
    var s := Join(Bullets(a + [f]));
    assert s[|s| - |f| - 2] == '-';
  }

  lemma {:induction false} JoinLonger(a: seq<string>, b: seq<string>, f: string)
    ensures |Join(Bullets(a + [f]))| <= |Join(Bullets(a + b + [f]))|
    decreases |b|
  {
    if b == [] {
      assert a + b == a;
    } else {
      var c, x := b[..|b| - 1], b[|b| - 1];
      JoinLonger(a, c, f);
      assert a + b == (a + c) + [x];
      BulletsSnoc(a + c, f);
      JoinSnoc(Bullets(a + c), "- " + f);
      BulletsSnoc(a + b, f);
      JoinSnoc(Bullets(a + b), "- " + f);
      BulletsSnoc(a + c, x);
      JoinSnoc(Bullets(a + c), "- " + x);
    }
  }

  /** Which of the facts are kept, position by position. */
  function Choices(selected: seq<string>, facts: seq<string>, budget: int): (r: seq<bool>)
    ensures |r| == |facts|
    decreases |facts|
  {
    if facts == [] then []
    else
      var take := Size(selected + [facts[0]]) <= budget;
      [take] + Choices(if take then selected + [facts[0]] else selected, facts[1..], budget)
  }

  /** The facts at the chosen positions, in order. */
  function Chosen(facts: seq<string>, choices: seq<bool>): (r: seq<string>)
    requires |choices| == |facts|
  {
    if facts == [] then [] else (if choices[0] then [facts[0]] else []) + Chosen(facts[1..], choices[1..])
  }

  lemma {:induction false} KeepIsChosen(selected: seq<string>, facts: seq<string>, budget: int)
    ensures KeepFrom(selected, facts, budget) == selected + Chosen(facts, Choices(selected, facts, budget))
    decreases |facts|
  {
    hide Size;
    if facts != [] {
      var take := Size(selected + [facts[0]]) <= budget;
      KeepIsChosen(if take then selected + [facts[0]] else selected, facts[1..], budget);
      assert Choices(selected, facts, budget)[1..]
             == Choices(if take then selected + [facts[0]] else selected, facts[1..], budget);
    }
  }

  /** No skipped fact could be added to what was kept, a second copy of a kept one included. */
  lemma {:induction false} KeepIsMaximal(selected: seq<string>, facts: seq<string>, budget: int, i: nat)
    requires i < |facts| && facts[i] != [] && !IsSpace(facts[i][0])
    ensures Choices(selected, facts, budget)[i] || Size(KeepFrom(selected, facts, budget) + [facts[i]]) > budget
    decreases |facts|
  {
    hide Size;
    var r := KeepFrom(selected, facts, budget);
    var take := Size(selected + [facts[0]]) <= budget;
    if i > 0 {
      KeepIsMaximal(if take then selected + [facts[0]] else selected, facts[1..], budget, i - 1);
    } else if !take {
      assert r == selected + r[|selected|..];
      SizeGrows(selected, r[|selected|..], facts[0]);
    }
  }

  /** A fitted gist holds whole facts of the text, in order, and no skipped one would still fit. */
  lemma {:induction false} KeptIsMaximal(text: string, budget: int) returns (choices: seq<bool>)
    ensures |choices| == |Facts(text)| && Kept(text, budget) == Chosen(Facts(text), choices)
    ensures forall i :: 0 <= i < |choices| ==> choices[i] || Size(Kept(text, budget) + [Facts(text)[i]]) > budget
  {
    hide Facts, Size, IsSpace;
    var facts := Facts(text);
    if text == [] || budget <= 0 {
      choices := seq(|facts|, _ => false);
      ChosenNone(facts);
      forall i | 0 <= i < |facts|
        ensures Size([] + [facts[i]]) > budget
      {
        FactsAreLines(text, facts[i]);
        if budget <= 0 {
          BulletCosts(facts[i]);
        } else {
          NoFacts();
        }
      }
    } else {
      choices := Choices([], facts, budget);
      KeepIsChosen([], facts, budget);
      forall i | 0 <= i < |facts|
        ensures choices[i] || Size(Kept(text, budget) + [facts[i]]) > budget
      {
        FactsAreLines(text, facts[i]);
        KeepIsMaximal([], facts, budget, i);
      }
    }
  }

  lemma {:induction false} ChosenNone(facts: seq<string>)
    ensures Chosen(facts, seq(|facts|, _ => false)) == []
  {
    if facts != [] {
      ChosenNone(facts[1..]);
      assert seq(|facts|, _ => false)[1..] == seq(|facts| - 1, _ => false);
    }
  }

  lemma {:induction false} BulletCosts(f: string)
    requires f != [] && !IsSpace(f[0])
    ensures Size([] + [f]) > 0
  {
    BulletShown([], f);
  }

  lemma {:induction false} NoFacts()
    ensures Facts("") == []
  {
  }

  // ----- reading a gist back ---------------------------------------------------------------

  function GistLine(line: string): (r: string)
  {
    var l := Strip(line);
    if |l| >= 2 && (l[..2] == "- " || l[..2] == "* ") then Strip(l[2..]) else l
  }

  function LinesOf(lines: seq<string>): (r: seq<string>)
  {
    if lines == [] then []
    else if GistLine(lines[0]) == [] then LinesOf(lines[1..])
    else [GistLine(lines[0])] + LinesOf(lines[1..])
  }

  /** `_gist_lines`. */
  method GistLines(text: string) returns (lines: seq<string>)
    ensures lines == LinesOf(SplitLines(text))
  {
    hide GistLine, SplitLines;
    lines := [];
    var all := SplitLines(text);
    for i := 0 to |all|
      invariant lines + LinesOf(all[i..]) == LinesOf(all)
    {
      assert all[i..][1..] == all[i + 1..];
      var line := GistLine(all[i]);
      if line != [] {
        assert (lines + [line]) + LinesOf(all[i + 1..]) == lines + ([line] + LinesOf(all[i + 1..]));
        lines := lines + [line];
      }
    }
    assert all[|all|..] == [] && lines + [] == lines;
  }

  lemma {:induction false} BulletReadsBack(f: string)
    requires FactOk(f)
    ensures GistLine("- " + f) == f && NoBreak("- " + f)
  {
    var l := "- " + f;
    assert l[|l| - 1] == f[|f| - 1] && l[..2] == "- " && l[2..] == f;
    assert Stripped(l) && NoBreak(l);
    hide IsSpace, IsBreak, Strip;
    StripOfStripped(l);
    StripOfStripped(f);
  }

  /** A starred fact is read like a dashed one, ... */
  lemma {:induction false} StarReadsBack(f: string)
    requires FactOk(f)
    ensures GistLine("* " + f) == f
  {
    var l := "* " + f;
    assert l[|l| - 1] == f[|f| - 1] && l[..2] == "* " && l[2..] == f;
    assert Stripped(l);
    hide IsSpace, IsBreak, Strip;
    StripOfStripped(l);
    StripOfStripped(f);
  }

  /** ... and one without a bullet as it is. */
  lemma {:induction false} PlainReadsBack(f: string)
    requires FactOk(f) && !(f[0] == '-' || f[0] == '*')
    ensures GistLine(f) == f
  {
    hide IsSpace, IsBreak, Strip;
    StripOfStripped(f);
    if |f| >= 2 {
      assert f[..2][0] == f[0];
    }
  }

  /** No line of a gist is lost. */
  lemma {:induction false} GistLinesAt(lines: seq<string>) returns (at: seq<nat>)
    ensures var r := LinesOf(lines);
            && |at| == |r| && (forall k :: 0 <= k < |at| ==> at[k] < |lines| && r[k] == GistLine(lines[at[k]]))
            && (forall k, l :: 0 <= k < l < |at| ==> at[k] < at[l])
            && (forall i: nat :: i < |lines| ==> (i in at <==> GistLine(lines[i]) != ""))
  {
    hide GistLine, LinesOf, Moved;
    at := [];
    LinesCons(lines);
    if lines != [] {
      var tail := GistLinesAt(lines[1..]);
      at := ConsPositions(tail, GistLine(lines[0]) != "");
    }
  }

  lemma {:induction false} LinesCons(lines: seq<string>)
    ensures LinesOf(lines)
            == if lines == [] then [] else (if GistLine(lines[0]) == "" then [] else [GistLine(lines[0])]) + LinesOf(lines[1..])
  {
    hide GistLine;
  }

  lemma {:induction false} LinesOfBullets(facts: seq<string>)
    requires forall f :: f in facts ==> FactOk(f)
    ensures LinesOf(Bullets(facts)) == facts
  {
    if facts != [] {
      BulletReadsBack(facts[0]);
      LinesOfBullets(facts[1..]);
    }
  }

  /** Printing facts as a gist and reading the gist back are inverse. */
  lemma {:induction false} GistRoundTrip(facts: seq<string>)
    requires forall f :: f in facts ==> FactOk(f)
    ensures LinesOf(SplitLines(Join(Bullets(facts)))) == facts
  {
    forall l | l in Bullets(facts)
      ensures l != [] && NoBreak(l)
    {
      var i :| 0 <= i < |facts| && Bullets(facts)[i] == l;
      BulletReadsBack(facts[i]);
    }
    SplitOfJoin(Bullets(facts));
    LinesOfBullets(facts);
  }

  /** What a later pass reads out of a fitted gist is exactly what was kept. */
  lemma {:induction false} FittedGistReadsBack(text: string, budget: int)
    ensures LinesOf(SplitLines(Join(Bullets(Kept(text, budget))))) == Kept(text, budget)
  {
    forall f | f in Kept(text, budget)
      ensures FactOk(f)
    {
      KeptAreFacts([], Facts(text), budget, f);
      FactsAreLines(text, f);
    }
    GistRoundTrip(Kept(text, budget));
  }

  lemma {:induction false} KeptAreFacts(selected: seq<string>, facts: seq<string>, budget: int, f: string)
    requires f in KeepFrom(selected, facts, budget)
    ensures f in selected || f in facts
    decreases |facts|
  {
    if facts != [] {
      KeptAreFacts(if Size(selected + [facts[0]]) <= budget then selected + [facts[0]] else selected, facts[1..], budget, f);
    }
  }
}
