/** Lines of text as Python and JavaScript split, strip and join them. */
module Lines {
  /** The line boundaries of Python's str.splitlines; a carriage return with a line feed is one of them. */
  predicate IsBreak(c: char) {
    c in {'\n', '\r', '\U{000B}', '\U{000C}', '\U{001C}', '\U{001D}', '\U{001E}', '\U{0085}', '\U{2028}', '\U{2029}'}
  }

  /** What Python's str.strip removes. */
  predicate IsSpace(c: char) {
    || IsBreak(c)
    || c in {'\t', '\U{001F}', ' ', '\U{00A0}', '\U{1680}', '\U{202F}', '\U{205F}', '\U{3000}'}
    || '\U{2000}' <= c <= '\U{200A}'
  }

  /** What JavaScript's String.trim removes. */
  predicate IsJsSpace(c: char) {
    || c in {'\t', '\n', '\r', '\U{000B}', '\U{000C}', ' ', '\U{00A0}', '\U{1680}', '\U{2028}', '\U{2029}',
             '\U{202F}', '\U{205F}', '\U{3000}', '\U{FEFF}'}
    || '\U{2000}' <= c <= '\U{200A}'
  }

  /** Whether nothing is left of a text when it is stripped. */
  predicate Blank(s: string) {
    forall c | c in s :: IsSpace(c)
  }

  predicate BreakFree(s: string) {
    forall c | c in s :: !IsBreak(c)
  }

  // ---------- stripping

  /** How many spaces a text begins with. */
  function Leading(s: string, space: char -> bool): (k: nat)
    ensures k <= |s| && (k < |s| ==> !space(s[k]))
    ensures forall i | 0 <= i < k :: space(s[i])
  {
    if s != "" && space(s[0]) then 1 + Leading(s[1..], space) else 0
  }

  /** Where the spaces a text ends with begin. */
  function Trailing(s: string, space: char -> bool): (k: nat)
    ensures k <= |s| && (k > 0 ==> !space(s[k - 1]))
    ensures forall i | k <= i < |s| :: space(s[i])
  {
    if s != "" && space(s[|s| - 1]) then Trailing(s[..|s| - 1], space) else |s|
  }

  function Strip(s: string, space: char -> bool): string {
    var t := s[Leading(s, space)..];
    t[..Trailing(t, space)]
  }

  lemma {:induction false} StripKeepsTight(s: string, space: char -> bool)
    requires s != "" ==> !space(s[0]) && !space(s[|s| - 1])
    ensures Strip(s, space) == s
  {
  }

  /** Stripping takes a piece out of the middle that begins and ends with something else than space. */
  lemma {:induction false} StripIsMiddle(s: string, space: char -> bool)
    returns (i: nat, j: nat)
    ensures i <= j <= |s| && Strip(s, space) == s[i..j]
    ensures forall k | 0 <= k < |s| && !(i <= k < j) :: space(s[k])
    ensures i < j ==> !space(s[i]) && !space(s[j - 1])
  {
    i := Leading(s, space);
    var t := s[i..];
    var n := Trailing(t, space);
    j := i + n;
    assert t[..n] == s[i..j];
    forall k | j <= k < |s| ensures space(s[k]) { assert s[k] == t[k - i]; }
  }

  // ---------- splitting and joining

  /** The position of the first line boundary, or the length. */
  function FirstBreak(s: string): (n: nat)
    ensures n <= |s| && (n < |s| ==> IsBreak(s[n]))
    ensures forall i | 0 <= i < n :: !IsBreak(s[i])
  {
    if s == "" || IsBreak(s[0]) then 0 else 1 + FirstBreak(s[1..])
  }

  function AfterBreak(s: string, n: nat): (k: nat)
    requires n <= |s|
    ensures n <= k <= |s| && (n < |s| ==> n < k)
  {
    if n == |s| then n
    else if s[n] == '\r' && n + 1 < |s| && s[n + 1] == '\n' then n + 2
    else n + 1
  }

  /** Python's str.splitlines: a boundary at the end opens no further line. */
  function SplitLines(s: string): (lines: seq<string>)
    ensures forall line | line in lines :: BreakFree(line)
    decreases |s|
  {
    if s == "" then []
    else
      var n := FirstBreak(s);
      [s[..n]] + SplitLines(s[AfterBreak(s, n)..])
  }

  function Join(lines: seq<string>): string {
    if lines == [] then ""
    else if |lines| == 1 then lines[0]
    else lines[0] + "\n" + Join(lines[1..])
  }

  /** A line boundary: one character, or a carriage return with its line feed. */
  predicate IsBoundary(b: string) {
    b == "\r\n" || (|b| == 1 && IsBreak(b[0]))
  }

  lemma {:induction false} FirstBreakAt(line: string, b: string, rest: string)
    requires BreakFree(line) && IsBoundary(b)
    ensures FirstBreak(line + b + rest) == |line|
  {
    hide IsBreak;
    var s := line + b + rest;
    assert s[|line|] == b[0];
    assert forall i | 0 <= i < |line| :: s[i] == line[i] && line[i] in line;
    ReturnBreaks();
  }

  lemma {:induction false} ReturnBreaks()
    ensures IsBreak('\n') && IsBreak('\r')
  {
  }

  /** Whatever boundary ends the first line, the rest is split on its own; `\r\n` is never cut in two. */
  lemma {:induction false} SplitAtBoundary(line: string, b: string, rest: string)
    requires BreakFree(line) && IsBoundary(b) && !(b == "\r" && rest != "" && rest[0] == '\n')
    ensures SplitLines(line + b + rest) == [line] + SplitLines(rest)
  {
    hide IsBreak, FirstBreak;
    var s := line + b + rest;
    FirstBreakAt(line, b, rest);
    assert s[..|line|] == line && s[|line| + |b|..] == rest && s[|line|] == b[0];
    if |s| > |line| + 1 { assert s[|line| + 1] == if |b| > 1 then b[1] else rest[0]; }
  }

  lemma {:induction false} SplitFirst(line: string, rest: string)
    requires BreakFree(line)
    ensures SplitLines(line + "\n" + rest) == [line] + SplitLines(rest)
  {
    hide IsBreak;
    ReturnBreaks();
    SplitAtBoundary(line, "\n", rest);
  }

  lemma {:induction false} BreakFreeIsOneLine(line: string)
    requires BreakFree(line)
    ensures SplitLines(line) == if line == "" then [] else [line]
  {
    if line != "" {
      assert forall i | 0 <= i < |line| :: line[i] in line;
      assert FirstBreak(line) == |line|;
      assert line[|line|..] == "" && line[..|line|] == line;
    }
  }

  /** Splitting what was joined gives the lines back, but for an empty one at the end. */
  lemma {:induction false} SplitJoin(lines: seq<string>)
    requires forall line | line in lines :: BreakFree(line)
    ensures SplitLines(Join(lines)) ==
            if lines != [] && lines[|lines| - 1] == "" then lines[..|lines| - 1] else lines
  {
    hide IsBreak, SplitLines, BreakFree;
    if |lines| == 1 {
      BreakFreeIsOneLine(lines[0]);
    } else if lines != [] {
      assert forall line | line in lines[1..] :: line in lines;
      SplitFirst(lines[0], Join(lines[1..]));
      SplitJoin(lines[1..]);
      assert lines[1..][|lines| - 2] == lines[|lines| - 1];
      if lines[|lines| - 1] == "" {
        assert [lines[0]] + lines[1..][..|lines| - 2] == lines[..|lines| - 1];
      } else {
        assert [lines[0]] + lines[1..] == lines;
      }
    } else {
      NoLines();
    }
  }

  lemma {:induction false} NoLines()
    ensures SplitLines("") == []
  {
  }

  lemma {:induction false} NothingIsBlank()
    ensures Blank("")
  {
  }

  // ---------- the lines that are not blank

  function NonBlank(lines: seq<string>): (r: seq<string>)
    ensures forall line | line in r :: line in lines && !Blank(line)
    ensures forall line | line in lines && !Blank(line) :: line in r
  {
    if lines == [] then []
    else (if Blank(lines[0]) then [] else [lines[0]]) + NonBlank(lines[1..])
  }

  lemma {:induction false} NonBlankConcat(a: seq<string>, b: seq<string>)
    ensures NonBlank(a + b) == NonBlank(a) + NonBlank(b)
  {
    if a == [] {
      assert a + b == b;
    } else {
      assert (a + b)[1..] == a[1..] + b;
      NonBlankConcat(a[1..], b);
    }
  }

  lemma {:induction false} EmptyAtEnd(lines: seq<string>)
    ensures NonBlank(lines + [""]) == NonBlank(lines)
  {
    NonBlankConcat(lines, [""]);
    assert Blank("");
  }

  lemma {:induction false} NonBlankOfJoin(lines: seq<string>)
    requires forall line | line in lines :: BreakFree(line)
    ensures NonBlank(SplitLines(Join(lines))) == NonBlank(lines)
  {
    SplitJoin(lines);
    hide SplitLines, Join, NonBlank;
    if lines != [] && lines[|lines| - 1] == "" {
      EmptyAtEnd(lines[..|lines| - 1]);
      assert lines == lines[..|lines| - 1] + [""];
    }
  }

  /** A text is blank exactly when none of its lines holds anything. */
  lemma {:induction false} BlankText(s: string)
    ensures Blank(s) <==> NonBlank(SplitLines(s)) == []
    decreases |s|
  {
    if s != "" {
      var n := FirstBreak(s);
      var k := AfterBreak(s, n);
      BreaksAreBlank(s, n);
      BlankText(s[k..]);
      BlankParts(s, n, k);
      assert SplitLines(s) == [s[..n]] + SplitLines(s[k..]);
      NonBlankConcat([s[..n]], SplitLines(s[k..]));
      NonBlankOne(s[..n]);
      hide Blank, FirstBreak, AfterBreak, SplitLines, NonBlank;
    }
  }

  lemma {:induction false} NonBlankOne(line: string)
    ensures NonBlank([line]) == if Blank(line) then [] else [line]
  {
    hide Blank;
    assert [line][1..] == [] && NonBlank([]) == [];
  }

  lemma {:induction false} BlankParts(s: string, n: nat, k: nat)
    requires n <= k <= |s|
    ensures Blank(s) <==> Blank(s[..n]) && Blank(s[n..k]) && Blank(s[k..])
  {
    hide Blank;
    BlankConcat(s[..n], s[n..k]);
    BlankConcat(s[..n] + s[n..k], s[k..]);
    assert s == s[..n] + s[n..k] + s[k..];
  }

  lemma {:induction false} BlankConcat(a: string, b: string)
    ensures Blank(a + b) <==> Blank(a) && Blank(b)
  {
    hide IsSpace;
    assert forall c | c in a :: c in a + b;
    assert forall c | c in b :: c in a + b;
  }

  lemma {:induction false} BreaksAreBlank(s: string, n: nat)
    requires n == FirstBreak(s)
    ensures Blank(s[n..AfterBreak(s, n)])
  {
    var k := AfterBreak(s, n);
    assert forall i | n <= i < k :: IsBreak(s[i]);
    forall c | c in s[n..k] ensures IsSpace(c) {
      var i :| 0 <= i < k - n && s[n..k][i] == c;
      assert s[n..k][i] == s[n + i];
    }
  }
}
