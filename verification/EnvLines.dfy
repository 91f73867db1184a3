/** Variables as lines of `KEY=value`: how a Job reads them. */
module EnvLines {
  import opened Options
  import opened Lines
  import Secrets
  import Text

  function Unified(s: string): string {
    if |s| >= 2 && s[0] == '\r' && s[1] == '\n' then "\n" + Unified(s[2..])
    else if s == "" then ""
    else [s[0]] + Unified(s[1..])
  }

  datatype Entry = Entry(key: string, value: string)

  /** What a line sets: nothing if it is blank, a comment, without equals sign or without a key. */
  function ParseLine(raw: string): Option<Entry> {
    var line := Strip(raw, IsSpace);
    if line == "" || line[0] == '#' || '=' !in line then None
    else
      var key := Strip(Secrets.KeyOf(line), IsSpace);
      if key == "" then None else Some(Entry(key, Secrets.ValueOf(line)))
  }

  function ParseLines(lines: seq<string>): map<string, string> {
    if lines == [] then map[]
    else
      var k := |lines| - 1;
      var before := ParseLines(lines[..k]);
      match ParseLine(lines[k])
      case None => before
      case Some(e) => before[e.key := e.value]
  }

  function Parse(text: Option<string>): map<string, string> {
    if Blank(text.GetOr("")) then map[] else ParseLines(Text.Split(Unified(text.value), '\n'))
  }

  method ParseKeyValueLines(text: Option<string>) returns (result: map<string, string>)
    ensures result == Parse(text)
  {
    if text.None? || Blank(text.value) {
      return map[];
    }
    hide Strip, Blank, Unified, Text.Split, Secrets.KeyOf, Secrets.ValueOf, ParseLines;
    assert ParseLines([]) == map[] by { NothingParsed(); }
    result := map[];
    var lines := Text.Split(Unified(text.value), '\n');
    for i := 0 to |lines|
      invariant result == ParseLines(lines[..i])
    {
      ParseNext(lines, i);
      var line := Strip(lines[i], IsSpace);
      if line == "" || line[0] == '#' || '=' !in line {
        continue;
      }
      var key := Strip(Secrets.KeyOf(line), IsSpace);
      if key != "" {
        result := result[key := Secrets.ValueOf(line)];
      }
    }
    assert lines[..|lines|] == lines;
  }

  lemma {:induction false} NothingParsed()
    ensures ParseLines([]) == map[]
  {
  }

  lemma {:induction false} ParseNext(lines: seq<string>, i: nat)
    requires i < |lines|
    ensures ParseLines(lines[..i + 1]) ==
            match ParseLine(lines[i])
            case None => ParseLines(lines[..i])
            case Some(e) => ParseLines(lines[..i])[e.key := e.value]
  {
    hide ParseLine;
    assert lines[..i + 1][..i] == lines[..i];
  }

  // ---------- reading back what was written

  predicate Tight(s: string) {
    s != "" ==> !IsSpace(s[0]) && !IsSpace(s[|s| - 1])
  }

  /** A name a line can begin with. */
  predicate GoodName(key: string) {
    key != "" && Tight(key) && key[0] != '#' && '=' !in key && '\n' !in key
  }

  /** A value on one line that does not end in white space. */
  predicate GoodValue(value: string) {
    '\n' !in value && (value != "" ==> !IsSpace(value[|value| - 1]))
  }

  lemma {:induction false} PairIsTight(key: string, value: string)
    requires GoodName(key) && GoodValue(value)
    ensures Tight(Secrets.Pair(key, value)) && '\n' !in Secrets.Pair(key, value)
    ensures var line := Secrets.Pair(key, value); line != "" && line[0] == key[0] && line[|line| - 1] != '\r'
  {
    var line := Secrets.Pair(key, value);
    assert line[0] == key[0];
    assert line[|line| - 1] == if value == "" then '=' else value[|value| - 1];
  }

  lemma {:induction false} PairParses(key: string, value: string)
    requires GoodName(key) && GoodValue(value)
    ensures ParseLine(Secrets.Pair(key, value)) == Some(Entry(key, value))
  {
    hide Secrets.KeyOf, Secrets.ValueOf, Strip, IsSpace;
    var line := Secrets.Pair(key, value);
    PairIsTight(key, value);
    StripKeepsTight(line, IsSpace);
    Secrets.PairParts(key, value);
    StripKeepsTight(key, IsSpace);
  }

  lemma {:induction false} UnifiedStep(c: char, rest: string)
    requires c != '\r' || rest == "" || rest[0] != '\n'
    ensures Unified([c] + rest) == [c] + Unified(rest)
  {
    assert ([c] + rest)[1..] == rest;
  }

  lemma {:induction false} UnifiedLine(line: string, rest: string)
    requires '\n' !in line && (line != "" ==> line[|line| - 1] != '\r')
    ensures Unified(line + ("\n" + rest)) == line + ("\n" + Unified(rest))
  {
    hide Unified;
    if line == "" {
      UnifiedStep('\n', rest);
      assert line + ("\n" + rest) == ['\n'] + rest;
      assert line + ("\n" + Unified(rest)) == ['\n'] + Unified(rest);
    } else {
      var tail := line[1..];
      var s := tail + ("\n" + rest);
      assert tail != "" ==> tail[|tail| - 1] == line[|line| - 1] && s[0] == tail[0] && tail[0] in line;
      assert forall c | c in tail :: c in line;
      UnifiedLine(tail, rest);
      UnifiedStep(line[0], s);
      assert line + ("\n" + rest) == [line[0]] + s;
      assert line + ("\n" + Unified(rest)) == [line[0]] + (tail + ("\n" + Unified(rest)));
    }
  }

  lemma {:induction false} UnifiedOne(line: string)
    requires '\n' !in line
    ensures Unified(line) == line
  {
    if line != "" {
      assert forall c | c in line[1..] :: c in line;
      assert |line| >= 2 ==> line[1] in line;
      UnifiedOne(line[1..]);
    }
  }

  /** A line that survives the way through one text: unbroken, and not ending in a carriage return. */
  predicate Unbroken(line: string) {
    '\n' !in line && (line != "" ==> line[|line| - 1] != '\r')
  }

  lemma {:induction false} JoinedLinesSplit(lines: seq<string>)
    requires lines != [] && forall l | l in lines :: Unbroken(l)
    ensures Text.Split(Unified(Join(lines)), '\n') == lines
  {
    hide Unified, Text.Split;
    assert lines[0] in lines;
    if |lines| == 1 {
      UnifiedOne(lines[0]);
      Text.SplitNone(lines[0], '\n');
    } else {
      var rest := lines[1..];
      assert Join(lines) == lines[0] + ("\n" + Join(rest));
      UnifiedLine(lines[0], Join(rest));
      JoinedLinesSplit(rest);
      assert lines[0] + ("\n" + Unified(Join(rest))) == lines[0] + ['\n'] + Unified(Join(rest));
      Text.SplitFirst(lines[0], '\n', Unified(Join(rest)));
      assert [lines[0]] + rest == lines;
    }
  }

  /** The lines of some keys of a map. */
  function PairLines(keys: seq<string>, m: map<string, string>): (lines: seq<string>)
    requires forall k | k in keys :: k in m
    ensures |lines| == |keys|
  {
    seq(|keys|, i requires 0 <= i < |keys| => Secrets.Pair(keys[i], m[keys[i]]))
  }

  predicate GoodEntries(m: map<string, string>) {
    forall k | k in m :: GoodName(k) && GoodValue(m[k])
  }

  lemma {:induction false} PairLinesParse(keys: seq<string>, m: map<string, string>)
    requires (forall k | k in keys :: k in m) && GoodEntries(m)
    ensures ParseLines(PairLines(keys, m)) == map k | k in keys :: m[k]
  {
    hide ParseLine, GoodName, GoodValue, Secrets.Pair;
    if keys != [] {
      var n := |keys| - 1;
      PairLinesParse(keys[..n], m);
      assert PairLines(keys, m)[..n] == PairLines(keys[..n], m);
      PairParses(keys[n], m[keys[n]]);
      assert keys == keys[..n] + [keys[n]];
    }
  }

  lemma {:induction false} NotBlank(lines: seq<string>, line: string)
    requires lines != [] && line == lines[0] && line != "" && !IsSpace(line[0])
    ensures !Blank(Join(lines))
  {
    hide IsSpace;
    assert Join(lines)[0] == line[0];
    assert Join(lines)[0] in Join(lines);
  }

  /** A map with good names and values comes back from the text of all its lines, in whatever order. */
  lemma {:induction false} TextParses(keys: seq<string>, m: map<string, string>)
    requires (forall k :: k in keys <==> k in m) && GoodEntries(m) && keys != []
    ensures Parse(Some(Join(PairLines(keys, m)))) == m
  {
    hide GoodName, GoodValue, Secrets.Pair, Join, Tight;
    var lines := PairLines(keys, m);
    forall l | l in lines ensures Unbroken(l) {
      var i :| 0 <= i < |lines| && lines[i] == l;
      assert keys[i] in keys;
      PairIsTight(keys[i], m[keys[i]]);
    }
    assert keys[0] in keys;
    JoinedLinesSplit(lines);
    PairLinesParse(keys, m);
    FirstIsTight(keys[0], m[keys[0]]);
    NotBlank(lines, lines[0]);
    assert (map k | k in keys :: m[k]) == m;
  }

  lemma {:induction false} FirstIsTight(key: string, value: string)
    requires GoodName(key) && GoodValue(value)
    ensures var line := Secrets.Pair(key, value); line != "" && !IsSpace(line[0])
  {
    PairIsTight(key, value);
  }

  // ---------- what can be read at all

  lemma {:induction false} SplitFree(s: string, c: char)
    ensures forall p | p in Text.Split(s, c) :: c !in p
  {
    if s != "" {
      var rest := Text.Split(s[1..], c);
      SplitFree(s[1..], c);
      assert rest[0] in rest;
      assert forall p | p in rest[1..] :: p in rest;
    }
  }

  lemma {:induction false} StripTight(s: string)
    ensures Tight(Strip(s, IsSpace)) && |Strip(s, IsSpace)| <= |s| && forall c | c in Strip(s, IsSpace) :: c in s
    ensures s != "" && !IsSpace(s[0]) ==> Strip(s, IsSpace) != "" && Strip(s, IsSpace)[0] == s[0]
  {
    var i, j := StripIsMiddle(s, IsSpace);
    hide Strip, IsSpace;
    if s != "" && !IsSpace(s[0]) { assert i == 0 < j; }
  }

  lemma {:induction false} ReadIsGood(raw: string)
    requires '\n' !in raw && ParseLine(raw).Some?
    ensures GoodName(ParseLine(raw).value.key) && GoodValue(ParseLine(raw).value.value)
  {
    hide Strip, IsSpace, Secrets.KeyOf, Secrets.ValueOf;
    var line := Strip(raw, IsSpace);
    StripTight(raw);
    KeyAndValue(line);
    var key := Secrets.KeyOf(line);
    StripTight(key);
    assert '\n' !in line && '\n' !in key && '=' !in key;
    assert Strip(key, IsSpace)[0] == line[0];
  }

  lemma {:induction false} KeyAndValue(line: string)
    requires '=' in line
    ensures var key, value := Secrets.KeyOf(line), Secrets.ValueOf(line);
            && '=' !in key && (forall c | c in key :: c in line) && (forall c | c in value :: c in line)
            && (key != "" ==> key[0] == line[0]) && (value != "" ==> value[|value| - 1] == line[|line| - 1])
  {
    Secrets.PartsPair(line);
  }

  lemma {:induction false} ReadLinesGood(lines: seq<string>)
    requires forall l | l in lines :: '\n' !in l
    ensures GoodEntries(ParseLines(lines))
  {
    hide ParseLine, GoodName, GoodValue;
    if lines != [] {
      var k := |lines| - 1;
      ReadLinesGood(lines[..k]);
      assert lines[k] in lines;
      if ParseLine(lines[k]).Some? { ReadIsGood(lines[k]); }
    }
  }

  /** A map is read back from its text exactly if its names and values are good. */
  lemma {:induction false} TextRoundTrip(keys: seq<string>, m: map<string, string>)
    requires (forall k :: k in keys <==> k in m) && keys != []
    ensures Parse(Some(Join(PairLines(keys, m)))) == m <==> GoodEntries(m)
  {
    hide Join, PairLines, Blank, GoodName, GoodValue, ParseLines;
    if GoodEntries(m) { TextParses(keys, m); }
    var text := Join(PairLines(keys, m));
    SplitFree(Unified(text), '\n');
    ReadLinesGood(Text.Split(Unified(text), '\n'));
  }
}
