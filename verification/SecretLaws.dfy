/** An unchanged edit keeps the secrets: merging a masked text with the text it was made from. */
module SecretLaws {
  import opened Options
  import opened Lines
  import opened Secrets

  /** A line whose secret survives masking: it has a key, or it says nothing but the mask. */
  predicate Survives(line: string) {
    '=' in line || line == MASKED_VALUE
  }

  /** The line with the value that is stored last for its key. */
  function LatestLine(line: string, stored: map<string, string>): string {
    if '=' in line && KeyOf(line) in stored then Pair(KeyOf(line), stored[KeyOf(line)]) else line
  }

  function Latest(lines: seq<string>, stored: map<string, string>): (r: seq<string>)
    ensures |r| == |lines|
  {
    seq(|lines|, i requires 0 <= i < |lines| => LatestLine(lines[i], stored))
  }

  /** The lines of a text that hold something, each with the latest value of its key. */
  function LatestText(s: string): Option<string> {
    var lines := NonBlank(SplitLines(s));
    if lines == [] then None else Some(Join(Latest(lines, Stored(SplitLines(s)))))
  }

  lemma {:induction false} StoredKeys(lines: seq<string>)
    ensures forall line | line in lines && '=' in line :: KeyOf(line) in Stored(lines)
    ensures forall k | k in Stored(lines) ::
              exists line :: line in lines && '=' in line && KeyOf(line) == k && ValueOf(line) == Stored(lines)[k]
  {
    if lines != [] {
      hide KeyOf, ValueOf;
      var rest, last := lines[..|lines| - 1], lines[|lines| - 1];
      StoredKeys(rest);
      assert forall line | line in lines :: line in rest || line == last;
      assert last in lines && forall line | line in rest :: line in lines;
    }
  }

  lemma {:induction false} StoredBreakFree(lines: seq<string>)
    requires forall line | line in lines :: BreakFree(line)
    ensures forall k | k in Stored(lines) :: BreakFree(Stored(lines)[k])
  {
    StoredKeys(lines);
    forall k | k in Stored(lines) ensures BreakFree(Stored(lines)[k]) {
      var line :| line in lines && '=' in line && KeyOf(line) == k && ValueOf(line) == Stored(lines)[k];
      PartsPair(line);
    }
  }

  lemma {:induction false} MaskedIsPlain()
    ensures BreakFree(MASKED_VALUE) && !Blank(MASKED_VALUE) && '=' !in MASKED_VALUE && ';' !in MASKED_VALUE
  {
    assert MASKED_VALUE[0] in MASKED_VALUE;
  }

  lemma {:induction false} EqualsIsPlain(line: string)
    requires '=' in line
    ensures !Blank(line)
  {
  }

  lemma {:induction false} MaskLineFacts(line: string)
    requires BreakFree(line)
    ensures BreakFree(MaskLine(line)) && (Blank(MaskLine(line)) <==> Blank(line))
    ensures !Blank(line) && '=' in line ==>
              '=' in MaskLine(line) && KeyOf(MaskLine(line)) == KeyOf(line) && ValueOf(MaskLine(line)) == MASKED_VALUE
    ensures !Blank(line) && '=' !in line ==> MaskLine(line) == MASKED_VALUE
  {
    MaskedIsPlain();
    if '=' in line {
      PartsPair(line);
      PairParts(KeyOf(line), MASKED_VALUE);
      EqualsIsPlain(line);
      EqualsIsPlain(Pair(KeyOf(line), MASKED_VALUE));
    }
  }

  lemma {:induction false} NonBlankMasked(lines: seq<string>)
    requires forall line | line in lines :: BreakFree(line)
    ensures NonBlank(MaskLines(lines)) == MaskLines(NonBlank(lines))
  {
    hide Blank, BreakFree, MaskLine, NonBlank, MaskLines;
    if lines == [] {
      MaskedNone();
    } else {
      var line, rest := lines[0], lines[1..];
      assert lines == [line] + rest && line in lines && forall l | l in rest :: l in lines;
      NonBlankMasked(rest);
      MaskLineFacts(line);
      MaskedOne(line);
      MaskedConcat([line], rest);
      NonBlankConcat([line], rest);
      NonBlankConcat(MaskLines([line]), MaskLines(rest));
      MaskedConcat(NonBlank([line]), NonBlank(rest));
      NonBlankOne(line);
      NonBlankOne(MaskLine(line));
      MaskedNone();
    }
  }

  lemma {:induction false} MaskedNone()
    ensures MaskLines([]) == [] && NonBlank([]) == []
  {
  }

  lemma {:induction false} MaskedOne(line: string)
    ensures MaskLines([line]) == [MaskLine(line)]
  {
  }

  lemma {:induction false} MaskedConcat(a: seq<string>, b: seq<string>)
    ensures MaskLines(a + b) == MaskLines(a) + MaskLines(b)
  {
  }

  /** The masked text has the masked lines of the original, blank ones aside. */
  lemma {:induction false} LinesOfMask(s: string)
    ensures NonBlank(SplitLines(TextOf(Mask(Some(s))))) == MaskLines(NonBlank(SplitLines(s)))
  {
    if s != "" {
      var lines := SplitLines(s);
      var masked := MaskLines(lines);
      forall line | line in masked ensures BreakFree(line) {
        var i :| 0 <= i < |masked| && masked[i] == line;
        MaskLineFacts(lines[i]);
      }
      NonBlankOfJoin(masked);
      NonBlankMasked(lines);
    }
  }

  /** Every line survives masking: a keyed line is merged to its latest value, any other becomes the mask. */
  lemma {:induction false} MergeMaskedLines(s: string)
    ensures var lines, stored := NonBlank(SplitLines(s)), Stored(SplitLines(s));
            && Mergeable(MaskLines(lines), stored)
            && forall i | 0 <= i < |lines| ::
                 MergeLines(MaskLines(lines), stored)[i] ==
                 if '=' in lines[i] then LatestLine(lines[i], stored) else MASKED_VALUE
  {
    hide Blank, BreakFree, IndexOf;
    var lines, stored := NonBlank(SplitLines(s)), Stored(SplitLines(s));
    StoredKeys(SplitLines(s));
    forall i | 0 <= i < |lines|
      ensures MergeLine(MaskLine(lines[i]), stored) ==
              Some(if '=' in lines[i] then LatestLine(lines[i], stored) else MASKED_VALUE)
    {
      assert lines[i] in lines;
      MaskLineFacts(lines[i]);
      MaskedIsPlain();
    }
  }

  /** What merging the masked text with the original always gives. */
  lemma {:induction false} MergeOfMask(s: string)
    ensures var lines, stored := NonBlank(SplitLines(s)), Stored(SplitLines(s));
            && Mergeable(MaskLines(lines), stored)
            && Merge(Mask(Some(s)), Some(s)) ==
                 if lines == [] then Merged(None) else Merged(Some(Join(MergeLines(MaskLines(lines), stored))))
  {
    hide SplitLines, NonBlank, Mergeable, Stored;
    LinesOfMask(s);
    MergeMaskedLines(s);
  }

  /** Two joined lists of full lines of one length are the same only if the lists are. */
  lemma {:induction false} JoinInjective(a: seq<string>, b: seq<string>)
    requires forall line | line in a || line in b :: BreakFree(line) && !Blank(line)
    requires Join(a) == Join(b)
    ensures a == b
  {
    SplitJoin(a);
    SplitJoin(b);
    assert Blank("");
    if a != [] { assert a[|a| - 1] in a; }
    if b != [] { assert b[|b| - 1] in b; }
  }

  lemma {:induction false} LatestFull(s: string)
    ensures var lines, stored := NonBlank(SplitLines(s)), Stored(SplitLines(s));
            forall line | line in Latest(lines, stored) :: BreakFree(line) && !Blank(line)
  {
    var lines, stored := NonBlank(SplitLines(s)), Stored(SplitLines(s));
    StoredBreakFree(SplitLines(s));
    forall line | line in Latest(lines, stored) ensures BreakFree(line) && !Blank(line) {
      var i :| 0 <= i < |lines| && Latest(lines, stored)[i] == line;
      assert lines[i] in lines;
      if '=' in lines[i] {
        PartsPair(lines[i]);
        EqualsIsPlain(line);
      }
    }
  }

  lemma {:induction false} MergedFull(s: string)
    requires var lines, stored := NonBlank(SplitLines(s)), Stored(SplitLines(s)); Mergeable(MaskLines(lines), stored)
    ensures var lines, stored := NonBlank(SplitLines(s)), Stored(SplitLines(s));
            forall line | line in MergeLines(MaskLines(lines), stored) :: BreakFree(line) && !Blank(line)
  {
    hide SplitLines, NonBlank, Stored, Mergeable, BreakFree, Blank;
    var lines, stored := NonBlank(SplitLines(s)), Stored(SplitLines(s));
    MergeMaskedLines(s);
    LatestFull(s);
    MaskedIsPlain();
    var merged := MergeLines(MaskLines(lines), stored);
    forall line | line in merged ensures BreakFree(line) && !Blank(line) {
      var i :| 0 <= i < |merged| && merged[i] == line;
      assert Latest(lines, stored)[i] in Latest(lines, stored);
    }
  }

  /** The round trip. For every stored text, submitting it masked succeeds; and it gives back the stored lines,
      each with the latest value of its key, exactly when every line that holds anything has an equals sign or
      says just the mask. */
  lemma MaskThenMerge(s: string)
    ensures Merge(Mask(Some(s)), Some(s)).Merged?
    ensures Merge(Mask(Some(s)), Some(s)) == Merged(LatestText(s)) <==>
            forall line | line in NonBlank(SplitLines(s)) :: Survives(line)
  {
    hide SplitLines, NonBlank, Stored, Mergeable, BreakFree, Blank, Join;
    var lines, stored := NonBlank(SplitLines(s)), Stored(SplitLines(s));
    MergeOfMask(s);
    MergeMaskedLines(s);
    var merged, latest := MergeLines(MaskLines(lines), stored), Latest(lines, stored);
    if forall line | line in lines :: Survives(line) {
      assert forall i | 0 <= i < |lines| :: lines[i] in lines;
      assert merged == latest;
    }
    if Join(merged) == Join(latest) {
      MergedFull(s);
      LatestFull(s);
      JoinInjective(merged, latest);
      forall line | line in lines ensures Survives(line) {
        var i :| 0 <= i < |lines| && lines[i] == line;
        assert merged[i] == latest[i];
      }
    }
  }

  /** A line without a key loses its text. */
  lemma BareLineIsLost()
    ensures Merge(Mask(Some("token")), Some("token")) != Merged(LatestText("token"))
  {
    var s := "token";
    OneFullLine(s);
    hide SplitLines, NonBlank, Stored, Join, Merge, Mask, LatestText;
    MaskThenMerge(s);
    assert s in [s] && !Survives(s) by { assert '=' !in s && s[0] == 't'; }
  }

  lemma {:induction false} OneFullLine(s: string)
    requires s == "token"
    ensures NonBlank(SplitLines(s)) == [s]
  {
    assert forall c | c in s :: c in {'t', 'o', 'k', 'e', 'n'};
    BreakFreeIsOneLine(s);
    assert s[0] in s;
    NonBlankOne(s);
  }

  // ---------- masking hides the values

  /** What masking reveals of a line. */
  datatype LineShape = BlankLine(text: string) | KeyedLine(key: string) | BareLine

  function ShapeOf(line: string): LineShape {
    if Blank(line) then BlankLine(line) else if '=' in line then KeyedLine(KeyOf(line)) else BareLine
  }

  /** Texts whose lines have the same shapes are masked alike, whatever their values are. */
  lemma MaskHidesValues(s: string, t: string)
    requires |SplitLines(s)| == |SplitLines(t)|
    requires forall i | 0 <= i < |SplitLines(s)| :: ShapeOf(SplitLines(s)[i]) == ShapeOf(SplitLines(t)[i])
    ensures Mask(Some(s)) == Mask(Some(t))
  {
    hide Blank, SplitLines, Join, KeyOf, IndexOf;
    var a, b := SplitLines(s), SplitLines(t);
    NoLines();
    if s == "" && t != "" { SomeLines(t); }
    if t == "" && s != "" { SomeLines(s); }
    forall i | 0 <= i < |a| ensures MaskLine(a[i]) == MaskLine(b[i]) {
      assert ShapeOf(a[i]) == ShapeOf(b[i]);
      if Blank(a[i]) { SameBlank(a[i], b[i]); }
    }
    assert MaskLines(a) == MaskLines(b);
  }

  lemma {:induction false} SameBlank(a: string, b: string)
    requires ShapeOf(a) == ShapeOf(b) && Blank(a)
    ensures a == b
  {
  }

  // ---------- through the form of the user interface

  datatype KeyValue = KeyValue(key: string, value: string)

  predicate IsSeparator(c: char) {
    c == '\n' || c == '\r' || c == ';'
  }

  /** How far a text goes before the next separator. */
  function UpToSeparator(s: string): (n: nat)
    ensures n <= |s| && (n < |s| ==> IsSeparator(s[n]))
    ensures forall i | 0 <= i < n :: !IsSeparator(s[i])
  {
    if s == "" || IsSeparator(s[0]) then 0 else 1 + UpToSeparator(s[1..])
  }

  /** The pieces between separators, empty ones included. */
  function Pieces(s: string): (r: seq<string>)
    ensures r != []
    decreases |s|
  {
    var n := UpToSeparator(s);
    if n == |s| then [s] else [s[..n]] + Pieces(s[n + 1..])
  }

  /** The trimmed pieces that are not empty. */
  function Entries(pieces: seq<string>): seq<string> {
    if pieces == [] then []
    else
      var piece := Strip(pieces[|pieces| - 1], IsJsSpace);
      Entries(pieces[..|pieces| - 1]) + if piece == "" then [] else [piece]
  }

  function SplitMultiline(text: string): seq<string> {
    Entries(Pieces(text))
  }

  /** The key-value pair of an entry, unless it is a comment or has no key. */
  function PairOf(line: string): seq<KeyValue> {
    if (line != "" && line[0] == '#') || '=' !in line then []
    else if Strip(KeyOf(line), IsJsSpace) == "" then []
    else [KeyValue(Strip(KeyOf(line), IsJsSpace), ValueOf(line))]
  }

  function PairsOf(lines: seq<string>): seq<KeyValue> {
    if lines == [] then [] else PairsOf(lines[..|lines| - 1]) + PairOf(lines[|lines| - 1])
  }

  function ParseKvPairs(text: Option<string>): seq<KeyValue> {
    if text.None? || Strip(text.value, IsJsSpace) == "" then [] else PairsOf(SplitMultiline(text.value))
  }

  function EnsureKvPairs(pairs: seq<KeyValue>): seq<KeyValue> {
    if pairs == [] then [KeyValue("", "")] else pairs
  }

  function PairLine(p: KeyValue): seq<string> {
    if Strip(p.key, IsJsSpace) == "" then [] else [Pair(Strip(p.key, IsJsSpace), p.value)]
  }

  function PairLines(pairs: seq<KeyValue>): seq<string> {
    if pairs == [] then [] else PairLines(pairs[..|pairs| - 1]) + PairLine(pairs[|pairs| - 1])
  }

  function KvPairsToText(pairs: seq<KeyValue>): Option<string> {
    var lines := PairLines(pairs);
    if lines == [] then None else Some(Join(lines))
  }

  /** A masked text shown in the form and submitted unchanged. */
  function ThroughForm(text: Option<string>): Option<string> {
    KvPairsToText(EnsureKvPairs(ParseKvPairs(text)))
  }

  // ---------- the loops of the form

  method SplitMultilineEntries(text: string) returns (entries: seq<string>)
    ensures entries == SplitMultiline(text)
  {
    var pieces := Pieces(text);
    entries := [];
    for i := 0 to |pieces|
      invariant entries == Entries(pieces[..i])
    {
      assert pieces[..i + 1][..i] == pieces[..i];
      var line := Strip(pieces[i], IsJsSpace);
      if line != "" { entries := entries + [line]; }
    }
    assert pieces[..|pieces|] == pieces;
  }

  method ParsePairs(text: Option<string>) returns (pairs: seq<KeyValue>)
    ensures pairs == ParseKvPairs(text)
  {
    if text.None? || Strip(text.value, IsJsSpace) == "" {
      return [];
    }
    var lines := SplitMultilineEntries(text.value);
    pairs := [];
    for i := 0 to |lines|
      invariant pairs == PairsOf(lines[..i])
    {
      assert lines[..i + 1][..i] == lines[..i];
      var line := lines[i];
      if (line != "" && line[0] == '#') || '=' !in line { continue; }
      var key := Strip(KeyOf(line), IsJsSpace);
      if key == "" { continue; }
      pairs := pairs + [KeyValue(key, ValueOf(line))];
    }
    assert lines[..|lines|] == lines;
  }

  method PairsToText(pairs: seq<KeyValue>) returns (text: Option<string>)
    ensures text == KvPairsToText(pairs)
  {
    var lines: seq<string> := [];
    for i := 0 to |pairs|
      invariant lines == PairLines(pairs[..i])
    {
      assert pairs[..i + 1][..i] == pairs[..i];
      var key := Strip(pairs[i].key, IsJsSpace);
      if key == "" { continue; }
      lines := lines + [Pair(key, pairs[i].value)];
    }
    assert pairs[..|pairs|] == pairs;
    text := if |lines| > 0 then Some(Join(lines)) else None;
  }

  // ---------- an unchanged edit through the form

  /** A key the form gives back as it was. */
  predicate GoodKey(key: string) {
    key != "" && ';' !in key && key[0] != '#' && !IsJsSpace(key[0]) && !IsJsSpace(key[|key| - 1])
  }

  /** A masked line the form gives back as it was. */
  predicate GoodLine(line: string) {
    '=' in line && GoodKey(KeyOf(line))
  }

  predicate SeparatorFree(line: string) {
    forall c | c in line :: !IsSeparator(c)
  }

  lemma {:induction false} OnePiece(line: string)
    requires SeparatorFree(line)
    ensures Pieces(line) == [line]
  {
    assert forall i | 0 <= i < |line| :: line[i] in line;
    assert UpToSeparator(line) == |line|;
  }

  lemma {:induction false} FirstPiece(line: string, rest: string)
    requires SeparatorFree(line)
    ensures Pieces(line + "\n" + rest) == [line] + Pieces(rest)
  {
    var s := line + "\n" + rest;
    assert s[|line|] == '\n';
    assert forall i | 0 <= i < |line| :: s[i] == line[i] && line[i] in line;
    assert UpToSeparator(s) == |line|;
    assert s[..|line|] == line && s[|line| + 1..] == rest;
  }

  /** Splitting at separators undoes joining lines that hold none. */
  lemma {:induction false} PiecesOfJoin(lines: seq<string>)
    requires lines != [] && forall line | line in lines :: SeparatorFree(line)
    ensures Pieces(Join(lines)) == lines
  {
    hide SeparatorFree, Pieces;
    assert lines[0] in lines;
    if |lines| == 1 {
      OnePiece(lines[0]);
    } else {
      assert forall line | line in lines[1..] :: line in lines;
      FirstPiece(lines[0], Join(lines[1..]));
      PiecesOfJoin(lines[1..]);
      assert lines == [lines[0]] + lines[1..];
    }
  }

  /** What one piece of the text becomes on its way through the form. */
  function FormLine(piece: string): seq<string> {
    var line := Strip(piece, IsJsSpace);
    if line == "" || PairOf(line) == [] then [] else PairLine(PairOf(line)[0])
  }

  function FormLines(pieces: seq<string>): seq<string> {
    if pieces == [] then [] else FormLines(pieces[..|pieces| - 1]) + FormLine(pieces[|pieces| - 1])
  }

  lemma {:induction false} PairsConcat(a: seq<string>, b: seq<string>)
    requires |b| <= 1
    ensures PairsOf(a + b) == PairsOf(a) + if b == [] then [] else PairOf(b[0])
  {
    if b == [] { assert a + b == a; } else { assert (a + b)[..|a + b| - 1] == a; }
  }

  lemma {:induction false} PairLinesConcat(a: seq<KeyValue>, b: seq<KeyValue>)
    requires |b| <= 1
    ensures PairLines(a + b) == PairLines(a) + if b == [] then [] else PairLine(b[0])
  {
    if b == [] { assert a + b == a; } else { assert (a + b)[..|a + b| - 1] == a; }
  }

  /** Piece by piece, the three loops of the form are one. */
  lemma {:induction false} FormIsPiecewise(pieces: seq<string>)
    ensures PairLines(PairsOf(Entries(pieces))) == FormLines(pieces)
  {
    if pieces != [] {
      FormIsPiecewise(pieces[..|pieces| - 1]);
      FormStep(pieces);
    }
  }

  lemma {:induction false} FormStep(pieces: seq<string>)
    requires pieces != []
    ensures PairLines(PairsOf(Entries(pieces))) ==
            PairLines(PairsOf(Entries(pieces[..|pieces| - 1]))) + FormLine(pieces[|pieces| - 1])
  {
    hide Strip, PairLine, PairOf, PairsOf, PairLines;
    var rest, line := pieces[..|pieces| - 1], Strip(pieces[|pieces| - 1], IsJsSpace);
    OnePairAtMost(line);
    PairsConcat(Entries(rest), if line == "" then [] else [line]);
    PairLinesConcat(PairsOf(Entries(rest)), if line == "" then [] else PairOf(line));
  }

  lemma {:induction false} OnePairAtMost(line: string)
    ensures |PairOf(line)| <= 1
  {
  }

  lemma {:induction false} BlankStrip(s: string)
    ensures Strip(s, IsJsSpace) == "" <==> forall c | c in s :: IsJsSpace(c)
  {
    hide IsJsSpace;
    var i, j := StripIsMiddle(s, IsJsSpace);
    if i < j { assert s[i] in s; }
  }

  /** The form shows the pieces of a text; a text of spaces alone is shown as nothing. */
  lemma {:induction false} ThroughFormLines(text: string)
    ensures ThroughForm(Some(text)) ==
            if FormLines(Pieces(text)) == [] then None else Some(Join(FormLines(Pieces(text))))
  {
    hide Strip, PairLine, PairOf, Pieces, FormLines, Entries, PairsOf, PairLines, Join;
    var pairs := PairsOf(Entries(Pieces(text)));
    FormIsPiecewise(Pieces(text));
    EmptyPair();
    if Strip(text, IsJsSpace) == "" {
      BlankStrip(text);
      BlankPieces(text);
      BlankForm(Pieces(text));
    }
  }

  lemma {:induction false} EmptyPair()
    ensures PairLines([KeyValue("", "")]) == [] && PairLines([]) == []
  {
    assert [KeyValue("", "")][..0] == [];
  }

  lemma {:induction false} BlankPieces(s: string)
    requires forall c | c in s :: IsJsSpace(c)
    ensures forall p, c | p in Pieces(s) && c in p :: IsJsSpace(c)
    decreases |s|
  {
    hide IsJsSpace, IsSeparator;
    var n := UpToSeparator(s);
    if n < |s| {
      assert forall c | c in s[n + 1..] :: c in s;
      assert forall c | c in s[..n] :: c in s;
      BlankPieces(s[n + 1..]);
    }
  }

  lemma {:induction false} BlankForm(pieces: seq<string>)
    requires forall p, c | p in pieces && c in p :: IsJsSpace(c)
    ensures FormLines(pieces) == []
  {
    hide IsJsSpace, Strip;
    if pieces != [] {
      assert pieces[|pieces| - 1] in pieces;
      assert forall p | p in pieces[..|pieces| - 1] :: p in pieces;
      BlankStrip(pieces[|pieces| - 1]);
      BlankForm(pieces[..|pieces| - 1]);
    }
  }

  // ---------- which masked texts the form gives back

  lemma {:induction false} FormLineShort(piece: string)
    ensures |FormLine(piece)| <= 1
    ensures forall line | line in FormLine(piece) :: |line| <= |piece| && forall c | c in line :: c in piece || c == '='
    ensures FormLine(piece) != [] ==> '=' in piece
  {
    hide IsJsSpace, Strip, KeyOf, ValueOf;
    var line := Strip(piece, IsJsSpace);
    StripShort(piece);
    if line != "" && PairOf(line) != [] {
      var key := PairOf(line)[0].key;
      StripShort(KeyOf(line));
      StripShort(key);
      PartsPair(line);
    }
  }

  lemma {:induction false} StripShort(s: string)
    ensures var t := Strip(s, IsJsSpace); |t| <= |s| && forall c | c in t :: c in s
  {
    hide IsJsSpace;
    var i, j := StripIsMiddle(s, IsJsSpace);
  }

  lemma {:induction false} GoodLineStays(line: string)
    requires GoodLine(line) && !IsJsSpace(line[|line| - 1])
    ensures FormLine(line) == [line]
  {
    hide IsJsSpace, Strip, KeyOf, ValueOf;
    var key, v := KeyOf(line), ValueOf(line);
    PartsPair(line);
    assert line[0] == key[0];
    StripKeepsTight(line, IsJsSpace);
    StripKeepsTight(key, IsJsSpace);
    assert PairOf(line) == [KeyValue(key, v)];
    assert PairLine(KeyValue(key, v)) == [Pair(key, v)];
  }

  lemma {:induction false} UntrimmedIsTight(s: string)
    requires |Strip(s, IsJsSpace)| == |s|
    ensures Strip(s, IsJsSpace) == s && (s != "" ==> !IsJsSpace(s[0]) && !IsJsSpace(s[|s| - 1]))
  {
    hide IsJsSpace, Strip;
    var i, j := StripIsMiddle(s, IsJsSpace);
    assert s[0..|s|] == s;
  }

  lemma {:induction false} StayingLineIsGood(line: string)
    requires FormLine(line) == [line] && ';' !in line
    ensures GoodLine(line)
  {
    hide IsJsSpace, Strip, KeyOf, ValueOf;
    var l := Strip(line, IsJsSpace);
    var key := KeyOf(l);
    var key' := Strip(key, IsJsSpace);
    StripShort(line);
    StripShort(key);
    StripShort(key');
    PartsPair(l);
    assert |Strip(key', IsJsSpace)| + 1 + |ValueOf(l)| == |line| >= |l| == |key| + 1 + |ValueOf(l)|;
    UntrimmedIsTight(line);
    UntrimmedIsTight(key);
    assert l == line && key' == key && forall c | c in key :: c in line;
    assert line[0] == key[0];
  }

  lemma {:induction false} BlankLineGoes(line: string)
    requires Blank(line)
    ensures FormLine(line) == []
  {
    FormLineShort(line);
    if FormLine(line) != [] { EqualsIsPlain(line); }
  }

  lemma {:induction false} FormLinesConcat(a: seq<string>, b: seq<string>)
    ensures FormLines(a + b) == FormLines(a) + FormLines(b)
  {
    hide FormLine;
    if b == [] {
      assert a + b == a;
    } else {
      assert (a + b)[..|a + b| - 1] == a + b[..|b| - 1];
      FormLinesConcat(a, b[..|b| - 1]);
    }
  }

  /** Blank lines do not come through the form. */
  lemma {:induction false} FormSkipsBlank(lines: seq<string>)
    ensures FormLines(lines) == FormLines(NonBlank(lines))
  {
    hide FormLine, Blank;
    if lines != [] {
      FormSkipsBlank(lines[1..]);
      FormLinesConcat([lines[0]], lines[1..]);
      FormLinesConcat(NonBlank([lines[0]]), NonBlank(lines[1..]));
      NonBlankConcat([lines[0]], lines[1..]);
      NonBlankOne(lines[0]);
      assert [lines[0]] + lines[1..] == lines;
      if Blank(lines[0]) { BlankLineGoes(lines[0]); }
      assert FormLines([lines[0]]) == FormLine(lines[0]) by { assert [lines[0]][..0] == []; }
    }
  }

  /** A list comes through unchanged exactly when every line does. */
  lemma {:induction false} FormKeeps(lines: seq<string>)
    ensures |FormLines(lines)| <= |lines|
    ensures FormLines(lines) == lines <==> forall i | 0 <= i < |lines| :: FormLine(lines[i]) == [lines[i]]
  {
    hide FormLine;
    if lines != [] {
      var rest, last := lines[..|lines| - 1], lines[|lines| - 1];
      FormKeeps(rest);
      FormLineShort(last);
      assert lines == rest + [last];
      if FormLines(lines) == lines {
        assert |FormLines(rest)| == |rest| && FormLines(lines)[..|rest|] == FormLines(rest) && lines[..|rest|] == rest;
        assert FormLine(last) == FormLines(lines)[|rest|..] == lines[|rest|..] == [last];
      }
    }
  }

  /** What the form makes of a masked text without stray separators. */
  lemma {:induction false} ThroughFormOfMask(s: string)
    requires forall line | line in MaskLines(NonBlank(SplitLines(s))) :: ';' !in line
    ensures var out := FormLines(MaskLines(NonBlank(SplitLines(s))));
            ThroughForm(Mask(Some(s))) == if out == [] then None else Some(Join(out))
  {
    var lines := SplitLines(s);
    var masked := MaskLines(lines);
    hide SplitLines, FormLines, ThroughForm, NonBlank, Pieces, MaskLine;
    NoMaskedText();
    if s == "" {
      NoLines();
    } else {
      SomeLines(s);
      forall line | line in masked ensures SeparatorFree(line) {
        var i :| 0 <= i < |lines| && line == MaskLine(lines[i]);
        MaskLineFacts(lines[i]);
        NonBlankMasked(lines);
        if Blank(line) {
          BlankSeparatorFree(line);
        } else {
          assert line in NonBlank(masked);
          BreakFreeSeparatorFree(line);
        }
      }
      PiecesOfJoin(masked);
      ThroughFormLines(Join(masked));
      FormSkipsBlank(masked);
      NonBlankMasked(lines);
    }
  }

  lemma {:induction false} NoMaskedText()
    ensures ThroughForm(Some("")) == None && FormLines(MaskLines(NonBlank([]))) == []
  {
    ThroughFormLines("");
    assert Pieces("") == [""];
    BlankForm([""]);
  }

  lemma {:induction false} SomeLines(s: string)
    requires s != ""
    ensures SplitLines(s) != []
  {
  }

  lemma {:induction false} BlankSeparatorFree(line: string)
    requires Blank(line) && BreakFree(line)
    ensures SeparatorFree(line)
  {
  }

  lemma {:induction false} BreakFreeSeparatorFree(line: string)
    requires BreakFree(line) && ';' !in line
    ensures SeparatorFree(line)
  {
  }

  /** The lines of a masked text that hold something, one below the other. */
  function MaskedText(s: string): Option<string> {
    var masked := MaskLines(NonBlank(SplitLines(s)));
    if masked == [] then None else Some(Join(masked))
  }

  lemma {:induction false} MaskedFull(s: string)
    ensures forall line | line in MaskLines(NonBlank(SplitLines(s))) :: BreakFree(line) && !Blank(line)
  {
    hide SplitLines, NonBlank, BreakFree, Blank, MaskLine;
    var lines := NonBlank(SplitLines(s));
    forall line | line in MaskLines(lines) ensures BreakFree(line) && !Blank(line) {
      var i :| 0 <= i < |lines| && line == MaskLine(lines[i]);
      assert lines[i] in lines;
      MaskLineFacts(lines[i]);
    }
  }

  lemma {:induction false} InJoin(lines: seq<string>, line: string, c: char)
    requires line in lines && c in line
    ensures c in Join(lines)
  {
    if |lines| > 1 && line != lines[0] {
      assert line in lines[1..];
      InJoin(lines[1..], line, c);
    }
  }

  lemma {:induction false} JoinHas(lines: seq<string>, c: char)
    requires c in Join(lines) && c != '\n'
    ensures exists line :: line in lines && c in line
  {
    if |lines| == 1 {
      assert lines[0] in lines;
    } else {
      if c in lines[0] {
        assert lines[0] in lines;
      } else {
        JoinHas(lines[1..], c);
        var line :| line in lines[1..] && c in line;
        assert line in lines;
      }
    }
  }

  lemma {:induction false} PiecesSeparatorFree(s: string)
    ensures forall p | p in Pieces(s) :: SeparatorFree(p)
    decreases |s|
  {
    hide IsSeparator;
    var n := UpToSeparator(s);
    assert forall c | c in s[..n] :: !IsSeparator(c);
    if n < |s| { PiecesSeparatorFree(s[n + 1..]); }
  }

  lemma {:induction false} FormLinesFrom(pieces: seq<string>)
    ensures forall line | line in FormLines(pieces) :: exists p :: p in pieces && line in FormLine(p)
  {
    hide FormLine;
    if pieces != [] {
      FormLinesFrom(pieces[..|pieces| - 1]);
      forall line | line in FormLines(pieces) ensures exists p :: p in pieces && line in FormLine(p) {
        if line in FormLine(pieces[|pieces| - 1]) {
          assert pieces[|pieces| - 1] in pieces;
        } else {
          var rest := pieces[..|pieces| - 1];
          assert line in FormLines(rest);
          var p :| p in rest && line in FormLine(p);
          assert p in pieces;
        }
      }
    }
  }

  /** The form puts out no semicolon. */
  lemma {:induction false} FormHasNoSemicolon(text: string)
    requires ThroughForm(Some(text)).Some?
    ensures ';' !in ThroughForm(Some(text)).value
  {
    hide ThroughForm, FormLines, FormLine, Pieces, Join, SeparatorFree;
    ThroughFormLines(text);
    var out := FormLines(Pieces(text));
    if ';' in Join(out) {
      JoinHas(out, ';');
      var line :| line in out && ';' in line;
      FormLinesFrom(Pieces(text));
      var p :| p in Pieces(text) && line in FormLine(p);
      FormLineShort(p);
      PiecesSeparatorFree(text);
      NoSemicolon(p);
    }
  }

  lemma {:induction false} NoSemicolon(p: string)
    requires SeparatorFree(p)
    ensures ';' !in p
  {
  }

  /** The form gives a masked text back, blank lines aside, exactly when every line that holds anything
      has a key without semicolons or outer spaces that does not begin with a hash. */
  lemma FormKeepsMask(s: string)
    ensures ThroughForm(Mask(Some(s))) == MaskedText(s) <==>
            forall line | line in NonBlank(SplitLines(s)) :: GoodLine(line)
  {
    hide SplitLines, NonBlank, ThroughForm, Mask, FormLines, FormLine, Join, MaskLine, Blank, BreakFree, GoodKey;
    var lines := NonBlank(SplitLines(s));
    var masked := MaskLines(lines);
    if ThroughForm(Mask(Some(s))) == MaskedText(s) && lines != [] {
      MaskIsText(s);
      FormHasNoSemicolon(Mask(Some(s)).value);
      forall line | line in masked ensures ';' !in line { if ';' in line { InJoin(masked, line, ';'); } }
      ThroughFormOfMask(s);
      SameJoin(FormLines(masked), s);
      FormKeeps(masked);
      forall line | line in lines ensures GoodLine(line) {
        var i :| 0 <= i < |lines| && lines[i] == line;
        assert FormLine(masked[i]) == [masked[i]] && masked[i] in masked;
        StayingLineIsGood(masked[i]);
        MaskLineFacts(line);
        MaskedIsPlain();
      }
    }
    if forall line | line in lines :: GoodLine(line) {
      forall i | 0 <= i < |masked| ensures FormLine(masked[i]) == [masked[i]] && ';' !in masked[i] {
        assert lines[i] in lines;
        GoodMaskStays(lines[i]);
      }
      FormKeeps(masked);
      ThroughFormOfMask(s);
    }
  }

  lemma {:induction false} MaskIsText(s: string)
    ensures Mask(Some(s)).Some?
  {
  }

  lemma {:induction false} GoodMaskStays(line: string)
    requires GoodLine(line) && BreakFree(line) && !Blank(line)
    ensures FormLine(MaskLine(line)) == [MaskLine(line)] && ';' !in MaskLine(line)
  {
    hide FormLine, Blank, BreakFree;
    MaskLineFacts(line);
    MaskedIsPlain();
    var m := MaskLine(line);
    assert m == Pair(KeyOf(line), MASKED_VALUE);
    assert m[|m| - 1] == ']';
    GoodLineStays(m);
  }

  /** If the form's lines join to the masked text they are its lines. */
  lemma {:induction false} SameJoin(out: seq<string>, s: string)
    requires var masked := MaskLines(NonBlank(SplitLines(s)));
             && out == FormLines(masked) && out != [] && Join(out) == Join(masked)
             && forall line | line in masked :: ';' !in line
    ensures out == MaskLines(NonBlank(SplitLines(s)))
  {
    hide SplitLines, NonBlank, FormLines, FormLine, Join, MaskLine, Blank, BreakFree, SeparatorFree;
    var masked := MaskLines(NonBlank(SplitLines(s)));
    MaskedFull(s);
    forall line | line in masked ensures SeparatorFree(line) { BreakFreeSeparatorFree(line); }
    FormLinesFrom(masked);
    forall line | line in out ensures SeparatorFree(line) {
      var p :| p in masked && line in FormLine(p);
      FormLineShort(p);
      SeparatorFreeFrom(line, p);
    }
    if masked == [] { NoForm(); }
    PiecesOfJoin(out);
    PiecesOfJoin(masked);
  }

  lemma {:induction false} NoForm()
    ensures FormLines([]) == []
  {
  }

  lemma {:induction false} SeparatorFreeFrom(line: string, p: string)
    requires SeparatorFree(p) && forall c | c in line :: c in p || c == '='
    ensures SeparatorFree(line)
  {
  }

  lemma {:induction false} NonBlankAll(lines: seq<string>)
    requires forall line | line in lines :: !Blank(line)
    ensures NonBlank(lines) == lines
  {
    hide Blank;
    if lines != [] {
      assert lines[0] in lines && forall line | line in lines[1..] :: line in lines;
      NonBlankAll(lines[1..]);
      assert lines == [lines[0]] + lines[1..];
    }
  }
}
