/** An unchanged edit through the form of the user interface: exactly which texts it keeps. */
module FormEdits {
  import opened Options
  import opened Lines
  import opened SecretLaws
  import opened Secrets

  // ---------- what the form makes of a masked text

  /** Every equals sign of a text is followed by the mask, and that by a separator or the end. */
  predicate MaskFollows(s: string) {
    forall i | 0 <= i < |s| && s[i] == '=' :: MaskAt(s, i + 1)
  }

  predicate MaskAt(s: string, i: nat) {
    var end := i + |MASKED_VALUE|;
    end <= |s| && s[i..end] == MASKED_VALUE && (end == |s| || IsSeparator(s[end]))
  }

  /** A piece that is a key with the mask as its value, or has no equals sign. */
  predicate MaskedPiece(p: string) {
    '=' in p ==> ValueOf(p) == MASKED_VALUE
  }

  lemma {:induction false} MaskHasNoSeparator()
    ensures forall i | 0 <= i < |MASKED_VALUE| :: !IsSeparator(MASKED_VALUE[i]) && MASKED_VALUE[i] != '='
  {
  }

  lemma {:induction false} FirstPieceMasked(s: string)
    requires MaskFollows(s)
    ensures MaskedPiece(s[..UpToSeparator(s)])
  {
    MaskHasNoSeparator();
    hide IsSeparator, UpToSeparator;
    var n := UpToSeparator(s);
    var p := s[..n];
    if '=' in p {
      var i := IndexOf(p, '=');
      var end := i + 1 + |MASKED_VALUE|;
      assert MaskAt(s, i + 1);
      assert forall k | i + 1 <= k < end :: s[k] == MASKED_VALUE[k - (i + 1)];
      assert p[i + 1..] == s[i + 1..n];
      assert n == end;
    }
  }

  lemma {:induction false} RestFollows(s: string, n: nat)
    requires MaskFollows(s) && n <= |s|
    ensures MaskFollows(s[n..])
  {
    var t := s[n..];
    forall i | 0 <= i < |t| && t[i] == '=' ensures MaskAt(t, i + 1) {
      var end := i + 1 + |MASKED_VALUE|;
      assert s[n + i] == '=' && MaskAt(s, n + i + 1);
      assert t[i + 1..end] == s[n + i + 1..n + end];
    }
  }

  lemma {:induction false} PiecesMasked(s: string)
    requires MaskFollows(s)
    ensures forall p | p in Pieces(s) :: MaskedPiece(p)
    decreases |s|
  {
    hide UpToSeparator, MaskFollows, MaskedPiece;
    var n := UpToSeparator(s);
    FirstPieceMasked(s);
    if n < |s| {
      RestFollows(s, n + 1);
      PiecesMasked(s[n + 1..]);
    } else {
      assert s[..n] == s;
    }
  }

  lemma {:induction false} PairFollows(key: string)
    requires '=' !in key
    ensures MaskFollows(Pair(key, MASKED_VALUE))
  {
    MaskHasNoSeparator();
    hide IsSeparator;
    var m := Pair(key, MASKED_VALUE);
    assert forall k | 0 <= k < |key| :: m[k] == key[k] && key[k] in key;
    assert forall k | |key| < k < |m| :: m[k] != '=';
    assert m[|key| + 1..|m|] == MASKED_VALUE;
    assert MaskAt(m, |key| + 1);
  }

  lemma {:induction false} PlainFollows(s: string)
    requires '=' !in s
    ensures MaskFollows(s)
  {
    assert forall i | 0 <= i < |s| :: s[i] in s;
  }

  lemma {:induction false} MaskedLineFollows(line: string)
    ensures MaskFollows(MaskLine(line))
  {
    hide MaskFollows, KeyOf, Pair, Blank;
    MaskedIsPlain();
    if Blank(line) {
      if '=' in line { EqualsIsPlain(line); }
      PlainFollows(line);
    } else if '=' in line {
      PartsPair(line);
      PairFollows(KeyOf(line));
    } else {
      PlainFollows(MASKED_VALUE);
    }
  }

  lemma {:induction false} JoinedFollows(a: string, b: string)
    requires MaskFollows(a) && MaskFollows(b)
    ensures MaskFollows(a + "\n" + b)
  {
    var s := a + "\n" + b;
    forall i | 0 <= i < |s| && s[i] == '=' ensures MaskAt(s, i + 1) {
      var end := i + 1 + |MASKED_VALUE|;
      if i < |a| {
        assert a[i] == '=' && MaskAt(a, i + 1);
        assert s[i + 1..end] == a[i + 1..end];
      } else {
        var k := i - |a| - 1;
        assert b[k] == '=' && MaskAt(b, k + 1);
        assert s[i + 1..end] == b[k + 1..k + 1 + |MASKED_VALUE|];
      }
    }
  }

  lemma {:induction false} JoinFollows(lines: seq<string>)
    requires forall line | line in lines :: MaskFollows(line)
    ensures MaskFollows(Join(lines))
  {
    hide MaskFollows;
    if |lines| == 1 {
      assert lines[0] in lines;
    } else if lines != [] {
      assert lines[0] in lines && forall line | line in lines[1..] :: line in lines;
      JoinFollows(lines[1..]);
      JoinedFollows(lines[0], Join(lines[1..]));
    } else {
      NothingFollows();
    }
  }

  lemma {:induction false} NothingFollows()
    ensures MaskFollows("")
  {
  }

  lemma {:induction false} MaskedTextFollows(s: string)
    ensures Mask(Some(s)).Some? && MaskFollows(Mask(Some(s)).value)
  {
    hide MaskFollows, MaskLine, SplitLines;
    var lines := SplitLines(s);
    if s == "" {
      NothingFollows();
    } else {
      forall line | line in MaskLines(lines) ensures MaskFollows(line) {
        var i :| 0 <= i < |lines| && line == MaskLine(lines[i]);
        MaskedLineFollows(lines[i]);
      }
      JoinFollows(MaskLines(lines));
    }
  }

  // ---------- the lines the form puts out

  /** A line that is a key with the mask as its value. */
  predicate MaskedEntry(line: string) {
    '=' in line && ValueOf(line) == MASKED_VALUE && BreakFree(line)
  }

  /** Trimming takes nothing from the value. */
  lemma {:induction false} TrimmedPiece(p: string)
    requires '=' in p && MaskedPiece(p)
    ensures var t := Strip(p, IsJsSpace); '=' in t && ValueOf(t) == MASKED_VALUE
  {
    hide IsJsSpace, Strip, KeyOf, ValueOf;
    var i, j := StripIsMiddle(p, IsJsSpace);
    var key := KeyOf(p);
    PartsPair(p);
    NotSpaces();
    assert p[|key|] == '=' && p[|p| - 1] == ']';
    assert i <= |key| && j == |p|;
    assert p[i..j] == Pair(key[i..], MASKED_VALUE);
    PairParts(key[i..], MASKED_VALUE);
  }

  lemma {:induction false} NotSpaces()
    ensures !IsJsSpace('=') && !IsJsSpace(']') && MASKED_VALUE[|MASKED_VALUE| - 1] == ']'
  {
  }

  lemma {:induction false} FormLineMasked(p: string)
    requires MaskedPiece(p) && BreakFree(p)
    ensures forall line | line in FormLine(p) :: MaskedEntry(line)
  {
    hide Strip, IsJsSpace, IsBreak;
    FormLineShort(p);
    var t := Strip(p, IsJsSpace);
    if FormLine(p) != [] {
      TrimmedPiece(p);
      PartsPair(t);
      var key := Strip(KeyOf(t), IsJsSpace);
      StripShort(KeyOf(t));
      StripShort(key);
      PairParts(Strip(key, IsJsSpace), MASKED_VALUE);
      assert FormLine(p) == [Pair(Strip(key, IsJsSpace), MASKED_VALUE)];
      EqualsBreaksNothing();
    }
  }

  lemma {:induction false} EqualsBreaksNothing()
    ensures !IsBreak('=')
  {
  }

  /** What lies between separators of a text whose only breaks are line feeds has none. */
  lemma {:induction false} PiecesBreakFree(s: string)
    requires forall c | c in s :: c == '\n' || !IsBreak(c)
    ensures forall p | p in Pieces(s) :: BreakFree(p)
    decreases |s|
  {
    hide IsBreak;
    var n := UpToSeparator(s);
    assert forall c | c in s[..n] :: c in s && !IsSeparator(c);
    if n < |s| {
      assert forall c | c in s[n + 1..] :: c in s;
      PiecesBreakFree(s[n + 1..]);
    }
  }

  lemma {:induction false} MaskedTextBreaks(s: string)
    ensures Mask(Some(s)).Some? && forall c | c in Mask(Some(s)).value :: c == '\n' || !IsBreak(c)
  {
    hide MaskLine, SplitLines, IsBreak;
    if s != "" {
      var lines := SplitLines(s);
      forall c | c in Join(MaskLines(lines)) && c != '\n' ensures !IsBreak(c) {
        JoinHas(MaskLines(lines), c);
        var line :| line in MaskLines(lines) && c in line;
        var i :| 0 <= i < |lines| && line == MaskLine(lines[i]);
        MaskLineFacts(lines[i]);
      }
    }
  }

  /** Every line the form makes of a masked text is a key with the mask. */
  lemma {:induction false} FormLinesMasked(s: string)
    ensures Mask(Some(s)).Some?
    ensures forall line | line in FormLines(Pieces(Mask(Some(s)).value)) :: MaskedEntry(line)
  {
    hide Mask, Pieces, FormLine, FormLines, MaskFollows, MaskedPiece, BreakFree, MaskedEntry, IsBreak;
    MaskedTextFollows(s);
    MaskedTextBreaks(s);
    var pieces := Pieces(Mask(Some(s)).value);
    PiecesMasked(Mask(Some(s)).value);
    PiecesBreakFree(Mask(Some(s)).value);
    FormLinesFrom(pieces);
    forall line | line in FormLines(pieces) ensures MaskedEntry(line) {
      var p :| p in pieces && line in FormLine(p);
      FormLineMasked(p);
    }
  }

  // ---------- merging what the form puts out

  lemma {:induction false} EntriesFull(lines: seq<string>)
    requires forall line | line in lines :: MaskedEntry(line)
    ensures forall line | line in lines :: BreakFree(line) && !Blank(line)
    ensures NonBlank(SplitLines(Join(lines))) == lines
  {
    hide SplitLines, Join, NonBlank, BreakFree, Blank, KeyOf, ValueOf;
    forall line | line in lines ensures !Blank(line) { EqualsIsPlain(line); }
    NonBlankOfJoin(lines);
    NonBlankAll(lines);
  }

  lemma {:induction false} MergedEntriesFull(lines: seq<string>, stored: map<string, string>)
    requires (forall line | line in lines :: MaskedEntry(line)) && Mergeable(lines, stored)
    requires forall k | k in stored :: BreakFree(stored[k])
    ensures forall line | line in MergeLines(lines, stored) :: BreakFree(line) && !Blank(line)
  {
    hide KeyOf, ValueOf, Blank, IsBreak;
    EqualsBreaksNothing();
    forall line | line in MergeLines(lines, stored) ensures BreakFree(line) && !Blank(line) {
      var i :| 0 <= i < |lines| && MergeLine(lines[i], stored).value == line;
      assert lines[i] in lines;
      PartsPair(lines[i]);
      EqualsIsPlain(line);
    }
  }

  /** A merged entry that is the latest line of some line came from the mask of that line. */
  lemma {:induction false} EntryOfLine(entry: string, line: string, stored: map<string, string>)
    requires MaskedEntry(entry) && MergeLine(entry, stored).Some? && !Blank(line)
    requires MergeLine(entry, stored).value == LatestLine(line, stored)
    ensures entry == MaskLine(line)
  {
    hide Blank, BreakFree;
    PartsPair(entry);
    var key := KeyOf(entry);
    PairParts(key, stored[key]);
    if '=' in line {
      PartsPair(line);
      if KeyOf(line) in stored { PairParts(KeyOf(line), stored[KeyOf(line)]); }
    }
  }

  /** If the merge of what the form puts out is the latest text, the form has put out the masked text. */
  lemma {:induction false} MergeForcesMask(s: string)
    requires Merge(ThroughForm(Mask(Some(s))), Some(s)) == Merged(LatestText(s)) && NonBlank(SplitLines(s)) != []
    ensures ThroughForm(Mask(Some(s))) == MaskedText(s)
  {
    hide SplitLines, NonBlank, ThroughForm, Mask, Join, MaskLine, Blank, BreakFree, FormLines, Pieces,
         MaskedEntry, LatestLine,
         Stored, Mergeable, MergeLine;
    var lines, stored := NonBlank(SplitLines(s)), Stored(SplitLines(s));
    FormLinesMasked(s);
    var text := Mask(Some(s)).value;
    var entries := FormLines(Pieces(text));
    ThroughFormLines(text);
    NothingSubmitted();
    EntriesFull(entries);
    if entries != [] {
      StoredBreakFree(SplitLines(s));
      MergedEntriesFull(entries, stored);
      LatestFull(s);
      JoinInjective(MergeLines(entries, stored), Latest(lines, stored));
      forall i | 0 <= i < |lines| ensures entries[i] == MaskLine(lines[i]) {
        assert MergeLine(entries[i], stored).Some? by { MergesAt(entries, stored, i); }
        assert MergeLines(entries, stored)[i] == Latest(lines, stored)[i];
        assert entries[i] in entries && lines[i] in lines;
        EntryOfLine(entries[i], lines[i], stored);
      }
      assert entries == MaskLines(lines);
    }
  }

  lemma {:induction false} MergesAt(lines: seq<string>, stored: map<string, string>, i: nat)
    requires Mergeable(lines, stored) && i < |lines|
    ensures MergeLine(lines[i], stored).Some? && MergeLines(lines, stored)[i] == MergeLine(lines[i], stored).value
  {
    hide MergeLine;
  }

  lemma {:induction false} NothingSubmitted()
    ensures NonBlank(SplitLines(TextOf(None))) == []
  {
  }

  lemma {:induction false} GoodThenMerge(s: string)
    requires forall line | line in NonBlank(SplitLines(s)) :: GoodLine(line)
    ensures Merge(ThroughForm(Mask(Some(s))), Some(s)) == Merged(LatestText(s))
  {
    hide SplitLines, NonBlank, ThroughForm, Mask, Join, MaskLine, Blank, BreakFree, GoodKey, Stored, Mergeable;
    var masked := MaskLines(NonBlank(SplitLines(s)));
    FormKeepsMask(s);
    MaskThenMerge(s);
    MergeOfMask(s);
    MaskedFull(s);
    NonBlankAll(masked);
    NonBlankOfJoin(masked);
    NothingSubmitted();
  }

  /**
   * An unchanged edit in the user interface: the masked text that went through the form is merged to the stored lines,
   * each with the latest value of its key, exactly when every line that holds anything has a key the form keeps.
   */
  lemma {:induction false} FormThenMerge(s: string)
    ensures Merge(ThroughForm(Mask(Some(s))), Some(s)) == Merged(LatestText(s)) <==>
            forall line | line in NonBlank(SplitLines(s)) :: GoodLine(line)
  {
    hide SplitLines, NonBlank, ThroughForm, Mask, Merge, LatestText, MaskedText, GoodLine;
    if Merge(ThroughForm(Mask(Some(s))), Some(s)) == Merged(LatestText(s)) && NonBlank(SplitLines(s)) != [] {
      MergeForcesMask(s);
      FormKeepsMask(s);
    }
    if forall line | line in NonBlank(SplitLines(s)) :: GoodLine(line) { GoodThenMerge(s); }
  }
}
