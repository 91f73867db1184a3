/** What submitted secrets become: which ones are taken as they are, and which stand for a stored value. */
module MergeLaws {
  import opened Lines
  import opened Options
  import opened SecretLaws
  import opened Secrets

  /** A line that keeps what is stored for its key. */
  predicate KeepsStored(line: string) {
    '=' in line && ValueOf(line) == MASKED_VALUE
  }

  predicate Sets(line: string, key: string) {
    '=' in line && KeyOf(line) == key
  }

  /** The line that has the say about a key: the last one that sets it. */
  predicate LastSets(stored: seq<string>, j: nat, key: string) {
    j < |stored| && Sets(stored[j], key) && forall i | j < i < |stored| :: !Sets(stored[i], key)
  }

  /** A line with the value that is stored last for the key of another. */
  predicate HasLatest(line: string, out: string, stored: seq<string>)
    requires '=' in line
  {
    exists j: nat | j < |stored| :: LastSets(stored, j, KeyOf(line)) && out == KeyOf(line) + "=" + ValueOf(stored[j])
  }

  /** What a submitted line has become: the value stored last for its key where it keeps one, itself otherwise. */
  predicate Became(line: string, out: string, stored: seq<string>) {
    if KeepsStored(line) then HasLatest(line, out, stored) else out == line
  }

  /** A line does not keep a value nobody stored. */
  predicate Known(line: string, stored: seq<string>) {
    KeepsStored(line) ==> exists other | other in stored :: Sets(other, KeyOf(line))
  }

  /** What becomes of a line that is shown masked and left alone; one without an equals sign is nothing but its mask. */
  predicate LeftAlone(line: string, out: string, lines: seq<string>) {
    if '=' in line then HasLatest(line, out, lines) else out == MASKED_VALUE
  }

  /** The lines of a text that hold something. */
  function Held(text: Option<string>): seq<string> {
    NonBlank(SplitLines(text.GetOr("")))
  }

  // ---------- the mask

  /** What is shown of a line: all of it if blank, the key of a pair, nothing of any other. */
  predicate ShownAs(line: string, out: string) {
    if Blank(line) then out == line
    else if '=' in line then
      exists n: nat | n < |line| :: line[n] == '=' && '=' !in line[..n] && out == line[..n] + "=[MASKED]"
    else out == "[MASKED]"
  }

  /** A masked text has a line for each line of the text, in order, that shows no value. */
  lemma {:induction false} MaskMeans(text: string) returns (out: seq<string>)
    ensures Mask(Some(text)) == Some(Join(out)) && |out| == |SplitLines(text)|
    ensures forall i | 0 <= i < |out| :: ShownAs(SplitLines(text)[i], out[i])
  {
    hide SplitLines, ShownAs, MaskLine, Blank;
    var lines := SplitLines(text);
    out := MaskLines(lines);
    NoLines();
    forall i | 0 <= i < |out| ensures ShownAs(lines[i], out[i]) { MaskShows(lines[i]); }
  }

  lemma {:induction false} MaskShows(line: string)
    ensures ShownAs(line, MaskLine(line))
  {
    hide Blank;
    if '=' in line {
      var n := IndexOf(line, '=');
      assert line[n] == '=' && '=' !in line[..n];
      assert line[..n] + "=" + "[MASKED]" == line[..n] + "=[MASKED]";
    }
  }

  // ---------- what is stored

  lemma {:induction false} StoredIsLast(lines: seq<string>, key: string) returns (j: nat)
    ensures key in Stored(lines) <==> exists line :: line in lines && Sets(line, key)
    ensures key in Stored(lines) ==> LastSets(lines, j, key) && Stored(lines)[key] == ValueOf(lines[j])
  {
    hide KeyOf, ValueOf;
    j := 0;
    if lines != [] {
      var n := |lines| - 1;
      j := StoredIsLast(lines[..n], key);
      assert lines == lines[..n] + [lines[n]];
      if Sets(lines[n], key) { j := n; }
    }
  }

  lemma {:induction false} LastIsOne(stored: seq<string>, i: nat, j: nat, key: string)
    requires LastSets(stored, i, key) && LastSets(stored, j, key)
    ensures i == j
  {
  }

  /** One line of a merge. */
  lemma {:induction false} LineBecomes(line: string, stored: seq<string>)
    ensures MergeLine(line, Stored(stored)).Some? <==> Known(line, stored)
    ensures MergeLine(line, Stored(stored)).Some? ==>
            Became(line, MergeLine(line, Stored(stored)).value, stored)
  {
    if KeepsStored(line) { var j := StoredIsLast(stored, KeyOf(line)); }
  }

  lemma {:induction false} BecomesOne(line: string, a: string, b: string, stored: seq<string>)
    requires Became(line, a, stored) && Became(line, b, stored)
    ensures a == b
  {
    hide ValueOf;
    if KeepsStored(line) {
      var i: nat :| i < |stored| && LastSets(stored, i, KeyOf(line)) && a == KeyOf(line) + "=" + ValueOf(stored[i]);
      var j: nat :| j < |stored| && LastSets(stored, j, KeyOf(line)) && b == KeyOf(line) + "=" + ValueOf(stored[j]);
      LastIsOne(stored, i, j, KeyOf(line));
    }
  }

  lemma {:induction false} BecameHolds(line: string, out: string, stored: seq<string>)
    requires Became(line, out, stored) && BreakFree(line) && !Blank(line)
    requires forall other | other in stored :: BreakFree(other)
    ensures BreakFree(out) && !Blank(out)
  {
    if KeepsStored(line) {
      var j: nat :| j < |stored| && LastSets(stored, j, KeyOf(line)) && out == KeyOf(line) + "=" + ValueOf(stored[j]);
      assert stored[j] in stored;
      PartsPair(line);
      PartsPair(stored[j]);
      PairParts(KeyOf(line), ValueOf(stored[j]));
      EqualsIsPlain(out);
    }
  }

  // ---------- the merge

  /** Whether every submitted line that keeps a stored value has its key on some stored line. */
  predicate AllKnown(lines: seq<string>, stored: seq<string>) {
    forall line | line in lines :: Known(line, stored)
  }

  /**
   * For any submitted and stored texts: a merge succeeds exactly if every line `KEY=[MASKED]` has its key on some
   * stored line. The result has one line for each submitted one that holds something, in order: a kept one has the
   * value of the last stored line of its key, any other is as it was submitted.
   */
  lemma {:induction false} MergeMeans(submitted: Option<string>, existing: Option<string>) returns (out: seq<string>)
    ensures var lines, stored := Held(submitted), SplitLines(existing.GetOr(""));
            && (Merge(submitted, existing).Merged? <==> AllKnown(lines, stored))
            && (AllKnown(lines, stored) ==>
                  && |out| == |lines| && (forall i | 0 <= i < |out| :: Became(lines[i], out[i], stored))
                  && Merge(submitted, existing) == Merged(if out == [] then None else Some(Join(out)))
                  && SplitLines(Join(out)) == out && Held(Some(Join(out))) == out)
  {
    hide MergeLine, Known, Became, SplitLines, NonBlank, Join, Stored;
    var lines, stored := Held(submitted), SplitLines(existing.GetOr(""));
    forall i | 0 <= i < |lines|
      ensures MergeLine(lines[i], Stored(stored)).Some? <==> Known(lines[i], stored)
      ensures MergeLine(lines[i], Stored(stored)).Some? ==>
              Became(lines[i], MergeLine(lines[i], Stored(stored)).value, stored)
    {
      LineBecomes(lines[i], stored);
    }
    out := [];
    if AllKnown(lines, stored) {
      assert forall i | 0 <= i < |lines| :: lines[i] in lines;
      out := MergeLines(lines, Stored(stored));
      MergedIsSplit(lines, out, stored);
    }
  }

  lemma {:induction false} MergedIsSplit(lines: seq<string>, out: seq<string>, stored: seq<string>)
    requires |out| == |lines| && forall i | 0 <= i < |out| :: Became(lines[i], out[i], stored)
    requires forall line | line in lines :: BreakFree(line) && !Blank(line)
    requires forall other | other in stored :: BreakFree(other)
    ensures SplitLines(Join(out)) == out && NonBlank(SplitLines(Join(out))) == out
  {
    hide Became, BreakFree, Blank, SplitLines, NonBlank, Join;
    forall line | line in out ensures BreakFree(line) && !Blank(line) {
      var i :| 0 <= i < |out| && out[i] == line;
      assert lines[i] in lines;
      BecameHolds(lines[i], out[i], stored);
    }
    SplitJoin(out);
    assert out != [] && out[|out| - 1] == "" ==> Blank("") by { NothingIsBlank(); }
    assert out != [] ==> out[|out| - 1] in out;
    NonBlankAll(out);
  }

  /** A merge that fails names the key of the first line that keeps a value nobody stored. */
  lemma {:induction false} UnknownIsFirst(submitted: Option<string>, existing: Option<string>) returns (i: nat)
    requires Merge(submitted, existing).UnknownKey?
    ensures var lines, stored := Held(submitted), SplitLines(existing.GetOr(""));
            && i < |lines| && KeepsStored(lines[i]) && Merge(submitted, existing) == UnknownKey(KeyOf(lines[i]))
            && (forall other | other in stored :: !Sets(other, KeyOf(lines[i])))
            && AllKnown(lines[..i], stored)
  {
    hide SplitLines, NonBlank, Stored;
    var lines, stored := Held(submitted), SplitLines(existing.GetOr(""));
    i := FirstUnknownIs(lines, stored);
  }

  lemma {:induction false} FirstUnknownIs(lines: seq<string>, stored: seq<string>) returns (i: nat)
    requires !Mergeable(lines, Stored(stored))
    ensures i < |lines| && KeepsStored(lines[i]) && FirstUnknown(lines, Stored(stored)) == KeyOf(lines[i])
    ensures forall other | other in stored :: !Sets(other, KeyOf(lines[i]))
    ensures AllKnown(lines[..i], stored)
  {
    hide Stored, KeyOf, ValueOf;
    LineBecomes(lines[0], stored);
    if MergeLine(lines[0], Stored(stored)).None? {
      i := 0;
    } else {
      assert !Mergeable(lines[1..], Stored(stored));
      i := FirstUnknownIs(lines[1..], stored);
      i := i + 1;
      assert lines[..i] == [lines[0]] + lines[1..][..i - 1];
    }
  }

  // ---------- editing one value

  /** The lines a user sees, one of which is given a new value. */
  function EditedLines(lines: seq<string>, i: nat, value: string): seq<string>
    requires i < |lines| && '=' in lines[i]
  {
    MaskLines(lines)[i := KeyOf(lines[i]) + "=" + value]
  }

  /** A line that is shown masked and not edited comes back with the latest value of its key. */
  lemma {:induction false} ShownComesBack(lines: seq<string>, line: string, out: string)
    requires line in lines && !Blank(line) && BreakFree(line) && Became(MaskLine(line), out, lines)
    ensures LeftAlone(line, out, lines)
  {
    MaskLineFacts(line);
    MaskedIsPlain();
  }

  /**
   * Giving the key of one line a new value and leaving the masks of the others: the merge succeeds, that line gets the
   * new value, and every other line gets the latest stored value of its key, as it would without the edit.
   */
  lemma {:induction false} EditChangesOne(s: string, i: nat, value: string) returns (out: seq<string>)
    requires var lines := NonBlank(SplitLines(s)); i < |lines| && '=' in lines[i]
    requires BreakFree(value) && value != MASKED_VALUE
    ensures var lines := NonBlank(SplitLines(s));
            && Merge(Some(Join(EditedLines(lines, i, value))), Some(s)) == Merged(Some(Join(out)))
            && |out| == |lines| && out[i] == KeyOf(lines[i]) + "=" + value
            && forall k | 0 <= k < |lines| && k != i :: LeftAlone(lines[k], out[k], lines)
  {
    hide SplitLines, NonBlank, Join, Blank, BreakFree, KeepsStored, Known, Became, LeftAlone, MaskLine, Merge;
    var lines, stored := NonBlank(SplitLines(s)), SplitLines(s);
    var edited := EditedLines(lines, i, value);
    forall k | 0 <= k < |lines| ensures BreakFree(edited[k]) && !Blank(edited[k]) {
      assert lines[k] in lines;
      EditedLineHolds(lines[k], value);
    }
    NonBlankOfJoin(edited);
    NonBlankAll(edited);
    out := MergeMeans(Some(Join(edited)), Some(s));
    forall k | 0 <= k < |lines| ensures Known(edited[k], stored) {
      assert lines[k] in lines && lines[k] in stored;
      EditedLineKnown(lines[k], value, stored);
    }
    assert lines[i] in lines && lines[i] in stored;
    EditedLineKnown(lines[i], value, stored);
    assert Became(edited[i], out[i], stored);
    EditStays(edited[i], out[i], stored);
    forall k | 0 <= k < |lines| && k != i ensures LeftAlone(lines[k], out[k], lines)
    {
      assert lines[k] in lines && lines[k] in stored && Became(edited[k], out[k], stored);
      BecameOfHeld(stored, edited[k], out[k]);
      ShownComesBack(lines, lines[k], out[k]);
    }
  }

  lemma {:induction false} EditStays(line: string, out: string, stored: seq<string>)
    requires Became(line, out, stored) && !KeepsStored(line)
    ensures out == line
  {
  }

  lemma {:induction false} EditedLineHolds(line: string, value: string)
    requires BreakFree(line) && !Blank(line) && BreakFree(value)
    ensures BreakFree(MaskLine(line)) && !Blank(MaskLine(line))
    ensures '=' in line ==> BreakFree(KeyOf(line) + "=" + value) && !Blank(KeyOf(line) + "=" + value)
  {
    MaskLineFacts(line);
    if '=' in line {
      PartsPair(line);
      PairParts(KeyOf(line), value);
      EqualsIsPlain(KeyOf(line) + "=" + value);
    }
  }

  lemma {:induction false} EditedLineKnown(line: string, value: string, stored: seq<string>)
    requires BreakFree(line) && !Blank(line) && value != MASKED_VALUE && line in stored
    ensures Known(MaskLine(line), stored)
    ensures '=' in line ==> !KeepsStored(KeyOf(line) + "=" + value) && Known(KeyOf(line) + "=" + value, stored)
  {
    MaskLineFacts(line);
    MaskedIsPlain();
    if '=' in line {
      PartsPair(line);
      PairParts(KeyOf(line), value);
    }
  }

  /** Blank lines set no key, so what is stored is what the lines that hold something store. */
  lemma {:induction false} BecameOfHeld(stored: seq<string>, line: string, out: string)
    requires Became(line, out, stored)
    ensures Became(line, out, NonBlank(stored))
  {
    if KeepsStored(line) {
      var j: nat :| j < |stored| && LastSets(stored, j, KeyOf(line)) && out == KeyOf(line) + "=" + ValueOf(stored[j]);
      var k := LastOfHeld(stored, j, KeyOf(line));
    }
  }

  lemma {:induction false} LastOfHeld(stored: seq<string>, j: nat, key: string) returns (k: nat)
    requires LastSets(stored, j, key)
    ensures LastSets(NonBlank(stored), k, key) && NonBlank(stored)[k] == stored[j]
  {
    hide NonBlank, Blank, KeyOf;
    EqualsIsPlain(stored[j]);
    assert stored == stored[..j] + ([stored[j]] + stored[j + 1..]);
    NonBlankConcat(stored[..j], [stored[j]] + stored[j + 1..]);
    NonBlankConcat([stored[j]], stored[j + 1..]);
    NonBlankOne(stored[j]);
    k := |NonBlank(stored[..j])|;
    var rest := NonBlank(stored[j + 1..]);
    assert forall i | 0 <= i < |rest| :: rest[i] in rest && rest[i] in stored[j + 1..];
  }
}
