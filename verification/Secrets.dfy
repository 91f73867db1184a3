/** Masking secure variables, and putting kept secrets back when a masked text is submitted again. */
module Secrets {
  import opened Options
  import opened Lines

  const MASKED_VALUE := "[MASKED]"

  datatype MergeResult = Merged(text: Option<string>) | UnknownKey(key: string)

  function IndexOf(s: string, c: char): (n: nat)
    ensures n <= |s| && (n < |s| <==> c in s) && (n < |s| ==> s[n] == c)
    ensures forall i | 0 <= i < n :: s[i] != c
  {
    if s == "" || s[0] == c then 0 else 1 + IndexOf(s[1..], c)
  }

  /** The parts of a `KEY=value` line around its first equals sign. */
  function KeyOf(line: string): string
    requires '=' in line
  {
    line[..IndexOf(line, '=')]
  }

  function ValueOf(line: string): string
    requires '=' in line
  {
    line[IndexOf(line, '=') + 1..]
  }

  function Pair(key: string, value: string): string {
    key + "=" + value
  }

  lemma {:induction false} PairParts(key: string, value: string)
    requires '=' !in key
    ensures '=' in Pair(key, value) && KeyOf(Pair(key, value)) == key && ValueOf(Pair(key, value)) == value
  {
    var line := Pair(key, value);
    assert line[|key|] == '=';
    assert forall i | 0 <= i < |key| :: line[i] == key[i] && key[i] in key;
    assert IndexOf(line, '=') == |key|;
  }

  lemma {:induction false} PartsPair(line: string)
    requires '=' in line
    ensures line == Pair(KeyOf(line), ValueOf(line)) && '=' !in KeyOf(line)
    ensures BreakFree(line) ==> BreakFree(KeyOf(line)) && BreakFree(ValueOf(line))
  {
  }

  // ---------- masking

  function MaskLine(line: string): string {
    if Blank(line) then line
    else if '=' in line then Pair(KeyOf(line), MASKED_VALUE)
    else MASKED_VALUE
  }

  function MaskLines(lines: seq<string>): seq<string> {
    seq(|lines|, i requires 0 <= i < |lines| => MaskLine(lines[i]))
  }

  function Mask(value: Option<string>): Option<string> {
    match value
    case None => None
    case Some(text) => if text == "" then Some("") else Some(Join(MaskLines(SplitLines(text))))
  }

  // ---------- merging

  /** The stored value of every key, the last line of a key deciding. */
  function Stored(lines: seq<string>): map<string, string> {
    if lines == [] then map[]
    else
      var line := lines[|lines| - 1];
      var rest := Stored(lines[..|lines| - 1]);
      if '=' in line then rest[KeyOf(line) := ValueOf(line)] else rest
  }

  /** What a submitted line stands for; a masked value of a key that is not stored stands for nothing. */
  function MergeLine(line: string, stored: map<string, string>): Option<string> {
    if '=' !in line then Some(line)
    else if ValueOf(line) != MASKED_VALUE then Some(line)
    else if KeyOf(line) in stored then Some(Pair(KeyOf(line), stored[KeyOf(line)]))
    else None
  }

  predicate Mergeable(lines: seq<string>, stored: map<string, string>) {
    forall i | 0 <= i < |lines| :: MergeLine(lines[i], stored).Some?
  }

  function MergeLines(lines: seq<string>, stored: map<string, string>): (r: seq<string>)
    requires Mergeable(lines, stored)
    ensures |r| == |lines|
  {
    seq(|lines|, i requires 0 <= i < |lines| => MergeLine(lines[i], stored).value)
  }

  function FirstUnknown(lines: seq<string>, stored: map<string, string>): string
    requires !Mergeable(lines, stored)
  {
    if MergeLine(lines[0], stored).None? then KeyOf(lines[0])
    else assert !Mergeable(lines[1..], stored); FirstUnknown(lines[1..], stored)
  }

  function TextOf(value: Option<string>): string {
    value.GetOr("")
  }

  function Merge(submitted: Option<string>, existing: Option<string>): MergeResult {
    var lines := NonBlank(SplitLines(TextOf(submitted)));
    var stored := Stored(SplitLines(TextOf(existing)));
    if lines == [] then Merged(None)
    else if Mergeable(lines, stored) then Merged(Some(Join(MergeLines(lines, stored))))
    else UnknownKey(FirstUnknown(lines, stored))
  }

  // ---------- the loops that mask and merge

  method MaskSecureVars(value: Option<string>) returns (masked: Option<string>)
    ensures masked == Mask(value)
  {
    if value.None? || value.value == "" {
      return value;
    }
    var lines := SplitLines(value.value);
    var maskedLines: seq<string> := [];
    for i := 0 to |lines|
      invariant maskedLines == MaskLines(lines)[..i]
    {
      var line := lines[i];
      if Blank(line) {
        maskedLines := maskedLines + [line];
      } else if '=' in line {
        maskedLines := maskedLines + [line[..IndexOf(line, '=')] + "=" + MASKED_VALUE];
      } else {
        maskedLines := maskedLines + [MASKED_VALUE];
      }
    }
    assert maskedLines == MaskLines(lines);
    masked := Some(Join(maskedLines));
  }

  method MergeMaskedSecure(submitted: Option<string>, existingReal: Option<string>) returns (r: MergeResult)
    ensures r == Merge(submitted, existingReal)
  {
    BlankText(TextOf(submitted));
    NothingToMerge();
    hide Blank, IndexOf, SplitLines, NonBlank, Join, KeyOf, ValueOf, Pair, FirstUnknown, Stored, MergeLines, Mergeable;
    if Blank(TextOf(submitted)) {
      return Merged(None);
    }
    var existingLines := SplitLines(TextOf(existingReal));
    var existing: map<string, string> := map[];
    for i := 0 to |existingLines|
      invariant existing == Stored(existingLines[..i])
    {
      StoredNext(existingLines, i);
      if '=' in existingLines[i] {
        existing := existing[KeyOf(existingLines[i]) := ValueOf(existingLines[i])];
      }
    }
    assert existingLines[..|existingLines|] == existingLines;
    var lines := SplitLines(TextOf(submitted));
    var mergedLines: seq<string> := [];
    for i := 0 to |lines|
      invariant Mergeable(NonBlank(lines[..i]), existing)
      invariant mergedLines == MergeLines(NonBlank(lines[..i]), existing)
    {
      var line := lines[i];
      NextNonBlank(lines, i);
      if MergeLine(line, existing).Some? { MergeNext(NonBlank(lines[..i]), line, existing); }
      if Blank(line) {
        continue;
      }
      if '=' !in line {
        mergedLines := mergedLines + [line];
        continue;
      }
      var key, v := KeyOf(line), ValueOf(line);
      if v != MASKED_VALUE {
        PartsPair(line);
        mergedLines := mergedLines + [Pair(key, v)];
        continue;
      }
      if key !in existing {
        UnknownAt(lines, i, existing);
        return UnknownKey(key);
      }
      mergedLines := mergedLines + [Pair(key, existing[key])];
    }
    assert lines[..|lines|] == lines;
    r := Merged(if |mergedLines| > 0 then Some(Join(mergedLines)) else None);
  }

  lemma {:induction false} NothingToMerge()
    ensures Stored([]) == map[] && NonBlank([]) == []
    ensures forall stored :: Mergeable([], stored) && MergeLines([], stored) == []
  {
  }

  lemma {:induction false} StoredNext(lines: seq<string>, i: nat)
    requires i < |lines|
    ensures Stored(lines[..i + 1]) ==
            if '=' in lines[i] then Stored(lines[..i])[KeyOf(lines[i]) := ValueOf(lines[i])] else Stored(lines[..i])
  {
    assert lines[..i + 1][..i] == lines[..i];
  }

  lemma {:induction false} MergeNext(lines: seq<string>, line: string, stored: map<string, string>)
    requires Mergeable(lines, stored) && MergeLine(line, stored).Some?
    ensures Mergeable(lines + [line], stored)
    ensures MergeLines(lines + [line], stored) == MergeLines(lines, stored) + [MergeLine(line, stored).value]
  {
  }

  lemma {:induction false} NextNonBlank(lines: seq<string>, i: nat)
    requires i < |lines|
    ensures NonBlank(lines[..i + 1]) ==
            if Blank(lines[i]) then NonBlank(lines[..i]) else NonBlank(lines[..i]) + [lines[i]]
  {
    assert lines[..i + 1] == lines[..i] + [lines[i]];
    NonBlankConcat(lines[..i], [lines[i]]);
    NonBlankOne(lines[i]);
  }

  /** The first line that cannot be merged names the key the error reports. */
  lemma {:induction false} UnknownAt(lines: seq<string>, i: nat, stored: map<string, string>)
    requires i < |lines| && !Blank(lines[i]) && MergeLine(lines[i], stored).None?
    requires Mergeable(NonBlank(lines[..i]), stored)
    ensures !Mergeable(NonBlank(lines), stored) && FirstUnknown(NonBlank(lines), stored) == KeyOf(lines[i])
  {
    var before, rest := NonBlank(lines[..i]), NonBlank(lines[i + 1..]);
    assert lines == lines[..i] + ([lines[i]] + lines[i + 1..]);
    NonBlankConcat(lines[..i], [lines[i]] + lines[i + 1..]);
    NonBlankConcat([lines[i]], lines[i + 1..]);
    NonBlankOne(lines[i]);
    FirstUnknownAfter(before, lines[i], rest, stored);
  }

  lemma {:induction false} FirstUnknownAfter(
    before: seq<string>, line: string, rest: seq<string>, stored: map<string, string>)
    requires Mergeable(before, stored) && MergeLine(line, stored).None?
    ensures var all := before + ([line] + rest);
            !Mergeable(all, stored) && FirstUnknown(all, stored) == KeyOf(line)
  {
    var all := before + ([line] + rest);
    assert all[|before|] == line;
    if before != [] {
      assert all[0] == before[0] && all[1..] == before[1..] + ([line] + rest);
      FirstUnknownAfter(before[1..], line, rest, stored);
    }
  }
}
