/** What the form of the user interface keeps of key-value pairs that are written out and read again. */
module FormPairs {
  import opened Lines
  import opened Options
  import opened SecretLaws
  import opened Secrets

  /** A pair the form reads as it wrote it. */
  predicate GoodPair(p: KeyValue) {
    && GoodKey(p.key) && '=' !in p.key && SeparatorFree(p.key) && SeparatorFree(p.value)
    && (p.value != "" ==> !IsJsSpace(p.value[|p.value| - 1]))
  }

  function Written(p: KeyValue): string {
    p.key + "=" + p.value
  }

  function AllWritten(pairs: seq<KeyValue>): seq<string> {
    seq(|pairs|, i requires 0 <= i < |pairs| => Written(pairs[i]))
  }

  // ---------- good pairs come back

  lemma {:induction false} WrittenIsTight(p: KeyValue)
    requires GoodPair(p)
    ensures var line := Written(p);
            && line != "" && !IsJsSpace(line[0]) && !IsJsSpace(line[|line| - 1]) && line[0] != '#'
            && SeparatorFree(line) && '=' in line && KeyOf(line) == p.key && ValueOf(line) == p.value
  {
    var line := Written(p);
    PairParts(p.key, p.value);
    assert line[0] == p.key[0];
    assert line[|line| - 1] == if p.value == "" then '=' else p.value[|p.value| - 1];
  }

  lemma {:induction false} WrittenIsRead(p: KeyValue)
    requires GoodPair(p)
    ensures Strip(Written(p), IsJsSpace) == Written(p) && PairOf(Written(p)) == [p] && PairLine(p) == [Written(p)]
  {
    hide Strip, IsJsSpace, KeyOf, ValueOf;
    WrittenIsTight(p);
    StripKeepsTight(Written(p), IsJsSpace);
    StripKeepsTight(p.key, IsJsSpace);
  }

  lemma {:induction false} AllWrittenAreRead(pairs: seq<KeyValue>)
    requires forall p | p in pairs :: GoodPair(p)
    ensures PairLines(pairs) == AllWritten(pairs)
    ensures Entries(AllWritten(pairs)) == AllWritten(pairs) && PairsOf(AllWritten(pairs)) == pairs
  {
    if pairs != [] {
      hide GoodPair, Written, PairOf, PairLine, Strip, PairLines, Entries, PairsOf, AllWritten;
      var n, lines := |pairs| - 1, AllWritten(pairs);
      assert pairs[n] in pairs && forall p | p in pairs[..n] :: p in pairs;
      AllWrittenAreRead(pairs[..n]);
      LastWritten(pairs);
      LastRead(pairs, lines, Written(pairs[n])) by {
        WrittenIsRead(pairs[n]);
        NotEmpty(pairs[n]);
      }
    }
  }

  lemma {:induction false} LastWritten(pairs: seq<KeyValue>)
    requires pairs != []
    ensures var n, lines := |pairs| - 1, AllWritten(pairs);
            && |lines| == n + 1 && lines[n] == Written(pairs[n]) && lines[..n] == AllWritten(pairs[..n])
            && lines == lines[..n] + [lines[n]]
  {
    hide Written;
  }

  lemma {:induction false} LastRead(pairs: seq<KeyValue>, lines: seq<string>, last: string)
    requires |lines| == |pairs| > 0 && last == lines[|pairs| - 1] && last != ""
    requires var p := pairs[|pairs| - 1];
             Strip(last, IsJsSpace) == last && PairOf(last) == [p] && PairLine(p) == [last]
    requires var n := |pairs| - 1;
             PairLines(pairs[..n]) == Entries(lines[..n]) == lines[..n] && PairsOf(lines[..n]) == pairs[..n]
    ensures PairLines(pairs) == Entries(lines) == lines && PairsOf(lines) == pairs
  {
    hide PairLine, PairOf, Strip;
    var n := |pairs| - 1;
    assert lines == lines[..n] + [last] && pairs == pairs[..n] + [pairs[n]];
  }

  lemma {:induction false} NotEmpty(p: KeyValue)
    requires GoodPair(p)
    ensures Written(p) != ""
  {
  }

  lemma {:induction false} GoodPairsComeBack(pairs: seq<KeyValue>)
    requires forall p | p in pairs :: GoodPair(p)
    ensures ParseKvPairs(KvPairsToText(pairs)) == pairs
  {
    hide GoodPair, Written, PairOf, PairLine, Strip, Pieces, Entries, Join, PairLines, PairsOf;
    AllWrittenAreRead(pairs);
    var lines := AllWritten(pairs);
    if pairs != [] {
      forall line | line in lines ensures SeparatorFree(line) {
        var i :| 0 <= i < |lines| && lines[i] == line;
        assert pairs[i] in pairs;
        WrittenIsTight(pairs[i]);
      }
      PiecesOfJoin(lines);
      assert pairs[0] in pairs;
      WrittenIsTight(pairs[0]);
      JoinBegins(lines);
    }
  }

  lemma {:induction false} JoinBegins(lines: seq<string>)
    requires lines != [] && lines[0] != "" && !IsJsSpace(lines[0][0])
    ensures Strip(Join(lines), IsJsSpace) != ""
  {
    hide IsJsSpace, Strip;
    var i, j := StripIsMiddle(Join(lines), IsJsSpace);
    assert Join(lines)[0] == lines[0][0];
  }

  // ---------- only good pairs are read

  lemma {:induction false} TrimIsTight(s: string)
    ensures var t := Strip(s, IsJsSpace);
            && (t != "" ==> !IsJsSpace(t[0]) && !IsJsSpace(t[|t| - 1])) && (forall c | c in t :: c in s)
            && (s != "" && !IsJsSpace(s[0]) ==> t != "" && t[0] == s[0])
  {
    hide IsJsSpace, Strip;
    var i, j := StripIsMiddle(s, IsJsSpace);
  }

  lemma {:induction false} ReadPairIsGood(piece: string, p: KeyValue)
    requires SeparatorFree(piece) && PairOf(Strip(piece, IsJsSpace)) == [p]
    ensures GoodPair(p)
  {
    hide IsJsSpace, Strip, KeyOf, ValueOf;
    var line := Strip(piece, IsJsSpace);
    TrimIsTight(piece);
    PartsPair(line);
    var key, value := KeyOf(line), ValueOf(line);
    TrimIsTight(key);
    assert key != "" ==> key[0] == line[0];
    assert value != "" ==> value[|value| - 1] == line[|line| - 1];
    assert (forall c | c in key :: c in line) && (forall c | c in value :: c in line);
    assert p == PairOf(line)[0] && p.key == Strip(key, IsJsSpace) && p.value == value;
    assert key != "" ==> p.key[0] == key[0];
    assert p.key != "" && p.key[0] in p.key;
    assert forall c | c in p.key :: c in key && c in piece;
  }

  lemma {:induction false} ReadPairsAreGood(pieces: seq<string>)
    requires forall piece | piece in pieces :: SeparatorFree(piece)
    ensures forall p | p in PairsOf(Entries(pieces)) :: GoodPair(p)
  {
    hide GoodPair, SeparatorFree, PairOf, Strip;
    if pieces != [] {
      assert PairsOf([]) == [];
      var n := |pieces| - 1;
      ReadPairsAreGood(pieces[..n]);
      assert pieces[n] in pieces;
      var line := Strip(pieces[n], IsJsSpace);
      var before := Entries(pieces[..n]);
      assert (before + [line])[..|before|] == before && before + [] == before;
      assert PairsOf(before + [line]) == PairsOf(before) + PairOf(line);
      OnePairAtMost(line);
      if line != "" && PairOf(line) != [] {
        assert PairOf(line) == [PairOf(line)[0]];
        ReadPairIsGood(pieces[n], PairOf(line)[0]);
      }
    }
  }

  /**
   * Pairs that are written out and read again are the same exactly if each key is not empty, does not begin with a hash
   * or begin or end with white space and holds no equals sign, no value ends with white space, and neither holds a line
   * break or a semicolon.
   */
  lemma PairsComeBack(pairs: seq<KeyValue>)
    ensures ParseKvPairs(KvPairsToText(pairs)) == pairs <==> forall p | p in pairs :: GoodPair(p)
  {
    hide GoodPair, SeparatorFree, Pieces, Entries, Join, PairLines, PairsOf, Strip;
    if forall p | p in pairs :: GoodPair(p) { GoodPairsComeBack(pairs); }
    var text := KvPairsToText(pairs);
    if text.Some? {
      PiecesSeparatorFree(text.value);
      ReadPairsAreGood(Pieces(text.value));
    }
  }
}
