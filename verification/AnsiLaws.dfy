/** What a reader of a log sees of the control sequences in it. */
module AnsiLaws {
  import opened Ansi
  import opened Options
  import Text

  // ---------- numbers and parameters

  /** The value of the digits of a number is the number. */
  lemma {:induction false} NumberOfDecimal(n: nat)
    ensures Number(Text.Decimal(n)) == n
    decreases n
  {
    var s := Text.Decimal(n);
    if n < 10 {
      DigitValue(n);
      assert s[..0] == "";
    } else {
      NumberOfDecimal(n / 10);
      DigitValue(n % 10);
      assert s[..|s| - 1] == Text.Decimal(n / 10);
    }
  }

  lemma {:induction false} DigitValue(d: nat)
    requires d < 10
    ensures var c := "0123456789"[d]; '0' <= c <= '9' && c as nat - '0' as nat == d
  {
  }

  /** The parameter text of some codes. */
  function Codes(ns: seq<nat>): string
    requires ns != []
  {
    if |ns| == 1 then Text.Decimal(ns[0]) else Text.Decimal(ns[0]) + ";" + Codes(ns[1..])
  }

  lemma {:induction false} CodesAreParameters(ns: seq<nat>)
    requires ns != []
    ensures Codes(ns) != "" && forall c | c in Codes(ns) :: IsParameter(c)
  {
    if |ns| > 1 { CodesAreParameters(ns[1..]); }
  }

  lemma {:induction false} CodesSplit(ns: seq<nat>)
    requires ns != []
    ensures Text.Split(Codes(ns), ';') == seq(|ns|, i requires 0 <= i < |ns| => Text.Decimal(ns[i]))
  {
    if |ns| == 1 {
      Text.SplitNone(Text.Decimal(ns[0]), ';');
    } else {
      CodesSplit(ns[1..]);
      Text.SplitFirst(Text.Decimal(ns[0]), ';', Codes(ns[1..]));
    }
  }

  /** Codes written in decimal are read as they are. */
  lemma {:induction false} CodesAreRead(ns: seq<nat>)
    requires ns != []
    ensures Parameters(Codes(ns)) == ns
  {
    hide Number, Codes;
    CodesAreParameters(ns);
    CodesSplit(ns);
    forall i | 0 <= i < |ns| ensures Number(Text.Decimal(ns[i])) == ns[i] { NumberOfDecimal(ns[i]); }
  }

  // ---------- one sequence in front of a text

  lemma {:induction false} ParametersEndLater(a: string, rest: string, i: nat)
    requires i <= |rest|
    ensures ParametersEnd(a + rest, |a| + i) == |a| + ParametersEnd(rest, i)
    decreases |rest| - i
  {
    if i < |rest| && IsParameter(rest[i]) { ParametersEndLater(a, rest, i + 1); }
  }

  lemma {:induction false} SequenceLater(a: string, rest: string, i: nat)
    requires i < |rest|
    ensures SequenceAt(a + rest, |a| + i) == SequenceAt(rest, i)
  {
    var all := a + rest;
    assert all[|a| + i] == rest[i];
    if i + 1 < |rest| {
      assert all[|a| + i + 1] == rest[i + 1];
      if rest[i + 1] == '[' {
        ParametersEndLater(a, rest, i + 2);
        var j := ParametersEnd(rest, i + 2);
        assert all[|a| + i + 2..|a| + j] == rest[i + 2..j];
      }
    }
  }

  /** What stands before a position does not matter to what is shown from there on. */
  lemma {:induction false} ShownLater(a: string, rest: string, i: nat, color: Option<Color>)
    requires i <= |rest|
    ensures Shown(a + rest, |a| + i, color) == Shown(rest, i, color)
    decreases |rest| - i
  {
    hide SequenceAt, ColorAfter;
    if i < |rest| {
      SequenceLater(a, rest, i);
      assert (a + rest)[|a| + i] == rest[i];
      match SequenceAt(rest, i)
      case None => ShownLater(a, rest, i + 1, color);
      case Some(s) => ShownLater(a, rest, i + s.length, ColorAfter(s, color));
    }
  }

  function Control(raw: string, letter: char): string {
    [ESC] + "[" + raw + [letter]
  }

  lemma {:induction false} ParametersEndAt(text: string, i: nat, j: nat)
    requires i <= j < |text| && !IsParameter(text[j]) && forall k | i <= k < j :: IsParameter(text[k])
    ensures ParametersEnd(text, i) == j
    decreases j - i
  {
    if i < j { ParametersEndAt(text, i + 1, j); }
  }

  lemma {:induction false} ControlIsRead(raw: string, letter: char, rest: string)
    requires IsLetter(letter) && forall c | c in raw :: IsParameter(c)
    ensures var s := Control(raw, letter);
            SequenceAt(s + rest, 0) == Some(if letter == 'm' then Rendition(raw, |s|) else Ignored(|s|))
  {
    var text, j := Control(raw, letter) + rest, 2 + |raw|;
    assert text[0] == ESC && text[1] == '[' && text[j] == letter;
    assert forall k | 2 <= k < j :: text[k] == raw[k - 2] && raw[k - 2] in raw;
    ParametersEndAt(text, 2, j);
    assert text[2..j] == raw;
  }

  lemma {:induction false} ControlShows(raw: string, letter: char, rest: string, color: Option<Color>)
    requires IsLetter(letter) && forall c | c in raw :: IsParameter(c)
    ensures Shown(Control(raw, letter) + rest, 0, color) ==
            Shown(rest, 0, if letter == 'm' then Rendered(Parameters(raw), color) else color)
  {
    hide SequenceAt, Parameters, Rendered, Control;
    ControlIsRead(raw, letter, rest);
    var s := Control(raw, letter);
    ShownLater(s, rest, 0, if letter == 'm' then Rendered(Parameters(raw), color) else color);
    assert |s| > 0 by { ControlIsLong(raw, letter); }
  }

  lemma {:induction false} ControlIsLong(raw: string, letter: char)
    ensures |Control(raw, letter)| > 0
  {
  }

  // ---------- what is seen

  /** `ESC[38;5;n m` puts all that follows in the colour of that number, in none if there is no such colour. */
  lemma {:induction false} ColourSets(n: nat, rest: string, color: Option<Color>)
    ensures Shown([ESC] + "[38;5;" + Text.Decimal(n) + "m" + rest, 0, color) == Shown(rest, 0, Xterm256(n))
  {
    hide Shown, Parameters, Text.Decimal, Xterm256;
    var ns := [38, 5, n];
    CodesAreRead(ns);
    CodesAreParameters(ns);
    ControlShows(Codes(ns), 'm', rest, color);
    ThreeCodes(n);
    assert [ESC] + "[38;5;" + Text.Decimal(n) + "m" + rest == Control(Codes(ns), 'm') + rest;
    RenderedColour(n, color);
  }

  lemma {:induction false} ThreeCodes(n: nat)
    ensures Codes([38, 5, n]) == "38;5;" + Text.Decimal(n)
  {
    assert [38, 5, n][1..] == [5, n] && [5, n][1..] == [n];
    assert Text.Decimal(38) == "38" && Text.Decimal(5) == "5";
    assert Codes([n]) == Text.Decimal(n) && Codes([5, n]) == "5" + ";" + Codes([n]);
    assert Codes([38, 5, n]) == "38" + ";" + Codes([5, n]);
    assert "38" + ";" + ("5" + ";" + Text.Decimal(n)) == "38;5;" + Text.Decimal(n);
  }

  lemma {:induction false} RenderedColour(n: nat, color: Option<Color>)
    ensures Rendered([38, 5, n], color) == Xterm256(n)
  {
    var ns := [38, 5, n];
    assert Extended(ns, 0) && Commands(ns, 3) == [];
    assert Commands(ns, 0) == [Set(Xterm256(n))];
    ObeyedOne(Set(Xterm256(n)), color);
  }

  /** `ESC[m`, `ESC[0m` and `ESC[39m` end the colour; any other single code leaves it. */
  lemma {:induction false} SingleCode(n: nat, rest: string, color: Option<Color>)
    ensures Shown([ESC] + "[m" + rest, 0, color) == Shown(rest, 0, None)
    ensures Shown([ESC] + "[" + Text.Decimal(n) + "m" + rest, 0, color) ==
            Shown(rest, 0, if n == 0 || n == 39 then None else color)
  {
    hide Shown, Text.Decimal;
    CodesAreRead([n]);
    CodesAreParameters([n]);
    ControlShows("", 'm', rest, color);
    ControlShows(Codes([n]), 'm', rest, color);
    assert [ESC] + "[m" + rest == Control("", 'm') + rest;
    assert [ESC] + "[" + Text.Decimal(n) + "m" + rest == Control(Codes([n]), 'm') + rest;
    RenderedSingle(0, color);
    RenderedSingle(n, color);
  }

  lemma {:induction false} RenderedSingle(n: nat, color: Option<Color>)
    ensures Rendered([n], color) == if n == 0 || n == 39 then None else color
  {
    var command := CommandAt([n], 0);
    assert Commands([n], 1) == [] && Commands([n], 0) == [command];
    ObeyedOne(command, color);
  }

  lemma {:induction false} ObeyedOne(command: Command, color: Option<Color>)
    ensures Obeyed([command], color) == if command.Set? then command.color else color
  {
    assert [command][..0] == [];
  }

  // ---------- several codes in one sequence

  lemma {:induction false} CommandsLater(ns: seq<nat>, ms: seq<nat>, i: nat)
    requires i <= |ms|
    ensures Commands(ns + ms, |ns| + i) == Commands(ms, i)
    decreases |ms| - i
  {
    if i < |ms| {
      var all := ns + ms;
      assert forall k | i <= k < |ms| :: all[|ns| + k] == ms[k];
      assert Extended(all, |ns| + i) == Extended(ms, i);
      CommandsLater(ns, ms, if Extended(ms, i) then i + 3 else i + 1);
    }
  }

  /** One code that stands for itself, or the three that set a colour. */
  predicate Unit(ns: seq<nat>, ms: seq<nat>) {
    || (|ns| == 1 && !(ns[0] == 38 && |ms| > 1 && ms[0] == 5))
    || (|ns| == 3 && ns[0] == 38 && ns[1] == 5)
  }

  lemma {:induction false} RenderedInTurn(ns: seq<nat>, ms: seq<nat>, color: Option<Color>)
    requires Unit(ns, ms) && ms != []
    ensures Rendered(ns + ms, color) == Rendered(ms, Rendered(ns, color))
  {
    var all, command := ns + ms, CommandAt(ns, 0);
    assert forall k | 0 <= k < |ns| :: all[k] == ns[k];
    assert forall k | 0 <= k < |ms| :: all[|ns| + k] == ms[k];
    CommandsLater(ns, ms, 0);
    assert Commands(all, 0) == [command] + Commands(ms, 0);
    assert Commands(ns, 0) == [command] + [];
    ObeyedOne(command, color);
    ObeyedNext(command, Commands(ms, 0), color);
  }

  /** Codes in one sequence do what they would do one after the other, in sequences of their own. */
  lemma {:induction false} CodesInTurn(ns: seq<nat>, ms: seq<nat>, rest: string, color: Option<Color>)
    requires Unit(ns, ms) && ms != []
    ensures Shown([ESC] + "[" + Codes(ns + ms) + "m" + rest, 0, color) ==
            Shown([ESC] + "[" + Codes(ns) + "m" + ([ESC] + "[" + Codes(ms) + "m" + rest), 0, color)
  {
    hide Shown, Rendered, Codes, Parameters;
    RenderedInTurn(ns, ms, color);
    var later := [ESC] + "[" + Codes(ms) + "m" + rest;
    CodesShow(ns + ms, rest, color);
    CodesShow(ns, later, color);
    CodesShow(ms, rest, Rendered(ns, color));
  }

  lemma {:induction false} CodesShow(ns: seq<nat>, rest: string, color: Option<Color>)
    requires ns != []
    ensures Shown([ESC] + "[" + Codes(ns) + "m" + rest, 0, color) == Shown(rest, 0, Rendered(ns, color))
  {
    hide Shown, Rendered, Codes, Parameters;
    CodesAreRead(ns);
    CodesAreParameters(ns);
    ControlShows(Codes(ns), 'm', rest, color);
    assert [ESC] + "[" + Codes(ns) + "m" + rest == Control(Codes(ns), 'm') + rest;
  }

  // ---------- other escapes

  /** An escape swallows the character after it, but not one that ends the line; at the end of a text it is shown. */
  lemma {:induction false} OtherEscape(c: char, rest: string, color: Option<Color>)
    requires c != '['
    ensures Shown([ESC] + [c] + rest, 0, color) ==
            if c in {'\n', '\r', '\U{2028}', '\U{2029}'} then [Cell(ESC, color)] + Shown([c] + rest, 0, color)
            else Shown(rest, 0, color)
    ensures Shown([ESC], 0, color) == [Cell(ESC, color)]
  {
    hide ColorAfter;
    var text := [ESC] + [c] + rest;
    assert text[0] == ESC && text[1] == c && text == [ESC] + ([c] + rest);
    ShownLater([ESC], [c] + rest, 0, color);
    ShownLater([ESC] + [c], rest, 0, color);
    assert ColorAfter(Ignored(2), color) == color by { IgnoredKeeps(color); }
  }

  lemma {:induction false} IgnoredKeeps(color: Option<Color>)
    ensures ColorAfter(Ignored(2), color) == color
  {
  }

  /** A sequence without its letter loses only its `ESC [`: the parameters are shown as text. */
  lemma {:induction false} BrokenSequence(raw: string, tail: string, color: Option<Color>)
    requires (forall c | c in raw :: IsParameter(c)) && (tail == "" || !(IsParameter(tail[0]) || IsLetter(tail[0])))
    ensures Shown([ESC] + "[" + raw + tail, 0, color) == Shown(raw + tail, 0, color)
  {
    hide ColorAfter;
    var text, j := [ESC] + "[" + raw + tail, 2 + |raw|;
    assert text[0] == ESC && text[1] == '[' && text == [ESC] + "[" + (raw + tail);
    assert forall k | 2 <= k < j :: text[k] == raw[k - 2] && raw[k - 2] in raw;
    if tail == "" {
      var n := ParametersEnd(text, 2);
      assert n == |text|;
    } else {
      assert text[j] == tail[0];
      ParametersEndAt(text, 2, j);
    }
    ShownLater([ESC] + "[", raw + tail, 0, color);
    IgnoredKeeps(color);
  }

  /** A sequence that ends in another letter than `m` shows nothing and changes nothing. */
  lemma {:induction false} OtherLetter(raw: string, letter: char, rest: string, color: Option<Color>)
    requires IsLetter(letter) && letter != 'm' && forall c | c in raw :: '0' <= c <= '9' || c == ';'
    ensures Shown([ESC] + "[" + raw + [letter] + rest, 0, color) == Shown(rest, 0, color)
  {
    hide Shown;
    ControlShows(raw, letter, rest, color);
  }

  /** Text without control sequences is shown as it is, in the colour in force. */
  lemma {:induction false} PlainIsShown(text: string, i: nat, color: Option<Color>)
    requires ESC !in text && i <= |text|
    ensures Shown(text, i, color) == seq(|text| - i, k requires 0 <= k < |text| - i => Cell(text[i + k], color))
    decreases |text| - i
  {
    if i < |text| {
      assert text[i] in text;
      hide ColorAfter;
      PlainIsShown(text, i + 1, color);
      assert SequenceAt(text, i) == None;
      hide SequenceAt;
      assert Shown(text, i, color) == [Cell(text[i], color)] + Shown(text, i + 1, color);
    }
  }

  /** The sixteen named colours aside, the palette is a cube of six levels and a ramp of two dozen greys. */
  lemma {:induction false} Levels()
    ensures Level(0) == 0 && Level(1) == 95 && Level(2) == 135 && Level(3) == 175 && Level(4) == 215 && Level(5) == 255
    ensures forall k: nat | k < 24 :: Xterm256(232 + k) == Some(Rgb(8 + 10 * k, 8 + 10 * k, 8 + 10 * k))
  {
  }

  /** A red word in a log: the number is read in decimal, and 196 is the red corner of the cube. */
  lemma {:induction false} RedWord()
    ensures var red := Some("rgb(255,0,0)");
            Shown([ESC] + "[38;5;196m" + "error" + ([ESC] + "[0m" + "!"), 0, None) ==
            [Cell('e', red), Cell('r', red), Cell('r', red), Cell('o', red), Cell('r', red), Cell('!', None)]
  {
    hide Shown, Xterm256, Rgb, Text.Decimal;
    var red, tail := Some("rgb(255,0,0)"), [ESC] + "[0m" + "!";
    Palette(5, 0, 0);
    Numerals();
    ColourSets(196, "error" + tail, None);
    assert [ESC] + "[38;5;" + "196" + "m" + ("error" + tail) == [ESC] + "[38;5;196m" + "error" + tail;
    WordThen("error", tail, red);
    SingleCode(0, "!", red);
    assert [ESC] + "[" + "0" + "m" + "!" == tail;
    PlainIsShown("!", 0, None);
  }

  lemma {:induction false} Numerals()
    ensures Text.Decimal(196) == "196" && Text.Decimal(255) == "255" && Text.Decimal(0) == "0"
    ensures Rgb(Level(5), Level(0), Level(0)) == "rgb(255,0,0)"
  {
    assert Text.Decimal(19) == "19" && Text.Decimal(25) == "25";
  }

  lemma {:induction false} WordThen(word: string, rest: string, color: Option<Color>)
    requires ESC !in word
    ensures Shown(word + rest, 0, color) ==
            seq(|word|, k requires 0 <= k < |word| => Cell(word[k], color)) + Shown(rest, 0, color)
    decreases |word|
  {
    if word == "" {
      assert word + rest == rest;
    } else {
      assert word[0] in word;
      var tail := word[1..];
      assert word + rest == [word[0]] + (tail + rest);
      ShownLater([word[0]], tail + rest, 0, color);
      WordThen(tail, rest, color);
    }
  }
}
