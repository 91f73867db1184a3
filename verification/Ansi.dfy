/** Log text with ANSI control sequences, and the HTML it is shown as. */
module Ansi {
  import opened Options
  import Text

  type Color = string

  // ---------- colours

  function Rgb(r: nat, g: nat, b: nat): Color {
    "rgb(" + Text.Decimal(r) + "," + Text.Decimal(g) + "," + Text.Decimal(b) + ")"
  }

  const BASIC: seq<(nat, nat, nat)> := [
    (0, 0, 0), (205, 0, 0), (0, 205, 0), (205, 205, 0), (0, 0, 238), (205, 0, 205), (0, 205, 205), (229, 229, 229),
    (127, 127, 127), (255, 0, 0), (0, 255, 0), (255, 255, 0), (92, 92, 255), (255, 0, 255), (0, 255, 255),
    (255, 255, 255)]

  function Level(c: nat): nat {
    if c == 0 then 0 else 55 + c * 40
  }

  /** The colour with a number, none beyond the palette of 256. */
  function Xterm256(n: nat): Option<Color> {
    if n > 255 then None
    else if n < 16 then var (r, g, b) := BASIC[n]; Some(Rgb(r, g, b))
    else if n >= 232 then var v := 8 + (n - 232) * 10; Some(Rgb(v, v, v))
    else
      var idx := n - 16;
      Some(Rgb(Level(idx / 36), Level(idx % 36 / 6), Level(idx % 6)))
  }

  /** The palette is the basic colours, a cube of six levels for each of red, green and blue, and a ramp of greys. */
  lemma {:induction false} Palette(r: nat, g: nat, b: nat)
    requires r < 6 && g < 6 && b < 6
    ensures Xterm256(16 + 36 * r + 6 * g + b) == Some(Rgb(Level(r), Level(g), Level(b)))
  {
    var idx := 36 * r + 6 * g + b;
    assert idx / 36 == r && idx % 36 == 6 * g + b;
    assert (6 * g + b) / 6 == g && idx % 6 == b;
  }

  /** What a colour must not contain to be quoted in an attribute. */
  predicate Quotable(c: Color) {
    '"' !in c
  }

  lemma {:induction false} ColorsQuotable(n: nat)
    ensures Xterm256(n).Some? ==> Quotable(Xterm256(n).value)
  {
  }

  // ---------- control sequences

  /** What a matched sequence is: a graphic rendition with its parameter text, or something without effect. */
  datatype Sequence = Rendition(raw: string, length: nat) | Ignored(length: nat)

  predicate IsParameter(c: char) {
    '0' <= c <= '9' || c == ';'
  }

  predicate IsLetter(c: char) {
    'A' <= c <= 'Z' || 'a' <= c <= 'z'
  }

  predicate EndsLine(c: char) {
    c in {'\n', '\r', '\U{2028}', '\U{2029}'}
  }

  /** Where a run of parameter characters ends. */
  function ParametersEnd(text: string, i: nat): (j: nat)
    requires i <= |text|
    ensures i <= j <= |text| && (j < |text| ==> !IsParameter(text[j]))
    ensures forall k | i <= k < j :: IsParameter(text[k])
    decreases |text| - i
  {
    if i < |text| && IsParameter(text[i]) then ParametersEnd(text, i + 1) else i
  }

  const ESC := '\U{001B}'

  /** The sequence that begins at a position: `ESC [ parameters letter`, or else `ESC` and a character of the line. */
  function SequenceAt(text: string, i: nat): (s: Option<Sequence>)
    requires i < |text|
    ensures s.Some? ==> 0 < s.value.length <= |text| - i
  {
    if text[i] != ESC || i + 1 == |text| then None
    else
      var j := if text[i + 1] == '[' then ParametersEnd(text, i + 2) else i;
      if text[i + 1] == '[' && j < |text| && IsLetter(text[j]) then
        var length := j + 1 - i;
        Some(if text[j] == 'm' then Rendition(text[i + 2..j], length) else Ignored(length))
      else if EndsLine(text[i + 1]) then None
      else Some(Ignored(2))
  }

  // ---------- parameters

  /** The value of a text of digits; nothing counts as zero. */
  function Number(s: string): nat {
    if s == "" then 0
    else Number(s[..|s| - 1]) * 10 + if '0' <= s[|s| - 1] <= '9' then s[|s| - 1] as nat - '0' as nat else 0
  }

  function Parameters(raw: string): seq<nat> {
    if raw == "" then [0]
    else
      var parts := Text.Split(raw, ';');
      seq(|parts|, i requires 0 <= i < |parts| => Number(parts[i]))
  }

  /** What one code of a rendition asks for, and how many parameters it takes. */
  datatype Command = Set(color: Option<Color>) | Skip

  function CommandAt(params: seq<nat>, i: nat): Command
    requires i < |params|
  {
    if params[i] == 0 || params[i] == 39 then Set(None)
    else if Extended(params, i) then Set(Xterm256(params[i + 2]))
    else Skip
  }

  predicate Extended(params: seq<nat>, i: nat)
    requires i < |params|
  {
    params[i] == 38 && i + 2 < |params| && params[i + 1] == 5
  }

  /** The commands of a rendition from a position on, in order. */
  function Commands(params: seq<nat>, i: nat): seq<Command>
    decreases |params| - i
  {
    if i >= |params| then []
    else [CommandAt(params, i)] + Commands(params, if Extended(params, i) then i + 3 else i + 1)
  }

  /** The colour after some commands: what the last one sets that sets anything. */
  function Obeyed(commands: seq<Command>, color: Option<Color>): Option<Color> {
    if commands == [] then color
    else
      var last := commands[|commands| - 1];
      if last.Set? then last.color else Obeyed(commands[..|commands| - 1], color)
  }

  /** The colour after a rendition; one without parameters resets it. */
  function Rendered(params: seq<nat>, color: Option<Color>): Option<Color> {
    if params == [] then None else Obeyed(Commands(params, 0), color)
  }

  lemma {:induction false} ObeyedNext(command: Command, rest: seq<Command>, color: Option<Color>)
    ensures Obeyed([command] + rest, color) == Obeyed(rest, if command.Set? then command.color else color)
  {
    if rest != [] {
      var n := |rest| - 1;
      assert ([command] + rest)[..n + 1] == [command] + rest[..n];
      ObeyedNext(command, rest[..n], color);
    }
  }

  predicate AllQuotable(commands: seq<Command>) {
    forall c | c in commands :: c.Set? && c.color.Some? ==> Quotable(c.color.value)
  }

  lemma {:induction false} CommandsQuotable(params: seq<nat>, i: nat)
    ensures AllQuotable(Commands(params, i))
    decreases |params| - i
  {
    if i < |params| {
      if i + 2 < |params| { ColorsQuotable(params[i + 2]); }
      CommandsQuotable(params, if Extended(params, i) then i + 3 else i + 1);
    }
  }

  lemma {:induction false} ObeyedQuotable(commands: seq<Command>, color: Option<Color>)
    requires AllQuotable(commands) && (color.Some? ==> Quotable(color.value))
    ensures Obeyed(commands, color).Some? ==> Quotable(Obeyed(commands, color).value)
  {
    if commands != [] {
      assert commands[|commands| - 1] in commands;
      ObeyedQuotable(commands[..|commands| - 1], color);
    }
  }

  // ---------- what a text shows

  /** A character and the colour it is shown in. */
  datatype Cell = Cell(c: char, color: Option<Color>)

  function ColorAfter(s: Sequence, color: Option<Color>): Option<Color> {
    match s
    case Rendition(raw, _) => Rendered(Parameters(raw), color)
    case Ignored(_) => color
  }

  /** The reference: every character outside control sequences in the colour then in force. */
  function Shown(text: string, i: nat, color: Option<Color>): seq<Cell>
    requires i <= |text|
    decreases |text| - i
  {
    if i == |text| then []
    else
      match SequenceAt(text, i)
      case None => [Cell(text[i], color)] + Shown(text, i + 1, color)
      case Some(s) => Shown(text, i + s.length, ColorAfter(s, color))
  }

  // ---------- writing HTML

  const CLOSE := "</span>"
  const OPEN_BEGIN := "<span style=\"color:"
  const OPEN_END := "\">"

  function Opening(color: Option<Color>): string {
    match color
    case Some(c) => OPEN_BEGIN + c + OPEN_END
    case None => ""
  }

  function Closing(color: Option<Color>): string {
    if color.Some? then CLOSE else ""
  }

  function Switching(from: Option<Color>, to: Option<Color>): string {
    if from == to then "" else Closing(from) + Opening(to)
  }

  function EscapeChar(c: char): string {
    if c == '&' then "&amp;" else if c == '<' then "&lt;" else if c == '>' then "&gt;" else [c]
  }

  function EscapeAll(s: string): string {
    if s == "" then "" else EscapeChar(s[0]) + EscapeAll(s[1..])
  }

  function ReplaceAll(s: string, c: char, into: string): string {
    if s == "" then "" else (if s[0] == c then into else [s[0]]) + ReplaceAll(s[1..], c, into)
  }

  /** The three replacements, one after the other. */
  function EscapeHtml(s: string): string {
    ReplaceAll(ReplaceAll(ReplaceAll(s, '&', "&amp;"), '<', "&lt;"), '>', "&gt;")
  }

  lemma {:induction false} ReplaceConcat(a: string, b: string, c: char, into: string)
    ensures ReplaceAll(a + b, c, into) == ReplaceAll(a, c, into) + ReplaceAll(b, c, into)
  {
    if a == "" {
      assert a + b == b;
    } else {
      assert (a + b)[1..] == a[1..] + b;
      ReplaceConcat(a[1..], b, c, into);
    }
  }

  /** Replacing in that order escapes each character once. */
  lemma {:induction false} EscapeIsPerChar(s: string)
    ensures EscapeHtml(s) == EscapeAll(s)
  {
    if s != "" {
      var one := [s[0]];
      assert s == one + s[1..];
      var a, b := ReplaceAll(one, '&', "&amp;"), ReplaceAll(s[1..], '&', "&amp;");
      ReplaceConcat(one, s[1..], '&', "&amp;");
      ReplaceConcat(a, b, '<', "&lt;");
      ReplaceConcat(ReplaceAll(a, '<', "&lt;"), ReplaceAll(b, '<', "&lt;"), '>', "&gt;");
      EscapeOne(s[0]);
      EscapeIsPerChar(s[1..]);
    }
  }

  lemma {:induction false} ReplaceAbsent(s: string, c: char, into: string)
    requires c !in s
    ensures ReplaceAll(s, c, into) == s
  {
    if s != "" {
      assert s[0] in s;
      ReplaceAbsent(s[1..], c, into);
      assert s == [s[0]] + s[1..];
    }
  }

  lemma {:induction false} EscapeOne(c: char)
    ensures EscapeHtml([c]) == EscapeChar(c)
  {
    ReplaceOne(c, '&', "&amp;");
    ReplaceOne(c, '<', "&lt;");
    ReplaceOne(c, '>', "&gt;");
    ReplaceAbsent("&amp;", '<', "&lt;");
    ReplaceAbsent("&amp;", '>', "&gt;");
    ReplaceAbsent("&lt;", '>', "&gt;");
    hide ReplaceAll;
  }

  lemma {:induction false} ReplaceOne(c: char, from: char, to: string)
    ensures ReplaceAll([c], from, to) == if c == from then to else [c]
  {
    assert [c][1..] == [];
  }

  /** The HTML from a position on, while the span of a colour is open. */
  function Html(text: string, i: nat, color: Option<Color>): string
    requires i <= |text|
    decreases |text| - i
  {
    if i == |text| then Closing(color)
    else
      match SequenceAt(text, i)
      case None => EscapeChar(text[i]) + Html(text, i + 1, color)
      case Some(s) => var to := ColorAfter(s, color); Switching(color, to) + Html(text, i + s.length, to)
  }

  // ---------- reading HTML back

  predicate At(html: string, prefix: string) {
    prefix <= html
  }

  /** Where a quoted value ends. */
  function QuoteEnd(html: string): (n: nat)
    ensures n <= |html| && (n < |html| ==> html[n] == '"') && '"' !in html[..n]
  {
    if html == "" || html[0] == '"' then 0 else 1 + QuoteEnd(html[1..])
  }

  function Prepend(cell: Cell, rest: Option<seq<Cell>>): Option<seq<Cell>> {
    match rest
    case Some(cells) => Some([cell] + cells)
    case None => None
  }

  /**
   * Reads text with at most one span open at a time; anything else is rejected: a nested or unopened span, one left
   * open at the end, an unknown entity, a bare angle bracket or ampersand.
   */
  function Read(html: string, open: Option<Color>): Option<seq<Cell>>
    decreases |html|
  {
    if html == "" then if open.None? then Some([]) else None
    else if html[0] == '<' then
      if open.Some? then
        if At(html, CLOSE) then Read(html[|CLOSE|..], None) else None
      else if At(html, OPEN_BEGIN) then
        var rest := html[|OPEN_BEGIN|..];
        var n := QuoteEnd(rest);
        if At(rest[n..], OPEN_END) then Read(rest[n + |OPEN_END|..], Some(rest[..n])) else None
      else None
    else if html[0] == '&' then
      if At(html, "&amp;") then Prepend(Cell('&', open), Read(html[5..], open))
      else if At(html, "&lt;") then Prepend(Cell('<', open), Read(html[4..], open))
      else if At(html, "&gt;") then Prepend(Cell('>', open), Read(html[4..], open))
      else None
    else if html[0] == '>' then None
    else Prepend(Cell(html[0], open), Read(html[1..], open))
  }

  lemma {:induction false} ReadChar(c: char, rest: string, open: Option<Color>)
    ensures Read(EscapeChar(c) + rest, open) == Prepend(Cell(c, open), Read(rest, open))
  {
    var html := EscapeChar(c) + rest;
    assert html[|EscapeChar(c)|..] == rest;
    assert html[..|EscapeChar(c)|] == EscapeChar(c);
    assert forall i | 0 <= i < |EscapeChar(c)| :: html[i] == EscapeChar(c)[i];
    assert c == '<' ==> html[1] == 'l' && !At(html, "&amp;") && At(html, "&lt;");
    assert c == '>' ==> html[1] == 'g' && !At(html, "&amp;") && !At(html, "&lt;") && At(html, "&gt;");
    assert c == '&' ==> At(html, "&amp;");
  }

  lemma {:induction false} ReadClosing(rest: string, color: Color)
    ensures Read(CLOSE + rest, Some(color)) == Read(rest, None)
  {
    assert (CLOSE + rest)[|CLOSE|..] == rest;
  }

  lemma {:induction false} QuoteAfter(color: Color, rest: string)
    requires Quotable(color) && rest != "" && rest[0] == '"'
    ensures QuoteEnd(color + rest) == |color|
  {
    if color == "" {
      assert color + rest == rest;
    } else {
      assert color[0] in color;
      assert (color + rest)[1..] == color[1..] + rest;
      QuoteAfter(color[1..], rest);
    }
  }

  lemma {:induction false} ReadOpening(color: Color, rest: string)
    requires Quotable(color)
    ensures Read(Opening(Some(color)) + rest, None) == Read(rest, Some(color))
  {
    var html := Opening(Some(color)) + rest;
    var inner := html[|OPEN_BEGIN|..];
    assert inner == color + (OPEN_END + rest);
    assert html[..|OPEN_BEGIN|] == OPEN_BEGIN;
    QuoteAfter(color, OPEN_END + rest);
    assert inner[|color|..] == OPEN_END + rest;
    assert inner[|color| + |OPEN_END|..] == rest && inner[..|color|] == color;
  }

  lemma {:induction false} ReadSwitching(from: Option<Color>, to: Option<Color>, rest: string)
    requires to.Some? ==> Quotable(to.value)
    ensures Read(Switching(from, to) + rest, from) == Read(rest, to)
  {
    hide Read, Opening;
    if from == to {
      assert Switching(from, to) + rest == rest;
    } else {
      assert Switching(from, to) + rest == Closing(from) + (Opening(to) + rest);
      if from.Some? { ReadClosing(Opening(to) + rest, from.value); }
      if from.None? { assert Closing(from) + (Opening(to) + rest) == Opening(to) + rest; }
      if to.Some? { ReadOpening(to.value, rest); } else { NothingOpens(rest); }
    }
  }

  lemma {:induction false} NothingOpens(rest: string)
    ensures Opening(None) + rest == rest
  {
  }

  lemma {:induction false} ReadEnd(color: Option<Color>)
    ensures Read(Closing(color), color) == Some([])
  {
    if color.Some? {
      ReadClosing("", color.value);
      assert CLOSE + "" == CLOSE;
    }
  }

  lemma {:induction false} ColorStaysQuotable(s: Sequence, color: Option<Color>)
    requires color.Some? ==> Quotable(color.value)
    ensures ColorAfter(s, color).Some? ==> Quotable(ColorAfter(s, color).value)
  {
    if s.Rendition? {
      CommandsQuotable(Parameters(s.raw), 0);
      ObeyedQuotable(Commands(Parameters(s.raw), 0), color);
    }
  }

  /** Reading the HTML back gives the characters and colours of the reference, from any point on. */
  lemma {:induction false} HtmlShows(text: string, i: nat, color: Option<Color>)
    requires i <= |text| && (color.Some? ==> Quotable(color.value))
    ensures Read(Html(text, i, color), color) == Some(Shown(text, i, color))
    decreases |text| - i
  {
    hide Read, Closing, Switching, EscapeChar, ColorAfter, SequenceAt;
    if i == |text| {
      ReadEnd(color);
    } else {
      match SequenceAt(text, i)
      case None =>
        ReadChar(text[i], Html(text, i + 1, color), color);
        HtmlShows(text, i + 1, color);
      case Some(s) =>
        var to := ColorAfter(s, color);
        ColorStaysQuotable(s, color);
        ReadSwitching(color, to, Html(text, i + s.length, to));
        HtmlShows(text, i + s.length, to);
    }
  }

  // ---------- the converter

  class SgrState {
    var color: Option<Color>

    constructor ()
      ensures color == None
    {
      color := None;
    }
  }

  method ApplySgr(params: seq<nat>, state: SgrState)
    modifies state
    ensures state.color == Rendered(params, old(state.color))
  {
    if |params| == 0 {
      state.color := None;
      return;
    }
    var i := 0;
    while i < |params|
      invariant Obeyed(Commands(params, i), state.color) == Rendered(params, old(state.color))
      decreases |params| - i
    {
      ObeyedNext(CommandAt(params, i), Commands(params, if Extended(params, i) then i + 3 else i + 1), state.color);
      var code := params[i];
      if code == 0 || code == 39 {
        state.color := None;
        i := i + 1;
        continue;
      }
      if code == 38 && i + 2 < |params| && params[i + 1] == 5 {
        state.color := Xterm256(params[i + 2]);
        i := i + 3;
        continue;
      }
      i := i + 1;
    }
  }

  /** The next position at or after another where a sequence begins, as a global regular expression finds it. */
  function NextSequence(text: string, from: nat): (n: nat)
    requires from <= |text|
    ensures from <= n <= |text| && (n < |text| ==> SequenceAt(text, n).Some?)
    ensures forall k | from <= k < n :: SequenceAt(text, k).None?
    decreases |text| - from
  {
    if from == |text| || SequenceAt(text, from).Some? then from else NextSequence(text, from + 1)
  }

  /** Text without sequences is only escaped. */
  lemma {:induction false} PlainStretch(text: string, i: nat, j: nat, color: Option<Color>)
    requires i <= j <= |text| && forall k | i <= k < j :: SequenceAt(text, k).None?
    ensures Html(text, i, color) == EscapeAll(text[i..j]) + Html(text, j, color)
    decreases j - i
  {
    hide SequenceAt, EscapeChar, Closing, Switching;
    if i < j {
      PlainStretch(text, i + 1, j, color);
      assert text[i..j][1..] == text[i + 1..j];
    }
  }

  lemma {:induction false} OneSequence(text: string, i: nat, color: Option<Color>)
    requires i < |text| && SequenceAt(text, i).Some?
    ensures var s := SequenceAt(text, i).value;
            var to := ColorAfter(s, color);
            Html(text, i, color) == Switching(color, to) + Html(text, i + s.length, to)
  {
  }

  /** Ends the open span, if there is one. */
  method Close(html: string, open: bool) returns (h: string, o: bool)
    ensures h == html + (if open then CLOSE else "") && !o
  {
    h, o := html + "", open;
    if open {
      h := h + CLOSE;
      o := false;
    }
  }

  /** Begins a span of the colour in force, if there is one. */
  method OpenColor(html: string, open: bool, color: Option<Color>) returns (h: string, o: bool)
    ensures h == html + (if open then CLOSE else "") + Opening(color) && o == color.Some?
  {
    h, o := Close(html, open);
    h := h + Opening(color);
    if color.Some? { o := true; }
  }

  /** The converter; a span is open exactly while there is a colour, and carries that colour. */
  method AnsiToHtml(text: string) returns (html: string)
    ensures html == Html(text, 0, None)
    ensures Read(html, None) == Some(Shown(text, 0, None))
  {
    hide Read, Shown, EscapeHtml, EscapeAll, Parameters, Rendered, SequenceAt, Opening, Html;
    html := "";
    var last, open := 0, false;
    var state := new SgrState();
    var index := NextSequence(text, last);
    assert html + Html(text, 0, None) == Html(text, 0, None);
    while index < |text|
      invariant 0 <= last <= index <= |text| && index == NextSequence(text, last)
      invariant open == state.color.Some?
      invariant html + Html(text, last, state.color) == Html(text, 0, None)
      decreases |text| - index
    {
      var found := SequenceAt(text, index).value;
      ghost var before, color, plain := html, state.color, EscapeAll(text[last..index]);
      EscapeIsPerChar(text[last..index]);
      PlainStretch(text, last, index, color);
      OneSequence(text, index, color);
      html := html + EscapeHtml(text[last..index]);
      last := index + found.length;
      if found.Rendition? {
        var params := Parameters(found.raw);
        var prev := state.color;
        ApplySgr(params, state);
        if state.color != prev { html, open := OpenColor(html, open, state.color); }
      }
      Joined(before, plain, color, state.color, Html(text, last, state.color), html);
      index := NextSequence(text, last);
    }
    EscapeIsPerChar(text[last..]);
    PlainStretch(text, last, |text|, state.color);
    assert text[last..|text|] == text[last..];
    HtmlAtEnd(text, state.color);
    ghost var before, plain := html, EscapeAll(text[last..]);
    html := html + EscapeHtml(text[last..]);
    html, open := Close(html, open);
    assert before + (plain + Closing(state.color)) == before + plain + Closing(state.color);
    HtmlShows(text, 0, None);
  }

  lemma {:induction false} HtmlAtEnd(text: string, color: Option<Color>)
    ensures Html(text, |text|, color) == Closing(color)
  {
  }

  lemma {:induction false} Joined(
    before: string, plain: string, from: Option<Color>, to: Option<Color>, rest: string, html: string)
    requires html == if from == to then before + plain else before + plain + Closing(from) + Opening(to)
    ensures html + rest == before + (plain + (Switching(from, to) + rest))
  {
    hide Opening, Closing;
    assert before + plain + Closing(from) + Opening(to) == before + plain + (Closing(from) + Opening(to));
  }
}
