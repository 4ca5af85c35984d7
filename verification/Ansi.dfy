/** Terminal frame buffers compiled to control sequences, and what a terminal
    makes of them (sections 8.3.21, CUP, and 8.3.117, SGR, of ECMA-48). */
module Ansi {
  import opened Outcomes
  import opened Text

  type Byte = n: int | 0 <= n < 256

  const ESCAPE: char := 0x1b as char
  const COLOR_DEFAULT := 255

  /** The character set, which is not part of this model: one character per byte. */
  type Charset = Byte -> char

  datatype FrameBuffer = FrameBuffer(
    columns: nat, rows: nat, charBytes: seq<Byte>, foregroundBytes: seq<Byte>, backgroundBytes: seq<Byte>,
    flagBytes: seq<Byte>)
  {
    predicate Valid() {
      && columns > 0 && rows > 0
      && |charBytes| == |foregroundBytes| == |backgroundBytes| == |flagBytes| == columns * rows
    }
  }

  lemma {:induction false} OffsetInBounds(fb: FrameBuffer, row: nat, column: nat)
    requires fb.Valid() && row < fb.rows && column < fb.columns
    ensures row * fb.columns + column < |fb.charBytes|
  {
    assert (row + 1) * fb.columns <= fb.rows * fb.columns;
  }

  function Offset(fb: FrameBuffer, row: nat, column: nat): (offset: nat)
    requires fb.Valid() && row < fb.rows && column < fb.columns
    ensures offset < |fb.charBytes|
  {
    OffsetInBounds(fb, row, column);
    row * fb.columns + column
  }

  // --- The compiler ----------------------------------------------------------------------------

  function Decimals(numbers: seq<nat>): (texts: seq<string>)
    ensures |texts| == |numbers|
  {
    seq(|numbers|, i requires 0 <= i < |numbers| => Decimal(numbers[i]))
  }

  function Control(codes: seq<nat>, final: char): string {
    [ESCAPE, '['] + Joined(Decimals(codes), ';') + [final]
  }

  function CursorMove(row: nat, column: nat): string {
    Control([row + 1, column + 1], 'H')
  }

  predicate IsBold(flags: Byte) {
    flags % 2 != 0
  }

  predicate IsInverse(flags: Byte) {
    flags / 2 % 2 != 0
  }

  function StyleCodes(foreground: Byte, background: Byte, flags: Byte): seq<nat> {
    [0]
    + (if IsBold(flags) then [1] else [])
    + (if IsInverse(flags) then [7] else [])
    + (if foreground != COLOR_DEFAULT then [38, 5, foreground] else [])
    + (if background != COLOR_DEFAULT then [48, 5, background] else [])
  }

  function StyleSequence(fb: FrameBuffer, offset: nat): string
    requires fb.Valid() && offset < |fb.charBytes|
  {
    Control(StyleCodes(fb.foregroundBytes[offset], fb.backgroundBytes[offset], fb.flagBytes[offset]), 'm')
  }

  function StyleKey(fb: FrameBuffer, offset: nat): string
    requires fb.Valid() && offset < |fb.charBytes|
  {
    Joined(Decimals([fb.foregroundBytes[offset], fb.backgroundBytes[offset], fb.flagBytes[offset]]), ':')
  }

  /** A cell's text: its style when it differs from the one before, and its character. */
  function CellText(fb: FrameBuffer, decode: Charset, row: nat, column: nat): string
    requires fb.Valid() && row < fb.rows && column < fb.columns
  {
    var offset := Offset(fb, row, column);
    (if column == 0 || StyleKey(fb, offset) != StyleKey(fb, Offset(fb, row, column - 1)) then StyleSequence(fb, offset)
     else "")
    + [decode(fb.charBytes[offset])]
  }

  /** The text of a row's first `k` cells. */
  function RowText(fb: FrameBuffer, decode: Charset, row: nat, k: nat): string
    requires fb.Valid() && row < fb.rows && k <= fb.columns
  {
    if k == 0 then CursorMove(row, 0) else RowText(fb, decode, row, k - 1) + CellText(fb, decode, row, k - 1)
  }

  function RowPatch(fb: FrameBuffer, decode: Charset, row: nat): string
    requires fb.Valid() && row < fb.rows
  {
    RowText(fb, decode, row, fb.columns) + Control([0], 'm')
  }

  function Patch(fb: FrameBuffer, decode: Charset, dirtyRows: seq<int>): string
    requires fb.Valid()
  {
    if dirtyRows == [] then ""
    else
      var row := dirtyRows[|dirtyRows| - 1];
      Patch(fb, decode, dirtyRows[..|dirtyRows| - 1])
      + if 0 <= row < fb.rows then RowPatch(fb, decode, row) else ""
  }

  function AllRows(rows: nat): (all: seq<int>)
    ensures |all| == rows && forall k :: 0 <= k < rows ==> all[k] == k
  {
    seq(rows, row => row)
  }

  function FullRedraw(fb: FrameBuffer, decode: Charset): string
    requires fb.Valid()
  {
    Patch(fb, decode, AllRows(fb.rows))
  }

  method BuildStyleCodes(foreground: Byte, background: Byte, flags: Byte) returns (codes: seq<nat>)
    ensures codes == StyleCodes(foreground, background, flags)
  {
    codes := [0];
    if IsBold(flags) {
      codes := codes + [1];
    }
    if IsInverse(flags) {
      codes := codes + [7];
    }
    if foreground != COLOR_DEFAULT {
      codes := codes + [38, 5, foreground];
    }
    if background != COLOR_DEFAULT {
      codes := codes + [48, 5, background];
    }
  }

  method BuildRow(fb: FrameBuffer, decode: Charset, row: nat) returns (patch: string)
    requires fb.Valid() && row < fb.rows
    ensures patch == RowPatch(fb, decode, row)
  {
    hide StyleKey, StyleSequence, CursorMove, Control, StyleCodes, Offset;
    patch := CursorMove(row, 0);
    var previousStyleKey: Option<string> := None;
    for column := 0 to fb.columns
      invariant patch == RowText(fb, decode, row, column)
      invariant previousStyleKey == if column == 0 then None else Some(StyleKey(fb, Offset(fb, row, column - 1)))
    {
      var offset := Offset(fb, row, column);
      var nextStyleKey := StyleKey(fb, offset);
      ghost var before := patch;
      if Some(nextStyleKey) != previousStyleKey {
        var codes := BuildStyleCodes(fb.foregroundBytes[offset], fb.backgroundBytes[offset], fb.flagBytes[offset]);
        assert StyleSequence(fb, offset) == Control(codes, 'm') by { StyleSequenceIs(fb, offset); }
        patch := patch + Control(codes, 'm');
        previousStyleKey := Some(nextStyleKey);
      }
      patch := patch + [decode(fb.charBytes[offset])];
      assert patch == before + CellText(fb, decode, row, column);
    }
    patch := patch + Control([0], 'm');
  }

  lemma {:induction false} StyleSequenceIs(fb: FrameBuffer, offset: nat)
    requires fb.Valid() && offset < |fb.charBytes|
    ensures StyleSequence(fb, offset)
            == Control(StyleCodes(fb.foregroundBytes[offset], fb.backgroundBytes[offset], fb.flagBytes[offset]), 'm')
  {
  }

  method BuildTerminalAnsiRowPatch(fb: FrameBuffer, decode: Charset, dirtyRows: seq<int>) returns (patch: string)
    requires fb.Valid()
    ensures patch == Patch(fb, decode, dirtyRows)
  {
    hide RowPatch;
    patch := "";
    for i := 0 to |dirtyRows|
      invariant patch == Patch(fb, decode, dirtyRows[..i])
    {
      assert dirtyRows[..i + 1][..i] == dirtyRows[..i];
      var row := dirtyRows[i];
      if row < 0 || row >= fb.rows {
        continue;
      }
      var text := BuildRow(fb, decode, row);
      patch := patch + text;
    }
    assert dirtyRows[..|dirtyRows|] == dirtyRows;
  }

  // --- The terminal -------------------------------------------------------------------------------

  datatype Style = Style(bold: bool, inverse: bool, foreground: Option<nat>, background: Option<nat>)

  const PLAIN := Style(false, false, None, None)

  datatype Glyph = Glyph(character: char, style: Style)

  /** Rows of cells, a cursor (one past the row when it is full) and the current style. */
  datatype Screen = Screen(cells: seq<seq<Glyph>>, row: nat, column: nat, style: Style)

  predicate Fits(s: Screen, rows: nat, columns: nat) {
    && |s.cells| == rows && (forall r :: 0 <= r < rows ==> |s.cells[r]| == columns)
    && s.row < rows && s.column <= columns && columns > 0
  }

  /** A character past the end of a row goes to the next row, scrolling at the bottom. */
  function Wrapped(s: Screen): Screen
    requires s.cells != [] && s.row < |s.cells|
  {
    if s.row + 1 < |s.cells| then s.(row := s.row + 1, column := 0)
    else s.(cells := s.cells[1..] + [seq(|s.cells[0]|, _ => Glyph(' ', PLAIN))], column := 0)
  }

  function Put(s: Screen, c: char): Screen
    requires s.row < |s.cells| && s.column < |s.cells[s.row]|
  {
    s.(cells := s.cells[s.row := s.cells[s.row][s.column := Glyph(c, s.style)]], column := s.column + 1)
  }

  function Print(s: Screen, c: char): Screen {
    if s.row >= |s.cells| then s
    else if s.column < |s.cells[s.row]| then Put(s, c)
    else
      var w := Wrapped(s);
      if w.row < |w.cells| && w.column < |w.cells[w.row]| then Put(w, c) else w
  }

  /** Select graphic rendition. */
  function Render(style: Style, codes: seq<nat>): Style
    decreases |codes|
  {
    if codes == [] then style
    else if codes[0] == 0 then Render(PLAIN, codes[1..])
    else if codes[0] == 1 then Render(style.(bold := true), codes[1..])
    else if codes[0] == 7 then Render(style.(inverse := true), codes[1..])
    else if codes[0] == 38 && |codes| >= 3 && codes[1] == 5 then
      Render(style.(foreground := Some(codes[2])), codes[3..])
    else if codes[0] == 48 && |codes| >= 3 && codes[1] == 5 then
      Render(style.(background := Some(codes[2])), codes[3..])
    else Render(style, codes[1..])
  }

  function Position(code: nat, limit: nat): nat {
    var k := if code == 0 then 0 else code - 1;
    if k >= limit && limit > 0 then limit - 1 else k
  }

  function Perform(s: Screen, codes: seq<nat>, final: char): Screen {
    if final == 'm' then s.(style := Render(s.style, codes))
    else if final == 'H' && |codes| == 2 then
      var row := Position(codes[0], |s.cells|);
      s.(row := row, column := Position(codes[1], if row < |s.cells| then |s.cells[row]| else 0))
    else s
  }

  predicate IsParameter(c: char) {
    IsDigit(c) || c == ';'
  }

  function ParameterLength(text: string): (n: nat)
    ensures n <= |text|
  {
    if text == "" || !IsParameter(text[0]) then 0 else 1 + ParameterLength(text[1..])
  }

  /** The numbers of a parameter text, `current` being the digits read so far. */
  function Numbers(text: string, current: nat): (numbers: seq<nat>)
    requires forall k :: 0 <= k < |text| ==> IsParameter(text[k])
  {
    if text == "" then [current]
    else if text[0] == ';' then [current] + Numbers(text[1..], 0)
    else
      assert IsParameter(text[0]);
      Numbers(text[1..], current * 10 + (text[0] as int - '0' as int))
  }

  lemma {:induction false} ParametersAreParameters(text: string)
    ensures forall k :: 0 <= k < ParameterLength(text) ==> IsParameter(text[k])
    ensures ParameterLength(text) < |text| ==> !IsParameter(text[ParameterLength(text)])
  {
    if text != "" && IsParameter(text[0]) {
      ParametersAreParameters(text[1..]);
    }
  }

  /** What a terminal does with a text. An unfinished sequence does nothing. */
  function Interpret(s: Screen, text: string): Screen
    decreases |text|
  {
    if text == "" then s
    else if text[0] == ESCAPE && |text| > 1 && text[1] == '[' then
      var n := ParameterLength(text[2..]);
      if |text| == n + 2 then s
      else
        ParametersAreParameters(text[2..]);
        Interpret(Perform(s, Numbers(text[2..n + 2], 0), text[n + 2]), text[n + 3..])
    else Interpret(Print(s, text[0]), text[1..])
  }
}
