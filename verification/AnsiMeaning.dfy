/** What the compiled control sequences do to a screen. */
module AnsiMeaning {
  import opened Outcomes
  import opened Text
  import opened Ansi

  // --- Numbers and control sequences -------------------------------------------------------

  predicate AllParameters(text: string) {
    forall k :: 0 <= k < |text| ==> IsParameter(text[k])
  }

  lemma {:induction false} NumbersOfDecimal(n: nat, rest: string)
    requires AllParameters(rest) && AllParameters(Decimal(n) + rest)
    ensures Numbers(Decimal(n) + rest, 0) == Numbers(rest, n)
    decreases n
  {
    if n >= 10 {
      var digit := [Digit(n % 10)];
      assert Decimal(n) + rest == Decimal(n / 10) + (digit + rest);
      NumbersOfDigit(n % 10, rest, n / 10);
      NumbersOfDecimal(n / 10, digit + rest);
    } else {
      NumbersOfDigit(n, rest, 0);
    }
  }

  lemma {:induction false} DigitValue(n: nat)
    requires n < 10
    ensures IsDigit(Digit(n)) && Digit(n) as int - '0' as int == n
  {
  }

  lemma {:induction false} NumbersOfDigit(n: nat, rest: string, current: nat)
    requires n < 10 && AllParameters(rest)
    ensures AllParameters([Digit(n)] + rest) && Numbers([Digit(n)] + rest, current) == Numbers(rest, current * 10 + n)
  {
    DigitValue(n);
    var text := [Digit(n)] + rest;
    assert text[1..] == rest;
    forall k | 0 <= k < |text|
      ensures IsParameter(text[k])
    {
      if k > 0 {
        assert text[k] == rest[k - 1];
      }
    }
  }

  lemma {:induction false} JoinedParameters(codes: seq<nat>)
    requires codes != []
    ensures AllParameters(Joined(Decimals(codes), ';'))
    ensures Numbers(Joined(Decimals(codes), ';'), 0) == codes
  {
    DecimalHasDigits(codes[0]);
    if |codes| == 1 {
      assert Decimals(codes) == [Decimal(codes[0])];
      assert Decimal(codes[0]) + "" == Decimal(codes[0]);
      NumbersOfDecimal(codes[0], "");
    } else {
      var rest := Joined(Decimals(codes[1..]), ';');
      assert Decimals(codes)[1..] == Decimals(codes[1..]);
      JoinedParameters(codes[1..]);
      var tail := [';'] + rest;
      assert Joined(Decimals(codes), ';') == Decimal(codes[0]) + tail;
      ConcatenatedParameters([';'], rest);
      ConcatenatedParameters(Decimal(codes[0]), tail);
      NumbersOfDecimal(codes[0], tail);
      assert tail[1..] == rest;
    }
  }

  lemma {:induction false} ConcatenatedParameters(a: string, b: string)
    requires AllParameters(a) && AllParameters(b)
    ensures AllParameters(a + b)
  {
    forall k | 0 <= k < |a + b|
      ensures IsParameter((a + b)[k])
    {
      if k >= |a| {
        assert (a + b)[k] == b[k - |a|];
      }
    }
  }

  lemma {:induction false} ParameterPrefix(a: string, final: char, rest: string)
    requires AllParameters(a) && !IsParameter(final)
    ensures ParameterLength(a + [final] + rest) == |a|
  {
    if a == "" {
      assert a + [final] + rest == [final] + rest;
    } else {
      assert IsParameter(a[0]);
      assert (a + [final] + rest)[1..] == a[1..] + [final] + rest;
      ParameterPrefix(a[1..], final, rest);
    }
  }

  /** A control sequence in front of a text is carried out, and the text follows. */
  lemma {:induction false} ControlIsPerformed(s: Screen, codes: seq<nat>, final: char, rest: string)
    requires codes != [] && (final == 'm' || final == 'H')
    ensures Interpret(s, Control(codes, final) + rest) == Interpret(Perform(s, codes, final), rest)
  {
    hide Joined, Perform, Decimals;
    var parameters := Joined(Decimals(codes), ';');
    var text := Control(codes, final) + rest;
    JoinedParameters(codes);
    ParameterPrefix(parameters, final, rest);
    assert text[2..] == parameters + [final] + rest;
    assert text[2..|parameters| + 2] == parameters;
    assert text[|parameters| + 2] == final;
    assert text[|parameters| + 3..] == rest;
  }

  lemma {:induction false} CharacterIsPrinted(s: Screen, c: char, rest: string)
    requires c != ESCAPE
    ensures Interpret(s, [c] + rest) == Interpret(Print(s, c), rest)
  {
    hide Print;
    assert ([c] + rest)[1..] == rest;
  }

  // --- Cells and rows --------------------------------------------------------------------------

  function StyleOf(foreground: Byte, background: Byte, flags: Byte): Style {
    Style(IsBold(flags), IsInverse(flags), if foreground != COLOR_DEFAULT then Some(foreground) else None,
          if background != COLOR_DEFAULT then Some(background) else None)
  }

  /** A colour in the frame buffer: its low byte, and 255 for the terminal's own. */
  function StoredColor(color: Option<int>): Byte {
    if color.Some? then color.value % 256 else 255
  }

  function LowByte(color: Option<int>): Option<Byte> {
    if color.Some? then Some(color.value % 256) else None
  }

  /** A cell stored as the frame buffer stores it, bold in its first flag bit
      and inverse in its second, is shown in its style, colours cut to a byte, exactly
      if no colour is taken for the terminal's own. */
  lemma {:induction false} StoredStyleIsShownExactly(bold: bool, inverse: bool, foreground: Option<int>, background: Option<int>)
    ensures var flags := (if bold then 1 else 0) + if inverse then 2 else 0;
      StyleOf(StoredColor(foreground), StoredColor(background), flags)
      == Style(bold, inverse, LowByte(foreground), LowByte(background))
      <==> LowByte(foreground) != Some(255) && LowByte(background) != Some(255)
  {
    if foreground.Some? && background.Some? {
      assert StoredColor(foreground) == foreground.value % 256;
    }
  }

  /** The codes of a cell select its style, whatever was selected before. */
  lemma {:induction false} CodesSelectStyle(style: Style, foreground: Byte, background: Byte, flags: Byte)
    ensures Render(style, StyleCodes(foreground, background, flags)) == StyleOf(foreground, background, flags)
  {
    var back := if background != COLOR_DEFAULT then [48, 5, background] else [];
    var fore := if foreground != COLOR_DEFAULT then [38, 5, foreground] else [];
    var inverse := if IsInverse(flags) then [7] else [];
    var bold := if IsBold(flags) then [1] else [];
    var s0 := PLAIN.(bold := IsBold(flags));
    var s1 := s0.(inverse := IsInverse(flags));
    var s2 := s1.(foreground := if foreground != COLOR_DEFAULT then Some(foreground) else None);
    var codes := StyleCodes(foreground, background, flags);
    assert codes == [0] + (bold + (inverse + (fore + back)));
    assert codes[1..] == bold + (inverse + (fore + back));
    BoldCode(IsBold(flags), inverse + (fore + back));
    InverseCode(s0, IsInverse(flags), fore + back);
    ForegroundCode(s1, foreground, back);
    BackgroundCode(s2, background);
  }

  lemma {:induction false} BoldCode(bold: bool, rest: seq<nat>)
    ensures Render(PLAIN, (if bold then [1] else []) + rest) == Render(PLAIN.(bold := bold), rest)
  {
    if bold {
      assert ([1] + rest)[1..] == rest;
    } else {
      assert [] + rest == rest;
    }
  }

  lemma {:induction false} InverseCode(style: Style, inverse: bool, rest: seq<nat>)
    requires !style.inverse
    ensures Render(style, (if inverse then [7] else []) + rest) == Render(style.(inverse := inverse), rest)
  {
    if inverse {
      assert ([7] + rest)[1..] == rest;
    } else {
      assert [] + rest == rest;
    }
  }

  lemma {:induction false} ForegroundCode(style: Style, foreground: Byte, rest: seq<nat>)
    requires style.foreground.None?
    ensures Render(style, (if foreground != COLOR_DEFAULT then [38, 5, foreground] else []) + rest)
            == Render(style.(foreground := if foreground != COLOR_DEFAULT then Some(foreground) else None), rest)
  {
    if foreground != COLOR_DEFAULT {
      assert ([38, 5, foreground] + rest)[3..] == rest;
    } else {
      assert [] + rest == rest;
    }
  }

  lemma {:induction false} BackgroundCode(style: Style, background: Byte)
    requires style.background.None?
    ensures Render(style, if background != COLOR_DEFAULT then [48, 5, background] else [])
            == style.(background := if background != COLOR_DEFAULT then Some(background) else None)
  {
    if background != COLOR_DEFAULT {
      assert [48, 5, background][3..] == [];
    }
  }

  function CellStyle(fb: FrameBuffer, offset: nat): Style
    requires fb.Valid() && offset < |fb.charBytes|
  {
    StyleOf(fb.foregroundBytes[offset], fb.backgroundBytes[offset], fb.flagBytes[offset])
  }

  lemma {:induction false} StyleIsSelected(s: Screen, fb: FrameBuffer, offset: nat, rest: string)
    requires fb.Valid() && offset < |fb.charBytes|
    ensures Interpret(s, StyleSequence(fb, offset) + rest) == Interpret(s.(style := CellStyle(fb, offset)), rest)
  {
    hide Control, StyleCodes, Interpret, Render;
    var codes := StyleCodes(fb.foregroundBytes[offset], fb.backgroundBytes[offset], fb.flagBytes[offset]);
    assert codes != [] by { CodesExist(fb.foregroundBytes[offset], fb.backgroundBytes[offset], fb.flagBytes[offset]); }
    ControlIsPerformed(s, codes, 'm', rest);
    CodesSelectStyle(s.style, fb.foregroundBytes[offset], fb.backgroundBytes[offset], fb.flagBytes[offset]);
  }

  lemma {:induction false} CodesExist(foreground: Byte, background: Byte, flags: Byte)
    ensures StyleCodes(foreground, background, flags) != []
  {
  }

  /** Equal style keys mean equal styles, so a style that is left out is the current one. */
  lemma {:induction false} SameKeySameStyle(fb: FrameBuffer, a: nat, b: nat)
    requires fb.Valid() && a < |fb.charBytes| && b < |fb.charBytes|
    ensures StyleKey(fb, a) == StyleKey(fb, b)
            <==> && fb.foregroundBytes[a] == fb.foregroundBytes[b] && fb.backgroundBytes[a] == fb.backgroundBytes[b]
                 && fb.flagBytes[a] == fb.flagBytes[b]
  {
    hide Joined;
    if StyleKey(fb, a) == StyleKey(fb, b) {
      var x := [fb.foregroundBytes[a], fb.backgroundBytes[a], fb.flagBytes[a]];
      var y := [fb.foregroundBytes[b], fb.backgroundBytes[b], fb.flagBytes[b]];
      DecimalsAreFree(x);
      DecimalsAreFree(y);
      JoinedIsInjective(Decimals(x), Decimals(y), ':');
      forall i | 0 <= i < 3
        ensures x[i] == y[i]
      {
        assert Decimals(x)[i] == Decimals(y)[i];
        DecimalIsInjective(x[i], y[i]);
      }
      assert x[0] == y[0] && x[1] == y[1] && x[2] == y[2];
    }
  }

  lemma {:induction false} DecimalsAreFree(numbers: seq<nat>)
    ensures Free(Decimals(numbers), ':')
  {
    forall i | 0 <= i < |numbers|
      ensures ':' !in Decimals(numbers)[i]
    {
      DecimalHasDigits(numbers[i]);
    }
  }

  function CellGlyph(fb: FrameBuffer, decode: Charset, row: nat, column: nat): Glyph
    requires fb.Valid() && row < fb.rows && column < fb.columns
  {
    var offset := Offset(fb, row, column);
    Glyph(decode(fb.charBytes[offset]), CellStyle(fb, offset))
  }

  function FrameRow(fb: FrameBuffer, decode: Charset, row: nat): (cells: seq<Glyph>)
    requires fb.Valid() && row < fb.rows
    ensures |cells| == fb.columns
  {
    seq(fb.columns, column requires 0 <= column < fb.columns => CellGlyph(fb, decode, row, column))
  }

  /** Every character is a printable one: one cell, and no control character (C0, DEL or C1). */
  predicate Printable(fb: FrameBuffer, decode: Charset) {
    forall k :: 0 <= k < |fb.charBytes| ==> IsPrintable(decode(fb.charBytes[k]))
  }

  predicate IsPrintable(c: char) {
    ' ' <= c < 0x7f as char || 0xa0 as char <= c
  }

  /** The screen with the first `k` cells of a row painted, the cursor behind them. */
  ghost predicate Painted(before: Screen, after: Screen, fb: FrameBuffer, decode: Charset, row: nat, k: nat)
    requires fb.Valid() && row < fb.rows && k <= fb.columns
  {
    && Fits(before, fb.rows, fb.columns) && Fits(after, fb.rows, fb.columns)
    && after.row == row && after.column == k
    && (k > 0 ==> after.style == CellGlyph(fb, decode, row, k - 1).style)
    && after.cells[row] == FrameRow(fb, decode, row)[..k] + before.cells[row][k..]
    && forall r :: 0 <= r < fb.rows && r != row ==> after.cells[r] == before.cells[r]
  }

  lemma {:induction false} PutPaints(before: Screen, s: Screen, fb: FrameBuffer, decode: Charset, row: nat, k: nat)
    requires fb.Valid() && row < fb.rows && k < fb.columns
    requires Painted(before, s, fb, decode, row, k)
    ensures var glyph := CellGlyph(fb, decode, row, k);
      Painted(before, Print(s.(style := glyph.style), glyph.character), fb, decode, row, k + 1)
  {
    hide CellStyle, Offset;
    var glyph := CellGlyph(fb, decode, row, k);
    var after := Print(s.(style := glyph.style), glyph.character);
    var target := FrameRow(fb, decode, row);
    assert target[k] == glyph;
    assert after.cells[row] == target[..k + 1] + before.cells[row][k + 1..];
  }

  lemma {:induction false} CellPaints(before: Screen, s: Screen, fb: FrameBuffer, decode: Charset, row: nat, k: nat, rest: string)
    returns (after: Screen)
    requires fb.Valid() && row < fb.rows && k < fb.columns && Printable(fb, decode)
    requires Painted(before, s, fb, decode, row, k)
    ensures Interpret(s, CellText(fb, decode, row, k) + rest) == Interpret(after, rest)
    ensures Painted(before, after, fb, decode, row, k + 1)
  {
    hide Painted, Interpret, StyleSequence, StyleKey, Print, Offset, CellStyle;
    var offset := Offset(fb, row, k);
    var glyph := CellGlyph(fb, decode, row, k);
    var styled := s.(style := glyph.style);
    PutPaints(before, s, fb, decode, row, k);
    after := Print(styled, glyph.character);
    var shown := [glyph.character] + rest;
    assert IsPrintable(glyph.character);
    CharacterIsPrinted(styled, glyph.character, rest);
    if k == 0 || StyleKey(fb, offset) != StyleKey(fb, Offset(fb, row, k - 1)) {
      StyleIsSelected(s, fb, offset, shown);
      assert CellText(fb, decode, row, k) + rest == StyleSequence(fb, offset) + shown;
    } else {
      KeptStyle(before, s, fb, decode, row, k);
      assert CellText(fb, decode, row, k) + rest == shown;
    }
  }

  lemma {:induction false} KeptStyle(before: Screen, s: Screen, fb: FrameBuffer, decode: Charset, row: nat, k: nat)
    requires fb.Valid() && row < fb.rows && 0 < k < fb.columns && Painted(before, s, fb, decode, row, k)
    requires StyleKey(fb, Offset(fb, row, k)) == StyleKey(fb, Offset(fb, row, k - 1))
    ensures s.(style := CellGlyph(fb, decode, row, k).style) == s
  {
    hide StyleKey, Offset;
    SameKeySameStyle(fb, Offset(fb, row, k), Offset(fb, row, k - 1));
  }

  lemma {:induction false} CursorMoves(s: Screen, rows: nat, columns: nat, row: nat, rest: string)
    requires Fits(s, rows, columns) && row < rows
    ensures Interpret(s, CursorMove(row, 0) + rest) == Interpret(s.(row := row, column := 0), rest)
  {
    hide Interpret, Control;
    ControlIsPerformed(s, [row + 1, 1], 'H', rest);
  }

  lemma {:induction false} RowTextPaints(s: Screen, fb: FrameBuffer, decode: Charset, row: nat, k: nat, rest: string)
    returns (after: Screen)
    requires fb.Valid() && row < fb.rows && k <= fb.columns && Printable(fb, decode) && Fits(s, fb.rows, fb.columns)
    ensures Interpret(s, RowText(fb, decode, row, k) + rest) == Interpret(after, rest)
    ensures Painted(s, after, fb, decode, row, k)
    decreases k
  {
    hide Interpret, CursorMove, CellText, Printable;
    if k == 0 {
      CursorMoves(s, fb.rows, fb.columns, row, rest);
      after := s.(row := row, column := 0);
    } else {
      var cell := CellText(fb, decode, row, k - 1);
      var middle := RowTextPaints(s, fb, decode, row, k - 1, cell + rest);
      assert RowText(fb, decode, row, k) + rest == RowText(fb, decode, row, k - 1) + (cell + rest);
      after := CellPaints(s, middle, fb, decode, row, k - 1, rest);
    }
  }

  /** The screen with one row replaced by the frame's. */
  ghost predicate RowShown(before: Screen, after: Screen, fb: FrameBuffer, decode: Charset, row: nat)
    requires fb.Valid() && row < fb.rows
  {
    && Fits(before, fb.rows, fb.columns) && Fits(after, fb.rows, fb.columns)
    && after.cells[row] == FrameRow(fb, decode, row)
    && forall r :: 0 <= r < fb.rows && r != row ==> after.cells[r] == before.cells[r]
  }

  lemma {:induction false} RowPatchPaints(s: Screen, fb: FrameBuffer, decode: Charset, row: nat, rest: string) returns (after: Screen)
    requires fb.Valid() && row < fb.rows && Printable(fb, decode) && Fits(s, fb.rows, fb.columns)
    ensures Interpret(s, RowPatch(fb, decode, row) + rest) == Interpret(after, rest)
    ensures RowShown(s, after, fb, decode, row) && after.style == PLAIN
  {
    hide Interpret, RowText, Control, Printable;
    var reset := Control([0], 'm') + rest;
    var painted := RowTextPaints(s, fb, decode, row, fb.columns, reset);
    assert RowPatch(fb, decode, row) + rest == RowText(fb, decode, row, fb.columns) + reset;
    ControlIsPerformed(painted, [0], 'm', rest);
    assert [0][1..] == [];
    after := painted.(style := PLAIN);
    assert FrameRow(fb, decode, row)[..fb.columns] == FrameRow(fb, decode, row);
  }

  /** Row `r` as the patch leaves it. */
  function Shown(s: Screen, fb: FrameBuffer, decode: Charset, dirtyRows: seq<int>, r: nat): seq<Glyph>
    requires fb.Valid() && Fits(s, fb.rows, fb.columns) && r < fb.rows
  {
    if r in dirtyRows then FrameRow(fb, decode, r) else s.cells[r]
  }

  lemma {:induction false} PatchPaints(s: Screen, fb: FrameBuffer, decode: Charset, dirtyRows: seq<int>, rest: string)
    returns (after: Screen)
    requires fb.Valid() && Printable(fb, decode) && Fits(s, fb.rows, fb.columns)
    ensures Interpret(s, Patch(fb, decode, dirtyRows) + rest) == Interpret(after, rest)
    ensures Fits(after, fb.rows, fb.columns)
    ensures forall r :: 0 <= r < fb.rows ==> after.cells[r] == Shown(s, fb, decode, dirtyRows, r)
    decreases |dirtyRows|
  {
    hide Interpret, RowPatch, Printable, FrameRow;
    if dirtyRows == [] {
      after := s;
      assert Patch(fb, decode, dirtyRows) + rest == rest;
    } else {
      var last := |dirtyRows| - 1;
      var row := dirtyRows[last];
      var text := if 0 <= row < fb.rows then RowPatch(fb, decode, row) else "";
      var middle := PatchPaints(s, fb, decode, dirtyRows[..last], text + rest);
      assert Patch(fb, decode, dirtyRows) + rest == Patch(fb, decode, dirtyRows[..last]) + (text + rest);
      assert dirtyRows == dirtyRows[..last] + [row];
      if 0 <= row < fb.rows {
        after := RowPatchPaints(middle, fb, decode, row, rest);
      } else {
        after := middle;
        assert text + rest == rest;
      }
    }
  }

  /** On any screen of the frame's size, a row patch makes exactly the dirty
      rows that exist equal to the frame's, and leaves every other row alone. */
  lemma {:induction false} PatchShowsDirtyRows(s: Screen, fb: FrameBuffer, decode: Charset, dirtyRows: seq<int>)
    requires fb.Valid() && Printable(fb, decode) && Fits(s, fb.rows, fb.columns)
    ensures var after := Interpret(s, Patch(fb, decode, dirtyRows));
      && Fits(after, fb.rows, fb.columns)
      && forall r :: 0 <= r < fb.rows ==> after.cells[r] == Shown(s, fb, decode, dirtyRows, r)
  {
    var after := PatchPaints(s, fb, decode, dirtyRows, "");
    assert Patch(fb, decode, dirtyRows) + "" == Patch(fb, decode, dirtyRows);
  }

  /** A row patch gives the same cells as a full redraw exactly when the rows
      it does not name already show the frame. */
  lemma {:induction false} PatchIsFullRedrawExactly(s: Screen, fb: FrameBuffer, decode: Charset, dirtyRows: seq<int>)
    requires fb.Valid() && Printable(fb, decode) && Fits(s, fb.rows, fb.columns)
    ensures Interpret(s, Patch(fb, decode, dirtyRows)).cells == Interpret(s, FullRedraw(fb, decode)).cells
            <==> forall r :: 0 <= r < fb.rows && r !in dirtyRows ==> s.cells[r] == FrameRow(fb, decode, r)
  {
    hide Interpret, Patch, FrameRow, Printable;
    var a := Interpret(s, Patch(fb, decode, dirtyRows));
    var b := Interpret(s, FullRedraw(fb, decode));
    PatchShowsDirtyRows(s, fb, decode, dirtyRows);
    PatchShowsDirtyRows(s, fb, decode, AllRows(fb.rows));
    forall r | 0 <= r < fb.rows
      ensures b.cells[r] == FrameRow(fb, decode, r)
      ensures a.cells[r] == b.cells[r] <==> r in dirtyRows || s.cells[r] == FrameRow(fb, decode, r)
    {
      assert AllRows(fb.rows)[r] == r;
    }
  }
}
