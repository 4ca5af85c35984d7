/** The graphics surface: rectangular patches written into a flat pixel buffer. */
module GraphicsSurface {
  import opened Outcomes

  type Pixel = n: int | 0 <= n < 0x1_0000_0000

  datatype GraphicsState = GraphicsState(width: nat, height: nat, geometryVersion: int, version: int)

  datatype Patch = Patch(x: nat, y: nat, width: nat, height: nat, pixels: seq<Pixel>) {
    predicate Valid() {
      |pixels| == RowStart(height, width)
    }
  }

  // --- Rows in a flat buffer -------------------------------------------------------------------

  /** Where a row begins; also the length of so many rows. */
  function RowStart(row: nat, width: nat): nat {
    row * width
  }

  lemma {:induction false} RowsBefore(a: nat, b: nat, width: nat)
    requires a < b
    ensures RowStart(a, width) + width <= RowStart(b, width)
  {
    assert (a + 1) * width <= b * width;
  }

  lemma {:induction false} NextRow(row: nat, width: nat)
    ensures RowStart(row + 1, width) == RowStart(row, width) + width
  {
  }

  /** Every place in a buffer of whole rows is in one of them. */
  lemma {:induction false} PlaceHasRow(place: nat, width: nat, height: nat) returns (row: nat, column: nat)
    requires place < RowStart(height, width)
    ensures row < height && column < width && RowStart(row, width) + column == place
  {
    assert RowStart(0, width) == 0;
    assert height > 0;
    NextRow(height - 1, width);
    hide RowStart;
    if place < RowStart(height - 1, width) {
      row, column := PlaceHasRow(place, width, height - 1);
    } else {
      row, column := height - 1, place - RowStart(height - 1, width);
    }
  }

  function At(row: nat, column: nat, width: nat, height: nat): (offset: nat)
    requires row < height && column < width
    ensures offset < RowStart(height, width)
  {
    RowsBefore(row, height, width);
    RowStart(row, width) + column
  }

  /** A stretch that fits its row holds exactly that row's columns. */
  lemma {:induction false} StretchOfRow(row: nat, column: nat, target: nat, x: nat, w: nat, width: nat)
    requires column < width && x + w <= width
    ensures RowStart(target, width) + x <= RowStart(row, width) + column < RowStart(target, width) + x + w
            <==> row == target && x <= column < x + w
  {
    hide RowStart;
    if row < target {
      RowsBefore(row, target, width);
    } else if row > target {
      RowsBefore(target, row, width);
    }
  }

  // --- Writing a patch ---------------------------------------------------------------------------

  function RowPixels(patch: Patch, row: nat): (pixels: seq<Pixel>)
    requires patch.Valid() && row < patch.height
    ensures |pixels| == patch.width
  {
    RowsBefore(row, patch.height, patch.width);
    patch.pixels[RowStart(row, patch.width)..RowStart(row, patch.width) + patch.width]
  }

  function RowOffset(patch: Patch, row: nat, width: nat): nat {
    RowStart(patch.y + row, width) + patch.x
  }

  predicate RowInRange(patch: Patch, row: nat, width: nat, length: nat) {
    RowOffset(patch, row, width) + patch.width <= length
  }

  function Overwritten(buffer: seq<Pixel>, offset: nat, pixels: seq<Pixel>): (after: seq<Pixel>)
    requires offset + |pixels| <= |buffer|
    ensures |after| == |buffer|
  {
    buffer[..offset] + pixels + buffer[offset + |pixels|..]
  }

  /** The buffer after the first `rows` rows, unless one of them reaches past its end. */
  function Blit(buffer: seq<Pixel>, width: nat, patch: Patch, rows: nat): (after: Option<seq<Pixel>>)
    requires patch.Valid() && rows <= patch.height
    ensures after.Some? ==> |after.value| == |buffer|
  {
    if rows == 0 then Some(buffer)
    else
      match Blit(buffer, width, patch, rows - 1)
      case None => None
      case Some(before) =>
        if RowInRange(patch, rows - 1, width, |buffer|) then
          Some(Overwritten(before, RowOffset(patch, rows - 1, width), RowPixels(patch, rows - 1)))
        else None
  }

  /** The patch lies within the surface. */
  predicate FitsSurface(patch: Patch, width: nat, height: nat) {
    patch.x + patch.width <= width && patch.y + patch.height <= height
  }

  predicate Covers(patch: Patch, row: nat, column: nat, rows: nat) {
    patch.y <= row < patch.y + rows && patch.x <= column < patch.x + patch.width
  }

  function PatchPixel(patch: Patch, row: nat, column: nat): Pixel
    requires patch.Valid() && Covers(patch, row, column, patch.height)
  {
    patch.pixels[At(row - patch.y, column - patch.x, patch.width, patch.height)]
  }

  /** The surface shows the patch's rectangle, cut to the surface, and is otherwise as before. */
  ghost predicate ShowsPatch(before: seq<Pixel>, after: seq<Pixel>, width: nat, height: nat, patch: Patch, rows: nat)
    requires patch.Valid() && rows <= patch.height && |before| == |after| == RowStart(height, width)
  {
    forall row: nat, column: nat | row < height && column < width ::
      after[At(row, column, width, height)]
      == if Covers(patch, row, column, rows) then PatchPixel(patch, row, column)
         else before[At(row, column, width, height)]
  }

  lemma {:induction false} RowFits(patch: Patch, row: nat, width: nat, height: nat)
    requires FitsSurface(patch, width, height) && row < patch.height
    ensures RowInRange(patch, row, width, RowStart(height, width))
  {
    hide RowStart;
    RowsBefore(patch.y + row, height, width);
  }

  lemma {:induction false} OverwrittenAt(buffer: seq<Pixel>, offset: nat, pixels: seq<Pixel>, k: nat)
    requires offset + |pixels| <= |buffer| && k < |buffer|
    ensures Overwritten(buffer, offset, pixels)[k]
            == if offset <= k < offset + |pixels| then pixels[k - offset] else buffer[k]
  {
  }

  lemma {:induction false} PixelOfRow(patch: Patch, row: nat, column: nat)
    requires patch.Valid() && row < patch.height && patch.x <= column < patch.x + patch.width
    ensures RowPixels(patch, row)[column - patch.x] == PatchPixel(patch, patch.y + row, column)
  {
    hide RowStart;
    RowsBefore(row, patch.height, patch.width);
  }

  lemma {:induction false} OneRowShown(before: seq<Pixel>, middle: seq<Pixel>, width: nat, height: nat, patch: Patch, rows: nat)
    requires patch.Valid() && FitsSurface(patch, width, height) && 0 < rows <= patch.height
    requires |before| == |middle| == RowStart(height, width) && ShowsPatch(before, middle, width, height, patch, rows - 1)
    requires RowInRange(patch, rows - 1, width, RowStart(height, width))
    ensures ShowsPatch(before, Overwritten(middle, RowOffset(patch, rows - 1, width), RowPixels(patch, rows - 1)),
                       width, height, patch, rows)
  {
    hide RowStart, Overwritten, RowPixels, PatchPixel;
    var target := patch.y + rows - 1;
    var after := Overwritten(middle, RowOffset(patch, rows - 1, width), RowPixels(patch, rows - 1));
    forall row: nat, column: nat | row < height && column < width
      ensures after[At(row, column, width, height)]
              == if Covers(patch, row, column, rows) then PatchPixel(patch, row, column)
                 else before[At(row, column, width, height)]
    {
      StretchOfRow(row, column, target, patch.x, patch.width, width);
      OverwrittenAt(middle, RowOffset(patch, rows - 1, width), RowPixels(patch, rows - 1), At(row, column, width, height));
      if row == target && patch.x <= column < patch.x + patch.width {
        PixelOfRow(patch, rows - 1, column);
      }
    }
  }

  lemma {:induction false} NothingShown(before: seq<Pixel>, width: nat, height: nat, patch: Patch)
    requires patch.Valid() && |before| == RowStart(height, width)
    ensures ShowsPatch(before, before, width, height, patch, 0)
  {
  }

  lemma {:induction false} FittingPatchIsShown(before: seq<Pixel>, width: nat, height: nat, patch: Patch, rows: nat)
    requires patch.Valid() && FitsSurface(patch, width, height) && rows <= patch.height
    requires |before| == RowStart(height, width)
    ensures Blit(before, width, patch, rows).Some?
    ensures ShowsPatch(before, Blit(before, width, patch, rows).value, width, height, patch, rows)
  {
    hide ShowsPatch, Overwritten, RowPixels, RowOffset, RowInRange, RowStart;
    if rows == 0 {
      NothingShown(before, width, height, patch);
    } else {
      FittingPatchIsShown(before, width, height, patch, rows - 1);
      RowFits(patch, rows - 1, width, height);
      OneRowShown(before, Blit(before, width, patch, rows - 1).value, width, height, patch, rows);
    }
  }

  // --- When patches are shown ----------------------------------------------------------------------

  ghost predicate IsShown(buffer: seq<Pixel>, width: nat, height: nat, patch: Patch)
    requires |buffer| == RowStart(height, width) && patch.Valid()
  {
    && Blit(buffer, width, patch, patch.height).Some?
    && ShowsPatch(buffer, Blit(buffer, width, patch, patch.height).value, width, height, patch, patch.height)
  }

  /** Every patch with this rectangle is shown, whatever its pixels are. */
  ghost predicate AlwaysShown(buffer: seq<Pixel>, width: nat, height: nat, x: nat, y: nat, w: nat, h: nat)
    requires |buffer| == RowStart(height, width)
  {
    forall pixels: seq<Pixel> | |pixels| == RowStart(h, w) ::
      IsShown(buffer, width, height, Patch(x, y, w, h, pixels))
  }

  function Filled(n: nat, pixel: Pixel): (pixels: seq<Pixel>)
    ensures |pixels| == n && forall k :: 0 <= k < n ==> pixels[k] == pixel
  {
    seq(n, _ => pixel)
  }

  /** The first place outside the surface or the rectangle that the last row of a patch sticking out writes. */
  function MisfitPlace(patch: Patch, width: nat): nat
    requires patch.height > 0
  {
    if patch.x < width < patch.x + patch.width then RowStart(patch.y + patch.height, width)
    else RowOffset(patch, patch.height - 1, width)
  }

  lemma {:induction false} MisfitPlaceIsOutside(patch: Patch, width: nat, height: nat)
    requires patch.width > 0 && patch.height > 0 && !FitsSurface(patch, width, height)
    ensures RowOffset(patch, patch.height - 1, width) <= MisfitPlace(patch, width)
            < RowOffset(patch, patch.height - 1, width) + patch.width
    ensures MisfitPlace(patch, width) >= RowStart(patch.y + patch.height, width)
         || MisfitPlace(patch, width) >= RowStart(height, width)
  {
    NextRow(patch.y + patch.height - 1, width);
    assert patch.y + (patch.height - 1) == patch.y + patch.height - 1;
    hide RowStart;
    if patch.x + patch.width <= width && height < patch.y + patch.height - 1 {
      RowsBefore(height, patch.y + patch.height - 1, width);
    }
  }

  lemma {:induction false} LastRowWrites(buffer: seq<Pixel>, width: nat, patch: Patch, place: nat)
    requires patch.Valid() && patch.height > 0 && Blit(buffer, width, patch, patch.height).Some?
    requires RowOffset(patch, patch.height - 1, width) <= place < RowOffset(patch, patch.height - 1, width) + patch.width
    ensures place < |buffer|
    ensures Blit(buffer, width, patch, patch.height).value[place] in patch.pixels
  {
    hide RowStart, Overwritten, RowOffset;
    var last := patch.height - 1;
    var middle := Blit(buffer, width, patch, last).value;
    OverwrittenAt(middle, RowOffset(patch, last, width), RowPixels(patch, last), place);
    RowsBefore(last, patch.height, patch.width);
  }

  /** A pixel outside the rectangle is overwritten with one of the patch's. */
  lemma {:induction false} MisplacedPixel(buffer: seq<Pixel>, width: nat, height: nat, patch: Patch, place: nat)
    requires |buffer| == RowStart(height, width) && patch.Valid()
    requires RowStart(patch.y + patch.height, width) <= place < |buffer|
    requires Blit(buffer, width, patch, patch.height).Some?
    requires Blit(buffer, width, patch, patch.height).value[place] != buffer[place]
    ensures !IsShown(buffer, width, height, patch)
  {
    hide RowStart, Blit;
    var row, column := PlaceHasRow(place, width, height);
    if row < patch.y + patch.height {
      RowsBefore(row, patch.y + patch.height, width);
    }
    assert At(row, column, width, height) == place;
  }

  lemma {:induction false} MisfitIsNotShown(buffer: seq<Pixel>, width: nat, height: nat, x: nat, y: nat, w: nat, h: nat)
    requires |buffer| == RowStart(height, width) && w > 0 && h > 0
    requires x + w > width || y + h > height
    ensures !AlwaysShown(buffer, width, height, x, y, w, h)
  {
    hide RowStart, ShowsPatch, Blit;
    var place := MisfitPlace(Patch(x, y, w, h, []), width);
    var wrong := if place < |buffer| && buffer[place] == 0 then 1 else 0;
    var patch := Patch(x, y, w, h, Filled(RowStart(h, w), wrong));
    assert place == MisfitPlace(patch, width);
    MisfitPlaceIsOutside(patch, width, height);
    if Blit(buffer, width, patch, h).Some? {
      LastRowWrites(buffer, width, patch, place);
      MisplacedPixel(buffer, width, height, patch, place);
    }
    assert !IsShown(buffer, width, height, patch);
  }

  /** A rectangle is shown, and nothing else changes, for all pixels if and
      only if it lies within the surface. */
  lemma {:induction false} PatchIsShownExactly(buffer: seq<Pixel>, width: nat, height: nat, x: nat, y: nat, w: nat, h: nat)
    requires |buffer| == RowStart(height, width) && w > 0 && h > 0
    ensures AlwaysShown(buffer, width, height, x, y, w, h) <==> x + w <= width && y + h <= height
  {
    hide ShowsPatch, Blit, RowStart;
    if x + w <= width && y + h <= height {
      forall pixels: seq<Pixel> | |pixels| == RowStart(h, w)
        ensures IsShown(buffer, width, height, Patch(x, y, w, h, pixels))
      {
        FittingPatchIsShown(buffer, width, height, Patch(x, y, w, h, pixels), h);
      }
    } else {
      MisfitIsNotShown(buffer, width, height, x, y, w, h);
    }
  }

  // --- The store ---------------------------------------------------------------------------------------

  /** The buffer a publication starts from: a cleared one when the geometry is new. */
  function Canvas(known: Option<GraphicsState>, pixels: seq<Pixel>, state: GraphicsState): (canvas: seq<Pixel>)
    ensures |canvas| == RowStart(state.height, state.width)
  {
    if KeepsBuffer(known, pixels, state) then pixels else Filled(RowStart(state.height, state.width), 0)
  }

  predicate KeepsBuffer(known: Option<GraphicsState>, pixels: seq<Pixel>, state: GraphicsState) {
    !NewGeometry(known, state) && |pixels| == RowStart(state.height, state.width)
  }

  /** A patch is painted over the old pixels as long as size and geometry
      stay the same, and over a blank surface otherwise. */
  lemma {:induction false} CanvasIsKeptExactly(known: Option<GraphicsState>, pixels: seq<Pixel>, state: GraphicsState)
    ensures var canvas := Canvas(known, pixels, state);
      if known.Some? && known.value == state.(version := known.value.version) && |pixels| == state.height * state.width then
        canvas == pixels
      else |canvas| == state.height * state.width && forall k :: 0 <= k < |canvas| ==> canvas[k] == 0
  {
    hide Filled;
  }

  /** The rows before the first that does not fit have been written. */
  ghost predicate StoppedWith(start: seq<Pixel>, width: nat, patch: Patch, pixels: seq<Pixel>)
    requires patch.Valid()
  {
    exists rows: nat | rows < patch.height ::
      Blit(start, width, patch, rows) == Some(pixels) && !RowInRange(patch, rows, width, |start|)
  }

  predicate NewGeometry(known: Option<GraphicsState>, state: GraphicsState) {
    || known.None?
    || known.value.width != state.width || known.value.height != state.height
    || known.value.geometryVersion != state.geometryVersion
  }

  class GraphicsSurfaceStore {
    var state: Option<GraphicsState>
    var pixels: array<Pixel>

    constructor ()
      ensures state.None? && pixels.Length == 0 && fresh(pixels)
    {
      state := None;
      pixels := new Pixel[0];
    }

    /** Copies one row; fails like a typed array when it reaches past the end. */
    method SetRow(source: seq<Pixel>, offset: nat) returns (done: bool)
      modifies pixels
      ensures done <==> offset + |source| <= pixels.Length
      ensures done ==> pixels[..] == Overwritten(old(pixels[..]), offset, source)
      ensures !done ==> pixels[..] == old(pixels[..])
    {
      if offset + |source| > pixels.Length {
        return false;
      }
      for k := 0 to |source|
        invariant forall i :: 0 <= i < k ==> pixels[offset + i] == source[i]
        invariant forall i :: 0 <= i < pixels.Length && !(offset <= i < offset + k) ==> pixels[i] == old(pixels[i])
      {
        pixels[offset + k] := source[k];
      }
      done := true;
    }

    /** Writes the patch in place. A patch that reaches past the buffer throws:
        the snapshot stays, but its pixels keep the rows that fitted. */
    method Publish(next: GraphicsState, patch: Option<Patch>) returns (published: Result<bool>)
      requires patch.Some? ==> patch.value.Valid()
      modifies this, pixels
      ensures var canvas := Canvas(old(state), old(pixels[..]), next);
        var painted := if patch.Some? then Blit(canvas, next.width, patch.value, patch.value.height) else Some(canvas);
        && (published.Ok? <==> painted.Some?)
        && (published.Ok? && published.value ==> state == Some(next) && pixels[..] == painted.value)
        && (published.Ok? ==>
              (published.value <==> NewGeometry(old(state), next) || patch.Some? || old(state).value.version != next.version))
        && (published.Err? || !published.value ==> state == old(state) && pixels == old(pixels))
        && (published.Ok? && !published.value ==> pixels[..] == old(pixels[..]))
        && (published.Err? ==>
              if KeepsBuffer(old(state), old(pixels[..]), next) then
                StoppedWith(canvas, next.width, patch.value, pixels[..])
              else pixels[..] == old(pixels[..]))
    {
      hide Overwritten, RowPixels, RowOffset, Filled;
      var canvas := pixels;
      var known := state;
      if NewGeometry(known, next) || pixels.Length != RowStart(next.height, next.width) {
        canvas := Blank(RowStart(next.height, next.width));
      }
      var before := pixels;
      pixels := canvas;
      ghost var start := pixels[..];
      if patch.Some? {
        var p := patch.value;
        for row := 0 to p.height
          invariant pixels == canvas && state == known
          invariant canvas != before ==> before[..] == old(pixels[..])
          invariant Blit(start, next.width, p, row) == Some(pixels[..])
        {
          var done := SetRow(RowPixels(p, row), RowOffset(p, row, next.width));
          if !done {
            pixels := before;
            BlitStops(start, next.width, p, row + 1, p.height);
            return Err("offset is out of bounds");
          }
        }
      }
      if !NewGeometry(known, next) && patch.None? && known.value.version == next.version {
        pixels := before;
        return Ok(false);
      }
      state := Some(next);
      published := Ok(true);
    }
  }

  method Blank(length: nat) returns (pixels: array<Pixel>)
    ensures fresh(pixels) && pixels[..] == Filled(length, 0)
  {
    pixels := new Pixel[length](_ => 0);
  }

  lemma {:induction false} BlitStops(buffer: seq<Pixel>, width: nat, patch: Patch, k: nat, n: nat)
    requires patch.Valid() && k <= n <= patch.height && Blit(buffer, width, patch, k).None?
    ensures Blit(buffer, width, patch, n).None?
    decreases n
  {
    if k < n {
      BlitStops(buffer, width, patch, k, n - 1);
    }
  }
}
