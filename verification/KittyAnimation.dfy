// Compositing the frames of a GIF on one flat canvas, with disposal (section 23 of the
// GIF89a specification).
module KittyAnimation {
  import opened Text
  import opened Utf8
  import opened KittyPixels

  const MAX_CANVAS: nat := 16_777_216
  const MAX_FRAMES: nat := 128

  datatype Dispose = Any | Keep | Background | Previous

  // A decoded frame: its rectangle, its delay in hundredths, and RGBA bytes row by row.
  datatype Frame = Frame(left: nat, top: nat, width: nat, height: nat, delay: nat,
                         dispose: Dispose, buffer: seq<byte>)

  // What the decoder gives: the screen, the frames, and whether it fails after them.
  datatype Gif = Gif(width: nat, height: nat, frames: seq<Frame>, broken: bool)

  datatype Pixel = Pixel(r: byte, g: byte, b: byte, a: byte)

  const CLEAR := Pixel(0, 0, 0, 0)

  type Raster = seq<seq<Pixel>>

  datatype Shot = Shot(image: Pixels, delayMs: nat)

  // ----- the flat canvas and its rows -----

  function Offset(width: nat, x: nat, y: nat): nat {
    (y * width + x) * 4
  }

  function PixelAt(bytes: seq<byte>, at: nat): Pixel
    requires at + 4 <= |bytes|
  {
    Pixel(bytes[at], bytes[at + 1], bytes[at + 2], bytes[at + 3])
  }

  lemma {:induction false} OffsetInside(width: nat, height: nat, x: nat, y: nat)
    requires x < width && y < height
    ensures Offset(width, x, y) + 4 <= width * height * 4
  {
    MulMono(y + 1, height, width);
    assert (y + 1) * width == y * width + width;
    assert width * height == height * width;
  }

  // Different pixels have different places.
  lemma {:induction false} OffsetsApart(width: nat, x: nat, y: nat, x': nat, y': nat)
    requires x < width && x' < width && (x != x' || y != y')
    ensures Offset(width, x, y) + 4 <= Offset(width, x', y') || Offset(width, x', y') + 4 <= Offset(width, x, y)
  {
    if y < y' {
      MulMono(y + 1, y', width);
      assert (y + 1) * width == y * width + width;
    } else if y' < y {
      MulMono(y' + 1, y, width);
      assert (y' + 1) * width == y' * width + width;
    }
  }

  predicate Fits(bytes: seq<byte>, width: nat, height: nat) {
    |bytes| == width * height * 4
  }

  function Cell(bytes: seq<byte>, width: nat, height: nat, x: nat, y: nat): Pixel
    requires Fits(bytes, width, height) && x < width && y < height
  {
    OffsetInside(width, height, x, y);
    PixelAt(bytes, Offset(width, x, y))
  }

  function View(bytes: seq<byte>, width: nat, height: nat): Raster
    requires Fits(bytes, width, height)
  {
    seq(height, y requires 0 <= y < height => seq(width, x requires 0 <= x < width => Cell(bytes, width, height, x, y)))
  }

  predicate Sized(r: Raster, width: nat, height: nat) {
    |r| == height && forall y :: 0 <= y < height ==> |r[y]| == width
  }

  function Channel(p: Pixel, k: nat): byte
    requires k < 4
  {
    if k == 0 then p.r else if k == 1 then p.g else if k == 2 then p.b else p.a
  }

  lemma {:induction false} RowAndCell(i: nat, width: nat, height: nat)
    requires i < width * height * 4
    ensures width > 0 && i / 4 / width < height && i / 4 % width < width
  {
    AreaPositive(width, height);
    assert height * width == width * height;
    DivBounds(i / 4, width);
    if i / 4 / width >= height {
      MulMono(height, i / 4 / width, width);
    }
  }

  function Flat(r: Raster, width: nat, height: nat): (bytes: seq<byte>)
    requires Sized(r, width, height)
    ensures |bytes| == width * height * 4
  {
    seq(width * height * 4, i requires 0 <= i < width * height * 4 =>
      RowAndCell(i, width, height);
      Channel(r[i / 4 / width][i / 4 % width], i % 4))
  }

  lemma {:induction false} CellByte(bytes: seq<byte>, width: nat, height: nat, x: nat, y: nat, k: nat)
    requires Fits(bytes, width, height) && x < width && y < height && k < 4
    ensures Offset(width, x, y) + k < |bytes|
    ensures Channel(Cell(bytes, width, height, x, y), k) == bytes[Offset(width, x, y) + k]
  {
    hide Offset;
    OffsetInside(width, height, x, y);
  }

  // Byte `i` of a flat picture is channel `k` of the pixel at `x`, `y`.
  lemma {:induction false} FlatAt(r: Raster, width: nat, height: nat, i: nat) returns (x: nat, y: nat, k: nat)
    requires Sized(r, width, height) && i < width * height * 4
    ensures x < width && y < height && k < 4 && Offset(width, x, y) + k == i
    ensures Flat(r, width, height)[i] == Channel(r[y][x], k)
  {
    hide Channel, Offset;
    RowAndCell(i, width, height);
    FlatPlace(i, width);
    x, y, k := i / 4 % width, i / 4 / width, i % 4;
  }

  lemma {:induction false} ViewAt(bytes: seq<byte>, width: nat, height: nat, x: nat, y: nat)
    requires Fits(bytes, width, height) && x < width && y < height
    ensures Sized(View(bytes, width, height), width, height)
    ensures View(bytes, width, height)[y][x] == Cell(bytes, width, height, x, y)
  {
    hide Cell, Fits;
  }

  lemma {:induction false} ViewSized(bytes: seq<byte>, width: nat, height: nat)
    requires Fits(bytes, width, height)
    ensures Sized(View(bytes, width, height), width, height)
  {
    hide Cell, Fits;
  }

  lemma {:induction false} FlatViewAt(bytes: seq<byte>, width: nat, height: nat, i: nat)
    requires Fits(bytes, width, height) && i < |bytes|
    ensures Sized(View(bytes, width, height), width, height)
    ensures i < |Flat(View(bytes, width, height), width, height)|
    ensures Flat(View(bytes, width, height), width, height)[i] == bytes[i]
  {
    ViewSized(bytes, width, height);
    hide Cell, Channel, View, Flat, Sized, Offset;
    var x, y, k := FlatAt(View(bytes, width, height), width, height, i);
    ViewAt(bytes, width, height, x, y);
    CellByte(bytes, width, height, x, y, k);
  }

  lemma {:induction false} FlatView(bytes: seq<byte>, width: nat, height: nat)
    requires Fits(bytes, width, height)
    ensures Sized(View(bytes, width, height), width, height)
    ensures Flat(View(bytes, width, height), width, height) == bytes
  {
    ViewSized(bytes, width, height);
    var flat := Flat(View(bytes, width, height), width, height);
    assert |flat| == |bytes|;
    hide View, Flat, Sized, Fits;
    forall i | 0 <= i < |bytes| ensures flat[i] == bytes[i] {
      FlatViewAt(bytes, width, height, i);
    }
  }

  lemma {:induction false} FlatPlace(i: nat, width: nat)
    requires width > 0
    ensures Offset(width, i / 4 % width, i / 4 / width) + i % 4 == i
  {
    assert i / 4 == i / 4 / width * width + i / 4 % width;
  }

  // ----- the two-dimensional reading -----

  predicate InRect(f: Frame, x: nat, y: nat) {
    f.left <= x < f.left + f.width && f.top <= y < f.top + f.height
  }

  // The frame's own pixel over canvas position (x, y).
  function Source(f: Frame, x: nat, y: nat): Pixel
    requires InRect(f, x, y)
  {
    var at := Offset(f.width, x - f.left, y - f.top);
    if at + 4 <= |f.buffer| then PixelAt(f.buffer, at) else CLEAR
  }

  predicate Paints(f: Frame, x: nat, y: nat) {
    InRect(f, x, y) && Source(f, x, y).a != 0
  }

  function Painted(r: Raster, f: Frame): Raster {
    seq(|r|, y requires 0 <= y < |r| => seq(|r[y]|, x requires 0 <= x < |r[y]| =>
      if Paints(f, x, y) then Source(f, x, y) else r[y][x]))
  }

  function Cleared(r: Raster, f: Frame): Raster {
    seq(|r|, y requires 0 <= y < |r| => seq(|r[y]|, x requires 0 <= x < |r[y]| =>
      if InRect(f, x, y) then CLEAR else r[y][x]))
  }

  // The canvas the next frame starts from.
  function NextCanvas(r: Raster, f: Frame): Raster {
    match f.dispose
    case Background => Cleared(Painted(r, f), f)
    case Previous => r
    case _ => Painted(r, f)
  }

  function Blank(width: nat, height: nat): Raster {
    seq(height, _ => seq(width, _ => CLEAR))
  }

  // The canvas after the first `k` frames and their disposals.
  function CanvasAfter(gif: Gif, k: nat): Raster
    requires k <= |gif.frames|
  {
    if k == 0 then Blank(gif.width, gif.height) else NextCanvas(CanvasAfter(gif, k - 1), gif.frames[k - 1])
  }

  // What frame `k` shows.
  function ShownAt(gif: Gif, k: nat): Raster
    requires k < |gif.frames|
  {
    Painted(CanvasAfter(gif, k), gif.frames[k])
  }

  lemma {:induction false} CanvasSized(gif: Gif, k: nat)
    requires k <= |gif.frames|
    ensures Sized(CanvasAfter(gif, k), gif.width, gif.height)
    ensures k < |gif.frames| ==> Sized(ShownAt(gif, k), gif.width, gif.height)
  {
    hide Paints, Source, InRect;
    if k > 0 {
      CanvasSized(gif, k - 1);
    }
  }

  // One pixel of the canvas without any canvas: look back for the last frame that left a mark
  // there. A frame disposed to the previous canvas leaves none, one disposed to the
  // background clears its rectangle, the others leave what they paint.
  function LookBack(gif: Gif, k: nat, x: nat, y: nat): Pixel
    requires k <= |gif.frames|
  {
    if k == 0 then CLEAR else
      var f := gif.frames[k - 1];
      if f.dispose == Background && InRect(f, x, y) then CLEAR
      else if (f.dispose == Any || f.dispose == Keep) && Paints(f, x, y) then Source(f, x, y)
      else LookBack(gif, k - 1, x, y)
  }

  // Folding frames over a canvas shows, pixel by pixel, what looking back finds.
  lemma {:induction false} CanvasIsLookBack(gif: Gif, k: nat, x: nat, y: nat)
    requires k <= |gif.frames| && x < gif.width && y < gif.height
    ensures Sized(CanvasAfter(gif, k), gif.width, gif.height)
    ensures CanvasAfter(gif, k)[y][x] == LookBack(gif, k, x, y)
    ensures k < |gif.frames| ==>
              && Sized(ShownAt(gif, k), gif.width, gif.height)
              && ShownAt(gif, k)[y][x]
                 == if Paints(gif.frames[k], x, y) then Source(gif.frames[k], x, y) else LookBack(gif, k, x, y)
  {
    hide Source;
    CanvasSized(gif, k);
    if k > 0 {
      CanvasIsLookBack(gif, k - 1, x, y);
    }
  }

  // Disposal to the previous canvas restores it exactly; to the background it clears exactly
  // the frame's rectangle.
  lemma {:induction false} DisposalIsExact(gif: Gif, k: nat, x: nat, y: nat)
    requires k < |gif.frames| && x < gif.width && y < gif.height
    ensures Sized(CanvasAfter(gif, k + 1), gif.width, gif.height) && Sized(ShownAt(gif, k), gif.width, gif.height)
    ensures gif.frames[k].dispose == Previous ==> CanvasAfter(gif, k + 1) == CanvasAfter(gif, k)
    ensures gif.frames[k].dispose == Background ==>
              CanvasAfter(gif, k + 1)[y][x] == if InRect(gif.frames[k], x, y) then CLEAR else ShownAt(gif, k)[y][x]
  {
    hide Source, Paints;
    CanvasSized(gif, k);
    CanvasSized(gif, k + 1);
  }

  predicate FrameInside(gif: Gif, f: Frame) {
    f.left + f.width <= gif.width && f.top + f.height <= gif.height
  }

  predicate BufferFull(f: Frame) {
    f.width * f.height * 4 <= |f.buffer|
  }

  // Whether the `k`-th frame is accepted: not too many, not too much, inside, complete.
  predicate FrameOk(gif: Gif, k: nat)
    requires k < |gif.frames|
  {
    k < MAX_FRAMES && gif.width * gif.height * (k + 1) <= MAX_CANVAS
    && FrameInside(gif, gif.frames[k]) && BufferFull(gif.frames[k])
  }

  function DelayMs(delay: nat): nat {
    Max(delay * 10, 10)
  }

  function ShotOf(gif: Gif, k: nat): Shot
    requires 0 < gif.width && 0 < gif.height && k < |gif.frames|
  {
    CanvasSized(gif, k);
    Shot(Downscaled(Pixels(gif.width, gif.height, 4, Flat(ShownAt(gif, k), gif.width, gif.height))),
         DelayMs(gif.frames[k].delay))
  }

  function Shots(gif: Gif, k: nat): seq<Shot>
    requires 0 < gif.width && 0 < gif.height && k <= |gif.frames|
  {
    seq(k, i requires 0 <= i < k => ShotOf(gif, i))
  }

  function PrepareSpec(gif: Gif): Option<seq<Shot>> {
    AreaPositive(gif.width, gif.height);
    if !WithinCap(gif.width, gif.height, MAX_CANVAS) then None
    else if gif.broken || exists k :: 0 <= k < |gif.frames| && !FrameOk(gif, k) then None
    else if |gif.frames| <= 1 then None
    else Some(Shots(gif, |gif.frames|))
  }

  // Never more than 16,777,216 stored pixels before downscaling.
  lemma {:induction false} StoredPixelsBounded(gif: Gif)
    requires PrepareSpec(gif).Some?
    ensures |PrepareSpec(gif).value| * (gif.width * gif.height) <= MAX_CANVAS && |PrepareSpec(gif).value| <= MAX_FRAMES
  {
    hide ShotOf;
    var last := |gif.frames| - 1;
    assert FrameOk(gif, last);
    assert gif.width * gif.height * |gif.frames| == |gif.frames| * (gif.width * gif.height);
  }

  // ----- the loops on the flat canvas -----

  // Writing one pixel of the flat canvas writes that pixel of the picture.
  lemma {:induction false} WritePixel(before: seq<byte>, after: seq<byte>, width: nat, height: nat, x: nat, y: nat, p: Pixel)
    requires Fits(before, width, height) && |after| == |before| && x < width && y < height
    requires var at := Offset(width, x, y);
             && at + 4 <= |after| && PixelAt(after, at) == p
             && forall k :: 0 <= k < |after| && !(at <= k < at + 4) ==> after[k] == before[k]
    ensures forall X, Y :: 0 <= X < width && 0 <= Y < height ==>
              Cell(after, width, height, X, Y) == if X == x && Y == y then p else Cell(before, width, height, X, Y)
  {
    hide Offset;
    forall X, Y | 0 <= X < width && 0 <= Y < height
      ensures Cell(after, width, height, X, Y) == if X == x && Y == y then p else Cell(before, width, height, X, Y)
    {
      OffsetInside(width, height, X, Y);
      if X != x || Y != y {
        OffsetsApart(width, x, y, X, Y);
      }
    }
  }

  // The picture after painting the rows above `y` and the cells of row `y` before `x`.
  predicate PaintedTo(before: seq<byte>, after: seq<byte>, width: nat, height: nat, f: Frame, x: nat, y: nat)
    requires Fits(before, width, height) && Fits(after, width, height)
  {
    forall X, Y :: 0 <= X < width && 0 <= Y < height ==>
      Cell(after, width, height, X, Y)
      == if (Y < f.top + y || (Y == f.top + y && X < f.left + x)) && Paints(f, X, Y) then Source(f, X, Y)
         else Cell(before, width, height, X, Y)
  }

  lemma {:induction false} PaintStep(before: seq<byte>, mid: seq<byte>, after: seq<byte>, width: nat, height: nat,
                                     f: Frame, x: nat, y: nat)
    requires Fits(before, width, height) && Fits(mid, width, height) && Fits(after, width, height)
    requires x < f.width && y < f.height && f.left + f.width <= width && f.top + f.height <= height
    requires PaintedTo(before, mid, width, height, f, x, y)
    requires var at := Offset(width, f.left + x, f.top + y);
             && at + 4 <= |after|
             && PixelAt(after, at) == (if Paints(f, f.left + x, f.top + y) then Source(f, f.left + x, f.top + y)
                                       else PixelAt(mid, at))
             && forall k :: 0 <= k < |after| && !(at <= k < at + 4) ==> after[k] == mid[k]
    ensures PaintedTo(before, after, width, height, f, x + 1, y)
  {
    hide Offset, Source, PixelAt;
    var at := Offset(width, f.left + x, f.top + y);
    WritePixel(mid, after, width, height, f.left + x, f.top + y, PixelAt(after, at));
    CellIs(mid, width, height, f.left + x, f.top + y);
  }

  lemma {:induction false} CellIs(bytes: seq<byte>, width: nat, height: nat, x: nat, y: nat)
    requires Fits(bytes, width, height) && x < width && y < height
    ensures Offset(width, x, y) + 4 <= |bytes| && Cell(bytes, width, height, x, y) == PixelAt(bytes, Offset(width, x, y))
  {
    OffsetInside(width, height, x, y);
  }

  lemma {:induction false} PaintRow(before: seq<byte>, after: seq<byte>, width: nat, height: nat, f: Frame, y: nat)
    requires Fits(before, width, height) && Fits(after, width, height)
    requires PaintedTo(before, after, width, height, f, f.width, y)
    ensures PaintedTo(before, after, width, height, f, 0, y + 1)
  {
    hide Source, Cell, Fits;
  }

  lemma {:induction false} PaintAll(before: seq<byte>, after: seq<byte>, width: nat, height: nat, f: Frame)
    requires Fits(before, width, height) && Fits(after, width, height)
    requires PaintedTo(before, after, width, height, f, 0, f.height)
    ensures View(after, width, height) == Painted(View(before, width, height), f)
  {
    hide Source, Cell, Fits;
    var a, b := View(after, width, height), Painted(View(before, width, height), f);
    forall y | 0 <= y < height ensures a[y] == b[y] {
      forall x | 0 <= x < width ensures a[y][x] == b[y][x] {
      }
    }
  }

  lemma {:induction false} SourceRange(f: Frame, x: nat, y: nat)
    requires x < f.width && y < f.height
    ensures Offset(f.width, x, y) + 4 <= f.width * f.height * 4
    ensures Offset(f.width, x + 1, y) == Offset(f.width, x, y) + 4
    ensures Offset(f.width, f.width, y) == Offset(f.width, 0, y + 1)
  {
    OffsetInside(f.width, f.height, x, y);
    assert (y + 1) * f.width == y * f.width + f.width;
  }

  // Paint a frame over the canvas; fails when the frame's buffer ends too early.
  method PaintFrame(canvas: array<byte>, width: nat, height: nat, f: Frame) returns (ok: bool)
    requires canvas.Length == width * height * 4
    requires f.left + f.width <= width && f.top + f.height <= height
    modifies canvas
    ensures ok <==> BufferFull(f)
    ensures ok ==> View(canvas[..], width, height) == Painted(View(old(canvas[..]), width, height), f)
  {
    hide Offset, Paints, Source, Cell, PaintedTo, View, Painted;
    ghost var before := canvas[..];
    PaintNothing(before, width, height, f);
    EmptyRange(f);
    var y := 0;
    while y < f.height
      invariant y <= f.height
      invariant Offset(f.width, 0, y) <= |f.buffer| || f.width == 0
      invariant PaintedTo(before, canvas[..], width, height, f, 0, y)
    {
      var x := 0;
      while x < f.width
        invariant x <= f.width
        invariant Offset(f.width, x, y) <= |f.buffer| || f.width == 0
        invariant PaintedTo(before, canvas[..], width, height, f, x, y)
      {
        SourceRange(f, x, y);
        OffsetInside(width, height, f.left + x, f.top + y);
        var src := Offset(f.width, x, y);
        var dst := Offset(width, f.left + x, f.top + y);
        if src + 4 > |f.buffer| {
          return false;
        }
        ghost var mid := canvas[..];
        SourceIs(f, x, y);
        if f.buffer[src + 3] != 0 {
          canvas[dst], canvas[dst + 1], canvas[dst + 2], canvas[dst + 3] :=
            f.buffer[src], f.buffer[src + 1], f.buffer[src + 2], f.buffer[src + 3];
        }
        PaintStep(before, mid, canvas[..], width, height, f, x, y);
        x := x + 1;
      }
      RowEnd(f, y);
      PaintRow(before, canvas[..], width, height, f, y);
      y := y + 1;
    }
    RangeEnd(f);
    PaintAll(before, canvas[..], width, height, f);
    return true;
  }

  lemma {:induction false} PaintNothing(before: seq<byte>, width: nat, height: nat, f: Frame)
    requires Fits(before, width, height)
    ensures PaintedTo(before, before, width, height, f, 0, 0)
  {
    hide Source, Cell;
  }

  lemma {:induction false} EmptyRange(f: Frame)
    ensures Offset(f.width, 0, 0) == 0
    ensures f.width == 0 || f.height == 0 ==> BufferFull(f)
  {
  }

  lemma {:induction false} RowEnd(f: Frame, y: nat)
    ensures Offset(f.width, f.width, y) == Offset(f.width, 0, y + 1)
  {
    assert (y + 1) * f.width == y * f.width + f.width;
  }

  lemma {:induction false} RangeEnd(f: Frame)
    requires Offset(f.width, 0, f.height) <= |f.buffer| || f.width == 0
    ensures BufferFull(f)
  {
    assert f.height * f.width == f.width * f.height;
  }

  lemma {:induction false} SourceIs(f: Frame, x: nat, y: nat)
    requires x < f.width && y < f.height && Offset(f.width, x, y) + 4 <= |f.buffer|
    ensures Source(f, f.left + x, f.top + y) == PixelAt(f.buffer, Offset(f.width, x, y))
    ensures Paints(f, f.left + x, f.top + y) <==> f.buffer[Offset(f.width, x, y) + 3] != 0
  {
    hide Offset;
  }

  // ----- disposal to the background -----

  predicate ClearedTo(before: seq<byte>, after: seq<byte>, width: nat, height: nat, f: Frame, y: nat)
    requires Fits(before, width, height) && Fits(after, width, height)
  {
    forall X, Y :: 0 <= X < width && 0 <= Y < height ==>
      Cell(after, width, height, X, Y)
      == if Y < f.top + y && InRect(f, X, Y) then CLEAR else Cell(before, width, height, X, Y)
  }

  lemma {:induction false} RowRange(width: nat, left: nat, right: nat, y: nat, X: nat, Y: nat)
    requires left <= right <= width && X < width
    ensures var at, start, end := Offset(width, X, Y), Offset(width, left, y), Offset(width, right, y);
            if Y == y && left <= X < right then start <= at && at + 4 <= end
            else at + 4 <= start || end <= at
  {
    if y < Y {
      MulMono(y + 1, Y, width);
      assert (y + 1) * width == y * width + width;
    } else if Y < y {
      MulMono(Y + 1, y, width);
      assert (Y + 1) * width == Y * width + width;
    }
  }

  lemma {:induction false} ClearRow(before: seq<byte>, mid: seq<byte>, after: seq<byte>, width: nat, height: nat, f: Frame, y: nat)
    requires Fits(before, width, height) && Fits(mid, width, height) && Fits(after, width, height)
    requires y < f.height && f.left + f.width <= width && f.top + f.height <= height
    requires ClearedTo(before, mid, width, height, f, y)
    requires var start := Offset(width, f.left, f.top + y);
             forall k :: 0 <= k < |after| ==> after[k] == if start <= k < start + f.width * 4 then 0 else mid[k]
    ensures ClearedTo(before, after, width, height, f, y + 1)
  {
    hide Offset;
    RowWidth(width, f.left, f.width, f.top + y);
    forall X, Y | 0 <= X < width && 0 <= Y < height
      ensures Cell(after, width, height, X, Y)
           == if Y < f.top + y + 1 && InRect(f, X, Y) then CLEAR else Cell(before, width, height, X, Y)
    {
      OffsetInside(width, height, X, Y);
      RowRange(width, f.left, f.left + f.width, f.top + y, X, Y);
    }
  }

  lemma {:induction false} RowWidth(width: nat, left: nat, count: nat, y: nat)
    ensures Offset(width, left + count, y) == Offset(width, left, y) + count * 4
  {
  }

  lemma {:induction false} ClearAll(before: seq<byte>, after: seq<byte>, width: nat, height: nat, f: Frame)
    requires Fits(before, width, height) && Fits(after, width, height)
    requires ClearedTo(before, after, width, height, f, f.height)
    ensures View(after, width, height) == Cleared(View(before, width, height), f)
  {
    hide Cell, Fits;
    var a, b := View(after, width, height), Cleared(View(before, width, height), f);
    forall y | 0 <= y < height ensures a[y] == b[y] {
      forall x | 0 <= x < width ensures a[y][x] == b[y][x] {
      }
    }
  }

  lemma {:induction false} RowInside(width: nat, height: nat, f: Frame, y: nat)
    requires y < f.height && f.left + f.width <= width && f.top + f.height <= height
    ensures Offset(width, f.left, f.top + y) + f.width * 4 <= width * height * 4
  {
    RowWidth(width, f.left, f.width, f.top + y);
    MulMono(f.top + y + 1, height, width);
    assert (f.top + y + 1) * width == (f.top + y) * width + width;
    assert width * height == height * width;
  }

  method ClearFrame(canvas: array<byte>, width: nat, height: nat, f: Frame)
    requires canvas.Length == width * height * 4
    requires f.left + f.width <= width && f.top + f.height <= height
    modifies canvas
    ensures View(canvas[..], width, height) == Cleared(View(old(canvas[..]), width, height), f)
  {
    hide Offset, InRect, Cell, ClearedTo, View, Cleared;
    ghost var before := canvas[..];
    assert ClearedTo(before, before, width, height, f, 0) by { ClearNothing(before, width, height, f); }
    var y := 0;
    while y < f.height
      invariant y <= f.height
      invariant ClearedTo(before, canvas[..], width, height, f, y)
    {
      ghost var mid := canvas[..];
      RowInside(width, height, f, y);
      var start := Offset(width, f.left, f.top + y);
      forall k | start <= k < start + f.width * 4 {
        canvas[k] := 0;
      }
      ClearRow(before, mid, canvas[..], width, height, f, y);
      y := y + 1;
    }
    ClearAll(before, canvas[..], width, height, f);
  }

  lemma {:induction false} ClearNothing(before: seq<byte>, width: nat, height: nat, f: Frame)
    requires Fits(before, width, height)
    ensures ClearedTo(before, before, width, height, f, 0)
  {
    hide Cell;
  }

  // ----- the whole animation -----

  lemma {:induction false} BlankView(bytes: seq<byte>, width: nat, height: nat)
    requires Fits(bytes, width, height) && forall k :: 0 <= k < |bytes| ==> bytes[k] == 0
    ensures View(bytes, width, height) == Blank(width, height)
  {
    hide Offset;
    var a, b := View(bytes, width, height), Blank(width, height);
    forall y | 0 <= y < height ensures a[y] == b[y] {
      forall x | 0 <= x < width ensures a[y][x] == b[y][x] {
        OffsetInside(width, height, x, y);
      }
    }
  }

  lemma {:induction false} ImageOk(width: nat, height: nat, data: seq<byte>)
    requires WithinCap(width, height, MAX_CANVAS) && |data| == width * height * 4
    ensures Encoded(Pixels(width, height, 4, data)) == Some(Downscaled(Pixels(width, height, 4, data)))
  {
    AreaPositive(width, height);
  }

  method PrepareAnimation(gif: Gif) returns (r: Option<seq<Shot>>)
    ensures r == PrepareSpec(gif)
  {
    hide View, Painted, Cleared, Blank, Flat, Downscaled, BufferFull, Encoded, Sized;
    var width, height := gif.width, gif.height;
    AreaPositive(width, height);
    if !WithinCap(width, height, MAX_CANVAS) {
      return None;
    }
    var canvas := new byte[width * height * 4](_ => 0);
    BlankView(canvas[..], width, height);
    var shots: seq<Shot> := [];
    var k := 0;
    while k < |gif.frames|
      invariant k <= |gif.frames| && canvas.Length == width * height * 4
      invariant k <= MAX_FRAMES && forall j :: 0 <= j < k ==> FrameOk(gif, j)
      invariant View(canvas[..], width, height) == CanvasAfter(gif, k)
      invariant shots == Shots(gif, k)
    {
      var f := gif.frames[k];
      if k == MAX_FRAMES || width * height * (k + 1) > MAX_CANVAS {
        assert !FrameOk(gif, k);
        return None;
      }
      if f.left + f.width > width || f.top + f.height > height {
        assert !FrameOk(gif, k);
        return None;
      }
      var previous := canvas[..];
      var ok := PaintFrame(canvas, width, height, f);
      if !ok {
        assert !FrameOk(gif, k);
        return None;
      }
      assert FrameOk(gif, k);
      FlatView(canvas[..], width, height);
      ImageOk(width, height, canvas[..]);
      var image := Encoded(Pixels(width, height, 4, canvas[..]));
      shots := shots + [Shot(image.value, DelayMs(f.delay))];
      assert shots == Shots(gif, k + 1);
      match f.dispose {
        case Background => ClearFrame(canvas, width, height, f);
        case Previous =>
          forall i | 0 <= i < canvas.Length {
            canvas[i] := previous[i];
          }
          assert canvas[..] == previous;
        case _ =>
      }
      k := k + 1;
    }
    if gif.broken || |shots| <= 1 {
      return None;
    }
    return Some(shots);
  }
}
