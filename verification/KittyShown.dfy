// The animation byte by byte: which frame's byte each stored picture shows at each place, and which
// animations are stored at all.
module KittyShown {
  import opened Utf8
  import opened KittyPixels
  import opened KittyAnimation

  predicate Covers(f: Frame, x: nat, y: nat) {
    f.left <= x && x - f.left < f.width && f.top <= y && y - f.top < f.height
  }

  // Byte `c` of the frame's pixel over the place.
  function ByteOf(f: Frame, x: nat, y: nat, c: nat): byte
    requires Covers(f, x, y) && c < 4
  {
    var at := 4 * ((y - f.top) * f.width + (x - f.left)) + c;
    if at < |f.buffer| then f.buffer[at] else 0
  }

  // The frame has a pixel there that is not fully transparent.
  predicate Inks(f: Frame, x: nat, y: nat) {
    Covers(f, x, y) && ByteOf(f, x, y, 3) > 0
  }

  // Frame `j` decides what the picture of frame `k` shows at the place: the frame itself where it has
  // ink; an earlier one where it left ink, or cleared what it covered.
  predicate Decides(gif: Gif, k: nat, x: nat, y: nat, j: nat)
    requires k < |gif.frames|
  {
    && j <= k
    && var f := gif.frames[j];
       if j == k then Inks(f, x, y)
       else match f.dispose
            case Any | Keep => Inks(f, x, y)
            case Background => Covers(f, x, y)
            case Previous => false
  }

  // The last of the first `n` frames that decides it.
  predicate LastDecides(gif: Gif, k: nat, x: nat, y: nat, n: nat, j: nat)
    requires k < |gif.frames|
  {
    j < n && Decides(gif, k, x, y, j) && forall i :: j < i < n ==> !Decides(gif, k, x, y, i)
  }

  predicate NoneDecides(gif: Gif, k: nat, x: nat, y: nat, n: nat)
    requires k < |gif.frames|
  {
    forall i :: 0 <= i < n ==> !Decides(gif, k, x, y, i)
  }

  // What it leaves there.
  function Left(gif: Gif, k: nat, x: nat, y: nat, j: nat, c: nat): byte
    requires k < |gif.frames| && Decides(gif, k, x, y, j) && c < 4
  {
    if j < k && gif.frames[j].dispose == Background then 0 else ByteOf(gif.frames[j], x, y, c)
  }

  lemma {:induction false} SourceBytes(f: Frame, x: nat, y: nat, c: nat)
    requires BufferFull(f) && Covers(f, x, y) && c < 4
    ensures InRect(f, x, y) && Channel(Source(f, x, y), c) == ByteOf(f, x, y, c)
  {
    OffsetInside(f.width, f.height, x - f.left, y - f.top);
    var at := Offset(f.width, x - f.left, y - f.top);
    assert at == 4 * ((y - f.top) * f.width + (x - f.left));
    assert Source(f, x, y) == PixelAt(f.buffer, at);
    hide Offset, Source, BufferFull;
  }

  lemma {:induction false} InksIsPaints(f: Frame, x: nat, y: nat)
    requires BufferFull(f)
    ensures Covers(f, x, y) <==> InRect(f, x, y)
    ensures Inks(f, x, y) <==> Paints(f, x, y)
    ensures Covers(f, x, y) ==> forall c :: 0 <= c < 4 ==> Channel(Source(f, x, y), c) == ByteOf(f, x, y, c)
  {
    hide Source, BufferFull, ByteOf;
    if Covers(f, x, y) {
      forall c | 0 <= c < 4 ensures Channel(Source(f, x, y), c) == ByteOf(f, x, y, c) {
        SourceBytes(f, x, y, c);
      }
      assert Channel(Source(f, x, y), 3) == Source(f, x, y).a;
    }
  }

  // What an earlier frame makes of the pixel that looking back from it finds.
  lemma {:induction false} LookBackStep(gif: Gif, k: nat, n: nat, x: nat, y: nat, c: nat)
    requires 0 < n <= k < |gif.frames| && c < 4 && BufferFull(gif.frames[n - 1])
    ensures Channel(LookBack(gif, n, x, y), c) ==
            if Decides(gif, k, x, y, n - 1) then Left(gif, k, x, y, n - 1, c) else Channel(LookBack(gif, n - 1, x, y), c)
  {
    InksIsPaints(gif.frames[n - 1], x, y);
    hide Paints, Covers, InRect, Source, ByteOf, BufferFull;
    assert Channel(CLEAR, c) == 0;
    hide Channel;
  }

  // Which byte of the first `n` frames looking back finds.
  lemma {:induction false} LookBackFinds(gif: Gif, k: nat, n: nat, x: nat, y: nat, c: nat, j: nat)
    requires n <= k < |gif.frames| && c < 4 && forall i :: 0 <= i < |gif.frames| ==> BufferFull(gif.frames[i])
    ensures NoneDecides(gif, k, x, y, n) ==> Channel(LookBack(gif, n, x, y), c) == 0
    ensures LastDecides(gif, k, x, y, n, j) ==> Channel(LookBack(gif, n, x, y), c) == Left(gif, k, x, y, j, c)
  {
    if n == 0 {
      assert LookBack(gif, 0, x, y) == CLEAR;
    } else {
      LookBackStep(gif, k, n, x, y, c);
      LookBackFinds(gif, k, n - 1, x, y, c, j);
      hide Decides, BufferFull, LookBack, Channel, Left;
      assert LastDecides(gif, k, x, y, n, j) && j < n - 1 ==> LastDecides(gif, k, x, y, n - 1, j);
      assert NoneDecides(gif, k, x, y, n) ==> NoneDecides(gif, k, x, y, n - 1);
    }
  }

  lemma {:induction false} OneDecides(gif: Gif, k: nat, x: nat, y: nat)
    requires k < |gif.frames| && BufferFull(gif.frames[k])
    ensures Decides(gif, k, x, y, k) <==> Paints(gif.frames[k], x, y)
  {
    InksIsPaints(gif.frames[k], x, y);
    hide Inks, Paints, BufferFull;
  }

  lemma {:induction false} PictureByte(gif: Gif, k: nat, x: nat, y: nat, c: nat)
    requires k < |gif.frames| && x < gif.width && y < gif.height && c < 4
    ensures Sized(ShownAt(gif, k), gif.width, gif.height)
    ensures var data, at := Flat(ShownAt(gif, k), gif.width, gif.height), 4 * (y * gif.width + x) + c;
            at < |data| && data[at] == Channel(ShownAt(gif, k)[y][x], c)
  {
    CanvasSized(gif, k);
    OffsetInside(gif.width, gif.height, x, y);
    var at := Offset(gif.width, x, y) + c;
    assert at == 4 * (y * gif.width + x) + c;
    hide Channel, Offset, Flat, Sized;
    var X, Y, C := FlatAt(ShownAt(gif, k), gif.width, gif.height, at);
    if X != x || Y != y {
      OffsetsApart(gif.width, x, y, X, Y);
    }
  }

  // Each byte of a picture is the one that the last frame deciding its place left there, and 0 where
  // none does.
  lemma {:induction false} ByteShown(gif: Gif, k: nat, x: nat, y: nat, c: nat, j: nat)
    requires k < |gif.frames| && x < gif.width && y < gif.height && c < 4
    requires forall i :: 0 <= i < |gif.frames| ==> BufferFull(gif.frames[i])
    ensures Sized(ShownAt(gif, k), gif.width, gif.height)
    ensures var data, at := Flat(ShownAt(gif, k), gif.width, gif.height), 4 * (y * gif.width + x) + c;
            && at < |data|
            && (NoneDecides(gif, k, x, y, k + 1) ==> data[at] == 0)
            && (LastDecides(gif, k, x, y, k + 1, j) ==> data[at] == Left(gif, k, x, y, j, c))
  {
    PictureByte(gif, k, x, y, c);
    CanvasIsLookBack(gif, k, x, y);
    LookBackFinds(gif, k, k, x, y, c, j);
    OneDecides(gif, k, x, y);
    InksIsPaints(gif.frames[k], x, y);
    hide Paints, Source, ByteOf, BufferFull, ShownAt, Flat, Channel, Decides, LookBack;
    assert Decides(gif, k, x, y, k) ==> Left(gif, k, x, y, k, c) == ByteOf(gif.frames[k], x, y, c);
    if LastDecides(gif, k, x, y, k + 1, j) && j < k {
      assert LastDecides(gif, k, x, y, k, j);
    }
    assert NoneDecides(gif, k, x, y, k + 1) ==> NoneDecides(gif, k, x, y, k);
  }

  // ----- which animations are stored -----

  predicate FrameFits(gif: Gif, f: Frame) {
    f.left + f.width <= gif.width && f.top + f.height <= gif.height && 4 * (f.width * f.height) <= |f.buffer|
  }

  lemma {:induction false} FitsIsInside(gif: Gif, f: Frame)
    ensures FrameFits(gif, f) <==> FrameInside(gif, f) && BufferFull(f)
  {
  }

  lemma {:induction false} SmallerFits(area: nat, k: nat, n: nat)
    requires k <= n && area * n <= 16_777_216
    ensures area * k <= 16_777_216
  {
    MulMono(k, n, area);
    assert area * k == k * area && area * n == n * area;
  }

  lemma {:induction false} OkIsFits(gif: Gif, k: nat)
    requires k < |gif.frames| <= 128 && gif.width * gif.height * |gif.frames| <= 16_777_216
    ensures FrameOk(gif, k) <==> FrameFits(gif, gif.frames[k])
  {
    FitsIsInside(gif, gif.frames[k]);
    hide FrameFits, FrameInside, BufferFull;
    SmallerFits(gif.width * gif.height, k + 1, |gif.frames|);
  }

  lemma {:induction false} LastOk(gif: Gif)
    requires gif.frames != [] && FrameOk(gif, |gif.frames| - 1)
    ensures |gif.frames| <= 128 && gif.width * gif.height * |gif.frames| <= 16_777_216
  {
    hide FrameInside, BufferFull;
  }

  lemma {:induction false} SomeIff(gif: Gif)
    ensures PrepareSpec(gif).Some? <==>
            && WithinCap(gif.width, gif.height, MAX_CANVAS) && !gif.broken && |gif.frames| > 1
            && forall k :: 0 <= k < |gif.frames| ==> FrameOk(gif, k)
  {
    hide FrameOk, Shots;
  }

  // An animation is stored exactly when it has two to 128 frames, each inside the screen and complete,
  // and at most 16,777,216 pixels in all.
  lemma {:induction false} StoredIff(gif: Gif)
    ensures PrepareSpec(gif).Some? <==>
            && !gif.broken && 2 <= |gif.frames| <= 128 && 0 < gif.width && 0 < gif.height
            && gif.width * gif.height * |gif.frames| <= 16_777_216
            && forall i :: 0 <= i < |gif.frames| ==> FrameFits(gif, gif.frames[i])
  {
    var n := |gif.frames|;
    AreaPositive(gif.width, gif.height);
    SomeIff(gif);
    hide FrameFits, FrameOk, PrepareSpec;
    if n > 0 && FrameOk(gif, n - 1) {
      LastOk(gif);
    }
    if 0 < n <= 128 && gif.width * gif.height * n <= 16_777_216 {
      SmallerFits(gif.width * gif.height, 1, n);
      forall k | 0 <= k < n ensures FrameOk(gif, k) <==> FrameFits(gif, gif.frames[k]) {
        OkIsFits(gif, k);
      }
    }
  }

  // Every frame is stored in its turn, shown for at least ten milliseconds; a picture that needs no
  // downscaling is stored as it is.
  lemma {:induction false} StoredShot(gif: Gif, k: nat)
    requires PrepareSpec(gif).Some? && k < |gif.frames|
    ensures |PrepareSpec(gif).value| == |gif.frames| && Sized(ShownAt(gif, k), gif.width, gif.height)
    ensures var shot := PrepareSpec(gif).value[k];
            && shot.delayMs >= 10 && (gif.frames[k].delay > 0 ==> shot.delayMs == 10 * gif.frames[k].delay)
            && (gif.frames[k].delay == 0 ==> shot.delayMs == 10)
            && (gif.width <= 2048 && gif.height <= 2048 ==>
                  shot.image == Pixels(gif.width, gif.height, 4, Flat(ShownAt(gif, k), gif.width, gif.height)))
  {
    AreaPositive(gif.width, gif.height);
    CanvasSized(gif, k);
    hide Flat, Sized, ShownAt, FrameOk;
    var picture := Pixels(gif.width, gif.height, 4, Flat(ShownAt(gif, k), gif.width, gif.height));
    DownscaledOk(picture);
    assert PrepareSpec(gif).value[k] == ShotOf(gif, k);
  }
}
