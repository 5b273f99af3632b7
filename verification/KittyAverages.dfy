// The downscaled image in plain numbers: every output byte is a sum over its box, taken column by
// column from the image's bytes, divided and rounded.
module KittyAverages {
  import opened Utf8
  import opened KittyPixels

  function DataAt(p: Pixels, x: nat, y: nat, c: nat): byte {
    var at := (y * p.width + x) * p.channels + c;
    if at < |p.data| then p.data[at] else 0
  }

  // What a pixel counts for: its alpha, if it has one.
  function Share(p: Pixels, x: nat, y: nat): nat {
    if p.channels == 4 then DataAt(p, x, y, 3) else 1
  }

  // A pixel's part in a channel's sum; for `c == 3` in the sum of the shares.
  function Part(p: Pixels, x: nat, y: nat, c: nat): nat {
    if c < 3 then DataAt(p, x, y, c) * Share(p, x, y) else Share(p, x, y)
  }

  // A column from row `top` down to row `y`.
  function Column(p: Pixels, c: nat, x: nat, top: nat, y: nat): nat {
    if y <= top then 0 else Column(p, c, x, top, y - 1) + Part(p, x, y - 1, c)
  }

  // The columns from `left` to `x`.
  function Columns(p: Pixels, c: nat, left: nat, x: nat, top: nat, bottom: nat): nat {
    if x <= left then 0 else Columns(p, c, left, x - 1, top, bottom) + Column(p, c, x - 1, top, bottom)
  }

  // A row from column `left` to column `x`.
  function Row(p: Pixels, c: nat, left: nat, x: nat, y: nat): nat {
    if x <= left then 0 else Row(p, c, left, x - 1, y) + Part(p, x - 1, y, c)
  }

  lemma {:induction false} OneMoreRow(p: Pixels, c: nat, left: nat, x: nat, top: nat, y: nat)
    requires top <= y
    ensures Columns(p, c, left, x, top, y + 1) == Columns(p, c, left, x, top, y) + Row(p, c, left, x, y)
  {
    hide Part;
    if x > left {
      OneMoreRow(p, c, left, x - 1, top, y);
      assert Column(p, c, x - 1, top, y + 1) == Column(p, c, x - 1, top, y) + Part(p, x - 1, y, c);
    }
  }

  lemma {:induction false} NoRows(p: Pixels, c: nat, left: nat, x: nat, top: nat)
    ensures Columns(p, c, left, x, top, top) == 0
  {
    if x > left {
      NoRows(p, c, left, x - 1, top);
    }
  }

  function SumOf(s: Sums, c: nat): nat {
    if c == 0 then s.r else if c == 1 then s.g else if c == 2 then s.b else s.weight
  }

  lemma {:induction false} AddedPart(s: Sums, p: Pixels, x: nat, y: nat, c: nat)
    requires Ok(p) && x < p.width && y < p.height && c < 4
    ensures SumOf(Added(s, p, x, y), c) == SumOf(s, c) + Part(p, x, y, c)
  {
    PixelInside(p, x, y);
    assert c < 3 ==> DataAt(p, x, y, c) == Value(p, x, y, c);
    assert p.channels == 4 ==> DataAt(p, x, y, 3) == Value(p, x, y, 3);
    assert Share(p, x, y) == Weight(p, x, y);
    hide DataAt, Value, Share, Weight, Ok;
  }

  // Summing row by row, as the loops do, is summing column by column.
  lemma {:induction false} SumIsColumns(p: Pixels, b: Box, x: nat, y: nat, c: nat)
    requires BoxOk(p, b) && b.x0 <= x <= b.x1 && b.y0 <= y && (y < b.y1 || (y == b.y1 && x == b.x0)) && c < 4
    ensures SumOf(SumTo(p, b, x, y), c) == Columns(p, c, b.x0, b.x1, b.y0, y) + Row(p, c, b.x0, x, y)
    decreases y, x
  {
    hide Ok, Added, Part, Column, Columns;
    if x > b.x0 {
      SumIsColumns(p, b, x - 1, y, c);
      BoxInside(p, b, x - 1, y);
      AddedPart(SumTo(p, b, x - 1, y), p, x - 1, y, c);
    } else if y > b.y0 {
      SumIsColumns(p, b, b.x1, y - 1, c);
      OneMoreRow(p, c, b.x0, b.x1, b.y0, y - 1);
    } else {
      NoRows(p, c, b.x0, b.x1, b.y0);
    }
  }

  lemma {:induction false} BoxInside(p: Pixels, b: Box, x: nat, y: nat)
    requires BoxOk(p, b) && x < b.x1 && y < b.y1
    ensures Ok(p) && x < p.width && y < p.height
  {
    hide Ok;
  }

  // `q` is `sum / weight` rounded to the nearest whole number, halves upwards.
  predicate Rounds(q: nat, sum: nat, weight: nat) {
    2 * (q * weight) <= 2 * sum + weight && 2 * sum < 2 * (q * weight) + weight
  }

  lemma {:induction false} MeanRounds(sum: nat, weight: nat)
    requires 0 < weight && sum <= 255 * weight
    ensures Rounds(Mean(sum, weight), sum, weight)
  {
    DivBounds(sum + weight / 2, weight);
    assert (255 + 1) * weight == 255 * weight + weight;
    DivBelow(sum + weight / 2, weight, 255);
    var q := (sum + weight / 2) / weight;
    assert (q + 1) * weight == q * weight + weight;
  }

  // Each byte of a box's average: a channel is the mean over the shares, alpha the mean share.
  lemma {:induction false} AverageRounds(p: Pixels, b: Box, c: nat)
    requires BoxOk(p, b) && c < 4
    ensures |Average(p, b)| == 4
    ensures var sum, share := Columns(p, c, b.x0, b.x1, b.y0, b.y1), Columns(p, 3, b.x0, b.x1, b.y0, b.y1);
            && (c < 3 && share > 0 ==> Rounds(Average(p, b)[c], sum, share))
            && (c < 3 && share == 0 ==> Average(p, b)[c] == 0)
            && (c == 3 ==> Rounds(Average(p, b)[c], share, (b.x1 - b.x0) * (b.y1 - b.y0)))
  {
    var s := BoxSum(p, b);
    SumIsColumns(p, b, b.x0, b.y1, c);
    SumIsColumns(p, b, b.x0, b.y1, 3);
    assert Row(p, c, b.x0, b.x0, b.y1) == 0 && Row(p, 3, b.x0, b.x0, b.y1) == 0;
    BoxCount(p, b);
    AverageLength(p, b);
    AverageParts(p, b, c);
    assert (b.y1 - b.y0) * (b.x1 - b.x0) == (b.x1 - b.x0) * (b.y1 - b.y0);
    assert forall x, y :: b.x0 <= x < b.x1 && b.y0 <= y < b.y1 ==> 0 <= Weight(p, x, y) <= 255;
    hide Value, Weight, Columns, Row, Mean, Average, Rounds, SumTo;
    if c < 3 {
      SumBetween(p, b, b.x0, b.y1, c, 0, 255);
      SameChannel(s, c);
      if s.weight > 0 {
        MeanRounds(SumOf(s, c), s.weight);
      }
    } else {
      WeightBetween(p, b, b.x0, b.y1, 0, 255);
      MeanRounds(s.weight, s.count);
    }
  }

  lemma {:induction false} SameChannel(s: Sums, c: nat)
    requires c < 3
    ensures SumOf(s, c) == ChannelSum(s, c)
  {
  }

  lemma {:induction false} AverageParts(p: Pixels, b: Box, c: nat)
    requires BoxOk(p, b) && c < 4
    ensures |Average(p, b)| == 4 && BoxSum(p, b).count > 0
    ensures var s := BoxSum(p, b);
            && (c < 3 ==> Average(p, b)[c] == Mean(SumOf(s, c), s.weight))
            && (c < 3 && s.weight == 0 ==> Average(p, b)[c] == 0)
            && (c == 3 ==> Average(p, b)[c] == Mean(s.weight, s.count))
  {
    BoxCount(p, b);
    AverageLength(p, b);
    AlphaIsMean(BoxSum(p, b));
    hide BoxSum, Byte;
  }

  // ----- the whole image -----

  // The byte a box is averaged to.
  predicate Averages(p: Pixels, q: nat, c: nat, x0: nat, x1: nat, y0: nat, y1: nat)
    requires x0 <= x1 && y0 <= y1
  {
    var sum, share := Columns(p, c, x0, x1, y0, y1), Columns(p, 3, x0, x1, y0, y1);
    if c == 3 then Rounds(q, share, (x1 - x0) * (y1 - y0))
    else if share == 0 then q == 0
    else Rounds(q, sum, share)
  }

  lemma {:induction false} QuotientRounds(sum: nat, weight: nat)
    requires 0 < weight
    ensures Rounds((sum + weight / 2) / weight, sum, weight)
  {
    DivBounds(sum + weight / 2, weight);
    var q := (sum + weight / 2) / weight;
    assert (q + 1) * weight == q * weight + weight;
  }

  // An image over the limit keeps its shape: its long side becomes 2048, the other the nearest to its
  // part of that, but at least one.
  lemma {:induction false} SidesRound(p: Pixels)
    requires Ok(p) && Max(p.width, p.height) > MAX_SIDE_PX
    ensures var r, long := Downscaled(p), if p.width < p.height then p.height else p.width;
            && (Rounds(r.width, p.width * 2048, long) || (r.width == 1 && 2 * (p.width * 2048) < long))
            && (Rounds(r.height, p.height * 2048, long) || (r.height == 1 && 2 * (p.height * 2048) < long))
            && (p.width >= p.height ==> r.width == 2048) && (p.height >= p.width ==> r.height == 2048)
            && r.channels == p.channels
  {
    var long := Max(p.width, p.height);
    QuotientRounds(p.width * 2048, long);
    QuotientRounds(p.height * 2048, long);
    SidesShrink(long, long);
    Sides(p);
    ScaledIs(p.width, long);
    ScaledIs(p.height, long);
    hide ScaledSide, DataTo, Ok;
    assert p.width >= p.height ==> long == p.width;
  }

  lemma {:induction false} ScaledIs(side: nat, long: nat)
    requires long > 0
    ensures var q := (side * 2048 + long / 2) / long;
            ScaledSide(side, long) == (if q == 0 then 1 else q) && (q == 0 ==> 2 * (side * 2048) < long)
  {
    DivBounds(side * 2048 + long / 2, long);
  }

  // Where the `k`-th of `n` parts of a side starts.
  function Start(side: nat, n: nat, k: nat): nat
    requires n > 0
  {
    k * side / n
  }

  // Where byte `c` of a pixel stands.
  function Place(width: nat, channels: nat, x: nat, y: nat, c: nat): nat {
    (y * width + x) * channels + c
  }

  // Every byte of a downscaled image is the rounded average of its own box.
  lemma {:induction false} DownscaledByte(p: Pixels, ox: nat, oy: nat, c: nat)
    requires Ok(p) && Max(p.width, p.height) > MAX_SIDE_PX
    requires ox < Downscaled(p).width && oy < Downscaled(p).height && c < p.channels
    ensures var r := Downscaled(p);
            var (x0, x1) := (Start(p.width, r.width, ox), Start(p.width, r.width, ox + 1));
            var (y0, y1) := (Start(p.height, r.height, oy), Start(p.height, r.height, oy + 1));
            var at := Place(r.width, p.channels, ox, oy, c);
            x0 < x1 && y0 < y1 && at < |r.data| && Averages(p, r.data[at], c, x0, x1, y0, y1)
  {
    hide *;
    var r := Downscaled(p);
    OutputPixel(p, ox, oy);
    var b := BoxFor(p, r.width, r.height, ox, oy);
    BoxIs(p, ox, oy);
    ChannelsOk(p);
    AverageRounds(p, b, c);
    var at := PixelPlace(r.width, p.channels, ox, oy);
    ByteOfPixel(p, r, at, Average(p, b), ox, oy, c);
    AveragesIs(p, b, Average(p, b)[c], c);
  }

  lemma {:induction false} ByteOfPixel(p: Pixels, r: Pixels, at: nat, average: seq<byte>, ox: nat, oy: nat, c: nat)
    requires at == PixelPlace(r.width, p.channels, ox, oy) && c < p.channels <= |average|
    requires at + p.channels <= |r.data| && r.data[at..at + p.channels] == average[..p.channels]
    ensures Place(r.width, p.channels, ox, oy, c) < |r.data|
    ensures r.data[Place(r.width, p.channels, ox, oy, c)] == average[c]
  {
    assert r.data[at..at + p.channels][c] == r.data[at + c];
    assert average[..p.channels][c] == average[c];
  }

  lemma {:induction false} AveragesIs(p: Pixels, b: Box, q: nat, c: nat)
    requires b.x0 <= b.x1 && b.y0 <= b.y1 && c < 4
    requires var sum, share := Columns(p, c, b.x0, b.x1, b.y0, b.y1), Columns(p, 3, b.x0, b.x1, b.y0, b.y1);
             && (c < 3 && share > 0 ==> Rounds(q, sum, share))
             && (c < 3 && share == 0 ==> q == 0)
             && (c == 3 ==> Rounds(q, share, (b.x1 - b.x0) * (b.y1 - b.y0)))
    ensures Averages(p, q, c, b.x0, b.x1, b.y0, b.y1)
  {
    hide Columns, Rounds;
  }

  lemma {:induction false} ChannelsOk(p: Pixels)
    requires Ok(p)
    ensures 3 <= p.channels <= 4
  {
  }

  lemma {:induction false} BoxIs(p: Pixels, ox: nat, oy: nat)
    requires Ok(p) && Max(p.width, p.height) > MAX_SIDE_PX
    requires ox < Downscaled(p).width && oy < Downscaled(p).height
    ensures var r := Downscaled(p);
            var b := BoxFor(p, r.width, r.height, ox, oy);
            && b.x0 == Start(p.width, r.width, ox) && b.x1 == Start(p.width, r.width, ox + 1)
            && b.y0 == Start(p.height, r.height, oy) && b.y1 == Start(p.height, r.height, oy + 1)
            && b.x0 < b.x1 && b.y0 < b.y1
  {
    hide Ok, ScaledSide, DataTo, SpanEnd;
    Sides(p);
    var r := Downscaled(p);
    SpansTile(ox, r.width, p.width);
    SpansTile(oy, r.height, p.height);
  }

  // An image is encoded exactly when it has a pixel, at most 25,165,824 of them, and all its bytes.
  lemma {:induction false} EncodedIff(p: Pixels)
    requires p.channels == 3 || p.channels == 4
    ensures Encoded(p).Some? <==> 1 <= p.width * p.height <= 25_165_824 && |p.data| == p.width * p.height * p.channels
    ensures Encoded(p).Some? ==>
              && Encoded(p).value.channels == p.channels
              && Max(Encoded(p).value.width, Encoded(p).value.height) <= 2048
              && (p.width <= 2048 && p.height <= 2048 ==> Encoded(p).value == p)
  {
    AreaPositive(p.width, p.height);
    hide Downscaled;
    if Encoded(p).Some? {
      DownscaledOk(p);
      if Max(p.width, p.height) > MAX_SIDE_PX {
        SidesRound(p);
      }
    }
  }
}
