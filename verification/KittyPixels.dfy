// Box downscaling of decoded images with exact integer arithmetic.
module KittyPixels {
  import opened Text
  import opened Utf8

  const MAX_PIXELS: nat := 25_165_824
  const MAX_SIDE_PX: nat := 2048

  // Rows of `width` pixels with `channels` bytes each; a fourth channel is alpha.
  datatype Pixels = Pixels(width: nat, height: nat, channels: nat, data: seq<byte>)

  predicate WithinCap(width: nat, height: nat, cap: nat) {
    0 < width * height <= cap
  }

  predicate Ok(p: Pixels) {
    && 0 < p.width && 0 < p.height && (p.channels == 3 || p.channels == 4)
    && |p.data| == p.width * p.height * p.channels
  }

  function Max(a: nat, b: nat): nat {
    if a < b then b else a
  }

  // Where the `k`-th of `outLen` spans over `inLen` cells starts.
  function Edge(k: nat, outLen: nat, inLen: nat): nat
    requires outLen > 0
  {
    k * inLen / outLen
  }

  function SpanEnd(k: nat, outLen: nat, inLen: nat): nat
    requires outLen > 0
  {
    Max(Edge(k + 1, outLen, inLen), Edge(k, outLen, inLen) + 1)
  }

  function ScaledSide(side: nat, long: nat): nat
    requires long > 0
  {
    Max((side * MAX_SIDE_PX + long / 2) / long, 1)
  }

  // ----- spans partition an axis -----

  lemma {:induction false} DivBounds(a: nat, b: nat)
    requires b > 0
    ensures a / b * b <= a < (a / b + 1) * b
  {
    assert a == a / b * b + a % b;
    assert (a / b + 1) * b == a / b * b + b;
  }

  lemma {:induction false} DivAtLeast(a: nat, b: nat, q: nat)
    requires b > 0 && q * b <= a
    ensures q <= a / b
  {
    DivBounds(a, b);
    if a / b < q {
      MulMono(a / b + 1, q, b);
    }
  }

  lemma {:induction false} DivBelow(a: nat, b: nat, q: nat)
    requires b > 0 && a < (q + 1) * b
    ensures a / b <= q
  {
    DivBounds(a, b);
    if a / b > q {
      MulMono(q + 1, a / b, b);
    }
  }

  lemma {:induction false} MulMono(a: int, b: int, c: nat)
    requires a <= b
    ensures a * c <= b * c
  {
    assert b * c - a * c == (b - a) * c;
  }

  lemma {:induction false} AreaPositive(width: nat, height: nat)
    ensures width * height > 0 <==> width > 0 && height > 0
  {
    if width > 0 && height > 0 {
      MulMono(1, width, height);
    }
  }

  lemma {:induction false} EdgeSteps(k: nat, outLen: nat, inLen: nat)
    requires 0 < outLen <= inLen
    ensures Edge(k, outLen, inLen) + 1 <= Edge(k + 1, outLen, inLen)
  {
    var a := k * inLen;
    DivBounds(a, outLen);
    assert (k + 1) * inLen == a + inLen;
    assert (a / outLen + 1) * outLen == a / outLen * outLen + outLen;
    DivAtLeast(a + inLen, outLen, a / outLen + 1);
  }

  // Consecutive spans touch, none is empty, and together they run from 0 to the end.
  lemma {:induction false} SpansTile(k: nat, outLen: nat, inLen: nat)
    requires 0 < outLen <= inLen && k < outLen
    ensures Edge(k, outLen, inLen) < SpanEnd(k, outLen, inLen) == Edge(k + 1, outLen, inLen) <= inLen
    ensures Edge(0, outLen, inLen) == 0 && Edge(outLen, outLen, inLen) == inLen
  {
    EdgeSteps(k, outLen, inLen);
    MulMono(k + 1, outLen, inLen);
    assert inLen * outLen == outLen * inLen;
    DivBelow((k + 1) * inLen, outLen, inLen);
    DivBelow(outLen * inLen, outLen, inLen);
    DivAtLeast(outLen * inLen, outLen, inLen);
  }

  predicate InSpan(x: nat, k: nat, outLen: nat, inLen: nat)
    requires outLen > 0
  {
    Edge(k, outLen, inLen) <= x < SpanEnd(k, outLen, inLen)
  }

  // The span a cell lies in, found from the back.
  function SpanOf(x: nat, outLen: nat, inLen: nat, k: nat): nat
    requires outLen > 0 && 0 < k <= outLen
  {
    if k == 1 || Edge(k - 1, outLen, inLen) <= x then k - 1 else SpanOf(x, outLen, inLen, k - 1)
  }

  lemma {:induction false} SpanOfHolds(x: nat, outLen: nat, inLen: nat, k: nat)
    requires 0 < outLen <= inLen && 0 < k <= outLen && x < Edge(k, outLen, inLen)
    ensures SpanOf(x, outLen, inLen, k) < outLen && InSpan(x, SpanOf(x, outLen, inLen, k), outLen, inLen)
  {
    hide Edge;
    SpansTile(k - 1, outLen, inLen);
    SpansTile(0, outLen, inLen);
    if k > 1 && Edge(k - 1, outLen, inLen) > x {
      SpanOfHolds(x, outLen, inLen, k - 1);
    }
  }

  lemma {:induction false} EdgesGrow(j: nat, k: nat, outLen: nat, inLen: nat)
    requires 0 < outLen <= inLen && j <= k
    ensures Edge(j, outLen, inLen) <= Edge(k, outLen, inLen)
  {
    hide Edge;
    if j < k {
      EdgesGrow(j, k - 1, outLen, inLen);
      EdgeSteps(k - 1, outLen, inLen);
    }
  }

  // Every cell lies in exactly one span.
  lemma {:induction false} SpansPartition(x: nat, outLen: nat, inLen: nat)
    requires 0 < outLen <= inLen && x < inLen
    ensures var k := SpanOf(x, outLen, inLen, outLen);
            && k < outLen && InSpan(x, k, outLen, inLen)
            && forall j :: 0 <= j < outLen && InSpan(x, j, outLen, inLen) ==> j == k
  {
    hide Edge, SpanOf;
    SpansTile(outLen - 1, outLen, inLen);
    SpanOfHolds(x, outLen, inLen, outLen);
    var k := SpanOf(x, outLen, inLen, outLen);
    forall j | 0 <= j < outLen && InSpan(x, j, outLen, inLen) ensures j == k {
      SpansTile(j, outLen, inLen);
      SpansTile(k, outLen, inLen);
      if j < k {
        EdgesGrow(j + 1, k, outLen, inLen);
      } else if k < j {
        EdgesGrow(k + 1, j, outLen, inLen);
      }
    }
  }

  // Above the side limit no side grows, none vanishes, and the long one becomes the limit.
  lemma {:induction false} SidesShrink(side: nat, long: nat)
    requires 0 < side <= long && long > MAX_SIDE_PX
    ensures 1 <= ScaledSide(side, long) <= side
    ensures ScaledSide(side, long) <= ScaledSide(long, long) == MAX_SIDE_PX
  {
    var scaled := side * MAX_SIDE_PX + long / 2;
    assert (side + 1) * long == side * long + long;
    MulMono(MAX_SIDE_PX, long, side);
    assert MAX_SIDE_PX * side == side * MAX_SIDE_PX && long * side == side * long;
    DivBelow(scaled, long, side);
    MulMono(side, long, MAX_SIDE_PX);
    var full := long * MAX_SIDE_PX + long / 2;
    assert (MAX_SIDE_PX + 1) * long == MAX_SIDE_PX * long + long;
    DivBelow(scaled, long, MAX_SIDE_PX);
    DivBelow(full, long, MAX_SIDE_PX);
    DivAtLeast(full, long, MAX_SIDE_PX);
  }

  // ----- one box -----

  // A pixel is `channels` bytes inside the data.
  lemma {:induction false} PixelInside(p: Pixels, x: nat, y: nat)
    requires Ok(p) && x < p.width && y < p.height
    ensures (y * p.width + x) * p.channels + p.channels <= |p.data|
  {
    MulMono(y + 1, p.height, p.width);
    assert (y + 1) * p.width == y * p.width + p.width;
    assert p.width * p.height == p.height * p.width;
    MulMono(y * p.width + x + 1, p.width * p.height, p.channels);
    assert (y * p.width + x + 1) * p.channels == (y * p.width + x) * p.channels + p.channels;
  }

  function Value(p: Pixels, x: nat, y: nat, channel: nat): byte
    requires Ok(p) && x < p.width && y < p.height && channel < p.channels
  {
    PixelInside(p, x, y);
    p.data[(y * p.width + x) * p.channels + channel]
  }

  function Weight(p: Pixels, x: nat, y: nat): nat
    requires Ok(p) && x < p.width && y < p.height
  {
    if p.channels == 4 then Value(p, x, y, 3) else 1
  }

  datatype Box = Box(x0: nat, x1: nat, y0: nat, y1: nat)

  predicate BoxOk(p: Pixels, b: Box) {
    Ok(p) && b.x0 < b.x1 <= p.width && b.y0 < b.y1 <= p.height
  }

  // Sums over a box: the weighted channels, the weights, and the number of pixels.
  datatype Sums = Sums(r: nat, g: nat, b: nat, weight: nat, count: nat)

  function Added(s: Sums, p: Pixels, x: nat, y: nat): Sums
    requires Ok(p) && x < p.width && y < p.height
  {
    var w := Weight(p, x, y);
    Sums(s.r + Value(p, x, y, 0) * w, s.g + Value(p, x, y, 1) * w, s.b + Value(p, x, y, 2) * w,
         s.weight + w, s.count + 1)
  }

  // The sums over the rows above `y` and the cells of row `y` before `x`.
  function SumTo(p: Pixels, b: Box, x: nat, y: nat): Sums
    requires BoxOk(p, b) && b.x0 <= x <= b.x1 && b.y0 <= y && (y < b.y1 || (y == b.y1 && x == b.x0))
    decreases y, x
  {
    if x > b.x0 then Added(SumTo(p, b, x - 1, y), p, x - 1, y)
    else if y > b.y0 then SumTo(p, b, b.x1, y - 1)
    else Sums(0, 0, 0, 0, 0)
  }

  function BoxSum(p: Pixels, b: Box): Sums
    requires BoxOk(p, b)
  {
    SumTo(p, b, b.x0, b.y1)
  }

  function Byte(value: nat): byte {
    if value < 256 then value else 255
  }

  // The weighted mean rounded half up, or 0 without weight.
  function Mean(sum: nat, weight: nat): byte {
    if weight == 0 then 0 else Byte((sum + weight / 2) / weight)
  }

  function AverageOf(s: Sums): seq<byte>
    requires s.count > 0
  {
    [Mean(s.r, s.weight), Mean(s.g, s.weight), Mean(s.b, s.weight), Byte((s.weight + s.count / 2) / s.count)]
  }

  lemma {:induction false} CountGrows(p: Pixels, b: Box, x: nat, y: nat)
    requires BoxOk(p, b) && b.x0 <= x <= b.x1 && b.y0 <= y && (y < b.y1 || (y == b.y1 && x == b.x0))
    ensures SumTo(p, b, x, y).count == (y - b.y0) * (b.x1 - b.x0) + (x - b.x0)
    decreases y, x
  {
    hide Value, Ok;
    if x > b.x0 {
      CountGrows(p, b, x - 1, y);
    } else if y > b.y0 {
      CountGrows(p, b, b.x1, y - 1);
      assert (y - b.y0) * (b.x1 - b.x0) == (y - 1 - b.y0) * (b.x1 - b.x0) + (b.x1 - b.x0);
    }
  }

  lemma {:induction false} BoxCount(p: Pixels, b: Box)
    requires BoxOk(p, b)
    ensures BoxSum(p, b).count == (b.y1 - b.y0) * (b.x1 - b.x0) > 0
  {
    CountGrows(p, b, b.x0, b.y1);
    MulMono(1, b.y1 - b.y0, b.x1 - b.x0);
  }

  function Average(p: Pixels, b: Box): seq<byte>
    requires BoxOk(p, b)
  {
    BoxCount(p, b);
    AverageOf(BoxSum(p, b))
  }

  lemma {:induction false} AverageLength(p: Pixels, b: Box)
    requires BoxOk(p, b)
    ensures |Average(p, b)| == 4 && 3 <= p.channels <= 4
  {
    hide BoxSum, Mean, Value;
  }

  method BoxAverage(p: Pixels, b: Box) returns (average: seq<byte>)
    requires BoxOk(p, b)
    ensures average == Average(p, b)
  {
    hide Value, Ok, AverageOf;
    var s := Sums(0, 0, 0, 0, 0);
    var y := b.y0;
    while y < b.y1
      invariant b.y0 <= y <= b.y1
      invariant s == SumTo(p, b, b.x0, y)
    {
      var x := b.x0;
      while x < b.x1
        invariant b.x0 <= x <= b.x1
        invariant s == SumTo(p, b, x, y)
      {
        s := Added(s, p, x, y);
        x := x + 1;
      }
      y := y + 1;
    }
    BoxCount(p, b);
    average := AverageOf(s);
  }

  // Each weighted pixel of the box holds a value between `lo` and `hi` in this channel.
  predicate Between(p: Pixels, b: Box, channel: nat, lo: nat, hi: nat)
    requires BoxOk(p, b) && channel < 3
  {
    forall x, y :: b.x0 <= x < b.x1 && b.y0 <= y < b.y1 && Weight(p, x, y) > 0 ==> lo <= Value(p, x, y, channel) <= hi
  }

  function ChannelSum(s: Sums, channel: nat): nat
    requires channel < 3
  {
    if channel == 0 then s.r else if channel == 1 then s.g else s.b
  }

  lemma {:induction false} SumBetween(p: Pixels, b: Box, x: nat, y: nat, channel: nat, lo: nat, hi: nat)
    requires BoxOk(p, b) && b.x0 <= x <= b.x1 && b.y0 <= y && (y < b.y1 || (y == b.y1 && x == b.x0))
    requires channel < 3 && Between(p, b, channel, lo, hi)
    ensures var s := SumTo(p, b, x, y); lo * s.weight <= ChannelSum(s, channel) <= hi * s.weight
    decreases y, x
  {
    hide Value, Ok, Weight, Added, ChannelSum;
    NoSum(channel);
    AverageLength(p, b);
    if x > b.x0 {
      SumBetween(p, b, x - 1, y, channel, lo, hi);
      var s, w, v := SumTo(p, b, x - 1, y), Weight(p, x - 1, y), Value(p, x - 1, y, channel);
      AddedChannel(s, p, x - 1, y, channel);
      WeightedBetween(v, w, lo, hi);
      AddBetween(ChannelSum(s, channel), s.weight, v * w, w, lo, hi);
    } else if y > b.y0 {
      SumBetween(p, b, b.x1, y - 1, channel, lo, hi);
    }
  }

  lemma {:induction false} NoSum(channel: nat)
    requires channel < 3
    ensures ChannelSum(Sums(0, 0, 0, 0, 0), channel) == 0
  {
  }

  lemma {:induction false} AddedChannel(s: Sums, p: Pixels, x: nat, y: nat, channel: nat)
    requires Ok(p) && x < p.width && y < p.height && channel < 3
    ensures ChannelSum(Added(s, p, x, y), channel) == ChannelSum(s, channel) + Value(p, x, y, channel) * Weight(p, x, y)
    ensures Added(s, p, x, y).weight == s.weight + Weight(p, x, y)
  {
    hide Value, Weight;
  }

  lemma {:induction false} AddBetween(sum: nat, weight: nat, vw: nat, w: nat, lo: nat, hi: nat)
    requires lo * weight <= sum <= hi * weight && lo * w <= vw <= hi * w
    ensures lo * (weight + w) <= sum + vw <= hi * (weight + w)
  {
    assert lo * (weight + w) == lo * weight + lo * w;
    assert hi * (weight + w) == hi * weight + hi * w;
  }

  lemma {:induction false} WeightedBetween(v: nat, w: nat, lo: nat, hi: nat)
    requires w > 0 ==> lo <= v <= hi
    ensures lo * w <= v * w <= hi * w
  {
    if w > 0 {
      MulMono(lo, v, w);
      MulMono(v, hi, w);
    }
  }

  lemma {:induction false} MeanBetween(sum: nat, weight: nat, lo: nat, hi: nat)
    requires weight > 0 && lo * weight <= sum <= hi * weight && hi < 256
    ensures lo <= Mean(sum, weight) <= hi
  {
    DivAtLeast(sum + weight / 2, weight, lo);
    assert (hi + 1) * weight == hi * weight + weight;
    DivBelow(sum + weight / 2, weight, hi);
  }

  // An averaged channel lies between the least and greatest of its weighted pixels.
  lemma {:induction false} AverageBetween(p: Pixels, b: Box, channel: nat, lo: nat, hi: nat)
    requires BoxOk(p, b) && channel < 3 && hi < 256
    requires Between(p, b, channel, lo, hi) && BoxSum(p, b).weight > 0
    ensures lo <= Average(p, b)[channel] <= hi
  {
    hide Value, Ok, Weight, SumTo, Mean, Between;
    SumBetween(p, b, b.x0, b.y1, channel, lo, hi);
    BoxCount(p, b);
    var s := BoxSum(p, b);
    MeanBetween(ChannelSum(s, channel), s.weight, lo, hi);
  }

  // The mean is the nearest whole number to the exact quotient, ties upwards.
  lemma {:induction false} MeanIsNearest(sum: nat, weight: nat)
    requires 0 < weight && sum <= 255 * weight
    ensures var exact := Mean(sum, weight) * weight;
            2 * exact <= 2 * sum + weight && 2 * sum <= 2 * exact + weight
  {
    DivBounds(sum + weight / 2, weight);
    assert (255 + 1) * weight == 255 * weight + weight;
    DivBelow(sum + weight / 2, weight, 255);
    var q := (sum + weight / 2) / weight;
    assert (q + 1) * weight == q * weight + weight;
  }

  // Each averaged channel is the exact weighted mean of its box, rounded to the nearest.
  lemma {:induction false} AverageIsNearest(p: Pixels, b: Box, channel: nat)
    requires BoxOk(p, b) && channel < 3 && BoxSum(p, b).weight > 0
    ensures var s := BoxSum(p, b);
            var exact := Average(p, b)[channel] * s.weight;
            2 * exact <= 2 * ChannelSum(s, channel) + s.weight && 2 * ChannelSum(s, channel) <= 2 * exact + s.weight
  {
    hide Value, Ok, Weight, SumTo, Mean;
    SumBetween(p, b, b.x0, b.y1, channel, 0, 255);
    BoxCount(p, b);
    var s := BoxSum(p, b);
    MeanIsNearest(ChannelSum(s, channel), s.weight);
  }

  // Each pixel of the box weighs between `lo` and `hi`; with four channels the weight is the alpha byte.
  predicate Weighs(p: Pixels, b: Box, lo: nat, hi: nat)
    requires BoxOk(p, b)
  {
    forall x, y :: b.x0 <= x < b.x1 && b.y0 <= y < b.y1 ==> lo <= Weight(p, x, y) <= hi
  }

  lemma {:induction false} WeightBetween(p: Pixels, b: Box, x: nat, y: nat, lo: nat, hi: nat)
    requires BoxOk(p, b) && b.x0 <= x <= b.x1 && b.y0 <= y && (y < b.y1 || (y == b.y1 && x == b.x0))
    requires Weighs(p, b, lo, hi)
    ensures var s := SumTo(p, b, x, y); lo * s.count <= s.weight <= hi * s.count
    decreases y, x
  {
    hide Value, Ok, Weight, Added;
    AverageLength(p, b);
    if x > b.x0 {
      WeightBetween(p, b, x - 1, y, lo, hi);
      var s, w := SumTo(p, b, x - 1, y), Weight(p, x - 1, y);
      AddedWeight(s, p, x - 1, y);
      AddBetween(s.weight, s.count, w, 1, lo, hi);
    } else if y > b.y0 {
      WeightBetween(p, b, b.x1, y - 1, lo, hi);
    }
  }

  lemma {:induction false} AddedWeight(s: Sums, p: Pixels, x: nat, y: nat)
    requires Ok(p) && x < p.width && y < p.height
    ensures Added(s, p, x, y).weight == s.weight + Weight(p, x, y) && Added(s, p, x, y).count == s.count + 1
  {
    hide Value, Weight;
  }

  // The averaged alpha lies between the least and greatest alpha of the box, and is the exact mean
  // rounded to the nearest.
  lemma {:induction false} AlphaBetween(p: Pixels, b: Box, lo: nat, hi: nat)
    requires BoxOk(p, b) && hi < 256 && Weighs(p, b, lo, hi)
    ensures lo <= Average(p, b)[3] <= hi
    ensures var s := BoxSum(p, b);
            var exact := Average(p, b)[3] * s.count;
            2 * exact <= 2 * s.weight + s.count && 2 * s.weight <= 2 * exact + s.count
  {
    hide Value, Ok, Weight, SumTo, Weighs;
    WeightBetween(p, b, b.x0, b.y1, lo, hi);
    BoxCount(p, b);
    var s := BoxSum(p, b);
    MulMono(hi, 255, s.count);
    hide Mean;
    assert Average(p, b)[3] == Mean(s.weight, s.count) by { AlphaIsMean(s); }
    MeanBetween(s.weight, s.count, lo, hi);
    MeanIsNearest(s.weight, s.count);
  }

  lemma {:induction false} AlphaIsMean(s: Sums)
    requires s.count > 0
    ensures AverageOf(s)[3] == Mean(s.weight, s.count)
  {
    hide Byte;
  }

  // ----- the whole image -----

  function BoxFor(p: Pixels, outWidth: nat, outHeight: nat, ox: nat, oy: nat): Box
    requires 0 < outWidth && 0 < outHeight
  {
    Box(Edge(ox, outWidth, p.width), SpanEnd(ox, outWidth, p.width),
        Edge(oy, outHeight, p.height), SpanEnd(oy, outHeight, p.height))
  }

  lemma {:induction false} BoxForOk(p: Pixels, outWidth: nat, outHeight: nat, ox: nat, oy: nat)
    requires Ok(p) && 0 < outWidth <= p.width && 0 < outHeight <= p.height && ox < outWidth && oy < outHeight
    ensures BoxOk(p, BoxFor(p, outWidth, outHeight, ox, oy))
  {
    hide Edge, SpanEnd;
    SpansTile(ox, outWidth, p.width);
    SpansTile(oy, outHeight, p.height);
  }

  function CellBytes(p: Pixels, outWidth: nat, outHeight: nat, ox: nat, oy: nat): (bytes: seq<byte>)
    requires Ok(p) && 0 < outWidth <= p.width && 0 < outHeight <= p.height && ox < outWidth && oy < outHeight
    ensures |bytes| == p.channels
  {
    BoxForOk(p, outWidth, outHeight, ox, oy);
    Average(p, BoxFor(p, outWidth, outHeight, ox, oy))[..p.channels]
  }

  // The output up to row `oy`, cell `ox`.
  function DataTo(p: Pixels, outWidth: nat, outHeight: nat, ox: nat, oy: nat): seq<byte>
    requires Ok(p) && 0 < outWidth <= p.width && 0 < outHeight <= p.height
    requires ox <= outWidth && (oy < outHeight || (oy == outHeight && ox == 0))
    decreases oy, ox
  {
    if ox > 0 then DataTo(p, outWidth, outHeight, ox - 1, oy) + CellBytes(p, outWidth, outHeight, ox - 1, oy)
    else if oy > 0 then DataTo(p, outWidth, outHeight, outWidth, oy - 1)
    else []
  }

  lemma {:induction false} DataLength(p: Pixels, outWidth: nat, outHeight: nat, ox: nat, oy: nat)
    requires Ok(p) && 0 < outWidth <= p.width && 0 < outHeight <= p.height
    requires ox <= outWidth && (oy < outHeight || (oy == outHeight && ox == 0))
    ensures |DataTo(p, outWidth, outHeight, ox, oy)| == (oy * outWidth + ox) * p.channels
    decreases oy, ox
  {
    hide Ok, CellBytes;
    if ox > 0 {
      DataLength(p, outWidth, outHeight, ox - 1, oy);
      assert (oy * outWidth + ox) * p.channels == (oy * outWidth + (ox - 1)) * p.channels + p.channels;
    } else if oy > 0 {
      DataLength(p, outWidth, outHeight, outWidth, oy - 1);
      assert oy * outWidth == (oy - 1) * outWidth + outWidth;
    }
  }

  lemma {:induction false} Sides(p: Pixels)
    requires Ok(p) && Max(p.width, p.height) > MAX_SIDE_PX
    ensures var long := Max(p.width, p.height);
            && 0 < ScaledSide(p.width, long) <= p.width
            && 0 < ScaledSide(p.height, long) <= p.height
            && Max(ScaledSide(p.width, long), ScaledSide(p.height, long)) == MAX_SIDE_PX
  {
    hide ScaledSide;
    var long := Max(p.width, p.height);
    SidesShrink(p.width, long);
    SidesShrink(p.height, long);
  }

  function Downscaled(p: Pixels): Pixels
    requires Ok(p)
  {
    var long := Max(p.width, p.height);
    if long <= MAX_SIDE_PX then p
    else
      Sides(p);
      var width, height := ScaledSide(p.width, long), ScaledSide(p.height, long);
      Pixels(width, height, p.channels, DataTo(p, width, height, 0, height))
  }

  method Downscale(p: Pixels) returns (r: Pixels)
    requires Ok(p)
    ensures r == Downscaled(p)
  {
    hide Ok, ScaledSide, BoxFor, Average, BoxOk;
    var long := Max(p.width, p.height);
    if long <= MAX_SIDE_PX {
      return p;
    }
    Sides(p);
    var width, height := ScaledSide(p.width, long), ScaledSide(p.height, long);
    var data: seq<byte> := [];
    var oy := 0;
    while oy < height
      invariant oy <= height && data == DataTo(p, width, height, 0, oy)
    {
      var ox := 0;
      while ox < width
        invariant ox <= width && data == DataTo(p, width, height, ox, oy)
      {
        BoxForOk(p, width, height, ox, oy);
        var average := BoxAverage(p, BoxFor(p, width, height, ox, oy));
        AverageLength(p, BoxFor(p, width, height, ox, oy));
        data := data + average[..p.channels];
        ox := ox + 1;
      }
      oy := oy + 1;
    }
    return Pixels(width, height, p.channels, data);
  }

  // Downscaling an image over the limit: its long side becomes the limit, and it stays an image.
  lemma {:induction false} DownscaledOk(p: Pixels)
    requires Ok(p)
    ensures Ok(Downscaled(p))
    ensures Max(p.width, p.height) > MAX_SIDE_PX ==> Max(Downscaled(p).width, Downscaled(p).height) == MAX_SIDE_PX
    ensures Max(p.width, p.height) <= MAX_SIDE_PX ==> Downscaled(p) == p
  {
    hide ScaledSide, DataTo;
    if Max(p.width, p.height) > MAX_SIDE_PX {
      Sides(p);
      var r := Downscaled(p);
      DataLength(p, r.width, r.height, 0, r.height);
      assert r.width * r.height == r.height * r.width;
    }
  }

  lemma {:induction false} DataPrefix(p: Pixels, outWidth: nat, outHeight: nat, ax: nat, ay: nat, bx: nat, by': nat)
    requires Ok(p) && 0 < outWidth <= p.width && 0 < outHeight <= p.height
    requires ax <= outWidth && (ay < outHeight || (ay == outHeight && ax == 0))
    requires bx <= outWidth && (by' < outHeight || (by' == outHeight && bx == 0))
    requires ay < by' || (ay == by' && ax <= bx)
    ensures DataTo(p, outWidth, outHeight, ax, ay) <= DataTo(p, outWidth, outHeight, bx, by')
    decreases by', bx
  {
    hide Ok, CellBytes;
    if ay == by' && ax == bx {
    } else if bx > 0 {
      DataPrefix(p, outWidth, outHeight, ax, ay, bx - 1, by');
    } else {
      DataPrefix(p, outWidth, outHeight, ax, ay, outWidth, by' - 1);
    }
  }

  // Where the bytes of a pixel start.
  function PixelPlace(width: nat, channels: nat, x: nat, y: nat): nat {
    (y * width + x) * channels
  }

  // Each output pixel is the average of its own box.
  lemma {:induction false} OutputPixel(p: Pixels, ox: nat, oy: nat)
    requires Ok(p) && Max(p.width, p.height) > MAX_SIDE_PX
    requires ox < Downscaled(p).width && oy < Downscaled(p).height
    ensures var r := Downscaled(p);
            var at := PixelPlace(r.width, p.channels, ox, oy);
            && BoxOk(p, BoxFor(p, r.width, r.height, ox, oy))
            && at + p.channels <= |r.data|
            && r.data[at..at + p.channels] == Average(p, BoxFor(p, r.width, r.height, ox, oy))[..p.channels]
  {
    hide ScaledSide, Ok, Edge, SpanEnd, Average;
    Sides(p);
    var r := Downscaled(p);
    BoxForOk(p, r.width, r.height, ox, oy);
    DataLength(p, r.width, r.height, ox, oy);
    DataPrefix(p, r.width, r.height, ox + 1, oy, 0, r.height);
    var upTo := DataTo(p, r.width, r.height, ox + 1, oy);
    assert upTo == DataTo(p, r.width, r.height, ox, oy) + CellBytes(p, r.width, r.height, ox, oy);
  }

  // Every source pixel is read for exactly one output pixel.
  lemma {:induction false} ReadOnce(p: Pixels, x: nat, y: nat) returns (ox: nat, oy: nat)
    requires Ok(p) && Max(p.width, p.height) > MAX_SIDE_PX && x < p.width && y < p.height
    ensures var r := Downscaled(p);
            && 0 < r.width && 0 < r.height
            && ox < r.width && oy < r.height && Inside(BoxFor(p, r.width, r.height, ox, oy), x, y)
            && forall i, j :: 0 <= i < r.width && 0 <= j < r.height && Inside(BoxFor(p, r.width, r.height, i, j), x, y)
                              ==> i == ox && j == oy
  {
    hide ScaledSide, Ok, DataTo, SpanOf, Edge;
    Sides(p);
    var r := Downscaled(p);
    SpansPartition(x, r.width, p.width);
    SpansPartition(y, r.height, p.height);
    ox, oy := SpanOf(x, r.width, p.width, r.width), SpanOf(y, r.height, p.height, r.height);
    forall i, j | 0 <= i < r.width && 0 <= j < r.height && Inside(BoxFor(p, r.width, r.height, i, j), x, y)
      ensures i == ox && j == oy
    {
      assert InSpan(x, i, r.width, p.width) && InSpan(y, j, r.height, p.height);
    }
  }

  predicate Inside(b: Box, x: nat, y: nat) {
    b.x0 <= x < b.x1 && b.y0 <= y < b.y1
  }

  // `encode_pixels` before compression: the size checks and the downscaling.
  function Encoded(p: Pixels): Option<Pixels> {
    if !WithinCap(p.width, p.height, MAX_PIXELS) || !Ok(p) then None else Some(Downscaled(p))
  }
}
