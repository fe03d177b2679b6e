/** The mosaic (block-averaging) filter of tarea1_pdi.py.

    An image is a two-dimensional array of pixels indexed [x, y], as PIL's
    pixel-access object is: Length0 is the width and Length1 the height. The
    filter tiles the image with blockSize x blockSize squares whose origins are
    the multiples of blockSize, clips the last row and column of tiles at the
    image edge, and writes each tile's channel-wise floor mean to every pixel of
    that tile in a fresh copy of the image. */
module Mosaic {
  import opened Pixels

  /** Python's min of two integers. */
  function Min(a: int, b: int): int
  {
    if a <= b then a else b
  }

  // ---------------------------------------------------------------------------
  // Tiling of one axis

  /** The origin of the tile that holds coordinate p: the largest multiple of
      blockSize not above p. */
  function Origin(p: nat, blockSize: nat): nat
    requires blockSize >= 1
  {
    p / blockSize * blockSize
  }

  /** t is one of the values range(0, n, blockSize) produces. */
  predicate IsTileStart(t: int, blockSize: nat, n: nat)
    requires blockSize >= 1
  {
    0 <= t < n && t % blockSize == 0
  }

  /** The end of the tile that starts at t, clipped at the edge n. */
  function TileEnd(t: int, blockSize: nat, n: nat): int
  {
    Min(t + blockSize, n)
  }

  /** Coordinate p lies in the (clipped) tile starting at t. */
  predicate InSpan(p: int, t: int, blockSize: nat, n: nat)
  {
    t <= p < TileEnd(t, blockSize, n)
  }

  /** Every coordinate of [0, n) lies in exactly one tile, the one at Origin. */
  lemma {:induction false} OneSpan(p: nat, t: int, blockSize: nat, n: nat)
    requires blockSize >= 1 && p < n
    ensures IsTileStart(Origin(p, blockSize), blockSize, n)
    ensures InSpan(p, Origin(p, blockSize), blockSize, n)
    ensures IsTileStart(t, blockSize, n) && InSpan(p, t, blockSize, n) <==> t == Origin(p, blockSize)
  {
    var q := p / blockSize;
    assert Origin(p, blockSize) % blockSize == 0 by {
      MultipleMod(q, blockSize);
    }
    if IsTileStart(t, blockSize, n) && InSpan(p, t, blockSize, n) {
      var k := t / blockSize;
      assert t == k * blockSize;
      DivUnique(p, k, blockSize);
    }
  }

  lemma MultipleMod(q: nat, b: nat)
    requires b >= 1
    ensures (q * b) % b == 0
  {
    DivUnique(q * b, q, b);
  }

  lemma DivUnique(p: int, k: int, b: nat)
    requires b >= 1
    requires k * b <= p < k * b + b
    ensures p / b == k
  {
    var d := p / b;
    assert (d - k) * b == d * b - k * b;
    ZeroFactor(d - k, b);
  }

  lemma ZeroFactor(m: int, b: int)
    requires b >= 1 && -b < m * b < b
    ensures m == 0
  {
  }

  // ---------------------------------------------------------------------------
  // Tiling of the image

  /** (tx, ty) is the origin of a tile the filter's two outer loops visit. */
  predicate IsTile(src: array2<Pixel>, blockSize: nat, tx: int, ty: int)
    requires blockSize >= 1
  {
    IsTileStart(tx, blockSize, src.Length0) && IsTileStart(ty, blockSize, src.Length1)
  }

  /** Pixel (x, y) lies in the tile at (tx, ty), clipped at the image edge. */
  predicate InTile(src: array2<Pixel>, blockSize: nat, tx: int, ty: int, x: int, y: int)
  {
    InSpan(x, tx, blockSize, src.Length0) && InSpan(y, ty, blockSize, src.Length1)
  }

  /** The tiles partition the image: each pixel lies in the tile at
      (Origin(x), Origin(y)) and in no other one. */
  lemma {:induction false} OneTile(src: array2<Pixel>, blockSize: nat, tx: int, ty: int, x: nat, y: nat)
    requires blockSize >= 1
    requires x < src.Length0 && y < src.Length1
    ensures IsTile(src, blockSize, Origin(x, blockSize), Origin(y, blockSize))
    ensures InTile(src, blockSize, Origin(x, blockSize), Origin(y, blockSize), x, y)
    ensures IsTile(src, blockSize, tx, ty) && InTile(src, blockSize, tx, ty, x, y)
            <==> tx == Origin(x, blockSize) && ty == Origin(y, blockSize)
  {
    OneSpan(x, tx, blockSize, src.Length0);
    OneSpan(y, ty, blockSize, src.Length1);
  }

  /** The number of pixels in the clipped tile at (tx, ty): never zero, so the
      divisions of the average are defined, and at most blockSize squared. */
  function TileCount(src: array2<Pixel>, blockSize: nat, tx: int, ty: int): (n: int)
    requires blockSize >= 1 && IsTile(src, blockSize, tx, ty)
    ensures 1 <= n <= blockSize * blockSize
  {
    var w := TileEnd(tx, blockSize, src.Length0) - tx;
    var h := TileEnd(ty, blockSize, src.Length1) - ty;
    assert w * h <= blockSize * h <= blockSize * blockSize;
    w * h
  }

  // ---------------------------------------------------------------------------
  // Specification of the tile average

  /** Channel-wise sum of the pixels (x, y) with x0 <= x < x1 of row y. */
  function RowSum(src: array2<Pixel>, y: int, x0: int, x1: int): Pixel
    requires 0 <= y < src.Length1 && 0 <= x0 <= x1 <= src.Length0
    reads src
    decreases x1 - x0
  {
    if x1 == x0 then Black else Add(RowSum(src, y, x0, x1 - 1), src[x1 - 1, y])
  }

  /** Channel-wise sum of the rectangle [x0, x1) x [y0, y1), row by row, in the
      order the source's accumulating loops visit it. */
  function RectSum(src: array2<Pixel>, x0: int, x1: int, y0: int, y1: int): Pixel
    requires 0 <= x0 <= x1 <= src.Length0 && 0 <= y0 <= y1 <= src.Length1
    reads src
    decreases y1 - y0
  {
    if y1 == y0 then Black else Add(RectSum(src, x0, x1, y0, y1 - 1), RowSum(src, y1 - 1, x0, x1))
  }

  /** The value the filter gives the whole tile at (tx, ty): the floor mean,
      channel by channel, of the source pixels of that tile. */
  function TileAvg(src: array2<Pixel>, blockSize: nat, tx: int, ty: int): Pixel
    requires blockSize >= 1 && IsTile(src, blockSize, tx, ty)
    reads src
  {
    Mean(RectSum(src, tx, TileEnd(tx, blockSize, src.Length0), ty, TileEnd(ty, blockSize, src.Length1)),
         TileCount(src, blockSize, tx, ty))
  }

  /** The output pixel at (x, y): the average of the tile that holds it. */
  function MosaicPixel(src: array2<Pixel>, blockSize: nat, x: nat, y: nat): Pixel
    requires blockSize >= 1 && x < src.Length0 && y < src.Length1
    reads src
  {
    OneTile(src, blockSize, 0, 0, x, y);
    TileAvg(src, blockSize, Origin(x, blockSize), Origin(y, blockSize))
  }

  // ---------------------------------------------------------------------------
  // Properties of the specification

  /** Per-tile uniformity: every pixel of a tile, edge tiles included, gets
      one and the same value, the tile's average. */
  lemma {:induction false} TileUniform(src: array2<Pixel>, blockSize: nat, tx: int, ty: int, x: nat, y: nat)
    requires blockSize >= 1 && IsTile(src, blockSize, tx, ty)
    requires x < src.Length0 && y < src.Length1 && InTile(src, blockSize, tx, ty, x, y)
    ensures MosaicPixel(src, blockSize, x, y) == TileAvg(src, blockSize, tx, ty)
  {
    OneTile(src, blockSize, tx, ty, x, y);
  }

  /** A row segment of k pixels, each between lo and hi channel by channel,
      sums to between k * lo and k * hi channel by channel. */
  lemma {:induction false} RowSumWithin(src: array2<Pixel>, y: int, x0: int, x1: int, lo: Pixel, hi: Pixel)
    requires 0 <= y < src.Length1 && 0 <= x0 <= x1 <= src.Length0
    requires forall x :: x0 <= x < x1 ==> Within(src[x, y], lo, hi)
    ensures Within(RowSum(src, y, x0, x1), Scale(lo, x1 - x0), Scale(hi, x1 - x0))
    decreases x1 - x0
  {
    if x1 > x0 {
      var k := x1 - 1 - x0;
      RowSumWithin(src, y, x0, x1 - 1, lo, hi);
      AddWithin(RowSum(src, y, x0, x1 - 1), src[x1 - 1, y], Scale(lo, k), Scale(hi, k), lo, hi);
      ScaleByOneMore(lo, 1, k);
      ScaleByOneMore(hi, 1, k);
    }
  }

  /** A rectangle of n pixels, each between lo and hi channel by channel, sums
      to between n * lo and n * hi channel by channel. */
  lemma {:induction false} RectSumWithin(src: array2<Pixel>, x0: int, x1: int, y0: int, y1: int, lo: Pixel, hi: Pixel)
    requires 0 <= x0 <= x1 <= src.Length0 && 0 <= y0 <= y1 <= src.Length1
    requires forall x, y :: x0 <= x < x1 && y0 <= y < y1 ==> Within(src[x, y], lo, hi)
    ensures Within(RectSum(src, x0, x1, y0, y1), Scale(lo, (x1 - x0) * (y1 - y0)), Scale(hi, (x1 - x0) * (y1 - y0)))
    decreases y1 - y0
  {
    if y1 > y0 {
      var w, k := x1 - x0, y1 - 1 - y0;
      RectSumWithin(src, x0, x1, y0, y1 - 1, lo, hi);
      RowSumWithin(src, y1 - 1, x0, x1, lo, hi);
      AddWithin(RectSum(src, x0, x1, y0, y1 - 1), RowSum(src, y1 - 1, x0, x1),
                Scale(lo, w * k), Scale(hi, w * k), Scale(lo, w), Scale(hi, w));
      ScaleByOneMore(lo, w, k);
      ScaleByOneMore(hi, w, k);
    }
  }

  /** Scaling by w * (k + 1) is scaling by w * k and adding w times the pixel. */
  lemma ScaleByOneMore(p: Pixel, w: int, k: int)
    ensures Scale(p, w * (k + 1)) == Add(Scale(p, w * k), Scale(p, w))
  {
  }

  /** A tile's average lies, channel by channel, between any bounds of the
      tile's source pixels: in particular, each channel of the average lies
      between that channel's minimum and maximum over the tile. */
  lemma TileAvgWithin(src: array2<Pixel>, blockSize: nat, tx: int, ty: int, lo: Pixel, hi: Pixel)
    requires blockSize >= 1 && IsTile(src, blockSize, tx, ty)
    requires forall x, y :: InTile(src, blockSize, tx, ty, x, y) ==> Within(src[x, y], lo, hi)
    ensures Within(TileAvg(src, blockSize, tx, ty), lo, hi)
  {
    var x1, y1 := TileEnd(tx, blockSize, src.Length0), TileEnd(ty, blockSize, src.Length1);
    RectSumWithin(src, tx, x1, ty, y1, lo, hi);
    MeanWithin(RectSum(src, tx, x1, ty, y1), TileCount(src, blockSize, tx, ty), lo, hi);
  }

  /** An 8-bit source gives an 8-bit result: every output channel is in
      [0, 255] when every source channel is. */
  lemma MosaicInRange(src: array2<Pixel>, blockSize: nat, x: nat, y: nat)
    requires blockSize >= 1 && x < src.Length0 && y < src.Length1
    requires forall i, j :: 0 <= i < src.Length0 && 0 <= j < src.Length1 ==> InRange(src[i, j])
    ensures InRange(MosaicPixel(src, blockSize, x, y))
  {
    OneTile(src, blockSize, 0, 0, x, y);
    TileAvgWithin(src, blockSize, Origin(x, blockSize), Origin(y, blockSize), Black, White);
  }

  /** With blockSize 1 every tile is one pixel, which keeps its own value. */
  lemma BlockSizeOneIsIdentity(src: array2<Pixel>, x: nat, y: nat)
    requires x < src.Length0 && y < src.Length1
    ensures MosaicPixel(src, 1, x, y) == src[x, y]
  {
    assert Origin(x, 1) == x && Origin(y, 1) == y;
    assert RowSum(src, y, x, x + 1) == src[x, y];
    assert RectSum(src, x, x + 1, y, y + 1) == src[x, y];
  }

  /** A worked tile: a 2 x 2 image with block size 2 is one tile, and each
      channel of the result is the channel sum (465, 375, 335) divided by 4. */
  lemma TwoByTwoTile(src: array2<Pixel>, x: nat, y: nat)
    requires TwoByTwoImage(src) && x < 2 && y < 2
    ensures MosaicPixel(src, 2, x, y) == Pixel(116, 93, 83)
  {
    TwoByTwoSum(src);
    assert TileCount(src, 2, 0, 0) == 4;
    TileUniform(src, 2, 0, 0, x, y);
  }

  predicate TwoByTwoImage(src: array2<Pixel>)
    reads src
  {
    src.Length0 == 2 && src.Length1 == 2 &&
    src[0, 0] == Pixel(10, 20, 30) && src[1, 0] == Pixel(200, 100, 50) &&
    src[0, 1] == Pixel(0, 0, 0) && src[1, 1] == Pixel(255, 255, 255)
  }

  lemma TwoByTwoSum(src: array2<Pixel>)
    requires TwoByTwoImage(src)
    ensures RectSum(src, 0, 2, 0, 2) == Pixel(465, 375, 335)
  {
    assert RowSum(src, 0, 0, 1) == Pixel(10, 20, 30);
    assert RowSum(src, 0, 0, 2) == Pixel(210, 120, 80);
    assert RowSum(src, 1, 0, 1) == Pixel(0, 0, 0);
    assert RowSum(src, 1, 0, 2) == Pixel(255, 255, 255);
    assert RectSum(src, 0, 2, 0, 1) == Pixel(210, 120, 80);
  }

  // ---------------------------------------------------------------------------
  // The filter

  /** The accumulating loops of one tile: the channel sums and the pixel count
      of the rectangle [x0, x1) x [y0, y1) of the source. */
  method SumTile(src: array2<Pixel>, x0: int, x1: int, y0: int, y1: int)
    returns (sumR: int, sumG: int, sumB: int, count: int)
    requires 0 <= x0 <= x1 <= src.Length0 && 0 <= y0 <= y1 <= src.Length1
    ensures Pixel(sumR, sumG, sumB) == RectSum(src, x0, x1, y0, y1)
    ensures count == (x1 - x0) * (y1 - y0)
  {
    sumR, sumG, sumB := 0, 0, 0;
    count := 0;
    var cy := y0;
    while cy < y1
      invariant y0 <= cy <= y1
      invariant Pixel(sumR, sumG, sumB) == RectSum(src, x0, x1, y0, cy)
      invariant count == (x1 - x0) * (cy - y0)
    {
      var cx := x0;
      while cx < x1
        invariant x0 <= cx <= x1
        invariant Pixel(sumR, sumG, sumB) == Add(RectSum(src, x0, x1, y0, cy), RowSum(src, cy, x0, cx))
        invariant count == (x1 - x0) * (cy - y0) + (cx - x0)
      {
        var p := src[cx, cy];
        sumR := sumR + p.r;
        sumG := sumG + p.g;
        sumB := sumB + p.b;
        count := count + 1;
        cx := cx + 1;
      }
      assert (x1 - x0) * (cy + 1 - y0) == (x1 - x0) * (cy - y0) + (x1 - x0);
      cy := cy + 1;
    }
  }

  /** The writing loops of one tile: p goes to every pixel of [x0, x1) x [y0, y1)
      of out, and nothing else changes. */
  method FillTile(out: array2<Pixel>, x0: int, x1: int, y0: int, y1: int, p: Pixel)
    requires 0 <= x0 <= x1 <= out.Length0 && 0 <= y0 <= y1 <= out.Length1
    modifies out
    ensures forall x, y :: 0 <= x < out.Length0 && 0 <= y < out.Length1 ==>
              out[x, y] == if x0 <= x < x1 && y0 <= y < y1 then p else old(out[x, y])
  {
    var cy := y0;
    while cy < y1
      invariant y0 <= cy <= y1
      invariant forall x, y :: 0 <= x < out.Length0 && 0 <= y < out.Length1 ==>
                  out[x, y] == if x0 <= x < x1 && y0 <= y < cy then p else old(out[x, y])
    {
      var cx := x0;
      while cx < x1
        invariant x0 <= cx <= x1
        invariant forall x, y :: 0 <= x < out.Length0 && 0 <= y < out.Length1 ==>
                    out[x, y] == if x0 <= x < x1 && (y0 <= y < cy || (y == cy && x < cx)) then p else old(out[x, y])
      {
        out[cx, cy] := p;
        cx := cx + 1;
      }
      cy := cy + 1;
    }
  }

  /** The body of the two outer loops for the tile at (tx, ty): sum and count
      the source pixels of the tile, take the floor mean and write it to the
      whole tile of out. */
  method AverageTile(src: array2<Pixel>, out: array2<Pixel>, blockSize: nat, tx: int, ty: int)
    requires blockSize >= 1 && IsTile(src, blockSize, tx, ty)
    requires out != src && out.Length0 == src.Length0 && out.Length1 == src.Length1
    modifies out
    ensures forall x, y :: 0 <= x < out.Length0 && 0 <= y < out.Length1 ==>
              out[x, y] == if InTile(src, blockSize, tx, ty, x, y) then TileAvg(src, blockSize, tx, ty) else old(out[x, y])
  {
    var x1, y1 := TileEnd(tx, blockSize, src.Length0), TileEnd(ty, blockSize, src.Length1);
    var sumR, sumG, sumB, count := SumTile(src, tx, x1, ty, y1);
    assert count == TileCount(src, blockSize, tx, ty);
    var avg := Pixel(sumR / count, sumG / count, sumB / count);
    FillTile(out, tx, x1, ty, y1, avg);
  }

  /** The next value of range(0, n, blockSize) after a tile start is again a
      multiple of blockSize. */
  lemma NextStart(t: int, blockSize: nat)
    requires blockSize >= 1 && t >= 0 && t % blockSize == 0
    ensures (t + blockSize) % blockSize == 0
  {
    var q := t / blockSize;
    assert t == q * blockSize;
    assert t + blockSize == (q + 1) * blockSize;
    MultipleMod(q + 1, blockSize);
  }

  /** mosaic_filter, with the same default block size of 10: a fresh image
      of the same size whose every pixel holds the floor mean of the source
      tile it lies in. The source is only read. */
  method MosaicFilter(src: array2<Pixel>, blockSize: nat := 10) returns (out: array2<Pixel>)
    requires blockSize >= 1
    ensures fresh(out) && unchanged(src)
    ensures out.Length0 == src.Length0 && out.Length1 == src.Length1
    ensures forall x, y :: 0 <= x < out.Length0 && 0 <= y < out.Length1 ==>
              out[x, y] == MosaicPixel(src, blockSize, x, y)
    ensures forall tx, ty, x, y :: IsTile(src, blockSize, tx, ty) && InTile(src, blockSize, tx, ty, x, y) ==>
              out[x, y] == TileAvg(src, blockSize, tx, ty)
  {
    var width, height := src.Length0, src.Length1;
    out := new Pixel[width, height]((x, y) reads src => if 0 <= x < width && 0 <= y < height then src[x, y] else Black);
    var y := 0;
    while y < height
      invariant 0 <= y && y % blockSize == 0
      invariant forall px, py :: 0 <= px < width && 0 <= py < height && py < y ==>
                  out[px, py] == MosaicPixel(src, blockSize, px, py)
    {
      var x := 0;
      while x < width
        invariant 0 <= x && x % blockSize == 0
        invariant forall px, py :: 0 <= px < width && 0 <= py < height && (py < y || (py < y + blockSize && px < x)) ==>
                    out[px, py] == MosaicPixel(src, blockSize, px, py)
      {
        AverageTile(src, out, blockSize, x, y);
        forall px, py | 0 <= px < width && 0 <= py < height && InTile(src, blockSize, x, y, px, py)
          ensures out[px, py] == MosaicPixel(src, blockSize, px, py)
        {
          TileUniform(src, blockSize, x, y, px, py);
        }
        NextStart(x, blockSize);
        x := x + blockSize;
      }
      NextStart(y, blockSize);
      y := y + blockSize;
    }
    forall tx, ty, x, y | IsTile(src, blockSize, tx, ty) && InTile(src, blockSize, tx, ty, x, y)
      ensures out[x, y] == TileAvg(src, blockSize, tx, ty)
    {
      TileUniform(src, blockSize, tx, ty, x, y);
    }
  }
}
