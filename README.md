# Mosaic filter

A Dafny model of the mosaic (block-averaging) filter of the image-filter
application `tarea1_pdi.py`, and proofs about it.

The filter takes an RGB image and a block size. It cuts the image into square
tiles of `blockSize × blockSize` pixels. Tile origins are the multiples of the
block size, starting at (0, 0). Tiles in the last column and the last row are
clipped at the image edge. For every tile it adds up each colour channel over
the tile's source pixels and counts those pixels. It takes the floor of
sum / count per channel. It writes that one colour to every pixel of the tile
in a copy of the image, and returns the copy.

Files:

- `pixels.dfy`, module `Pixels`: the RGB sample `Pixel`, channel-wise `Add`,
  channel bounds (`Within`, `InRange` for 8-bit samples) and the floor mean
  `Mean` that Python's `//` computes.
- `mosaic.dfy`, module `Mosaic`:
  - The image is an `array2<Pixel>` indexed `[x, y]`, like PIL's pixel-access
    object. `Length0` is the width and `Length1` the height.
  - The tiling: `Origin`, `IsTileStart`, `InSpan`, `IsTile`, `InTile`.
  - The specification of a tile's value: `RowSum`, `RectSum`, `TileCount`,
    `TileAvg`, `MosaicPixel`.
  - Lemmas about that specification.
  - The imperative filter:
    - `SumTile` holds the two accumulating loops.
    - `FillTile` holds the two writing loops.
    - `AverageTile` is the body of the two outer loops.
    - `MosaicFilter` holds the two outer loops over tile origins. It allocates
      the output as a fresh array initialised from the source. Its block size
      defaults to 10, as `block_size=10` does at tarea1_pdi.py:8.

Python's `//` rounds down. For a positive divisor Dafny's `/` does too, so
`Mean` uses `/` directly. Its contract gives the floor-quotient bounds.
Python integers are unbounded, like Dafny's, so sums need no wrap-around.

## Model

| member | source | states |
|---|---|---|
| `Pixels.Mean` | tarea1_pdi.py:33-35 | each channel of the result is the floor of sum / count: `m * count <= sum < (m + 1) * count` |
| `Pixels.MeanWithin` | tarea1_pdi.py:33-35 | per channel: if the channel sum lies in `[count * lo, count * hi]` for that channel's own bounds, the floor mean lies in `[lo, hi]` |
| `Pixels.Add` | tarea1_pdi.py:28-30 | definition: channel-wise sum of two pixels, one step of the running totals `sum_r += r`, `sum_g += g`, `sum_b += b` |
| `Mosaic.Min` | tarea1_pdi.py:25-26 | definition: Python's `min` of two integers, used to clip tile ends at lines 25-26 and 37-38 |
| `Mosaic.InSpan` | tarea1_pdi.py:37-38 | definition: coordinate p lies in the clipped span of the tile at t, `t <= p < min(t + blockSize, n)`: the index range of `range(t, min(t + block_size, n))` at lines 25-26 and 37-38 |
| `Mosaic.Origin` | tarea1_pdi.py:20-21 | definition: the tile origin of coordinate p is `p / blockSize * blockSize`, the largest value of `range(0, n, blockSize)` not above p |
| `Mosaic.IsTileStart` | tarea1_pdi.py:20-21 | definition: t is a value of `range(0, n, blockSize)`, that is `0 <= t < n` and `t % blockSize == 0` |
| `Mosaic.TileEnd` | tarea1_pdi.py:25-26 | definition: the clipped end of the tile at t is `min(t + blockSize, n)` |
| `Mosaic.IsTile` | tarea1_pdi.py:20-21 | definition: (tx, ty) is a tile origin the two outer loops visit, a tile start on each axis |
| `Mosaic.InTile` | tarea1_pdi.py:25-26 | definition: pixel (x, y) lies in the clipped tile at (tx, ty), `tx <= x < min(tx + blockSize, width)` and the same for y |
| `Mosaic.RowSum` | tarea1_pdi.py:26-30 | definition: the channel-wise sum of the pixels x0 <= x < x1 of row y, added left to right as the inner loop does |
| `Mosaic.RectSum` | tarea1_pdi.py:25-30 | definition: the channel-wise sum of the rectangle, row sums added top to bottom as the loop over rows does |
| `Mosaic.TileAvg` | tarea1_pdi.py:22-35 | definition: `Mean` of `RectSum` over the clipped tile at (tx, ty), divided by `TileCount` |
| `Mosaic.MosaicPixel` | tarea1_pdi.py:37-39 | definition: the output at (x, y) is `TileAvg` of the tile at (`Origin(x)`, `Origin(y)`) |
| `Mosaic.OneSpan` | tarea1_pdi.py:20-21 | on one axis, each coordinate in `[0, n)` lies in exactly one clipped tile: a value of `range(0, n, blockSize)` (`t % blockSize == 0`), clipped by `min(t + blockSize, n)`; that tile starts at `p / blockSize * blockSize` (both directions) |
| `Mosaic.NextStart` | tarea1_pdi.py:20-21 | stepping a tile origin by `blockSize` gives another multiple of `blockSize` |
| `Mosaic.OneTile` | tarea1_pdi.py:25-26 | the clipped tiles partition the image: pixel (x, y) is in the tile at (tx, ty) if and only if (tx, ty) is the tile at `Origin(x)`, `Origin(y)`, and that tile is one the outer loops visit |
| `Mosaic.TileCount` | tarea1_pdi.py:23-31 | a visited tile holds at least one and at most `blockSize²` pixels, so the divisions at lines 33-35 are never by zero |
| `Mosaic.TileUniform` | tarea1_pdi.py:37-39 | every pixel of a visited tile, edge tiles included, gets the same output: that tile's average |
| `Mosaic.RowSumWithin` | tarea1_pdi.py:26-30 | per channel: the sum over a row segment of k pixels whose channel lies in `[lo, hi]` lies in `[k * lo, k * hi]` |
| `Mosaic.RectSumWithin` | tarea1_pdi.py:25-30 | per channel: the sum over a rectangle of n pixels whose channel lies in `[lo, hi]` lies in `[n * lo, n * hi]` |
| `Mosaic.TileAvgWithin` | tarea1_pdi.py:22-35 | each channel of a tile's average lies between per-channel lower and upper bounds of the tile's source pixels (each channel has its own bounds), so between that channel's minimum and maximum over the tile |
| `Mosaic.MosaicInRange` | tarea1_pdi.py:33-39 | if every source channel is in [0, 255], every output pixel is in [0, 255] |
| `Mosaic.BlockSizeOneIsIdentity` | tarea1_pdi.py:25-39 | with block size 1 each output pixel equals its source pixel |
| `Mosaic.TwoByTwoTile` | tarea1_pdi.py:22-39 | worked case: the 2 × 2 image (10,20,30), (200,100,50), (0,0,0), (255,255,255) with block size 2 gives (116, 93, 83) at all four pixels |
| `Mosaic.SumTile` | tarea1_pdi.py:22-31 | the accumulating loops return the channel sums of the rectangle as `RectSum` defines them, and a count equal to the rectangle's area |
| `Mosaic.FillTile` | tarea1_pdi.py:37-39 | the writing loops set every pixel of the rectangle to the average and leave every other pixel of the output unchanged |
| `Mosaic.AverageTile` | tarea1_pdi.py:22-39 | one tile step: afterwards every pixel of the clipped tile holds `TileAvg` of the source and no other output pixel has changed |
| `Mosaic.MosaicFilter` | tarea1_pdi.py:8-41 | the result is a fresh image with the source's width and height; every pixel holds `MosaicPixel`, the floor mean of its tile; every pixel of every visited tile holds that tile's `TileAvg`; the source is unchanged |

## Left out

- The Streamlit user interface (tarea1_pdi.py:5, 44-95): page setup, sidebar,
  filter selector, block-size input, columns, image display and messages. This
  is presentation only.
- File upload and decoding with `Image.open` (tarea1_pdi.py:61, 76). This is I/O
  through a foreign library. The model takes an in-memory grid of RGB triples.
- PIL's `copy()` and `load()` (tarea1_pdi.py:15, 17-18). These are library
  internals. The copy is a fresh `array2` initialised from the source.
- Images that are not 3-channel. Line 27 unpacks exactly three channels, so
  the model's pixel is an RGB triple and alpha or palette modes are not
  represented. On such images the source fails at line 27: a single-band
  image ("L", "P") yields an int, so `r, g, b = …` raises TypeError, and a
  2- or 4-band image ("LA", "PA", "RGBA", "CMYK") raises ValueError. That
  error path is not modelled.
- The string-based filter dispatch in `main` (tarea1_pdi.py:65, 87). This is
  glue code.
- The grayscale, high-contrast, inverse, RGB and brightness filters. In this
  source they are only menu labels marked "pendiente" (tarea1_pdi.py:51-55),
  and choosing one only shows a warning (tarea1_pdi.py:93). There is no code
  to model.
- Mosaic.MosaicFilter: requires `blockSize >= 1`. The caller restricts the
  block size to 1..100 (tarea1_pdi.py:66-69). The upper bound does not matter
  to the filter, so it is not required. A block size of 0 would make `range`
  raise an error. A negative one would leave the loops empty and return the
  copy unchanged. Neither case is modelled, because no caller can produce it.
- The model does not require source channels to be in [0, 255].
  `MosaicFilter` and the specification functions need no channel bounds. Only
  the `…Within` lemmas and `MosaicInRange` take bounds as hypotheses. The
  filter's arithmetic is defined for any integers.

## Notes

- For the 2 × 2 image in `TwoByTwoTile` with block size 2, the channel sums
  are red 10 + 200 + 0 + 255 = 465, green 20 + 100 + 0 + 255 = 375 and blue
  30 + 50 + 0 + 255 = 335. With 4 pixels, 465 // 4 = 116, 375 // 4 = 93 and
  335 // 4 = 83, so every output pixel is (116, 93, 83).
- The loops in the source write the average into every pixel of a tile,
  clipped edge tiles included. `TileUniform` and `MosaicFilter` state this for
  all tiles, not just full-size ones.
