/** Pixels: the 3-channel colour samples a mosaic reads and writes, and the
    channel-wise arithmetic the filter performs on them. */
module Pixels {

  /** One RGB sample. Channels are unbounded integers here; a decoded 8-bit
      image keeps every channel in [0, 255] (see InRange). */
  datatype Pixel = Pixel(r: int, g: int, b: int)

  const Black := Pixel(0, 0, 0)
  const White := Pixel(255, 255, 255)

  /** Channel-wise sum, as the running totals sum_r, sum_g, sum_b add up. */
  function Add(p: Pixel, q: Pixel): Pixel
  {
    Pixel(p.r + q.r, p.g + q.g, p.b + q.b)
  }

  /** Channel-wise product of a pixel with a count. */
  function Scale(p: Pixel, k: int): Pixel
  {
    Pixel(p.r * k, p.g * k, p.b * k)
  }

  /** Each channel of p lies between the same channel of lo and of hi; the
      three channels have bounds of their own. */
  predicate Within(p: Pixel, lo: Pixel, hi: Pixel)
  {
    lo.r <= p.r <= hi.r && lo.g <= p.g <= hi.g && lo.b <= p.b <= hi.b
  }

  /** Bounds add up channel by channel. */
  lemma AddWithin(p: Pixel, q: Pixel, plo: Pixel, phi: Pixel, qlo: Pixel, qhi: Pixel)
    requires Within(p, plo, phi) && Within(q, qlo, qhi)
    ensures Within(Add(p, q), Add(plo, qlo), Add(phi, qhi))
  {
  }

  /** An 8-bit colour sample. */
  predicate InRange(p: Pixel)
  {
    Within(p, Black, White)
  }

  /** Channel-wise floor division of a sum by a pixel count, as Python's
      `//` computes it. For a positive divisor Dafny's `/` rounds down too,
      so the contract below is the floor-quotient characterisation. */
  function Mean(sum: Pixel, count: int): (m: Pixel)
    requires count >= 1
    ensures m.r * count <= sum.r < (m.r + 1) * count
    ensures m.g * count <= sum.g < (m.g + 1) * count
    ensures m.b * count <= sum.b < (m.b + 1) * count
  {
    Pixel(sum.r / count, sum.g / count, sum.b / count)
  }

  /** A floor mean lies between bounds of the values it averages, channel by
      channel: if each channel of the sum of count values lies between count
      times that channel of lo and count times that channel of hi, the mean's
      channel lies between lo's and hi's. */
  lemma MeanWithin(sum: Pixel, count: int, lo: Pixel, hi: Pixel)
    requires count >= 1
    requires Within(sum, Scale(lo, count), Scale(hi, count))
    ensures Within(Mean(sum, count), lo, hi)
  {
    var m := Mean(sum, count);
    FloorQuotientWithin(sum.r, m.r, count, lo.r, hi.r);
    FloorQuotientWithin(sum.g, m.g, count, lo.g, hi.g);
    FloorQuotientWithin(sum.b, m.b, count, lo.b, hi.b);
  }

  /** The floor quotient q of s by n stays within [lo, hi] when s is within
      [lo * n, hi * n]. */
  lemma FloorQuotientWithin(s: int, q: int, n: int, lo: int, hi: int)
    requires n >= 1
    requires q * n <= s < (q + 1) * n
    requires lo * n <= s <= hi * n
    ensures lo <= q <= hi
  {
  }
}
