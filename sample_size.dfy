/**
 * The sample size for decoding a picture into an upload thumbnail: the largest
 * power of two that still leaves both sides at least 120 pixels after one more
 * halving fails, found by doubling from 1.
 */
module SampleSizes {
  import opened JavaInts

  /** The size the thumbnail should at least keep on both sides. */
  const RequiredSize := 120

  /** 1, 2, 4, 8, ... */
  ghost predicate PowerOfTwo(n: int)
    decreases if n < 0 then 0 else n
  {
    n == 1 || (n > 1 && n % 2 == 0 && PowerOfTwo(n / 2))
  }

  /** The loop condition: halving once more still leaves both sides at the required size. */
  predicate KeepDoubling(outWidth: int, outHeight: int, scale: int)
    requires scale > 0
  {
    Div(Div(outWidth, scale), 2) >= RequiredSize && Div(Div(outHeight, scale), 2) >= RequiredSize
  }

  /**
   * `createThumbnailBitmap`'s scale: doubled while the condition holds. The result
   * is the first power of two at which it fails; when it exceeds 1, both sides
   * divided by it are still at least the required size, and a side below twice
   * the required size (an unknown, negative size included) keeps it at 1.
   */
  method SampleSize(outWidth: int, outHeight: int) returns (scale: int)
    ensures scale >= 1 && PowerOfTwo(scale)
    ensures !KeepDoubling(outWidth, outHeight, scale)
    ensures forall p :: PowerOfTwo(p) && p < scale ==> KeepDoubling(outWidth, outHeight, p)
    ensures scale > 1 ==> Div(outWidth, scale) >= RequiredSize && Div(outHeight, scale) >= RequiredSize
    ensures outWidth < 2 * RequiredSize || outHeight < 2 * RequiredSize ==> scale == 1
  {
    scale := 1;
    while KeepDoubling(outWidth, outHeight, scale)
      invariant scale >= 1 && PowerOfTwo(scale)
      invariant forall p :: PowerOfTwo(p) && p < scale ==> KeepDoubling(outWidth, outHeight, p)
      invariant scale > 1 ==> Div(outWidth, scale) >= RequiredSize && Div(outHeight, scale) >= RequiredSize
      decreases outWidth - scale
    {
      DoublingStep(outWidth, outHeight, scale);
      scale := 2 * scale;
    }
    assert PowerOfTwo(1);
    SmallSideStops(outWidth, outHeight);
  }

  /** One pass of the loop: doubling keeps the loop's invariant and brings the scale closer to the width. */
  lemma DoublingStep(outWidth: int, outHeight: int, scale: int)
    requires scale >= 1 && PowerOfTwo(scale) && KeepDoubling(outWidth, outHeight, scale)
    requires forall p :: PowerOfTwo(p) && p < scale ==> KeepDoubling(outWidth, outHeight, p)
    ensures PowerOfTwo(2 * scale) && 2 * scale <= outWidth
    ensures forall p :: PowerOfTwo(p) && p < 2 * scale ==> KeepDoubling(outWidth, outHeight, p)
    ensures Div(outWidth, 2 * scale) >= RequiredSize && Div(outHeight, 2 * scale) >= RequiredSize
  {
    DoublingBound(outWidth, scale);
    KeepBelowDouble(outWidth, outHeight, scale);
    DoublePower(scale);
    SideAfterDoubling(outWidth, scale);
    SideAfterDoubling(outHeight, scale);
  }

  /** The condition held at every power of two up to `scale`, so it holds below twice `scale`. */
  lemma KeepBelowDouble(outWidth: int, outHeight: int, scale: int)
    requires scale >= 1 && PowerOfTwo(scale) && KeepDoubling(outWidth, outHeight, scale)
    requires forall p :: PowerOfTwo(p) && p < scale ==> KeepDoubling(outWidth, outHeight, p)
    ensures forall p :: PowerOfTwo(p) && p < 2 * scale ==> KeepDoubling(outWidth, outHeight, p)
  {
    forall p | PowerOfTwo(p) && p < 2 * scale
      ensures KeepDoubling(outWidth, outHeight, p)
    {
      PowersBelowDouble(p, scale);
    }
  }

  lemma DoublePower(n: int)
    requires PowerOfTwo(n)
    ensures PowerOfTwo(2 * n)
  {
    assert (2 * n) / 2 == n;
  }

  /** With a side below twice the required size the loop does not run even once. */
  lemma SmallSideStops(outWidth: int, outHeight: int)
    ensures outWidth < 2 * RequiredSize || outHeight < 2 * RequiredSize ==> !KeepDoubling(outWidth, outHeight, 1)
  {
    if KeepDoubling(outWidth, outHeight, 1) {
      DoublingBound(outWidth, 1);
      DoublingBound(outHeight, 1);
    }
  }

  /** While the loop runs the side is well above the scale, so `side - scale` decreases. */
  lemma DoublingBound(side: int, scale: int)
    requires scale >= 1 && Div(Div(side, scale), 2) >= RequiredSize
    ensures side >= 2 * RequiredSize * scale
    ensures side >= 2 * scale
  {
    DivBounds(side, scale);
    if side >= 0 {
      DivTwice(side, scale);
      DivBounds(side, 2 * scale);
      MulLeft(2 * scale, RequiredSize, Div(side, 2 * scale));
    }
  }

  /** After doubling, the side divided by the new scale is what the loop condition checked. */
  lemma SideAfterDoubling(side: int, scale: int)
    requires scale >= 1 && Div(Div(side, scale), 2) >= RequiredSize
    ensures Div(side, 2 * scale) >= RequiredSize
  {
    DoublingBound(side, scale);
    DivTwice(side, scale);
  }

  /** A power of two below twice another power of two is at most that one. */
  lemma {:induction false} PowersBelowDouble(p: int, q: int)
    requires PowerOfTwo(p) && PowerOfTwo(q) && p < 2 * q
    ensures p <= q
    decreases q
  {
    if p > 1 && q > 1 {
      PowersBelowDouble(p / 2, q / 2);
    }
  }
}
