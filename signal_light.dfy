/**
 * The signal-colour heuristic: count the pixels of a cropped signal light that
 * fall in a red and in a green HSV box and compare the two counts.
 */
module SignalLight {
  import opened Records

  /** One pixel in OpenCV's 8-bit HSV space (hue 0..179, saturation and value 0..255). */
  datatype Hsv = Hsv(h: int, s: int, v: int)

  /** A box in HSV space, inclusive at both ends on every channel, as `cv2.inRange` takes it. */
  datatype HsvRange = HsvRange(lo: Hsv, hi: Hsv)

  predicate InRange(p: Hsv, r: HsvRange) {
    r.lo.h <= p.h <= r.hi.h && r.lo.s <= p.s <= r.hi.s && r.lo.v <= p.v <= r.hi.v
  }

  /** Only the low end of the hue circle counts as red; hues near 180 do not. */
  const RedRange := HsvRange(Hsv(0, 70, 50), Hsv(10, 255, 255))
  const GreenRange := HsvRange(Hsv(40, 70, 50), Hsv(90, 255, 255))

  lemma MaskBounds(p: Hsv)
    ensures InRange(p, RedRange) <==> 0 <= p.h <= 10 && 70 <= p.s <= 255 && 50 <= p.v <= 255
    ensures InRange(p, GreenRange) <==> 40 <= p.h <= 90 && 70 <= p.s <= 255 && 50 <= p.v <= 255
    ensures !(InRange(p, RedRange) && InRange(p, GreenRange))
  {
  }

  /** How many pixels of `region` the mask for `r` switches on. */
  function MaskCount(region: seq<Hsv>, r: HsvRange): nat
  {
    if region == [] then 0
    else MaskCount(region[..|region| - 1], r) + (if InRange(region[|region| - 1], r) then 1 else 0)
  }

  /** `np.sum` over the mask `cv2.inRange` builds: 255 for every pixel inside, 0 outside. */
  function MaskSum(region: seq<Hsv>, r: HsvRange): nat
  {
    if region == [] then 0
    else MaskSum(region[..|region| - 1], r) + (if InRange(region[|region| - 1], r) then 255 else 0)
  }

  lemma {:induction false} MaskSumScalesCount(region: seq<Hsv>, r: HsvRange)
    ensures MaskSum(region, r) == 255 * MaskCount(region, r)
  {
    if region != [] {
      MaskSumScalesCount(region[..|region| - 1], r);
    }
  }

  /** No pixel is both red and green, so the two counts share the region between them. */
  lemma {:induction false} MaskCountsFitRegion(region: seq<Hsv>)
    ensures MaskCount(region, RedRange) + MaskCount(region, GreenRange) <= |region|
  {
    if region != [] {
      MaskCountsFitRegion(region[..|region| - 1]);
      MaskBounds(region[|region| - 1]);
    }
  }

  /** The strict comparison on the two mask sums. */
  function Classify(redSum: nat, greenSum: nat): SignalColor
  {
    if redSum > greenSum then Red
    else if greenSum > redSum then Green
    else Unknown
  }

  /** The colour with red and green exchanged. */
  function Swapped(c: SignalColor): SignalColor
  {
    match c
    case Red => Green
    case Green => Red
    case Unknown => Unknown
  }

  /** Exchanging the two sums exchanges Red and Green and fixes Unknown. */
  lemma ClassifySymmetric(redSum: nat, greenSum: nat)
    ensures Classify(greenSum, redSum) == Swapped(Classify(redSum, greenSum))
  {
  }

  /** `detect_signal_color` on a region already converted to HSV. */
  function DetectSignalColor(region: seq<Hsv>): (c: SignalColor)
    ensures c == Red <==> MaskCount(region, RedRange) > MaskCount(region, GreenRange)
    ensures c == Green <==> MaskCount(region, GreenRange) > MaskCount(region, RedRange)
    ensures c == Unknown <==> MaskCount(region, RedRange) == MaskCount(region, GreenRange)
  {
    MaskSumScalesCount(region, RedRange);
    MaskSumScalesCount(region, GreenRange);
    Classify(MaskSum(region, RedRange), MaskSum(region, GreenRange))
  }

  /** A region with no red and no green pixel (the empty one among them) reads Unknown. */
  lemma {:induction false} NoColouredPixelIsUnknown(region: seq<Hsv>)
    requires forall i :: 0 <= i < |region| ==> !InRange(region[i], RedRange) && !InRange(region[i], GreenRange)
    ensures MaskCount(region, RedRange) == 0 && MaskCount(region, GreenRange) == 0
    ensures DetectSignalColor(region) == Unknown
  {
    if region != [] {
      NoColouredPixelIsUnknown(region[..|region| - 1]);
    }
  }
}
