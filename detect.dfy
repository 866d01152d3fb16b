/**
 * The closed-vocabulary detection path: the detector's boxes are walked in
 * order, their labels collected, signal boxes cropped and classified, and the
 * hazard rules applied to the result.
 */
module Detect {
  import opened Records
  import opened Strings
  import opened SignalLight
  import opened HazardRules

  /** A rectangular image, already converted to HSV, as rows of pixels. */
  datatype Raster = Raster(width: nat, rows: seq<seq<Hsv>>)

  type Image = r: Raster | forall i :: 0 <= i < |r.rows| ==> |r.rows[i]| == r.width
    witness Raster(0, [])

  /** One detector box: its class name and its corners `(x1, y1, x2, y2)` in whole pixels. */
  datatype Detection = Detection(name: string, x1: int, y1: int, x2: int, y2: int)

  /** The positions `a:b` selects in a sequence of length `n`. */
  datatype Span = Span(lo: nat, hi: nat)

  /** A slice bound as Python adjusts it: negative counts from the end, then clamped into `[0, n]`. */
  function AdjustBound(a: int, n: nat): (k: nat)
    ensures k <= n
    ensures 0 <= a <= n ==> k == a
    ensures -(n as int) <= a < 0 ==> k == a + n
    ensures a > n ==> k == n
    ensures a < -(n as int) ==> k == 0
  {
    if a < 0 then (if a + n < 0 then 0 else a + n)
    else if a > n then n
    else a
  }

  /** Python's slice `a:b` on a sequence of length `n`. */
  function SliceSpan(a: int, b: int, n: nat): (s: Span)
    ensures s.lo <= s.hi <= n
    ensures s.hi - s.lo == if AdjustBound(b, n) > AdjustBound(a, n) then AdjustBound(b, n) - AdjustBound(a, n) else 0
  {
    var lo := AdjustBound(a, n);
    var hi := AdjustBound(b, n);
    Span(lo, if hi < lo then lo else hi)
  }

  function RowSpan(img: Image, d: Detection): Span {
    SliceSpan(d.y1, d.y2, |img.rows|)
  }

  function ColumnSpan(img: Image, d: Detection): Span {
    SliceSpan(d.x1, d.x2, img.width)
  }

  /** `roi.size > 0` for `roi = image[y1:y2, x1:x2]`. */
  predicate RoiNonEmpty(img: Image, d: Detection) {
    RowSpan(img, d).lo < RowSpan(img, d).hi && ColumnSpan(img, d).lo < ColumnSpan(img, d).hi
  }

  /** The pixels of `rows[..][lo..hi]`, row after row. */
  function CropRows(rows: seq<seq<Hsv>>, lo: nat, hi: nat): (region: seq<Hsv>)
    requires lo <= hi
    requires forall i :: 0 <= i < |rows| ==> hi <= |rows[i]|
    ensures |region| == |rows| * (hi - lo)
  {
    if rows == [] then []
    else rows[0][lo..hi] + CropRows(rows[1..], lo, hi)
  }

  /** The region `image[y1:y2, x1:x2]` of a box. */
  function Crop(img: Image, d: Detection): seq<Hsv>
  {
    var ys := RowSpan(img, d);
    var xs := ColumnSpan(img, d);
    CropRows(img.rows[ys.lo..ys.hi], xs.lo, xs.hi)
  }

  lemma ProductPositive(h: nat, w: nat)
    ensures h * w > 0 <==> h > 0 && w > 0
  {
    if h > 0 && w > 0 {
      assert h * w >= w;
    }
  }

  /** The region has pixels exactly when the adjusted slices are both non-empty. */
  lemma CropSize(img: Image, d: Detection)
    ensures |Crop(img, d)| == (RowSpan(img, d).hi - RowSpan(img, d).lo) * (ColumnSpan(img, d).hi - ColumnSpan(img, d).lo)
    ensures RoiNonEmpty(img, d) <==> |Crop(img, d)| > 0
  {
    var ys := RowSpan(img, d);
    var xs := ColumnSpan(img, d);
    var rows := img.rows[ys.lo..ys.hi];
    assert |rows| == ys.hi - ys.lo;
    assert |Crop(img, d)| == |rows| * (xs.hi - xs.lo);
    ProductPositive(ys.hi - ys.lo, xs.hi - xs.lo);
  }

  const SignalNames: seq<string> := ["signal", "traffic_light"]

  /** A box that sets the signal colour: a signal class with a non-empty region. */
  predicate Sets(img: Image, d: Detection) {
    d.name in SignalNames && RoiNonEmpty(img, d)
  }

  /** The labels list, one entry per box, built by appending. */
  function LabelsOf(ds: seq<Detection>): (labels: seq<string>)
    ensures |labels| == |ds|
    ensures forall i :: 0 <= i < |ds| ==> labels[i] == ds[i].name
  {
    if ds == [] then [] else LabelsOf(ds[..|ds| - 1]) + [ds[|ds| - 1].name]
  }

  /** The signal colour after walking `ds`: set anew by every box that `Sets` it. */
  function SignalAfter(img: Image, ds: seq<Detection>): SignalColor
  {
    if ds == [] then Unknown
    else if Sets(img, ds[|ds| - 1]) then DetectSignalColor(Crop(img, ds[|ds| - 1]))
    else SignalAfter(img, ds[..|ds| - 1])
  }

  /** With no box that sets it, the colour stays Unknown. */
  lemma {:induction false} SignalUnknownWithoutSignalBox(img: Image, ds: seq<Detection>)
    requires forall i :: 0 <= i < |ds| ==> !Sets(img, ds[i])
    ensures SignalAfter(img, ds) == Unknown
  {
    if ds != [] {
      SignalUnknownWithoutSignalBox(img, ds[..|ds| - 1]);
    }
  }

  /** Otherwise the colour is the classification of the last box that sets it. */
  lemma {:induction false} SignalFromLastSignalBox(img: Image, ds: seq<Detection>, k: nat)
    requires k < |ds| && Sets(img, ds[k])
    requires forall j :: k < j < |ds| ==> !Sets(img, ds[j])
    ensures SignalAfter(img, ds) == DetectSignalColor(Crop(img, ds[k]))
  {
    if k < |ds| - 1 {
      SignalFromLastSignalBox(img, ds[..|ds| - 1], k);
    }
  }

  /** A colour other than Unknown was read from some signal box. */
  lemma {:induction false} SignalKnownHasSource(img: Image, ds: seq<Detection>)
    requires SignalAfter(img, ds) != Unknown
    ensures exists k :: 0 <= k < |ds| && Sets(img, ds[k]) && SignalAfter(img, ds) == DetectSignalColor(Crop(img, ds[k]))
  {
    var n := |ds| - 1;
    if Sets(img, ds[n]) {
      assert 0 <= n < |ds| && Sets(img, ds[n]) && SignalAfter(img, ds) == DetectSignalColor(Crop(img, ds[n]));
    } else {
      var prefix := ds[..n];
      SignalKnownHasSource(img, prefix);
      var k :| 0 <= k < |prefix| && Sets(img, prefix[k]) && SignalAfter(img, prefix) == DetectSignalColor(Crop(img, prefix[k]));
      assert ds[k] == prefix[k];
    }
  }

  /** "Detected: " followed by the labels joined with ", ". */
  function DetectedSummary(labels: seq<string>): string {
    "Detected: " + Join(labels)
  }

  /** The labels can be read back from the summary when none contains a comma. */
  lemma DetectedSummaryLabels(labels: seq<string>)
    requires |labels| >= 1
    requires forall i :: 0 <= i < |labels| ==> ',' !in labels[i]
    ensures DetectedSummary(labels)[..10] == "Detected: "
    ensures Split(DetectedSummary(labels)[10..]) == labels
  {
    assert DetectedSummary(labels)[10..] == Join(labels);
    SplitJoin(labels);
  }

  /** The record `analyze_image` returns for detector output `ds` on image `img`. */
  function Analysis(img: Image, ds: seq<Detection>): AnalysisResult
  {
    var labels := LabelsOf(ds);
    var color := SignalAfter(img, ds);
    AnalysisResult(DetectedSummary(labels), labels, color, Hazard(labels, color), Straight)
  }

  /** `analyze_image` from the detector's output on. */
  method AnalyzeImage(img: Image, ds: seq<Detection>) returns (result: AnalysisResult)
    ensures result == Analysis(img, ds)
  {
    var labels: seq<string> := [];
    var signalColor := SignalColor.Unknown;
    var hazardLevel := Low;
    var direction := Straight;

    for i := 0 to |ds|
      invariant labels == LabelsOf(ds[..i])
      invariant signalColor == SignalAfter(img, ds[..i])
    {
      var box := ds[i];
      assert ds[..i + 1][..i] == ds[..i];
      labels := labels + [box.name];
      if box.name in SignalNames {
        if RoiNonEmpty(img, box) {
          signalColor := DetectSignalColor(Crop(img, box));
        }
      }
    }
    assert ds[..|ds|] == ds;

    HazardLevels(labels, signalColor);
    if "vehicle_on_track" in labels && signalColor == Red {
      hazardLevel := High;
    } else if "rock" in labels || "rail_damage" in labels {
      hazardLevel := High;
    } else if "person" in labels && signalColor == Red {
      hazardLevel := Medium;
    } else if "vehicle_on_track" in labels {
      hazardLevel := Medium;
    }

    var summary := "Detected: " + Join(labels);
    result := AnalysisResult(summary, labels, signalColor, hazardLevel, direction);
  }
}
