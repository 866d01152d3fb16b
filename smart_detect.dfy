/**
 * The "YOLO + VLM" path: the detector's record with a caption appended to its
 * summary and every other field kept.
 */
module SmartDetect {
  import opened Records
  import opened HazardRules
  import opened Detect

  /** The captioning model, seen as a function of the optional question it is given. */
  type Captioner = Option<string> -> string

  const CaptionSeparator := "\nVLM says: "

  /** The detector record with `caption` appended to its summary. */
  function WithCaption(detected: AnalysisResult, caption: string): (r: AnalysisResult)
    ensures r.labels == detected.labels && r.signalColor == detected.signalColor
    ensures r.hazardLevel == detected.hazardLevel && r.direction == detected.direction
    ensures r.summary == detected.summary + CaptionSeparator + caption
  {
    AnalysisResult(detected.summary + CaptionSeparator + caption,
      detected.labels, detected.signalColor, detected.hazardLevel, detected.direction)
  }

  /** The detector summary is a prefix of the new one and the caption can be cut back out. */
  lemma WithCaptionSplits(detected: AnalysisResult, caption: string)
    ensures detected.summary <= WithCaption(detected, caption).summary
    ensures WithCaption(detected, caption).summary[|detected.summary| + |CaptionSeparator|..] == caption
    ensures WithCaption(detected, caption).(summary := detected.summary) == detected
  {
    var s := WithCaption(detected, caption).summary;
    assert s[..|detected.summary|] == detected.summary;
  }

  /** `smart_analyze`: detect, then caption the image without a question. */
  function SmartAnalyze(img: Image, ds: seq<Detection>, captioner: Captioner): AnalysisResult
  {
    WithCaption(Analysis(img, ds), captioner(None))
  }

  /** What the combined record carries, in terms of the detector's boxes and the captioner. */
  lemma SmartAnalyzeFields(img: Image, ds: seq<Detection>, captioner: Captioner)
    ensures var r := SmartAnalyze(img, ds, captioner);
      && r.labels == LabelsOf(ds)
      && r.signalColor == SignalAfter(img, ds)
      && r.hazardLevel == Hazard(LabelsOf(ds), SignalAfter(img, ds))
      && r.direction == Straight
      && r.summary == DetectedSummary(LabelsOf(ds)) + CaptionSeparator + captioner(None)
  {
  }
}
