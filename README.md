# Railway scene analysis: decision logic

A model of the decision logic of a railway-safety demonstration app. An operator
uploads a railway image. One of two detection paths runs over it. The app reads the
colour of any signal light, applies hand-written hazard rules, adds a caption from a
vision-language model, and appends the outcome to a log table.

What is modelled, file by file:

- `signal_light.dfy` (module `SignalLight`): `detect_signal_color`. It counts the
  pixels of a region that lie in a red box and in a green box of OpenCV's 8-bit HSV
  space. Both boxes are inclusive, as `cv2.inRange` is. It returns Red, Green or
  Unknown by strict comparison. The region is given already converted to HSV.
- `hazard_rules.dfy` (module `HazardRules`): the if/elif hazard chain of
  `analyze_image`, written as an ordered rule table evaluated first-match, with Low as
  the default.
- `detect.dfy` (module `Detect`): the rest of `analyze_image`, from the detector's
  output on. `AnalyzeImage` is a method with the source's loop over the boxes. It
  appends each label and re-reads the signal colour on every `signal` or
  `traffic_light` box whose region is non-empty. It then runs the hazard chain and
  builds the summary. The region `image[y1:y2, x1:x2]` follows Python's slice rules:
  a negative bound counts from the end, and then bounds are clamped to the image.
  The method is proved equal to the function `Analysis`, and the lemmas are about
  that function.
- `smart_detect.dfy` (module `SmartDetect`): `smart_analyze`. It keeps the detector
  record and appends `"\nVLM says: "` and a caption to its summary. The captioner is
  a parameter of type `Option<string> -> string`, so "called without a question"
  means "applied to `None`".
- `app.dfy` (module `App`): the "YOLO-World + VLM" branch. It keeps the predictions
  whose class is outside the fixed vocabulary. It asks the captioner a question only
  when such predictions exist. It builds the summary
  `"YOLO-World Detected {n} objects. Unknowns: {m}"`. Hazard is High exactly when an
  unknown exists, and Low otherwise.
- `log_store.dfy` (module `LogStore`): `save_log`. The table is a class holding a
  row sequence and the next auto-increment id. Each save appends one row.
- `records.dfy` and `strings.dfy`: the shared result record (the five keys summary,
  labels, signal_color, hazard_level, direction), the text the source stores for each
  enumerated value, `", ".join`, `str.split(", ")`, and decimal rendering of counts.

Signal colour, hazard level and direction are enumerations here, where the source
uses strings. `Text()` gives the source's string, and the log stores that string.
Direction's `Undetermined` value is stored as "Unknown", as the YOLO-World branch
writes it.

## Model

| member | source | states |
|---|---|---|
| `SignalLight.MaskBounds` | detect.py:12-13 | A pixel is in the red mask iff 0≤H≤10, 70≤S≤255 and 50≤V≤255. It is in the green mask iff 40≤H≤90 with the same S and V bounds. No pixel is in both. |
| `SignalLight.MaskSumScalesCount` | detect.py:15-16 | The sum of a 0/255 mask is 255 times the number of pixels it switches on. |
| `SignalLight.MaskCountsFitRegion` | detect.py:12-16 | The red count plus the green count never exceeds the number of pixels in the region. |
| `SignalLight.DetectSignalColor` | detect.py:10-23 | The result is Red iff more pixels are red than green, Green iff more are green than red, and Unknown iff the two counts are equal. |
| `SignalLight.ClassifySymmetric` | detect.py:18-23 | Exchanging the red and green sums exchanges Red and Green and leaves Unknown fixed. |
| `SignalLight.NoColouredPixelIsUnknown` | detect.py:18-23 | A region with no red or green pixel reads Unknown. This includes the empty region. |
| `HazardRules.FirstMatchPicksFirst` | detect.py:49-56 | The first rule that holds decides the level, whatever later rules say. |
| `HazardRules.FirstMatchFallsThrough` | detect.py:32 | When no rule holds, the default level is returned. |
| `HazardRules.HazardLevels` | detect.py:49-56 | High iff (vehicle_on_track and Red) or rock or rail_damage. Medium iff not High and ((person and Red) or vehicle_on_track). Low iff none of these. |
| `HazardRules.HazardRespectsMembership` | detect.py:49-56 | Two label lists with the same members get the same level, whatever their order or repetitions. |
| `HazardRules.HazardExamples` | detect.py:49-56 | rock with vehicle_on_track under Red is High, the same as rock alone. person under Red is Medium and under Green is Low. No labels is Low. |
| `Detect.SliceSpan` | detect.py:44 | Python's adjusted slice `a:b` on length n lies within `[0, n]`. Its length is the positive part of the difference of the adjusted bounds. |
| `Detect.CropSize` | detect.py:44-45 | The region has (row-slice length) × (column-slice length) pixels. It is non-empty exactly when both slices are. |
| `Detect.LabelsOf` | detect.py:35-39 | One label per detected box, in detector order. |
| `Detect.SignalUnknownWithoutSignalBox` | detect.py:41-46 | With no signal or traffic_light box that has a non-empty region, the colour stays Unknown. |
| `Detect.SignalFromLastSignalBox` | detect.py:41-46 | Otherwise the colour is the classification of the last such box. |
| `Detect.SignalKnownHasSource` | detect.py:41-46 | A colour other than Unknown was read from the region of some such box. |
| `Detect.DetectedSummaryLabels` | detect.py:58 | The summary starts with "Detected: ". When no label contains a comma, splitting the rest at ", " gives back the labels. |
| `Detect.AnalyzeImage` | detect.py:26-66 | The loop, the hazard chain and the summary produce `Analysis`: the labels in order, the last signal box's colour, the rule-table hazard, direction Straight. |
| `Strings.SplitJoin` | detect.py:58 | Splitting at ", " undoes joining with ", ", for a non-empty list of comma-free parts. |
| `Strings.NatToStringRoundTrip` | app.py:87 | The decimal text of a count reads back as that count. |
| `SmartDetect.WithCaption` | smart_detect.py:13-22 | labels, signal_color, hazard_level and direction are copied from the detector record. summary is the detector summary + "\nVLM says: " + caption. |
| `SmartDetect.WithCaptionSplits` | smart_detect.py:13 | The detector summary is a prefix of the new summary. The caption is what follows the separator. Restoring the summary gives back the detector record. |
| `SmartDetect.SmartAnalyzeFields` | smart_detect.py:5-22 | The combined record carries the detector's labels, colour, rule-table hazard and Straight. Its summary ends with the caption produced for no question. |
| `App.Unknowns` | app.py:61 | Never longer than the predictions. Every kept prediction is one of them and has a class outside the vocabulary. |
| `App.UnknownsAppend` | app.py:61 | Filtering a concatenation is the concatenation of the filtered parts, so original order is kept. |
| `App.UnknownsMultiplicity` | app.py:61 | Each prediction outside the vocabulary is kept as often as it occurs. Every prediction inside it is dropped. |
| `App.UnknownsNonEmpty` | app.py:89 | There is an unknown iff some prediction's class is outside the vocabulary. |
| `App.Classes` | app.py:99 | One label per prediction, its class, in order. |
| `App.CaptionQuestion` | app.py:89-92 | A question is asked iff there are unknowns, and it is always the same question. |
| `App.WorldSummaryDetermines` | app.py:87-95 | Two equal full summaries have the same object count, the same unknown count and the same caption. |
| `App.WorldResult` | app.py:86-103 | Labels are the prediction classes. Hazard is High iff an unknown exists, and is never Medium. signal_color and direction are Unknown. The summary holds both counts and the caption for the question. |
| `App.WorldPolicyDiffersFromRules` | app.py:101 | A lone recognised "rock" is Low on this path. The rule table rates it High. |
| `LogStore.EntryFor` | app.py:35-38 | The row copies summary, name, time and coordinates. Its direction, hazard and signal text parse back to the result's values. |
| `LogStore.Log.constructor` | app.py:15-27 | A new table is empty and its first id is 1. |
| `LogStore.Log.SaveLog` | app.py:30-39 | Exactly one row is appended, with fields copied from the arguments. Earlier rows are unchanged. The new id exceeds every earlier id. |

## Left out

- Model loading and inference of the detector, the open-vocabulary web service and the captioner are left out. They are pretrained models and remote calls. Their outputs are inputs here: boxes, predictions, and a captioner function.
- The RGB to HSV conversion (`cv2.cvtColor`) is left out, since it is numeric conversion in a library. The image is given as HSV pixels. The conversion works pixel by pixel, so converting then cropping is the same as cropping then converting.
- Box coordinates are taken as whole numbers. The float-to-int cast of the detector's corners is not modelled.
- The JPEG/base64 encoding, the HTTP request and the JSON parsing in `run_yolo_world` are left out (network I/O). Their errors, including a prediction without a "class" key, propagate in the source and are not modelled.
- The captioning wrapper in vlm.py is not part of this model. It builds a prompt from the question but never passes it to the model, so the question has no effect on the caption.
- The open-world detector scaffolding in owod.py is not part of this model. The app never calls it.
- The Streamlit screens are left out as presentation: the mode selector that picks between the two paths, the High-hazard alert, the tables, chart, map and CSV export.
- The SQLite engine is left out. So are durability across restarts and the `ORDER BY timestamp DESC` listing. The table is an in-memory sequence of rows in insertion order.
- `LogStore.Log.SaveLog`: the current time is a parameter instead of a clock reading. Latitude and longitude are `real`, without floating-point rounding.
- `SignalLight.DetectSignalColor`: red is only the low end of the hue circle (0 to 10). Hues near 180, which are also red, count as neither colour, exactly as in the source.
