/**
 * The "YOLO-World + VLM" path: predictions from the open-vocabulary service
 * are split into known and unknown classes, the caption is asked about the
 * unknown ones, and the hazard is High exactly when there is one.
 */
module App {
  import opened Records
  import opened Strings
  import opened HazardRules
  import opened SmartDetect

  /** The candidate classes sent with every request. */
  const OpenVocab: seq<string> := ["rock", "rail", "rail damage", "vehicle", "signal", "worker", "tree", "obstacle", "barrier"]

  /** One prediction of the service; only its class is read. */
  datatype Prediction = Prediction(cls: string)

  /** The predictions whose class is not in the vocabulary, in their original order. */
  function Unknowns(preds: seq<Prediction>): (u: seq<Prediction>)
    ensures |u| <= |preds|
    ensures forall i :: 0 <= i < |u| ==> u[i] in preds && u[i].cls !in OpenVocab
  {
    if preds == [] then []
    else (if preds[0].cls in OpenVocab then [] else [preds[0]]) + Unknowns(preds[1..])
  }

  /** Filtering distributes over concatenation, so relative order is kept. */
  lemma {:induction false} UnknownsAppend(a: seq<Prediction>, b: seq<Prediction>)
    ensures Unknowns(a + b) == Unknowns(a) + Unknowns(b)
  {
    if a == [] {
      assert a + b == b;
    } else {
      assert (a + b)[0] == a[0];
      assert (a + b)[1..] == a[1..] + b;
      UnknownsAppend(a[1..], b);
      var keep := if a[0].cls in OpenVocab then [] else [a[0]];
      calc {
        Unknowns(a + b);
        keep + Unknowns(a[1..] + b);
        keep + (Unknowns(a[1..]) + Unknowns(b));
        (keep + Unknowns(a[1..])) + Unknowns(b);
      }
    }
  }

  /** Each prediction outside the vocabulary is kept as often as it occurs; the others are dropped. */
  lemma {:induction false} UnknownsMultiplicity(preds: seq<Prediction>, p: Prediction)
    ensures multiset(Unknowns(preds))[p] == if p.cls in OpenVocab then 0 else multiset(preds)[p]
  {
    if preds != [] {
      var head, tail := preds[0], preds[1..];
      var keep := if head.cls in OpenVocab then [] else [head];
      assert preds == [head] + tail;
      assert Unknowns(preds) == keep + Unknowns(tail);
      assert multiset(Unknowns(preds)) == multiset(keep) + multiset(Unknowns(tail));
      assert multiset(preds) == multiset([head]) + multiset(tail);
      UnknownsMultiplicity(tail, p);
    }
  }

  /** There is an unknown exactly when some prediction's class is outside the vocabulary. */
  lemma {:induction false} UnknownsNonEmpty(preds: seq<Prediction>)
    ensures |Unknowns(preds)| > 0 <==> exists i :: 0 <= i < |preds| && preds[i].cls !in OpenVocab
  {
    if preds != [] {
      UnknownsNonEmpty(preds[1..]);
      if exists i :: 0 <= i < |preds[1..]| && preds[1..][i].cls !in OpenVocab {
        var i :| 0 <= i < |preds[1..]| && preds[1..][i].cls !in OpenVocab;
        assert preds[i + 1].cls !in OpenVocab;
      }
      if exists i :: 0 <= i < |preds| && preds[i].cls !in OpenVocab {
        var i :| 0 <= i < |preds| && preds[i].cls !in OpenVocab;
        if i > 0 {
          assert preds[1..][i - 1].cls !in OpenVocab;
        }
      }
    }
  }

  /** The class of each prediction, in order. */
  function Classes(preds: seq<Prediction>): (labels: seq<string>)
    ensures |labels| == |preds|
    ensures forall i :: 0 <= i < |preds| ==> labels[i] == preds[i].cls
  {
    if preds == [] then [] else [preds[0].cls] + Classes(preds[1..])
  }

  const UnknownObjectsQuestion := "What are the unknown objects in this image?"

  /** The question put to the captioner: one exactly when there are unknowns. */
  function CaptionQuestion(unknowns: seq<Prediction>): (q: Option<string>)
    ensures q.Some? <==> |unknowns| > 0
    ensures q.Some? ==> q.value == UnknownObjectsQuestion
  {
    if |unknowns| > 0 then Some(UnknownObjectsQuestion) else None
  }

  /** "YOLO-World Detected {n} objects. Unknowns: {m}". */
  function WorldSummary(detected: nat, unknown: nat): string
  {
    "YOLO-World Detected " + NatToString(detected) + " objects. Unknowns: " + NatToString(unknown)
  }

  /** Removing a common prefix. */
  lemma CancelPrefix(p: string, u: string, v: string)
    requires p + u == p + v
    ensures u == v
  {
    assert u == (p + u)[|p|..];
    assert v == (p + v)[|p|..];
  }

  /** The full summary, regrouped from the right so its parts can be peeled off one at a time. */
  lemma WorldSummaryRegrouped(n: nat, m: nat, c: string)
    ensures WorldSummary(n, m) + CaptionSeparator + c ==
      "YOLO-World Detected " + (NatToString(n) + (" objects. Unknowns: " + (NatToString(m) + (CaptionSeparator + c))))
  {
  }

  /** The two counts and the caption can be read back from the full summary. */
  lemma WorldSummaryDetermines(n: nat, m: nat, c: string, n2: nat, m2: nat, c2: string)
    requires WorldSummary(n, m) + CaptionSeparator + c == WorldSummary(n2, m2) + CaptionSeparator + c2
    ensures n == n2 && m == m2 && c == c2
  {
    var middle := " objects. Unknowns: ";
    var y, y2 := CaptionSeparator + c, CaptionSeparator + c2;
    var x, x2 := middle + (NatToString(m) + y), middle + (NatToString(m2) + y2);
    WorldSummaryRegrouped(n, m, c);
    WorldSummaryRegrouped(n2, m2, c2);
    CancelPrefix("YOLO-World Detected ", NatToString(n) + x, NatToString(n2) + x2);
    NumeralPrefixUnique(NatToString(n), x, NatToString(n2), x2);
    CancelPrefix(middle, NatToString(m) + y, NatToString(m2) + y2);
    NumeralPrefixUnique(NatToString(m), y, NatToString(m2), y2);
    CancelPrefix(CaptionSeparator, c, c2);
    NatToStringRoundTrip(n);
    NatToStringRoundTrip(n2);
    NatToStringRoundTrip(m);
    NatToStringRoundTrip(m2);
  }

  /** The record the "YOLO-World + VLM" branch builds from the service's predictions. */
  function WorldResult(preds: seq<Prediction>, captioner: Captioner): (r: AnalysisResult)
    ensures r.labels == Classes(preds)
    ensures r.hazardLevel == High <==> exists i :: 0 <= i < |preds| && preds[i].cls !in OpenVocab
    ensures r.hazardLevel != Medium
    ensures r.signalColor == Unknown && r.direction == Undetermined
    ensures r.summary == WorldSummary(|preds|, |Unknowns(preds)|) + CaptionSeparator
                           + captioner(if |Unknowns(preds)| > 0 then Some(UnknownObjectsQuestion) else None)
  {
    var unknowns := Unknowns(preds);
    var summary := WorldSummary(|preds|, |unknowns|);
    var caption := captioner(CaptionQuestion(unknowns));
    UnknownsNonEmpty(preds);
    AnalysisResult(summary + CaptionSeparator + caption, Classes(preds), Unknown,
      if |unknowns| > 0 then High else Low, Undetermined)
  }

  /** The two paths' hazard policies differ: a rock the service recognises is Low here and High under the rule table. */
  lemma WorldPolicyDiffersFromRules(captioner: Captioner)
    ensures WorldResult([Prediction("rock")], captioner).hazardLevel == Low
    ensures Hazard(Classes([Prediction("rock")]), Unknown) == High
  {
    assert "rock" in OpenVocab;
    HazardLevels(["rock"], Unknown);
  }
}
