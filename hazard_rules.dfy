/**
 * The hazard rule engine of the closed-vocabulary path: an ordered list of
 * (condition, level) rules over the detected labels and the signal colour,
 * where the first rule that holds decides and Low is the default.
 */
module HazardRules {
  import opened Records

  /** A rule's condition: label membership, a signal colour, and their combinations. */
  datatype Condition =
    | Has(name: string)
    | SignalIs(color: SignalColor)
    | Both(left: Condition, right: Condition)
    | Either(left: Condition, right: Condition)

  predicate Holds(c: Condition, labels: seq<string>, color: SignalColor)
  {
    match c
    case Has(l) => l in labels
    case SignalIs(k) => color == k
    case Both(a, b) => Holds(a, labels, color) && Holds(b, labels, color)
    case Either(a, b) => Holds(a, labels, color) || Holds(b, labels, color)
  }

  datatype Rule = Rule(when: Condition, level: HazardLevel)

  /** The rule table, in the order the source tests it. */
  const Rules: seq<Rule> := [
    Rule(Both(Has("vehicle_on_track"), SignalIs(Red)), High),
    Rule(Either(Has("rock"), Has("rail_damage")), High),
    Rule(Both(Has("person"), SignalIs(Red)), Medium),
    Rule(Has("vehicle_on_track"), Medium)
  ]

  /** The level of the first rule that holds, or `fallback` when none does. */
  function FirstMatch(rules: seq<Rule>, labels: seq<string>, color: SignalColor, fallback: HazardLevel): HazardLevel
  {
    if rules == [] then fallback
    else if Holds(rules[0].when, labels, color) then rules[0].level
    else FirstMatch(rules[1..], labels, color, fallback)
  }

  /** The hazard level the detector path assigns. */
  function Hazard(labels: seq<string>, color: SignalColor): HazardLevel
  {
    FirstMatch(Rules, labels, color, Low)
  }

  /** The first satisfied rule decides, whatever the rules after it say. */
  lemma {:induction false} FirstMatchPicksFirst(rules: seq<Rule>, labels: seq<string>, color: SignalColor, fallback: HazardLevel, k: nat)
    requires k < |rules| && Holds(rules[k].when, labels, color)
    requires forall j :: 0 <= j < k ==> !Holds(rules[j].when, labels, color)
    ensures FirstMatch(rules, labels, color, fallback) == rules[k].level
  {
    if k > 0 {
      assert !Holds(rules[0].when, labels, color);
      FirstMatchPicksFirst(rules[1..], labels, color, fallback, k - 1);
    }
  }

  /** When no rule holds the fallback is returned. */
  lemma {:induction false} FirstMatchFallsThrough(rules: seq<Rule>, labels: seq<string>, color: SignalColor, fallback: HazardLevel)
    requires forall j :: 0 <= j < |rules| ==> !Holds(rules[j].when, labels, color)
    ensures FirstMatch(rules, labels, color, fallback) == fallback
  {
    if rules != [] {
      assert !Holds(rules[0].when, labels, color);
      FirstMatchFallsThrough(rules[1..], labels, color, fallback);
    }
  }

  /** The rule table read as one closed formula per level. */
  lemma HazardLevels(labels: seq<string>, color: SignalColor)
    ensures Hazard(labels, color) == High <==>
      ("vehicle_on_track" in labels && color == Red) || "rock" in labels || "rail_damage" in labels
    ensures Hazard(labels, color) == Medium <==>
      !("vehicle_on_track" in labels && color == Red) && "rock" !in labels && "rail_damage" !in labels &&
      (("person" in labels && color == Red) || "vehicle_on_track" in labels)
    ensures Hazard(labels, color) == Low <==>
      "vehicle_on_track" !in labels && "rock" !in labels && "rail_damage" !in labels &&
      !("person" in labels && color == Red)
  {
    assert Holds(Rules[0].when, labels, color) == ("vehicle_on_track" in labels && color == Red);
    assert Holds(Rules[1].when, labels, color) == ("rock" in labels || "rail_damage" in labels);
    assert Holds(Rules[2].when, labels, color) == ("person" in labels && color == Red);
    assert Holds(Rules[3].when, labels, color) == ("vehicle_on_track" in labels);
    if Holds(Rules[0].when, labels, color) {
      FirstMatchPicksFirst(Rules, labels, color, Low, 0);
    } else if Holds(Rules[1].when, labels, color) {
      FirstMatchPicksFirst(Rules, labels, color, Low, 1);
    } else if Holds(Rules[2].when, labels, color) {
      FirstMatchPicksFirst(Rules, labels, color, Low, 2);
    } else if Holds(Rules[3].when, labels, color) {
      FirstMatchPicksFirst(Rules, labels, color, Low, 3);
    } else {
      FirstMatchFallsThrough(Rules, labels, color, Low);
    }
  }

  lemma {:induction false} HoldsRespectsMembership(c: Condition, a: seq<string>, b: seq<string>, color: SignalColor)
    requires forall l :: l in a <==> l in b
    ensures Holds(c, a, color) == Holds(c, b, color)
  {
    match c
    case Has(l) =>
    case SignalIs(k) =>
    case Both(x, y) =>
      HoldsRespectsMembership(x, a, b, color);
      HoldsRespectsMembership(y, a, b, color);
    case Either(x, y) =>
      HoldsRespectsMembership(x, a, b, color);
      HoldsRespectsMembership(y, a, b, color);
  }

  lemma {:induction false} FirstMatchRespectsMembership(rules: seq<Rule>, a: seq<string>, b: seq<string>, color: SignalColor, fallback: HazardLevel)
    requires forall l :: l in a <==> l in b
    ensures FirstMatch(rules, a, color, fallback) == FirstMatch(rules, b, color, fallback)
  {
    if rules != [] {
      HoldsRespectsMembership(rules[0].when, a, b, color);
      FirstMatchRespectsMembership(rules[1..], a, b, color, fallback);
    }
  }

  /** Only which labels occur matters: not their order, not how often they occur. */
  lemma HazardRespectsMembership(a: seq<string>, b: seq<string>, color: SignalColor)
    requires forall l :: l in a <==> l in b
    ensures Hazard(a, color) == Hazard(b, color)
  {
    FirstMatchRespectsMembership(Rules, a, b, color, Low);
  }

  /** Worked cases: the first matching rule wins and evidence is not combined. */
  lemma HazardExamples()
    ensures Hazard(["rock", "vehicle_on_track"], Red) == High
    ensures Hazard(["rock"], Unknown) == High
    ensures Hazard(["person"], Red) == Medium
    ensures Hazard(["person"], Green) == Low
    ensures Hazard([], Unknown) == Low
  {
    HazardLevels(["rock", "vehicle_on_track"], Red);
    HazardLevels(["rock"], Unknown);
    HazardLevels(["person"], Red);
    HazardLevels(["person"], Green);
    HazardLevels([], Unknown);
  }
}
