/** Values shared by the detection pipelines, the result composer and the log. */
module Records {

  datatype Option<T> = None | Some(value: T)

  /** The illumination state read from a signal light. */
  datatype SignalColor = Red | Green | Unknown {
    /** The string the pipeline stores for this colour. */
    function Text(): string {
      match this
      case Red => "Red"
      case Green => "Green"
      case Unknown => "Unknown"
    }
  }

  /** Three-tier hazard severity. */
  datatype HazardLevel = Low | Medium | High {
    function Text(): string {
      match this
      case Low => "Low"
      case Medium => "Medium"
      case High => "High"
    }
  }

  /** Travel direction: a placeholder that no pipeline computes. `Undetermined` is stored as "Unknown". */
  datatype Direction = Straight | Undetermined {
    function Text(): string {
      match this
      case Straight => "Straight"
      case Undetermined => "Unknown"
    }
  }

  /** The five-key record every analysis path returns. */
  datatype AnalysisResult = AnalysisResult(
    summary: string,
    labels: seq<string>,
    signalColor: SignalColor,
    hazardLevel: HazardLevel,
    direction: Direction)

  function ParseSignalColor(s: string): (c: Option<SignalColor>)
    ensures c.Some? ==> c.value.Text() == s
  {
    if s == "Red" then Some(Red)
    else if s == "Green" then Some(Green)
    else if s == "Unknown" then Some(Unknown)
    else None
  }

  function ParseHazardLevel(s: string): (h: Option<HazardLevel>)
    ensures h.Some? ==> h.value.Text() == s
  {
    if s == "Low" then Some(Low)
    else if s == "Medium" then Some(Medium)
    else if s == "High" then Some(High)
    else None
  }

  function ParseDirection(s: string): (d: Option<Direction>)
    ensures d.Some? ==> d.value.Text() == s
  {
    if s == "Straight" then Some(Straight)
    else if s == "Unknown" then Some(Undetermined)
    else None
  }

  /** The stored strings name their values unambiguously. */
  lemma TextRoundTrip(c: SignalColor, h: HazardLevel, d: Direction)
    ensures ParseSignalColor(c.Text()) == Some(c)
    ensures ParseHazardLevel(h.Text()) == Some(h)
    ensures ParseDirection(d.Text()) == Some(d)
  {
  }
}
