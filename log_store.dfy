/** The append-only table of saved analyses. */
module LogStore {
  import opened Records

  /** One row: an analysis flattened to text columns, with its provenance. */
  datatype LogEntry = LogEntry(
    id: nat,
    timestamp: string,
    imageName: string,
    summary: string,
    direction: string,
    hazardLevel: string,
    signalColor: string,
    latitude: real,
    longitude: real)

  /** The row saved for `result`; the enumerated fields are stored as text and read back unchanged. */
  function EntryFor(id: nat, timestamp: string, name: string, result: AnalysisResult, lat: real, lon: real): (e: LogEntry)
    ensures e.id == id && e.timestamp == timestamp && e.imageName == name
    ensures e.summary == result.summary && e.latitude == lat && e.longitude == lon
    ensures ParseDirection(e.direction) == Some(result.direction)
    ensures ParseHazardLevel(e.hazardLevel) == Some(result.hazardLevel)
    ensures ParseSignalColor(e.signalColor) == Some(result.signalColor)
  {
    TextRoundTrip(result.signalColor, result.hazardLevel, result.direction);
    LogEntry(id, timestamp, name, result.summary, result.direction.Text(),
      result.hazardLevel.Text(), result.signalColor.Text(), lat, lon)
  }

  class Log {
    var rows: seq<LogEntry>
    /** The id the next row receives; ids start at 1 and are never reused. */
    var nextId: nat

    ghost predicate Valid()
      reads this
    {
      && nextId >= 1
      && (forall i :: 0 <= i < |rows| ==> 1 <= rows[i].id < nextId)
      && (forall i, j :: 0 <= i < j < |rows| ==> rows[i].id < rows[j].id)
    }

    constructor ()
      ensures Valid() && rows == [] && nextId == 1
    {
      rows := [];
      nextId := 1;
    }

    /** `save_log`, with the current time passed in. */
    method SaveLog(timestamp: string, name: string, result: AnalysisResult, lat: real, lon: real)
      requires Valid()
      modifies this
      ensures Valid()
      ensures rows == old(rows) + [EntryFor(old(nextId), timestamp, name, result, lat, lon)]
      ensures nextId == old(nextId) + 1
      ensures forall i :: 0 <= i < |old(rows)| ==> old(rows)[i].id < rows[|rows| - 1].id
    {
      rows := rows + [EntryFor(nextId, timestamp, name, result, lat, lon)];
      nextId := nextId + 1;
    }
  }
}
