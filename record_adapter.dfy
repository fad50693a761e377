/** RecordAdapter.java: the list adapter of the history screen. It holds
    the records to show, replaced wholesale by setData, and fills one row
    per record. */
module Adapter {
  import opened Wrappers
  import opened HistoryRecordUtil

  const DirectionPrefix := "Direction: "
  const SessionPrefix := "SessionId: "

  /** The four texts of one list row. */
  datatype Row = Row(username: string, timestamp: string, direction: string, sessionId: string)

  /** RecordViewHolder.bind: the timestamp is shown as stored. */
  function Bind(r: FileRecord): Row {
    Row(r.username, r.timestamp, DirectionPrefix + r.direction, SessionPrefix + r.sessionId)
  }

  /** A row shows every field of its record: stripping the fixed prefixes
      gives the record back, so different records give different rows. */
  lemma BindShowsRecord(r: FileRecord, other: FileRecord)
    ensures var row := Bind(r);
      row.direction[..|DirectionPrefix|] == DirectionPrefix
      && row.direction[|DirectionPrefix|..] == r.direction
      && row.sessionId[..|SessionPrefix|] == SessionPrefix
      && row.sessionId[|SessionPrefix|..] == r.sessionId
      && row.username == r.username && row.timestamp == r.timestamp
    ensures Bind(r) == Bind(other) ==>
      r.username == other.username && r.timestamp == other.timestamp
      && r.direction == other.direction && r.sessionId == other.sessionId
  {
    var row, row2 := Bind(r), Bind(other);
    assert row.direction[|DirectionPrefix|..] == r.direction;
    assert row2.direction[|DirectionPrefix|..] == other.direction;
    assert row.sessionId[|SessionPrefix|..] == r.sessionId;
    assert row2.sessionId[|SessionPrefix|..] == other.sessionId;
  }

  class RecordAdapter {
    var recordList: seq<FileRecord>

    constructor ()
      ensures recordList == []
    {
      recordList := [];
    }

    /** setData: clear, then add all of `records` unless it is null. */
    method SetData(records: Option<seq<FileRecord>>)
      modifies this`recordList
      ensures recordList == if records.Some? then records.value else []
    {
      recordList := [];
      if records.Some? {
        recordList := recordList + records.value;
      }
    }

    method GetItemCount() returns (n: int)
      ensures n == |recordList|
    {
      n := |recordList|;
    }

    /** onBindViewHolder: the row for the record at `position`. */
    method OnBindViewHolder(position: int) returns (row: Row)
      requires 0 <= position < |recordList|
      ensures row == Bind(recordList[position])
    {
      row := Bind(recordList[position]);
    }
  }

  /** After setData(records) the list shows exactly `records`, in order:
      as many rows as records, row k showing record k. */
  method ShowRecords(adapter: RecordAdapter, records: seq<FileRecord>) returns (rows: seq<Row>)
    modifies adapter
    ensures adapter.recordList == records
    ensures |rows| == |records|
    ensures forall k :: 0 <= k < |rows| ==> rows[k] == Bind(records[k])
  {
    adapter.SetData(Some(records));
    var count := adapter.GetItemCount();
    rows := [];
    var position := 0;
    while position < count
      invariant 0 <= position <= count == |records| && adapter.recordList == records
      invariant |rows| == position
      invariant forall k :: 0 <= k < position ==> rows[k] == Bind(records[k])
    {
      var row := adapter.OnBindViewHolder(position);
      rows := rows + [row];
      position := position + 1;
    }
  }
}
