/** The session store of the Tauri back end: the `sessions` table as a sequence
    of rows in insertion order, the insert, the summary aggregate and the
    recent-sessions query. SQL errors other than those named here are not modelled. */
module SessionStore {
  import opened Wrappers
  import opened Numeric

  /** One finished toggle cycle, as the orchestrator hands it to the store. */
  datatype SessionRecord = SessionRecord(
    startedAt: I64,
    durationSecs: U32,
    wordCount: U32,
    modelUsed: string,
    transcription: string,
    latencyMs: U32,
    error: Option<string>)

  /** A row of the table: the record and its AUTOINCREMENT id. */
  datatype StoredRow = StoredRow(id: int, record: SessionRecord)

  /** A row as the recent-sessions query returns it: every column but `model_used`. */
  datatype SessionRow = SessionRow(
    id: int,
    startedAt: I64,
    durationSecs: U32,
    wordCount: U32,
    transcription: string,
    latencyMs: U32,
    error: Option<string>)

  /** The summary without `avg_words`, which is a floating-point average. */
  datatype StatsSummary = StatsSummary(totalRecordings: U32, totalSeconds: U32)

  datatype DbError =
    | InsertFailed(message: string)
    /** rusqlite refuses to read a column value that does not fit the Rust field's type. */
    | OutOfRange(column: nat)

  /** The table and its AUTOINCREMENT counter. */
  datatype Table = Table(rows: seq<StoredRow>, nextId: int)

  /** The table of a database file created by this launch. */
  const EmptyTable := Table([], 1)

  /** Ids grow strictly with insertion order and stay below the counter. */
  ghost predicate TableInvariant(t: Table) {
    && 1 <= t.nextId
    && (forall i, j :: 0 <= i < j < |t.rows| ==> t.rows[i].id < t.rows[j].id)
    && (forall i :: 0 <= i < |t.rows| ==> 1 <= t.rows[i].id < t.nextId)
  }

  /** `log_session`: one INSERT; an abstract fault of the database stands for its error path. */
  function Insert(t: Table, session: SessionRecord, fault: Option<string>): (r: (Table, Result<(), DbError>))
    ensures fault.Some? ==> r.0 == t && r.1 == Failure(InsertFailed(fault.value))
    ensures fault.None? ==> r.1 == Success(()) && r.0.rows == t.rows + [StoredRow(t.nextId, session)]
    ensures fault.None? ==> r.0.nextId == t.nextId + 1
  {
    if fault.Some? then (t, Failure(InsertFailed(fault.value)))
    else (Table(t.rows + [StoredRow(t.nextId, session)], t.nextId + 1), Success(()))
  }

  lemma InsertKeepsInvariant(t: Table, session: SessionRecord, fault: Option<string>)
    requires TableInvariant(t)
    ensures TableInvariant(Insert(t, session, fault).0)
  {
  }

  /** A newly inserted row gets an id no earlier row has. */
  lemma InsertIdIsFresh(t: Table, session: SessionRecord)
    requires TableInvariant(t)
    ensures var t' := Insert(t, session, None).0;
      forall i :: 0 <= i < |t.rows| ==> t.rows[i].id != t'.rows[|t.rows|].id
  {
  }

  /** The rows `WHERE error IS NULL`. */
  function Successful(rows: seq<StoredRow>): (r: seq<StoredRow>)
    ensures |r| <= |rows|
    ensures forall k :: 0 <= k < |r| ==> r[k] in rows && r[k].record.error.None?
  {
    if rows == [] then []
    else if rows[0].record.error.None? then [rows[0]] + Successful(rows[1..])
    else Successful(rows[1..])
  }

  function SumDurations(rows: seq<StoredRow>): nat {
    if rows == [] then 0 else rows[0].record.durationSecs + SumDurations(rows[1..])
  }

  /** `get_stats_summary`: COUNT(*) and COALESCE(SUM(duration_secs), 0) over
      the error-free rows, each read back into a u32 field. */
  function Summarize(rows: seq<StoredRow>): (r: Result<StatsSummary, DbError>)
    ensures r.Success? <==> |Successful(rows)| < U32_LIMIT && SumDurations(Successful(rows)) < U32_LIMIT
    ensures r.Success? ==> r.value.totalRecordings == |Successful(rows)|
    ensures r.Success? ==> r.value.totalSeconds == SumDurations(Successful(rows))
    ensures r.Failure? ==> r.error.OutOfRange?
  {
    var ok := Successful(rows);
    if |ok| >= U32_LIMIT then Failure(OutOfRange(0))
    else if SumDurations(ok) >= U32_LIMIT then Failure(OutOfRange(1))
    else Success(StatsSummary(|ok|, SumDurations(ok)))
  }

  lemma {:induction false} SuccessfulAppend(rows: seq<StoredRow>, row: StoredRow)
    ensures Successful(rows + [row]) ==
      Successful(rows) + (if row.record.error.None? then [row] else [])
  {
    if rows != [] {
      assert (rows + [row])[1..] == rows[1..] + [row];
      SuccessfulAppend(rows[1..], row);
    } else {
      assert rows + [row] == [row];
    }
  }

  lemma {:induction false} SumDurationsAppend(rows: seq<StoredRow>, extra: seq<StoredRow>)
    ensures SumDurations(rows + extra) == SumDurations(rows) + SumDurations(extra)
  {
    if rows != [] {
      assert (rows + extra)[1..] == rows[1..] + extra;
      SumDurationsAppend(rows[1..], extra);
    } else {
      assert rows + extra == extra;
    }
  }

  /** Logging a session changes the summary's inputs as the SQL filter says: an
      error-free session adds one recording and its duration; a failed one adds nothing. */
  lemma LoggingUpdatesSummary(t: Table, session: SessionRecord)
    ensures var t' := Insert(t, session, None).0;
      && |Successful(t'.rows)| == |Successful(t.rows)| + (if session.error.None? then 1 else 0)
      && SumDurations(Successful(t'.rows)) ==
           SumDurations(Successful(t.rows)) + (if session.error.None? then session.durationSecs else 0)
  {
    var row := StoredRow(t.nextId, session);
    SuccessfulAppend(t.rows, row);
    SumDurationsAppend(Successful(t.rows), if session.error.None? then [row] else []);
  }

  /** A store holding only failed sessions reports no recordings and no seconds. */
  lemma {:induction false} FailedSessionsExcluded(rows: seq<StoredRow>)
    requires forall i :: 0 <= i < |rows| ==> rows[i].record.error.Some?
    ensures Summarize(rows) == Success(StatsSummary(0, 0))
  {
    if rows != [] {
      FailedSessionsExcluded(rows[1..]);
    }
  }

  function ToSessionRow(row: StoredRow): (r: SessionRow)
    ensures r.id == row.id && r.startedAt == row.record.startedAt
    ensures r.durationSecs == row.record.durationSecs && r.wordCount == row.record.wordCount
    ensures r.transcription == row.record.transcription && r.latencyMs == row.record.latencyMs
    ensures r.error == row.record.error
  {
    var s := row.record;
    SessionRow(row.id, s.startedAt, s.durationSecs, s.wordCount, s.transcription, s.latencyMs, s.error)
  }

  /** The sequence without its element at position `b`. */
  function RemoveAt(s: seq<nat>, b: nat): (r: seq<nat>)
    requires b < |s|
    requires forall p, q :: 0 <= p < q < |s| ==> s[p] != s[q]
    ensures |r| == |s| - 1
    ensures forall q :: 0 <= q < |r| ==> r[q] == s[if q < b then q else q + 1]
    ensures forall p, q :: 0 <= p < q < |r| ==> r[p] != r[q]
    ensures forall x :: x in r <==> x in s && x != s[b]
  {
    var r := s[..b] + s[b + 1..];
    assert forall q :: 0 <= q < |r| ==> r[q] == s[if q < b then q else q + 1];
    assert forall x :: x in s && x != s[b] ==> x in r by {
      forall x | x in s && x != s[b] ensures x in r {
        var i :| 0 <= i < |s| && s[i] == x;
        assert r[if i < b then i else i - 1] == x;
      }
    }
    r
  }

  /** `picked` and `remaining` are duplicate-free and split the row positions below `n` between them. */
  ghost predicate Partition(n: nat, picked: seq<nat>, remaining: seq<nat>) {
    && |picked| + |remaining| == n
    && (forall k :: 0 <= k < |picked| ==> picked[k] < n && picked[k] !in remaining)
    && (forall q :: 0 <= q < |remaining| ==> remaining[q] < n)
    && (forall k, l :: 0 <= k < l < |picked| ==> picked[k] != picked[l])
    && (forall p, q :: 0 <= p < q < |remaining| ==> remaining[p] != remaining[q])
    && (forall j :: 0 <= j < n && j !in picked ==> j in remaining)
  }

  /** The picked rows go from newest to oldest, and none left behind is newer than any picked one. */
  ghost predicate NewestFirst(rows: seq<StoredRow>, picked: seq<nat>, remaining: seq<nat>)
    requires Partition(|rows|, picked, remaining)
  {
    && (forall k, l :: 0 <= k < l < |picked| ==>
          rows[picked[l]].record.startedAt <= rows[picked[k]].record.startedAt)
    && (forall k, q :: 0 <= k < |picked| && 0 <= q < |remaining| ==>
          rows[remaining[q]].record.startedAt <= rows[picked[k]].record.startedAt)
  }

  /** Moving the newest remaining row to the end of the picked ones keeps both properties. */
  lemma TakeNewest(rows: seq<StoredRow>, picked: seq<nat>, remaining: seq<nat>, best: nat)
    requires Partition(|rows|, picked, remaining) && NewestFirst(rows, picked, remaining)
    requires best < |remaining|
    requires forall q :: 0 <= q < |remaining| ==>
               rows[remaining[q]].record.startedAt <= rows[remaining[best]].record.startedAt
    ensures Partition(|rows|, picked + [remaining[best]], RemoveAt(remaining, best))
    ensures NewestFirst(rows, picked + [remaining[best]], RemoveAt(remaining, best))
  {
    var picked', remaining' := picked + [remaining[best]], RemoveAt(remaining, best);
    forall j | 0 <= j < |rows| && j !in picked' ensures j in remaining' {
      assert j in remaining && j != remaining[best];
    }
    forall k | 0 <= k < |picked'| ensures picked'[k] !in remaining' {
      if k < |picked| {
        assert picked'[k] == picked[k] && picked[k] !in remaining;
      }
    }
  }

  /** Position in `candidates` of the first row with the latest start time. */
  method MostRecent(rows: seq<StoredRow>, candidates: seq<nat>) returns (best: nat)
    requires candidates != []
    requires forall q :: 0 <= q < |candidates| ==> candidates[q] < |rows|
    ensures best < |candidates|
    ensures forall q :: 0 <= q < |candidates| ==>
              rows[candidates[q]].record.startedAt <= rows[candidates[best]].record.startedAt
  {
    best := 0;
    var p := 1;
    while p < |candidates|
      invariant best < p <= |candidates|
      invariant forall q :: 0 <= q < p ==>
                  rows[candidates[q]].record.startedAt <= rows[candidates[best]].record.startedAt
    {
      if rows[candidates[best]].record.startedAt < rows[candidates[p]].record.startedAt {
        best := p;
      }
      p := p + 1;
    }
  }

  class Database {
    var table: Table

    ghost predicate Valid()
      reads this
    {
      TableInvariant(table)
    }

    /** `Database::new` on the file `voiceclip.db`: `CREATE TABLE IF NOT EXISTS`
        keeps the rows and the AUTOINCREMENT counter of earlier launches, so the
        store opens on whatever table the file holds (`EmptyTable` for a new file). */
    constructor (existing: Table)
      requires TableInvariant(existing)
      ensures Valid() && table == existing
    {
      table := existing;
    }

    method LogSession(session: SessionRecord, fault: Option<string>) returns (res: Result<(), DbError>)
      requires Valid()
      modifies this
      ensures Valid()
      ensures (table, res) == Insert(old(table), session, fault)
    {
      if fault.Some? {
        res := Failure(InsertFailed(fault.value));
      } else {
        table := Table(table.rows + [StoredRow(table.nextId, session)], table.nextId + 1);
        res := Success(());
      }
    }

    /** `get_recent_sessions(limit)`: `ORDER BY started_at DESC LIMIT limit`, over
        all rows, failed ones included. SQL leaves the order of equal start times
        open; this loop takes the earliest inserted first. `picked` names the row
        each result came from. */
    method GetRecentSessions(limit: U32) returns (sessions: seq<SessionRow>, ghost picked: seq<nat>)
      requires Valid()
      ensures |sessions| == (if limit < |table.rows| then limit else |table.rows|)
      ensures |picked| == |sessions|
      ensures forall k :: 0 <= k < |picked| ==>
                picked[k] < |table.rows| && sessions[k] == ToSessionRow(table.rows[picked[k]])
      ensures forall k, l :: 0 <= k < l < |picked| ==> picked[k] != picked[l]
      ensures forall k, l :: 0 <= k < l < |sessions| ==> sessions[l].startedAt <= sessions[k].startedAt
      ensures forall k, j :: 0 <= k < |sessions| && 0 <= j < |table.rows| && j !in picked ==>
                table.rows[j].record.startedAt <= sessions[k].startedAt
    {
      var rows := table.rows;
      var n := if limit < |rows| then limit else |rows|;
      var remaining: seq<nat> := seq(|rows|, j => j);
      sessions, picked := [], [];
      forall j | 0 <= j < |rows| ensures j in remaining {
        assert remaining[j] == j;
      }
      while |sessions| < n
        invariant |sessions| == |picked| <= n
        invariant Partition(|rows|, picked, remaining)
        invariant NewestFirst(rows, picked, remaining)
        invariant forall k :: 0 <= k < |picked| ==> sessions[k] == ToSessionRow(rows[picked[k]])
      {
        var best := MostRecent(rows, remaining);
        var chosen := remaining[best];
        TakeNewest(rows, picked, remaining, best);
        sessions := sessions + [ToSessionRow(rows[chosen])];
        picked := picked + [chosen];
        remaining := RemoveAt(remaining, best);
      }
      assert forall j :: 0 <= j < |rows| && j !in picked ==> j in remaining;
    }
  }
}
