/** From a rows event to notifications: the pure meaning of each one. */
module Rows {
  import opened Bytes
  import opened Columns

  datatype RowsEvent = RowsEvent(
    schema: string,
    table: string,
    action: string,
    columns: seq<Column>,
    rows: seq<seq<Value>>)

  /** JSON, as far as the notifications need it. */
  datatype Json = Atom(value: Value) | Object(fields: map<string, Json>)

  /** Every cell of the row that has a column decodes; otherwise `fieldDecode` panics. */
  predicate RowOk(columns: seq<Column>, row: seq<Value>) {
    forall k :: 0 <= k < |columns| && k < |row| ==> FieldDecode(row[k], columns[k]).Ok?
  }

  /** The cells of the first `n` columns of a row; a short row is padded with nil. */
  function Cells(columns: seq<Column>, row: seq<Value>, n: nat): (r: map<string, Value>)
    requires n <= |columns|
  {
    if n == 0 then map[]
    else Cells(columns, row, n - 1)[columns[n - 1].name := CellAt(columns, row, n - 1)]
  }

  function CellAt(columns: seq<Column>, row: seq<Value>, k: nat): (v: Value)
    requires k < |columns|
  {
    if k < |row| && FieldDecode(row[k], columns[k]).Ok? then FieldDecode(row[k], columns[k]).value else Nil
  }

  /** For distinct column names a row is exactly: the decoded value under each column's name,
      nil under the columns it does not reach, and nothing else. */
  lemma {:induction false} CellsMeaning(columns: seq<Column>, row: seq<Value>, n: nat)
    requires n <= |columns| && RowOk(columns, row)
    requires DistinctNames(columns)
    ensures var r := Cells(columns, row, n);
            && (forall k :: 0 <= k < n ==>
                  && columns[k].name in r
                  && (if k < |row| then FieldDecode(row[k], columns[k]) == Ok(r[columns[k].name])
                      else r[columns[k].name] == Nil))
            && (forall x :: x in r ==> exists k :: 0 <= k < n && columns[k].name == x)
    decreases n
  {
    hide FieldDecode;
    if n > 0 { CellsMeaning(columns, row, n - 1); }
  }

  lemma {:induction false} CellsKeys(columns: seq<Column>, a: seq<Value>, b: seq<Value>, n: nat)
    requires n <= |columns|
    ensures Cells(columns, a, n).Keys == Cells(columns, b, n).Keys
    decreases n
  {
    hide FieldDecode;
    if n > 0 { CellsKeys(columns, a, b, n - 1); }
  }

  function Atoms(m: map<string, Value>): (r: Json) {
    Object(map k | k in m :: Atom(m[k]))
  }

  function RowJson(e: RowsEvent, row: seq<Value>): (r: Json) {
    Atoms(Cells(e.columns, row, |e.columns|))
  }

  /** How many rows one notification takes. */
  function Stride(e: RowsEvent): (n: nat)
    ensures n > 0
  {
    if e.action == "update" then 2 else 1
  }

  /** Every cell that the k-th notification needs decodes. */
  predicate UnitOk(e: RowsEvent, k: nat)
    requires (k + 1) * Stride(e) <= |e.rows|
  {
    if e.action == "update" then RowOk(e.columns, e.rows[2 * k]) && RowOk(e.columns, e.rows[2 * k + 1])
    else RowOk(e.columns, e.rows[k])
  }

  /** How many notifications go out, after the first `k`, before one fails. */
  function Sendable(e: RowsEvent, k: nat): (n: nat)
    requires k * Stride(e) <= |e.rows|
    ensures k <= n && n * Stride(e) <= |e.rows|
    ensures forall j :: k <= j < n ==> (j + 1) * Stride(e) <= |e.rows| && UnitOk(e, j)
    ensures (n + 1) * Stride(e) <= |e.rows| ==> !UnitOk(e, n)
    decreases |e.rows| - k
  {
    if (k + 1) * Stride(e) <= |e.rows| && UnitOk(e, k) then Sendable(e, k + 1) else k
  }

  /** The `data` field of the k-th notification. */
  function DataJson(e: RowsEvent, k: nat): (r: Json)
    requires (k + 1) * Stride(e) <= |e.rows|
  {
    if e.action == "update"
    then Object(map["old_data" := RowJson(e, e.rows[2 * k]),
                    "new_data" := RowJson(e, e.rows[2 * k + 1])])
    else RowJson(e, e.rows[k])
  }

  /** The whole notification, a function of the k-th row (or pair) and its event index. */
  function EventJson(e: RowsEvent, time: int, index: int64, data: Json): (r: Json) {
    Object(map["database" := Atom(Text(e.schema)),
               "event_type" := Atom(Text(e.action)),
               "time" := Atom(Int64(time)),
               "table" := Atom(Text(e.table)),
               "event_index" := Atom(Int64(index)),
               "event" := Object(map["data" := data])])
  }

  /** The first `n` notifications of an event that starts after event index `base`. */
  function Notifications(e: RowsEvent, time: int, base: int64, n: nat): (r: seq<Json>)
    requires n * Stride(e) <= |e.rows|
    ensures |r| == n
  {
    if n == 0 then []
    else Notifications(e, time, base, n - 1)
         + [EventJson(e, time, ToInt64(base + n), DataJson(e, n - 1))]
  }

  /** The k-th notification depends on the k-th row alone, and the event indices follow each
      other without gap. */
  lemma {:induction false} NotificationAt(e: RowsEvent, time: int, base: int64, n: nat, k: nat)
    requires n * Stride(e) <= |e.rows| && k < n
    ensures (k + 1) * Stride(e) <= |e.rows|
    ensures Notifications(e, time, base, n)[k]
         == EventJson(e, time, ToInt64(base + k + 1), DataJson(e, k))
    decreases n
  {
    if k < n - 1 { NotificationAt(e, time, base, n - 1, k); }
  }

  // ---- what a notification says ----

  ghost predicate DistinctNames(columns: seq<Column>) {
    forall i, j :: 0 <= i < j < |columns| ==> columns[i].name != columns[j].name
  }

  /** `j` shows the row: under each column's name the decoded cell, nil where the row is short,
      and nothing else. */
  ghost predicate ShowsRow(columns: seq<Column>, row: seq<Value>, j: Json) {
    && j.Object?
    && (forall k :: 0 <= k < |columns| ==>
          && columns[k].name in j.fields && j.fields[columns[k].name].Atom?
          && (if k < |row| then FieldDecode(row[k], columns[k]) == Ok(j.fields[columns[k].name].value)
              else j.fields[columns[k].name].value == Nil))
    && (forall x :: x in j.fields ==> exists k :: 0 <= k < |columns| && columns[k].name == x)
  }

  /** `j` is the notification of unit `k` of the event: its own schema, table, action, time and
      consecutive index, and the row, or for an update the row before and the row after. */
  ghost predicate Tells(e: RowsEvent, time: int, base: int, k: nat, j: Json) {
    && j.Object? && j.fields.Keys == {"database", "table", "event_type", "time", "event_index", "event"}
    && j.fields["database"] == Atom(Text(e.schema)) && j.fields["table"] == Atom(Text(e.table))
    && j.fields["event_type"] == Atom(Text(e.action)) && j.fields["time"] == Atom(Int64(time))
    && j.fields["event_index"] == Atom(Int64(ToInt64(base + k + 1)))
    && j.fields["event"].Object? && j.fields["event"].fields.Keys == {"data"}
    && ShowsUnit(e, k, j.fields["event"].fields["data"])
  }

  ghost predicate ShowsUnit(e: RowsEvent, k: nat, data: Json) {
    if e.action == "update" then
      && 2 * k + 1 < |e.rows| && data.Object? && data.fields.Keys == {"old_data", "new_data"}
      && ShowsRow(e.columns, e.rows[2 * k], data.fields["old_data"])
      && ShowsRow(e.columns, e.rows[2 * k + 1], data.fields["new_data"])
    else k < |e.rows| && ShowsRow(e.columns, e.rows[k], data)
  }

  lemma RowJsonShows(e: RowsEvent, row: seq<Value>)
    requires DistinctNames(e.columns) && RowOk(e.columns, row)
    ensures ShowsRow(e.columns, row, RowJson(e, row))
  {
    hide FieldDecode, Cells;
    CellsMeaning(e.columns, row, |e.columns|);
    var m, j := Cells(e.columns, row, |e.columns|), RowJson(e, row);
    forall k | 0 <= k < |e.columns|
      ensures && e.columns[k].name in j.fields && j.fields[e.columns[k].name].Atom?
              && (if k < |row| then FieldDecode(row[k], e.columns[k]) == Ok(j.fields[e.columns[k].name].value)
                  else j.fields[e.columns[k].name].value == Nil)
    {
      assert j.fields[e.columns[k].name] == Atom(m[e.columns[k].name]);
    }
    forall x | x in j.fields
      ensures exists k :: 0 <= k < |e.columns| && e.columns[k].name == x
    {
      assert x in Cells(e.columns, row, |e.columns|);
      var k :| 0 <= k < |e.columns| && e.columns[k].name == x;
    }
  }

  lemma DataJsonShows(e: RowsEvent, k: nat)
    requires DistinctNames(e.columns) && (k + 1) * Stride(e) <= |e.rows| && UnitOk(e, k)
    ensures ShowsUnit(e, k, DataJson(e, k))
  {
    hide RowJson, ShowsRow, RowOk;
    if e.action == "update" {
      RowJsonShows(e, e.rows[2 * k]);
      RowJsonShows(e, e.rows[2 * k + 1]);
    } else {
      RowJsonShows(e, e.rows[k]);
    }
  }

  /** The notifications tell exactly their units of the event, one each. */
  ghost predicate TellsAll(e: RowsEvent, time: int, base: int, sent: seq<Json>) {
    forall k :: 0 <= k < |sent| ==> Tells(e, time, base, k, sent[k])
  }

  lemma NotificationsTell(e: RowsEvent, time: int, base: int64)
    requires DistinctNames(e.columns)
    ensures TellsAll(e, time, base, Notifications(e, time, base, Sendable(e, 0)))
  {
    hide DataJson, ShowsUnit, ToInt64, Notifications, UnitOk, Sendable;
    var n := Sendable(e, 0);
    forall k | 0 <= k < n
      ensures Tells(e, time, base, k, Notifications(e, time, base, n)[k])
    {
      NotificationAt(e, time, base, n, k);
      DataJsonShows(e, k);
    }
  }
}
