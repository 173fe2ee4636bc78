/** The binlog handler: event numbering, the position record and the exit bit. */
module Handler {
  import opened Bytes
  import opened Frames
  import opened Positions
  import opened Columns
  import opened Rows

  /** A MySQL position, as canal reports it. */
  datatype Place = Place(file: name, pos: uint32)

  /** The part of the handler's state that positions and numbering live in. */
  datatype Mem = Mem(
    last: Place,       // lastBinFile, lastPos
    index: int64,      // EventIndex
    running: bool,     // the three status bits
    exit: bool,
    open: bool,
    disk: seq<byte>)   // the cache file

  // ---- atomic actions; the protocol interleaves them, the methods below compose them ----

  /** Whether the cache holds a position to resume from. */
  predicate Usable(disk: seq<byte>) {
    var c := ReadCache(disk);
    c.file != [] && c.pos > 0
  }

  /** `handlerInit`: resume from the cache, clamped to the master's position in the same file;
      without a usable cache start from the master's position. */
  function Boot(disk: seq<byte>, master: Place): (m: Mem) {
    var c := ReadCache(disk);
    var start :=
      if Usable(disk) then
        var pos := ToUint32(c.pos);
        Place(c.file, if c.file == master.file && pos > master.pos then master.pos else pos)
      else master;
    Mem(start, c.index, false, false, true, disk)
  }

  function RecordOf(p: Place, index: int64): (r: seq<byte>) {
    Record(p.file, p.pos, index)
  }

  /** The write under an open handle. */
  function Write(m: Mem, r: seq<byte>): (m': Mem) {
    if m.open then m.(disk := WriteAt(m.disk, r)) else m
  }

  /** The memory half of `SaveBinlogPosition`. */
  function Apply(m: Mem, r: seq<byte>): (m': Mem)
    requires |r| >= 18
  {
    var p := UnpackPos(r);
    m.(last := Place(p.file, ToUint32(p.pos)), index := p.index)
  }

  /** `atomic.AddInt64(&h.EventIndex, 1)`. */
  function Count(m: Mem): (m': Mem) {
    m.(index := ToInt64(m.index + 1))
  }

  /** `saveBinlogPositionCache` in one piece: nothing at all once the exit bit is set. */
  function Saved(m: Mem, r: seq<byte>): (m': Mem) {
    if m.exit then m else Write(m, r)
  }

  /** Booting from a file that starts with a record: the index is the record's; the position is
      the record's if it names one, unless it is beyond the master's in the same file, and the
      master's otherwise. */
  lemma BootOfRecord(disk: seq<byte>, p: Place, i: int64, master: Place)
    requires RecordOf(p, i) <= disk && |p.file| <= 494
    ensures var m := Boot(disk, master);
            && m.index == i && m.disk == disk && m.open && !m.running && !m.exit
            && (p.file == [] || p.pos == 0 ==> m.last == master)
            && (p.file != [] && p.pos > 0 ==>
                  m.last == if p.file == master.file && p.pos > master.pos then master else p)
  {
    hide ReadCache;
    ReadOfPrefix(disk, Position(p.file, p.pos, i));
  }

  /** Without a file the handler starts at the master's position and counts from zero. */
  lemma BootOfNothing(master: Place)
    ensures Boot([], master).last == master && Boot([], master).index == 0
  {
  }

  /** Whether a file is changed by a save, and what is read from it afterwards. */
  ghost predicate Persists(before: Mem, after: seq<byte>, p: Place, i: int64) {
    && (before.exit || !before.open ==> after == before.disk)
    && (!before.exit && before.open && |p.file| <= 494 ==> ReadCache(after) == Position(p.file, p.pos, i))
  }

  lemma UnpackRecordOf(p: Place, i: int64)
    requires |p.file| < 0xfff0
    ensures |RecordOf(p, i)| >= 18 && UnpackPos(RecordOf(p, i)) == Position(p.file, p.pos, i)
  {
    hide UnpackPos;
    FieldsOfRecord(p.file, p.pos, i, []);
    UnpackOfRecord(p.file, p.pos, i, []);
    assert RecordOf(p, i) + [] == RecordOf(p, i);
  }

  lemma WriteReadsBack(file: seq<byte>, p: Place, i: int64)
    requires |p.file| <= 494
    ensures ReadCache(WriteAt(file, RecordOf(p, i))) == Position(p.file, p.pos, i)
  {
    hide ReadCache, Record;
    var r := RecordOf(p, i);
    assert r <= WriteAt(file, r);
    ReadOfPrefix(WriteAt(file, r), Position(p.file, p.pos, i));
  }

  // ---- the maps OnRow builds its notifications from ----

  datatype Cell = Leaf(value: Value) | Link(dict: Dict)

  /** A Go map: assigned by reference, so a linked map shows later changes. */
  class Dict {
    var entries: map<string, Cell>

    constructor ()
      ensures entries == map[]
    {
      entries := map[];
    }

    method Put(key: string, c: Cell)
      modifies this
      ensures entries == old(entries)[key := c]
    {
      entries := entries[key := c];
    }
  }

  /** What `json.Marshal` sees at this moment, following links `depth` levels deep. */
  ghost function Marshal(d: Dict, depth: nat): (r: Json)
    reads *
    decreases depth, 2
  {
    Object(Fields(d.entries, depth))
  }

  ghost function Fields(m: map<string, Cell>, depth: nat): (r: map<string, Json>)
    reads *
    decreases depth, 1
  {
    map k | k in m :: Field(m[k], depth)
  }

  ghost function Field(c: Cell, depth: nat): (r: Json)
    reads *
    decreases depth, 0
  {
    match c
    case Leaf(v) => Atom(v)
    case Link(x) => if depth == 0 then Atom(Nil) else Marshal(x, depth - 1)
  }

  lemma FieldsPut(m: map<string, Cell>, key: string, c: Cell, depth: nat)
    ensures Fields(map[], depth) == map[] && Fields(m[key := c], depth) == Fields(m, depth)[key := Field(c, depth)]
  {
  }

  function Leaves(m: map<string, Value>): (r: map<string, Cell>) {
    map k | k in m :: Leaf(m[k])
  }

  lemma LeavesOf(m: map<string, Value>, key: string, v: Value)
    ensures Leaves(map[]) == map[] && Leaves(m[key := v]) == Leaves(m)[key := Leaf(v)]
  {
  }

  lemma MarshalLeaves(d: Dict, m: map<string, Value>, depth: nat)
    requires d.entries == Leaves(m)
    ensures Marshal(d, depth) == Atoms(m)
  {
    assert Fields(d.entries, depth) == Atoms(m).fields;
  }

  lemma MarshalEvent(e: RowsEvent, time: int, index: int64, rowData: Dict, ed: Dict, data: Dict)
    requires rowData.entries == Head(e, time)["event_index" := Leaf(Int64(index))]["event" := Link(ed)]
    requires ed.entries == map["data" := Link(data)]
    ensures Marshal(rowData, 3) == EventJson(e, time, index, Marshal(data, 1))
  {
    hide Fields;
    FieldsPut(map[], "data", Link(data), 2);
    var h := Head(e, time);
    HeadFields(e, time, 3);
    FieldsPut(h, "event_index", Leaf(Int64(index)), 3);
    FieldsPut(h["event_index" := Leaf(Int64(index))], "event", Link(ed), 3);
  }

  lemma HeadFields(e: RowsEvent, time: int, depth: nat)
    ensures Fields(Head(e, time), depth)
         == map["database" := Atom(Text(e.schema)), "event_type" := Atom(Text(e.action)),
                "time" := Atom(Int64(time)), "table" := Atom(Text(e.table))]
  {
    hide Fields;
    var m1: map<string, Cell> := map["database" := Leaf(Text(e.schema))];
    var m2 := m1["event_type" := Leaf(Text(e.action))];
    var m3 := m2["time" := Leaf(Int64(time))];
    FieldsPut(map[], "database", Leaf(Text(e.schema)), depth);
    FieldsPut(m1, "event_type", Leaf(Text(e.action)), depth);
    FieldsPut(m2, "time", Leaf(Int64(time)), depth);
    FieldsPut(m3, "table", Leaf(Text(e.table)), depth);
  }

  lemma MarshalPair(data: Dict, a: Dict, b: Dict, x: map<string, Value>, y: map<string, Value>)
    requires data.entries == map["old_data" := Link(a), "new_data" := Link(b)]
    requires a.entries == Leaves(x) && b.entries == Leaves(y)
    ensures Marshal(data, 1) == Object(map["old_data" := Atoms(x), "new_data" := Atoms(y)])
  {
    MarshalLeaves(a, x, 0);
    MarshalLeaves(b, y, 0);
    hide Fields, Leaves, Atoms;
    FieldsPut(map[], "old_data", Link(a), 1);
    FieldsPut(map["old_data" := Link(a)], "new_data", Link(b), 1);
  }

  lemma MarshalAlter(d: Dict, schema: string, table: string, time: int, index: int64)
    requires d.entries == map["database" := Leaf(Text(schema)), "event_type" := Leaf(Text("alter")),
                              "time" := Leaf(Int64(time)), "table" := Leaf(Text(table)),
                              "event_index" := Leaf(Int64(index))]
    ensures Marshal(d, 0) == AlterJson(schema, table, time, index)
  {
    hide Fields;
    var e := RowsEvent(schema, table, "alter", [], []);
    HeadFields(e, time, 0);
    FieldsPut(Head(e, time), "event_index", Leaf(Int64(index)), 0);
  }

  /** The fields of a notification that do not change from row to row. */
  function Head(e: RowsEvent, time: int): (r: map<string, Cell>) {
    map["database" := Leaf(Text(e.schema)), "event_type" := Leaf(Text(e.action)),
        "time" := Leaf(Int64(time)), "table" := Leaf(Text(e.table))]
  }

  /** The outer map, possibly still holding the previous row's index and link. */
  ghost predicate Reusable(e: RowsEvent, time: int, entries: map<string, Cell>) {
    entries - {"event_index", "event"} == Head(e, time)
  }

  /** A row map is empty at first and later still holds an earlier row. */
  ghost predicate Holds(columns: seq<Column>, row: seq<Value>, entries: map<string, Cell>) {
    entries == map[] || entries == Leaves(Cells(columns, row, |columns|))
  }

  function AlterJson(schema: string, table: string, time: int, index: int64): (r: Json) {
    Object(map["database" := Atom(Text(schema)), "event_type" := Atom(Text("alter")),
               "time" := Atom(Int64(time)), "table" := Atom(Text(table)),
               "event_index" := Atom(Int64(index))])
  }

  /** `j` is the notification of a table change. */
  predicate TellsAlter(schema: string, table: string, time: int, index: int64, j: Json) {
    && j.Object? && j.fields.Keys == {"database", "table", "event_type", "time", "event_index"}
    && j.fields["database"] == Atom(Text(schema)) && j.fields["table"] == Atom(Text(table))
    && j.fields["event_type"] == Atom(Text("alter")) && j.fields["time"] == Atom(Int64(time))
    && j.fields["event_index"] == Atom(Int64(index))
  }

  lemma AlterJsonTells(schema: string, table: string, time: int, index: int64)
    ensures TellsAlter(schema, table, time, index, AlterJson(schema, table, time, index))
  {
  }

  datatype Runner = Ignored | Waits | RunsFrom(at: Place)

  const RUNNING: bv8 := 1
  const EXIT: bv8 := 2
  const OPENED: bv8 := 4

  class Binlog {
    var lastBinFile: name
    var lastPos: uint32
    var eventIndex: int64
    var status: bv8
    var cacheFile: seq<byte>
    var broadcast: seq<seq<byte>>     // frames handed to the agent server
    ghost var notified: seq<Json>     // what notify gave to the services

    ghost function View(): (m: Mem)
      reads this
    {
      Mem(Place(lastBinFile, lastPos), eventIndex,
          status & RUNNING != 0, status & EXIT != 0, status & OPENED != 0, cacheFile)
    }

    /** `NewBinlog` and `handlerInit`. */
    constructor (cacheFile: seq<byte>, master: Place)
      ensures View() == Boot(cacheFile, master)
      ensures broadcast == [] && notified == []
    {
      this.cacheFile, broadcast, notified := cacheFile, [], [];
      status := 0 | OPENED;
      var c := ReadCache(cacheFile);
      eventIndex := c.index;
      if c.file != [] && c.pos > 0 {
        var pos := ToUint32(c.pos);
        if c.file == master.file && pos > master.pos {
          pos := master.pos;
        }
        lastBinFile, lastPos := c.file, pos;
      } else {
        lastBinFile, lastPos := master.file, master.pos;
      }
    }

    /** `saveBinlogPositionCache`: write the file if open, then broadcast, unless exiting. */
    method SaveBinlogPositionCache(r: seq<byte>)
      modifies this`cacheFile, this`broadcast
      ensures View() == Saved(old(View()), r)
      ensures old(View()).exit || !old(View()).open ==> cacheFile == old(cacheFile)
      ensures forall p: Place, i: int64 :: r == RecordOf(p, i) ==> Persists(old(View()), cacheFile, p, i)
      ensures broadcast == old(broadcast) + if View().exit then [] else [Frame(CMD_POS, r)]
    {
      hide ReadCache, RecordOf, WriteAt, Frame;
      if status & EXIT != 0 { return; }
      if status & OPENED != 0 {
        cacheFile := WriteAt(cacheFile, r);
        forall p: Place, i: int64 | r == RecordOf(p, i) && |p.file| <= 494
          ensures ReadCache(cacheFile) == Position(p.file, p.pos, i)
        {
          WriteReadsBack(old(cacheFile), p, i);
        }
      }
      var frame := Pack(CMD_POS, r);
      broadcast := broadcast + [frame[..]];
    }

    /** `OnPosSynced`: save first, move `last` afterwards. */
    method OnPosSynced(p: Place)
      modifies this`cacheFile, this`broadcast, this`lastBinFile, this`lastPos
      ensures View() == Saved(old(View()), RecordOf(p, old(eventIndex))).(last := p)
      ensures Persists(old(View()), cacheFile, p, eventIndex)
      ensures broadcast == old(broadcast)
                           + if View().exit then [] else [Frame(CMD_POS, RecordOf(p, eventIndex))]
    {
      hide Persists, Record, Frame;
      var data := PackPos(p.file, p.pos, eventIndex);
      assert data == RecordOf(p, eventIndex);
      SaveBinlogPositionCache(data);
      lastBinFile, lastPos := p.file, p.pos;
    }

    /** `SaveBinlogPosition`: a record from the leader; a short one makes the Go code panic. */
    method SaveBinlogPosition(r: seq<byte>)
      requires |r| >= 18
      modifies this`cacheFile, this`broadcast, this`lastBinFile, this`lastPos, this`eventIndex
      ensures View() == Saved(Apply(old(View()), r), r)
      ensures forall p: Place, i: int64 :: r == RecordOf(p, i) ==> Persists(old(View()), cacheFile, p, i)
      ensures forall p: Place, i: int64 :: r == RecordOf(p, i) && |p.file| < 0xfff0 ==> View().last == p && eventIndex == i
      ensures broadcast == old(broadcast) + if View().exit then [] else [Frame(CMD_POS, r)]
    {
      hide UnpackPos, RecordOf, ReadCache, Frame;
      var p := UnpackPos(r);
      lastBinFile, lastPos, eventIndex := p.file, ToUint32(p.pos), p.index;
      SaveBinlogPositionCache(r);
      forall q: Place, i: int64 | r == RecordOf(q, i) && |q.file| < 0xfff0
        ensures p == Position(q.file, q.pos, i)
      {
        UnpackRecordOf(q, i);
      }
    }

    /** `Close`, up to the stop signal: the exit bit is set once and never cleared. */
    method Close() returns (signal: bool)
      modifies this`status
      ensures View() == old(View()).(exit := true)
      ensures signal == !old(View()).exit
    {
      if status & EXIT != 0 { return false; }
      status := status | EXIT;
      return true;
    }

    /** One pass of `lookStopService`. On exit it tries a last save and closes the file.
        Otherwise a running canal is closed, which syncs the position canal itself holds. */
    method OnStopSignal(exit: bool, master: Place)
      modifies this`cacheFile, this`broadcast, this`status, this`lastBinFile, this`lastPos
      ensures var m := old(View());
              View() == (if exit then Saved(m, RecordOf(m.last, m.index)).(open := false)
                         else if m.running then Saved(m, RecordOf(master, m.index)).(last := master)
                         else m).(running := false)
      ensures var m := old(View());
              broadcast == old(broadcast)
                           + if m.exit || !(exit || m.running) then []
                             else [Frame(CMD_POS, RecordOf(if exit then m.last else master, m.index))]
      ensures var m := old(View());
              if exit || m.running then Persists(m, cacheFile, if exit then m.last else master, m.index)
              else cacheFile == old(cacheFile)
    {
      hide Persists, Record, Frame;
      if status & RUNNING != 0 && !exit {
        OnPosSynced(master);
      }
      if exit {
        var r := PackPos(lastBinFile, lastPos, eventIndex);
        assert r == RecordOf(Place(lastBinFile, lastPos), eventIndex);
        SaveBinlogPositionCache(r);
        if status & OPENED != 0 {
          status := status ^ OPENED;
        }
      }
      if status & RUNNING != 0 {
        status := status ^ RUNNING;
      }
    }

    /** One pass of `lookStartService`: where the runner starts, if it does. Without a file name
        the runner waits for one and panics after three seconds. */
    method OnStartSignal() returns (r: Runner)
      modifies this`status
      ensures View() == old(View()).(running := true)
      ensures r.Ignored? <==> old(View()).running
      ensures r.Waits? <==> !old(View()).running && View().last.file == []
      ensures r.RunsFrom? ==> r.at == View().last
    {
      if status & RUNNING != 0 { return Ignored; }
      status := status | RUNNING;
      if lastBinFile == [] { return Waits; }
      return RunsFrom(Place(lastBinFile, lastPos));
    }

    /** The end of a runner, whose `RunFrom` returned an error: the bit is toggled, not cleared. */
    method OnRunnerEnd()
      modifies this`status
      ensures View() == old(View()).(running := !old(View()).running)
    {
      status := status ^ RUNNING;
    }

    /** `OnTableChanged`: counts and notifies whatever the exit bit says. */
    method OnTableChanged(schema: string, table: string, time: int)
      modifies this`eventIndex, this`notified
      ensures View() == Count(old(View()))
      ensures notified == old(notified) + [AlterJson(schema, table, time, eventIndex)]
      ensures TellsAlter(schema, table, time, ToInt64(old(eventIndex) + 1), notified[|notified| - 1])
    {
      hide Marshal, ToInt64, AlterJson, TellsAlter;
      var rowData := new Dict();
      rowData.Put("database", Leaf(Text(schema)));
      rowData.Put("event_type", Leaf(Text("alter")));
      rowData.Put("time", Leaf(Int64(time)));
      rowData.Put("table", Leaf(Text(table)));
      eventIndex := ToInt64(eventIndex + 1);
      rowData.Put("event_index", Leaf(Int64(eventIndex)));
      MarshalAlter(rowData, schema, table, time, eventIndex);
      AlterJsonTells(schema, table, time, eventIndex);
      notified := notified + [Marshal(rowData, 0)];
    }

    /** The column loop: overwrite one entry per column in a map that may be in use already. A
        cell that `fieldDecode` refuses makes the Go code panic. */
    method Fill(columns: seq<Column>, row: seq<Value>, d: Dict) returns (ok: bool)
      modifies d
      ensures ok == RowOk(columns, row)
      ensures ok ==> d.entries == old(d.entries) + Leaves(Cells(columns, row, |columns|))
    {
      hide FieldDecode, Leaves;
      assert Leaves(map[]) == map[] by { LeavesOf(map[], "", Nil); }
      for k := 0 to |columns|
        invariant d.entries == old(d.entries) + Leaves(Cells(columns, row, k))
        invariant forall j :: 0 <= j < k && j < |row| ==> FieldDecode(row[j], columns[j]).Ok?
      {
        if k < |row| {
          var v := FieldDecode(row[k], columns[k]);
          if v.OutOfRange? { return false; }
          LeavesOf(Cells(columns, row, k), columns[k].name, v.value);
          d.Put(columns[k].name, Leaf(v.value));
        } else {
          LeavesOf(Cells(columns, row, k), columns[k].name, Nil);
          d.Put(columns[k].name, Leaf(Nil));
        }
      }
      return true;
    }

    /** `OnRow`. The maps are created once and reused for every row. The Go code panics at the
        first row or pair that does not decode, and behind the last full pair of an update event
        with an odd number of rows; the failing one has been counted but is not sent. */
    method OnRow(e: RowsEvent, time: int) returns (ok: bool)
      modifies this`eventIndex, this`notified
      ensures old(View()).exit ==> ok && View() == old(View()) && notified == old(notified)
      ensures !old(View()).exit ==>
                var n := Sendable(e, 0);
                && notified == old(notified) + Notifications(e, time, old(eventIndex), n)
                && ok == (n * Stride(e) == |e.rows|)
                && View() == old(View()).(index := ToInt64(old(eventIndex) + if ok then n else n + 1))
                && (DistinctNames(e.columns) ==> TellsAll(e, time, old(eventIndex), notified[|old(notified)|..]))
    {
      hide Notifications, ToInt64, Marshal, Reusable, TellsAll, Sendable;
      if status & EXIT != 0 { return true; }
      var rowData := NewRowData(e, time);
      var data := new Dict();
      var ed := new Dict();
      if e.action == "update" {
        ok := UpdateRows(e, time, rowData, ed, data);
      } else {
        ok := OtherRows(e, time, rowData, ed, data);
      }
      if DistinctNames(e.columns) {
        NotificationsTell(e, time, old(eventIndex));
        assert notified[|old(notified)|..] == Notifications(e, time, old(eventIndex), Sendable(e, 0));
      }
    }

    method NewRowData(e: RowsEvent, time: int) returns (rowData: Dict)
      ensures fresh(rowData) && Reusable(e, time, rowData.entries)
    {
      rowData := new Dict();
      rowData.Put("database", Leaf(Text(e.schema)));
      rowData.Put("event_type", Leaf(Text(e.action)));
      rowData.Put("time", Leaf(Int64(time)));
      rowData.Put("table", Leaf(Text(e.table)));
      assert rowData.entries == Head(e, time);
    }

    /** The head of both loop bodies: count the event and put its index into the outer map. */
    method Number(e: RowsEvent, time: int, rowData: Dict)
      requires Reusable(e, time, rowData.entries)
      modifies this`eventIndex, rowData
      ensures eventIndex == ToInt64(old(eventIndex) + 1) && Reusable(e, time, rowData.entries)
      ensures "event_index" in rowData.entries && rowData.entries["event_index"] == Leaf(Int64(eventIndex))
    {
      hide ToInt64;
      eventIndex := ToInt64(eventIndex + 1);
      rowData.Put("event_index", Leaf(Int64(eventIndex)));
    }

    /** Link the maps and marshal them: the end of both loop bodies. */
    method Render(e: RowsEvent, time: int, rowData: Dict, ed: Dict, data: Dict) returns (ghost j: Json)
      requires rowData != ed && rowData != data && ed != data
      requires Reusable(e, time, rowData.entries)
      requires "event_index" in rowData.entries && rowData.entries["event_index"] == Leaf(Int64(eventIndex))
      requires ed.entries.Keys <= {"data"}
      modifies rowData, ed
      ensures Reusable(e, time, rowData.entries) && ed.entries.Keys <= {"data"}
      ensures j == EventJson(e, time, eventIndex, Marshal(data, 1))
    {
      ed.Put("data", Link(data));
      rowData.Put("event", Link(ed));
      assert ed.entries == map["data" := Link(data)];
      assert rowData.entries == Head(e, time)["event_index" := Leaf(Int64(eventIndex))]["event" := Link(ed)];
      MarshalEvent(e, time, eventIndex, rowData, ed, data);
      j := Marshal(rowData, 3);
    }

    /** The loop of insert and delete events: `data` itself is reused for every row. */
    method OtherRows(e: RowsEvent, time: int, rowData: Dict, ed: Dict, data: Dict) returns (ok: bool)
      requires e.action != "update" && rowData != ed && rowData != data && ed != data
      requires Reusable(e, time, rowData.entries) && ed.entries == data.entries == map[]
      modifies rowData, ed, data, this`eventIndex, this`notified
      ensures var n := Sendable(e, 0);
              && notified == old(notified) + Notifications(e, time, old(eventIndex), n)
              && ok == (n * Stride(e) == |e.rows|)
              && eventIndex == ToInt64(old(eventIndex) + if ok then n else n + 1)
    {
      hide Marshal, EventJson, Cells, ToInt64, DataJson, Leaves, UnitOk, Reusable;
      ghost var base: int, before := eventIndex, notified;
      for i := 0 to |e.rows|
        invariant Reusable(e, time, rowData.entries) && ed.entries.Keys <= {"data"}
        invariant Holds(e.columns, if i == 0 then [] else e.rows[i - 1], data.entries)
        invariant eventIndex == ToInt64(base + i)
        invariant notified == before + Notifications(e, time, base, i)
        invariant Sendable(e, i) == Sendable(e, 0)
      {
        ToInt64Next(base + i);
        Number(e, time, rowData);
        var done := OneRow(e, time, i, rowData, ed, data);
        if !done { return false; }
      }
      return true;
    }

    method OneRow(e: RowsEvent, time: int, i: nat, rowData: Dict, ed: Dict, data: Dict) returns (ok: bool)
      requires e.action != "update" && i < |e.rows|
      requires rowData != ed && rowData != data && ed != data
      requires Reusable(e, time, rowData.entries) && ed.entries.Keys <= {"data"}
      requires "event_index" in rowData.entries && rowData.entries["event_index"] == Leaf(Int64(eventIndex))
      requires Holds(e.columns, if i == 0 then [] else e.rows[i - 1], data.entries)
      modifies rowData, ed, data, this`notified
      ensures ok == UnitOk(e, i)
      ensures !ok ==> notified == old(notified)
      ensures ok ==>
                && Reusable(e, time, rowData.entries) && ed.entries.Keys <= {"data"}
                && Holds(e.columns, e.rows[i], data.entries)
                && notified == old(notified) + [EventJson(e, time, eventIndex, DataJson(e, i))]
    {
      hide Marshal, EventJson, Cells, Reusable, RowOk;
      ok := Refill(e.columns, if i == 0 then [] else e.rows[i - 1], e.rows[i], data);
      if !ok { return; }
      ghost var j := Render(e, time, rowData, ed, data);
      MarshalLeaves(data, Cells(e.columns, e.rows[i], |e.columns|), 1);
      notified := notified + [j];
    }

    /** Filling a map that still holds an earlier row leaves nothing of that row behind. */
    method Refill(columns: seq<Column>, ghost earlier: seq<Value>, row: seq<Value>, d: Dict) returns (ok: bool)
      requires Holds(columns, earlier, d.entries)
      modifies d
      ensures ok == RowOk(columns, row)
      ensures ok ==> d.entries == Leaves(Cells(columns, row, |columns|))
    {
      hide RowOk;
      CellsKeys(columns, earlier, row, |columns|);
      ok := Fill(columns, row, d);
    }

    /** The loop of update events: a fresh pair of maps per pair of rows, linked into the
        reused `data`. */
    method UpdateRows(e: RowsEvent, time: int, rowData: Dict, ed: Dict, data: Dict) returns (ok: bool)
      requires e.action == "update" && rowData != ed && rowData != data && ed != data
      requires Reusable(e, time, rowData.entries) && ed.entries == data.entries == map[]
      modifies rowData, ed, data, this`eventIndex, this`notified
      ensures var n := Sendable(e, 0);
              && notified == old(notified) + Notifications(e, time, old(eventIndex), n)
              && ok == (n * Stride(e) == |e.rows|)
              && eventIndex == ToInt64(old(eventIndex) + if ok then n else n + 1)
    {
      hide Marshal, EventJson, Cells, ToInt64, DataJson, UnitOk, Leaves, Reusable;
      ghost var base: int, before, n: nat := eventIndex, notified, 0;
      var i := 0;
      while i < |e.rows|
        invariant i == 2 * n && i <= |e.rows|
        invariant Reusable(e, time, rowData.entries) && ed.entries.Keys <= {"data"}
        invariant data.entries.Keys <= {"old_data", "new_data"}
        invariant eventIndex == ToInt64(base + n)
        invariant notified == before + Notifications(e, time, base, n)
        invariant Sendable(e, n) == Sendable(e, 0)
      {
        ToInt64Next(base + n);
        Number(e, time, rowData);
        if i + 1 >= |e.rows| { return false; }
        var done := OnePair(e, time, n, i, rowData, ed, data);
        if !done { return false; }
        i, n := i + 2, n + 1;
      }
      return true;
    }

    method OnePair(e: RowsEvent, time: int, ghost n: nat, i: nat, rowData: Dict, ed: Dict, data: Dict) returns (ok: bool)
      requires e.action == "update" && i == 2 * n && i + 1 < |e.rows|
      requires rowData != ed && rowData != data && ed != data
      requires Reusable(e, time, rowData.entries) && ed.entries.Keys <= {"data"}
      requires "event_index" in rowData.entries && rowData.entries["event_index"] == Leaf(Int64(eventIndex))
      requires data.entries.Keys <= {"old_data", "new_data"}
      modifies rowData, ed, data, this`notified
      ensures ok == UnitOk(e, n)
      ensures !ok ==> notified == old(notified)
      ensures ok ==>
                && Reusable(e, time, rowData.entries) && ed.entries.Keys <= {"data"}
                && data.entries.Keys <= {"old_data", "new_data"}
                && notified == old(notified) + [EventJson(e, time, eventIndex, DataJson(e, n))]
    {
      hide Marshal, EventJson, Cells, Reusable, RowOk;
      var oldData := new Dict();
      var newData := new Dict();
      ok := Fill(e.columns, e.rows[i], oldData);
      if !ok { return; }
      ok := Fill(e.columns, e.rows[i + 1], newData);
      if !ok { return; }
      data.Put("old_data", Link(oldData));
      data.Put("new_data", Link(newData));
      ghost var j := Render(e, time, rowData, ed, data);
      MarshalPair(data, oldData, newData, Cells(e.columns, e.rows[i], |e.columns|),
                  Cells(e.columns, e.rows[i + 1], |e.columns|));
      notified := notified + [j];
    }
  }
}
