/** What the position protocol guarantees in every run, and the exact conditions it needs. */
module Guarantees {
  import opened Bytes
  import opened Frames
  import opened Positions
  import opened Handler
  import opened Failover

  // ---- at least once ----

  /** In a run disciplined for coverage, no event between the cluster's first position and a
      leader's cursor is missed: each has been notified by some process, whatever crashed,
      restarted or took over before. */
  lemma AtLeastOnce(w: World, ss: seq<Cluster>, steps: seq<Step>, i: nat, n: nat)
    requires DisciplinedRun(false, w, ss, steps) && i < |ss| && n < |ss[i].procs|
    requires var p := ss[i].procs[n]; p.Up? && !p.mem.exit && Live(p.canal)
    ensures Covered(w, ss[i].history, Cursor(w, ss[i].procs[n].canal))
  {
    hide Next, Enabled, Disciplined;
    RunKeeps(false, w, ss, steps, i);
    assert ProcOk(false, w, ss[i].end, ss[i].history, ss[i].procs[n]);
  }

  /** A process whose position comes from a record, its own or the leader's, resumes at a mark
      with nothing unsent before it. */
  lemma SeededPromotionSkipsNothing(w: World, ss: seq<Cluster>, steps: seq<Step>, i: nat, n: nat, k: nat)
    requires DisciplinedRun(false, w, ss, steps) && i < |ss| && Enabled(w, ss[i], Start(n, k))
    requires !ss[i].procs[n].mem.exit && ss[i].procs[n].seeded
    ensures Covered(w, ss[i].history, w.Ord(k))
  {
    hide Next, Disciplined;
    RunKeeps(false, w, ss, steps, i);
    var s, p := ss[i], ss[i].procs[n];
    assert ProcOk(false, w, s.end, s.history, p);
    var j: nat :| LastAt(false, w, s.end, s.history, p, j);
    assert p.mem.last != NOWHERE;
    MarkIsUnique(w, j, k);
  }

  // ---- exit and persistence ----

  /** A position file, of a process up or down, names no position or one that passes no event
      that was not handed to notify; so does every broadcast record. */
  lemma PersistedPositionIsCovered(w: World, ss: seq<Cluster>, steps: seq<Step>, i: nat)
    requires DisciplinedRun(false, w, ss, steps) && i < |ss|
    ensures forall n :: 0 <= n < |ss[i].procs| && Disk(ss[i].procs[n]) != [] ==>
              DescribesCovered(w, ss[i].history, ReadCache(Disk(ss[i].procs[n])))
    ensures forall f :: f in ss[i].net ==>
              && Unpack(f).Content? && Unpack(f).cmd == CMD_POS && |Unpack(f).content| >= 18
              && DescribesCovered(w, ss[i].history, UnpackPos(Unpack(f).content))
  {
    hide Next, Enabled, Disciplined, ReadCache, UnpackPos, Unpack, Covered, Good;
    RunKeeps(false, w, ss, steps, i);
    var s := ss[i];
    forall n | 0 <= n < |s.procs| && Disk(s.procs[n]) != []
      ensures DescribesCovered(w, s.history, ReadCache(Disk(s.procs[n])))
    {
      assert ProcOk(false, w, s.end, s.history, s.procs[n]);
      GoodDisk(false, w, s.end, s.history, Disk(s.procs[n]));
    }
    forall f | f in s.net
      ensures && Unpack(f).Content? && Unpack(f).cmd == CMD_POS && |Unpack(f).content| >= 18
              && DescribesCovered(w, s.history, UnpackPos(Unpack(f).content))
    {
      var r, k, j := RecordIn(false, w, s.end, s.history, f);
    }
  }

  function Disk(p: Proc): (d: seq<byte>) {
    if p.Up? then p.mem.disk else p.disk
  }

  /** The triple names a mark of the log, and everything before that mark has been sent; or it
      names nothing. */
  ghost predicate DescribesCovered(w: World, h: map<nat, set<int>>, p: Position) {
    p.file == [] ||
    exists k: nat :: w.base <= k < |w.log|
                     && p.file == w.log[k].at.file && p.pos == w.log[k].at.pos && Covered(w, h, w.Ord(k))
  }

  /** Once the exit bit is set, in any run at all, the only saves that can still reach the file
      or the network are those that had passed their check before; the rows skipped afterwards
      and the stop handler's own save leave no trace. */
  lemma {:induction false} ExitSuppressesSaves(w: World, ss: seq<Cluster>, steps: seq<Step>, i: nat, j: nat, n: nat)
    requires IsRun(w, ss, steps) && i <= j < |ss| && n < |ss[i].procs|
    requires ss[i].procs[n].Up? && ss[i].procs[n].mem.exit
    requires forall x :: i <= x < j ==> steps[x] != Crash(n)
    ensures n < |ss[j].procs| && Frozen(ss[i].procs[n], ss[j].procs[n])
    ensures forall x, f :: i <= x < j && f in CastBy(w, ss[x], steps[x], n) ==> OnItsWay(ss[i].procs[n], f)
    decreases j
  {
    hide Act, Frozen, OnItsWay;
    if i == j {
      FrozenRefl(ss[i].procs[n]);
    } else {
      ExitSuppressesSaves(w, ss, steps, i, j - 1, n);
      var s, step := ss[j - 1], steps[j - 1];
      assert ss[j - 1 + 1] == Next(w, s, step);
      if Local(step) && step.n == n {
        FrozenStep(w, s.end, ss[i].procs[n], s.procs[n], step);
      }
    }
  }

  /** The frames that process `n` broadcasts in a step. */
  function CastBy(w: World, s: Cluster, step: Step, n: nat): (fs: set<seq<byte>>) {
    if Enabled(w, s, step) && Local(step) && step.n == n then Act(w, s.end, s.procs[n], step).cast else {}
  }

  /** A frame of one of the saves under way in `p`. */
  predicate OnItsWay(p: Proc, f: seq<byte>)
    requires p.Up?
  {
    exists t :: t in p.saves && f == Frame(CMD_POS, p.saves[t].record)
  }

  /** `q` is a later state of the exiting process `p`: no save was added, and the file is the
      same or starts with a record that was already on its way. */
  predicate Frozen(p: Proc, q: Proc) {
    && p.Up? && p.mem.exit && q.Up? && q.mem.exit
    && (forall t :: t in q.saves ==> t in p.saves && q.saves[t].record == p.saves[t].record)
    && (q.mem.disk == p.mem.disk || exists t :: t in p.saves && p.saves[t].record <= q.mem.disk)
  }

  lemma FrozenRefl(p: Proc)
    requires p.Up? && p.mem.exit
    ensures Frozen(p, p)
  {
  }

  lemma FrozenStep(w: World, end: nat, p: Proc, q: Proc, s: Step)
    requires Frozen(p, q) && CanAct(w, end, q, s) && !s.Crash?
    ensures Frozen(p, Act(w, end, q, s).proc)
    ensures forall f :: f in Act(w, end, q, s).cast ==> OnItsWay(p, f)
  {
    hide Act;
    if s.WriteSave? || s.CastSave? { FrozenSave(w, end, p, q, s); } else { FrozenOtherwise(w, end, q, s); }
  }

  lemma FrozenSave(w: World, end: nat, p: Proc, q: Proc, s: Step)
    requires Frozen(p, q) && CanAct(w, end, q, s) && (s.WriteSave? || s.CastSave?)
    ensures Frozen(p, Act(w, end, q, s).proc)
    ensures forall f :: f in Act(w, end, q, s).cast ==> OnItsWay(p, f)
  {
    hide Frame, MarkOf, At, Ahead;
    var r := q.saves[s.t].record;
    assert r == p.saves[s.t].record;
    assert r <= WriteAt(q.mem.disk, r);
  }

  lemma FrozenOtherwise(w: World, end: nat, q: Proc, s: Step)
    requires q.Up? && q.mem.exit && CanAct(w, end, q, s) && !s.WriteSave? && !s.CastSave? && !s.Crash?
    ensures var e := Act(w, end, q, s);
            e.cast == {} && e.proc.Up? && e.proc.mem.exit && e.proc.saves == q.saves && e.proc.mem.disk == q.mem.disk
  {
    hide RecordOf, Unpack, UnpackPos, ToInt64, MarkOf, At, Ahead;
  }

  // ---- numbering ----

  /** In a run disciplined for numbering, every event, however often and by whichever process it
      was sent, carried one and the same index: its place in the log counted from the cluster's
      start; so no two events share one. */
  lemma StableNumbering(w: World, ss: seq<Cluster>, steps: seq<Step>, i: nat)
    requires DisciplinedRun(true, w, ss, steps) && i < |ss|
    ensures forall o :: o in ss[i].history ==> ss[i].history[o] == {o - w.Ord(w.base) + 1}
    ensures forall x, y :: x in ss[i].history && y in ss[i].history && ss[i].history[x] == ss[i].history[y] ==> x == y
  {
    hide Next, Enabled, Disciplined;
    RunKeeps(true, w, ss, steps, i);
    forall x, y | x in ss[i].history && y in ss[i].history && ss[i].history[x] == ss[i].history[y]
      ensures x == y
    {
      assert x - w.Ord(w.base) + 1 in ss[i].history[y];
    }
  }

  /** A leader's numbering has no gaps: each index from 1 to its counter stands for one event,
      and that event has been sent under it. */
  lemma NumberingHasNoGaps(w: World, ss: seq<Cluster>, steps: seq<Step>, i: nat, n: nat, x: int)
    requires DisciplinedRun(true, w, ss, steps) && i < |ss| && n < |ss[i].procs|
    requires var p := ss[i].procs[n]; p.Up? && !p.mem.exit && Live(p.canal) && 1 <= x <= p.mem.index
    ensures exists o :: o in ss[i].history && ss[i].history[o] == {x}
  {
    hide Next, Enabled, Disciplined, DiskOk, SavesOk, LastOk, FrameOk;
    RunKeeps(true, w, ss, steps, i);
    assert ProcOk(true, w, ss[i].end, ss[i].history, ss[i].procs[n]);
    var o := w.Ord(w.base) + x - 1;
    assert o in ss[i].history && ss[i].history[o] == {w.Idx(o) + 1};
  }

  /** Every persisted or broadcast record counts exactly the events at or before its position. */
  lemma RecordsCountEvents(w: World, ss: seq<Cluster>, steps: seq<Step>, i: nat)
    requires DisciplinedRun(true, w, ss, steps) && i < |ss|
    ensures forall n :: 0 <= n < |ss[i].procs| && Disk(ss[i].procs[n]) != [] ==>
              CountsEvents(w, ReadCache(Disk(ss[i].procs[n])))
    ensures forall f :: f in ss[i].net ==>
              Unpack(f).Content? && |Unpack(f).content| >= 18 && CountsEvents(w, UnpackPos(Unpack(f).content))
  {
    hide Next, Enabled, Disciplined, ReadCache, UnpackPos, Unpack, Covered, Good;
    RunKeeps(true, w, ss, steps, i);
    var s := ss[i];
    forall n | 0 <= n < |s.procs| && Disk(s.procs[n]) != []
      ensures CountsEvents(w, ReadCache(Disk(s.procs[n])))
    {
      assert ProcOk(true, w, s.end, s.history, s.procs[n]);
      GoodDisk(true, w, s.end, s.history, Disk(s.procs[n]));
    }
    forall f | f in s.net
      ensures Unpack(f).Content? && |Unpack(f).content| >= 18 && CountsEvents(w, UnpackPos(Unpack(f).content))
    {
      var r, k, j := RecordIn(true, w, s.end, s.history, f);
    }
  }

  ghost predicate CountsEvents(w: World, p: Position) {
    exists k: nat :: w.base <= k < |w.log| && p.file == w.log[k].at.file && p.pos == w.log[k].at.pos
                     && p.index == w.Ord(k) - w.Ord(w.base)
  }

  // ---- exactly when numbering goes wrong ----

  /** A promoted process numbers the next event correctly exactly when it has notified as many
      events since its last position as its exit bit skipped before; without a record, exactly
      when there was no event before its start. */
  lemma PromotionNumberingIff(w: World, s: Cluster, n: nat, k: nat)
    requires Orderly(true, w, s) && Enabled(w, s, Start(n, k)) && Startable(s.procs[n])
    requires w.Ord(k) < w.Ord(|w.log| - 1)
    ensures var p, q := s.procs[n], Next(w, s, Start(n, k)).procs[n];
            q.Up? && (Count(q.mem).index == w.Idx(w.Ord(k)) + 1
                 <==> if p.seeded then p.since == p.skipped else w.Ord(k) == w.Ord(w.base))
  {
    hide DiskOk, SavesOk, CanalOk, FrameOk, ToInt64, Orderly;
    OrderlyOk(true, w, s);
    assert ProcOk(true, w, s.end, s.history, s.procs[n]);
    var j: nat :| LastAt(true, w, s.end, s.history, s.procs[n], j);
    MarkIsUnique(w, j, k);
    CountIs(s.procs[n].mem, w.Idx(w.Ord(k)));
  }

  /** The counter after the next event tells what it was before. */
  lemma CountIs(m: Mem, i: int)
    requires 0 <= i < 0x7fff_ffff_ffff_ffff
    ensures Count(m).index == i + 1 <==> m.index == i
  {
  }

  /** A table change gets its own number exactly when the exit bit has made the handler skip
      nothing before. */
  lemma TableChangeNumberingIff(w: World, s: Cluster, n: nat)
    requires Orderly(true, w, s) && Enabled(w, s, Alter(n))
    ensures Numbered(w, Next(w, s, Alter(n)).history) <==> s.procs[n].skipped + s.procs[n].swallowed == 0
  {
    hide Count, DiskOk, SavesOk, LastOk, FrameOk, Covered, Numbered, Noted, Orderly;
    OrderlyOk(true, w, s);
    var p := s.procs[n];
    assert ProcOk(true, w, s.end, s.history, p);
    TellTells(w, s.end, p, n, Alter(n));
    CountIs(p.mem, w.Idx(Cursor(w, p.canal)));
    ToldNumbers(w, s.history, Act(w, s.end, p, Alter(n)).told);
  }

  /** Noting an event keeps the history well numbered exactly when its own number is noted. */
  lemma ToldNumbers(w: World, h: map<nat, set<int>>, t: Told)
    requires Numbered(w, h) && t.Told?
    ensures Numbered(w, Noted(h, t)) <==> t.index == w.Idx(t.ordinal) + 1
  {
    var h' := Noted(h, t);
    assert t.index in h'[t.ordinal];
    if t.index == w.Idx(t.ordinal) + 1 {
      assert h'[t.ordinal] == {t.index};
    }
  }

  lemma DeliverMoves(w: World, s: Cluster, n: nat, f: seq<byte>)
    requires Enabled(w, s, Deliver(n, f))
    ensures s.procs[n].Up?
    ensures var s1 := Next(w, s, Deliver(n, f));
            && s1.end == s.end && s1.history == s.history && n < |s1.procs|
            && s1.procs[n].Up? && s1.procs[n].canal == s.procs[n].canal && s1.procs[n].mem.index == IndexIn(f)
  {
    hide Unpack, UnpackPos;
  }

  /** Reading on tells the event at the cursor under the next count. */
  lemma TellTells(w: World, end: nat, p: Proc, n: nat, t: Step)
    requires t in {Notify(n), Alter(n)} && p.Up? && CanAct(w, end, p, t)
    ensures Act(w, end, p, t).told == Told(Cursor(w, p.canal), Count(p.mem).index)
    ensures w.Valid() && p.canal.InRow? ==> Cursor(w, p.canal) < w.Ord(p.canal.mark + 1)
    ensures w.Valid() && p.canal.Reading? ==> Cursor(w, p.canal) < w.Ord(p.canal.mark + 1)
  {
    hide Count;
  }

  /** A record that reaches a process while it reads leaves the next event its own number
      exactly when it carries the process's own index, skipped events counted in. */
  lemma DeliveryToReaderIff(w: World, s: Cluster, s1: Cluster, n: nat, f: seq<byte>, t: Step)
    requires Orderly(true, w, s) && n < |s.procs| && s.procs[n].Up? && Live(s.procs[n].canal)
    requires Enabled(w, s, Deliver(n, f)) && s1 == Next(w, s, Deliver(n, f))
    requires t in {Notify(n), Alter(n)} && Enabled(w, s1, t)
    ensures Numbered(w, Next(w, s1, t).history)
       <==> IndexIn(f) == s.procs[n].mem.index + s.procs[n].skipped + s.procs[n].swallowed
  {
    hide Count, DiskOk, SavesOk, LastOk, FrameOk, Covered, IndexIn, CanAct, Act, Numbered, Noted, Orderly;
    OrderlyOk(true, w, s);
    var p, q := s.procs[n], s1.procs[n];
    assert ProcOk(true, w, s.end, s.history, p) && Numbered(w, s.history);
    DeliverMoves(w, s, n, f);
    TellTells(w, s.end, q, n, t);
    CountIs(q.mem, w.Idx(Cursor(w, p.canal)));
    ToldNumbers(w, s.history, Act(w, s.end, q, t).told);
  }

  /** A record that slips into the save made while canal is closed leaves the process at canal's
      position with the record's index: right for the next event exactly when the record counts
      the events before that position. */
  lemma DeliveryWhileStoppingIff(w: World, s: Cluster, s1: Cluster, n: nat, f: seq<byte>)
    requires Orderly(true, w, s) && n < |s.procs| && s.procs[n].Up? && StopThread in s.procs[n].saves
    requires w.Ord(s.procs[n].synced) < w.Ord(|w.log| - 1)
    requires Enabled(w, s, Deliver(n, f)) && s1 == Next(w, s, Deliver(n, f)) && Enabled(w, s1, CastSave(n, StopThread))
    ensures var p, q := s.procs[n], Next(w, s1, CastSave(n, StopThread)).procs[n];
            && q.Up? && q.mem.last == At(w, p.synced)
            && (Count(q.mem).index == w.Idx(w.Ord(p.synced)) + 1 <==> IndexIn(f) == w.Idx(w.Ord(p.synced)))
  {
    hide Count, DiskOk, CanalOk, LastOk, FrameOk, Covered, Good, Numbered, Orderly, IndexIn, Unpack, UnpackPos, Frame, MarkOf;
    OrderlyOk(true, w, s);
    var p := s.procs[n];
    assert ProcOk(true, w, s.end, s.history, p);
    DeliverMoves(w, s, n, f);
    CountIs(Next(w, s1, CastSave(n, StopThread)).procs[n].mem, w.Idx(w.Ord(p.synced)));
  }

  /** The record saved when canal is closed names a position exactly when that canal was run. */
  lemma StopRecordNamesPositionIff(w: World, s: Cluster, n: nat)
    requires Orderly(false, w, s) && Enabled(w, s, Stop(n)) && !s.procs[n].mem.exit
    ensures var q := Next(w, s, Stop(n)).procs[n];
            && q.Up? && StopThread in q.saves && |q.saves[StopThread].record| >= 18
            && (UnpackPos(q.saves[StopThread].record).file != [] <==> !s.procs[n].canal.Stopped?)
  {
    hide DiskOk, SavesOk, LastOk, FrameOk, Covered, UnpackPos, RecordOf, CanalOk, Orderly;
    OrderlyOk(false, w, s);
    var p := s.procs[n];
    assert ProcOk(false, w, s.end, s.history, p);
    if !p.canal.Stopped? { CanalPosition(false, w, s.end, s.history, p); }
    RecordOfPlace(w, Closed(w, p).synced, p.mem.index);
  }

  lemma RecordOfPlace(w: World, k: nat, i: int64)
    requires w.Valid()
    ensures |RecordOf(At(w, k), i)| >= 18
    ensures UnpackPos(RecordOf(At(w, k), i)) == Position(At(w, k).file, At(w, k).pos, i)
    ensures At(w, k).file != [] <==> k < |w.log|
  {
    hide UnpackPos;
    FieldsOfRecord(At(w, k).file, At(w, k).pos, i, []);
    ReplicationRoundTrip(At(w, k).file, At(w, k).pos, i);
  }

  /** The record saved when canal is closed counts the events before its position exactly when
      what was notified and skipped since the last position makes up for the distance between
      the two; when they are the same, exactly when as many events were notified as skipped. */
  lemma StopRecordCountsIff(w: World, s: Cluster, n: nat, k: nat)
    requires Orderly(true, w, s) && Enabled(w, s, Stop(n)) && !s.procs[n].mem.exit
    requires !s.procs[n].canal.Stopped? && k < |w.log| && w.log[k].at == s.procs[n].mem.last
    ensures var p, q := s.procs[n], Next(w, s, Stop(n)).procs[n];
            && q.Up? && StopThread in q.saves && |q.saves[StopThread].record| >= 18
            && (CountsEvents(w, UnpackPos(q.saves[StopThread].record))
                <==> w.Ord(p.synced) + p.skipped == w.Ord(k) + p.since)
            && (p.mem.last == At(w, p.synced) ==>
                  (CountsEvents(w, UnpackPos(q.saves[StopThread].record)) <==> p.since == p.skipped))
  {
    hide DiskOk, SavesOk, FrameOk, Covered, UnpackPos, RecordOf, CanalOk, CountsEvents, Orderly;
    OrderlyOk(true, w, s);
    var p := s.procs[n];
    assert ProcOk(true, w, s.end, s.history, p);
    CanalPosition(true, w, s.end, s.history, p);
    var j: nat :| LastAt(true, w, s.end, s.history, p, j);
    MarkIsUnique(w, j, k);
    if p.mem.last == At(w, p.synced) { MarkIsUnique(w, k, p.synced); }
    RecordOfMark(w, p.synced, p.mem.index);
  }

  lemma RecordOfMark(w: World, k: nat, i: int64)
    requires w.Valid() && w.base <= k < |w.log|
    ensures |RecordOf(w.log[k].at, i)| >= 18
    ensures CountsEvents(w, UnpackPos(RecordOf(w.log[k].at, i))) <==> i == w.Idx(w.Ord(k))
  {
    hide UnpackPos;
    var at := w.log[k].at;
    FieldsOfRecord(at.file, at.pos, i, []);
    ReplicationRoundTrip(at.file, at.pos, i);
    forall j: nat | j < |w.log| && w.log[j].at.file == at.file && w.log[j].at.pos == at.pos
      ensures j == k
    {
      MarkIsUnique(w, j, k);
    }
  }

  // ---- the steps compose to the methods ----

  /** The rest of a save: nothing if the exit check has stopped it, else the write and the
      broadcast. */
  function Rest(w: World, end: nat, p: Proc, n: nat, t: Thread): (e: Effect)
    requires p.Up? && (t in p.saves ==> Saveable(w, p, t))
  {
    if t in p.saves then SaveSteps(w, end, p, n, t) else Silent(p)
  }

  /** What the methods broadcast: nothing once the exit bit is set. */
  function CastOf(p: Proc, r: seq<byte>): (fs: set<seq<byte>>)
    requires p.Up?
  {
    if p.mem.exit then {} else {Frame(CMD_POS, r)}
  }

  /** Left undisturbed, the steps of a position sync do what the method `OnPosSynced` does to
      the handler and the network, exiting or not. */
  lemma SyncStepsCompose(w: World, end: nat, p: Proc, n: nat)
    requires p.Up? && p.saves == map[] && CanAct(w, end, p, Sync(n))
    ensures var at := w.log[p.canal.mark].at;
            var r := RecordOf(at, p.mem.index);
            var q := Act(w, end, p, Sync(n)).proc;
            && q.Up? && (CanalThread in q.saves ==> Saveable(w, q, CanalThread))
            && var e := Rest(w, end, q, n, CanalThread);
               && e.proc.Up? && e.proc.mem == Saved(p.mem, r).(last := at) && e.cast == CastOf(p, r)
               && (!p.mem.exit ==> e.proc == p.(mem := e.proc.mem, synced := p.canal.mark, since := 0))
  {
    hide Frame, RecordOf, WriteAt;
    assert p.saves[CanalThread := Written(RecordOf(w.log[p.canal.mark].at, p.mem.index))] - {CanalThread} == map[];
  }

  /** The steps of a delivery do what `SaveBinlogPosition` does. */
  lemma DeliverStepsCompose(w: World, end: nat, p: Proc, n: nat, f: seq<byte>)
    requires p.Up? && p.saves == map[] && CanAct(w, end, p, Deliver(n, f))
    ensures var r := Unpack(f).content;
            var q := Act(w, end, p, Deliver(n, f)).proc;
            && q.Up? && (AgentThread in q.saves ==> Saveable(w, q, AgentThread))
            && Rest(w, end, q, n, AgentThread)
               == Effect(Settled(p).(mem := Saved(Apply(p.mem, r), r)), CastOf(p, r), Nothing)
  {
    hide Frame, Unpack, UnpackPos, WriteAt;
    assert p.saves[AgentThread := Written(Unpack(f).content)] - {AgentThread} == map[];
  }

  /** The steps of a stop do what `OnStopSignal` does with canal's own position. */
  lemma StopStepsCompose(w: World, end: nat, p: Proc, n: nat)
    requires p.Up? && p.saves == map[] && CanAct(w, end, p, Stop(n))
    ensures var at := At(w, Closed(w, p).synced);
            var r := RecordOf(at, p.mem.index);
            var q := Act(w, end, p, Stop(n)).proc;
            && q.Up? && (StopThread in q.saves ==> Saveable(w, q, StopThread))
            && var e := Rest(w, end, q, n, StopThread);
               && e.cast == CastOf(p, r) && CanAct(w, end, e.proc, Clear(n))
               && var c := Act(w, end, e.proc, Clear(n)).proc;
                  && c.Up? && c.mem == Saved(p.mem, r).(last := at, running := false)
                  && c.canal.Stopped? && c.saves == map[] && c.ended == Closed(w, p).ended && !c.stopping
                  && c.seeded == p.seeded
  {
    hide Frame, RecordOf, WriteAt, MarkOf;
    var r := RecordOf(At(w, Closed(w, p).synced), p.mem.index);
    assert p.saves[StopThread := Written(r)] - {StopThread} == map[];
  }

  /** And the stop handler's exit branch, in which the save is always suppressed, does what
      `OnStopSignal` does on exit. */
  lemma ExitStepComposes(w: World, end: nat, p: Proc, n: nat)
    requires p.Up? && CanAct(w, end, p, StopExit(n))
    ensures var e := Act(w, end, p, StopExit(n));
            && e.proc.Up? && e.cast == {} && e.proc.saves == p.saves
            && e.proc.mem == Saved(p.mem, RecordOf(p.mem.last, p.mem.index)).(open := false, running := false)
  {
  }

  predicate Saveable(w: World, p: Proc, t: Thread) {
    && p.Up? && t in p.saves && p.saves[t].Passed?
    && (t.CanalThread? ==> p.canal.Reading? && p.canal.mark < |w.log|)
  }

  /** The write and the broadcast of a save that has passed its check. */
  function SaveSteps(w: World, end: nat, p: Proc, n: nat, t: Thread): (e: Effect)
    requires Saveable(w, p, t)
  {
    Act(w, end, Act(w, end, p, WriteSave(n, t)).proc, CastSave(n, t))
  }

  // ---- the running bit ----

  /** In every run the running bit is off by one for each runner that has ended without saying
      so, and for each time the stop handler cleared it although the runner had not. So once
      all runners have reported, it tells whether canal is being read exactly when the handler
      found it still set an even number of times. */
  lemma {:induction false} RunningBitIsTrueIff(w: World, ss: seq<Cluster>, steps: seq<Step>, i: nat, n: nat)
    requires IsRun(w, ss, steps) && i < |ss| && n < |ss[i].procs| && ss[i].procs[n].Up?
    ensures var p := ss[i].procs[n];
            && (p.mem.running <==> (Live(p.canal) <==> (p.ended + p.cleared) % 2 == 0))
            && (p.ended == 0 ==> ((p.mem.running <==> Live(p.canal)) <==> p.cleared % 2 == 0))
    decreases i
  {
    hide Act, CanAct, Post, Wires, Noted;
    if i == 0 {
      EmptyCache();
    } else {
      var s, step := ss[i - 1], steps[i - 1];
      assert ss[i - 1 + 1] == Next(w, s, step);
      if Local(step) && step.n == n {
        if s.procs[n].Up? { RunningBitIsTrueIff(w, ss, steps, i - 1, n); }
        BitStep(w, s.end, s.procs[n], step);
      } else {
        RunningBitIsTrueIff(w, ss, steps, i - 1, n);
      }
    }
  }

  predicate BitOk(p: Proc)
    requires p.Up?
  {
    p.mem.running <==> (Live(p.canal) <==> (p.ended + p.cleared) % 2 == 0)
  }

  lemma BitStep(w: World, end: nat, p: Proc, s: Step)
    requires CanAct(w, end, p, s) && (p.Up? ==> BitOk(p))
    ensures Act(w, end, p, s).proc.Up? ==> BitOk(Act(w, end, p, s).proc)
  {
    hide Act;
    if s.Start? {
      StartKeepsBit(w, end, p, s.n, s.k);
    } else if s.Stop? || s.StopExit? || s.Clear? || s.Fail? || s.Report? {
      StopKeepsBit(w, end, p, s);
    } else {
      BitUntouched(w, end, p, s);
    }
  }

  lemma StartKeepsBit(w: World, end: nat, p: Proc, n: nat, k: nat)
    requires CanAct(w, end, p, Start(n, k)) && p.Up? && BitOk(p)
    ensures var p' := Act(w, end, p, Start(n, k)).proc; p'.Up? && BitOk(p')
  {
    hide Launch;
    LaunchKeepsBit(p, k);
  }

  lemma StopKeepsBit(w: World, end: nat, p: Proc, s: Step)
    requires CanAct(w, end, p, s) && p.Up? && BitOk(p)
    requires s.Stop? || s.StopExit? || s.Clear? || s.Fail? || s.Report?
    ensures var p' := Act(w, end, p, s).proc; p'.Up? && BitOk(p')
  {
    hide MarkOf, RecordOf, At, Ahead;
  }

  /** The other steps change neither the bit nor what it should say. */
  lemma BitUntouched(w: World, end: nat, p: Proc, s: Step)
    requires CanAct(w, end, p, s)
    requires !s.Start? && !s.Stop? && !s.StopExit? && !s.Clear? && !s.Fail? && !s.Report?
    ensures var p' := Act(w, end, p, s).proc;
            p'.Up? ==> if p.Up? then && p'.mem.running == p.mem.running && Live(p'.canal) == Live(p.canal)
                                     && p'.ended == p.ended && p'.cleared == p.cleared
                       else !p'.mem.running && !Live(p'.canal) && p'.ended == p'.cleared == 0
  {
    hide MarkOf, RecordOf, Frame, Unpack, UnpackPos, ToInt64, WriteAt, ReadCache;
  }

  lemma LaunchKeepsBit(p: Proc, k: nat)
    requires p.Up? && BitOk(p) && !p.mem.running && !p.canal.InRow?
    ensures BitOk(Launch(p.(mem := p.mem.(running := true)), k))
  {
  }

  /** If the handler never finds the bit set when it comes to clear it, because every runner has
      reported by then, a process all of whose runners have reported heeds a start exactly when
      it does not read. */
  lemma {:induction false} PromptReportsKeepBitTrue(w: World, ss: seq<Cluster>, steps: seq<Step>, i: nat, n: nat)
    requires IsRun(w, ss, steps) && i < |ss| && n < |ss[i].procs| && ss[i].procs[n].Up? && ss[i].procs[n].ended == 0
    requires forall x :: 0 <= x < i && n < |ss[x].procs| && ss[x].procs[n].Up? && steps[x] in {Clear(n), StopExit(n)}
                         ==> !ss[x].procs[n].mem.running
    ensures ss[i].procs[n].mem.running <==> Live(ss[i].procs[n].canal)
  {
    NothingCleared(w, ss, steps, i, n);
    RunningBitIsTrueIff(w, ss, steps, i, n);
  }

  lemma {:induction false} NothingCleared(w: World, ss: seq<Cluster>, steps: seq<Step>, i: nat, n: nat)
    requires IsRun(w, ss, steps) && i < |ss| && n < |ss[i].procs| && ss[i].procs[n].Up?
    requires forall x :: 0 <= x < i && n < |ss[x].procs| && ss[x].procs[n].Up? && steps[x] in {Clear(n), StopExit(n)}
                         ==> !ss[x].procs[n].mem.running
    ensures ss[i].procs[n].cleared == 0
    decreases i
  {
    hide Act, CanAct;
    if i > 0 {
      var s, step := ss[i - 1], steps[i - 1];
      assert ss[i - 1 + 1] == Next(w, s, step);
      if s.procs[n].Up? { NothingCleared(w, ss, steps, i - 1, n); }
      if Local(step) && step.n == n { ClearStep(w, s.end, s.procs[n], step); }
    }
  }

  lemma ClearStep(w: World, end: nat, p: Proc, s: Step)
    requires CanAct(w, end, p, s) && (p.Up? ==> p.cleared == 0)
    requires p.Up? && (s.Clear? || s.StopExit?) ==> !p.mem.running
    ensures Act(w, end, p, s).proc.Up? ==> Act(w, end, p, s).proc.cleared == 0
  {
    hide MarkOf, RecordOf, Frame, Unpack, UnpackPos, ToInt64, WriteAt, ReadCache;
  }

  // ---- runners ----

  /** A start begins to read exactly when canal is new and no stop is under way; in particular a
      start that finds canal being read ends the reading. */
  lemma StartReadsIff(w: World, end: nat, p: Proc, n: nat, k: nat)
    requires p.Up? && CanAct(w, end, p, Start(n, k))
    ensures var p' := Act(w, end, p, Start(n, k)).proc;
            && p'.Up? && p'.mem == p.mem.(running := true)
            && (Live(p'.canal) <==> p.canal.Stopped? && StopThread !in p.saves)
            && (Live(p'.canal) ==> p'.canal == Reading(k))
  {
  }

  /** Runners that are reading, or have ended and not said so. */
  function Runners(p: Proc): (n: nat) {
    if p.Down? then 0 else p.ended + if Live(p.canal) then 1 else 0
  }

  /** Starts of a process less reports, since it last booted or crashed. */
  function Balance(steps: seq<Step>, n: nat): (b: int) {
    if steps == [] then 0
    else
      var front, last := Balance(steps[..|steps| - 1], n), steps[|steps| - 1];
      if !Local(last) || last.n != n then front
      else if last.Boot? || last.Crash? then 0
      else front + (if last.Start? then 1 else 0) - (if last.Report? then 1 else 0)
  }

  /** Every runner that was started reports exactly once, or is still reading, or has ended and
      will report. */
  lemma {:induction false} RunnersAreConserved(w: World, ss: seq<Cluster>, steps: seq<Step>, i: nat, n: nat)
    requires IsRun(w, ss, steps) && i < |ss| && n < |ss[i].procs|
    ensures Runners(ss[i].procs[n]) == Balance(steps[..i], n)
    decreases i
  {
    hide Act, CanAct, Post, Wires, Noted, Runners;
    if i == 0 {
      FirstRunners(w, ss[0], n);
    } else {
      var s, step := ss[i - 1], steps[i - 1];
      assert ss[i - 1 + 1] == Next(w, s, step);
      assert steps[..i][..i - 1] == steps[..i - 1] && steps[..i][i - 1] == step;
      RunnersAreConserved(w, ss, steps, i - 1, n);
      if Local(step) && step.n == n { RunnerStep(w, s.end, s.procs[n], step); }
    }
  }

  lemma FirstRunners(w: World, s: Cluster, n: nat)
    requires w.base < |w.log| && n < |s.procs| && exists size: nat :: s == First(w, size)
    ensures Runners(s.procs[n]) == 0
  {
  }

  lemma RunnerStep(w: World, end: nat, p: Proc, s: Step)
    requires CanAct(w, end, p, s)
    ensures var p' := Act(w, end, p, s).proc;
            Runners(p') == if s.Boot? || s.Crash? then 0
                           else Runners(p) + (if s.Start? then 1 else 0) - (if s.Report? then 1 else 0)
  {
    hide MarkOf, RecordOf, Frame, Unpack, UnpackPos, ToInt64, WriteAt, ReadCache, At, Ahead;
  }
}
