/** Runs of two processes in which a guarantee fails. Every record in them is delivered over an
    agent connection, in the order it was sent. */
module Witnesses {
  import opened Bytes
  import opened Frames
  import opened Positions
  import opened Handler
  import opened Failover
  import opened Guarantees

  /** The states of all runs over the agent's connections. */
  ghost predicate Attainable(w: World, s: Cluster) {
    exists ss, steps :: IsWiredRun(w, ss, steps) && ss[|ss| - 1] == s
  }

  /** The states of those runs that break no rule but those in `rs`. */
  ghost predicate Reachable(w: World, rs: set<Rule>, s: Cluster) {
    exists ss, steps :: IsWiredRun(w, ss, steps) && BreaksOnly(w, rs, ss, steps) && ss[|ss| - 1] == s
  }

  ghost predicate BreaksOnly(w: World, rs: set<Rule>, ss: seq<Cluster>, steps: seq<Step>)
    requires |ss| == |steps| + 1
  {
    forall i :: 0 <= i < |steps| ==> Allowed(w, rs, ss[i], steps[i])
  }

  ghost predicate Allowed(w: World, rs: set<Rule>, s: Cluster, step: Step) {
    Local(step) && step.n < |s.procs| ==> forall r: Rule :: r !in rs ==> Obeys(w, s.procs[step.n], step, r)
  }

  lemma Weaken(w: World, rs: set<Rule>, s: Cluster)
    requires Reachable(w, {}, s)
    ensures Reachable(w, rs, s) && Attainable(w, s)
  {
    var ss, steps :| IsWiredRun(w, ss, steps) && BreaksOnly(w, {}, ss, steps) && ss[|ss| - 1] == s;
    assert BreaksOnly(w, rs, ss, steps);
  }

  // ---- single steps ----

  lemma Extend(w: World, rs: set<Rule>, s: Cluster, step: Step)
    requires Reachable(w, rs, s) && Enabled(w, s, step) && (step.Deliver? ==> InFront(s.mail, step.n, step.frame))
    requires Allowed(w, rs, s, step)
    ensures Reachable(w, rs, Next(w, s, step))
  {
    hide Enabled, Next, First, InFront, Allowed;
    var ss, steps :| IsWiredRun(w, ss, steps) && BreaksOnly(w, rs, ss, steps) && ss[|ss| - 1] == s;
    var ss', steps' := ss + [Next(w, s, step)], steps + [step];
    assert IsWiredRun(w, ss', steps') && BreaksOnly(w, rs, ss', steps');
  }

  /** Process `n` is `p`, the other one `q`, and the rest is as in `s`. */
  function Duo(n: nat, p: Proc, q: Proc, s: Cluster): (r: Cluster) {
    s.(procs := if n == 0 then [p, q] else [q, p])
  }

  /** Nothing sent, nothing connected. */
  function Origin(end: nat): (s: Cluster) {
    Cluster(end, [], {}, map[], map[], map[])
  }

  /** A process booted without a cache at mark `k`. */
  function Newborn(w: World, k: nat, seeded: bool): (p: Proc)
    requires k < |w.log|
    ensures p.Up?
  {
    Booted(w.log[k].at, 0, [], seeded)
  }

  function Booted(at: Place, index: int64, disk: seq<byte>, seeded: bool): (p: Proc)
    ensures p.Up?
  {
    Up(Mem(at, index, false, false, true, disk), Stopped, 0, 0, false, map[], seeded, 0, 0, 0, 0)
  }

  function Leading(p: Proc, k: nat): (p': Proc)
    requires p.Up?
    ensures p'.Up?
  {
    Up(p.mem.(running := true), Reading(k), k, p.ended, p.stopping, p.saves, true, 0, 0, 0, p.cleared)
  }

  lemma FirstReached(w: World, rs: set<Rule>)
    requires w.Valid()
    ensures Reachable(w, rs, Duo(0, Newborn(w, w.base, true), Down([]), Origin(w.base)))
  {
    EmptyCache();
    var s := First(w, 1);
    assert s == Duo(0, Newborn(w, w.base, true), Down([]), Origin(w.base));
    var steps: seq<Step> := [];
    assert IsWiredRun(w, [s], steps) && BreaksOnly(w, rs, [s], steps);
  }

  lemma GrowTo(w: World, rs: set<Rule>, p: Proc, q: Proc, s: Cluster, k: nat)
    requires Reachable(w, rs, Duo(0, p, q, s)) && s.end <= k < |w.log|
    ensures Reachable(w, rs, Duo(0, p, q, s.(end := k)))
    decreases k - s.end
  {
    hide Reachable;
    if s.end < k {
      Extend(w, rs, Duo(0, p, q, s), Grow);
      GrowTo(w, rs, p, q, s.(end := s.end + 1), k);
    } else {
      assert s.(end := k) == s;
    }
  }

  /** A step that only changes its own process. */
  lemma Quiet(w: World, rs: set<Rule>, n: nat, p: Proc, q: Proc, s: Cluster, step: Step)
    requires Reachable(w, rs, Duo(n, p, q, s)) && n < 2 && Local(step) && step.n == n && CanAct(w, s.end, p, step)
    requires !step.CastSave? && !step.Deliver? && !step.Crash? && !step.Alter? && Act(w, s.end, p, step).told.Nothing?
    requires step.Start? || step.Stop? ==> Allowed(w, rs, Duo(n, p, q, s), step)
    ensures Reachable(w, rs, Duo(n, Act(w, s.end, p, step).proc, q, s))
  {
    hide Reachable, Act, MarkOf, StopIsEven, IndexIn;
    var e := Act(w, s.end, p, step);
    NoCast(w, s.end, p, step);
    Extend(w, rs, Duo(n, p, q, s), step);
    assert s.net + {} == s.net;
    assert Next(w, Duo(n, p, q, s), step) == Duo(n, e.proc, q, s);
  }

  lemma NoCast(w: World, end: nat, p: Proc, step: Step)
    requires CanAct(w, end, p, step) && !step.CastSave?
    ensures Act(w, end, p, step).cast == {}
  {
    hide MarkOf, RecordOf, Unpack, UnpackPos, ToInt64, WriteAt, ReadCache;
  }

  lemma Crashes(w: World, rs: set<Rule>, n: nat, p: Proc, q: Proc, s: Cluster)
    requires Reachable(w, rs, Duo(n, p, q, s)) && n < 2 && p.Up?
    ensures Reachable(w, rs, Duo(n, Down(p.mem.disk), q, s.(links := Wires(s.links, Crash(n)), mail := s.mail - {n})))
  {
    hide Reachable, Wires;
    Extend(w, rs, Duo(n, p, q, s), Crash(n));
    assert s.net + {} == s.net;
    assert Next(w, Duo(n, p, q, s), Crash(n))
        == Duo(n, Down(p.mem.disk), q, s.(links := Wires(s.links, Crash(n)), mail := s.mail - {n}));
  }

  lemma BootsFresh(w: World, rs: set<Rule>, n: nat, q: Proc, s: Cluster)
    requires Reachable(w, rs, Duo(n, Down([]), q, s)) && n < 2 && s.end < |w.log|
    ensures Reachable(w, rs, Duo(n, Newborn(w, s.end, false), q, s))
  {
    hide Reachable;
    EmptyCache();
    Quiet(w, rs, n, Down([]), q, s, Step.Boot(n));
  }

  lemma Starts(w: World, rs: set<Rule>, n: nat, p: Proc, q: Proc, s: Cluster, k: nat)
    requires Reachable(w, rs, Duo(n, p, q, s)) && n < 2 && k <= s.end < |w.log|
    requires Startable(p) && CanalThread !in p.saves && !p.mem.running && w.log[k].at == p.mem.last
    requires if p.seeded then StartsEven in rs || p.since == p.skipped else StartsFirst in rs || w.Ord(k) == w.Ord(w.base)
    ensures Reachable(w, rs, Duo(n, Leading(p, k), q, s))
  {
    hide Reachable;
    Quiet(w, rs, n, p, q, s, Start(n, k));
  }

  /** The agent client of a process that does not lead connects to the other one, which does. */
  lemma Connects(w: World, rs: set<Rule>, n: nat, p: Proc, q: Proc, s: Cluster)
    requires Reachable(w, rs, Duo(n, p, q, s)) && n < 2 && n !in s.links
    requires p.Up? && !p.mem.running && !Live(p.canal) && q.Up? && q.mem.running
    ensures Reachable(w, rs, Duo(n, p, q, s.(links := s.links[n := 1 - n])))
  {
    hide Reachable;
    Extend(w, rs, Duo(n, p, q, s), Connect(n, 1 - n));
  }

  // ---- several steps ----

  /** The entry at mark `k`, one event, is read and told, be it a table change or a row. */
  lemma Reads(w: World, rs: set<Rule>, n: nat, p: Proc, q: Proc, s: Cluster, k: nat)
    requires Reachable(w, rs, Duo(n, p, q, s)) && n < 2 && k < s.end < |w.log|
    requires p.Up? && p.canal == Reading(k) && CanalThread !in p.saves && !p.mem.exit && w.Ord(k + 1) == w.Ord(k) + 1
    requires p.skipped + p.swallowed == 0
    ensures var e := Tell(p, w.Ord(k), Reading(k + 1));
            Reachable(w, rs, Duo(n, e.proc, q, s.(history := Noted(s.history, e.told))))
  {
    hide Reachable, Noted, ToInt64;
    if w.log[k].alter {
      Tells(w, rs, n, p, q, s, Alter(n));
    } else {
      var e := Tell(p, w.Ord(k), Reading(k + 1));
      var p1 := p.(canal := InRow(k, 0));
      var p2 := Tell(p1, w.Ord(k), InRow(k, 1)).proc;
      Quiet(w, rs, n, p, q, s, EnterRow(n));
      Tells(w, rs, n, p1, q, s, Notify(n));
      Quiet(w, rs, n, p2, q, s.(history := Noted(s.history, e.told)), FinishRow(n));
    }
  }

  lemma Tells(w: World, rs: set<Rule>, n: nat, p: Proc, q: Proc, s: Cluster, step: Step)
    requires Reachable(w, rs, Duo(n, p, q, s)) && n < 2 && step in {Notify(n), Alter(n)} && CanAct(w, s.end, p, step)
    requires step.Alter? ==> AltersUnskipped in rs || p.skipped + p.swallowed == 0
    ensures var e := Act(w, s.end, p, step);
            Reachable(w, rs, Duo(n, e.proc, q, s.(history := Noted(s.history, e.told))))
  {
    hide Reachable, Noted, ToInt64;
    Extend(w, rs, Duo(n, p, q, s), step);
    assert s.net + {} == s.net;
    var e := Act(w, s.end, p, step);
    assert Next(w, Duo(n, p, q, s), step) == Duo(n, e.proc, q, s.(history := Noted(s.history, e.told)));
  }

  /** A frame that process `m` broadcasts reaches whoever is connected to it. */
  function Sent(s: Cluster, m: nat, f: seq<byte>): (s': Cluster) {
    s.(net := s.net + {f},
       mail := map n | n in s.mail.Keys + s.links.Keys ::
                 Inbox(s.mail, n) + if n in s.links && s.links[n] == m then [f] else [])
  }

  /** A save that has passed its check is written and broadcast. */
  lemma Completes(w: World, rs: set<Rule>, n: nat, p: Proc, q: Proc, s: Cluster, t: Thread)
    requires Reachable(w, rs, Duo(n, p, q, s)) && n < 2 && Saveable(w, p, t)
    ensures Reachable(w, rs, Duo(n, SaveSteps(w, s.end, p, n, t).proc, q, Sent(s, n, Frame(CMD_POS, p.saves[t].record))))
  {
    hide Reachable, Frame, WriteAt, MarkOf;
    var p1, f := Act(w, s.end, p, WriteSave(n, t)).proc, Frame(CMD_POS, p.saves[t].record);
    Quiet(w, rs, n, p, q, s, WriteSave(n, t));
    Extend(w, rs, Duo(n, p1, q, s), CastSave(n, t));
    assert Next(w, Duo(n, p1, q, s), CastSave(n, t)) == Duo(n, SaveSteps(w, s.end, p, n, t).proc, q, Sent(s, n, f));
  }

  /** Canal syncs at its mark and the save runs through. */
  lemma Syncs(w: World, rs: set<Rule>, n: nat, p: Proc, q: Proc, s: Cluster, k: nat)
    requires Reachable(w, rs, Duo(n, p, q, s)) && n < 2 && k < |w.log|
    requires p.Up? && p.canal == Reading(k) && p.saves == map[] && !p.mem.exit
    ensures var r := RecordOf(w.log[k].at, p.mem.index);
            Reachable(w, rs, Duo(n, p.(mem := Saved(p.mem, r).(last := w.log[k].at), synced := k, since := 0), q,
                             Sent(s, n, Frame(CMD_POS, r))))
  {
    hide Reachable, Frame, RecordOf, WriteAt, Sent, SaveSteps;
    Quiet(w, rs, n, p, q, s, Sync(n));
    Completes(w, rs, n, Act(w, s.end, p, Sync(n)).proc, q, s, CanalThread);
    SyncStepsCompose(w, s.end, p, n);
  }

  /** The process after a whole stop. */
  function Halted(w: World, end: nat, p: Proc, n: nat): (p': Proc)
    requires p.Up? && !p.mem.exit && CanAct(w, end, p, Stop(n))
  {
    Act(w, end, SaveSteps(w, end, Act(w, end, p, Stop(n)).proc, n, StopThread).proc, Clear(n)).proc
  }

  /** Leadership is lost: canal is closed, its position saved, the running bit cleared. */
  lemma Halts(w: World, rs: set<Rule>, n: nat, p: Proc, q: Proc, s: Cluster)
    requires Reachable(w, rs, Duo(n, p, q, s)) && n < 2
    requires p.Up? && !p.mem.exit && p.saves == map[] && CanAct(w, s.end, p, Stop(n))
    requires if p.canal.Stopped? then StopsRunCanal in rs else StopsEven in rs || StopIsEven(w, p)
    ensures var r := RecordOf(At(w, Closed(w, p).synced), p.mem.index);
            Reachable(w, rs, Duo(n, Halted(w, s.end, p, n), q, Sent(s, n, Frame(CMD_POS, r))))
  {
    hide Reachable, Frame, RecordOf, WriteAt, Sent, SaveSteps, MarkOf, StopIsEven;
    var r, p1 := RecordOf(At(w, Closed(w, p).synced), p.mem.index), Act(w, s.end, p, Stop(n)).proc;
    Quiet(w, rs, n, p, q, s, Stop(n));
    Completes(w, rs, n, p1, q, s, StopThread);
    StopStepsCompose(w, s.end, p, n);
    Quiet(w, rs, n, SaveSteps(w, s.end, p1, n, StopThread).proc, q, Sent(s, n, Frame(CMD_POS, r)), Clear(n));
  }

  lemma HaltedIs(w: World, end: nat, p: Proc, n: nat)
    requires p.Up? && !p.mem.exit && p.saves == map[] && CanAct(w, end, p, Stop(n))
    ensures var p', at := Halted(w, end, p, n), At(w, Closed(w, p).synced);
            && Startable(p') && p'.saves == map[] && p'.seeded == p.seeded && p'.ended == Closed(w, p).ended
            && p'.mem == Saved(p.mem, RecordOf(at, p.mem.index)).(last := at, running := false) && !p'.stopping
  {
    hide SaveSteps, RecordOf, WriteAt, Frame;
    StopStepsCompose(w, end, p, n);
  }

  lemma EvenWhenSame(w: World, p: Proc, k: nat)
    requires w.Valid() && k < |w.log| && p.Up? && p.mem.last == w.log[k].at && p.synced == k && p.since == p.skipped
    ensures StopIsEven(w, p)
  {
    hide MarkOf;
    MarkFound(w, k, |w.log|);
  }

  /** A process after the exit check of the record of mark `k` with index `i`. */
  function Received(w: World, p: Proc, k: nat, i: int64): (p': Proc)
    requires p.Up?
    ensures p'.Up?
  {
    Up(p.mem.(last := At(w, k), index := i), p.canal, p.synced, p.ended, p.stopping,
       p.saves[AgentThread := Passed(RecordOf(At(w, k), i))], true, 0, 0, 0, p.cleared)
  }

  lemma Receives(w: World, rs: set<Rule>, n: nat, p: Proc, q: Proc, s: Cluster, k: nat, i: int64)
    requires Reachable(w, rs, Duo(n, p, q, s)) && n < 2 && w.Valid()
    requires p.Up? && AgentThread !in p.saves && !p.mem.exit && (TakesOwnIndex in rs || !Live(p.canal))
    requires var f := Frame(CMD_POS, RecordOf(At(w, k), i)); f in s.net && InFront(s.mail, n, f)
    ensures Reachable(w, rs, Duo(n, Received(w, p, k, i), q, s.(mail := s.mail[n := s.mail[n][1..]])))
  {
    hide Reachable, Frame, RecordOf, Unpack, Apply, IndexIn;
    FrameOfMark(w, k, i);
    var f := Frame(CMD_POS, RecordOf(At(w, k), i));
    Extend(w, rs, Duo(n, p, q, s), Deliver(n, f));
    assert s.net + {} == s.net;
    assert Next(w, Duo(n, p, q, s), Deliver(n, f))
        == Duo(n, Received(w, p, k, i), q, s.(mail := s.mail[n := s.mail[n][1..]]));
  }

  /** What a process takes from the frame of a record. */
  lemma FrameOfMark(w: World, k: nat, i: int64)
    requires w.Valid()
    ensures var r := RecordOf(At(w, k), i);
            && Unpack(Frame(CMD_POS, r)) == Content(CMD_POS, r) && |r| >= 18
            && forall m :: Apply(m, r) == m.(last := At(w, k), index := i)
  {
    FieldsOfRecord(At(w, k).file, At(w, k).pos, i, []);
    ReplicationRoundTrip(At(w, k).file, At(w, k).pos, i);
  }

  lemma NotedValues(o: nat)
    ensures Noted(map[], Told(o, 1)) == map[o := {1}]
    ensures Noted(map[o := {1}], Told(o, 2)) == map[o := {1, 2}]
    ensures Noted(map[o := {1}], Told(o + 1, 1)) == map[o := {1}, o + 1 := {1}]
  {
    var none: set<int> := {};
    assert none + {1} == {1};
    assert {1} + {2} == {1, 2};
  }

  // ---- coverage ----

  /** Whatever happened before, a process without a record that is promoted at mark `k` leaves
      nothing unsent behind it. */
  ghost predicate RecordlessPromotionSkipsNothing(w: World, k: nat) {
    forall s, n: nat :: Attainable(w, s) && Enabled(w, s, Start(n, k)) && !s.procs[n].mem.exit && !s.procs[n].seeded
                        ==> Covered(w, s.history, w.Ord(k))
  }

  /** That is so exactly for the marks before the cluster's first event. */
  lemma RecordlessPromotionIsSafeIff(w: World, k: nat)
    requires w.Valid() && w.base <= k < |w.log|
    ensures RecordlessPromotionSkipsNothing(w, k) <==> w.Ord(k) == w.Ord(w.base)
  {
    hide Enabled, Reachable, Attainable;
    if RecordlessPromotionSkipsNothing(w, k) {
      var s := RestartWithoutRecordSkips(w, k);
      Weaken(w, {}, s);
      assert Covered(w, s.history, w.Ord(k));
      assert w.Ord(w.base) < w.Ord(k) ==> w.Ord(w.base) in s.history;
    }
  }

  /** A process that crashes before its first save restarts at the master's position of that
      moment, any mark at all, and is promoted there with nothing sent by anyone. */
  lemma RestartWithoutRecordSkips(w: World, k: nat) returns (s: Cluster)
    requires w.Valid() && w.base <= k < |w.log|
    ensures s == Duo(0, Newborn(w, k, false), Down([]), Origin(k))
    ensures Reachable(w, {}, s) && Enabled(w, s, Start(0, k)) && !s.procs[0].mem.exit && !s.procs[0].seeded
  {
    hide Reachable;
    var rs: set<Rule> := {};
    var p, none := Newborn(w, w.base, true), Down([]);
    FirstReached(w, rs);
    Crashes(w, rs, 0, p, none, Origin(w.base));
    assert Wires(map[], Crash(0)) == map[];
    GrowTo(w, rs, none, none, Origin(w.base), k);
    BootsFresh(w, rs, 0, none, Origin(k));
    s := Duo(0, Newborn(w, k, false), none, Origin(k));
  }

  // ---- a saved position is lost ----

  /** Closing canal ends its runner, which toggles the running bit. When that happens behind the
      stop handler's own update, the bit stays set with nothing running, and the next stop closes
      a canal that was never run: its zero position replaces the saved one. After a restart the
      process begins wherever the master is. */
  lemma LateReportLosesPosition(w: World, k: nat) returns (s: Cluster)
    requires w.Valid() && w.base <= k < |w.log|
    ensures Reachable(w, {StopsRunCanal}, s) && Enabled(w, s, Start(0, k)) && s.history == map[]
    ensures !s.procs[0].mem.exit && !s.procs[0].seeded
    ensures Frame(CMD_POS, RecordOf(w.log[w.base].at, 0)) in s.net
  {
    hide Reachable, Frame, RecordOf, WriteAt, ReadCache, Halted;
    var rs := {StopsRunCanal};
    var b, none, first := w.base, Down([]), Newborn(w, w.base, true);
    FirstReached(w, rs);
    Starts(w, rs, 0, first, none, Origin(b), b);
    var f := Frame(CMD_POS, RecordOf(w.log[b].at, 0));
    var p, s' := ClosesTwice(w, rs, 0, Leading(first, b), none, Origin(b), b);
    Crashes(w, rs, 0, p, none, s');
    s' := s'.(links := Wires(s'.links, Crash(0)), mail := s'.mail - {0});
    GrowTo(w, rs, Down(p.mem.disk), none, s', k);
    s' := s'.(end := k);
    Quiet(w, rs, 0, Down(p.mem.disk), none, s', Step.Boot(0));
    s := Duo(0, Act(w, k, Down(p.mem.disk), Step.Boot(0)).proc, none, s');
  }

  /** A leader at mark `k` that has notified nothing is stopped, its runner reports late, and it
      is stopped again. */
  lemma ClosesTwice(w: World, rs: set<Rule>, n: nat, p: Proc, q: Proc, s: Cluster, k: nat) returns (p': Proc, s': Cluster)
    requires Reachable(w, rs, Duo(n, p, q, s)) && n < 2 && w.Valid() && k < |w.log|
    requires p.Up? && p.canal == Reading(k) && p.synced == k && p.ended == 0 && p.saves == map[] && !p.stopping
    requires p.mem.running && !p.mem.exit && p.mem.open && p.mem.index == 0
    requires p.mem.last == w.log[k].at && p.since == p.skipped && StopsRunCanal in rs
    ensures Reachable(w, rs, Duo(n, p', q, s'))
    ensures s' == Sent(Sent(s, n, Frame(CMD_POS, RecordOf(w.log[k].at, 0))), n, Frame(CMD_POS, RecordOf(NOWHERE, 0)))
    ensures p'.Up? && !Usable(p'.mem.disk) && ReadCache(p'.mem.disk).index == 0
  {
    hide Reachable, Frame, RecordOf, WriteAt, Usable, ReadCache, Halted;
    EvenWhenSame(w, p, k);
    Halts(w, rs, n, p, q, s);
    HaltedIs(w, s.end, p, n);
    var p1, s1 := Halted(w, s.end, p, n), Sent(s, n, Frame(CMD_POS, RecordOf(w.log[k].at, 0)));
    var p2 := p1.(mem := p1.mem.(running := true), ended := 0);
    Quiet(w, rs, n, p1, q, s1, Report(n));
    Halts(w, rs, n, p2, q, s1);
    HaltedIs(w, s.end, p2, n);
    ZeroRecordIsUnusable(p2.mem.disk);
    p', s' := Halted(w, s.end, p2, n), Sent(s1, n, Frame(CMD_POS, RecordOf(NOWHERE, 0)));
  }

  /** A file that starts with the record of the zero position is like no file. */
  lemma ZeroRecordIsUnusable(disk: seq<byte>)
    ensures var d := WriteAt(disk, RecordOf(NOWHERE, 0)); !Usable(d) && ReadCache(d).index == 0
  {
    hide ReadCache;
    var r := RecordOf(NOWHERE, 0);
    assert r <= WriteAt(disk, r);
    NowhereRecord(0, WriteAt(disk, r));
  }

  // ---- numbering: starts and stops ----

  /** A leader stopped in the middle of a transaction and promoted again starts from canal's
      last position with the current index, and sends the same event under another index. */
  lemma RepromotionRenumbers(w: World) returns (s: Cluster)
    requires w.Valid() && w.base + 1 < |w.log| && w.Ord(w.base + 1) == w.Ord(w.base) + 1
    ensures Reachable(w, {StopsEven, StartsEven}, s) && s.history == map[w.Ord(w.base) := {1, 2}]
  {
    hide Reachable, Noted, Frame, RecordOf;
    var rs := {StopsEven, StartsEven};
    var b, o := w.base, w.Ord(w.base);
    var p, q, s' := StopsMidway(w, rs);
    Starts(w, rs, 0, p, q, s', b);
    Reads(w, rs, 0, Leading(p, b), q, s', b);
    NotedValues(o);
    s := Duo(0, Tell(Leading(p, b), o, Reading(b + 1)).proc, q, s'.(history := map[o := {1, 2}]));
  }

  /** So does the follower that takes over from the record saved by that stop. */
  lemma StopMidwayRenumbers(w: World) returns (s: Cluster)
    requires w.Valid() && w.base + 1 < |w.log| && w.Ord(w.base + 1) == w.Ord(w.base) + 1
    ensures Reachable(w, {StopsEven}, s) && s.history == map[w.Ord(w.base) := {1, 2}]
  {
    hide Reachable, Noted, Frame, RecordOf;
    var rs := {StopsEven};
    var b, o := w.base, w.Ord(w.base);
    var p, q, s1 := StopsMidway(w, rs);
    var q1, s2 := Received(w, q, b, 1), s1.(mail := s1.mail[1 := s1.mail[1][1..]]);
    Receives(w, rs, 1, q, p, s1, b, 1);
    Starts(w, rs, 1, q1, p, s2, b);
    Reads(w, rs, 1, Leading(q1, b), p, s2, b);
    NotedValues(o);
    s := Duo(1, Tell(Leading(q1, b), o, Reading(b + 1)).proc, p, s2.(history := map[o := {1, 2}]));
  }

  /** Process 1 follows process 0, which leads, sends one event and is stopped. */
  lemma StopsMidway(w: World, rs: set<Rule>) returns (p: Proc, q: Proc, s: Cluster)
    requires w.Valid() && w.base + 1 < |w.log| && w.Ord(w.base + 1) == w.Ord(w.base) + 1
    requires StopsEven in rs
    ensures Reachable(w, rs, Duo(0, p, q, s)) && s.end == w.base + 1 && s.history == map[w.Ord(w.base) := {1}]
    ensures var f := Frame(CMD_POS, RecordOf(w.log[w.base].at, 1)); f in s.net && InFront(s.mail, 1, f)
    ensures Startable(p) && p.seeded && p.saves == map[] && !p.mem.running && !p.mem.exit
    ensures p.mem.last == w.log[w.base].at && p.mem.index == 1
    ensures q == Newborn(w, w.base + 1, false)
  {
    hide Reachable, Noted, Frame, RecordOf, WriteAt, Halted;
    var b, o, p2 := w.base, w.Ord(w.base), Leading(Newborn(w, w.base, true), w.base);
    var s2;
    q, s2 := IsFollowed(w, rs);
    Reads(w, rs, 0, p2, q, s2, b);
    NotedValues(o);
    var p3, s3 := Tell(p2, o, Reading(b + 1)).proc, s2.(history := map[o := {1}]);
    Halts(w, rs, 0, p3, q, s3);
    HaltedIs(w, b + 1, p3, 0);
    p, s := Halted(w, b + 1, p3, 0), Sent(s3, 0, Frame(CMD_POS, RecordOf(w.log[b].at, 1)));
  }

  /** Process 0 leads from the base; process 1 boots and connects to it. */
  lemma IsFollowed(w: World, rs: set<Rule>) returns (q: Proc, s: Cluster)
    requires w.Valid() && w.base + 1 < |w.log|
    ensures Reachable(w, rs, Duo(0, Leading(Newborn(w, w.base, true), w.base), q, s))
    ensures q == Newborn(w, w.base + 1, false) && s == Origin(w.base + 1).(links := map[1 := 0])
  {
    hide Reachable;
    var b, p, s1 := w.base, Newborn(w, w.base, true), Origin(w.base + 1);
    q := Newborn(w, b + 1, false);
    FirstReached(w, rs);
    GrowTo(w, rs, p, Down([]), Origin(b), b + 1);
    BootsFresh(w, rs, 1, p, s1);
    Starts(w, rs, 0, p, q, s1, b);
    Connects(w, rs, 1, q, Leading(p, b), s1);
    s := s1.(links := map[1 := 0]);
  }

  /** A process without a record restarts its count: the first event it sends carries 1. */
  lemma RecordlessPromotionRenumbers(w: World, k: nat) returns (s: Cluster)
    requires w.Valid() && w.base <= k < |w.log| - 1 && w.Ord(w.base) < w.Ord(k) && w.Ord(k + 1) == w.Ord(k) + 1
    ensures Reachable(w, {StartsFirst}, s) && s.history == map[w.Ord(k) := {1}] && w.Idx(w.Ord(k)) + 1 > 1
  {
    hide Reachable, Noted;
    var rs := {StartsFirst};
    var p, none := Newborn(w, k, false), Down([]);
    s := RestartWithoutRecordSkips(w, k);
    Weaken(w, rs, s);
    GrowTo(w, rs, p, none, Origin(k), k + 1);
    Starts(w, rs, 0, p, none, Origin(k + 1), k);
    Reads(w, rs, 0, Leading(p, k), none, Origin(k + 1), k);
    NotedValues(w.Ord(k));
    s := Duo(0, Tell(Leading(p, k), w.Ord(k), Reading(k + 1)).proc, none, Origin(k + 1).(history := map[w.Ord(k) := {1}]));
  }

  // ---- numbering: the exit bit ----

  /** A table change behind a swallowed row takes that row's number. */
  lemma TableChangeAfterExit(w: World) returns (s: Cluster)
    requires w.Valid() && w.base + 2 < |w.log| && !w.log[w.base].alter && w.log[w.base + 1].alter
    requires w.Ord(w.base) < w.Ord(w.base + 1)
    ensures Reachable(w, {AltersUnskipped}, s) && s.history == map[w.Ord(w.base + 1) := {1}] && w.Idx(w.Ord(w.base + 1)) + 1 > 1
  {
    hide Reachable, Noted;
    var rs := {AltersUnskipped};
    var b, o, none := w.base, w.Ord(w.base + 1), Down([]);
    var p := Swallows(w, rs);
    Tells(w, rs, 0, p, none, Origin(b + 2), Alter(0));
    NotedValues(o);
    s := Duo(0, Tell(p, o, Reading(b + 2)).proc, none, Origin(b + 2).(history := map[o := {1}]));
  }

  /** A leader starts at the base, begins to exit, and reads the rows at the base. */
  lemma Swallows(w: World, rs: set<Rule>) returns (p: Proc)
    requires w.Valid() && w.base + 2 < |w.log| && !w.log[w.base].alter
    ensures Reachable(w, rs, Duo(0, p, Down([]), Origin(w.base + 2))) && p.Up?
    ensures var p0 := Leading(Newborn(w, w.base, true), w.base);
            p == p0.(mem := p0.mem.(exit := true), canal := Reading(w.base + 1),
                     swallowed := w.Ord(w.base + 1) - w.Ord(w.base))
  {
    hide Reachable;
    var b, none, p1 := w.base, Down([]), Newborn(w, w.base, true);
    var p2 := Leading(p1, b);
    var p3 := p2.(mem := p2.mem.(exit := true));
    p := p3.(canal := Reading(b + 1), swallowed := w.Ord(b + 1) - w.Ord(b));
    FirstReached(w, rs);
    GrowTo(w, rs, p1, none, Origin(b), b + 2);
    Starts(w, rs, 0, p1, none, Origin(b + 2), b);
    Quiet(w, rs, 0, p2, none, Origin(b + 2), Exit(0));
    Quiet(w, rs, 0, p3, none, Origin(b + 2), EnterRow(0));
  }

  /** An exiting process moves its last position past swallowed rows; started again there, it
      still counts from before them. */
  lemma ExitingPromotionRenumbers(w: World) returns (s: Cluster)
    requires w.Valid() && w.base + 2 < |w.log| && !w.log[w.base].alter && w.log[w.base + 1].alter
    requires w.Ord(w.base) < w.Ord(w.base + 1)
    ensures Reachable(w, {StartsEven}, s) && s.history == map[w.Ord(w.base + 1) := {1}] && w.Idx(w.Ord(w.base + 1)) + 1 > 1
  {
    hide Reachable, Noted;
    var rs := {StartsEven};
    var b, o, none, s1 := w.base, w.Ord(w.base + 1), Down([]), Origin(w.base + 2);
    var p := StopsBehindRows(w, rs);
    Starts(w, rs, 0, p, none, s1, b + 1);
    Tells(w, rs, 0, Leading(p, b + 1), none, s1, Alter(0));
    NotedValues(o);
    s := Duo(0, Tell(Leading(p, b + 1), o, Reading(b + 2)).proc, none, s1.(history := map[o := {1}]));
  }

  /** The process of `Swallows` syncs behind the rows and is stopped. */
  lemma StopsBehindRows(w: World, rs: set<Rule>) returns (p: Proc)
    requires w.Valid() && w.base + 2 < |w.log| && !w.log[w.base].alter
    ensures Reachable(w, rs, Duo(0, p, Down([]), Origin(w.base + 2)))
    ensures Startable(p) && p.seeded && p.saves == map[] && !p.mem.running
    ensures p.mem.last == w.log[w.base + 1].at && p.mem.index == 0
  {
    hide Reachable, MarkOf;
    var b, none, s1 := w.base, Down([]), Origin(w.base + 2);
    var p1 := Swallows(w, rs);
    var p2 := p1.(mem := p1.mem.(last := w.log[b + 1].at), synced := b + 1, swallowed := 0, skipped := p1.swallowed);
    Quiet(w, rs, 0, p1, none, s1, Sync(0));
    p := HaltsExiting(w, rs, p2, none, s1);
  }

  /** A stop of an exiting process saves nothing. */
  lemma HaltsExiting(w: World, rs: set<Rule>, p: Proc, q: Proc, s: Cluster) returns (p': Proc)
    requires Reachable(w, rs, Duo(0, p, q, s)) && AtRest(p) && p.mem.exit && p.mem.running && !p.stopping && p.saves == map[]
    ensures Reachable(w, rs, Duo(0, p', q, s))
    ensures Startable(p') && p'.seeded == p.seeded && p'.saves == map[] && !p'.mem.running
    ensures p'.mem.last == At(w, p.synced) && p'.mem.index == p.mem.index
  {
    hide Reachable, MarkOf;
    var p1 := Moved(w, Closed(w, p));
    Quiet(w, rs, 0, p, q, s, Stop(0));
    Quiet(w, rs, 0, p1, q, s, Clear(0));
    p' := Cleared(p1.(stopping := false));
  }

  // ---- numbering: records that arrive late ----

  /** Two entries of one event each. */
  ghost predicate TwoEvents(w: World) {
    && w.Valid() && w.base + 2 < |w.log|
    && w.Ord(w.base + 1) == w.Ord(w.base) + 1 && w.Ord(w.base + 2) == w.Ord(w.base) + 2
  }

  /** Both events carry the same index. */
  function Doubled(w: World): (h: map<nat, set<int>>) {
    map[w.Ord(w.base) := {1}, w.Ord(w.base) + 1 := {1}]
  }

  /** The record that the old leader saves when it is stopped reaches the new leader after that
      one has read on: two events carry the same index. */
  lemma LateRecordRenumbers(w: World) returns (s: Cluster)
    requires TwoEvents(w)
    ensures Reachable(w, {TakesOwnIndex}, s) && s.history == Doubled(w)
  {
    hide Reachable, Noted, Frame, RecordOf;
    var rs := {TakesOwnIndex};
    var b, o := w.base, w.Ord(w.base);
    var p, q, s1 := Succeeds(w, rs);
    Reads(w, rs, 0, p, q, s1, b);
    NotedValues(o);
    var p1, s2 := Tell(p, o, Reading(b + 1)).proc, s1.(history := map[o := {1}]);
    Receives(w, rs, 0, p1, q, s2, b, 0);
    var p2, s3 := Received(w, p1, b, 0), s2.(mail := s2.mail[0 := s2.mail[0][1..]]);
    Reads(w, rs, 0, p2, q, s3, b + 1);
    s := Duo(0, Tell(p2, o + 1, Reading(b + 2)).proc, q, s3.(history := Doubled(w)));
  }

  /** Process 1 leads, process 0 follows it; process 1 is stopped and process 0 takes over before
      the record of that stop has arrived. */
  lemma Succeeds(w: World, rs: set<Rule>) returns (p: Proc, q: Proc, s: Cluster)
    requires TwoEvents(w)
    ensures Reachable(w, rs, Duo(0, p, q, s)) && s.end == w.base + 2 && s.history == map[]
    ensures p == Leading(Newborn(w, w.base, true), w.base)
    ensures var f := Frame(CMD_POS, RecordOf(w.log[w.base].at, 0)); f in s.net && InFront(s.mail, 0, f)
  {
    hide Reachable, Frame, RecordOf, Halted;
    var b, p1 := w.base, Newborn(w, w.base, true);
    var q2, s2 := Follows(w, rs);
    EvenWhenSame(w, q2, b);
    Halts(w, rs, 1, q2, p1, s2);
    q := Halted(w, b, q2, 1);
    var s3 := Sent(s2, 1, Frame(CMD_POS, RecordOf(w.log[b].at, 0)));
    GrowTo(w, rs, p1, q, s3, b + 2);
    s := s3.(end := b + 2);
    Starts(w, rs, 0, p1, q, s, b);
    p := Leading(p1, b);
  }

  /** Process 1 boots and leads from the base, and process 0 connects to it. */
  lemma Follows(w: World, rs: set<Rule>) returns (q: Proc, s: Cluster)
    requires w.Valid()
    ensures Reachable(w, rs, Duo(1, q, Newborn(w, w.base, true), s))
    ensures q == Leading(Newborn(w, w.base, false), w.base) && s == Origin(w.base).(links := map[0 := 1])
  {
    hide Reachable;
    var b, p1, q1 := w.base, Newborn(w, w.base, true), Newborn(w, w.base, false);
    FirstReached(w, rs);
    BootsFresh(w, rs, 1, p1, Origin(b));
    Starts(w, rs, 1, q1, p1, Origin(b), b);
    Connects(w, rs, 0, p1, Leading(q1, b), Origin(b));
    q, s := Leading(q1, b), Origin(b).(links := map[0 := 1]);
  }

  /** A record that arrives while canal is being closed, between two transactions, leaves the
      process at canal's position with the record's index, and again two events carry the same. */
  lemma RecordDuringStopRenumbers(w: World) returns (s: Cluster)
    requires TwoEvents(w)
    ensures Reachable(w, {StartsEven}, s) && s.history == Doubled(w)
  {
    hide Reachable, Frame, RecordOf;
    var rs := {StartsEven};
    var p, q, s1 := Succeeds(w, rs);
    s := ReceivesInStop(w, rs, p, q, s1, w.base);
  }

  /** So does a record that names no position: the old leader, stopped once more after its runner
      has reported late, sends one. */
  lemma ZeroRecordRenumbers(w: World) returns (s: Cluster)
    requires TwoEvents(w)
    ensures Reachable(w, {StopsRunCanal}, s) && s.history == Doubled(w)
  {
    hide Reachable, Frame, RecordOf, TwoEvents;
    var rs := {StopsRunCanal};
    var p, q, s1 := SucceedsLater(w, rs);
    s := ReceivesInStop(w, rs, p, q, s1, |w.log|);
  }

  /** Process 0 leads from the base with the record of mark `j`, or of none, on its way. It reads
      one event, syncs, is stopped, receives the record before the stop is through, and is
      promoted again. */
  lemma ReceivesInStop(w: World, rs: set<Rule>, p: Proc, q: Proc, s: Cluster, j: nat) returns (s': Cluster)
    requires TwoEvents(w) && Reachable(w, rs, Duo(0, p, q, s)) && s.end == w.base + 2 && s.history == map[]
    requires IsLeadingAtBase(w, p)
    requires var f := Frame(CMD_POS, RecordOf(At(w, j), 0)); f in s.net && InFront(s.mail, 0, f)
    requires StartsEven in rs || j == |w.log|
    ensures Reachable(w, rs, s') && s'.history == Doubled(w)
  {
    hide Reachable, Noted, Frame, RecordOf;
    var b, o := w.base, w.Ord(w.base);
    var p1, s1 := ReadsAndSyncs(w, rs, p, q, s, j);
    var p2, s2 := StopsReceiving(w, rs, p1, q, s1, j, b + 1);
    Starts(w, rs, 0, p2, q, s2, b + 1);
    Reads(w, rs, 0, Leading(p2, b + 1), q, s2, b + 1);
    NotedValues(o);
    s' := Duo(0, Tell(Leading(p2, b + 1), o + 1, Reading(b + 2)).proc, q, s2.(history := Doubled(w)));
  }

  /** A stop during which the record of mark `j` arrives. */
  lemma StopsReceiving(w: World, rs: set<Rule>, p: Proc, q: Proc, s: Cluster, j: nat, k: nat) returns (p': Proc, s': Cluster)
    requires w.Valid() && Reachable(w, rs, Duo(0, p, q, s)) && k < |w.log|
    requires AtRest(p) && p.synced == k && p.saves == map[] && !p.stopping && p.mem.running && !p.mem.exit
    requires p.mem.last == w.log[k].at && p.since == p.skipped
    requires var f := Frame(CMD_POS, RecordOf(At(w, j), 0)); f in s.net && InFront(s.mail, 0, f)
    ensures Reachable(w, rs, Duo(0, p', q, s')) && s'.end == s.end && s'.history == s.history
    ensures Startable(p') && CanalThread !in p'.saves && !p'.mem.running && !p'.mem.exit
    ensures p'.mem.last == w.log[k].at && p'.mem.index == 0 && p'.seeded && (j == |w.log| ==> p'.since == p'.skipped)
  {
    hide Reachable, Frame, RecordOf, SaveSteps, Sent, MarkOf;
    var p2, r := Closing(w, p), RecordOf(w.log[k].at, p.mem.index);
    EvenWhenSame(w, p, k);
    Quiet(w, rs, 0, p, q, s, Stop(0));
    Receives(w, rs, 0, p2, q, s, j, 0);
    var p3, s2 := Received(w, p2, j, 0), s.(mail := s.mail[0 := s.mail[0][1..]]);
    Completes(w, rs, 0, p3, q, s2, StopThread);
    EndOfStop(w, s.end, p3);
    SentKeeps(s2, 0, Frame(CMD_POS, r));
    var p4 := SaveSteps(w, s.end, p3, 0, StopThread).proc;
    s' := Sent(s2, 0, Frame(CMD_POS, r));
    Quiet(w, rs, 0, p4, q, s', Clear(0));
    p' := Cleared(p4.(stopping := false));
  }

  predicate IsLeadingAtBase(w: World, p: Proc) {
    && p.Up? && p.canal == Reading(w.base) && p.saves == map[] && !p.stopping
    && p.mem.running && !p.mem.exit && p.mem.open && p.mem.index == 0 && p.skipped == p.swallowed == 0
  }

  /** A stop up to its exit check. */
  function Closing(w: World, p: Proc): (p': Proc)
    requires p.Up?
    ensures p'.Up?
  {
    var q := Closed(w, p);
    q.(saves := q.saves[StopThread := Passed(RecordOf(At(w, q.synced), p.mem.index))])
  }

  lemma ReadsAndSyncs(w: World, rs: set<Rule>, p: Proc, q: Proc, s: Cluster, j: nat) returns (p': Proc, s': Cluster)
    requires TwoEvents(w) && Reachable(w, rs, Duo(0, p, q, s)) && s.end == w.base + 2 && s.history == map[]
    requires IsLeadingAtBase(w, p)
    requires var f := Frame(CMD_POS, RecordOf(At(w, j), 0)); f in s.net && InFront(s.mail, 0, f)
    ensures Reachable(w, rs, Duo(0, p', q, s')) && s'.end == w.base + 2 && s'.history == map[w.Ord(w.base) := {1}]
    ensures p'.Up? && p'.canal == Reading(w.base + 1) && p'.synced == w.base + 1 && p'.saves == map[] && !p'.stopping
    ensures p'.mem.running && !p'.mem.exit && p'.mem.open && p'.mem.index == 1
    ensures p'.mem.last == w.log[w.base + 1].at && p'.since == p'.skipped == p'.swallowed == 0
    ensures var f := Frame(CMD_POS, RecordOf(At(w, j), 0)); f in s'.net && InFront(s'.mail, 0, f)
  {
    hide Reachable, Noted, Frame, RecordOf, WriteAt;
    var b, o := w.base, w.Ord(w.base);
    Reads(w, rs, 0, p, q, s, b);
    NotedValues(o);
    var p1, s1 := Tell(p, o, Reading(b + 1)).proc, s.(history := map[o := {1}]);
    Syncs(w, rs, 0, p1, q, s1, b + 1);
    var r := RecordOf(w.log[b + 1].at, 1);
    p' := p1.(mem := Saved(p1.mem, r).(last := w.log[b + 1].at), synced := b + 1, since := 0);
    s' := Sent(s1, 0, Frame(CMD_POS, r));
  }

  lemma SentKeeps(s: Cluster, m: nat, f: seq<byte>)
    ensures var s' := Sent(s, m, f);
            && s'.end == s.end && s'.history == s.history && s'.links == s.links && s.net <= s'.net
            && forall n, g :: InFront(s.mail, n, g) ==> InFront(s'.mail, n, g)
  {
  }

  lemma EndOfStop(w: World, end: nat, p: Proc)
    requires Saveable(w, p, StopThread)
    ensures var e := SaveSteps(w, end, p, 0, StopThread);
            && e.proc.Up? && e.proc.canal == p.canal && e.proc.stopping == p.stopping
            && e.proc.mem.last == At(w, p.synced) && e.proc.mem.index == p.mem.index && e.proc.mem.exit == p.mem.exit
            && (CanalThread in e.proc.saves <==> CanalThread in p.saves) && StopThread !in e.proc.saves
            && (p.mem.open ==> e.proc.mem.disk == WriteAt(p.mem.disk, p.saves[StopThread].record))
            && e.proc.seeded == p.seeded
            && (w.Valid() && p.mem.last == NOWHERE ==> e.proc.since == p.since && e.proc.skipped == p.skipped)
  {
    hide Frame, WriteAt, MarkOf;
    if w.Valid() { MarkNowhere(w, |w.log|); }
  }

  lemma {:induction false} MarkNowhere(w: World, n: nat)
    requires w.Valid() && n <= |w.log|
    ensures MarkOf(w, NOWHERE, n) == |w.log|
    decreases n
  {
    if n > 0 { MarkNowhere(w, n - 1); }
  }

  /** As in `Succeeds`, but the old leader is stopped twice, process 0 has received the first
      record when it takes over, and the one without a position is still on its way. */
  lemma SucceedsLater(w: World, rs: set<Rule>) returns (p: Proc, q: Proc, s: Cluster)
    requires TwoEvents(w)
    requires StopsRunCanal in rs
    ensures Reachable(w, rs, Duo(0, p, q, s)) && s.end == w.base + 2 && s.history == map[]
    ensures IsLeadingAtBase(w, p)
    ensures var f := Frame(CMD_POS, RecordOf(At(w, |w.log|), 0)); f in s.net && InFront(s.mail, 0, f)
  {
    hide Reachable, Frame, RecordOf, WriteAt, SaveSteps, Sent;
    var b, p1 := w.base, Newborn(w, w.base, true);
    var s3;
    q, s3 := StopsTwiceFollowed(w, rs);
    Receives(w, rs, 0, p1, q, s3, b, 0);
    var p2, s4 := Received(w, p1, b, 0), s3.(mail := s3.mail[0 := s3.mail[0][1..]]);
    Completes(w, rs, 0, p2, q, s4, AgentThread);
    EndOfRelay(w, b, p2);
    SentKeeps(s4, 0, Frame(CMD_POS, RecordOf(w.log[b].at, 0)));
    var p3, s5 := SaveSteps(w, b, p2, 0, AgentThread).proc, Sent(s4, 0, Frame(CMD_POS, RecordOf(w.log[b].at, 0)));
    GrowTo(w, rs, p3, q, s5, b + 2);
    s := s5.(end := b + 2);
    Starts(w, rs, 0, p3, q, s, b);
    p := Leading(p3, b);
  }

  /** Process 1 leads, process 0 follows it; process 1 is stopped twice. */
  lemma StopsTwiceFollowed(w: World, rs: set<Rule>) returns (q: Proc, s: Cluster)
    requires w.Valid() && StopsRunCanal in rs
    ensures Reachable(w, rs, Duo(0, Newborn(w, w.base, true), q, s)) && s.end == w.base && s.history == map[]
    ensures var f, z := Frame(CMD_POS, RecordOf(w.log[w.base].at, 0)), Frame(CMD_POS, RecordOf(NOWHERE, 0));
            f in s.net && z in s.net && 0 in s.mail && s.mail[0] == [f, z]
  {
    hide Reachable, Frame, RecordOf;
    var q1, s1 := Follows(w, rs);
    q, s := ClosesTwice(w, rs, 1, q1, Newborn(w, w.base, true), s1, w.base);
  }

  lemma EndOfRelay(w: World, end: nat, p: Proc)
    requires Saveable(w, p, AgentThread) && p.saves.Keys == {AgentThread}
    ensures var e := SaveSteps(w, end, p, 0, AgentThread);
            && e.proc.Up? && e.proc.canal == p.canal && e.proc.stopping == p.stopping && e.proc.saves == map[]
            && e.proc.mem == Write(p.mem, p.saves[AgentThread].record) && e.proc.seeded == p.seeded
            && e.proc.since == p.since && e.proc.skipped == p.skipped && e.proc.swallowed == p.swallowed
  {
    hide Frame, WriteAt;
  }

  /** A failed canal still holds its position while records arrive; closed after one, it saves
      that position with the record's index, and whoever resumes from there, here the process
      itself after a restart, gives two events the same index. */
  lemma FailedCanalRenumbers(w: World) returns (s: Cluster)
    requires TwoEvents(w)
    ensures Reachable(w, {StopsEven}, s) && s.history == Doubled(w)
  {
    hide Reachable, Noted, Frame, RecordOf, WriteAt;
    var rs := {StopsEven};
    var b, o := w.base, w.Ord(w.base);
    var disk, q, s1 := FailsAndStops(w, rs);
    var p := Booted(w.log[b + 1].at, 0, disk, true);
    BootsFrom(w, rs, disk, q, s1, b + 1, 0);
    Starts(w, rs, 0, p, q, s1, b + 1);
    Reads(w, rs, 0, Leading(p, b + 1), q, s1, b + 1);
    NotedValues(o);
    s := Duo(0, Tell(Leading(p, b + 1), o + 1, Reading(b + 2)).proc, q, s1.(history := Doubled(w)));
  }

  lemma BootsFrom(w: World, rs: set<Rule>, disk: seq<byte>, q: Proc, s: Cluster, k: nat, i: int64)
    requires Reachable(w, rs, Duo(0, Down(disk), q, s)) && w.Valid() && k <= s.end < |w.log|
    requires RecordOf(w.log[k].at, i) <= disk
    ensures Reachable(w, rs, Duo(0, Booted(w.log[k].at, i, disk, true), q, s))
  {
    hide Reachable, ReadCache, RecordOf;
    NoClamp(w, k, s.end, i, disk);
    Quiet(w, rs, 0, Down(disk), q, s, Step.Boot(0));
  }

  lemma FailsAndStops(w: World, rs: set<Rule>) returns (disk: seq<byte>, q: Proc, s: Cluster)
    requires TwoEvents(w)
    requires StopsEven in rs
    ensures Reachable(w, rs, Duo(0, Down(disk), q, s)) && s.end == w.base + 2 && s.history == map[w.Ord(w.base) := {1}]
    ensures RecordOf(w.log[w.base + 1].at, 0) <= disk
  {
    hide Reachable, Noted, Frame, RecordOf, SaveSteps, Sent, Wires;
    var b := w.base;
    var p, s0;
    p, q, s0 := Succeeds(w, rs);
    var p1, s1 := ReadsAndSyncs(w, rs, p, q, s0, b);
    Quiet(w, rs, 0, p1, q, s1, Fail(0));
    var p2 := p1.(canal := Failed, ended := p1.ended + 1);
    Receives(w, rs, 0, p2, q, s1, b, 0);
    var p3, s2 := Received(w, p2, b, 0), s1.(mail := s1.mail[0 := s1.mail[0][1..]]);
    Quiet(w, rs, 0, p3, q, s2, Stop(0));
    var p4 := Closing(w, p3);
    var r := RecordOf(w.log[b + 1].at, 0);
    Completes(w, rs, 0, p4, q, s2, StopThread);
    EndOfStop(w, b + 2, p4);
    SentKeeps(s2, 0, Frame(CMD_POS, r));
    var p5, s3 := SaveSteps(w, b + 2, p4, 0, StopThread).proc, Sent(s2, 0, Frame(CMD_POS, r));
    Crashes(w, rs, 0, p5, q, s3);
    disk, s := p5.mem.disk, s3.(links := Wires(s3.links, Crash(0)), mail := s3.mail - {0});
    assert r <= WriteAt(p4.mem.disk, r);
  }
}
