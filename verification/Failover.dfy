/** The replicated position protocol: any number of processes read one binlog, number its
    events, persist and broadcast positions, exit, crash, restart and take over. */
module Failover {
  import opened Bytes
  import opened Frames
  import opened Positions
  import opened Handler

  // ---- the environment ----

  /** A position in the binlog, the number of events before it, and whether the entry that
      starts here is a table change (one event) or a rows event (any number). */
  datatype Mark = Mark(at: Place, ordinal: nat, alter: bool)

  /** The binlog, and the mark the cluster was first started at. */
  datatype World = World(log: seq<Mark>, base: nat) {

    ghost predicate Valid() {
      && base < |log|
      && (forall k :: 0 <= k < |log| ==>
            && log[k].at.file != [] && |log[k].at.file| <= 494 && log[k].at.pos > 0
            && log[k].ordinal < 0x8000_0000_0000_0000)
      && (forall j, k :: 0 <= j < k < |log| ==>
            && log[j].ordinal <= log[k].ordinal
            && (log[j].at.file == log[k].at.file ==> log[j].at.pos < log[k].at.pos))
      && (forall k :: 0 <= k < |log| - 1 && log[k].alter ==> log[k + 1].ordinal == log[k].ordinal + 1)
    }

    /** Events before mark `k`. */
    function Ord(k: nat): (o: nat) {
      if k < |log| then log[k].ordinal else 0
    }

    /** Events from the start of the cluster up to event number `o`, which therefore carries
        index `Idx(o) + 1`. */
    function Idx(o: int): (i: int) {
      o - Ord(base)
    }
  }

  /** The zero position. */
  const NOWHERE := Place([], 0)

  // ---- processes ----

  /** A canal that has not been run yet, that cannot be run again, or that is being read. */
  datatype Canal = Stopped | Failed | Reading(mark: nat) | InRow(mark: nat, row: nat)

  predicate Live(c: Canal) {
    c.Reading? || c.InRow?
  }

  datatype Thread = CanalThread | AgentThread | StopThread

  /** A save after its exit check: first the file is written, then the record is broadcast. */
  datatype Save = Passed(record: seq<byte>) | Written(record: seq<byte>)

  datatype Proc =
    | Down(disk: seq<byte>)
    | Up(
        mem: Mem,
        canal: Canal,
        synced: nat,     // the mark canal itself holds: where it was started or last synced
        ended: nat,      // runners that have ended and not yet toggled the running bit
        stopping: bool,  // the stop handler has closed canal and not yet cleared the bit
        saves: map<Thread, Save>,
        // history variables
        seeded: bool,    // it has a record, has been started, or is the first process
        since: nat,      // events it notified since its last position was set
        swallowed: nat,  // events its exit bit made it skip since then
        skipped: nat,    // events skipped earlier, which its last position has passed
        cleared: nat)    // how often the stop handler found the running bit still set

  datatype Cluster = Cluster(
    end: nat,                     // how far MySQL has written the binlog
    procs: seq<Proc>,
    net: set<seq<byte>>,          // every frame ever broadcast: it may arrive late, twice or never
    history: map<nat, set<int>>,  // the event indices each event was notified under
    links: map<nat, nat>,         // which process each agent client is connected to
    mail: map<nat, seq<seq<byte>>>)  // what these connections carry, in order

  datatype Step =
    | Grow
    | Boot(n: nat)
    | Start(n: nat, k: nat)   // leadership won: RunFrom the last position, which is mark k
    | EnterRow(n: nat)        // OnRow checks the exit bit
    | Notify(n: nat)          // OnRow numbers and notifies one row
    | FinishRow(n: nat)
    | Alter(n: nat)           // OnTableChanged
    | Sync(n: nat)            // OnPosSynced packs the record and checks the exit bit
    | WriteSave(n: nat, t: Thread)
    | CastSave(n: nat, t: Thread)
    | Deliver(n: nat, frame: seq<byte>)
    | Exit(n: nat)            // Close sets the exit bit
    | StopExit(n: nat)        // the stop handler's exit branch
    | Stop(n: nat)            // leadership lost: canal is closed, which syncs its own position
    | Fail(n: nat)            // canal gives up with an error
    | Report(n: nat)          // a runner that ended toggles the running bit
    | Clear(n: nat)           // the stop handler clears it, whether or not it closed canal
    | Connect(n: nat, m: nat) // a follower's agent client connects to the leader
    | Crash(n: nat)

  /** What a step of one process tells the outside. */
  datatype Told = Nothing | Told(ordinal: nat, index: int)

  datatype Effect = Effect(proc: Proc, cast: set<seq<byte>>, told: Told)

  /** Canal is not in the middle of a callback. */
  predicate Idle(p: Proc) {
    p.Up? && !p.canal.InRow? && CanalThread !in p.saves
  }

  predicate AtRest(p: Proc) {
    Idle(p) && p.canal.Reading?
  }

  /** A start has an effect only on a canal that is new. */
  predicate Startable(p: Proc) {
    p.Up? && p.canal.Stopped? && StopThread !in p.saves
  }

  predicate CanAct(w: World, end: nat, p: Proc, s: Step) {
    match s
    case Grow => false
    case Connect(_, _) => false
    case Boot(_) => p.Down? && end < |w.log|
    case Start(_, k) => Idle(p) && !p.mem.running && k <= end && k < |w.log| && w.log[k].at == p.mem.last
    case EnterRow(_) => AtRest(p) && p.canal.mark < end < |w.log| && !w.log[p.canal.mark].alter
                        && w.Ord(p.canal.mark) <= w.Ord(p.canal.mark + 1)
    case Notify(_) => p.Up? && p.canal.InRow? && w.Ord(p.canal.mark) + p.canal.row < w.Ord(p.canal.mark + 1)
    case FinishRow(_) => p.Up? && p.canal.InRow? && w.Ord(p.canal.mark) + p.canal.row == w.Ord(p.canal.mark + 1)
    case Alter(_) => AtRest(p) && p.canal.mark < end < |w.log| && w.log[p.canal.mark].alter
    case Sync(_) => AtRest(p) && p.canal.mark < |w.log|
    case WriteSave(_, t) => p.Up? && t in p.saves && p.saves[t].Passed?
    case CastSave(_, t) => p.Up? && t in p.saves && p.saves[t].Written?
                           && (t.CanalThread? ==> p.canal.Reading? && p.canal.mark < |w.log|)
    case Deliver(_, frame) =>
      p.Up? && AgentThread !in p.saves
      && var u := Unpack(frame); u.Content? && u.cmd == CMD_POS && |u.content| >= 18
    case Exit(_) => p.Up?
    case StopExit(_) => p.Up? && p.mem.exit && !p.stopping
    case Stop(_) => Idle(p) && p.mem.running && !p.stopping && StopThread !in p.saves
    case Fail(_) => AtRest(p)
    case Report(_) => p.Up? && p.ended > 0
    case Clear(_) => p.Up? && StopThread !in p.saves
    case Crash(_) => p.Up?
  }

  /** The exit check at the top of `saveBinlogPositionCache`. */
  function TrySave(p: Proc, t: Thread, r: seq<byte>): (p': Proc)
    requires p.Up?
  {
    if p.mem.exit then p else p.(saves := p.saves[t := Passed(r)])
  }

  /** A process whose position has just been set afresh. */
  function Settled(p: Proc): (p': Proc)
    requires p.Up?
    ensures p'.Up?
  {
    p.(seeded := true, since := 0, swallowed := 0, skipped := 0)
  }

  /** `RunFrom` at mark `k`. On a canal that is closed or has failed it returns an error at
      once; on one that is being read it does so too, and makes the reader give up. */
  function Launch(p: Proc, k: nat): (p': Proc)
    requires p.Up?
    ensures p'.Up?
  {
    if Startable(p) then Settled(p.(canal := Reading(k), synced := k))
    else if p.canal.Stopped? then p.(ended := p.ended + 1)
    else p.(canal := Failed, synced := k, ended := p.ended + if p.canal.Failed? then 1 else 2)
  }

  /** `handler.Close()` and the new canal that replaces the closed one; a canal that was never
      run holds no position. */
  function Closed(w: World, p: Proc): (p': Proc)
    requires p.Up?
    ensures p'.Up?
  {
    p.(canal := Stopped, synced := if p.canal.Stopped? then |w.log| else p.synced,
       ended := p.ended + if p.canal.Reading? then 1 else 0, stopping := true)
  }

  /** The position canal reports for a mark, the zero position for none. */
  function At(w: World, k: nat): (at: Place) {
    if k < |w.log| then w.log[k].at else NOWHERE
  }

  /** The mark below `n` whose position is `at`, if there is one. */
  function MarkOf(w: World, at: Place, n: nat): (k: nat)
    requires n <= |w.log|
  {
    if n == 0 then |w.log| else if w.log[n - 1].at == at then n - 1 else MarkOf(w, at, n - 1)
  }

  /** The last position becomes the one canal held. A process moved back has, as it were,
      notified the events in between since then; one moved forward has skipped them; one that
      had no position counts from the new one. */
  function Moved(w: World, p: Proc): (p': Proc)
    requires p.Up?
    ensures p'.Up?
  {
    var j, k := MarkOf(w, p.mem.last, |w.log|), p.synced;
    var p' := p.(mem := p.mem.(last := At(w, k)));
    if j < |w.log| then p'.(since := p.since + Ahead(w, j, k), skipped := p.skipped + Ahead(w, k, j)) else p'
  }

  /** Events from mark `k` up to mark `j`. */
  function Ahead(w: World, j: nat, k: nat): (n: nat) {
    if w.Ord(j) > w.Ord(k) then w.Ord(j) - w.Ord(k) else 0
  }

  /** The stop handler's last statement. */
  function Cleared(p: Proc): (p': Proc)
    requires p.Up?
    ensures p'.Up?
  {
    p.(mem := p.mem.(running := false), cleared := p.cleared + if p.mem.running then 1 else 0)
  }

  function Silent(p: Proc): (e: Effect) {
    Effect(p, {}, Nothing)
  }

  /** Count an event, hand it to notify, move on. */
  function Tell(p: Proc, ordinal: nat, canal: Canal): (e: Effect)
    requires p.Up?
  {
    var m := Count(p.mem);
    Effect(p.(mem := m, canal := canal, since := p.since + 1), {}, Told(ordinal, m.index))
  }

  function Act(w: World, end: nat, p: Proc, s: Step): (e: Effect)
    requires CanAct(w, end, p, s)
  {
    match s
    case Boot(_) => Silent(Up(Handler.Boot(p.disk, w.log[end].at), Stopped, 0, 0, false, map[], Usable(p.disk), 0, 0, 0, 0))
    case Start(_, k) => Silent(Launch(p.(mem := p.mem.(running := true)), k))
    case EnterRow(_) =>
      var k := p.canal.mark;
      if p.mem.exit
      then Silent(p.(canal := Reading(k + 1), swallowed := p.swallowed + (w.Ord(k + 1) - w.Ord(k))))
      else Silent(p.(canal := InRow(k, 0)))
    case Notify(_) => Tell(p, w.Ord(p.canal.mark) + p.canal.row, InRow(p.canal.mark, p.canal.row + 1))
    case FinishRow(_) => Silent(p.(canal := Reading(p.canal.mark + 1)))
    case Alter(_) => Tell(p, w.Ord(p.canal.mark), Reading(p.canal.mark + 1))
    case Sync(_) =>
      var at, q := w.log[p.canal.mark].at, p.(synced := p.canal.mark);
      if p.mem.exit
      then Silent(q.(mem := p.mem.(last := at), since := 0, swallowed := 0, skipped := p.skipped + p.swallowed))
      else Silent(TrySave(q, CanalThread, RecordOf(at, p.mem.index)))
    case WriteSave(_, t) =>
      var r := p.saves[t].record;
      Silent(p.(mem := Write(p.mem, r), saves := p.saves[t := Written(r)]))
    case CastSave(_, t) =>
      var p' := p.(saves := p.saves - {t});
      var p'' := match t
                 case CanalThread => p'.(mem := p.mem.(last := w.log[p.canal.mark].at), since := 0)
                 case StopThread => Moved(w, p')
                 case AgentThread => p';
      Effect(p'', {Frame(CMD_POS, p.saves[t].record)}, Nothing)
    case Deliver(_, frame) =>
      var r := Unpack(frame).content;
      Silent(TrySave(Settled(p).(mem := Apply(p.mem, r)), AgentThread, r))
    case Exit(_) => Silent(p.(mem := p.mem.(exit := true)))
    case StopExit(_) =>
      var p' := TrySave(p, StopThread, RecordOf(p.mem.last, p.mem.index));
      Silent(Cleared(p'.(mem := p'.mem.(open := false))))
    case Stop(_) =>
      var q := Closed(w, p);
      if p.mem.exit then Silent(Moved(w, q))
      else Silent(TrySave(q, StopThread, RecordOf(At(w, q.synced), p.mem.index)))
    case Clear(_) => Silent(Cleared(p.(stopping := false)))
    case Fail(_) => Silent(p.(canal := Failed, ended := p.ended + 1))
    case Report(_) => Silent(p.(mem := p.mem.(running := !p.mem.running), ended := p.ended - 1))
    case Crash(_) => Silent(Down(p.mem.disk))
  }

  // ---- the cluster ----

  predicate Enabled(w: World, s: Cluster, step: Step) {
    match step
    case Grow => s.end + 1 < |w.log|
    case Connect(n, m) => CanConnect(s, n, m)
    case _ => step.n < |s.procs| && CanAct(w, s.end, s.procs[step.n], step)
              && (step.Deliver? ==> step.frame in s.net)
  }

  /** A process that does not lead connects its agent client to one that does, unless it is
      connected already. */
  predicate CanConnect(s: Cluster, n: nat, m: nat) {
    && n < |s.procs| && m < |s.procs| && n != m && n !in s.links
    && s.procs[n].Up? && !s.procs[n].mem.running && !Live(s.procs[n].canal)
    && s.procs[m].Up? && s.procs[m].mem.running
  }

  /** The steps of a single process. */
  predicate Local(step: Step) {
    !step.Grow? && !step.Connect?
  }

  /** The history after a step. */
  function Noted(h: map<nat, set<int>>, t: Told): (h': map<nat, set<int>>)
    ensures h.Keys <= h'.Keys
  {
    if t.Nothing? then h
    else h[t.ordinal := (if t.ordinal in h then h[t.ordinal] else {}) + {t.index}]
  }

  function Next(w: World, s: Cluster, step: Step): (s': Cluster)
    requires Enabled(w, s, step)
  {
    match step
    case Grow => s.(end := s.end + 1)
    case Connect(n, m) => s.(links := s.links[n := m])
    case _ =>
      var e := Act(w, s.end, s.procs[step.n], step);
      Cluster(s.end, s.procs[step.n := e.proc], s.net + e.cast, Noted(s.history, e.told), Wires(s.links, step),
              Post(s.links, s.mail, s.procs[step.n], step))
  }

  // ---- the agent's connections ----

  function Inbox(mail: map<nat, seq<seq<byte>>>, n: nat): (fs: seq<seq<byte>>) {
    if n in mail then mail[n] else []
  }

  /** A crash breaks the connections of the process, in both directions. */
  function Wires(links: map<nat, nat>, step: Step): (r: map<nat, nat>) {
    if step.Crash? then map n | n in links && n != step.n && links[n] != step.n :: links[n] else links
  }

  /** A broadcast goes to the clients connected at that moment; a delivery takes the front. */
  function Post(links: map<nat, nat>, mail: map<nat, seq<seq<byte>>>, p: Proc, step: Step): (r: map<nat, seq<seq<byte>>>)
    requires step.CastSave? ==> p.Up? && step.t in p.saves
  {
    match step
    case CastSave(m, t) =>
      map n | n in mail.Keys + links.Keys ::
        Inbox(mail, n) + if n in links && links[n] == m then [Frame(CMD_POS, p.saves[t].record)] else []
    case Deliver(n, f) => if InFront(mail, n, f) then mail[n := mail[n][1..]] else mail
    case Crash(n) => mail - {n}
    case _ => mail
  }

  predicate InFront(mail: map<nat, seq<seq<byte>>>, n: nat, f: seq<byte>) {
    n in mail && mail[n] != [] && mail[n][0] == f
  }

  // ---- runs ----

  /** The first process has just booted, without a cache, at the base mark; no other process
      has ever run. */
  function First(w: World, size: nat): (s: Cluster)
    requires w.base < |w.log|
  {
    Cluster(w.base,
            [Up(Handler.Boot([], w.log[w.base].at), Stopped, 0, 0, false, map[], true, 0, 0, 0, 0)]
            + seq(size, _ => Down([])),
            {}, map[], map[], map[])
  }

  /** A run. Frames are delivered in any order and number, whoever is connected to whom. */
  ghost predicate IsRun(w: World, ss: seq<Cluster>, steps: seq<Step>) {
    && w.Valid() && |ss| == |steps| + 1
    && (exists size: nat :: ss[0] == First(w, size))
    && forall i :: 0 <= i < |steps| ==> Enabled(w, ss[i], steps[i]) && ss[i + 1] == Next(w, ss[i], steps[i])
  }

  /** A run in which every delivered frame came over a connection, in order. */
  ghost predicate IsWiredRun(w: World, ss: seq<Cluster>, steps: seq<Step>) {
    && IsRun(w, ss, steps)
    && forall i :: 0 <= i < |steps| && steps[i].Deliver? ==> InFront(ss[i].mail, steps[i].n, steps[i].frame)
  }

  // ---- what holds in every state ----

  /** Every event from the base up to `hi` has been handed to notify by some process. */
  ghost predicate Covered(w: World, h: map<nat, set<int>>, hi: int) {
    forall o: nat :: w.Ord(w.base) <= o < hi ==> o in h
  }

  /** A record of mark `k`. With `num`, its index counts the events at or before the mark. */
  ghost predicate GoodAt(num: bool, w: World, end: nat, h: map<nat, set<int>>, r: seq<byte>, k: nat, i: int64) {
    && w.base <= k <= end < |w.log| && r == RecordOf(w.log[k].at, i)
    && Covered(w, h, w.Ord(k)) && (num ==> i == w.Idx(w.Ord(k)))
  }

  /** Without `num` a record may also name no position at all. */
  ghost predicate Good(num: bool, w: World, end: nat, h: map<nat, set<int>>, r: seq<byte>) {
    || (exists k: nat, i: int64 :: GoodAt(num, w, end, h, r, k, i))
    || (!num && exists i: int64 :: r == RecordOf(NOWHERE, i))
  }

  ghost predicate DiskOk(num: bool, w: World, end: nat, h: map<nat, set<int>>, disk: seq<byte>) {
    disk == [] || exists r :: Good(num, w, end, h, r) && r <= disk
  }

  ghost predicate LastAt(num: bool, w: World, end: nat, h: map<nat, set<int>>, p: Proc, k: nat)
    requires p.Up?
  {
    || (!num && p.mem.last == NOWHERE)
    || (&& w.base <= k <= end < |w.log| && w.log[k].at == p.mem.last
        && (!p.mem.exit && p.seeded ==> Covered(w, h, w.Ord(k)))
        && (num ==> p.mem.index + p.skipped == if p.seeded then w.Idx(w.Ord(k)) + p.since else 0)
        && (!p.seeded ==> p.skipped == 0))
  }

  ghost predicate LastOk(num: bool, w: World, end: nat, h: map<nat, set<int>>, p: Proc)
    requires p.Up?
  {
    exists k: nat :: LastAt(num, w, end, h, p, k)
  }

  ghost predicate SavesOk(num: bool, w: World, end: nat, h: map<nat, set<int>>, p: Proc)
    requires p.Up?
  {
    && (forall t :: t in p.saves ==> Good(num, w, end, h, p.saves[t].record))
    && (CanalThread in p.saves ==> p.canal.Reading? && p.skipped + p.swallowed == 0)
    && (StopThread in p.saves ==> StoppingOk(num, w, end, h, p))
  }

  /** Between the exit check and the end of the save that closing canal makes. */
  ghost predicate StoppingOk(num: bool, w: World, end: nat, h: map<nat, set<int>>, p: Proc)
    requires p.Up?
  {
    && p.canal.Stopped?
    && (|| (!num && p.synced == |w.log|)
        || (p.seeded && w.base <= p.synced <= end < |w.log| && (!p.mem.exit ==> Covered(w, h, w.Ord(p.synced)))))
  }

  /** How many events of the log lie before the reader. */
  function Cursor(w: World, c: Canal): (o: nat) {
    match c
    case Stopped => 0
    case Failed => 0
    case Reading(k) => w.Ord(k)
    case InRow(k, j) => w.Ord(k) + j
  }

  ghost predicate CanalOk(num: bool, w: World, end: nat, h: map<nat, set<int>>, p: Proc)
    requires p.Up?
  {
    var c := p.canal;
    && end < |w.log|
    && (c.Reading? ==> w.base <= c.mark <= end)
    && (c.InRow? ==> w.base <= c.mark < end && w.Ord(c.mark) + c.row <= w.Ord(c.mark + 1))
    && (Live(c) && !p.mem.exit ==> Covered(w, h, Cursor(w, c)))
    && (Live(c) ==> p.seeded && w.base <= p.synced <= c.mark)
    && (c.Failed? ==> p.seeded && w.base <= p.synced <= end && (!p.mem.exit ==> Covered(w, h, w.Ord(p.synced))))
    && (num && Live(c) ==> p.mem.index + p.skipped + p.swallowed == w.Idx(Cursor(w, c)))
    && (p.skipped + p.swallowed > 0 && Live(c) ==> p.mem.exit && c.Reading?)
  }

  ghost predicate ProcOk(num: bool, w: World, end: nat, h: map<nat, set<int>>, p: Proc) {
    if p.Down? then DiskOk(num, w, end, h, p.disk)
    else DiskOk(num, w, end, h, p.mem.disk) && SavesOk(num, w, end, h, p)
         && LastOk(num, w, end, h, p) && CanalOk(num, w, end, h, p)
  }

  ghost predicate FrameOk(num: bool, w: World, end: nat, h: map<nat, set<int>>, f: seq<byte>) {
    exists r :: Good(num, w, end, h, r) && f == Frame(CMD_POS, r)
  }

  /** Each event was only ever notified under its own index. */
  ghost predicate Numbered(w: World, h: map<nat, set<int>>) {
    forall o :: o in h ==> h[o] == {w.Idx(o) + 1}
  }

  ghost predicate Inv(num: bool, w: World, s: Cluster) {
    && w.base <= s.end < |w.log|
    && (forall n :: 0 <= n < |s.procs| ==> ProcOk(num, w, s.end, s.history, s.procs[n]))
    && (forall f :: f in s.net ==> FrameOk(num, w, s.end, s.history, f))
    && (num ==> Numbered(w, s.history))
  }

  /** What the code does not enforce, in terms of what each process has done. */
  datatype Rule =
    | StartsFirst      // a process without a record starts reading only before the first event
    | StartsEven       // a process with one does so only if it has notified exactly as many events
                       // since its last position was set as its exit bit made it skip before
    | StopsRunCanal    // a canal that is closed has been run
    | StopsEven        // and, unless the process exits, what was notified and skipped makes up the
                       // distance between the last position and the one canal holds
    | TakesOwnIndex    // a record that reaches a reading process carries its index, skipped
                       // events counted in
    | AltersUnskipped  // no table change follows an event that the exit bit made the handler skip

  predicate Obeys(w: World, p: Proc, step: Step, r: Rule) {
    p.Up? ==>
      match r
      case StartsFirst => step.Start? && Startable(p) && !p.seeded ==> w.Ord(step.k) == w.Ord(w.base)
      case StartsEven => step.Start? && Startable(p) && p.seeded ==> p.since == p.skipped
      case StopsRunCanal => step.Stop? ==> !p.canal.Stopped?
      case StopsEven => step.Stop? && !p.canal.Stopped? ==> p.mem.exit || StopIsEven(w, p)
      case TakesOwnIndex => step.Deliver? && Live(p.canal) ==> IndexIn(step.frame) == p.mem.index + p.skipped + p.swallowed
      case AltersUnskipped => step.Alter? ==> p.skipped + p.swallowed == 0
  }

  predicate StopIsEven(w: World, p: Proc)
    requires p.Up?
  {
    w.Ord(p.synced) + p.skipped == w.Ord(MarkOf(w, p.mem.last, |w.log|)) + p.since
  }

  /** Numbering needs all the rules, coverage the first one, and that only of processes that do
      not exit. */
  ghost predicate Disciplined(num: bool, w: World, s: Cluster, step: Step)
    requires Enabled(w, s, step)
  {
    Local(step) ==>
      var p := s.procs[step.n];
      if num then forall r: Rule :: Obeys(w, p, step, r)
      else (p.Up? && p.mem.exit) || Obeys(w, p, step, StartsFirst)
  }

  /** The event index in a frame that carries a record. */
  function IndexIn(f: seq<byte>): (i: int) {
    var u := Unpack(f);
    if u.Content? && |u.content| >= 18 then UnpackPos(u.content).index else 0
  }

  // ---- growing history ----

  lemma GoodGrows(num: bool, w: World, end: nat, h: map<nat, set<int>>, end': nat, h': map<nat, set<int>>, r: seq<byte>)
    requires Good(num, w, end, h, r) && end <= end' < |w.log| && h.Keys <= h'.Keys
    ensures Good(num, w, end', h', r)
  {
    if k: nat, i: int64 :| GoodAt(num, w, end, h, r, k, i) {
      assert GoodAt(num, w, end', h', r, k, i);
    }
  }

  lemma DiskGrows(num: bool, w: World, end: nat, h: map<nat, set<int>>, end': nat, h': map<nat, set<int>>, disk: seq<byte>)
    requires DiskOk(num, w, end, h, disk) && end <= end' < |w.log| && h.Keys <= h'.Keys
    ensures DiskOk(num, w, end', h', disk)
  {
    if disk != [] {
      var r :| Good(num, w, end, h, r) && r <= disk;
      GoodGrows(num, w, end, h, end', h', r);
    }
  }

  lemma ProcGrows(num: bool, w: World, end: nat, h: map<nat, set<int>>, end': nat, h': map<nat, set<int>>, p: Proc)
    requires ProcOk(num, w, end, h, p) && end <= end' < |w.log| && h.Keys <= h'.Keys
    ensures ProcOk(num, w, end', h', p)
  {
    hide Good;
    if p.Down? {
      DiskGrows(num, w, end, h, end', h', p.disk);
    } else {
      DiskGrows(num, w, end, h, end', h', p.mem.disk);
      forall t | t in p.saves
        ensures Good(num, w, end', h', p.saves[t].record)
      {
        GoodGrows(num, w, end, h, end', h', p.saves[t].record);
      }
      var k: nat :| LastAt(num, w, end, h, p, k);
      assert LastAt(num, w, end', h', p, k);
    }
  }

  lemma FrameGrows(num: bool, w: World, end: nat, h: map<nat, set<int>>, end': nat, h': map<nat, set<int>>, f: seq<byte>)
    requires FrameOk(num, w, end, h, f) && end <= end' < |w.log| && h.Keys <= h'.Keys
    ensures FrameOk(num, w, end', h', f)
  {
    hide Good;
    var r :| Good(num, w, end, h, r) && f == Frame(CMD_POS, r);
    GoodGrows(num, w, end, h, end', h', r);
  }

  // ---- records survive the codecs ----

  lemma MarkIsUnique(w: World, j: nat, k: nat)
    requires w.Valid() && j < |w.log| && k < |w.log| && w.log[j].at == w.log[k].at
    ensures j == k
  {
  }

  lemma GoodIsShort(num: bool, w: World, end: nat, h: map<nat, set<int>>, r: seq<byte>, k: nat, i: int64)
    requires w.Valid() && GoodAt(num, w, end, h, r, k, i)
    ensures 18 <= |r| <= 512
    ensures Unpack(Frame(CMD_POS, r)) == Content(CMD_POS, r)
    ensures UnpackPos(r) == Position(w.log[k].at.file, w.log[k].at.pos, i)
  {
    FieldsOfRecord(w.log[k].at.file, w.log[k].at.pos, i, []);
    ReplicationRoundTrip(w.log[k].at.file, w.log[k].at.pos, i);
  }

  /** Records and files that name no position. */
  lemma NowhereRecord(i: int64, disk: seq<byte>)
    ensures var r := RecordOf(NOWHERE, i);
            && |r| == 18 && Unpack(Frame(CMD_POS, r)) == Content(CMD_POS, r) && UnpackPos(r) == Position([], 0, i)
            && (r <= disk ==> ReadCache(disk) == Position([], 0, i))
  {
    hide Unpack, UnpackPos, ReadCache;
    FieldsOfRecord([], 0, i, []);
    ReplicationRoundTrip([], 0, i);
    if RecordOf(NOWHERE, i) <= disk { ReadOfPrefix(disk, Position([], 0, i)); }
  }

  lemma GoodDisk(num: bool, w: World, end: nat, h: map<nat, set<int>>, disk: seq<byte>)
    requires w.Valid() && DiskOk(num, w, end, h, disk) && disk != []
    ensures (!num && ReadCache(disk).file == [])
         || exists k: nat, i: int64 ::
              && w.base <= k <= end < |w.log| && Covered(w, h, w.Ord(k)) && (num ==> i == w.Idx(w.Ord(k)))
              && ReadCache(disk) == Position(w.log[k].at.file, w.log[k].at.pos, i)
  {
    hide ReadCache, Covered, Record;
    var r :| Good(num, w, end, h, r) && r <= disk;
    if k: nat, i: int64 :| GoodAt(num, w, end, h, r, k, i) {
      ReadOfPrefix(disk, Position(w.log[k].at.file, w.log[k].at.pos, i));
    } else {
      var i: int64 :| r == RecordOf(NOWHERE, i);
      NowhereRecord(i, disk);
    }
  }

  // ---- one step ----

  lemma BootKeeps(num: bool, w: World, end: nat, h: map<nat, set<int>>, p: Proc, n: nat)
    requires w.Valid() && w.base <= end && ProcOk(num, w, end, h, p) && CanAct(w, end, p, Boot(n))
    ensures ProcOk(num, w, end, h, Act(w, end, p, Boot(n)).proc)
  {
    hide Good, ReadCache;
    var p' := Act(w, end, p, Boot(n)).proc;
    if p.disk == [] {
      EmptyCache();
      assert LastAt(num, w, end, h, p', end);
    } else {
      GoodDisk(num, w, end, h, p.disk);
      if ReadCache(p.disk).file == [] {
        assert LastAt(num, w, end, h, p', end);
      } else {
        var k: nat, i: int64 :|
          && w.base <= k <= end < |w.log| && Covered(w, h, w.Ord(k)) && (num ==> i == w.Idx(w.Ord(k)))
          && ReadCache(p.disk) == Position(w.log[k].at.file, w.log[k].at.pos, i);
        assert LastAt(num, w, end, h, p', k);
      }
    }
  }

  lemma EmptyCache()
    ensures ReadCache([]) == NO_POSITION && !Usable([])
  {
  }

  /** A process that boots from the record of a mark the log has reached resumes exactly there:
      the clamp to the master's position in `handlerInit` does not fire. */
  lemma NoClamp(w: World, k: nat, end: nat, i: int64, disk: seq<byte>)
    requires w.Valid() && k <= end < |w.log| && RecordOf(w.log[k].at, i) <= disk
    ensures Usable(disk) && Handler.Boot(disk, w.log[end].at).last == w.log[k].at
    ensures Handler.Boot(disk, w.log[end].at).index == i
  {
    hide ReadCache;
    ReadOfPrefix(disk, Position(w.log[k].at.file, w.log[k].at.pos, i));
  }

  predicate StartOk(num: bool, w: World, p: Proc, k: nat)
    requires p.Up?
  {
    Startable(p) ==>
      if p.seeded then num ==> p.since == p.skipped else (!num && p.mem.exit) || w.Ord(k) == w.Ord(w.base)
  }

  lemma StartKeeps(num: bool, w: World, end: nat, h: map<nat, set<int>>, p: Proc, n: nat, k: nat)
    requires w.Valid() && p.Up? && ProcOk(num, w, end, h, p) && CanAct(w, end, p, Start(n, k))
    requires StartOk(num, w, p, k)
    ensures ProcOk(num, w, end, h, Act(w, end, p, Start(n, k)).proc)
  {
    hide DiskOk, Good, Covered, CanalOk, SavesOk;
    var j: nat :| LastAt(num, w, end, h, p, j);
    assert p.mem.last != NOWHERE;
    MarkIsUnique(w, j, k);
    if !p.seeded { NothingBefore(w, h); }
    LaunchedReader(num, w, end, h, p, n, k);
    LaunchedSaves(num, w, end, h, p, n, k);
    assert LastAt(num, w, end, h, Act(w, end, p, Start(n, k)).proc, k);
  }

  lemma LaunchedReader(num: bool, w: World, end: nat, h: map<nat, set<int>>, p: Proc, n: nat, k: nat)
    requires w.Valid() && p.Up? && CanalOk(num, w, end, h, p) && LastAt(num, w, end, h, p, k)
    requires CanAct(w, end, p, Start(n, k))
    requires StartOk(num, w, p, k)
    ensures var p' := Act(w, end, p, Start(n, k)).proc; p'.Up? && CanalOk(num, w, end, h, p')
  {
    hide Covered;
    if !p.seeded { NothingBefore(w, h); }
  }

  lemma LaunchedSaves(num: bool, w: World, end: nat, h: map<nat, set<int>>, p: Proc, n: nat, k: nat)
    requires p.Up? && SavesOk(num, w, end, h, p) && CanAct(w, end, p, Start(n, k))
    ensures var p' := Act(w, end, p, Start(n, k)).proc; p'.Up? && SavesOk(num, w, end, h, p')
  {
    hide Good, Covered;
  }

  lemma NothingBefore(w: World, h: map<nat, set<int>>)
    ensures Covered(w, h, w.Ord(w.base))
  {
  }

  /** `q` reads at the same place as `p`, with the same counts. */
  lemma SameReader(num: bool, w: World, end: nat, h: map<nat, set<int>>, p: Proc, q: Proc)
    requires p.Up? && q.Up? && CanalOk(num, w, end, h, p)
    requires q.canal == p.canal && q.mem.exit == p.mem.exit && (q.seeded || q.seeded == p.seeded)
    requires q.skipped + q.swallowed <= p.skipped + p.swallowed || !Live(p.canal)
    requires p.canal.Stopped? || q.synced == p.synced || (p.canal.Reading? && q.synced == p.canal.mark)
    requires num && Live(p.canal) ==> q.mem.index + q.skipped + q.swallowed == p.mem.index + p.skipped + p.swallowed
    ensures CanalOk(num, w, end, h, q)
  {
  }

  /** At a mark, the reader's own state is a good record of it. */
  lemma ReaderAtMark(num: bool, w: World, end: nat, h: map<nat, set<int>>, p: Proc)
    requires p.Up? && p.canal.Reading? && CanalOk(num, w, end, h, p)
    ensures w.base <= p.canal.mark <= end < |w.log|
    ensures !p.mem.exit ==> Covered(w, h, w.Ord(p.canal.mark))
    ensures num ==> p.mem.index + p.skipped + p.swallowed == w.Idx(w.Ord(p.canal.mark))
    ensures !p.mem.exit ==> p.skipped + p.swallowed == 0
    ensures p.seeded && w.base <= p.synced <= p.canal.mark
  {
  }

  lemma ReaderMoves(num: bool, w: World, end: nat, h: map<nat, set<int>>, p: Proc, s: Step)
    requires w.Valid() && p.Up? && ProcOk(num, w, end, h, p) && CanAct(w, end, p, s)
    requires s.EnterRow? || s.FinishRow?
    ensures ProcOk(num, w, end, h, Act(w, end, p, s).proc)
  {
    hide DiskOk, Good, CanalOk, Covered;
    var p' := Act(w, end, p, s).proc;
    if s.EnterRow? { EnterRowMoves(num, w, end, h, p, s.n); } else { FinishRowMoves(num, w, end, h, p, s.n); }
    var k: nat :| LastAt(num, w, end, h, p, k);
    assert LastAt(num, w, end, h, p', k);
  }

  lemma EnterRowMoves(num: bool, w: World, end: nat, h: map<nat, set<int>>, p: Proc, n: nat)
    requires w.Valid() && p.Up? && CanalOk(num, w, end, h, p) && CanAct(w, end, p, EnterRow(n))
    ensures var p' := Act(w, end, p, EnterRow(n)).proc; p'.Up? && CanalOk(num, w, end, h, p')
  {
  }

  lemma FinishRowMoves(num: bool, w: World, end: nat, h: map<nat, set<int>>, p: Proc, n: nat)
    requires w.Valid() && p.Up? && CanalOk(num, w, end, h, p) && CanAct(w, end, p, FinishRow(n))
    ensures var p' := Act(w, end, p, FinishRow(n)).proc; p'.Up? && CanalOk(num, w, end, h, p')
  {
  }

  lemma ExitKeeps(num: bool, w: World, end: nat, h: map<nat, set<int>>, p: Proc, n: nat)
    requires w.Valid() && p.Up? && ProcOk(num, w, end, h, p) && CanAct(w, end, p, Exit(n))
    ensures ProcOk(num, w, end, h, Act(w, end, p, Exit(n)).proc)
  {
    hide DiskOk, Good, Covered;
    var k: nat :| LastAt(num, w, end, h, p, k);
    assert LastAt(num, w, end, h, Act(w, end, p, Exit(n)).proc, k);
  }

  lemma StopExitKeeps(num: bool, w: World, end: nat, h: map<nat, set<int>>, p: Proc, n: nat)
    requires w.Valid() && p.Up? && ProcOk(num, w, end, h, p) && CanAct(w, end, p, StopExit(n))
    ensures ProcOk(num, w, end, h, Act(w, end, p, StopExit(n)).proc)
  {
    hide DiskOk, Good, RecordOf, Covered;
    var k: nat :| LastAt(num, w, end, h, p, k);
    assert LastAt(num, w, end, h, Act(w, end, p, StopExit(n)).proc, k);
  }

  lemma ReportKeeps(num: bool, w: World, end: nat, h: map<nat, set<int>>, p: Proc, n: nat)
    requires w.Valid() && p.Up? && ProcOk(num, w, end, h, p) && CanAct(w, end, p, Report(n))
    ensures ProcOk(num, w, end, h, Act(w, end, p, Report(n)).proc)
  {
    hide DiskOk, Good, RecordOf, Covered;
    var k: nat :| LastAt(num, w, end, h, p, k);
    assert LastAt(num, w, end, h, Act(w, end, p, Report(n)).proc, k);
  }

  lemma ClearKeeps(num: bool, w: World, end: nat, h: map<nat, set<int>>, p: Proc, n: nat)
    requires w.Valid() && p.Up? && ProcOk(num, w, end, h, p) && CanAct(w, end, p, Clear(n))
    ensures ProcOk(num, w, end, h, Act(w, end, p, Clear(n)).proc)
  {
    hide DiskOk, Good, RecordOf, Covered;
    var k: nat :| LastAt(num, w, end, h, p, k);
    assert LastAt(num, w, end, h, Act(w, end, p, Clear(n)).proc, k);
  }

  lemma FailKeeps(num: bool, w: World, end: nat, h: map<nat, set<int>>, p: Proc, n: nat)
    requires w.Valid() && p.Up? && ProcOk(num, w, end, h, p) && CanAct(w, end, p, Fail(n))
    ensures ProcOk(num, w, end, h, Act(w, end, p, Fail(n)).proc)
  {
    hide DiskOk, Good, Covered;
    var k: nat :| LastAt(num, w, end, h, p, k);
    if !p.mem.exit { CoveredBefore(w, h, p.synced, p.canal.mark); }
    assert LastAt(num, w, end, h, Act(w, end, p, Fail(n)).proc, k);
  }

  lemma CrashKeeps(num: bool, w: World, end: nat, h: map<nat, set<int>>, p: Proc, n: nat)
    requires p.Up? && ProcOk(num, w, end, h, p) && CanAct(w, end, p, Crash(n))
    ensures ProcOk(num, w, end, h, Act(w, end, p, Crash(n)).proc)
  {
    hide DiskOk, SavesOk, LastOk, CanalOk;
  }

  lemma TellKeeps(num: bool, w: World, end: nat, h: map<nat, set<int>>, p: Proc, s: Step)
    requires w.Valid() && p.Up? && ProcOk(num, w, end, h, p) && CanAct(w, end, p, s)
    requires s.Notify? || s.Alter?
    requires num ==> p.skipped + p.swallowed == 0
    ensures var e := Act(w, end, p, s);
            && ProcOk(num, w, end, Noted(h, e.told), e.proc)
            && e.told.Told? && (num ==> e.told.index == w.Idx(e.told.ordinal) + 1)
  {
    hide DiskOk, Good, ToInt64, CanalOk, Covered;
    var e := Act(w, end, p, s);
    var h' := Noted(h, e.told);
    TellMoves(num, w, end, h, p, s);
    EndInLog(num, w, end, h, p);
    ProcGrows(num, w, end, h, end, h', p);
    var k: nat :| LastAt(num, w, end, h', p, k);
    assert LastAt(num, w, end, h', e.proc, k);
  }

  lemma TellMoves(num: bool, w: World, end: nat, h: map<nat, set<int>>, p: Proc, s: Step)
    requires w.Valid() && p.Up? && CanalOk(num, w, end, h, p) && CanAct(w, end, p, s)
    requires s.Notify? || s.Alter?
    requires num ==> p.skipped + p.swallowed == 0
    ensures var e := Act(w, end, p, s);
            && e.told.Told? && e.proc.Up? && p.seeded && CanalOk(num, w, end, Noted(h, e.told), e.proc)
            && (num ==> e.told.index == w.Idx(e.told.ordinal) + 1 == p.mem.index + 1 == e.proc.mem.index)
  {
    hide ToInt64;
  }

  lemma GoodHere(num: bool, w: World, end: nat, h: map<nat, set<int>>, k: nat, i: int64)
    requires w.base <= k <= end < |w.log| && Covered(w, h, w.Ord(k)) && (num ==> i == w.Idx(w.Ord(k)))
    ensures Good(num, w, end, h, RecordOf(w.log[k].at, i))
  {
    hide RecordOf, Covered;
    assert GoodAt(num, w, end, h, RecordOf(w.log[k].at, i), k, i);
  }

  lemma AddSave(num: bool, w: World, end: nat, h: map<nat, set<int>>, p: Proc, t: Thread, r: seq<byte>)
    requires p.Up? && SavesOk(num, w, end, h, p) && Good(num, w, end, h, r)
    requires t.CanalThread? ==> p.canal.Reading? && p.skipped + p.swallowed == 0
    requires t.StopThread? ==> StoppingOk(num, w, end, h, p)
    ensures SavesOk(num, w, end, h, TrySave(p, t, r))
  {
    hide Good, Covered;
  }

  lemma SyncKeeps(num: bool, w: World, end: nat, h: map<nat, set<int>>, p: Proc, n: nat)
    requires w.Valid() && p.Up? && ProcOk(num, w, end, h, p) && CanAct(w, end, p, Sync(n))
    ensures ProcOk(num, w, end, h, Act(w, end, p, Sync(n)).proc)
  {
    hide DiskOk, RecordOf, Covered, Good, CanalOk;
    var p', q, k := Act(w, end, p, Sync(n)).proc, p.(synced := p.canal.mark), p.canal.mark;
    ReaderAtMark(num, w, end, h, p);
    SameReader(num, w, end, h, p, p');
    if p.mem.exit {
      assert LastAt(num, w, end, h, p', k);
    } else {
      GoodHere(num, w, end, h, k, p.mem.index);
      AddSave(num, w, end, h, q, CanalThread, RecordOf(w.log[k].at, p.mem.index));
      var j: nat :| LastAt(num, w, end, h, p, j);
      assert LastAt(num, w, end, h, p', j);
    }
  }

  lemma StopKeeps(num: bool, w: World, end: nat, h: map<nat, set<int>>, p: Proc, n: nat)
    requires w.Valid() && p.Up? && ProcOk(num, w, end, h, p) && CanAct(w, end, p, Stop(n))
    requires num ==> !p.canal.Stopped? && (p.mem.exit || StopIsEven(w, p))
    ensures ProcOk(num, w, end, h, Act(w, end, p, Stop(n)).proc)
  {
    hide DiskOk, RecordOf, Covered, Good, CanalOk, MarkOf;
    var p', q := Act(w, end, p, Stop(n)).proc, Closed(w, p);
    EndInLog(num, w, end, h, p);
    StoppedReader(num, w, end, h, p');
    if !p.canal.Stopped? { CanalPosition(num, w, end, h, p); }
    var j: nat :| LastAt(num, w, end, h, p, j);
    if num { MarkFound(w, j, |w.log|); }
    if p.mem.exit {
      assert LastAt(num, w, end, h, p', p.synced);
    } else {
      if p.canal.Stopped? { GoodNowhere(w, end, h, p.mem.index); } else { GoodHere(num, w, end, h, p.synced, p.mem.index); }
      AddSave(num, w, end, h, q, StopThread, RecordOf(At(w, q.synced), p.mem.index));
      assert LastAt(num, w, end, h, p', j);
    }
  }

  lemma {:induction false} MarkFound(w: World, k: nat, n: nat)
    requires w.Valid() && k < n <= |w.log|
    ensures MarkOf(w, w.log[k].at, n) == k
    decreases n
  {
    if k < n - 1 {
      assert w.log[n - 1].at != w.log[k].at;
      MarkFound(w, k, n - 1);
    }
  }

  lemma GoodNowhere(w: World, end: nat, h: map<nat, set<int>>, i: int64)
    ensures Good(false, w, end, h, RecordOf(NOWHERE, i))
  {
  }

  /** The position that closing canal would report. */
  lemma CanalPosition(num: bool, w: World, end: nat, h: map<nat, set<int>>, p: Proc)
    requires w.Valid() && p.Up? && (p.canal.Reading? || p.canal.Failed?) && CanalOk(num, w, end, h, p)
    ensures p.seeded && w.base <= p.synced <= end < |w.log|
    ensures !p.mem.exit ==> Covered(w, h, w.Ord(p.synced))
  {
    if p.canal.Reading? && !p.mem.exit { CoveredBefore(w, h, p.synced, p.canal.mark); }
  }

  lemma EndInLog(num: bool, w: World, end: nat, h: map<nat, set<int>>, p: Proc)
    requires p.Up? && CanalOk(num, w, end, h, p)
    ensures end < |w.log|
  {
  }

  lemma StoppedReader(num: bool, w: World, end: nat, h: map<nat, set<int>>, p: Proc)
    requires p.Up? && p.canal.Stopped? && end < |w.log|
    ensures CanalOk(num, w, end, h, p)
  {
  }

  lemma CoveredBefore(w: World, h: map<nat, set<int>>, j: nat, k: nat)
    requires w.Valid() && j <= k < |w.log| && Covered(w, h, w.Ord(k))
    ensures Covered(w, h, w.Ord(j))
  {
  }

  lemma WriteKeeps(num: bool, w: World, end: nat, h: map<nat, set<int>>, p: Proc, n: nat, t: Thread)
    requires w.Valid() && p.Up? && ProcOk(num, w, end, h, p) && CanAct(w, end, p, WriteSave(n, t))
    ensures ProcOk(num, w, end, h, Act(w, end, p, WriteSave(n, t)).proc)
  {
    hide Good, CanalOk, Covered;
    var p', r := Act(w, end, p, WriteSave(n, t)).proc, p.saves[t].record;
    SameReader(num, w, end, h, p, p');
    assert r <= WriteAt(p.mem.disk, r);
    var k: nat :| LastAt(num, w, end, h, p, k);
    assert LastAt(num, w, end, h, p', k);
  }

  lemma CastKeeps(num: bool, w: World, end: nat, h: map<nat, set<int>>, p: Proc, n: nat, t: Thread)
    requires w.Valid() && p.Up? && ProcOk(num, w, end, h, p) && CanAct(w, end, p, CastSave(n, t))
    ensures var e := Act(w, end, p, CastSave(n, t));
            ProcOk(num, w, end, h, e.proc) && forall f :: f in e.cast ==> FrameOk(num, w, end, h, f)
  {
    hide DiskOk, Good, CanalOk, LastOk, Covered, StoppingOk;
    var e := Act(w, end, p, CastSave(n, t));
    CastMovesLast(num, w, end, h, p, n, t);
    CastEndsSave(num, w, end, h, p, n, t);
    CastKeepsReader(num, w, end, h, p, n, t);
  }

  lemma CastMovesLast(num: bool, w: World, end: nat, h: map<nat, set<int>>, p: Proc, n: nat, t: Thread)
    requires w.Valid() && p.Up? && ProcOk(num, w, end, h, p) && CanAct(w, end, p, CastSave(n, t))
    ensures var p' := Act(w, end, p, CastSave(n, t)).proc; p'.Up? && LastOk(num, w, end, h, p')
  {
    hide DiskOk, Good, CanalOk, Covered;
    var p' := Act(w, end, p, CastSave(n, t)).proc;
    var k: nat :| LastAt(num, w, end, h, p, k);
    match t {
      case CanalThread =>
        ReaderAtMark(num, w, end, h, p);
        assert LastAt(num, w, end, h, p', p.canal.mark);
      case StopThread =>
        if num { MarkFound(w, k, |w.log|); }
        assert LastAt(num, w, end, h, p', p.synced);
      case AgentThread =>
        assert LastAt(num, w, end, h, p', k);
    }
  }

  lemma CastEndsSave(num: bool, w: World, end: nat, h: map<nat, set<int>>, p: Proc, n: nat, t: Thread)
    requires p.Up? && SavesOk(num, w, end, h, p) && CanAct(w, end, p, CastSave(n, t))
    ensures var p' := Act(w, end, p, CastSave(n, t)).proc; p'.Up? && SavesOk(num, w, end, h, p')
  {
    hide Good, Covered;
  }

  lemma CastKeepsReader(num: bool, w: World, end: nat, h: map<nat, set<int>>, p: Proc, n: nat, t: Thread)
    requires p.Up? && SavesOk(num, w, end, h, p) && CanalOk(num, w, end, h, p) && CanAct(w, end, p, CastSave(n, t))
    ensures var p' := Act(w, end, p, CastSave(n, t)).proc; p'.Up? && CanalOk(num, w, end, h, p')
  {
    hide Good, Covered, CanalOk, MarkOf;
    var p' := Act(w, end, p, CastSave(n, t)).proc;
    if t.StopThread? {
      EndInLog(num, w, end, h, p);
      StoppedReader(num, w, end, h, p');
    } else {
      SameReader(num, w, end, h, p, p');
    }
  }

  lemma DeliverKeeps(num: bool, w: World, end: nat, h: map<nat, set<int>>, p: Proc, n: nat, f: seq<byte>)
    requires w.Valid() && p.Up? && ProcOk(num, w, end, h, p) && CanAct(w, end, p, Deliver(n, f))
    requires FrameOk(num, w, end, h, f)
    requires num && Live(p.canal) ==> IndexIn(f) == p.mem.index + p.skipped + p.swallowed
    ensures ProcOk(num, w, end, h, Act(w, end, p, Deliver(n, f)).proc)
  {
    hide DiskOk, Good, Covered, UnpackPos, Unpack, CanalOk;
    var r, k, i := RecordIn(num, w, end, h, f);
    var settled := Settled(p);
    var q := settled.(mem := Apply(p.mem, r));
    SameReader(num, w, end, h, p, TrySave(q, AgentThread, r));
    assert LastAt(num, w, end, h, q, k);
    AddSave(num, w, end, h, q, AgentThread, r);
    assert LastAt(num, w, end, h, TrySave(q, AgentThread, r), k);
  }

  /** What a broadcast frame carries. */
  lemma RecordIn(num: bool, w: World, end: nat, h: map<nat, set<int>>, f: seq<byte>) returns (r: seq<byte>, k: nat, i: int64)
    requires w.Valid() && FrameOk(num, w, end, h, f)
    ensures Good(num, w, end, h, r) && Unpack(f) == Content(CMD_POS, r) && |r| >= 18
    ensures || (!num && UnpackPos(r) == Position([], 0, i))
            || (&& w.base <= k <= end < |w.log| && Covered(w, h, w.Ord(k)) && (num ==> i == w.Idx(w.Ord(k)))
                && UnpackPos(r) == Position(w.log[k].at.file, w.log[k].at.pos, i))
  {
    hide Frame, Unpack, UnpackPos, RecordOf, Covered;
    r :| Good(num, w, end, h, r) && f == Frame(CMD_POS, r);
    if j: nat, x: int64 :| GoodAt(num, w, end, h, r, j, x) {
      k, i := j, x;
      GoodIsShort(num, w, end, h, r, k, i);
    } else {
      i :| r == RecordOf(NOWHERE, i);
      k := 0;
      NowhereRecord(i, []);
    }
  }

  lemma ActKeeps(num: bool, w: World, s: Cluster, step: Step)
    requires w.Valid() && Inv(num, w, s) && Enabled(w, s, step) && Disciplined(num, w, s, step) && Local(step)
    ensures var e := Act(w, s.end, s.procs[step.n], step);
            && ProcOk(num, w, s.end, Noted(s.history, e.told), e.proc)
            && (forall f :: f in e.cast ==> FrameOk(num, w, s.end, s.history, f))
            && (num && e.told.Told? ==> e.told.index == w.Idx(e.told.ordinal) + 1)
  {
    hide ProcOk, FrameOk;
    var p := s.procs[step.n];
    if num {
      assert Obeys(w, p, step, StartsFirst) && Obeys(w, p, step, StartsEven) && Obeys(w, p, step, StopsRunCanal);
      assert Obeys(w, p, step, StopsEven) && Obeys(w, p, step, TakesOwnIndex) && Obeys(w, p, step, AltersUnskipped);
    }
    match step {
      case Boot(n) => BootKeeps(num, w, s.end, s.history, p, n);
      case Start(n, k) => StartKeeps(num, w, s.end, s.history, p, n, k);
      case Notify(_) =>
        NotifierSkippedNothing(num, w, s.end, s.history, p);
        TellKeeps(num, w, s.end, s.history, p, step);
      case Alter(_) => TellKeeps(num, w, s.end, s.history, p, step);
      case Sync(n) => SyncKeeps(num, w, s.end, s.history, p, n);
      case Stop(n) => StopKeeps(num, w, s.end, s.history, p, n);
      case WriteSave(n, t) => WriteKeeps(num, w, s.end, s.history, p, n, t);
      case CastSave(n, t) => CastKeeps(num, w, s.end, s.history, p, n, t);
      case Deliver(n, f) => DeliverKeeps(num, w, s.end, s.history, p, n, f);
      case EnterRow(_) => ReaderMoves(num, w, s.end, s.history, p, step);
      case FinishRow(_) => ReaderMoves(num, w, s.end, s.history, p, step);
      case Exit(n) => ExitKeeps(num, w, s.end, s.history, p, n);
      case StopExit(n) => StopExitKeeps(num, w, s.end, s.history, p, n);
      case Report(n) => ReportKeeps(num, w, s.end, s.history, p, n);
      case Clear(n) => ClearKeeps(num, w, s.end, s.history, p, n);
      case Fail(n) => FailKeeps(num, w, s.end, s.history, p, n);
      case Crash(n) => CrashKeeps(num, w, s.end, s.history, p, n);
    }
  }

  lemma NotifierSkippedNothing(num: bool, w: World, end: nat, h: map<nat, set<int>>, p: Proc)
    requires ProcOk(num, w, end, h, p) && p.Up? && p.canal.InRow?
    ensures p.skipped + p.swallowed == 0
  {
  }

  lemma NextKeeps(num: bool, w: World, s: Cluster, step: Step)
    requires w.Valid() && Inv(num, w, s) && Enabled(w, s, step) && Disciplined(num, w, s, step)
    ensures Inv(num, w, Next(w, s, step))
  {
    hide ProcOk, FrameOk, Act;
    var s' := Next(w, s, step);
    if Local(step) { ActKeeps(num, w, s, step); }
    forall n | 0 <= n < |s'.procs|
      ensures ProcOk(num, w, s'.end, s'.history, s'.procs[n])
    {
      if !Local(step) || n != step.n {
        assert s'.procs[n] == s.procs[n];
        ProcGrows(num, w, s.end, s.history, s'.end, s'.history, s.procs[n]);
      }
    }
    forall f | f in s'.net
      ensures FrameOk(num, w, s'.end, s'.history, f)
    {
      FrameGrows(num, w, s.end, s.history, s'.end, s'.history, f);
    }
  }

  lemma FirstOk(num: bool, w: World, size: nat)
    requires w.Valid()
    ensures Inv(num, w, First(w, size))
  {
    var s := First(w, size);
    EmptyCache();
    assert LastAt(num, w, s.end, s.history, s.procs[0], w.base);
  }

  ghost predicate DisciplinedRun(num: bool, w: World, ss: seq<Cluster>, steps: seq<Step>) {
    && IsRun(w, ss, steps)
    && forall i :: 0 <= i < |steps| ==> Disciplined(num, w, ss[i], steps[i])
  }

  lemma {:induction false} RunKeeps(num: bool, w: World, ss: seq<Cluster>, steps: seq<Step>, i: nat)
    requires DisciplinedRun(num, w, ss, steps) && i < |ss|
    ensures Inv(num, w, ss[i])
    decreases i
  {
    hide Inv, Next, Enabled, Disciplined, First;
    if i == 0 {
      var size: nat :| ss[0] == First(w, size);
      FirstOk(num, w, size);
    } else {
      RunKeeps(num, w, ss, steps, i - 1);
      NextKeeps(num, w, ss[i - 1], steps[i - 1]);
    }
  }

  /** The states of disciplined runs. */
  ghost predicate Orderly(num: bool, w: World, s: Cluster) {
    exists ss, steps :: DisciplinedRun(num, w, ss, steps) && ss[|ss| - 1] == s
  }

  lemma OrderlyOk(num: bool, w: World, s: Cluster)
    requires Orderly(num, w, s)
    ensures w.Valid() && Inv(num, w, s)
  {
    hide Inv, Next, Enabled, Disciplined, First;
    var ss, steps :| DisciplinedRun(num, w, ss, steps) && ss[|ss| - 1] == s;
    RunKeeps(num, w, ss, steps, |ss| - 1);
  }
}
