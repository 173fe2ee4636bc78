/** The HTTP node: a bounded queue, several workers, and draining at shutdown. */
module Drain {

  type payload = seq<char>

  const MAX_SEND_QUEUE := 10000

  datatype Worker = Idle | Posting(p: payload) | Exited

  datatype State = State(
    queue: seq<payload>,
    workers: seq<Worker>,
    cancelled: bool,
    // history
    enqueued: seq<payload>,
    taken: seq<payload>,
    attempted: multiset<payload>,
    late: seq<payload>,     // enqueued when no worker was left
    afterCancel: nat)       // how many were enqueued after cancellation

  function Begin(workers: nat): (s: State) {
    State([], seq(workers, _ => Idle), false, [], [], multiset{}, [], 0)
  }

  datatype Step =
    | Enqueue(p: payload)  // asyncSend: waits until there is room
    | Take(w: nat)         // a worker receives from the channel
    | Post(w: nat)         // and has attempted the request, whatever came of it
    | Cancel
    | Leave(w: nat)        // the context is done and the queue is seen empty

  predicate AllGone(s: State) {
    forall w :: 0 <= w < |s.workers| ==> s.workers[w].Exited?
  }

  predicate Enabled(s: State, step: Step) {
    match step
    case Enqueue(_) => |s.queue| < MAX_SEND_QUEUE
    case Take(w) => w < |s.workers| && s.workers[w].Idle? && s.queue != []
    case Post(w) => w < |s.workers| && s.workers[w].Posting?
    case Cancel => true
    case Leave(w) => w < |s.workers| && s.workers[w].Idle? && s.cancelled && s.queue == []
  }

  function Next(s: State, step: Step): (r: State)
    requires Enabled(s, step)
  {
    match step
    case Enqueue(p) =>
      s.(queue := s.queue + [p], enqueued := s.enqueued + [p],
         late := if AllGone(s) then s.late + [p] else s.late,
         afterCancel := s.afterCancel + if s.cancelled then 1 else 0)
    case Take(w) =>
      s.(queue := s.queue[1..], taken := s.taken + [s.queue[0]], workers := s.workers[w := Posting(s.queue[0])])
    case Post(w) =>
      s.(attempted := s.attempted + multiset{s.workers[w].p}, workers := s.workers[w := Idle])
    case Cancel => s.(cancelled := true)
    case Leave(w) => s.(workers := s.workers[w := Exited])
  }

  ghost predicate IsRun(ss: seq<State>, steps: seq<Step>) {
    && |ss| == |steps| + 1 && (exists n: nat :: n > 0 && ss[0] == Begin(n))
    && forall i :: 0 <= i < |steps| ==> Enabled(ss[i], steps[i]) && ss[i + 1] == Next(ss[i], steps[i])
  }

  /** What the workers hold. */
  function InHand(ws: seq<Worker>): (b: multiset<payload>) {
    if ws == [] then multiset{} else InHand(ws[..|ws| - 1]) + Held(ws[|ws| - 1])
  }

  function Held(w: Worker): (b: multiset<payload>) {
    if w.Posting? then multiset{w.p} else multiset{}
  }

  /** Replacing one worker changes the count of each payload by what the two hold of it. */
  lemma {:induction false} InHandUpdate(ws: seq<Worker>, i: nat, v: Worker, x: payload)
    requires i < |ws|
    ensures InHand(ws[i := v])[x] + Held(ws[i])[x] == InHand(ws)[x] + Held(v)[x]
    decreases |ws|
  {
    hide Held;
    var front := ws[..|ws| - 1];
    if i < |ws| - 1 {
      InHandUpdate(front, i, v, x);
      assert ws[i := v][..|ws| - 1] == front[i := v];
    } else {
      assert ws[i := v][..|ws| - 1] == front;
    }
  }

  lemma {:induction false} NothingInHand(ws: seq<Worker>)
    requires forall w :: 0 <= w < |ws| ==> !ws[w].Posting?
    ensures InHand(ws) == multiset{}
    decreases |ws|
  {
    if ws != [] { NothingInHand(ws[..|ws| - 1]); }
  }

  ghost predicate Inv(s: State) {
    && s.workers != [] && |s.queue| <= MAX_SEND_QUEUE
    && s.taken + s.queue == s.enqueued
    && multiset(s.taken) == s.attempted + InHand(s.workers)
    && (AllGone(s) ==> s.queue == s.late)
    && (!AllGone(s) ==> s.late == [])
    && (s.late != [] ==> s.afterCancel > 0)
    && (forall w :: 0 <= w < |s.workers| && s.workers[w].Exited? ==> s.cancelled)
  }

  lemma EnqueueKeeps(s: State, p: payload)
    requires Inv(s) && Enabled(s, Enqueue(p))
    ensures Inv(Next(s, Enqueue(p)))
  {
  }

  lemma TakeKeeps(s: State, w: nat)
    requires Inv(s) && Enabled(s, Take(w))
    ensures Inv(Next(s, Take(w)))
  {
    hide InHand;
    var r, p := Next(s, Take(w)), s.queue[0];
    assert s.taken + [p] + s.queue[1..] == s.enqueued;
    forall x
      ensures multiset(r.taken)[x] == (r.attempted + InHand(r.workers))[x]
    {
      InHandUpdate(s.workers, w, Posting(p), x);
    }
    assert !s.workers[w].Exited? && !r.workers[w].Exited?;
  }

  lemma PostKeeps(s: State, w: nat)
    requires Inv(s) && Enabled(s, Post(w))
    ensures Inv(Next(s, Post(w)))
  {
    hide InHand;
    var r := Next(s, Post(w));
    forall x
      ensures multiset(r.taken)[x] == (r.attempted + InHand(r.workers))[x]
    {
      InHandUpdate(s.workers, w, Idle, x);
    }
    assert !s.workers[w].Exited? && !r.workers[w].Exited?;
  }

  lemma LeaveKeeps(s: State, w: nat)
    requires Inv(s) && Enabled(s, Leave(w))
    ensures Inv(Next(s, Leave(w)))
  {
    hide InHand;
    var r := Next(s, Leave(w));
    forall x
      ensures multiset(r.taken)[x] == (r.attempted + InHand(r.workers))[x]
    {
      InHandUpdate(s.workers, w, Exited, x);
    }
    assert !s.workers[w].Exited?;
  }

  lemma NextKeeps(s: State, step: Step)
    requires Inv(s) && Enabled(s, step)
    ensures Inv(Next(s, step))
  {
    hide InHand;
    match step {
      case Enqueue(p) => EnqueueKeeps(s, p);
      case Take(w) => TakeKeeps(s, w);
      case Post(w) => PostKeeps(s, w);
      case Cancel =>
      case Leave(w) => LeaveKeeps(s, w);
    }
  }

  lemma {:induction false} RunKeeps(ss: seq<State>, steps: seq<Step>, i: nat)
    requires IsRun(ss, steps) && i < |ss|
    ensures Inv(ss[i])
    decreases i
  {
    if i == 0 {
      var n: nat :| n > 0 && ss[0] == Begin(n);
      NothingInHand(ss[0].workers);
      assert ss[0].workers[0].Idle?;
    } else {
      RunKeeps(ss, steps, i - 1);
      NextKeeps(ss[i - 1], steps[i - 1]);
    }
  }

  /** In every interleaving payloads leave the queue once each and in order, the queue stays
      within its capacity, and nothing is attempted that was not taken. */
  lemma TakenOnceInOrder(ss: seq<State>, steps: seq<Step>, i: nat)
    requires IsRun(ss, steps) && i < |ss|
    ensures var s := ss[i];
            && s.taken <= s.enqueued && s.taken + s.queue == s.enqueued && |s.queue| <= MAX_SEND_QUEUE
            && s.attempted <= multiset(s.taken)
  {
    RunKeeps(ss, steps, i);
  }

  /** Once every worker has left, each payload has been attempted exactly once, except those
      that arrived when no worker was left; if nothing was enqueued after cancellation there
      are none of those. */
  lemma DrainedAtShutdown(ss: seq<State>, steps: seq<Step>, i: nat)
    requires IsRun(ss, steps) && i < |ss| && AllGone(ss[i])
    ensures var s := ss[i];
            && multiset(s.enqueued) == s.attempted + multiset(s.late)
            && (s.attempted == multiset(s.enqueued) <==> s.late == [])
            && (s.afterCancel == 0 ==> s.late == [])
  {
    RunKeeps(ss, steps, i);
    var s := ss[i];
    NothingInHand(s.workers);
    assert multiset(s.taken + s.queue) == multiset(s.taken) + multiset(s.queue);
    if s.late != [] { assert s.late[0] in multiset(s.late); }
  }

  // ---- the histories, from the steps ----

  /** The payloads given to asyncSend, in order. */
  function Offered(steps: seq<Step>): (r: seq<payload>) {
    if steps == [] then []
    else Offered(steps[..|steps| - 1]) + if steps[|steps| - 1].Enqueue? then [steps[|steps| - 1].p] else []
  }

  /** How many of them came after the cancellation. */
  function OfferedLate(steps: seq<Step>): (n: nat) {
    if steps == [] then 0
    else
      var front := steps[..|steps| - 1];
      OfferedLate(front) + if steps[|steps| - 1].Enqueue? && Cancel in front then 1 else 0
  }

  /** How many requests have been made. */
  function Posts(steps: seq<Step>): (n: nat) {
    if steps == [] then 0 else Posts(steps[..|steps| - 1]) + if steps[|steps| - 1].Post? then 1 else 0
  }

  /** Nothing is lost on the way in, every request counts once, and the service is cancelled
      exactly when it was told to be. */
  lemma {:induction false} HistoriesAre(ss: seq<State>, steps: seq<Step>, i: nat)
    requires IsRun(ss, steps) && i < |ss|
    ensures ss[i].taken + ss[i].queue == Offered(steps[..i])
    ensures |ss[i].attempted| == Posts(steps[..i]) && ss[i].afterCancel == OfferedLate(steps[..i])
    ensures ss[i].cancelled <==> Cancel in steps[..i]
    decreases i
  {
    hide Next, Enabled;
    if i > 0 {
      HistoriesAre(ss, steps, i - 1);
      assert steps[..i] == steps[..i - 1] + [steps[i - 1]];
      assert steps[..i][..i - 1] == steps[..i - 1];
      assert ss[i - 1 + 1] == Next(ss[i - 1], steps[i - 1]);
      HistoryStep(ss[i - 1], steps[i - 1]);
    }
  }

  lemma HistoryStep(s: State, step: Step)
    requires Enabled(s, step)
    ensures var r := Next(s, step);
            && r.taken + r.queue == s.taken + s.queue + (if step.Enqueue? then [step.p] else [])
            && |r.attempted| == |s.attempted| + (if step.Post? then 1 else 0)
            && r.afterCancel == s.afterCancel + (if step.Enqueue? && s.cancelled then 1 else 0)
            && (r.cancelled <==> s.cancelled || step.Cancel?)
  {
    match step {
      case Enqueue(p) => assert s.taken + (s.queue + [p]) == (s.taken + s.queue) + [p];
      case Take(w) => assert (s.taken + [s.queue[0]]) + s.queue[1..] == s.taken + s.queue;
      case Post(_) =>
      case Cancel =>
      case Leave(_) =>
    }
  }

  // ---- draining ends ----

  /** Steps a worker still has before it can leave, payload in hand included. */
  function Weight(ws: seq<Worker>): (n: nat) {
    if ws == [] then 0 else Weight(ws[..|ws| - 1]) + Load(ws[|ws| - 1])
  }

  function Load(w: Worker): (n: nat) {
    match w
    case Idle => 1
    case Posting(_) => 2
    case Exited => 0
  }

  lemma {:induction false} WeightUpdate(ws: seq<Worker>, i: nat, v: Worker)
    requires i < |ws|
    ensures Weight(ws[i := v]) + Load(ws[i]) == Weight(ws) + Load(v)
    decreases |ws|
  {
    var front := ws[..|ws| - 1];
    if i < |ws| - 1 {
      WeightUpdate(front, i, v);
      assert ws[i := v][..|ws| - 1] == front[i := v];
    } else {
      assert ws[i := v][..|ws| - 1] == front;
    }
  }

  /** The steps left until every worker is gone. */
  function Left(s: State): (n: nat) {
    2 * |s.queue| + Weight(s.workers)
  }

  /** Every step of a worker brings the end nearer. */
  lemma WorkersProgress(s: State, step: Step)
    requires Enabled(s, step) && (step.Take? || step.Post? || step.Leave?)
    ensures Left(Next(s, step)) == Left(s) - 1
  {
    WeightUpdate(s.workers, step.w, Next(s, step).workers[step.w]);
  }

  /** And after a cancellation some worker can always take one, until all are gone. */
  lemma SomeWorkerCan(s: State) returns (step: Step)
    requires s.cancelled && !AllGone(s)
    ensures (step.Take? || step.Post? || step.Leave?) && Enabled(s, step)
  {
    var w: nat :| w < |s.workers| && !s.workers[w].Exited?;
    step := if s.workers[w].Posting? then Post(w) else if s.queue != [] then Take(w) else Leave(w);
  }

  /** So once cancelled, and with nothing more coming in, the workers post everything and leave,
      in exactly as many steps as are left. */
  lemma {:induction false} CancelledDrains(ss: seq<State>, steps: seq<Step>) returns (ss': seq<State>, steps': seq<Step>)
    requires IsRun(ss, steps) && ss[|steps|].cancelled
    ensures IsRun(ss', steps') && steps <= steps' && AllGone(ss'[|steps'|])
    ensures ss'[|steps'|].enqueued == ss[|steps|].enqueued && |steps'| <= |steps| + Left(ss[|steps|])
    decreases Left(ss[|steps|])
  {
    var s := ss[|steps|];
    if AllGone(s) {
      ss', steps' := ss, steps;
    } else {
      var step := SomeWorkerCan(s);
      WorkersProgress(s, step);
      assert IsRun(ss + [Next(s, step)], steps + [step]);
      ss', steps' := CancelledDrains(ss + [Next(s, step)], steps + [step]);
    }
  }

  /** The queue takes as many payloads as its capacity says, whatever they are. */
  lemma {:induction false} QueueFills(ps: seq<payload>) returns (ss: seq<State>, steps: seq<Step>)
    requires |ps| <= 10000
    ensures IsRun(ss, steps) && ss[|steps|].queue == ps
    decreases |ps|
  {
    if ps == [] {
      ss, steps := [Begin(1)], [];
    } else {
      ss, steps := QueueFills(ps[..|ps| - 1]);
      var s, step := ss[|steps|], Enqueue(ps[|ps| - 1]);
      ss, steps := ss + [Next(s, step)], steps + [step];
    }
  }
}
