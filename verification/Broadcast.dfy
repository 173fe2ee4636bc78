/** One subscriber among others: every event is fanned out over the group list, and what reaches
    this subscriber's node goes through its queue, the wire and the client's decoder. */
module Broadcast {
  import opened Bytes
  import opened Subscribe
  import opened Groups
  import Fanout
  import Delivery

  /** History: what a fan-out owes the node; `listed` unless it began after the list had been
      replaced. */
  datatype Entry = Entry(listed: bool, gain: int)

  /** History: the loop of fan-out number `event` reached the node. */
  datatype Touch = Touch(event: nat, data: seq<byte>, matched: bool)

  datatype Hub = Hub(
    fan: Fanout.Cast,        // the latest fan-out, and the group list
    link: Delivery.Link,     // the node observed, its connection and its client
    table: text,             // the event fanned out
    data: seq<byte>,
    replaced: bool,          // the list has been replaced since the node connected
    ledger: seq<Entry>,      // one per fan-out begun; events are numbered from 1
    touches: seq<Touch>)

  datatype Step =
    | Begin(table: text, data: seq<byte>)  // sendAll is called and captures the list
    | Reach                                // its loop reads the next slot
    | Other(f: Fanout.Step)                // another connection comes or goes, the list is dropped
    | Talk(d: Delivery.Step)               // anything else on this connection

  predicate Idle(h: Hub) {
    |h.fan.handed| == h.fan.len
  }

  /** The next slot holds the node observed. */
  predicate Here(x: id, h: Hub) {
    |h.fan.handed| < |h.fan.slots| && h.fan.slots[|h.fan.handed|] == x
  }

  predicate Enabled(env: Delivery.Env, x: id, h: Hub, step: Step) {
    match step
    case Begin(_, _) => Idle(h) && h.fan.s.len <= |h.fan.s.backing|
    case Reach => Fanout.Enabled(h.fan, Fanout.Read)
                  && (Here(x, h) ==> Delivery.Enabled(env, h.link, Delivery.SendAll(h.table, h.data)))
    case Other(f) => !f.Read? && f != Fanout.Change(Gone(x)) && Fanout.Enabled(h.fan, f)
    case Talk(d) => !d.SendAll? && Delivery.Enabled(env, h.link, d) && Fanout.Enabled(h.fan, Fanout.Change(Gone(x)))
  }

  function Credit(ledger: seq<Entry>, g: int): (r: seq<Entry>) {
    if ledger == [] then [] else ledger[|ledger| - 1 := ledger[|ledger| - 1].(gain := ledger[|ledger| - 1].gain + g)]
  }

  /** A node that goes offline leaves the list. */
  function Next(env: Delivery.Env, x: id, h: Hub, step: Step): (h': Hub)
    requires Enabled(env, x, h, step)
  {
    match step
    case Begin(table, data) =>
      h.(fan := Fanout.Start(h.fan.s), table := table, data := data,
         ledger := h.ledger + [Entry(!h.replaced, 0)])
    case Reach =>
      var h' := h.(fan := Fanout.Next(h.fan, Fanout.Read));
      if Here(x, h) then Touched(env, h') else h'
    case Other(f) =>
      h.(fan := Fanout.Next(h.fan, f), replaced := h.replaced || f.Drop?,
         ledger := Credit(h.ledger, Fanout.Gain(h.fan, f, x)))
    case Talk(d) =>
      var l := Delivery.Next(env, h.link, d);
      var gone := Fanout.Change(Gone(x));
      h.(link := l, fan := if h.link.node.online && !l.node.online then Fanout.Next(h.fan, gone) else h.fan)
  }

  function Touched(env: Delivery.Env, h: Hub): (h': Hub)
    requires Delivery.Enabled(env, h.link, Delivery.SendAll(h.table, h.data))
  {
    h.(link := Delivery.Next(env, h.link, Delivery.SendAll(h.table, h.data)),
       touches := h.touches + if h.link.node.online
                              then [Touch(|h.ledger|, h.data, Matches(env.matcher, h.link.node.topics, h.table))]
                              else [])
  }

  ghost predicate Reached(env: Delivery.Env, l: Delivery.Link) {
    exists ls, steps :: Delivery.IsRun(env, ls, steps) && ls[|ls| - 1] == l
  }

  /** A run from any moment at which the node is connected and no fan-out is under way. */
  ghost predicate IsRun(env: Delivery.Env, x: id, hs: seq<Hub>, steps: seq<Step>) {
    && |hs| == |steps| + 1 && IsFirst(env, x, hs[0])
    && forall i :: 0 <= i < |steps| ==> Enabled(env, x, hs[i], steps[i]) && hs[i + 1] == Next(env, x, hs[i], steps[i])
  }

  ghost predicate IsFirst(env: Delivery.Env, x: id, h: Hub) {
    && Connected(h.fan.s, x) && h.fan == Fanout.Cast(h.fan.s, [], false, 0, [])
    && Reached(env, h.link) && h.link.node.online && !h.replaced && h.ledger == [] && h.touches == []
  }

  /** After some run of the connections the node is online, accepted since the last shutdown. */
  ghost predicate Connected(s: State, x: id) {
    exists past :: Possible(past) && s == Run(past) && x in Accepted(past) && x in s.online
  }

  lemma ConnectedIsListed(s: State, x: id)
    requires Connected(s, x)
    ensures Valid(s) && x in s.fired && x in Members(s)
  {
    hide Possible, Run, Accepted;
    var past :| Possible(past) && s == Run(past) && x in Accepted(past) && x in s.online;
    ConnectionAccounting(past);
    ListIsAccepted(past);
    KeptHas(Accepted(past), s.online, x);
  }

  // ---- reading the histories ----

  function Repeat(k: nat, n: nat): (r: seq<nat>) {
    seq(n, _ => k)
  }

  /** How often a fan-out reaches the node. */
  function Times(e: Entry): (n: nat) {
    if e.listed && e.gain >= -1 then 1 + e.gain else 0
  }

  /** The numbers of the events that reach the node, as the ledger has it. */
  function Owed(ledger: seq<Entry>): (r: seq<nat>) {
    if ledger == [] then [] else Owed(ledger[..|ledger| - 1]) + Repeat(|ledger|, Times(ledger[|ledger| - 1]))
  }

  function Numbers(ts: seq<Touch>): (r: seq<nat>) {
    if ts == [] then [] else Numbers(ts[..|ts| - 1]) + [ts[|ts| - 1].event]
  }

  /** The events whose table matched the node's topics when the loop reached it. */
  function Matched(ts: seq<Touch>): (r: seq<seq<byte>>) {
    if ts == [] then []
    else Matched(ts[..|ts| - 1]) + if ts[|ts| - 1].matched then [ts[|ts| - 1].data] else []
  }

  /** 1, 2, ..., n. */
  function UpTo(n: nat): (r: seq<nat>) {
    seq(n, i => i + 1)
  }

  lemma {:induction false} OwedBound(ledger: seq<Entry>)
    ensures forall k :: k in Owed(ledger) ==> k <= |ledger|
    decreases |ledger|
  {
    if ledger != [] { OwedBound(ledger[..|ledger| - 1]); }
  }

  /** Two lists below `n` with copies of `n` behind them are the same only part by part. */
  lemma SplitAtLast(a: seq<nat>, b: seq<nat>, n: nat, m: nat)
    requires (forall k :: k in a ==> k < n) && (forall k :: k in b ==> k < n)
    ensures a + Repeat(n, m) == b + [n] <==> a == b && m == 1
  {
    assert Repeat(n, 1) == [n];
    if a + Repeat(n, m) == b + [n] {
      CountLast(a, n, m);
      CountLast(b, n, 1);
      assert a == (a + Repeat(n, m))[..|b|] == b;
    }
  }

  /** Every event once and in order, exactly when each fan-out reaches the node once. */
  lemma {:induction false} OwedIsUpToIff(ledger: seq<Entry>)
    ensures Owed(ledger) == UpTo(|ledger|) <==> forall e :: e in ledger ==> Times(e) == 1
    decreases |ledger|
  {
    if ledger != [] {
      var n, front, last := |ledger|, ledger[..|ledger| - 1], ledger[|ledger| - 1];
      assert ledger == front + [last];
      OwedIsUpToIff(front);
      OwedBound(front);
      assert UpTo(n) == UpTo(n - 1) + [n];
      SplitAtLast(Owed(front), UpTo(n - 1), n, Times(last));
    }
  }

  lemma CountLast(s: seq<nat>, n: nat, m: nat)
    requires forall k :: k in s ==> k < n
    ensures multiset(s + Repeat(n, m))[n] == m
  {
    CountRepeat(n, m);
    assert n !in s;
  }

  lemma {:induction false} CountRepeat(n: nat, m: nat)
    ensures multiset(Repeat(n, m))[n] == m
    decreases m
  {
    if m > 0 {
      CountRepeat(n, m - 1);
      assert Repeat(n, m) == Repeat(n, m - 1) + [n];
    }
  }

  // ---- what every step keeps ----

  /** A node that is connected but no longer listed is nowhere in the loop's way. */
  ghost predicate Absent(c: Fanout.Cast, x: id) {
    && Fanout.Shaped(c) && x in c.s.fired && x !in c.handed
    && (forall k :: 0 <= k < c.s.len ==> c.s.backing[k] != x)
    && (forall k :: 0 <= k < c.len ==> c.slots[k] != x)
  }

  lemma AbsentStays(c: Fanout.Cast, f: Fanout.Step, x: id)
    requires Absent(c, x) && Fanout.Enabled(c, f)
    ensures Absent(Fanout.Next(c, f), x)
  {
    hide Valid, Groups.Next;
    match f {
      case Read =>
      case Change(g) =>
        Groups.NextKeeps(c.s, g);
        NothingBrings(c.s, g, c.len, x);
        assert Fanout.Next(c, f).handed == c.handed;
      case Drop => EmptyIsValid(c.s);
    }
  }

  lemma EmptyIsValid(s: State)
    requires Valid(s)
    ensures Valid(s.(backing := [], len := 0))
  {
  }

  /** A step of another node moves only other nodes about. */
  lemma NothingBrings(s: State, g: Groups.Step, len: nat, x: id)
    requires Valid(s) && Groups.Enabled(s, g) && !g.Shutdown? && x in s.fired
    requires forall k :: 0 <= k < s.len ==> s.backing[k] != x
    ensures var s' := Groups.Next(s, g);
            && x in s'.fired
            && (forall k :: 0 <= k < s'.len ==> s'.backing[k] != x)
            && (!Fanout.Moves(s, g) ==> |s'.backing| == |s.backing|)
            && (!Fanout.Moves(s, g) && len <= |s.backing| && (forall k :: 0 <= k < len ==> s.backing[k] != x)
                ==> forall k :: 0 <= k < len ==> s'.backing[k] != x)
  {
    match g {
      case Accept(n, spare) =>
      case Count =>
      case Gone(n) => ShiftBrings(s, n, len, x);
    }
  }

  lemma ShiftBrings(s: State, n: id, len: nat, x: id)
    requires s.len <= |s.backing| && forall k :: 0 <= k < s.len ==> s.backing[k] != x
    ensures var s' := Close(s, n);
            && (forall k :: 0 <= k < s'.len ==> s'.backing[k] != x)
            && (len <= |s.backing| && (forall k :: 0 <= k < len ==> s.backing[k] != x)
                ==> forall k :: 0 <= k < len ==> s'.backing[k] != x)
  {
  }

  lemma AbsentAccount(c: Fanout.Cast, x: id)
    requires Absent(c, x)
    ensures Fanout.Account(c, x) == 0
  {
    Fanout.CopiesNone(c.slots, |c.handed|, c.len, x);
  }

  /** The latest fan-out will have reached the node as often as its entry says. */
  ghost predicate Follows(c: Fanout.Cast, x: id, e: Entry) {
    if e.listed then Fanout.Tracked(c, x, 1 + e.gain) else Absent(c, x)
  }

  lemma FollowsOn(c: Fanout.Cast, f: Fanout.Step, x: id, e: Entry)
    requires Follows(c, x, e) && Fanout.Enabled(c, f)
    ensures Follows(Fanout.Next(c, f), x, e.(gain := e.gain + Fanout.Gain(c, f, x)))
  {
    hide Fanout.Tracked, Absent, Fanout.Gain, Fanout.Next;
    if e.listed { Fanout.StepBalances(c, f, x, 1 + e.gain); } else { AbsentStays(c, f, x); }
  }

  lemma FollowsStart(s: State, x: id, listed: bool)
    requires Valid(s) && x in s.fired && (x in s.online ==> (x in Members(s) <==> listed))
    ensures Follows(Fanout.Start(s), x, Entry(listed, 0))
  {
    if x in Members(s) {
      Fanout.StartTracked(s, x);
    } else {
      assert forall k :: 0 <= k < s.len ==> s.backing[k] == Members(s)[k];
    }
  }

  lemma FollowsAccount(c: Fanout.Cast, x: id, e: Entry)
    requires Follows(c, x, e) && x in c.s.online
    ensures Fanout.Shaped(c) && Fanout.Account(c, x) == Times(e)
  {
    if !e.listed { AbsentAccount(c, x); }
  }

  /** The touches are the ones owed for earlier events and what the latest fan-out has done. */
  ghost predicate Settled(h: Hub, x: id) {
    if h.ledger == [] then h.fan.len == 0 && h.touches == []
    else
      var n := |h.ledger|;
      Numbers(h.touches) == Owed(h.ledger[..n - 1]) + Repeat(n, multiset(h.fan.handed)[x])
  }

  ghost predicate FanOk(h: Hub, x: id) {
    && Fanout.Shaped(h.fan) && x in h.fan.s.fired
    && (x in h.fan.s.online ==> (x in Members(h.fan.s) <==> !h.replaced))
    && (h.ledger != [] ==> Follows(h.fan, x, h.ledger[|h.ledger| - 1]))
    && (x in h.fan.s.online ==> Settled(h, x))
  }

  ghost predicate LinkOk(h: Hub, from: seq<seq<byte>>) {
    Delivery.ServerOk(h.link) && Delivery.ClientOk(h.link) && h.link.offered == from + Matched(h.touches)
  }

  ghost predicate HubOk(h: Hub, x: id, from: seq<seq<byte>>) {
    FanOk(h, x) && LinkOk(h, from) && (h.link.node.online <==> x in h.fan.s.online)
  }

  lemma IdleOwes(h: Hub, x: id)
    requires FanOk(h, x) && x in h.fan.s.online && Idle(h)
    ensures Numbers(h.touches) == Owed(h.ledger)
  {
    if h.ledger != [] { FollowsAccount(h.fan, x, h.ledger[|h.ledger| - 1]); }
  }

  lemma BeginKeeps(env: Delivery.Env, x: id, h: Hub, step: Step)
    requires step.Begin? && Enabled(env, x, h, step) && FanOk(h, x)
    ensures FanOk(Next(env, x, h, step), x)
  {
    hide Follows, Owed, Numbers;
    var h' := Next(env, x, h, step);
    FollowsStart(h.fan.s, x, !h.replaced);
    assert h'.ledger[..|h'.ledger| - 1] == h.ledger;
    if x in h.fan.s.online {
      IdleOwes(h, x);
      assert Repeat(|h'.ledger|, 0) == [];
    }
  }

  lemma ReachKeeps(env: Delivery.Env, x: id, h: Hub)
    requires Enabled(env, x, h, Reach) && FanOk(h, x) && (h.link.node.online <==> x in h.fan.s.online)
    ensures FanOk(Next(env, x, h, Reach), x)
  {
    hide Follows, Owed, Delivery.Next, Matches;
    var h', n := Next(env, x, h, Reach), |h.ledger|;
    Fanout.ReadBalances(h.fan, x);
    if n > 0 {
      FollowsOn(h.fan, Fanout.Read, x, h.ledger[n - 1]);
      assert Fanout.Gain(h.fan, Fanout.Read, x) == 0;
      var k := multiset(h.fan.handed)[x];
      assert Repeat(n, k + 1) == Repeat(n, k) + [n];
    }
  }

  lemma OtherKeeps(env: Delivery.Env, x: id, h: Hub, f: Fanout.Step)
    requires Enabled(env, x, h, Other(f)) && FanOk(h, x)
    ensures FanOk(Next(env, x, h, Other(f)), x)
    ensures x in h.fan.s.online <==> x in Next(env, x, h, Other(f)).fan.s.online
  {
    hide Follows, Owed, Numbers, Fanout.Gain, Fanout.Next, Members;
    var h', n := Next(env, x, h, Other(f)), |h.ledger|;
    OtherFan(h.fan, f, x);
    if x in h.fan.s.online { OtherList(h.fan, f, x); }
    if n > 0 {
      FollowsOn(h.fan, f, x, h.ledger[n - 1]);
      assert h'.ledger[..n - 1] == h.ledger[..n - 1];
    }
  }

  lemma OtherFan(c: Fanout.Cast, f: Fanout.Step, x: id)
    requires Fanout.Shaped(c) && Fanout.Enabled(c, f) && x in c.s.fired && !f.Read?
    ensures var c' := Fanout.Next(c, f);
            && Fanout.Shaped(c') && x in c'.s.fired && c'.handed == c.handed && c'.len == c.len
            && (x in c'.s.online ==> x in c.s.online)
            && (f != Fanout.Change(Gone(x)) && x in c.s.online ==> x in c'.s.online)
            && (f == Fanout.Change(Gone(x)) ==> x !in c'.s.online)
  {
    if f.Change? { Groups.NextKeeps(c.s, f.g); }
  }

  /** Only the replacement of the list takes a node off it that stays online. */
  lemma OtherList(c: Fanout.Cast, f: Fanout.Step, x: id)
    requires Fanout.Shaped(c) && Fanout.Enabled(c, f) && x in c.s.online && x in c.s.fired
    requires !f.Read? && f != Fanout.Change(Gone(x))
    ensures var s' := Fanout.Next(c, f).s;
            s'.len <= |s'.backing| && (x in Members(s') <==> x in Members(c.s) && !f.Drop?)
  {
    hide Groups.Next, Valid;
    if f.Change? {
      assert c.s.len <= |c.s.backing| by { Fanout.ValidIsDistinct(c.s); }
      if x in Members(c.s) {
        var q :| 0 <= q < c.s.len && c.s.backing[q] == x;
        StaysListed(c.s, f.g, x, q);
      } else {
        assert forall k :: 0 <= k < c.s.len ==> c.s.backing[k] == Members(c.s)[k];
        NothingBrings(c.s, f.g, 0, x);
      }
    }
  }

  lemma StaysListed(s: State, g: Groups.Step, x: id, q: nat)
    requires Valid(s) && Groups.Enabled(s, g) && !g.Shutdown? && g != Gone(x) && x in s.fired
    requires q < s.len && s.backing[q] == x
    ensures x in Members(Groups.Next(s, g))
  {
    var s' := Groups.Next(s, g);
    match g {
      case Accept(n, spare) => assert s'.backing[q] == x;
      case Count => assert s'.backing[q] == x;
      case Gone(n) =>
        var r := IndexOf(s.backing, n, s.len);
        if n in s.online && r < s.len {
          Fanout.ShiftPlace(s.backing, r, s.len, q);
          assert Members(s')[if r < q then q - 1 else q] == x;
        } else {
          assert s'.backing[q] == x;
        }
    }
  }

  lemma TalkKeeps(env: Delivery.Env, x: id, h: Hub, d: Delivery.Step)
    requires Enabled(env, x, h, Talk(d)) && FanOk(h, x) && (h.link.node.online <==> x in h.fan.s.online)
    ensures var h' := Next(env, x, h, Talk(d)); FanOk(h', x) && (h'.link.node.online <==> x in h'.fan.s.online)
  {
    hide Follows, Owed, Numbers, Fanout.Next, Delivery.Next, Fanout.Gain;
    StaysOffline(env, h.link, d);
    var gone := Fanout.Change(Gone(x));
    if h.link.node.online && !Delivery.Next(env, h.link, d).node.online {
      OtherFan(h.fan, gone, x);
      if h.ledger != [] {
        var e := h.ledger[|h.ledger| - 1];
        FollowsOn(h.fan, gone, x, e);
        FollowsGone(Fanout.Next(h.fan, gone), x, e, Fanout.Gain(h.fan, gone, x));
      }
    }
  }

  lemma StaysOffline(env: Delivery.Env, l: Delivery.Link, d: Delivery.Step)
    requires Delivery.Enabled(env, l, d)
    ensures Delivery.Next(env, l, d).node.online ==> l.node.online
  {
  }

  /** Nothing is owed to a node that has left. */
  lemma FollowsGone(c: Fanout.Cast, x: id, e: Entry, g: int)
    requires Follows(c, x, e.(gain := e.gain + g)) && x !in c.s.online
    ensures Follows(c, x, e)
  {
  }

  lemma LinkKeeps(env: Delivery.Env, x: id, h: Hub, step: Step, from: seq<seq<byte>>)
    requires Enabled(env, x, h, step) && LinkOk(h, from)
    ensures LinkOk(Next(env, x, h, step), from)
  {
    hide Delivery.ServerOk, Delivery.ClientOk, Fanout.Next, Fanout.Gain;
    var h' := Next(env, x, h, step);
    match step {
      case Begin(_, _) =>
      case Other(_) =>
      case Talk(d) =>
        Delivery.NextKeeps(env, h.link, d);
        OfferedStays(env, h.link, d);
      case Reach =>
        if Here(x, h) { TouchKeeps(env, h.(fan := Fanout.Next(h.fan, Fanout.Read)), from); }
    }
  }

  lemma TouchKeeps(env: Delivery.Env, h: Hub, from: seq<seq<byte>>)
    requires Delivery.Enabled(env, h.link, Delivery.SendAll(h.table, h.data)) && LinkOk(h, from)
    ensures LinkOk(Touched(env, h), from)
  {
    hide Delivery.ServerOk, Delivery.ClientOk, Matches;
    var h' := Touched(env, h);
    Delivery.NextKeeps(env, h.link, Delivery.SendAll(h.table, h.data));
    if h.link.node.online {
      assert h'.touches[..|h.touches|] == h.touches;
      assert h'.link.offered == from + Matched(h'.touches);
    } else {
      assert h'.touches == h.touches;
    }
  }

  lemma OfferedStays(env: Delivery.Env, l: Delivery.Link, d: Delivery.Step)
    requires Delivery.Enabled(env, l, d) && !d.SendAll?
    ensures Delivery.Next(env, l, d).offered == l.offered
  {
  }

  lemma NextKeeps(env: Delivery.Env, x: id, h: Hub, step: Step, from: seq<seq<byte>>)
    requires Enabled(env, x, h, step) && HubOk(h, x, from)
    ensures HubOk(Next(env, x, h, step), x, from)
  {
    hide FanOk, LinkOk;
    LinkKeeps(env, x, h, step, from);
    match step {
      case Begin(_, _) => BeginKeeps(env, x, h, step);
      case Reach => ReachKeeps(env, x, h);
      case Other(f) => OtherKeeps(env, x, h, f);
      case Talk(d) => TalkKeeps(env, x, h, d);
    }
  }

  lemma FirstOk(env: Delivery.Env, x: id, h: Hub)
    requires IsFirst(env, x, h)
    ensures HubOk(h, x, h.link.offered)
  {
    hide Connected, Reached, Delivery.ServerOk, Delivery.ClientOk, Valid, Members;
    ConnectedIsListed(h.fan.s, x);
    ConnectedIsOnline(h.fan.s, x);
    ReachedIsOk(env, h.link);
  }

  lemma ConnectedIsOnline(s: State, x: id)
    requires Connected(s, x)
    ensures x in s.online
  {
  }

  lemma ReachedIsOk(env: Delivery.Env, l: Delivery.Link)
    requires Reached(env, l)
    ensures Delivery.ServerOk(l) && Delivery.ClientOk(l)
  {
    hide Delivery.Next, Delivery.Enabled, Delivery.ServerOk, Delivery.ClientOk;
    var ls, steps :| Delivery.IsRun(env, ls, steps) && ls[|ls| - 1] == l;
    Delivery.RunKeeps(env, ls, steps, |ls| - 1);
  }

  lemma {:induction false} RunKeeps(env: Delivery.Env, x: id, hs: seq<Hub>, steps: seq<Step>, i: nat)
    requires IsRun(env, x, hs, steps) && i < |hs|
    ensures HubOk(hs[i], x, hs[0].link.offered)
    decreases i
  {
    hide HubOk, IsFirst, Next, Enabled;
    if i == 0 {
      FirstOk(env, x, hs[0]);
    } else {
      RunKeeps(env, x, hs, steps, i - 1);
      assert hs[i - 1 + 1] == Next(env, x, hs[i - 1], steps[i - 1]);
      NextKeeps(env, x, hs[i - 1], steps[i - 1], hs[0].link.offered);
    }
  }

  // ---- the histories, from the steps ----

  /** For each fan-out begun, whether the list had not been replaced before. */
  function Begun(steps: seq<Step>): (r: seq<bool>) {
    if steps == [] then []
    else
      var front := steps[..|steps| - 1];
      Begun(front) + if steps[|steps| - 1].Begin? then [Other(Fanout.Drop) !in front] else []
  }

  /** The ledger has one entry per fan-out begun, listed unless the list had been replaced. */
  lemma {:induction false} LedgerIs(env: Delivery.Env, x: id, hs: seq<Hub>, steps: seq<Step>, i: nat)
    requires IsRun(env, x, hs, steps) && i < |hs|
    ensures hs[i].replaced <==> Other(Fanout.Drop) in steps[..i]
    ensures var b := Begun(steps[..i]);
            |hs[i].ledger| == |b| && forall k :: 0 <= k < |b| ==> hs[i].ledger[k].listed == b[k]
    decreases i
  {
    hide Next, Enabled, Connected, Reached;
    if i > 0 {
      LedgerIs(env, x, hs, steps, i - 1);
      assert steps[..i] == steps[..i - 1] + [steps[i - 1]];
      assert steps[..i][..i - 1] == steps[..i - 1];
      LedgerStep(env, x, hs[i - 1], steps[i - 1]);
      assert hs[i - 1 + 1] == Next(env, x, hs[i - 1], steps[i - 1]);
    }
  }

  lemma LedgerStep(env: Delivery.Env, x: id, h: Hub, step: Step)
    requires Enabled(env, x, h, step)
    ensures var h' := Next(env, x, h, step);
            && (h'.replaced <==> h.replaced || step == Other(Fanout.Drop))
            && |h'.ledger| == |h.ledger| + (if step.Begin? then 1 else 0)
            && (forall k :: 0 <= k < |h.ledger| ==> h'.ledger[k].listed == h.ledger[k].listed)
            && (step.Begin? ==> h'.ledger[|h.ledger|].listed == !h.replaced)
  {
    hide Fanout.Next, Fanout.Gain, Delivery.Next;
  }

  // ---- the results ----

  /** Over every run, between two fan-outs: the events that reached a node still connected are
      those of the ledger, each as often as it was listed, doubled, skipped and overwritten; so
      each event reached it exactly once, in order, if and only if the list was not replaced
      before any of them and the gains of each fan-out add up to nothing. */
  lemma EveryEventReachesOnceIff(env: Delivery.Env, x: id, hs: seq<Hub>, steps: seq<Step>, i: nat)
    requires IsRun(env, x, hs, steps) && i < |hs| && hs[i].link.node.online && Idle(hs[i])
    ensures Numbers(hs[i].touches) == Owed(hs[i].ledger)
    ensures Numbers(hs[i].touches) == UpTo(|hs[i].ledger|) <==> forall e :: e in hs[i].ledger ==> e == Entry(true, 0)
  {
    hide Enabled, Next, IsFirst, Owed, Numbers, UpTo, FanOk, LinkOk;
    RunKeeps(env, x, hs, steps, i);
    IdleOwes(hs[i], x);
    OwedIsUpToIff(hs[i].ledger);
    assert forall e: Entry :: Times(e) == 1 <==> e == Entry(true, 0);
  }

  /** And at every moment the client has a prefix, in order, of the events among these that
      matched the node's topics when they reached it, and all of them once everything queued is
      flushed and read. */
  lemma ReachedEventsArrive(env: Delivery.Env, x: id, hs: seq<Hub>, steps: seq<Step>, i: nat)
    requires IsRun(env, x, hs, steps) && i < |hs|
    ensures Delivery.Arrives(hs[i].link, hs[0].link.offered + Matched(hs[i].touches))
  {
    hide Enabled, Next, IsFirst, FanOk, Delivery.ServerOk, Delivery.ClientOk, Delivery.Arrives;
    RunKeeps(env, x, hs, steps, i);
    Delivery.EndsMeet(hs[i].link);
  }
}
