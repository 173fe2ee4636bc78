/** One subscriber connection end to end: SendAll on the server, the node's send queue, the
    bytes on the wire, and the client's decoder. */
module Delivery {
  import opened Bytes
  import opened Frames
  import opened Decoder
  import opened Subscribe

  const MAX_SEND_QUEUE := 10000

  /** Regular-expression matching and lower-casing are library code: any functions. */
  datatype Env = Env(matcher: (text, text) -> bool, lower: text -> text)

  datatype Link = Link(
    node: Node,               // server side; `written` lists every frame given to the socket
    bytes: seq<byte>,         // what the socket accepted
    read: nat,                // how much of it the client has read
    client: Conn,
    offered: seq<seq<byte>>)  // history: events that matched this node's topics when it was reached

  const CONNECTED := Link(NEW_NODE, [], 0, FRESH, [])

  datatype Step =
    | SendAll(table: text, data: seq<byte>)  // the loop of sendAll reaches this node
    | Keepalive
    | Receive(m: Msg)     // a handled frame from the client: subscribe, ping, tick
    | Refuse(text: text)  // an unsupported command from the client is answered with an error
    | Flush               // the send service writes the head of the queue
    | WriteFails(n: nat)  // it writes only n bytes of it and closes the node
    | Close
    | ClientReads(n: nat)

  /** `asyncSend` waits for room in the queue, unless the node is offline. */
  predicate Room(l: Link) {
    l.node.online ==> |l.node.queue| < MAX_SEND_QUEUE
  }

  predicate Enabled(env: Env, l: Link, s: Step) {
    match s
    case SendAll(table, data) => (Matches(env.matcher, l.node.topics, table) ==> Room(l)) && |data| + 2 < 0x1_0000_0000
    case Keepalive => Room(l)
    case Receive(m) => Acceptable(SUBSCRIBE, m) && (m.cmd == CMD_TICK ==> Room(l))
    case Refuse(t) => Room(l) && |t| + 2 < 0x1_0000_0000
    case Flush => l.node.online && l.node.queue != []
    case WriteFails(n) =>
      && l.node.online && l.node.queue != []
      && n <= |Frame(l.node.queue[0].cmd, l.node.queue[0].content)|
    case Close => true
    case ClientReads(n) => l.read + n <= |l.bytes|
  }

  function Pop(n: Node): (r: Node)
    requires n.queue != []
  {
    n.(queue := n.queue[1..], written := n.written + [n.queue[0]])
  }

  function Next(env: Env, l: Link, s: Step): (r: Link)
    requires Enabled(env, l, s)
  {
    match s
    case SendAll(table, data) =>
      if l.node.online && Matches(env.matcher, l.node.topics, table)
      then l.(node := Enqueue(l.node, Msg(CMD_EVENT, data)), offered := l.offered + [data])
      else l
    case Keepalive => l.(node := Enqueue(l.node, Msg(CMD_TICK, OK)))
    case Receive(m) =>
      var n := Handle(env.lower, l.node, m);
      l.(node := n, bytes := if n.written == l.node.written then l.bytes else l.bytes + Frame(CMD_SET_PRO, OK))
    case Refuse(t) => l.(node := Enqueue(l.node, Msg(CMD_ERROR, t)))
    case Flush =>
      var head := l.node.queue[0];
      l.(node := Pop(l.node), bytes := l.bytes + Frame(head.cmd, head.content))
    case WriteFails(n) =>
      var head := l.node.queue[0];
      l.(node := Pop(l.node).(online := false), bytes := l.bytes + Frame(head.cmd, head.content)[..n])
    case Close => l.(node := l.node.(online := false))
    case ClientReads(n) =>
      l.(read := l.read + n, client := Read(CLIENT, l.client, l.bytes[l.read..l.read + n]))
  }

  ghost predicate IsRun(env: Env, ls: seq<Link>, steps: seq<Step>) {
    && |ls| == |steps| + 1 && ls[0] == CONNECTED
    && forall i :: 0 <= i < |steps| ==> Enabled(env, ls[i], steps[i]) && ls[i + 1] == Next(env, ls[i], steps[i])
  }

  /** The event payloads among the messages. */
  function Events(ms: seq<Msg>): (r: seq<seq<byte>>) {
    if ms == [] then []
    else Events(ms[..|ms| - 1]) + (if ms[|ms| - 1].cmd == CMD_EVENT then [ms[|ms| - 1].content] else [])
  }

  lemma {:induction false} EventsAppend(a: seq<Msg>, b: seq<Msg>)
    ensures Events(a + b) == Events(a) + Events(b)
    decreases |b|
  {
    if b == [] {
      assert a + b == a;
    } else {
      EventsAppend(a, b[..|b| - 1]);
      assert (a + b)[..|a + b| - 1] == a + b[..|b| - 1];
    }
  }

  lemma EventsOne(ms: seq<Msg>, m: Msg)
    ensures Events(ms + [m]) == Events(ms) + if m.cmd == CMD_EVENT then [m.content] else []
  {
  }

  lemma EventsPrefix(a: seq<Msg>, b: seq<Msg>)
    requires a <= b
    ensures Events(a) <= Events(b)
  {
    EventsAppend(a, b[|a|..]);
    assert b == a + b[|a|..];
  }

  // ---- what every step keeps ----

  ghost predicate Sendable(ms: seq<Msg>) {
    forall m :: m in ms ==> Acceptable(CLIENT, m)
  }

  ghost predicate ServerOk(l: Link) {
    && Sendable(l.node.written) && Sendable(l.node.queue)
    && l.bytes <= Encode(l.node.written)
    && Events(l.node.written) <= l.offered
    && (l.node.online ==> l.bytes == Encode(l.node.written)
                          && Events(l.node.written) + Events(l.node.queue) == l.offered)
  }

  ghost predicate ClientOk(l: Link) {
    l.read <= |l.bytes| && l.client == Read(CLIENT, FRESH, l.bytes[..l.read])
  }

  lemma ClientKeepsUp(l: Link, n: nat)
    requires ServerOk(l) && ClientOk(l) && l.read + n <= |l.bytes|
    ensures Read(CLIENT, l.client, l.bytes[l.read..l.read + n]) == Read(CLIENT, FRESH, l.bytes[..l.read + n])
  {
    hide Decode, Encode, Events;
    var u := l.bytes[..l.read + n];
    DecodeOfEncode(CLIENT, l.node.written, u);
    NeverRejected(CLIENT, u);
    assert u == l.bytes[..l.read] + l.bytes[l.read..l.read + n];
    OneMoreRead(CLIENT, l.bytes[..l.read], l.bytes[l.read..l.read + n], u);
  }

  lemma EnqueueKeeps(l: Link, m: Msg)
    requires ServerOk(l) && Acceptable(CLIENT, m)
    ensures ServerOk(l.(node := Enqueue(l.node, m),
                        offered := if l.node.online && m.cmd == CMD_EVENT then l.offered + [m.content] else l.offered))
  {
  }

  lemma PopKeeps(l: Link, n: nat)
    requires ServerOk(l) && l.node.online && l.node.queue != []
    requires n <= |Frame(l.node.queue[0].cmd, l.node.queue[0].content)|
    ensures var f := Frame(l.node.queue[0].cmd, l.node.queue[0].content);
            && ServerOk(l.(node := Pop(l.node), bytes := l.bytes + f))
            && ServerOk(l.(node := Pop(l.node).(online := false), bytes := l.bytes + f[..n]))
  {
    hide Encode, Events, Frame;
    var q, w := l.node.queue, l.node.written;
    EncodeSnoc(w, q[0]);
    assert q == [q[0]] + q[1..];
    EventsAppend([q[0]], q[1..]);
    EventsAppend(w, [q[0]]);
    assert (Events(w) + Events([q[0]])) + Events(q[1..]) == Events(w) + (Events([q[0]]) + Events(q[1..]));
  }

  lemma AckKeeps(l: Link)
    requires ServerOk(l)
    ensures var n := Ack(l.node);
            ServerOk(l.(node := n, bytes := if n.written == l.node.written then l.bytes
                                            else l.bytes + Frame(CMD_SET_PRO, OK)))
  {
    hide Encode, Events, Frame;
    var m := Msg(CMD_SET_PRO, OK);
    EncodeSnoc(l.node.written, m);
    EventsOne(l.node.written, m);
    assert Events(l.node.written) + [] == Events(l.node.written);
    assert l.node.written + [m] != l.node.written;
  }

  lemma ReceiveKeeps(env: Env, l: Link, m: Msg)
    requires ServerOk(l) && Enabled(env, l, Receive(m))
    ensures ServerOk(Next(env, l, Receive(m)))
  {
    hide Encode, Events, Frame;
    AckKeeps(l);
    if m.cmd == CMD_TICK { EnqueueKeeps(l, Msg(CMD_TICK, OK)); }
  }

  lemma NextKeeps(env: Env, l: Link, s: Step)
    requires Enabled(env, l, s) && ServerOk(l) && ClientOk(l)
    ensures ServerOk(Next(env, l, s)) && ClientOk(Next(env, l, s))
  {
    hide Encode, Events, Frame, Decode, Read;
    match s {
      case SendAll(table, data) => EnqueueKeeps(l, Msg(CMD_EVENT, data));
      case Keepalive => EnqueueKeeps(l, Msg(CMD_TICK, OK));
      case Receive(m) => ReceiveKeeps(env, l, m);
      case Refuse(t) => EnqueueKeeps(l, Msg(CMD_ERROR, t));
      case Flush => PopKeeps(l, 0);
      case WriteFails(n) => PopKeeps(l, n);
      case Close =>
      case ClientReads(n) => ClientKeepsUp(l, n);
    }
    assert l.read <= |l.bytes| && Next(env, l, s).bytes[..l.read] == l.bytes[..l.read];
  }

  lemma {:induction false} RunKeeps(env: Env, ls: seq<Link>, steps: seq<Step>, i: nat)
    requires IsRun(env, ls, steps) && i < |ls|
    ensures ServerOk(ls[i]) && ClientOk(ls[i])
    decreases i
  {
    hide Next, Read;
    if i == 0 {
      StartOk();
    } else {
      RunKeeps(env, ls, steps, i - 1);
      NextKeeps(env, ls[i - 1], steps[i - 1]);
    }
  }

  lemma StartOk()
    ensures ServerOk(CONNECTED) && ClientOk(CONNECTED)
  {
  }

  // ---- the result ----

  /** In every run, however ticks, acknowledgements and errors interleave with events and
      however the bytes are cut into reads, the client has handed its callbacks a prefix, in
      order, of the events that matched the node's topics when the fan-out reached it; and all
      of them once the queue is flushed and the bytes are read. */
  lemma EndToEnd(env: Env, ls: seq<Link>, steps: seq<Step>, i: nat)
    requires IsRun(env, ls, steps) && i < |ls|
    ensures Arrives(ls[i], ls[i].offered)
  {
    hide ServerOk, ClientOk, Arrives;
    RunKeeps(env, ls, steps, i);
    EndsMeet(ls[i]);
  }

  /** The client has a prefix of `events`, and all of them once everything is flushed and read. */
  predicate Arrives(l: Link, events: seq<seq<byte>>) {
    && !l.client.dead
    && Events(l.client.frames) <= events
    && (l.node.online && l.node.queue == [] && l.read == |l.bytes|
        ==> Events(l.client.frames) == events && l.client.buf == [])
  }

  lemma EndsMeet(l: Link)
    requires ServerOk(l) && ClientOk(l)
    ensures Arrives(l, l.offered)
  {
    hide Decode, Encode;
    var u := l.bytes[..l.read];
    DecodeOfEncode(CLIENT, l.node.written, u);
    ReadFresh(CLIENT, u);
    EventsPrefix(l.client.frames, l.node.written);
  }

  // ---- how long a node stays online ----

  /** A close, a failed write, a ping or an unknown flag ends the connection. */
  predicate Ends(s: Step) {
    || s.Close? || s.WriteFails?
    || (s.Receive? && s.m.cmd == 0 && s.m.content != [] && s.m.content[0] != 0)
  }

  /** In every run a node is online exactly until the first such step. */
  lemma {:induction false} OnlineUntil(env: Env, ls: seq<Link>, steps: seq<Step>, i: nat)
    requires IsRun(env, ls, steps) && i < |ls|
    ensures ls[i].node.online <==> forall k :: 0 <= k < i ==> !Ends(steps[k])
    decreases i
  {
    hide Next, Enabled, Ends;
    if i > 0 {
      OnlineUntil(env, ls, steps, i - 1);
      assert ls[i - 1 + 1] == Next(env, ls[i - 1], steps[i - 1]);
      EndsStep(env, ls[i - 1], steps[i - 1]);
    }
  }

  lemma EndsStep(env: Env, l: Link, s: Step)
    requires Enabled(env, l, s)
    ensures Next(env, l, s).node.online <==> l.node.online && !Ends(s)
  {
    hide Frame, Read, Add, ServerNorm, Matches;
  }

  // ---- what is queued and acknowledged ----

  /** What a step puts into the queue of a node that is online. */
  function Adds(env: Env, l: Link, s: Step): (ms: seq<Msg>) {
    if !l.node.online then []
    else
      match s
      case SendAll(table, data) =>
        if l.node.topics == [] || exists t :: t in l.node.topics && env.matcher(t, table) then [Msg(4, data)] else []
      case Keepalive => [Msg(3, OK)]
      case Receive(m) => if m.cmd == 3 then [Msg(3, OK)] else []
      case Refuse(t) => [Msg(2, t)]
      case _ => []
  }

  /** How often a step acknowledges: once for a subscription or a ping. */
  function Acknowledges(l: Link, s: Step): (n: nat) {
    if s.Receive? && l.node.online && s.m.cmd == 0 && s.m.content != [] && s.m.content[0] <= 1 then 1 else 0
  }

  function Queued(env: Env, ls: seq<Link>, steps: seq<Step>, i: nat): (ms: seq<Msg>)
    requires i <= |steps| <= |ls|
  {
    if i == 0 then [] else Queued(env, ls, steps, i - 1) + Adds(env, ls[i - 1], steps[i - 1])
  }

  function Acknowledged(ls: seq<Link>, steps: seq<Step>, i: nat): (n: nat)
    requires i <= |steps| <= |ls|
  {
    if i == 0 then 0 else Acknowledged(ls, steps, i - 1) + Acknowledges(ls[i - 1], steps[i - 1])
  }

  /** The messages that are not acknowledgements, and how many are. */
  function Replies(ms: seq<Msg>): (r: seq<Msg>) {
    if ms == [] then []
    else Replies(ms[..|ms| - 1]) + if ms[|ms| - 1].cmd == 0 then [] else [ms[|ms| - 1]]
  }

  function AckCount(ms: seq<Msg>): (n: nat) {
    if ms == [] then 0 else AckCount(ms[..|ms| - 1]) + if ms[|ms| - 1].cmd == 0 then 1 else 0
  }

  ghost predicate QueueOk(n: Node, queued: seq<Msg>, acks: nat) {
    && Replies(n.written) + n.queue == queued && AckCount(n.written) == acks
    && forall m :: m in n.queue ==> m.cmd != 0
  }

  lemma AppendedOne(ms: seq<Msg>, m: Msg)
    ensures Replies(ms + [m]) == Replies(ms) + (if m.cmd == 0 then [] else [m])
    ensures AckCount(ms + [m]) == AckCount(ms) + if m.cmd == 0 then 1 else 0
  {
    assert (ms + [m])[..|ms|] == ms;
  }

  lemma EnqueueAdds(n: Node, m: Msg, queued: seq<Msg>, acks: nat)
    requires QueueOk(n, queued, acks) && m.cmd != 0
    ensures QueueOk(Enqueue(n, m), queued + (if n.online then [m] else []), acks)
  {
    hide Replies, AckCount;
    assert Replies(n.written) + (n.queue + [m]) == (Replies(n.written) + n.queue) + [m];
    assert queued + [] == queued;
  }

  lemma AckAdds(n: Node, queued: seq<Msg>, acks: nat)
    requires QueueOk(n, queued, acks)
    ensures QueueOk(Ack(n), queued, acks + if n.online then 1 else 0)
  {
    hide Replies, AckCount;
    AppendedOne(n.written, Msg(CMD_SET_PRO, OK));
    assert Replies(n.written) + [] == Replies(n.written);
  }

  lemma PopMoves(n: Node, queued: seq<Msg>, acks: nat)
    requires QueueOk(n, queued, acks) && n.queue != []
    ensures QueueOk(Pop(n), queued, acks)
  {
    hide Replies, AckCount;
    AppendedOne(n.written, n.queue[0]);
    assert n.queue[0] in n.queue;
    assert (Replies(n.written) + [n.queue[0]]) + n.queue[1..] == Replies(n.written) + n.queue;
  }

  lemma ReceiveAdds(env: Env, l: Link, m: Msg, queued: seq<Msg>, acks: nat)
    requires Enabled(env, l, Receive(m)) && QueueOk(l.node, queued, acks)
    ensures QueueOk(Next(env, l, Receive(m)).node, queued + Adds(env, l, Receive(m)), acks + Acknowledges(l, Receive(m)))
  {
    hide Replies, AckCount, Frame, Add, ServerNorm;
    assert queued + [] == queued;
    AckAdds(l.node, queued, acks);
    if m.cmd == CMD_TICK { EnqueueAdds(l.node, Msg(CMD_TICK, OK), queued, acks); }
  }

  lemma QueueStep(env: Env, l: Link, s: Step, queued: seq<Msg>, acks: nat)
    requires Enabled(env, l, s) && QueueOk(l.node, queued, acks)
    ensures QueueOk(Next(env, l, s).node, queued + Adds(env, l, s), acks + Acknowledges(l, s))
  {
    hide Frame, Read, QueueOk, Handle, Enqueue;
    assert queued + [] == queued;
    match s {
      case SendAll(table, data) => SendAllAdds(env, l, table, data, queued, acks);
      case Keepalive => EnqueueAdds(l.node, Msg(CMD_TICK, OK), queued, acks);
      case Refuse(t) => EnqueueAdds(l.node, Msg(CMD_ERROR, t), queued, acks);
      case Receive(m) => ReceiveAdds(env, l, m, queued, acks);
      case Flush => PopMoves(l.node, queued, acks);
      case WriteFails(_) => PopFails(l.node, queued, acks);
      case Close => OfflineSame(l.node, queued, acks);
      case ClientReads(_) =>
    }
  }

  lemma OfflineSame(n: Node, queued: seq<Msg>, acks: nat)
    requires QueueOk(n, queued, acks)
    ensures QueueOk(n.(online := false), queued, acks)
  {
  }

  lemma PopFails(n: Node, queued: seq<Msg>, acks: nat)
    requires QueueOk(n, queued, acks) && n.queue != []
    ensures QueueOk(Pop(n).(online := false), queued, acks)
  {
    hide QueueOk;
    PopMoves(n, queued, acks);
    OfflineSame(Pop(n), queued, acks);
  }

  lemma SendAllAdds(env: Env, l: Link, table: text, data: seq<byte>, queued: seq<Msg>, acks: nat)
    requires Enabled(env, l, SendAll(table, data)) && QueueOk(l.node, queued, acks)
    ensures QueueOk(Next(env, l, SendAll(table, data)).node, queued + Adds(env, l, SendAll(table, data)), acks)
  {
    hide QueueOk, Matches;
    assert queued + [] == queued;
    var topics := l.node.topics;
    TopicsAreAlternatives(env.matcher, topics, table);
    assert Matches(env.matcher, topics, table) <==> topics == [] || exists t :: t in topics && env.matcher(t, table);
    EnqueueAdds(l.node, Msg(CMD_EVENT, data), queued, acks);
  }

  /** In every run what the node has written and still holds is exactly what was queued while it
      was online, in order: events of matching tables, a tick for each tick and each keepalive,
      an error for each refused command; and between them one acknowledgement for each
      subscription and each ping. */
  lemma {:induction false} QueuedInOrder(env: Env, ls: seq<Link>, steps: seq<Step>, i: nat)
    requires IsRun(env, ls, steps) && i < |ls|
    ensures Replies(ls[i].node.written) + ls[i].node.queue == Queued(env, ls, steps, i)
    ensures AckCount(ls[i].node.written) == Acknowledged(ls, steps, i)
    ensures forall m :: m in ls[i].node.queue ==> m.cmd != 0
    decreases i
  {
    hide Next, Enabled, Adds, Acknowledges, Replies, AckCount;
    if i == 0 {
      NothingQueued();
    } else {
      QueuedInOrder(env, ls, steps, i - 1);
      assert ls[i - 1 + 1] == Next(env, ls[i - 1], steps[i - 1]);
      QueueStep(env, ls[i - 1], steps[i - 1], Queued(env, ls, steps, i - 1), Acknowledged(ls, steps, i - 1));
    }
  }

  lemma NothingQueued()
    ensures Replies([]) == [] && AckCount([]) == 0
  {
  }

  /** The client keeps its buffer when it reconnects, so the next connection's messages come
      through and leave nothing behind exactly when the previous one left nothing behind. */
  lemma ReconnectNeedsEmptyBuffer(leftover: seq<byte>, fs: seq<Msg>)
    requires Sendable(fs)
    ensures Decode(CLIENT, leftover + Encode(fs)) == Parse(fs, Waiting([])) <==> leftover == []
  {
    var u := leftover + Encode(fs);
    DecodeConserves(CLIENT, u);
    if leftover == [] {
      assert u == Encode(fs);
      DecodeOfEncode(CLIENT, fs, u);
    } else {
      assert |Encode(fs) + []| < |u|;
    }
  }

  /** As every step that queues waits for room, the send queue never outgrows its capacity. */
  lemma {:induction false} QueueIsBounded(env: Env, ls: seq<Link>, steps: seq<Step>, i: nat)
    requires IsRun(env, ls, steps) && i < |ls|
    ensures |ls[i].node.queue| <= MAX_SEND_QUEUE
    decreases i
  {
    if i > 0 {
      QueueIsBounded(env, ls, steps, i - 1);
      assert ls[i - 1 + 1] == Next(env, ls[i - 1], steps[i - 1]);
    }
  }
}
