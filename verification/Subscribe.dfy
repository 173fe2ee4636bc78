/** Subscription: topics on both ends of a connection, and the table filter. */
module Subscribe {
  import opened Bytes
  import opened Frames
  import opened Decoder

  type text = seq<byte>

  const SPACE: byte := 32
  const OK: seq<byte> := [111, 107]
  const FLAG_SET_PRO: byte := 0
  const FLAG_PING: byte := 1

  // ---- the table filter ----

  /** A node with no topics receives everything; else some topic must match the table.
      `matcher` stands for a regular expression that compiles and matches. */
  predicate Matches(matcher: (text, text) -> bool, filters: seq<text>, table: text) {
    filters == [] || exists i :: 0 <= i < |filters| && matcher(filters[i], table)
  }

  /** `service.MatchFilters`. */
  method MatchFilters(matcher: (text, text) -> bool, filters: seq<text>, table: text) returns (r: bool)
    ensures r <==> Matches(matcher, filters, table)
    ensures filters == [] ==> r
    ensures filters != [] ==> (r <==> exists f :: f in filters && matcher(f, table))
  {
    if |filters| <= 0 { return true; }
    for i := 0 to |filters|
      invariant forall j :: 0 <= j < i ==> !matcher(filters[j], table)
    {
      if matcher(filters[i], table) { return true; }
    }
    return false;
  }

  /** A node without topics gets every table; one with topics gets a table exactly when it
      would get it for one of them alone. */
  lemma TopicsAreAlternatives(matcher: (text, text) -> bool, filters: seq<text>, table: text)
    ensures filters == [] ==> Matches(matcher, filters, table)
    ensures filters != [] ==>
              (Matches(matcher, filters, table) <==> exists f :: f in filters && Matches(matcher, [f], table))
    ensures forall f :: Matches(matcher, [f], table) <==> matcher(f, table)
  {
    forall f
      ensures Matches(matcher, [f], table) <==> matcher(f, table)
    {
      if matcher(f, table) { assert matcher([f][0], table); }
    }
    if filters != [] {
      if Matches(matcher, filters, table) {
        var i :| 0 <= i < |filters| && matcher(filters[i], table);
        assert filters[i] in filters && Matches(matcher, [filters[i]], table);
      }
      if f :| f in filters && Matches(matcher, [f], table) {
        var i :| 0 <= i < |filters| && filters[i] == f;
        assert matcher(filters[i], table);
      }
    }
  }

  // ---- ordered collections without duplicates ----

  /** Normalise and add at the end unless already there. */
  function Add(norm: text -> text, topics: seq<text>, t: text): (r: seq<text>) {
    if norm(t) in topics then topics else topics + [norm(t)]
  }

  function AddAll(norm: text -> text, topics: seq<text>, ts: seq<text>): (r: seq<text>) {
    if ts == [] then topics
    else Add(norm, AddAll(norm, topics, ts[..|ts| - 1]), ts[|ts| - 1])
  }

  /** The first occurrence of every element, in order. */
  function Firsts(s: seq<text>): (r: seq<text>)
    ensures forall x :: x in r <==> x in s
    ensures forall i, j :: 0 <= i < j < |r| ==> r[i] != r[j]
  {
    if s == [] then []
    else
      var front, last := s[..|s| - 1], s[|s| - 1];
      assert s == front + [last];
      if last in front then Firsts(front) else Firsts(front) + [last]
  }

  /** First occurrences stay in their order: what comes first in `s` comes first in the result. */
  lemma {:induction false} FirstsKeepOrder(s: seq<text>, i: nat, j: nat)
    requires i < j < |s| && s[i] !in s[..i] && s[j] !in s[..j]
    ensures exists a, b :: 0 <= a < b < |Firsts(s)| && Firsts(s)[a] == s[i] && Firsts(s)[b] == s[j]
    decreases |s|
  {
    var front, r := s[..|s| - 1], Firsts(s);
    if j < |s| - 1 {
      assert front[..i] == s[..i] && front[..j] == s[..j];
      FirstsKeepOrder(front, i, j);
      var a, b :| 0 <= a < b < |Firsts(front)| && Firsts(front)[a] == s[i] && Firsts(front)[b] == s[j];
      assert r[a] == s[i] && r[b] == s[j];
    } else {
      assert s[..j] == front;
      assert front[i] in Firsts(front);
      var a :| 0 <= a < |Firsts(front)| && Firsts(front)[a] == s[i];
      assert r[a] == s[i] && r[|r| - 1] == s[j];
    }
  }

  function Mapped(norm: text -> text, ts: seq<text>): (r: seq<text>)
    ensures |r| == |ts| && forall i :: 0 <= i < |ts| ==> r[i] == norm(ts[i])
  {
    seq(|ts|, i requires 0 <= i < |ts| => norm(ts[i]))
  }

  lemma AddAllSnoc(norm: text -> text, topics: seq<text>, ts: seq<text>, t: text)
    ensures AddAll(norm, topics, ts + [t]) == Add(norm, AddAll(norm, topics, ts), t)
  {
    assert (ts + [t])[..|ts|] == ts;
  }

  lemma {:induction false} AddAllIsFirsts(norm: text -> text, ts: seq<text>)
    ensures AddAll(norm, [], ts) == Firsts(Mapped(norm, ts))
    decreases |ts|
  {
    if ts != [] {
      var front := ts[..|ts| - 1];
      AddAllIsFirsts(norm, front);
      assert Mapped(norm, ts)[..|ts| - 1] == Mapped(norm, front);
    }
  }

  lemma {:induction false} AddAllAgain(norm: text -> text, topics: seq<text>, ts: seq<text>)
    requires forall t :: t in ts ==> norm(t) in topics
    ensures AddAll(norm, topics, ts) == topics
    decreases |ts|
  {
    if ts != [] {
      AddAllAgain(norm, topics, ts[..|ts| - 1]);
    }
  }

  lemma {:induction false} AddAllAppend(norm: text -> text, topics: seq<text>, a: seq<text>, b: seq<text>)
    ensures AddAll(norm, topics, a + b) == AddAll(norm, AddAll(norm, topics, a), b)
    decreases |b|
  {
    if b == [] {
      assert a + b == a;
    } else {
      AddAllAppend(norm, topics, a, b[..|b| - 1]);
      assert (a + b)[..|a + b| - 1] == a + b[..|b| - 1];
    }
  }

  // ---- the server's side ----

  function TrimLeft(t: text): (r: text) {
    if t != [] && t[0] == SPACE then TrimLeft(t[1..]) else t
  }

  function TrimRight(t: text): (r: text) {
    if t != [] && t[|t| - 1] == SPACE then TrimRight(t[..|t| - 1]) else t
  }

  /** `strings.ToLower(strings.Trim(topic, " "))`, for any lower-casing function. */
  function ServerNorm(lower: text -> text): (norm: text -> text) {
    t => lower(TrimRight(TrimLeft(t)))
  }

  function Spaces(n: nat): (r: text) {
    seq(n, _ => SPACE)
  }

  /** `t` is `u` with spaces around it, and `u` has none at its ends. */
  ghost predicate IsCore(t: text, u: text) {
    && (exists i: nat, j: nat :: t == Spaces(i) + u + Spaces(j))
    && (u != [] ==> u[0] != SPACE && u[|u| - 1] != SPACE)
  }

  lemma {:induction false} TrimLeftOf(i: nat, v: text)
    ensures TrimLeft(Spaces(i) + v) == TrimLeft(v)
    decreases i
  {
    if i == 0 {
      assert Spaces(0) + v == v;
    } else {
      TrimLeftOf(i - 1, v);
      assert (Spaces(i) + v)[1..] == Spaces(i - 1) + v;
    }
  }

  lemma {:induction false} TrimRightOf(v: text, j: nat)
    ensures TrimRight(v + Spaces(j)) == TrimRight(v)
    decreases j
  {
    if j == 0 {
      assert v + Spaces(0) == v;
    } else {
      TrimRightOf(v, j - 1);
      assert (v + Spaces(j))[..|v| + j - 1] == v + Spaces(j - 1);
    }
  }

  /** The server keeps `lower(u)` for every topic that is `u` with spaces around it. */
  lemma NormOfCore(lower: text -> text, t: text, u: text)
    requires IsCore(t, u)
    ensures ServerNorm(lower)(t) == lower(u)
  {
    var i: nat, j: nat :| t == Spaces(i) + u + Spaces(j);
    assert t == Spaces(i) + (u + Spaces(j));
    TrimLeftOf(i, u + Spaces(j));
    if u == [] {
      var none: text := [];
      assert t == Spaces(i + j) + none;
      TrimLeftOf(i + j, none);
      assert TrimRight(none) == none;
    } else {
      assert (u + Spaces(j))[0] == u[0];
      TrimRightOf(u, j);
    }
  }

  /** Every topic is such a one. */
  lemma CoreExists(t: text)
    ensures exists u :: IsCore(t, u)
  {
    var i, v := LeftSpaces(t);
    var u, j := RightSpaces(v);
    assert t == Spaces(i) + u + Spaces(j) by { assert Spaces(i) + (u + Spaces(j)) == Spaces(i) + u + Spaces(j); }
    if u != [] { assert v[0] == u[0]; }
    assert IsCore(t, u);
  }

  lemma {:induction false} LeftSpaces(t: text) returns (i: nat, v: text)
    ensures t == Spaces(i) + v && (v != [] ==> v[0] != SPACE)
    decreases |t|
  {
    if t != [] && t[0] == SPACE {
      i, v := LeftSpaces(t[1..]);
      assert t == [SPACE] + t[1..] == Spaces(i + 1) + v;
      i := i + 1;
    } else {
      i, v := 0, t;
      assert t == Spaces(0) + t;
    }
  }

  lemma {:induction false} RightSpaces(t: text) returns (v: text, j: nat)
    ensures t == v + Spaces(j) && (v != [] ==> v[|v| - 1] != SPACE)
    decreases |t|
  {
    if t != [] && t[|t| - 1] == SPACE {
      v, j := RightSpaces(t[..|t| - 1]);
      assert t == t[..|t| - 1] + [SPACE] == v + Spaces(j + 1);
      j := j + 1;
    } else {
      v, j := t, 0;
      assert t == t + Spaces(0);
    }
  }

  /** And only in one way. */
  lemma CoreIsUnique(t: text, u: text, v: text)
    requires IsCore(t, u) && IsCore(t, v)
    ensures u == v
  {
    NormOfCore(x => x, t, u);
    NormOfCore(x => x, t, v);
  }

  /** Two requests that differ only in outer spaces leave one topic. */
  lemma OuterSpacesMerge(lower: text -> text, topics: seq<text>, t: text, t': text, u: text)
    requires IsCore(t, u) && IsCore(t', u)
    ensures var once := Add(ServerNorm(lower), topics, t);
            Add(ServerNorm(lower), once, t') == once && lower(u) in once
  {
    NormOfCore(lower, t, u);
    NormOfCore(lower, t', u);
  }

  ghost predicate AreCores(ts: seq<text>, us: seq<text>) {
    |us| == |ts| && forall i :: 0 <= i < |ts| ==> IsCore(ts[i], us[i])
  }

  lemma {:induction false} CoresExist(ts: seq<text>) returns (us: seq<text>)
    ensures AreCores(ts, us)
    decreases |ts|
  {
    us := [];
    if ts != [] {
      us := CoresExist(ts[..|ts| - 1]);
      CoreExists(ts[|ts| - 1]);
      var u :| IsCore(ts[|ts| - 1], u);
      us := us + [u];
    }
  }

  lemma MappedCores(lower: text -> text, ts: seq<text>, us: seq<text>)
    requires AreCores(ts, us)
    ensures Mapped(ServerNorm(lower), ts) == Mapped(lower, us)
  {
    hide IsCore, ServerNorm;
    forall i | 0 <= i < |ts|
      ensures Mapped(ServerNorm(lower), ts)[i] == Mapped(lower, us)[i]
    {
      NormOfCore(lower, ts[i], us[i]);
    }
  }

  /** The Go client keeps topics as they are. */
  function ClientNorm(): (norm: text -> text) {
    t => t
  }

  /** A node of the subscribe service; `written` lists the frames put on the connection. */
  datatype Node = Node(topics: seq<text>, online: bool, queue: seq<Msg>, written: seq<Msg>)

  const NEW_NODE := Node([], true, [], [])

  function Ack(n: Node): (r: Node) {
    if n.online then n.(written := n.written + [Msg(CMD_SET_PRO, OK)]) else n
  }

  function Enqueue(n: Node, m: Msg): (r: Node) {
    if n.online then n.(queue := n.queue + [m]) else n
  }

  /** What a handled message does to the node. */
  function Handle(lower: text -> text, n: Node, m: Msg): (r: Node)
    requires Acceptable(SUBSCRIBE, m)
  {
    if m.cmd == CMD_TICK then Enqueue(n, Msg(CMD_TICK, OK))
    else if m.content[0] == FLAG_SET_PRO then
      Ack(n).(topics := Add(ServerNorm(lower), n.topics, m.content[1..]))
    else if m.content[0] == FLAG_PING then Ack(n).(online := false)
    else n.(online := false)
  }

  function HandleAll(lower: text -> text, n: Node, ms: seq<Msg>): (r: Node)
    requires forall m :: m in ms ==> Acceptable(SUBSCRIBE, m)
  {
    if ms == [] then n
    else Handle(lower, HandleAll(lower, n, ms[..|ms| - 1]), ms[|ms| - 1])
  }

  class ServerNode {
    var topics: seq<text>
    var online: bool
    var sendQueue: seq<Msg>
    var written: seq<Msg>

    ghost function View(): (n: Node)
      reads this
    {
      Node(topics, online, sendQueue, written)
    }

    constructor ()
      ensures View() == NEW_NODE
    {
      topics, online, sendQueue, written := [], true, [], [];
    }

    /** `addTopic`. */
    method AddTopic(lower: text -> text, t: text)
      modifies this`topics
      ensures topics == Add(ServerNorm(lower), old(topics), t)
      ensures forall u :: IsCore(t, u) ==>
                topics == old(topics) + if lower(u) in old(topics) then [] else [lower(u)]
    {
      hide IsCore, ServerNorm;
      forall u | IsCore(t, u)
        ensures ServerNorm(lower)(t) == lower(u)
      {
        NormOfCore(lower, t, u);
      }
      var topic := ServerNorm(lower)(t);
      for i := 0 to |topics|
        invariant topics == old(topics)
        invariant forall j :: 0 <= j < i ==> topics[j] != topic
      {
        if topics[i] == topic { return; }
      }
      topics := topics + [topic];
    }

    /** `asyncSend`. */
    method AsyncSend(m: Msg)
      modifies this`sendQueue
      ensures View() == Enqueue(old(View()), m)
    {
      if !online { return; }
      sendQueue := sendQueue + [m];
    }

    /** The switch of `onMessage` and `onSetProEvent`. */
    method OnFrame(lower: text -> text, m: Msg)
      requires Acceptable(SUBSCRIBE, m)
      modifies this
      ensures View() == Handle(lower, old(View()), m)
      ensures m.cmd == CMD_TICK ==>
                && View() == old(View()).(queue := sendQueue)
                && sendQueue == old(sendQueue) + if old(online) then [Msg(CMD_TICK, OK)] else []
      ensures m.cmd == CMD_SET_PRO ==>
                var flag := m.content[0];
                && sendQueue == old(sendQueue)
                && written == old(written) + (if flag <= 1 && old(online) then [Msg(CMD_SET_PRO, OK)] else [])
                && online == (flag == 0 && old(online))
                && (if flag == 0 then forall u :: IsCore(m.content[1..], u) ==>
                      topics == old(topics) + if lower(u) in old(topics) then [] else [lower(u)]
                    else topics == old(topics))
    {
      hide IsCore, ServerNorm;
      if m.cmd == CMD_TICK {
        AsyncSend(Msg(CMD_TICK, OK));
        return;
      }
      var flag := m.content[0];
      if flag == FLAG_SET_PRO || flag == FLAG_PING {
        if online { written := written + [Msg(CMD_SET_PRO, OK)]; }
      }
      if flag == FLAG_SET_PRO {
        AddTopic(lower, m.content[1..]);
      } else {
        online := false;
      }
    }
  }

  // ---- the client's side ----

  function SetPro(t: text): (m: Msg) {
    Msg(CMD_SET_PRO, [FLAG_SET_PRO] + t)
  }

  /** What the client writes for a list of topics. */
  function SetProBytes(ts: seq<text>): (r: seq<byte>) {
    if ts == [] then []
    else SetProBytes(ts[..|ts| - 1]) + ClientFrame(CMD_SET_PRO, [FLAG_SET_PRO] + ts[|ts| - 1])
  }

  lemma SetProBytesSnoc(ts: seq<text>, t: text)
    ensures SetProBytes(ts + [t]) == SetProBytes(ts) + ClientFrame(CMD_SET_PRO, [0] + t)
  {
    assert (ts + [t])[..|ts|] == ts;
    assert [FLAG_SET_PRO] + t == [0] + t;
  }

  class Client {
    var topics: seq<text>
    var connected: bool
    var wire: seq<byte>

    /** `Subscribe`: remember and send each topic not yet remembered. */
    method Subscribe(ts: seq<text>) returns (ghost added: seq<text>)
      modifies this`topics, this`wire
      ensures !connected ==> added == []
      ensures connected ==> topics == AddAll(ClientNorm(), old(topics), ts)
      ensures topics == old(topics) + added && wire == old(wire) + SetProBytes(added)
    {
      hide ClientFrame;
      added := [];
      if !connected { return; }
      for k := 0 to |ts|
        invariant topics == AddAll(ClientNorm(), old(topics), ts[..k])
        invariant topics == old(topics) + added && wire == old(wire) + SetProBytes(added)
      {
        assert ts[..k + 1] == ts[..k] + [ts[k]];
        AddAllSnoc(ClientNorm(), old(topics), ts[..k], ts[k]);
        var found := Remembered(ts[k]);
        if !found {
          SetProBytesSnoc(added, ts[k]);
          topics, added := topics + [ts[k]], added + [ts[k]];
          Send(ts[k]);
        }
      }
      assert ts[..|ts|] == ts;
    }

    method Send(t: text)
      modifies this`wire
      ensures wire == old(wire) + ClientFrame(CMD_SET_PRO, [0] + t)
    {
      var bytes := ClientSetPro(t);
      wire := wire + bytes;
    }

    method Remembered(t: text) returns (found: bool)
      ensures found <==> t in topics
    {
      for i := 0 to |topics|
        invariant forall j :: 0 <= j < i ==> topics[j] != t
      {
        if topics[i] == t { return true; }
      }
      return false;
    }

    /** The replay at the end of `connect`: every remembered topic, on the new connection. */
    method Reconnect()
      modifies this`connected, this`wire
      ensures connected && wire == SetProBytes(topics)
    {
      connected, wire := true, [];
      for k := 0 to |topics|
        invariant wire == SetProBytes(topics[..k])
        invariant connected
      {
        Send(topics[k]);
        assert topics[..k + 1] == topics[..k] + [topics[k]];
        SetProBytesSnoc(topics[..k], topics[k]);
      }
      assert topics[..|topics|] == topics;
    }
  }

  // ---- replay ----

  function SetPros(ts: seq<text>): (ms: seq<Msg>)
    ensures |ms| == |ts| && forall i :: 0 <= i < |ts| ==> ms[i] == SetPro(ts[i])
  {
    seq(|ts|, i requires 0 <= i < |ts| => SetPro(ts[i]))
  }

  predicate Short(ts: seq<text>) {
    forall t :: t in ts ==> |t| + 3 < 0x100_0000
  }

  lemma {:induction false} SetProBytesEncode(ts: seq<text>)
    requires Short(ts)
    ensures SetProBytes(ts) == Encode(SetPros(ts))
    ensures forall m :: m in SetPros(ts) ==> Acceptable(SUBSCRIBE, m)
    decreases |ts|
  {
    hide ClientFrame, Frame;
    if ts != [] {
      var front, t := ts[..|ts| - 1], ts[|ts| - 1];
      SetProBytesEncode(front);
      SetProIsAFrame(t);
      assert SetPros(ts) == SetPros(front) + [SetPro(t)];
      EncodeSnoc(SetPros(front), SetPro(t));
    }
  }

  lemma SetProIsAFrame(t: text)
    requires |t| + 3 < 0x100_0000
    ensures var m := SetPro(t);
            Acceptable(SUBSCRIBE, m) && ClientFrame(CMD_SET_PRO, [FLAG_SET_PRO] + t) == Frame(m.cmd, m.content)
  {
    ClientEncodersRefinePack(CMD_SET_PRO, SetPro(t).content);
  }

  lemma {:induction false} EncodeSnoc(ms: seq<Msg>, m: Msg)
    ensures Encode(ms + [m]) == Encode(ms) + Frame(m.cmd, m.content)
    decreases |ms|
  {
    hide Frame;
    if ms == [] {
      assert [m] == [m] + [];
      EncodeCons(m, []);
      assert ms + [m] == [m];
    } else {
      EncodeSnoc(ms[1..], m);
      assert (ms + [m])[1..] == ms[1..] + [m];
    }
  }

  lemma {:induction false} HandleSetPros(lower: text -> text, n: Node, ts: seq<text>)
    requires forall m :: m in SetPros(ts) ==> Acceptable(SUBSCRIBE, m)
    ensures HandleAll(lower, n, SetPros(ts)).topics == AddAll(ServerNorm(lower), n.topics, ts)
    decreases |ts|
  {
    if ts != [] {
      var front, t := ts[..|ts| - 1], ts[|ts| - 1];
      assert SetPros(ts)[..|ts| - 1] == SetPros(front);
      assert forall m :: m in SetPros(front) ==> m in SetPros(ts);
      HandleSetPros(lower, n, front);
      assert SetPro(t).content[1..] == t;
    }
  }

  /** After any Subscribe calls and a reconnect, whatever way the bytes are cut, a fresh server
      node holds the client's topics without their outer spaces and lower-cased, each once, in
      first-occurrence order; sending the whole list once more changes nothing. */
  lemma TopicReplay(lower: text -> text, calls: seq<seq<text>>, chunks: seq<seq<byte>>)
    requires Short(Subscribed(calls)) && Flatten(chunks) == SetProBytes(Subscribed(calls))
    ensures var c := Reads(SUBSCRIBE, chunks);
            && !c.dead && c.buf == []
            && (forall m :: m in c.frames ==> Acceptable(SUBSCRIBE, m))
            && var n := HandleAll(lower, NEW_NODE, c.frames);
               && (exists us :: AreCores(Subscribed(calls), us))
               && (forall us :: AreCores(Subscribed(calls), us) ==> n.topics == Firsts(Mapped(lower, us)))
               && HandleAll(lower, n, c.frames).topics == n.topics
  {
    hide Decode, Reads, Encode, HandleAll, AddAll, SetProBytes, Flatten, ServerNorm, Subscribed, AreCores;
    var ts := Subscribed(calls);
    var ms, norm := SetPros(ts), ServerNorm(lower);
    SetProBytesEncode(ts);
    DecodeOfEncode(SUBSCRIBE, ms, Encode(ms));
    ByteConservation(SUBSCRIBE, chunks);
    NeverRejected(SUBSCRIBE, Flatten(chunks));
    ReadsAsOne(SUBSCRIBE, chunks, Flatten(chunks));
    ReadFresh(SUBSCRIBE, Flatten(chunks));
    HandleSetPros(lower, NEW_NODE, ts);
    AddAllIsFirsts(norm, ts);
    var n := HandleAll(lower, NEW_NODE, ms);
    HandleSetPros(lower, n, ts);
    forall t | t in ts
      ensures norm(t) in n.topics
    {
      var i :| 0 <= i < |ts| && ts[i] == t;
      assert Mapped(norm, ts)[i] == norm(t);
    }
    AddAllAgain(norm, n.topics, ts);
    var some := CoresExist(ts);
    forall us | AreCores(ts, us)
      ensures n.topics == Firsts(Mapped(lower, us))
    {
      MappedCores(lower, ts, us);
    }
  }

  /** The client's own list after a sequence of Subscribe calls. */
  function Subscribed(calls: seq<seq<text>>): (r: seq<text>) {
    if calls == [] then []
    else AddAll(ClientNorm(), Subscribed(calls[..|calls| - 1]), calls[|calls| - 1])
  }

  function Concat(calls: seq<seq<text>>): (r: seq<text>) {
    if calls == [] then [] else Concat(calls[..|calls| - 1]) + calls[|calls| - 1]
  }

  /** It depends only on the topics named, not on how they were grouped into calls. */
  lemma {:induction false} SubscribedIsFirsts(calls: seq<seq<text>>)
    ensures Subscribed(calls) == Firsts(Concat(calls))
    decreases |calls|
  {
    SubscribedIsAddAll(calls);
    AddAllIsFirsts(ClientNorm(), Concat(calls));
    assert Mapped(ClientNorm(), Concat(calls)) == Concat(calls);
  }

  lemma {:induction false} SubscribedIsAddAll(calls: seq<seq<text>>)
    ensures Subscribed(calls) == AddAll(ClientNorm(), [], Concat(calls))
    decreases |calls|
  {
    if calls != [] {
      var front := calls[..|calls| - 1];
      SubscribedIsAddAll(front);
      AddAllAppend(ClientNorm(), [], Concat(front), calls[|calls| - 1]);
    }
  }
}
