/** The streaming frame decoders: one loop, run by the subscribe server, the control server
    and the Go client, each with its own set of commands. */
module Decoder {
  import opened Bytes
  import opened Frames

  datatype Msg = Msg(cmd: nat, content: seq<byte>)

  /** What tells the three decoders apart. */
  datatype Policy = Policy(
    known: set<nat>,   // hasCmd
    handled: set<nat>, // the cases of the switch; a known command outside them is refused too
    eager: bool,       // hasCmd is asked before the whole frame has arrived
    flagged: bool)     // a CMD_SET_PRO payload starts with a flag byte

  const SUBSCRIBE := Policy({0, 1, 2, 3, 4, 5, 6, 7, 8, 9}, {CMD_SET_PRO, CMD_TICK}, false, true)
  const CONTROL := Policy({0, 1, 2, 3, 4}, {1, 2, 3, 4}, false, false)
  const CLIENT := Policy({0, 1, 2, 3, 4, 5, 6, 7, 8, 9}, {0, 1, 2, 3, 4, 5, 6, 7, 8, 9}, true, false)

  datatype End =
    | Waiting(rest: seq<byte>) // an incomplete frame stays in the buffer
    | Rejected(cmd: nat)       // the whole buffer is thrown away
    | Panicked                 // a slice or index out of range

  datatype Parse = Parse(frames: seq<Msg>, end: End)

  function Prepend(fs: seq<Msg>, p: Parse): (r: Parse) {
    Parse(fs + p.frames, p.end)
  }

  lemma PrependTwice(fs: seq<Msg>, m: Msg, p: Parse)
    ensures Prepend(fs, Prepend([m], p)) == Prepend(fs + [m], p)
  {
  }

  /** What one pass of the loop finds at the front of the buffer. */
  datatype Head = Incomplete | Refused(cmd: nat) | OutOfBounds | Whole(msg: Msg, size: nat)

  function Front(p: Policy, buf: seq<byte>): (h: Head)
    ensures h.Whole? ==> 6 <= h.size <= |buf|
  {
    if |buf| < 6 then Incomplete
    else
      var clen, cmd := FromLe(buf[..4]), FromLe(buf[4..6]);
      if p.eager && cmd !in p.known then Refused(cmd)
      else if |buf| < clen + 4 then Incomplete
      else if cmd !in p.known then Refused(cmd)
      else if clen < 2 then OutOfBounds
      else if cmd !in p.handled then Refused(cmd)
      else if p.flagged && cmd == CMD_SET_PRO && clen == 2 then OutOfBounds
      else Whole(Msg(cmd, buf[6..clen + 4]), clen + 4)
  }

  /** Parsing a buffer from the front until it waits, rejects or panics. */
  function Decode(p: Policy, buf: seq<byte>): (r: Parse)
    decreases |buf|
  {
    match Front(p, buf)
    case Incomplete => Parse([], Waiting(buf))
    case Refused(cmd) => Parse([], Rejected(cmd))
    case OutOfBounds => Parse([], Panicked)
    case Whole(m, size) => Prepend([m], Decode(p, buf[size..]))
  }

  /** One end of a connection: the messages handled so far and the receive buffer. */
  datatype Conn = Conn(frames: seq<Msg>, buf: seq<byte>, dead: bool)

  const FRESH := Conn([], [], false)

  /** `onMessage`: one read of arbitrary length. */
  function Read(p: Policy, c: Conn, chunk: seq<byte>): (r: Conn) {
    if c.dead then c
    else
      var d := Decode(p, c.buf + chunk);
      Conn(c.frames + d.frames, if d.end.Waiting? then d.end.rest else [], d.end.Panicked?)
  }

  /** A whole connection, as the list of reads the stream was cut into. */
  function Reads(p: Policy, chunks: seq<seq<byte>>): (r: Conn) {
    if chunks == [] then FRESH
    else Read(p, Reads(p, chunks[..|chunks| - 1]), chunks[|chunks| - 1])
  }

  function Flatten(chunks: seq<seq<byte>>): (r: seq<byte>) {
    if chunks == [] then [] else Flatten(chunks[..|chunks| - 1]) + chunks[|chunks| - 1]
  }

  function Encode(fs: seq<Msg>): (r: seq<byte>) {
    if fs == [] then [] else Frame(fs[0].cmd, fs[0].content) + Encode(fs[1..])
  }

  // ---- chunk independence ----

  /** More bytes cannot change what a complete front already shows. */
  lemma FrontStays(p: Policy, a: seq<byte>, b: seq<byte>)
    requires !Front(p, a).Incomplete?
    ensures Front(p, a + b) == Front(p, a)
  {
    var ab := a + b;
    var clen := FromLe(a[..4]);
    assert ab[..4] == a[..4] && ab[4..6] == a[4..6];
    if 2 <= clen && clen + 4 <= |a| {
      assert ab[6..clen + 4] == a[6..clen + 4];
    }
  }

  /** While the decoder only waits, more bytes continue where it stopped. */
  lemma {:induction false} DecodeContinues(p: Policy, a: seq<byte>, b: seq<byte>)
    requires Decode(p, a).end.Waiting?
    ensures Decode(p, a + b) == Prepend(Decode(p, a).frames, Decode(p, Decode(p, a).end.rest + b))
    decreases |a|
  {
    hide Front;
    var h := Front(p, a);
    if h.Whole? {
      FrontStays(p, a, b);
      DecodeContinues(p, a[h.size..], b);
      assert (a + b)[h.size..] == a[h.size..] + b;
    }
  }

  /** Once it has rejected or panicked, later bytes of the same read change nothing. */
  lemma {:induction false} DecodeStops(p: Policy, a: seq<byte>, b: seq<byte>)
    requires !Decode(p, a).end.Waiting?
    ensures Decode(p, a + b) == Decode(p, a)
    decreases |a|
  {
    hide Front;
    var h := Front(p, a);
    FrontStays(p, a, b);
    if h.Whole? {
      DecodeStops(p, a[h.size..], b);
      assert (a + b)[h.size..] == a[h.size..] + b;
    }
  }

  /** Some read before the last byte of the stream would already throw the buffer away. */
  predicate RejectedEarly(p: Policy, stream: seq<byte>) {
    stream != [] && Decode(p, stream[..|stream| - 1]).end.Rejected?
  }

  /** Every cut of a stream handles the same messages and leaves the same buffer, exactly when
      no proper prefix of the stream is rejected: bytes of the same read as a rejected frame
      are lost, bytes of a later read are not. */
  lemma ChunkIndependence(p: Policy, stream: seq<byte>)
    ensures (forall chunks :: Flatten(chunks) == stream ==> Reads(p, chunks) == Read(p, FRESH, stream))
       <==> !RejectedEarly(p, stream)
  {
    if RejectedEarly(p, stream) {
      CutBeforeLastByte(p, stream);
    } else {
      forall chunks | Flatten(chunks) == stream
        ensures Reads(p, chunks) == Read(p, FRESH, stream)
      {
        ReadsAsOne(p, chunks, stream);
      }
    }
  }

  /** The cut that shows the difference: everything but the last byte, then the last byte. */
  lemma CutBeforeLastByte(p: Policy, stream: seq<byte>)
    requires RejectedEarly(p, stream)
    ensures exists chunks :: Flatten(chunks) == stream && Reads(p, chunks) != Read(p, FRESH, stream)
  {
    var n := |stream| - 1;
    var a, b := stream[..n], stream[n..];
    var chunks := [a, b];
    assert chunks[..1] == [a];
    assert Flatten([a]) == Flatten([]) + a == a;
    assert Flatten(chunks) == a + b == stream;
    DecodeStops(p, a, b);
    assert Reads(p, [a]) == Read(p, FRESH, a) by { assert [] + a == a; }
    assert Reads(p, [a]).buf == [];
    assert Reads(p, chunks).buf == b by { assert [] + b == b; }
    assert Read(p, FRESH, stream).buf == [] by { assert [] + stream == stream; }
  }

  lemma {:induction false} ReadsAsOne(p: Policy, chunks: seq<seq<byte>>, stream: seq<byte>)
    requires Flatten(chunks) <= stream && !RejectedEarly(p, stream)
    ensures Reads(p, chunks) == Read(p, FRESH, Flatten(chunks))
    decreases |chunks|
  {
    if chunks != [] {
      var front, b := chunks[..|chunks| - 1], chunks[|chunks| - 1];
      ReadsAsOne(p, front, stream);
      OneMoreRead(p, Flatten(front), b, stream);
    }
  }

  lemma OneMoreRead(p: Policy, a: seq<byte>, b: seq<byte>, stream: seq<byte>)
    requires a + b <= stream && !RejectedEarly(p, stream)
    ensures Read(p, Read(p, FRESH, a), b) == Read(p, FRESH, a + b)
  {
    ReadFresh(p, a);
    ReadFresh(p, a + b);
    var d := Decode(p, a);
    if d.end.Waiting? {
      DecodeContinues(p, a, b);
    } else {
      DecodeStops(p, a, b);
      if d.end.Rejected? {
        RejectedOnlyAtTheEnd(p, a, stream);
        assert b == [] && Decode(p, [] + b) == Parse([], Waiting([]));
        assert d.frames + [] == d.frames;
      }
    }
  }

  lemma ReadFresh(p: Policy, a: seq<byte>)
    ensures var d := Decode(p, a);
            Read(p, FRESH, a) == Conn(d.frames, if d.end.Waiting? then d.end.rest else [], d.end.Panicked?)
  {
    assert [] + a == a;
    assert [] + Decode(p, a).frames == Decode(p, a).frames;
  }

  lemma RejectedOnlyAtTheEnd(p: Policy, a: seq<byte>, stream: seq<byte>)
    requires a <= stream && Decode(p, a).end.Rejected? && !RejectedEarly(p, stream)
    ensures a == stream
  {
    if |a| < |stream| {
      var u := stream[..|stream| - 1];
      assert u == a + u[|a|..];
      DecodeStops(p, a, u[|a|..]);
    }
  }

  // ---- conservation of bytes ----

  /** Packing the handled messages again and appending the leftover gives the buffer back. */
  lemma {:induction false} DecodeConserves(p: Policy, buf: seq<byte>)
    ensures Encode(Decode(p, buf).frames) <= buf
    ensures Decode(p, buf).end.Waiting? ==> Encode(Decode(p, buf).frames) + Decode(p, buf).end.rest == buf
    decreases |buf|
  {
    var h := Front(p, buf);
    if h.Whole? {
      var tail := Decode(p, buf[h.size..]);
      DecodeConserves(p, buf[h.size..]);
      FrontConserves(p, buf);
      EncodeCons(h.msg, tail.frames);
      SplitConserves(buf, h.size, Encode(tail.frames));
    }
  }

  lemma EncodeCons(m: Msg, fs: seq<Msg>)
    ensures Encode([m] + fs) == Frame(m.cmd, m.content) + Encode(fs)
  {
  }

  lemma SplitConserves(buf: seq<byte>, n: nat, e: seq<byte>)
    requires n <= |buf| && e <= buf[n..]
    ensures buf[..n] + e <= buf
    ensures forall rest :: e + rest == buf[n..] ==> (buf[..n] + e) + rest == buf
  {
  }

  lemma FrontConserves(p: Policy, buf: seq<byte>)
    requires Front(p, buf).Whole?
    ensures var h := Front(p, buf);
            buf[..h.size] == Frame(h.msg.cmd, h.msg.content)
  {
    var h := Front(p, buf);
    assert Unpack(buf) == Content(h.msg.cmd, h.msg.content);
    PackOfUnpack(buf);
  }

  lemma NeverRejected(p: Policy, stream: seq<byte>)
    requires Decode(p, stream).end.Waiting?
    ensures !RejectedEarly(p, stream)
  {
    if stream != [] {
      var a, b := stream[..|stream| - 1], stream[|stream| - 1..];
      assert stream == a + b;
      if Decode(p, a).end.Rejected? {
        DecodeStops(p, a, b);
      }
    }
  }

  /** Over a whole connection: no byte is lost, invented or reordered, however it was cut. */
  lemma ByteConservation(p: Policy, chunks: seq<seq<byte>>)
    requires Decode(p, Flatten(chunks)).end.Waiting?
    ensures var c := Reads(p, chunks);
            !c.dead && Encode(c.frames) + c.buf == Flatten(chunks)
  {
    var s := Flatten(chunks);
    NeverRejected(p, s);
    ReadsAsOne(p, chunks, s);
    DecodeConserves(p, s);
    ReadFresh(p, s);
  }

  // ---- decoding what was encoded ----

  /** Frames a peer may send so that the decoder handles every one of them. */
  predicate Acceptable(p: Policy, m: Msg) {
    && m.cmd in p.known && m.cmd in p.handled && m.cmd < 0x1_0000
    && |m.content| + 2 < 0x1_0000_0000
    && (p.flagged && m.cmd == CMD_SET_PRO ==> m.content != [])
  }

  lemma FrontOfFrame(p: Policy, m: Msg, u: seq<byte>, rest: seq<byte>)
    requires Acceptable(p, m) && u <= Frame(m.cmd, m.content) + rest
    ensures |Frame(m.cmd, m.content)| == |m.content| + 6
    ensures Front(p, u) == if |u| < |m.content| + 6 then Incomplete else Whole(m, |m.content| + 6)
  {
    hide FromLe, Le;
    var all := Frame(m.cmd, m.content) + rest;
    HeaderOfFrame(m.cmd, m.content, rest);
    if |u| >= 6 {
      assert u[..4] == all[..4] && u[4..6] == all[4..6];
    }
    if |u| >= |m.content| + 6 {
      assert u[6..|m.content| + 6] == m.content;
    }
  }

  lemma DecodeNothing(p: Policy)
    ensures Decode(p, []) == Parse([], Waiting([]))
  {
  }

  // ---- which commands each decoder takes ----

  /** Bytes with the length field `l` and the command `cmd`, whatever follows. */
  function Headed(l: nat, cmd: nat, rest: seq<byte>): (r: seq<byte>) {
    Le(l, 4) + Le(cmd, 2) + rest
  }

  lemma FrontOfHeaded(p: Policy, l: nat, cmd: nat, rest: seq<byte>)
    requires l < 0x1_0000_0000 && cmd < 0x1_0000
    ensures |Headed(l, cmd, rest)| == |rest| + 6
    ensures FromLe(Headed(l, cmd, rest)[..4]) == l && FromLe(Headed(l, cmd, rest)[4..6]) == cmd
  {
    hide Le, FromLe, Pow256;
    var u := Headed(l, cmd, rest);
    assert u[..4] == Le(l, 4) && u[4..6] == Le(cmd, 2);
    FromLeOfLe(l, 4);
    FromLeOfLe(cmd, 2);
    Pow256Values();
  }

  /** The subscribe server waits for the whole frame; then it takes ticks, and requests with a
      flag, panics on a frame too short for what it reads, and refuses every other command. */
  lemma SubscribeTakes(l: nat, cmd: nat, rest: seq<byte>)
    requires l < 0x1_0000_0000 && cmd < 0x1_0000
    ensures var h := Front(SUBSCRIBE, Headed(l, cmd, rest));
            && (h.Incomplete? <==> |rest| + 2 < l)
            && (|rest| + 2 >= l ==>
                  && (h.Refused? <==> cmd > 9 || (l >= 2 && cmd != 0 && cmd != 3))
                  && (h.OutOfBounds? <==> cmd <= 9 && (l < 2 || (l == 2 && cmd == 0)))
                  && (h.Whole? <==> l >= 2 && (cmd == 3 || (cmd == 0 && l > 2))))
  {
    hide Le, FromLe;
    FrontOfHeaded(SUBSCRIBE, l, cmd, rest);
  }

  /** The control server takes ticks, stops, reloads and member lists, and refuses the rest. */
  lemma ControlTakes(l: nat, cmd: nat, rest: seq<byte>)
    requires l < 0x1_0000_0000 && cmd < 0x1_0000
    ensures var h := Front(CONTROL, Headed(l, cmd, rest));
            && (h.Incomplete? <==> |rest| + 2 < l)
            && (|rest| + 2 >= l ==>
                  && (h.Refused? <==> cmd > 4 || (l >= 2 && cmd == 0))
                  && (h.OutOfBounds? <==> cmd <= 4 && l < 2)
                  && (h.Whole? <==> l >= 2 && 1 <= cmd <= 4))
  {
    hide Le, FromLe;
    FrontOfHeaded(CONTROL, l, cmd, rest);
  }

  /** The client refuses an unknown command as soon as the header is there, before the rest of
      the frame, and takes every known one. */
  lemma ClientTakes(l: nat, cmd: nat, rest: seq<byte>)
    requires l < 0x1_0000_0000 && cmd < 0x1_0000
    ensures var h := Front(CLIENT, Headed(l, cmd, rest));
            && (h.Refused? <==> cmd > 9)
            && (h.Incomplete? <==> cmd <= 9 && |rest| + 2 < l)
            && (h.OutOfBounds? <==> cmd <= 9 && |rest| + 2 >= l && l < 2)
            && (h.Whole? <==> cmd <= 9 && |rest| + 2 >= l && l >= 2)
  {
    hide Le, FromLe;
    FrontOfHeaded(CLIENT, l, cmd, rest);
  }


  /** Any prefix of a well-formed stream decodes to a prefix of its messages, and the whole
      stream to all of them with nothing left over. */
  lemma {:induction false} DecodeOfEncode(p: Policy, fs: seq<Msg>, u: seq<byte>)
    requires forall m :: m in fs ==> Acceptable(p, m)
    requires u <= Encode(fs)
    ensures Decode(p, u).end.Waiting? && Decode(p, u).frames <= fs
    ensures u == Encode(fs) ==> Decode(p, u) == Parse(fs, Waiting([]))
    decreases |fs|
  {
    hide Front, Frame;
    if fs == [] {
      DecodeNothing(p);
    } else {
      var m, size := fs[0], |fs[0].content| + 6;
      FrontOfFrame(p, m, u, Encode(fs[1..]));
      if |u| >= size {
        DecodeOfEncode(p, fs[1..], u[size..]);
        assert fs == [m] + fs[1..];
        assert u == Encode(fs) ==> u[size..] == Encode(fs[1..]);
      }
    }
  }

  // ---- the loop ----

  /** The receive side of a connection; the buffer is compacted in place after every frame. */
  class FrameReader {
    const policy: Policy
    var data: array<byte>
    var len: nat
    var handled: seq<Msg>
    var dead: bool

    ghost predicate Valid()
      reads this
    {
      len <= data.Length
    }

    ghost function View(): (c: Conn)
      reads this, data
      requires Valid()
    {
      Conn(handled, data[..len], dead)
    }

    constructor (policy: Policy)
      ensures Valid() && fresh(data) && this.policy == policy && View() == FRESH
    {
      this.policy := policy;
      data := new byte[0];
      len, handled, dead := 0, [], false;
    }

    /** `append(buf, msg...)`: in place while the capacity lasts, else into a larger array. */
    method Append(msg: seq<byte>)
      requires Valid()
      modifies this`data, this`len, data
      ensures Valid() && (data == old(data) || fresh(data))
      ensures data[..len] == old(data[..len]) + msg
    {
      if len + |msg| > data.Length {
        var bigger := new byte[2 * (len + |msg|)](_ => 0);
        forall i | 0 <= i < len { bigger[i] := data[i]; }
        assert bigger[..len] == data[..len];
        data := bigger;
      }
      ghost var before := data[..len];
      forall i | 0 <= i < |msg| { data[len + i] := msg[i]; }
      len := len + |msg|;
      assert data[..len] == before + msg;
    }

    /** `append(buf[:0], buf[n:]...)`: the tail is copied over the head of the same array. */
    method Discard(n: nat)
      requires Valid() && n <= len
      modifies this`len, data
      ensures Valid()
      ensures data[..len] == old(data[n..len])
    {
      for i := 0 to len - n
        modifies data
        invariant data[..i] == old(data[n..n + i])
        invariant data[n + i..len] == old(data[n + i..len])
        invariant n > 0 || data[..] == old(data[..])
      {
        ghost var tail := data[n + i..len];
        data[i] := data[n + i];
        assert n > 0 ==> data[n + i + 1..len] == tail[1..];
        assert data[..i + 1] == data[..i] + [old(data[n + i])];
      }
      len := len - n;
    }

    /** The conditions at the top of the loop. */
    method Peek() returns (h: Head)
      requires Valid()
      ensures h == Front(policy, data[..len])
    {
      if len < 6 { return Incomplete; }
      ghost var buf := data[..len];
      assert buf[..4] == data[..4] && buf[4..6] == data[4..6];
      var clen := FromLe(data[..4]);
      var cmd := FromLe(data[4..6]);
      if policy.eager && cmd !in policy.known { return Refused(cmd); }
      if len < clen + 4 { return Incomplete; }
      if cmd !in policy.known { return Refused(cmd); }
      if clen < 2 { return OutOfBounds; }
      var content := data[6..clen + 4];
      assert content == buf[6..clen + 4];
      if cmd !in policy.handled { return Refused(cmd); }
      if policy.flagged && cmd == CMD_SET_PRO && content == [] { return OutOfBounds; }
      return Whole(Msg(cmd, content), clen + 4);
    }

    /** `onMessage`. Every pass that continues removes at least six bytes. */
    method OnMessage(msg: seq<byte>)
      requires Valid() && !dead
      modifies this`data, this`len, this`handled, this`dead, data
      ensures Valid() && (data == old(data) || fresh(data))
      ensures View() == Read(policy, old(View()), msg)
    {
      Append(msg);
      ghost var whole := Decode(policy, data[..len]);
      ghost var start, now := handled, [];
      assert whole == Prepend(now, whole) by { assert [] + whole.frames == whole.frames; }
      while true
        invariant Valid() && !dead && (data == old(data) || fresh(data))
        invariant handled == start + now
        invariant whole == Prepend(now, Decode(policy, data[..len]))
        decreases len
      {
        var h := Peek();
        match h {
          case Incomplete =>
            assert now + [] == now;
            return;
          case Refused(_) =>
            assert now + [] == now;
            data, len := new byte[0], 0;
            return;
          case OutOfBounds =>
            assert now + [] == now;
            len, dead := 0, true;
            return;
          case Whole(m, size) =>
            ghost var buf, before := data[..len], now;
            handled, now := handled + [m], now + [m];
            Discard(size);
            assert data[..len] == buf[size..];
            PrependTwice(before, m, Decode(policy, buf[size..]));
        }
      }
    }
  }
}
