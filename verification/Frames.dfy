/** The wire frame: 4-byte length, 2-byte command, payload. */
module Frames {
  import opened Bytes

  const CMD_SET_PRO := 0
  const CMD_ERROR := 2
  const CMD_TICK := 3
  const CMD_EVENT := 4
  const CMD_POS := 9

  /** The bytes of a frame; the length field counts the command and the payload. */
  function Frame(cmd: int, msg: seq<byte>): (r: seq<byte>) {
    Le(|msg| + 2, 4) + Le(cmd, 2) + msg
  }

  /** `service.Pack`: allocate, fill the header byte by byte, copy the payload. */
  method Pack(cmd: int, msg: seq<byte>) returns (r: array<byte>)
    ensures r[..] == Frame(cmd, msg)
  {
    hide Le;
    var l := |msg|;
    r := new byte[l + 6](_ => 0);
    var cl := l + 2;
    r[0] := cl % 256;
    r[1] := cl / 0x100 % 256;
    r[2] := cl / 0x1_0000 % 256;
    r[3] := cl / 0x100_0000 % 256;
    r[4] := cmd % 256;
    r[5] := cmd / 0x100 % 256;
    Le4(cl);
    Le2(cmd);
    ghost var header := r[..6];
    assert header == Le(cl, 4) + Le(cmd, 2);
    forall i | 0 <= i < l { r[6 + i] := msg[i]; }
    assert r[..] == header + msg;
  }

  lemma Le2(v: int)
    ensures Le(v, 2) == [v % 256, v / 0x100 % 256]
  {
  }

  lemma Le4(v: int)
    ensures Le(v, 4) == [v % 256, v / 0x100 % 256, v / 0x1_0000 % 256, v / 0x100_0000 % 256]
  {
    Le2(v);
    Le2(v / 0x1_0000);
    assert v / 256 / 256 == v / 0x1_0000;
    assert v / 0x1_0000 / 256 == v / 0x100_0000;
    assert Le(v / 256, 3) == [v / 256 % 256] + Le(v / 256 / 256, 2);
  }

  lemma Le8(v: int)
    ensures Le(v, 8) == Le(v, 4) + Le(v / 0x1_0000_0000, 4)
  {
    var a, b, c := v / 256, v / 0x1_0000, v / 0x100_0000;
    assert a / 256 == b && b / 256 == c && c / 256 == v / 0x1_0000_0000;
    assert Le(v, 8) == [v % 256] + Le(a, 7);
    assert Le(a, 7) == [a % 256] + Le(b, 6);
    assert Le(b, 6) == [b % 256] + Le(c, 5);
    Le4(v);
  }

  datatype Unpacked =
    | Content(cmd: nat, content: seq<byte>)
    | DataLenError
    | OutOfRange // an index or slice bound the Go runtime panics on

  /** `service.Unpack`. */
  function Unpack(data: seq<byte>): (r: Unpacked) {
    if |data| < 4 then OutOfRange
    else
      var clen := FromLe(data[..4]);
      if |data| < clen + 4 then DataLenError
      else if clen < 2 then OutOfRange
      else Content(FromLe(data[4..6]), data[6..clen + 4])
  }

  lemma HeaderOfFrame(cmd: int, msg: seq<byte>, rest: seq<byte>)
    ensures FromLe((Frame(cmd, msg) + rest)[..4]) == (|msg| + 2) % 0x1_0000_0000
    ensures FromLe((Frame(cmd, msg) + rest)[4..6]) == cmd % 0x1_0000
  {
    var data := Frame(cmd, msg) + rest;
    assert data[..4] == Le(|msg| + 2, 4);
    assert data[4..6] == Le(cmd, 2);
    FromLeOfLe(|msg| + 2, 4);
    FromLeOfLe(cmd, 2);
    Pow256Values();
  }

  /** Packing then unpacking, with anything after the frame, returns the command and the
      payload exactly when the command fits two bytes and the length field fits four. */
  lemma UnpackOfPack(cmd: int, msg: seq<byte>, rest: seq<byte>)
    ensures cmd >= 0 && Unpack(Frame(cmd, msg) + rest) == Content(cmd, msg)
       <==> 0 <= cmd < 0x1_0000 && |msg| + 2 < 0x1_0000_0000
  {
    hide FromLe, Le;
    var data := Frame(cmd, msg) + rest;
    HeaderOfFrame(cmd, msg, rest);
    if |msg| + 2 < 0x1_0000_0000 {
      assert data[6..|msg| + 6] == msg;
    }
  }

  /** Unpacking gives a command and content exactly when a whole frame starts the data, and
      then packing them gives those bytes back. */
  lemma PackOfUnpack(data: seq<byte>)
    requires Unpack(data).Content?
    ensures var u := Unpack(data);
            Frame(u.cmd, u.content) <= data && u.cmd < 0x1_0000 && |u.content| + 2 < 0x1_0000_0000
  {
    var clen := FromLe(data[..4]);
    LeOfFromLe(data[..4]);
    LeOfFromLe(data[4..6]);
    Pow256Values();
    assert data[..clen + 4] == data[..4] + data[4..6] + data[6..clen + 4];
  }

  /** `Client.pack`: as `Pack`, except that the fourth length byte is taken from bit 32. */
  method ClientPack(cmd: int, content: seq<byte>) returns (r: seq<byte>)
    ensures r == ClientFrame(cmd, content)
  {
    var l := |content| + 2;
    var a := new byte[l + 4](_ => 0);
    a[0] := l % 256;
    a[1] := l / 0x100 % 256;
    a[2] := l / 0x1_0000 % 256;
    a[3] := l / 0x1_0000_0000 % 256;
    a[4] := cmd % 256;
    a[5] := cmd / 0x100 % 256;
    Le2(cmd);
    ClientLength(l);
    r := a[..6] + content;
  }

  /** `Client.setPro`: the subscribe request, a zero flag byte and the topic. */
  method ClientSetPro(topic: seq<byte>) returns (r: seq<byte>)
    ensures r == ClientFrame(CMD_SET_PRO, [0] + topic)
  {
    var l := |topic| + 3;
    var a := new byte[l + 4](_ => 0);
    a[0] := l % 256;
    a[1] := l / 0x100 % 256;
    a[2] := l / 0x1_0000 % 256;
    a[3] := l / 0x1_0000_0000 % 256;
    a[4] := CMD_SET_PRO % 256;
    a[5] := CMD_SET_PRO / 0x100 % 256;
    a[6] := 0;
    Le2(CMD_SET_PRO);
    ClientLength(l);
    r := a[..7] + topic;
    assert r == a[..6] + ([0] + topic);
  }

  /** The bytes both client encoders produce. */
  function ClientFrame(cmd: int, content: seq<byte>): (r: seq<byte>) {
    var l := |content| + 2;
    Le(l, 3) + [l / 0x1_0000_0000 % 256] + Le(cmd, 2) + content
  }

  lemma ClientLength(l: int)
    ensures Le(l, 3) == [l % 256, l / 0x100 % 256, l / 0x1_0000 % 256]
    ensures Le(l, 4) == Le(l, 3) + [l / 0x100_0000 % 256]
  {
    Le2(l / 256);
    Le4(l);
  }

  /** The client's encoder agrees with the server's exactly below 2^24 (for every length a
      four-byte field can hold), so the server then recovers the command and the payload. */
  lemma ClientEncodersRefinePack(cmd: int, content: seq<byte>)
    requires |content| + 2 < 0x1_0000_0000
    ensures ClientFrame(cmd, content) == Frame(cmd, content) <==> |content| + 2 < 0x100_0000
    ensures 0 <= cmd < 0x1_0000 && |content| + 2 < 0x100_0000
        ==> Unpack(ClientFrame(cmd, content)) == Content(cmd, content)
  {
    var l := |content| + 2;
    ClientLength(l);
    assert ClientFrame(cmd, content)[3] == 0;
    assert Frame(cmd, content)[3] == l / 0x100_0000;
    assert Le(l, 3) + [l / 0x100_0000 % 256] + Le(cmd, 2) + content == Frame(cmd, content);
    UnpackOfPack(cmd, content, []);
    assert Frame(cmd, content) + [] == Frame(cmd, content);
  }

  // ---- the layout, byte by byte ----

  /** The length of command and payload in the first four bytes, the command in the next two,
      lowest byte first, then the payload; the client takes its fourth byte from bit 32. */
  lemma FrameLayout(cmd: int, msg: seq<byte>)
    ensures var f, c := Frame(cmd, msg), ClientFrame(cmd, msg);
            && |f| == |c| == |msg| + 6 && f[6..] == c[6..] == msg
            && (forall k :: 0 <= k < 4 ==> f[k] == (|msg| + 2) / Pow256(k) % 256)
            && (forall k :: 0 <= k < 3 ==> c[k] == (|msg| + 2) / Pow256(k) % 256)
            && c[3] == (|msg| + 2) / Pow256(4) % 256
            && (forall k :: 0 <= k < 2 ==> f[4 + k] == c[4 + k] == cmd / Pow256(k) % 256)
  {
    hide Le, Pow256;
    Pow256Values();
    var l := |msg| + 2;
    forall k | 0 <= k < 4
      ensures Frame(cmd, msg)[k] == l / Pow256(k) % 256
    {
      LeAt(l, 4, k);
    }
    forall k | 0 <= k < 3
      ensures ClientFrame(cmd, msg)[k] == l / Pow256(k) % 256
    {
      LeAt(l, 3, k);
    }
    forall k | 0 <= k < 2
      ensures Frame(cmd, msg)[4 + k] == ClientFrame(cmd, msg)[4 + k] == cmd / Pow256(k) % 256
    {
      LeAt(cmd, 2, k);
    }
  }

  /** Data that claims more than there is gives an error, a claim too short for a command makes
      the Go code panic, and so does data without a length field. */
  lemma UnpackErrors(l: nat, rest: seq<byte>, short: seq<byte>)
    requires l < 0x1_0000_0000 && |short| < 4
    ensures Unpack(Le(l, 4) + rest) == DataLenError <==> |rest| < l
    ensures Unpack(Le(l, 4) + rest) == OutOfRange <==> l <= |rest| && l < 2
    ensures Unpack(short) == OutOfRange
  {
    hide Le, FromLe, Pow256;
    var data := Le(l, 4) + rest;
    assert data[..4] == Le(l, 4);
    FromLeOfLe(l, 4);
    Pow256Values();
  }
}
