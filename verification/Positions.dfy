/** The binlog position record, its codec and the cache file that keeps the last one. */
module Positions {
  import opened Bytes
  import opened Frames

  type name = seq<byte>

  const READ_BUFFER := 512 // bytes.MinRead

  /** The bytes of a record: 2-byte length, 8-byte position, 8-byte event index, file name. */
  function Record(file: name, pos: int, index: int): (r: seq<byte>) {
    Le(16 + |file|, 2) + Le(pos, 8) + Le(index, 8) + file
  }

  /** `packPos`: header bytes written one by one, then the name appended. */
  method PackPos(file: name, pos: int64, index: int64) returns (r: seq<byte>)
    ensures r == Record(file, pos, index)
  {
    hide Le;
    var l := 16 + |file|;
    var a := new byte[l + 2](_ => 0);
    a[0] := l % 256;
    a[1] := l / 0x100 % 256;
    PutInt64(a, 2, pos);
    PutInt64(a, 10, index);
    Le2(l);
    assert a[..2] == [l % 256, l / 0x100 % 256];
    assert a[..18] == a[..2] + a[2..10] + a[10..18];
    r := a[..18] + file;
  }

  method PutInt64(a: array<byte>, at: nat, v: int64)
    requires at + 8 <= a.Length
    modifies a
    ensures a[at..at + 8] == Le(v, 8)
    ensures forall i :: 0 <= i < at || at + 8 <= i < a.Length ==> a[i] == old(a[i])
  {
    var low, high := v, v / 0x1_0000_0000;
    a[at] := low % 256;
    a[at + 1] := low / 0x100 % 256;
    a[at + 2] := low / 0x1_0000 % 256;
    a[at + 3] := low / 0x100_0000 % 256;
    a[at + 4] := high % 256;
    a[at + 5] := high / 0x100 % 256;
    a[at + 6] := high / 0x1_0000 % 256;
    a[at + 7] := high / 0x100_0000 % 256;
    Le8(v);
    Le4(low);
    Le4(high);
    assert a[at..at + 8] == a[at..at + 4] + a[at + 4..at + 8];
  }

  datatype Position = Position(file: name, pos: int64, index: int64)

  const NO_POSITION := Position([], 0, 0)

  /** `unpackPos`; data shorter than the fixed header makes the Go code panic. */
  function UnpackPos(data: seq<byte>): (r: Position)
    requires |data| >= 18
  {
    var dl := FromLe(data[..2]);
    if dl + 2 < 18 || dl > |data| - 2 then NO_POSITION
    else Position(data[18..dl + 2], ToInt64(FromLe(data[2..10])), ToInt64(FromLe(data[10..18])))
  }

  lemma Fields(a: seq<byte>, b: seq<byte>, c: seq<byte>, file: name, rest: seq<byte>)
    requires |a| == 2 && |b| == |c| == 8
    ensures var d := a + b + c + file + rest;
            d[..2] == a && d[2..10] == b && d[10..18] == c && d[18..18 + |file|] == file
  {
  }

  lemma FieldsOfRecord(file: name, pos: int64, index: int64, rest: seq<byte>)
    ensures var d := Record(file, pos, index) + rest;
            && |Record(file, pos, index)| == 18 + |file|
            && FromLe(d[..2]) == (16 + |file|) % 0x1_0000
            && ToInt64(FromLe(d[2..10])) == pos
            && ToInt64(FromLe(d[10..18])) == index
            && d[18..18 + |file|] == file
  {
    hide FromLe, Le, ToInt64, Pow256;
    Fields(Le(16 + |file|, 2), Le(pos, 8), Le(index, 8), file, rest);
    FromLeOfLe(16 + |file|, 2);
    Pow256Values();
    Int64RoundTrip(pos);
    Int64RoundTrip(index);
  }

  /** Decoding a record, whatever follows it, gives back all three fields exactly when the
      two-byte length field holds the length. */
  lemma UnpackOfRecord(file: name, pos: int64, index: int64, rest: seq<byte>)
    ensures UnpackPos(Record(file, pos, index) + rest) == Position(file, pos, index)
       <==> 16 + |file| < 0x1_0000
  {
    hide FromLe, Record;
    FieldsOfRecord(file, pos, index, rest);
    var d := Record(file, pos, index) + rest;
    var dl := FromLe(d[..2]);
    if 16 + |file| < 0x1_0000 {
      assert dl == 16 + |file|;
    } else {
      assert |UnpackPos(d).file| <= dl < |file|;
    }
  }

  /** Length, position, event index and name, lowest byte first. */
  lemma RecordLayout(file: name, pos: int, index: int)
    ensures var r := Record(file, pos, index);
            && |r| == 18 + |file| && r[18..] == file
            && (forall k :: 0 <= k < 2 ==> r[k] == (16 + |file|) / Pow256(k) % 256)
            && (forall k :: 0 <= k < 8 ==> r[2 + k] == pos / Pow256(k) % 256)
            && (forall k :: 0 <= k < 8 ==> r[10 + k] == index / Pow256(k) % 256)
  {
    hide Le, Pow256;
    var r := Record(file, pos, index);
    forall k | 0 <= k < 2
      ensures r[k] == (16 + |file|) / Pow256(k) % 256
    {
      LeAt(16 + |file|, 2, k);
    }
    forall k | 0 <= k < 8
      ensures r[2 + k] == pos / Pow256(k) % 256 && r[10 + k] == index / Pow256(k) % 256
    {
      LeAt(pos, 8, k);
      LeAt(index, 8, k);
    }
  }

  ghost predicate StartsWithRecord(data: seq<byte>, p: Position) {
    16 + |p.file| < 0x1_0000 && Record(p.file, p.pos, p.index) <= data
  }

  /** Decoding is the inverse of encoding on any data at all: it gives the one triple whose
      record the data starts with, and the empty one when there is none. */
  lemma RecordOfUnpack(data: seq<byte>, p: Position)
    requires |data| >= 18
    ensures StartsWithRecord(data, p) ==> UnpackPos(data) == p
    ensures UnpackPos(data) != NO_POSITION ==> StartsWithRecord(data, UnpackPos(data))
  {
    hide FromLe, Le, ToInt64, Pow256;
    if StartsWithRecord(data, p) {
      var r := Record(p.file, p.pos, p.index);
      assert data == r + data[|r|..];
      UnpackOfRecord(p.file, p.pos, p.index, data[|r|..]);
    }
    if UnpackPos(data) != NO_POSITION {
      var dl := FromLe(data[..2]);
      LeOfFromLe(data[..2]);
      Pow256Values();
      LeOfInt64(data[2..10]);
      LeOfInt64(data[10..18]);
      assert data[..dl + 2] == data[..2] + data[2..10] + data[10..18] + data[18..dl + 2];
    }
  }

  /** A record replicated as the payload of a CMD_POS frame arrives unchanged, and narrowing a
      position that MySQL reported loses nothing. */
  lemma ReplicationRoundTrip(file: name, pos: int64, index: int64)
    requires 16 + |file| < 0x1_0000
    ensures var frame := Frame(CMD_POS, Record(file, pos, index));
            && Unpack(frame) == Content(9, Record(file, pos, index))
            && UnpackPos(Unpack(frame).content) == Position(file, pos, index)
            && (0 <= pos < 0x1_0000_0000 ==> ToUint32(UnpackPos(Unpack(frame).content).pos) == pos)
  {
    var r := Record(file, pos, index);
    UnpackOfPack(CMD_POS, r, []);
    assert Frame(CMD_POS, r) + [] == Frame(CMD_POS, r);
    UnpackOfRecord(file, pos, index, []);
    assert r + [] == r;
  }

  /** `uint32(pos)`. */
  function ToUint32(pos: int): (p: uint32)
    ensures 0 <= pos < 0x1_0000_0000 ==> p == pos
  {
    pos % 0x1_0000_0000
  }

  // ---- the cache file ----

  /** `WriteAt(r, 0)`: the file is never truncated. */
  function WriteAt(file: seq<byte>, r: seq<byte>): (f: seq<byte>)
    ensures |f| == if |r| < |file| then |file| else |r|
    ensures forall k :: 0 <= k < |f| ==> f[k] == if k < |r| then r[k] else file[k]
  {
    if |r| <= |file| then r + file[|r|..] else r
  }

  /** A zeroed 512-byte buffer after one read from the start of the file. */
  function ReadBuffer(file: seq<byte>): (b: seq<byte>)
    ensures |b| == READ_BUFFER
    ensures forall k :: 0 <= k < READ_BUFFER ==> b[k] == if k < |file| then file[k] else 0
  {
    if |file| >= READ_BUFFER then file[..READ_BUFFER]
    else file + seq(READ_BUFFER - |file|, _ => 0)
  }

  /** `getBinlogPositionCache` on an open file. */
  function ReadCache(file: seq<byte>): (p: Position) {
    if file == [] then NO_POSITION else UnpackPos(ReadBuffer(file))
  }

  /** The file after a sequence of saves. */
  function Saves(file: seq<byte>, ps: seq<Position>): (f: seq<byte>) {
    if ps == [] then file
    else
      var last := ps[|ps| - 1];
      WriteAt(Saves(file, ps[..|ps| - 1]), Record(last.file, last.pos, last.index))
  }

  /** The file starts with `r`, whatever an older and longer record left behind it. */
  lemma ReadOfPrefix(file: seq<byte>, p: Position)
    requires Record(p.file, p.pos, p.index) <= file
    ensures ReadCache(file) == p <==> |p.file| <= READ_BUFFER - 18
  {
    hide Le, FromLe, ToInt64;
    var r := Record(p.file, p.pos, p.index);
    var b := ReadBuffer(file);
    if |r| <= READ_BUFFER {
      assert b == r + b[|r|..];
      UnpackOfRecord(p.file, p.pos, p.index, b[|r|..]);
    } else {
      assert |ReadCache(file).file| <= READ_BUFFER - 18;
    }
  }

  /** The cache file behaves as a plain variable: after any saves, over any earlier contents,
      reading gives the last triple exactly when its name is at most 494 bytes. */
  lemma CacheIsAVariable(file: seq<byte>, ps: seq<Position>)
    requires ps != []
    ensures var last := ps[|ps| - 1];
            ReadCache(Saves(file, ps)) == last <==> |last.file| <= 494
  {
    ReadOfPrefix(Saves(file, ps), ps[|ps| - 1]);
  }
}
