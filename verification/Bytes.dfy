/** Little-endian integers as byte sequences, and Go's fixed-width integers. */
module Bytes {

  type byte = x: int | 0 <= x < 256
  type uint32 = x: int | 0 <= x < 0x1_0000_0000
  type int64 = x: int | -0x8000_0000_0000_0000 <= x < 0x8000_0000_0000_0000

  /** Go's `int64(x)`: keep the low 64 bits, read them as two's complement. */
  function ToInt64(x: int): (r: int64)
    ensures -0x8000_0000_0000_0000 <= x < 0x8000_0000_0000_0000 ==> r == x
    ensures (x - r) % 0x1_0000_0000_0000_0000 == 0
  {
    var u := x % 0x1_0000_0000_0000_0000;
    if u < 0x8000_0000_0000_0000 then u else u - 0x1_0000_0000_0000_0000
  }

  /** Counting wraps once, however the steps are grouped. */
  lemma ToInt64Next(x: int)
    ensures ToInt64(ToInt64(x) + 1) == ToInt64(x + 1)
  {
  }

  function Pow256(n: nat): (p: int)
    ensures p > 0
  {
    if n == 0 then 1 else 256 * Pow256(n - 1)
  }

  /** The low `n` bytes of `v`, least significant first: `byte(v)`, `byte(v >> 8)`, ...
      Dafny's division rounds down for a positive divisor, as Go's arithmetic shift does. */
  function Le(v: int, n: nat): (s: seq<byte>)
    ensures |s| == n
    decreases n
  {
    if n == 0 then [] else [v % 256] + Le(v / 256, n - 1)
  }

  /** `int(s[0]) | int(s[1]) << 8 | ...` */
  function FromLe(s: seq<byte>): (v: nat) {
    if s == [] then 0 else s[0] + 256 * FromLe(s[1..])
  }

  lemma Pow256Values()
    ensures Pow256(2) == 0x1_0000 && Pow256(3) == 0x100_0000
    ensures Pow256(4) == 0x1_0000_0000 && Pow256(8) == 0x1_0000_0000_0000_0000
  {
  }

  /** Multiplying both sides of a division by 256. */
  lemma ModStep(v: int, p: int)
    requires p > 0
    ensures v % 256 + 256 * ((v / 256) % p) == v % (256 * p)
  {
    var q, r := (v / 256) / p, (v / 256) % p;
    var low := v % 256 + 256 * r;
    assert v == (256 * p) * q + low by {
      assert v / 256 == p * q + r;
      assert 256 * (p * q) == (256 * p) * q;
    }
    assert 256 * r <= 256 * (p - 1);
    RemainderIsUnique(v, 256 * p, q, low);
  }

  lemma RemainderIsUnique(v: int, m: int, q: int, r: int)
    requires m > 0 && 0 <= r < m && v == m * q + r
    ensures v % m == r
  {
    var d := v / m - q;
    assert m * d == r - v % m by { assert m * (v / m) == v - v % m; }
    assert d >= 1 ==> m * d >= m;
    assert d <= -1 ==> m * d <= -m;
  }

  /** Encoding to `n` bytes keeps a number exactly modulo 256^n. */
  lemma {:induction false} FromLeOfLe(v: int, n: nat)
    ensures FromLe(Le(v, n)) == v % Pow256(n)
    decreases n
  {
    if n > 0 {
      FromLeOfLe(v / 256, n - 1);
      ModStep(v, Pow256(n - 1));
      assert Le(v, n)[1..] == Le(v / 256, n - 1);
    }
  }

  /** Decoding loses nothing: re-encoding gives back the same bytes. */
  lemma {:induction false} LeOfFromLe(s: seq<byte>)
    ensures Le(FromLe(s), |s|) == s
    ensures FromLe(s) < Pow256(|s|)
  {
    if s != [] {
      LeOfFromLe(s[1..]);
      assert FromLe(s) / 256 == FromLe(s[1..]);
      assert FromLe(s[1..]) + 1 <= Pow256(|s| - 1);
    }
  }

  /** Signed 64-bit numbers survive eight bytes. */
  lemma Int64RoundTrip(v: int64)
    ensures ToInt64(FromLe(Le(v, 8))) == v
  {
    hide Le, FromLe, Pow256;
    FromLeOfLe(v, 8);
    Pow256Values();
    if v < 0 {
      RemainderIsUnique(v, 0x1_0000_0000_0000_0000, -1, v + 0x1_0000_0000_0000_0000);
    }
  }

  /** Byte `k` holds bits `8k` to `8k + 7`: `byte(v >> (8 * k))`. */
  lemma {:induction false} LeAt(v: int, n: nat, k: nat)
    requires k < n
    ensures Le(v, n)[k] == v / Pow256(k) % 256
    decreases n
  {
    if k > 0 {
      LeAt(v / 256, n - 1, k - 1);
      DivideTwice(v, Pow256(k - 1));
    }
  }

  lemma DivideTwice(v: int, p: int)
    requires p > 0
    ensures v / 256 / p == v / (256 * p)
  {
    ModStep(v, p);
    var q, r := v / 256 / p, v / 256 % p;
    assert v / 256 == p * q + r;
    assert v == (256 * p) * q + (v % 256 + 256 * r) by { assert 256 * (p * q) == (256 * p) * q; }
    assert (256 * p) * (v / (256 * p)) == (256 * p) * q;
    SameQuotient(256 * p, v / (256 * p), q);
  }

  lemma SameQuotient(m: int, a: int, b: int)
    requires m > 0 && m * a == m * b
    ensures a == b
  {
  }

  /** Any eight bytes are those of the signed number they are read as. */
  lemma LeOfInt64(s: seq<byte>)
    requires |s| == 8
    ensures Le(ToInt64(FromLe(s)), 8) == s
  {
    hide Le, FromLe, Pow256;
    var u := FromLe(s);
    LeOfFromLe(s);
    Pow256Values();
    FromLeOfLe(ToInt64(u), 8);
    LeOfFromLe(Le(ToInt64(u), 8));
    assert ToInt64(u) % 0x1_0000_0000_0000_0000 == u;
  }
}
