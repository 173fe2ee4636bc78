/** Column values: `fieldDecode`. */
module Columns {
  import opened Bytes

  /** The Go values a row may hold; types that pass through unchanged are `Other`. */
  datatype Value =
    | Nil
    | Text(s: string)
    | Int8(v: int)
    | Int16(v: int)
    | Int32(v: int)
    | Int64(v: int)
    | Uint64(u: nat)
    | Other(id: nat)

  datatype Column = Column(name: string, rawType: string, unsigned: bool, enumValues: seq<string>, setValues: seq<string>)

  datatype Decoded = Ok(value: Value) | OutOfRange

  predicate StartsWith(s: string, prefix: string) {
    |s| > |prefix| && s[..|prefix|] == prefix
  }

  /** `fieldDecode`; a raw type of fewer than three letters, which MySQL does not have, and an
      enum number without a member are out of range. */
  function FieldDecode(x: Value, col: Column): (r: Decoded) {
    match x
    case Int8(v) => Ok(Int64(if col.unsigned && v < 0 then 256 + v else v))
    case Int16(v) => Ok(Int64(if col.unsigned && v < 0 then 65536 + v else v))
    case Int32(v) =>
      if col.unsigned && v < 0 then
        if |col.rawType| < 3 then OutOfRange
        else if col.rawType[..3] != "int" then Ok(Int64(0x100_0000 + v))
        else Ok(Int64(0x1_0000_0000 + v))
      else Ok(Int64(v))
    case Int64(v) =>
      if StartsWith(col.rawType, "enum") then
        if 0 <= v - 1 < |col.enumValues| then Ok(Text(col.enumValues[v - 1])) else OutOfRange
      else if StartsWith(col.rawType, "set") then Ok(Text(SetText(v % 0x1_0000_0000_0000_0000, col.setValues)))
      else if col.unsigned then Ok(Uint64(v % 0x1_0000_0000_0000_0000))
      else Ok(x)
    case _ => Ok(x)
  }

  // ---- unsigned columns ----

  datatype Width = Tiny | Small | Medium | Normal | Big

  function Modulus(w: Width): (m: int) {
    match w
    case Tiny => 0x100
    case Small => 0x1_0000
    case Medium => 0x100_0000
    case Normal => 0x1_0000_0000
    case Big => 0x1_0000_0000_0000_0000
  }

  /** How the binlog reader hands over an unsigned number: the same bits, read as signed. */
  function Stored(w: Width, u: nat): (x: Value) {
    var s := if u < Modulus(w) / 2 then u else u - Modulus(w);
    match w
    case Tiny => Int8(s)
    case Small => Int16(s)
    case Medium => Int32(s)
    case Normal => Int32(s)
    case Big => Int64(s)
  }

  /** The declared type tells the width: mediumint and int share a Go type and are told apart
      by their first letters. */
  predicate TypeOf(w: Width, rawType: string) {
    match w
    case Tiny => true
    case Small => true
    case Medium => |rawType| >= 3 && rawType[..3] != "int"
    case Normal => |rawType| >= 3 && rawType[..3] == "int"
    case Big => !StartsWith(rawType, "enum") && !StartsWith(rawType, "set")
  }

  /** An unsigned number of any width comes back as itself exactly when the declared type fits
      its width, or, below 64 bits, when its top bit is clear. */
  lemma UnsignedIsLosslessIff(w: Width, u: nat, col: Column)
    requires u < Modulus(w) && col.unsigned
    ensures FieldDecode(Stored(w, u), col) == Ok(if w.Big? then Uint64(u) else Int64(u))
       <==> TypeOf(w, col.rawType) || (!w.Big? && u < Modulus(w) / 2)
  {
    if w.Big? {
      var m := 0x1_0000_0000_0000_0000;
      if u < m / 2 {
        RemainderIsUnique(u, m, 0, u);
      } else {
        RemainderIsUnique(u - m, m, -1, u);
      }
    }
  }

  // ---- signed columns, and values that pass through ----

  /** How the binlog reader hands over a signed number. */
  function Signed(w: Width, v: int): (x: Value) {
    match w
    case Tiny => Int8(v)
    case Small => Int16(v)
    case Medium => Int32(v)
    case Normal => Int32(v)
    case Big => Int64(v)
  }

  predicate InRange(w: Width, v: int) {
    -Modulus(w) / 2 <= v < Modulus(w) / 2
  }

  /** A signed number of a signed column keeps its value, whatever the declared type below 64
      bits; a 64-bit one exactly when the type is neither an enum nor a set. */
  lemma SignedIsUnchangedIff(w: Width, v: int, col: Column)
    requires InRange(w, v) && !col.unsigned
    ensures FieldDecode(Signed(w, v), col) == Ok(Int64(v))
       <==> (w.Big? ==> && !(|col.rawType| > 4 && col.rawType[..4] == "enum")
                        && !(|col.rawType| > 3 && col.rawType[..3] == "set"))
  {
  }

  /** Strings, bytes, floats, unsigned numbers and nil come back as they are. */
  lemma OthersAreUnchanged(x: Value, col: Column)
    requires x.Nil? || x.Text? || x.Uint64? || x.Other?
    ensures FieldDecode(x, col) == Ok(x)
  {
  }

  /** The Go code panics on exactly two kinds of cells. */
  lemma DecodingPanicsIff(x: Value, col: Column)
    ensures FieldDecode(x, col).OutOfRange?
       <==> || (x.Int32? && x.v < 0 && col.unsigned && |col.rawType| < 3)
            || (x.Int64? && |col.rawType| > 4 && col.rawType[..4] == "enum" && !(1 <= x.v <= |col.enumValues|))
  {
  }

  // ---- ENUM and SET columns ----

  /** An enum number decodes exactly when it has a member, and then to that member. */
  lemma EnumIsItsMember(v: int64, col: Column, more: string)
    requires col.rawType == "enum" + more && more != ""
    ensures FieldDecode(Int64(v), col).Ok? <==> 1 <= v <= |col.enumValues|
    ensures 1 <= v <= |col.enumValues| ==> FieldDecode(Int64(v), col) == Ok(Text(col.enumValues[v - 1]))
  {
    assert col.rawType[..4] == "enum";
  }

  /** A set number decodes to a text that falls apart into exactly the members whose bits are
      set. */
  lemma SetIsItsMembers(v: int64, col: Column, more: string)
    requires col.rawType == "set" + more && more != "" && Clean(col.setValues)
    ensures var d, u := FieldDecode(Int64(v), col), v % 0x1_0000_0000_0000_0000;
            && d.Ok? && d.value.Text?
            && Split(d.value.s) == Selected(u, col.setValues, |col.setValues|)
            && forall x :: x in Split(d.value.s)
                      <==> exists i :: 0 <= i < |col.setValues| && Bit(u, i) && col.setValues[i] == x
  {
    hide SetText, Split;
    var u := v % 0x1_0000_0000_0000_0000;
    assert col.rawType[..3] == "set" && col.rawType[0] == 's';
    assert !StartsWith(col.rawType, "enum") by { assert "enum"[0] == 'e'; }
    SplitOfSetText(u, col.setValues);
    forall x
      ensures x in Selected(u, col.setValues, |col.setValues|)
         <==> exists i :: 0 <= i < |col.setValues| && Bit(u, i) && col.setValues[i] == x
    {
      SelectedMembers(u, col.setValues, |col.setValues|, x);
    }
  }

  function Pow2(n: nat): (p: int)
    ensures p > 0
  {
    if n == 0 then 1 else 2 * Pow2(n - 1)
  }

  /** `v & (1 << i) > 0` on a 64-bit word: shifting by 64 or more gives zero. */
  predicate Bit(u: nat, i: nat) {
    i < 64 && u / Pow2(i) % 2 == 1
  }

  /** The members whose bits are set among the first `n`, in declaration order. */
  function Selected(u: nat, members: seq<string>, n: nat): (r: seq<string>)
    requires n <= |members|
  {
    if n == 0 then []
    else Selected(u, members, n - 1) + if Bit(u, n - 1) then [members[n - 1]] else []
  }

  /** A separator goes in only when something is already there. */
  function Append(res: string, m: string): (r: string) {
    (if res != "" then res + "," else res) + m
  }

  function Joined(ms: seq<string>): (r: string) {
    if ms == [] then "" else Append(Joined(ms[..|ms| - 1]), ms[|ms| - 1])
  }

  function SetText(u: nat, members: seq<string>): (r: string) {
    Joined(Selected(u, members, |members|))
  }

  /** The SET loop of `fieldDecode`. */
  method DecodeSet(v: int64, members: seq<string>) returns (res: string)
    ensures res == SetText(v % 0x1_0000_0000_0000_0000, members)
  {
    var u := v % 0x1_0000_0000_0000_0000;
    res := "";
    for i := 0 to |members|
      invariant res == Joined(Selected(u, members, i))
    {
      ghost var s := Selected(u, members, i);
      assert s + [] == s;
      assert (s + [members[i]])[..|s|] == s;
      if Bit(u, i) {
        if res != "" { res := res + ","; }
        res := res + members[i];
        assert Selected(u, members, i + 1) == s + [members[i]];
      }
    }
  }

  /** Cutting a text at its commas; the empty text has no pieces. */
  function Split(s: string): (r: seq<string>) {
    if s == "" then [] else Pieces(s)
  }

  function Pieces(s: string): (r: seq<string>)
    ensures r != []
  {
    if s == "" then [""]
    else
      var p, c := Pieces(s[..|s| - 1]), s[|s| - 1];
      if c == ',' then p + [""] else p[..|p| - 1] + [p[|p| - 1] + [c]]
  }

  predicate CommaFree(m: string) {
    ',' !in m
  }

  lemma {:induction false} PiecesOfAppend(s: string, m: string)
    requires CommaFree(m)
    ensures Pieces(s + "," + m) == Pieces(s) + [m]
    decreases |m|
  {
    var all := s + "," + m;
    if m == "" {
      assert all[..|all| - 1] == s;
    } else {
      PiecesOfAppend(s, m[..|m| - 1]);
      assert all[..|all| - 1] == s + "," + m[..|m| - 1];
      assert m[..|m| - 1] + [m[|m| - 1]] == m;
      var p := Pieces(s) + [m[..|m| - 1]];
      assert p[..|p| - 1] == Pieces(s);
    }
  }

  lemma {:induction false} PiecesOfOne(m: string)
    requires CommaFree(m)
    ensures Pieces(m) == [m]
    decreases |m|
  {
    if m != "" {
      PiecesOfOne(m[..|m| - 1]);
      assert m[..|m| - 1] + [m[|m| - 1]] == m;
    }
  }

  ghost predicate Clean(ms: seq<string>) {
    forall m :: m in ms ==> m != "" && CommaFree(m)
  }

  /** Joining loses nothing when members are comma-free and not empty. */
  lemma {:induction false} SplitOfJoined(ms: seq<string>)
    requires Clean(ms)
    ensures Split(Joined(ms)) == ms
    ensures Joined(ms) == "" <==> ms == []
    decreases |ms|
  {
    if ms != [] {
      var front, m := ms[..|ms| - 1], ms[|ms| - 1];
      SplitOfJoined(front);
      if front == [] {
        PiecesOfOne(m);
        assert ms == [m];
        assert Joined(ms) == "" + m == m;
      } else {
        PiecesOfAppend(Joined(front), m);
        assert ms == front + [m];
      }
    }
  }

  lemma {:induction false} SelectedMembers(u: nat, members: seq<string>, n: nat, x: string)
    requires n <= |members|
    ensures x in Selected(u, members, n) <==> exists i :: 0 <= i < n && Bit(u, i) && members[i] == x
    decreases n
  {
    if n > 0 { SelectedMembers(u, members, n - 1, x); }
  }

  /** Chosen members stay in declaration order: each stands behind as many as were chosen
      before it. */
  lemma {:induction false} SelectedAt(u: nat, members: seq<string>, n: nat, i: nat)
    requires i < n <= |members| && Bit(u, i)
    ensures var k := |Selected(u, members, i)|;
            k < |Selected(u, members, n)| && Selected(u, members, n)[k] == members[i]
    decreases n
  {
    if i < n - 1 { SelectedAt(u, members, n - 1, i); }
  }

  ghost predicate Distinct(ms: seq<string>) {
    forall i, j :: 0 <= i < j < |ms| ==> ms[i] != ms[j]
  }

  lemma SelectedDeterminesBits(u: nat, v: nat, members: seq<string>, i: nat)
    requires Distinct(members) && i < |members|
    requires Selected(u, members, |members|) == Selected(v, members, |members|)
    ensures Bit(u, i) == Bit(v, i)
  {
    SelectedMembers(u, members, |members|, members[i]);
    SelectedMembers(v, members, |members|, members[i]);
  }

  lemma {:induction false} BitsDetermine(u: nat, v: nat, n: nat)
    requires n <= 64 && u < Pow2(n) && v < Pow2(n)
    requires forall i :: 0 <= i < n ==> Bit(u, i) == Bit(v, i)
    ensures u == v
    decreases n
  {
    if n > 0 {
      forall i | 0 <= i < n - 1
        ensures Bit(u / 2, i) == Bit(v / 2, i)
      {
        BitOfHalf(u, i);
        BitOfHalf(v, i);
        assert Bit(u, i + 1) == Bit(v, i + 1);
      }
      BitsDetermine(u / 2, v / 2, n - 1);
      assert Bit(u, 0) == Bit(v, 0);
      assert Pow2(0) == 1;
    }
  }

  lemma BitOfHalf(u: nat, i: nat)
    requires i < 63
    ensures Bit(u / 2, i) == Bit(u, i + 1)
  {
    DivDiv(u, Pow2(i));
  }

  lemma DivDiv(u: nat, p: int)
    requires p > 0
    ensures u / 2 / p == u / (2 * p)
  {
    var q, r := u / 2 / p, u / 2 % p;
    var low := u % 2 + 2 * r;
    assert u / 2 == p * q + r;
    assert u == (2 * p) * q + low by { assert 2 * (p * q) == (2 * p) * q; }
    assert 2 * r <= 2 * (p - 1);
    RemainderIsUnique(u, 2 * p, q, low);
    assert (2 * p) * (u / (2 * p)) == (2 * p) * q;
    SameQuotient(2 * p, u / (2 * p), q);
  }

  ghost predicate TextsDiffer(members: seq<string>) {
    forall u: nat, v: nat | u < Pow2(|members|) && v < Pow2(|members|) ::
      SetText(u, members) == SetText(v, members) ==> u == v
  }

  /** A SET value survives decoding: splitting the text gives exactly the chosen members in
      declaration order. Different values give different texts exactly when no member is the
      empty string (members being comma-free and distinct, at most 64 of them). */
  lemma SetDecodingIsLossless(members: seq<string>)
    requires |members| <= 64 && Distinct(members) && forall m :: m in members ==> CommaFree(m)
    ensures TextsDiffer(members) <==> "" !in members
  {
    if "" in members {
      var i :| 0 <= i < |members| && members[i] == "";
      EmptyMemberIsLost(members, i);
    } else {
      forall u: nat, v: nat | u < Pow2(|members|) && v < Pow2(|members|)
                              && SetText(u, members) == SetText(v, members)
        ensures u == v
      {
        SplitOfSetText(u, members);
        SplitOfSetText(v, members);
        forall i | 0 <= i < |members|
          ensures Bit(u, i) == Bit(v, i)
        {
          SelectedDeterminesBits(u, v, members, i);
        }
        BitsDetermine(u, v, |members|);
      }
    }
  }

  lemma SplitOfSetText(u: nat, members: seq<string>)
    requires Clean(members)
    ensures Split(SetText(u, members)) == Selected(u, members, |members|)
  {
    var s := Selected(u, members, |members|);
    forall m | m in s
      ensures m in members
    {
      SelectedMembers(u, members, |members|, m);
    }
    SplitOfJoined(s);
  }

  /** The value with only the empty member reads like the value with none. */
  lemma EmptyMemberIsLost(members: seq<string>, i: nat)
    requires i < |members| <= 64 && members[i] == ""
    ensures Pow2(i) < Pow2(|members|)
    ensures SetText(Pow2(i), members) == SetText(0, members) == ""
  {
    PowersGrow(i, |members|);
    SingleBit(i, members, |members|);
    NoBits(members, |members|);
    if |members| > i { assert Joined([""]) == Append(Joined([]), ""); }
  }

  lemma {:induction false} PowersGrow(i: nat, n: nat)
    requires i < n
    ensures Pow2(i) < Pow2(n)
    decreases n
  {
    if i < n - 1 { PowersGrow(i, n - 1); }
  }

  lemma {:induction false} SingleBit(i: nat, members: seq<string>, n: nat)
    requires i < |members| <= 64 && n <= |members|
    ensures Selected(Pow2(i), members, n) == if i < n then [members[i]] else []
    decreases n
  {
    if n > 0 {
      SingleBit(i, members, n - 1);
      BitOfPower(i, n - 1);
    }
  }

  lemma {:induction false} NoBits(members: seq<string>, n: nat)
    requires n <= |members|
    ensures Selected(0, members, n) == []
    decreases n
  {
    if n > 0 { NoBits(members, n - 1); }
  }

  lemma {:induction false} BitOfPower(i: nat, j: nat)
    requires i < 64 && j < 64
    ensures Bit(Pow2(i), j) <==> i == j
    decreases i
  {
    if i == 0 {
      if j > 0 { PowersGrow(0, j); }
    } else if j == 0 {
      assert Pow2(i) == 2 * Pow2(i - 1) && Pow2(0) == 1;
    } else {
      BitOfPower(i - 1, j - 1);
      BitOfHalf(Pow2(i), j - 1);
      assert Pow2(i) / 2 == Pow2(i - 1);
    }
  }
}
