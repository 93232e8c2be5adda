/** Octets and the big-endian integers the wire formats are made of. */
module Bytes {
  type byte = x: int | 0 <= x < 0x100
  type uint16 = x: int | 0 <= x < 0x1_0000
  type uint24 = x: int | 0 <= x < 0x100_0000
  type uint32 = x: int | 0 <= x < 0x1_0000_0000

  type Bytes = seq<byte>

  function U16(v: uint16): (b: Bytes)
    ensures |b| == 2
  {
    [v / 0x100, v % 0x100]
  }

  function U24(v: uint24): (b: Bytes)
    ensures |b| == 3
  {
    [v / 0x1_0000] + U16(v % 0x1_0000)
  }

  function U32(v: uint32): (b: Bytes)
    ensures |b| == 4
  {
    U16(v / 0x1_0000) + U16(v % 0x1_0000)
  }

  function GetU16(b: Bytes, i: nat): uint16
    requires i + 2 <= |b|
  {
    var high, low: int := b[i], b[i + 1];
    high * 0x100 + low
  }

  function GetU24(b: Bytes, i: nat): uint24
    requires i + 3 <= |b|
  {
    var high, low: int := b[i], GetU16(b, i + 1);
    high * 0x1_0000 + low
  }

  function GetU32(b: Bytes, i: nat): uint32
    requires i + 4 <= |b|
  {
    var high, low: int := GetU16(b, i), GetU16(b, i + 2);
    high * 0x1_0000 + low
  }

  function Zeros(n: nat): (b: Bytes)
    ensures |b| == n && forall i | 0 <= i < n :: b[i] == 0
  {
    seq(n, _ => 0)
  }

  lemma SliceOfSlice(b: Bytes, i: nat, j: nat, k: nat)
    requires i + k <= |b| && j <= k
    ensures b[i..][j..k] == b[i + j..i + k]
  {
  }

  lemma Window(b: Bytes, i: nat, n: nat, j: nat, k: nat)
    requires i + n <= |b| && j <= k <= n
    ensures b[i..i + n][j..k] == b[i + j..i + k]
  {
    var c := b[i..i + n];
    assert forall x | 0 <= x < k - j :: c[j..k][x] == c[j + x];
  }

  // Reading gives v exactly when the octets there are those v is written as.
  lemma U16At(b: Bytes, i: nat, v: uint16)
    requires i + 2 <= |b|
    ensures GetU16(b, i) == v <==> b[i] == U16(v)[0] && b[i + 1] == U16(v)[1]
  {
  }

  lemma U24At(b: Bytes, i: nat, v: uint24)
    requires i + 3 <= |b|
    ensures GetU24(b, i) == v <==> b[i] == U24(v)[0] && b[i + 1] == U24(v)[1] && b[i + 2] == U24(v)[2]
  {
    U16At(b, i + 1, v % 0x1_0000);
  }

  lemma U32At(b: Bytes, i: nat, v: uint32)
    requires i + 4 <= |b|
    ensures GetU32(b, i) == v <==>
            b[i] == U32(v)[0] && b[i + 1] == U32(v)[1] && b[i + 2] == U32(v)[2] && b[i + 3] == U32(v)[3]
  {
    U16At(b, i, v / 0x1_0000);
    U16At(b, i + 2, v % 0x1_0000);
  }

  lemma SameParts(a: Bytes, b: Bytes, c: Bytes, d: Bytes)
    requires |a| == |c| || |b| == |d|
    ensures a + b == c + d <==> a == c && b == d
  {
    if a + b == c + d {
      assert |a| + |b| == |a + b| == |c + d| == |c| + |d|;
      assert a == (a + b)[..|a|] && b == (a + b)[|a|..];
      assert c == (c + d)[..|c|] && d == (c + d)[|c|..];
    }
  }
}
