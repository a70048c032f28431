/** Bytes, their bits, and little-endian integers, as the wire and the sidecar lay them out. */
module Bytes {
  type byte = x: int | 0 <= x < 256
  type bytes = seq<byte>

  type u16 = x: int | 0 <= x < 0x1_0000
  type u32 = x: int | 0 <= x < 0x1_0000_0000
  type u64 = x: int | 0 <= x < 0x1_0000_0000_0000_0000
  type i64 = x: int | -0x8000_0000_0000_0000 <= x < 0x8000_0000_0000_0000

  const U32 := 0x1_0000_0000
  const U64 := 0x1_0000_0000_0000_0000

  // ---- bits ----

  function Pow2(n: nat): (p: nat)
    ensures p > 0
  {
    if n == 0 then 1 else 2 * Pow2(n - 1)
  }

  /** The `n` low bits of an unsigned integer, least significant first. */
  function Bits(x: nat, n: nat): (s: seq<bool>)
    ensures |s| == n
  {
    if n == 0 then [] else [x % 2 == 1] + Bits(x / 2, n - 1)
  }

  function Value(s: seq<bool>): (x: nat)
    ensures x < Pow2(|s|)
  {
    if s == [] then 0 else (if s[0] then 1 else 0) + 2 * Value(s[1..])
  }

  lemma {:induction false} ValueOfBits(x: nat, n: nat)
    requires x < Pow2(n)
    ensures Value(Bits(x, n)) == x
  {
    if n > 0 {
      ValueOfBits(x / 2, n - 1);
      assert Bits(x, n)[1..] == Bits(x / 2, n - 1);
    }
  }

  lemma {:induction false} BitsOfValue(s: seq<bool>)
    ensures Bits(Value(s), |s|) == s
  {
    if s != [] {
      BitsOfValue(s[1..]);
      assert s == [s[0]] + s[1..];
    }
  }

  lemma {:induction false} ValueConcat(a: seq<bool>, b: seq<bool>)
    ensures Value(a + b) == Value(a) + Pow2(|a|) * Value(b)
  {
    if a == [] {
      assert a + b == b;
    } else {
      ValueConcat(a[1..], b);
      assert (a + b)[1..] == a[1..] + b;
      Double(Pow2(|a| - 1), Value(b));
    }
  }

  lemma Double(x: int, y: int)
    ensures (2 * x) * y == 2 * (x * y)
  {
  }

  /** `x & y` on `n`-bit words. */
  function And(x: nat, y: nat, n: nat): nat {
    Value(seq(n, i requires 0 <= i < n => Bits(x, n)[i] && Bits(y, n)[i]))
  }

  // ---- little-endian integers ----

  function Zeros(n: nat): (s: bytes)
    ensures |s| == n && forall k :: 0 <= k < n ==> s[k] == 0
  {
    seq(n, _ => 0)
  }

  function Pow256(n: nat): (p: nat)
    ensures p > 0
  {
    if n == 0 then 1 else 256 * Pow256(n - 1)
  }

  /** `to_le_bytes` for an `n`-byte unsigned integer. */
  function LeBytes(x: nat, n: nat): (s: bytes)
    ensures |s| == n
  {
    if n == 0 then [] else [x % 256] + LeBytes(x / 256, n - 1)
  }

  /** `from_le_bytes`. */
  function LeValue(s: bytes): (x: nat)
    ensures x < Pow256(|s|)
  {
    if s == [] then 0 else s[0] + 256 * LeValue(s[1..])
  }

  lemma {:induction false} LeValueOfBytes(x: nat, n: nat)
    requires x < Pow256(n)
    ensures LeValue(LeBytes(x, n)) == x
  {
    if n > 0 {
      LeValueOfBytes(x / 256, n - 1);
      assert LeBytes(x, n)[1..] == LeBytes(x / 256, n - 1);
    }
  }

  lemma {:induction false} LeBytesOfValue(s: bytes)
    ensures LeBytes(LeValue(s), |s|) == s
  {
    if s != [] {
      LeBytesOfValue(s[1..]);
      var x := LeValue(s);
      assert x % 256 == s[0] && x / 256 == LeValue(s[1..]);
      assert s == [s[0]] + s[1..];
    }
  }

  /** The two's complement reading of an `i64`. */
  function I64Bits(x: i64): (u: u64) {
    if x < 0 then x + U64 else x
  }

  function I64Of(u: u64): (x: i64)
    ensures I64Bits(x) == u
  {
    if u < 0x8000_0000_0000_0000 then u else u - U64
  }

  lemma Powers()
    ensures Pow256(2) == 0x1_0000 && Pow256(4) == U32 && Pow256(8) == U64
    ensures Pow2(8) == 256 && Pow2(31) == 0x8000_0000 && Pow2(32) == U32
  {
    assert Pow256(4) == 256 * (256 * (256 * (256 * Pow256(0))));
    assert Pow256(8) == 256 * (256 * (256 * (256 * Pow256(4))));
    assert Pow2(8) == 256;
    assert Pow2(16) == 256 * Pow2(8);
    assert Pow2(24) == 256 * Pow2(16);
    assert Pow2(31) == 128 * Pow2(24);
    assert Pow2(32) == 2 * Pow2(31);
  }

  // ---- integers inside a buffer, written out ----

  /** Two bytes from `i` on, least significant first. */
  function U16At(b: bytes, i: nat): nat
    requires i + 2 <= |b|
  {
    b[i] as int + 0x100 * (b[i + 1] as int)
  }

  function U32At(b: bytes, i: nat): nat
    requires i + 4 <= |b|
  {
    U16At(b, i) + 0x1_0000 * U16At(b, i + 2)
  }

  function U64At(b: bytes, i: nat): nat
    requires i + 8 <= |b|
  {
    U32At(b, i) + 0x1_0000_0000 * U32At(b, i + 4)
  }

  lemma LeTwo(s: bytes)
    requires |s| >= 2
    ensures LeValue(s) == U16At(s, 0) + 0x1_0000 * LeValue(s[2..])
  {
    assert s[1..][1..] == s[2..];
  }

  lemma LeFour(s: bytes)
    requires |s| >= 4
    ensures LeValue(s) == U32At(s, 0) + 0x1_0000_0000 * LeValue(s[4..])
  {
    LeTwo(s);
    LeTwo(s[2..]);
    assert s[2..][2..] == s[4..];
  }

  /** A field written with `to_le_bytes` has its value at its place. */
  lemma FieldAt(b: bytes, i: nat, x: nat, n: nat)
    requires i + n <= |b| && b[i..i + n] == LeBytes(x, n) && x < Pow256(n)
    ensures n == 2 ==> U16At(b, i) == x
    ensures n == 4 ==> U32At(b, i) == x
    ensures n == 8 ==> U64At(b, i) == x
  {
    LeValueOfBytes(x, n);
    var s := b[i..i + n];
    hide LeBytes, Pow256;
    if n == 2 {
      LeTwo(s);
    } else if n == 4 {
      LeFour(s);
    } else if n == 8 {
      LeFour(s);
      LeFour(s[4..]);
    }
  }
}
