/**
 CRC-32 (clause 3.2.9 of IEEE 802.3, in the reflected form of section 8 of RFC 1952), the
 checksum of datagrams and sidecars. The bitwise form is the definition; the table-driven
 loop of the source is proved to compute it. What makes it detect errors is that the
 register is an affine function of the message: the checksums of two messages of one length
 differ by a linear function of their difference, and that function is injective on any
 four consecutive bytes.

 A 32-bit register is the sequence of its bits, least significant first, and so is a byte
 once it is fed to the register.
 */
module Crc32 {
  import opened Bytes

  type Word = w: seq<bool> | |w| == 32 witness Repeat(false, 32)
  type Octet = o: seq<bool> | |o| == 8 witness Repeat(false, 8)

  const BYTE_BITS: nat := 8

  const ZERO: Word := Repeat(false, 32)
  const ONES: Word := Repeat(true, 32)
  const CLEAR: Octet := Repeat(false, 8)

  const WORD_BITS: nat := 32
  const POLYNOMIAL: u32 := 0xEDB8_8320
  const POLY: Word := Bits(POLYNOMIAL, WORD_BITS)

  function Repeat(b: bool, n: nat): (s: seq<bool>)
    ensures |s| == n && forall i :: 0 <= i < n ==> s[i] == b
  {
    seq(n, _ => b)
  }

  function Xor(x: Word, y: Word): (z: Word)
    ensures forall i :: 0 <= i < 32 ==> z[i] == (x[i] != y[i])
  {
    seq(32, i requires 0 <= i < 32 => x[i] != y[i])
  }

  function Shift(x: Word): Word {
    x[1..] + [false]
  }

  function BitStep(c: Word): Word {
    if c[0] then Xor(POLY, Shift(c)) else Shift(c)
  }

  function BitSteps(c: Word, k: nat): Word
    decreases k
  {
    if k == 0 then c else BitSteps(BitStep(c), k - 1)
  }

  /** A byte in the low bits of an otherwise clear register. */
  function LowWord(o: Octet): Word {
    o + Repeat(false, 24)
  }

  /** The register moved down by one byte. */
  function Down(c: Word): Word {
    c[8..] + CLEAR
  }

  /** Absorb one message byte: eight shifts of the register. */
  function Feed(c: Word, o: Octet): Word {
    BitSteps(Xor(c, LowWord(o)), BYTE_BITS)
  }

  function Run(c: Word, s: seq<Octet>): Word
    decreases |s|
  {
    if s == [] then c else Run(Feed(c, s[0]), s[1..])
  }

  function Register(s: bytes): Word {
    Xor(Run(ONES, Octets(s)), ONES)
  }

  function Checksum(s: bytes): u32 {
    Powers();
    Value(Register(s))
  }

  function Octets(s: bytes): (o: seq<Octet>)
    ensures |o| == |s| && forall k :: 0 <= k < |s| ==> o[k] == Bits(s[k], 8)
  {
    seq(|s|, k requires 0 <= k < |s| => Bits(s[k], 8))
  }

  // ---- the table form computes the bitwise form ----

  function TableEntry(n: int): Word
    requires 0 <= n < 256
  {
    BitSteps(LowWord(Bits(n, 8)), BYTE_BITS)
  }

  method BuildTable() returns (t: array<Word>)
    ensures fresh(t) && t.Length == 256
    ensures forall n :: 0 <= n < 256 ==> t[n] == TableEntry(n)
  {
    hide TableEntry;
    t := new Word[256];
    for n := 0 to 256
      invariant forall m :: 0 <= m < n ==> t[m] == TableEntry(m)
    {
      t[n] := ShiftOut(n);
    }
  }

  /** The inner loop: eight conditional subtractions of the polynomial. */
  method ShiftOut(n: int) returns (c: Word)
    requires 0 <= n < 256
    ensures c == TableEntry(n)
  {
    hide Xor, Bits, LowWord;
    c := LowWord(Bits(n, 8));
    for k := 0 to BYTE_BITS
      invariant BitSteps(c, BYTE_BITS - k) == TableEntry(n)
    {
      c := if c[0] then Xor(POLY, Shift(c)) else Shift(c);
    }
  }

  function TableIndex(c: Word, b: byte): (n: int)
    ensures 0 <= n < 256
  {
    Powers();
    Value(Xor(c, LowWord(Bits(b, 8)))[..8])
  }

  method ComputeChecksum(s: bytes) returns (crc: u32)
    ensures crc == Checksum(s)
  {
    hide BitSteps, Feed, TableIndex, TableEntry;
    var t := BuildTable();
    var c := ONES;
    ghost var o := Octets(s);
    for i := 0 to |s|
      invariant Run(c, o[i..]) == Run(ONES, o)
      invariant forall n :: 0 <= n < 256 ==> t[n] == TableEntry(n)
    {
      TableStep(c, s[i]);
      RunUnfold(c, o, i);
      var index := TableIndex(c, s[i]);
      c := Xor(t[index], Down(c));
    }
    Powers();
    crc := Value(Xor(c, ONES));
  }

  lemma RunUnfold(c: Word, o: seq<Octet>, i: nat)
    requires i < |o|
    ensures Run(c, o[i..]) == Run(Feed(c, o[i]), o[i + 1..])
  {
    hide Feed;
    assert o[i..][1..] == o[i + 1..];
  }

  /** The low byte goes through the table; the rest of the register only moves down. */
  lemma TableStep(c: Word, b: byte)
    ensures Feed(c, Bits(b, 8)) == Xor(TableEntry(TableIndex(c, b)), Down(c))
  {
    var x := Xor(c, LowWord(Bits(b, 8)));
    BitsOfValue(x[..8]);
    SplitSteps(c, x);
  }

  lemma SplitSteps(c: Word, x: Word)
    requires x[8..] == c[8..]
    ensures BitSteps(x, BYTE_BITS) == Xor(BitSteps(LowWord(x[..8]), BYTE_BITS), Down(c))
  {
    var high := CLEAR + c[8..];
    assert Xor(LowWord(x[..8]), high) == x;
    StepsLinear(LowWord(x[..8]), high, BYTE_BITS);
    PlainShift(high, BYTE_BITS);
    assert high[8..] == c[8..];
  }

  // ---- linearity and injectivity of the register ----

  lemma BitStepLinear(x: Word, y: Word)
    ensures BitStep(Xor(x, y)) == Xor(BitStep(x), BitStep(y))
  {
  }

  lemma {:induction false} StepsLinear(x: Word, y: Word, k: nat)
    ensures BitSteps(Xor(x, y), k) == Xor(BitSteps(x, k), BitSteps(y, k))
    decreases k
  {
    if k > 0 {
      BitStepLinear(x, y);
      StepsLinear(BitStep(x), BitStep(y), k - 1);
    }
  }

  lemma {:induction false} TopBitClear(s: seq<bool>)
    requires s != [] && !s[|s| - 1]
    ensures Value(s) < Pow2(|s| - 1)
  {
    if |s| > 1 { TopBitClear(s[1..]); }
  }

  lemma TopBit()
    ensures POLY[31]
  {
    hide Bits, Value;
    Powers();
    ValueOfBits(POLYNOMIAL, WORD_BITS);
    if !POLY[31] { TopBitClear(POLY); }
  }

  /** The top bit of the polynomial is set, so no bit leaves the register without a trace. */
  lemma BitStepNonzero(x: Word)
    ensures BitStep(x) == ZERO <==> x == ZERO
  {
    if BitStep(x) == ZERO {
      TopBit();
      assert !Shift(x)[31];
      assert !x[0];
      forall i | 1 <= i < 32 ensures !x[i] { assert Shift(x)[i - 1] == x[i]; }
    } else {
      assert x == ZERO ==> Shift(x) == ZERO;
    }
  }

  lemma {:induction false} StepsNonzero(x: Word, k: nat)
    ensures BitSteps(x, k) == ZERO <==> x == ZERO
    decreases k
  {
    if k > 0 {
      BitStepNonzero(x);
      StepsNonzero(BitStep(x), k - 1);
    }
  }

  /** While the low bits are clear the polynomial never enters. */
  lemma {:induction false} PlainShift(x: Word, k: nat)
    requires k <= 32 && forall i :: 0 <= i < k ==> !x[i]
    ensures BitSteps(x, k) == x[k..] + Repeat(false, k)
    decreases k
  {
    if k > 0 {
      PlainShift(Shift(x), k - 1);
      assert Shift(x)[k - 1..] == x[k..] + [false];
    }
  }

  function XorOctet(p: Octet, q: Octet): (r: Octet)
    ensures forall i :: 0 <= i < 8 ==> r[i] == (p[i] != q[i])
  {
    seq(8, i requires 0 <= i < 8 => p[i] != q[i])
  }

  /** The difference of two buffers of one length, byte by byte. */
  function Diff(a: seq<Octet>, b: seq<Octet>): (d: seq<Octet>)
    requires |a| == |b|
    ensures |d| == |a| && forall k :: 0 <= k < |a| ==> d[k] == XorOctet(a[k], b[k])
  {
    seq(|a|, k requires 0 <= k < |a| => XorOctet(a[k], b[k]))
  }

  lemma FeedLinear(x: Word, y: Word, p: Octet, q: Octet)
    ensures Xor(Feed(x, p), Feed(y, q)) == Feed(Xor(x, y), XorOctet(p, q))
  {
    var u, v := Xor(x, LowWord(p)), Xor(y, LowWord(q));
    assert Xor(u, v) == Xor(Xor(x, y), LowWord(XorOctet(p, q)));
    StepsLinear(u, v, BYTE_BITS);
  }

  lemma {:induction false} RunLinear(x: Word, y: Word, a: seq<Octet>, b: seq<Octet>)
    requires |a| == |b|
    ensures Xor(Run(x, a), Run(y, b)) == Run(Xor(x, y), Diff(a, b))
    decreases |a|
  {
    if a != [] {
      assert Diff(a, b)[1..] == Diff(a[1..], b[1..]);
      FeedLinear(x, y, a[0], b[0]);
      RunLinear(Feed(x, a[0]), Feed(y, b[0]), a[1..], b[1..]);
    }
  }

  /** Two checksums differ by a function of the difference of the messages alone. */
  lemma ChecksumDifference(a: bytes, b: bytes)
    requires |a| == |b|
    ensures Xor(Register(a), Register(b)) == Run(ZERO, Diff(Octets(a), Octets(b)))
  {
    var x, y := Run(ONES, Octets(a)), Run(ONES, Octets(b));
    RunLinear(ONES, ONES, Octets(a), Octets(b));
    assert Xor(Xor(x, ONES), Xor(y, ONES)) == Xor(x, y);
    assert Xor(ONES, ONES) == ZERO;
  }

  lemma {:induction false} RunConcat(c: Word, a: seq<Octet>, b: seq<Octet>)
    ensures Run(c, a + b) == Run(Run(c, a), b)
    decreases |a|
  {
    if a == [] {
      assert a + b == b;
    } else {
      assert (a + b)[1..] == a[1..] + b;
      RunConcat(Feed(c, a[0]), a[1..], b);
    }
  }

  /** Zero bytes before or after a difference do not change whether it vanishes. */
  lemma {:induction false} RunOverZeros(c: Word, z: seq<Octet>)
    requires forall k :: 0 <= k < |z| ==> z[k] == CLEAR
    ensures Run(c, z) == ZERO <==> c == ZERO
    decreases |z|
  {
    if z != [] {
      assert Xor(c, LowWord(CLEAR)) == c;
      StepsNonzero(c, BYTE_BITS);
      RunOverZeros(Feed(c, z[0]), z[1..]);
    }
  }

  /** Shifting a pending word through the register absorbs its first byte. */
  lemma WordStep(r: Word, p: Octet, w: Word)
    requires w[..8] == p
    ensures BitSteps(Xor(r, w), BYTE_BITS) == Xor(Feed(r, p), Down(w))
  {
    var low, rest := Xor(r, LowWord(p)), CLEAR + w[8..];
    forall i | 0 <= i < 32 ensures Xor(r, w)[i] == Xor(low, rest)[i] {
      if i < 8 { assert w[i] == w[..8][i] == p[i] == LowWord(p)[i]; }
    }
    assert Xor(r, w) == Xor(low, rest);
    StepsLinear(low, rest, BYTE_BITS);
    PlainShift(rest, BYTE_BITS);
    assert rest[8..] == w[8..];
  }

  /** Four bytes are fed as one 32-bit word, so nothing of them is lost. */
  lemma RunOfWord(p: Octet, q: Octet, t: Octet, u: Octet)
    ensures Run(ZERO, [p, q, t, u]) == ZERO <==> p == q == t == u == CLEAR
  {
    hide BitSteps, Feed, Run;
    var w := p + q + t + u;
    WordThrough(p, q, t, u);
    RunFour(ZERO, p, q, t, u);
    var s1 := BitSteps(w, BYTE_BITS);
    var s2 := BitSteps(s1, BYTE_BITS);
    var s3 := BitSteps(s2, BYTE_BITS);
    StepsNonzero(w, BYTE_BITS);
    StepsNonzero(s1, BYTE_BITS);
    StepsNonzero(s2, BYTE_BITS);
    StepsNonzero(s3, BYTE_BITS);
    assert w[..8] == p && w[8..16] == q && w[16..24] == t && w[24..] == u;
    assert CLEAR + CLEAR + CLEAR + CLEAR == ZERO;
    assert w == ZERO ==> p == ZERO[..8] && q == ZERO[8..16] && t == ZERO[16..24] && u == ZERO[24..];
    assert ZERO[..8] == CLEAR && ZERO[8..16] == CLEAR && ZERO[16..24] == CLEAR && ZERO[24..] == CLEAR;
  }

  lemma WordThrough(p: Octet, q: Octet, t: Octet, u: Octet)
    ensures BitSteps(BitSteps(BitSteps(BitSteps(p + q + t + u, BYTE_BITS), BYTE_BITS), BYTE_BITS), BYTE_BITS)
         == Feed(Feed(Feed(Feed(ZERO, p), q), t), u)
  {
    hide BitSteps, Feed;
    var w0: Word := p + q + t + u;
    var w1: Word := q + t + u + CLEAR;
    var w2: Word := t + u + CLEAR + CLEAR;
    var w3: Word := u + CLEAR + CLEAR + CLEAR;
    assert Down(w0) == w1 && Down(w1) == w2 && Down(w2) == w3 && Down(w3) == ZERO;
    var r1 := Feed(ZERO, p);
    var r2 := Feed(r1, q);
    var r3 := Feed(r2, t);
    var r4 := Feed(r3, u);
    WordStep(ZERO, p, w0);
    WordStep(r1, q, w1);
    WordStep(r2, t, w2);
    WordStep(r3, u, w3);
    assert Xor(ZERO, w0) == w0 && Xor(r4, ZERO) == r4;
  }

  lemma RunFour(r: Word, p: Octet, q: Octet, t: Octet, u: Octet)
    ensures Run(r, [p, q, t, u]) == Feed(Feed(Feed(Feed(r, p), q), t), u)
  {
    RunConcat(r, [p, q, t], [u]);
    RunConcat(r, [p, q], [t]);
    RunConcat(r, [p], [q]);
    assert [p] + [q] == [p, q] && [p, q] + [t] == [p, q, t] && [p, q, t] + [u] == [p, q, t, u];
    RunOne(r, p);
    RunOne(Feed(r, p), q);
    RunOne(Feed(Feed(r, p), q), t);
    RunOne(Feed(Feed(Feed(r, p), q), t), u);
  }

  lemma RunOne(r: Word, p: Octet)
    ensures Run(r, [p]) == Feed(r, p)
  {
    assert [p][1..] == [];
  }

  /**
   A nonzero difference confined to four consecutive bytes changes the checksum.
   */
  lemma BurstDetected(a: bytes, b: bytes, at: nat)
    requires |a| == |b| && a != b
    requires forall k :: 0 <= k < |a| && !(at <= k < at + 4) ==> a[k] == b[k]
    ensures Checksum(a) != Checksum(b)
  {
    hide Bits, Run, Register;
    var d := Diff(Octets(a), Octets(b));
    var k0 :| 0 <= k0 < |a| && a[k0] != b[k0];
    forall k | 0 <= k < |a| ensures d[k] == CLEAR <==> a[k] == b[k] { ByteDifference(a[k], b[k]); }
    BurstNonzero(d, at, k0);
    ChecksumDifference(a, b);
    assert Xor(Register(a), Register(a)) == ZERO;
    BitsOfValue(Register(a));
    BitsOfValue(Register(b));
  }

  lemma ByteDifference(x: byte, y: byte)
    ensures XorOctet(Bits(x, 8), Bits(y, 8)) == CLEAR <==> x == y
  {
    hide Bits;
    var p, q := Bits(x, 8), Bits(y, 8);
    if XorOctet(p, q) == CLEAR {
      forall i | 0 <= i < 8 ensures p[i] == q[i] { assert !XorOctet(p, q)[i]; }
      assert p == q;
      Powers();
      ValueOfBits(x, 8);
      ValueOfBits(y, 8);
    }
  }

  /** A window sticking out past the end is the same as one padded with zero bytes. */
  lemma Window(d: seq<Octet>, at: nat, k0: nat) returns (before: seq<Octet>, word: seq<Octet>, after: seq<Octet>)
    requires at <= k0 < at + 4 && k0 < |d| && d[k0] != CLEAR
    requires forall k :: 0 <= k < |d| && !(at <= k < at + 4) ==> d[k] == CLEAR
    ensures d + [CLEAR, CLEAR, CLEAR, CLEAR] == before + word + after
    ensures |word| == 4 && word == [word[0], word[1], word[2], word[3]]
    ensures !(word[0] == word[1] == word[2] == word[3] == CLEAR)
    ensures forall k :: 0 <= k < |before| ==> before[k] == CLEAR
    ensures forall k :: 0 <= k < |after| ==> after[k] == CLEAR
  {
    var padded := d + [CLEAR, CLEAR, CLEAR, CLEAR];
    before, word, after := padded[..at], padded[at..at + 4], padded[at + 4..];
    assert word[k0 - at] == d[k0];
    assert forall k :: 0 <= k < |after| ==> after[k] == padded[at + 4 + k];
  }

  lemma BurstNonzero(d: seq<Octet>, at: nat, k0: nat)
    requires at <= k0 < at + 4 && k0 < |d| && d[k0] != CLEAR
    requires forall k :: 0 <= k < |d| && !(at <= k < at + 4) ==> d[k] == CLEAR
    ensures Run(ZERO, d) != ZERO
  {
    hide Run;
    var before, word, after := Window(d, at, k0);
    var pad := [CLEAR, CLEAR, CLEAR, CLEAR];
    RunConcat(ZERO, before + word, after);
    RunConcat(ZERO, before, word);
    RunOverZeros(ZERO, before);
    RunOfWord(word[0], word[1], word[2], word[3]);
    RunOverZeros(Run(ZERO, word), after);
    RunConcat(ZERO, d, pad);
    RunOverZeros(Run(ZERO, d), pad);
  }
}
