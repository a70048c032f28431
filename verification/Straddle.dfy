/**
 Damage on both sides of the boundary between the CRC field and the payload, where the CRC
 gives no guarantee. Whether any passes depends on the payload length and on where the window
 of four bytes lies, and on nothing else in the packet.
 */
module Straddle {
  import opened Bytes
  import opened Crc32
  import opened Packets

  // ---- the register, bit by bit ----

  datatype Oct = Oct(b0: bool, b1: bool, b2: bool, b3: bool, b4: bool, b5: bool, b6: bool, b7: bool)
  datatype Reg = Reg(a: Oct, b: Oct, c: Oct, d: Oct)

  const NONE := Oct(false, false, false, false, false, false, false, false)

  /** The polynomial 0xEDB88320, low byte first. */
  const POLY_REG := Reg(
    Oct(false, false, false, false, false, true, false, false),
    Oct(true, true, false, false, false, false, false, true),
    Oct(false, false, false, true, true, true, false, true),
    Oct(true, false, true, true, false, true, true, true))

  function Moved(o: Oct, top: bool): Oct {
    Oct(o.b1, o.b2, o.b3, o.b4, o.b5, o.b6, o.b7, top)
  }

  function Flip(o: Oct, p: Oct): Oct {
    Oct(o.b0 != p.b0, o.b1 != p.b1, o.b2 != p.b2, o.b3 != p.b3, o.b4 != p.b4, o.b5 != p.b5, o.b6 != p.b6, o.b7 != p.b7)
  }

  /** One step: the register moves down, and the polynomial is added where the bit that drops out is set. */
  function StepReg(r: Reg): Reg {
    var t := r.a.b0;
    Reg(
      Oct(r.a.b1, r.a.b2, r.a.b3, r.a.b4, r.a.b5, r.a.b6 != t, r.a.b7, r.b.b0),
      Oct(r.b.b1 != t, r.b.b2 != t, r.b.b3, r.b.b4, r.b.b5, r.b.b6, r.b.b7, r.c.b0 != t),
      Oct(r.c.b1, r.c.b2, r.c.b3, r.c.b4 != t, r.c.b5 != t, r.c.b6 != t, r.c.b7, r.d.b0 != t),
      Oct(r.d.b1 != t, r.d.b2, r.d.b3 != t, r.d.b4 != t, r.d.b5, r.d.b6 != t, r.d.b7 != t, t))
  }

  lemma StepRegAdds(r: Reg)
    ensures var s := Reg(Moved(r.a, r.b.b0), Moved(r.b, r.c.b0), Moved(r.c, r.d.b0), Moved(r.d, false));
      StepReg(r) == if r.a.b0 then Reg(Flip(s.a, POLY_REG.a), Flip(s.b, POLY_REG.b), Flip(s.c, POLY_REG.c),
          Flip(s.d, POLY_REG.d)) else s
  {
  }

  function FeedReg(r: Reg, p: Oct): Reg {
    StepReg(StepReg(StepReg(StepReg(StepReg(StepReg(StepReg(StepReg(r.(a := Flip(r.a, p))))))))))
  }

  function OctAt(w: seq<bool>, i: nat): Oct
    requires i + 8 <= |w|
  {
    Oct(w[i], w[i + 1], w[i + 2], w[i + 3], w[i + 4], w[i + 5], w[i + 6], w[i + 7])
  }

  function RegOf(w: Word): Reg {
    Reg(OctAt(w, 0), OctAt(w, 8), OctAt(w, 16), OctAt(w, 24))
  }

  lemma XorReg(x: Word, y: Word)
    ensures RegOf(Xor(x, y)) == Reg(Flip(RegOf(x).a, RegOf(y).a), Flip(RegOf(x).b, RegOf(y).b),
                                    Flip(RegOf(x).c, RegOf(y).c), Flip(RegOf(x).d, RegOf(y).d))
  {
    XorOct(x, y, 0);
    XorOct(x, y, 8);
    XorOct(x, y, 16);
    XorOct(x, y, 24);
  }

  lemma XorOct(x: Word, y: Word, i: nat)
    requires i <= 24
    ensures OctAt(Xor(x, y), i) == Flip(OctAt(x, i), OctAt(y, i))
  {
  }

  lemma ShiftOct(x: Word, i: nat)
    requires i <= 24
    ensures OctAt(Shift(x), i) == Moved(OctAt(x, i), if i < 24 then x[i + 8] else false)
  {
  }

  lemma {:induction false} BitsJoin(r: nat, q: nat, k: nat, n: nat)
    requires r < Pow2(k)
    ensures Bits(r + Pow2(k) * q, k + n) == Bits(r, k) + Bits(q, n)
  {
    if k > 0 {
      var x := r + Pow2(k) * q;
      Double(Pow2(k - 1), q);
      assert x / 2 == r / 2 + Pow2(k - 1) * q && x % 2 == r % 2;
      BitsJoin(r / 2, q, k - 1, n);
    }
  }

  lemma PolyBytes()
    ensures POLY == Bits(0x20, 8) + Bits(0x83, 8) + Bits(0xB8, 8) + Bits(0xED, 8)
  {
    hide Bits, Pow2;
    Powers();
    BitsJoin(0x20, 0xEDB883, 8, 24);
    BitsJoin(0x83, 0xEDB8, 8, 16);
    BitsJoin(0xB8, 0xED, 8, 8);
    assert 0x20 + 256 * 0xEDB883 == POLYNOMIAL && 0x83 + 256 * 0xEDB8 == 0xEDB883 && 0xB8 + 256 * 0xED == 0xEDB8;
  }

  lemma PolyIs()
    ensures RegOf(POLY) == POLY_REG
  {
    PolyBytes();
    assert OctAt(Bits(0x20, 8), 0) == POLY_REG.a;
    assert OctAt(Bits(0x83, 8), 0) == POLY_REG.b;
    assert OctAt(Bits(0xB8, 8), 0) == POLY_REG.c;
    assert OctAt(Bits(0xED, 8), 0) == POLY_REG.d;
    OctInWord(Bits(0x20, 8), Bits(0x83, 8), Bits(0xB8, 8), Bits(0xED, 8));
  }

  lemma OctInWord(a: Octet, b: Octet, c: Octet, d: Octet)
    ensures RegOf(a + b + c + d) == Reg(OctAt(a, 0), OctAt(b, 0), OctAt(c, 0), OctAt(d, 0))
  {
  }

  lemma ShiftReg(w: Word)
    ensures var r := RegOf(w);
      RegOf(Shift(w)) == Reg(Moved(r.a, r.b.b0), Moved(r.b, r.c.b0), Moved(r.c, r.d.b0), Moved(r.d, false))
    ensures RegOf(w).a.b0 == w[0]
  {
    ShiftOct(w, 0);
    ShiftOct(w, 8);
    ShiftOct(w, 16);
    ShiftOct(w, 24);
    hide Shift, Moved;
  }

  lemma StepIs(w: Word)
    ensures RegOf(BitStep(w)) == StepReg(RegOf(w))
  {
    PolyIs();
    XorReg(POLY, Shift(w));
    ShiftReg(w);
    hide Shift, Xor, RegOf, Moved, POLY;
    StepRegAdds(RegOf(w));
    hide StepReg;
    var s := RegOf(Shift(w));
    FlipOrder(s.a, POLY_REG.a);
    FlipOrder(s.b, POLY_REG.b);
    FlipOrder(s.c, POLY_REG.c);
    FlipOrder(s.d, POLY_REG.d);
    hide Flip;
  }

  lemma FlipOrder(o: Oct, p: Oct)
    ensures Flip(o, p) == Flip(p, o)
  {
  }

  lemma LowReg(w: Word, o: Octet)
    ensures RegOf(Xor(w, LowWord(o))) == RegOf(w).(a := Flip(RegOf(w).a, OctAt(o, 0)))
  {
    XorReg(w, LowWord(o));
  }

  lemma FeedIs(w: Word, o: Octet)
    ensures RegOf(Feed(w, o)) == FeedReg(RegOf(w), OctAt(o, 0))
  {
    hide StepReg, BitStep, RegOf, Xor, LowWord, Flip, OctAt, BitSteps;
    LowReg(w, o);
    var w0 := Xor(w, LowWord(o));
    EightSteps(w0);
    StepIs(w0);
    StepIs(BitSteps(w0, 1));
    StepIs(BitSteps(w0, 2));
    StepIs(BitSteps(w0, 3));
    StepIs(BitSteps(w0, 4));
    StepIs(BitSteps(w0, 5));
    StepIs(BitSteps(w0, 6));
    StepIs(BitSteps(w0, 7));
  }

  lemma {:induction false} StepLast(c: Word, k: nat)
    ensures BitSteps(c, k + 1) == BitStep(BitSteps(c, k))
    decreases k
  {
    hide BitStep;
    if k > 0 { StepLast(BitStep(c), k - 1); }
  }

  lemma EightSteps(c: Word)
    ensures BitSteps(c, 1) == BitStep(c)
    ensures forall k :: 1 <= k < 8 ==> BitSteps(c, k + 1) == BitStep(BitSteps(c, k))
  {
    StepLast(c, 0);
    forall k | 1 <= k < 8 ensures BitSteps(c, k + 1) == BitStep(BitSteps(c, k)) { StepLast(c, k); }
  }

  // ---- damage that goes unseen ----

  /** `e` differs from the encoded packet in the last `k` CRC bytes and the payload after them, and is accepted. */
  ghost predicate Missed(p: Packet, k: nat, e: bytes)
    requires 1 <= k <= 3
  {
    e != Encode(p) && Confined(e, Encode(p), 32 - k) && Decode(e).Success?
  }

  /** A payload difference inside the window that leaves the CRC bytes outside it as they were. */
  ghost predicate Silent(k: nat, d: seq<Octet>)
    requires 1 <= k <= 3
  {
    && (exists i :: 0 <= i < |d| && d[i] != CLEAR)
    && (forall i :: 4 - k <= i < |d| ==> d[i] == CLEAR)
    && LowClear(Run(ZERO, d), 8 * (4 - k))
  }

  ghost predicate LowClear(w: Word, n: nat)
    requires n <= 32
  {
    forall i :: 0 <= i < n ==> !w[i]
  }

  /** Some difference of an `n`-byte payload is silent. */
  ghost predicate Escapes(n: nat, k: nat)
    requires 1 <= k <= 3
  {
    exists d: seq<Octet> :: |d| == n && Silent(k, d)
  }

  // ---- CRC bytes and register bits ----

  lemma {:induction false} ByteOfWord(w: seq<bool>, n: nat, i: nat)
    requires |w| == 8 * n && i < n
    ensures LeBytes(Value(w), n)[i] == Value(w[8 * i..8 * i + 8])
  {
    var low, rest := w[..8], w[8..];
    assert w == low + rest;
    ValueConcat(low, rest);
    Powers();
    assert Value(w) % 256 == Value(low) && Value(w) / 256 == Value(rest);
    if i > 0 {
      ByteOfWord(rest, n - 1, i - 1);
      assert rest[8 * (i - 1)..8 * (i - 1) + 8] == w[8 * i..8 * i + 8];
    }
  }

  /** Two registers agree in their low bytes exactly when the difference is clear there. */
  lemma KeptBytes(r: Word, d: Word, m: nat)
    requires m <= 4
    ensures LeBytes(Value(Xor(r, d)), 4)[..m] == LeBytes(Value(r), 4)[..m] <==> LowClear(d, 8 * m)
  {
    hide Value, LeBytes, Xor;
    var x, a, b := Xor(r, d), LeBytes(Value(Xor(r, d)), 4), LeBytes(Value(r), 4);
    forall i | 0 <= i < m ensures a[i] == b[i] <==> x[8 * i..8 * i + 8] == r[8 * i..8 * i + 8] {
      ByteOfWord(x, 4, i);
      ByteOfWord(r, 4, i);
      BitsOfValue(x[8 * i..8 * i + 8]);
      BitsOfValue(r[8 * i..8 * i + 8]);
    }
    if a[..m] == b[..m] {
      forall j | 0 <= j < 8 * m ensures !d[j] {
        var i := j / 8;
        assert a[..m][i] == b[..m][i];
        assert x[8 * i..8 * i + 8][j - 8 * i] == r[8 * i..8 * i + 8][j - 8 * i];
      }
    }
    if LowClear(d, 8 * m) {
      forall i | 0 <= i < m ensures a[i] == b[i] {
        assert forall j :: 8 * i <= j < 8 * i + 8 ==> x[j] == r[j];
      }
    }
  }

  // ---- the payload difference alone decides the register difference ----

  function PayloadDiff(a: bytes, b: bytes): (d: seq<Octet>)
    requires |a| == |b| >= 32
    ensures |d| == |a| - 32
  {
    Diff(Octets(a[32..]), Octets(b[32..]))
  }

  lemma RunOfPayload(a: bytes, b: bytes)
    requires |a| == |b| >= 32 && a[..28] == b[..28]
    ensures Run(ZERO, Diff(Octets(Zeroed(a)), Octets(Zeroed(b)))) == Run(ZERO, PayloadDiff(a, b))
  {
    hide Run, Bits, XorOctet;
    var x, y := Zeroed(a), Zeroed(b);
    var d, tail := Diff(Octets(x), Octets(y)), PayloadDiff(a, b);
    var head := seq(32, _ => CLEAR);
    forall i | 0 <= i < |d| ensures d[i] == (head + tail)[i] {
      if i < 32 {
        assert x[i] == y[i] by { if i < 28 { assert a[i] == a[..28][i] == b[..28][i] == b[i]; } }
        ByteDifference(x[i], y[i]);
      } else {
        assert x[i] == a[32..][i - 32] && y[i] == b[32..][i - 32];
      }
    }
    assert d == head + tail;
    RunConcat(ZERO, head, tail);
    RunOverZeros(ZERO, head);
  }

  /** The register behind an encoded packet's CRC field. */
  function PacketRegister(p: Packet): Word {
    Register(Zeroed(Encode(p)))
  }

  /** With the header kept, exactly one CRC field is accepted for each payload. */
  lemma AcceptedField(p: Packet, e: bytes)
    requires p.Fits() && |e| == |Encode(p)| && e[..28] == Encode(p)[..28]
    ensures Decode(e).Success? <==>
      e[28..32] == LeBytes(Value(Xor(PacketRegister(p), Run(ZERO, PayloadDiff(Encode(p), e)))), 4)
  {
    hide Encode, Decode, Zeroed, Run, Register, Value, PayloadDiff, Xor;
    StraddlingDamage(p, e);
    RunOfPayload(Encode(p), e);
    var w := Xor(PacketRegister(p), Run(ZERO, PayloadDiff(Encode(p), e)));
    Powers();
    LeValueOfBytes(Value(w), 4);
    LeBytesOfValue(e[28..32]);
  }

  lemma OwnField(p: Packet)
    requires p.Fits()
    ensures Encode(p)[28..32] == LeBytes(Value(PacketRegister(p)), 4)
  {
    hide Encode, Decode, Zeroed, Run, Register, Value, PayloadDiff;
    DecodeEncode(p);
    AcceptedField(p, Encode(p));
    NoDiff(Encode(p));
    assert Xor(PacketRegister(p), ZERO) == PacketRegister(p);
  }

  lemma NoDiff(a: bytes)
    requires |a| >= 32
    ensures Run(ZERO, PayloadDiff(a, a)) == ZERO
  {
    hide Run, Bits, XorOctet;
    forall i | 0 <= i < |a| - 32 ensures PayloadDiff(a, a)[i] == CLEAR { ByteDifference(a[32..][i], a[32..][i]); }
    RunOverZeros(ZERO, PayloadDiff(a, a));
  }

  lemma MissedIsSilent(p: Packet, k: nat, e: bytes)
    requires 1 <= k <= 3 && p.Fits() && Missed(p, k, e)
    ensures Silent(k, PayloadDiff(Encode(p), e))
  {
    hide Encode, Decode, Run, Value, Bits, PacketRegister, LowClear, XorOctet, Missed, LeBytes, Xor;
    MissedOutside(p, k, e);
    MissedChangesPayload(p, k, e);
    var d := PayloadDiff(Encode(p), e);
    hide PayloadDiff;
    AcceptedField(p, e);
    OwnField(p);
    KeptBytes(PacketRegister(p), Run(ZERO, d), 4 - k);
  }

  /** Outside the window the CRC field and the payload are as they were. */
  lemma MissedOutside(p: Packet, k: nat, e: bytes)
    requires 1 <= k <= 3 && p.Fits() && Missed(p, k, e)
    ensures |e| == |Encode(p)| && e[..28] == Encode(p)[..28] && Decode(e).Success?
    ensures e[28..32][..4 - k] == Encode(p)[28..32][..4 - k]
    ensures forall i :: 4 - k <= i < |e| - 32 ==> PayloadDiff(Encode(p), e)[i] == CLEAR
  {
    hide Encode, Decode, Bits, XorOctet;
    var E := Encode(p);
    forall i | 4 - k <= i < |e| - 32 ensures PayloadDiff(E, e)[i] == CLEAR {
      assert e[32..][i] == E[32..][i];
      ByteDifference(E[32..][i], e[32..][i]);
    }
  }

  /** A change of the CRC field alone is never accepted. */
  lemma MissedChangesPayload(p: Packet, k: nat, e: bytes)
    requires 1 <= k <= 3 && p.Fits() && Missed(p, k, e)
    ensures exists i :: 0 <= i < |PayloadDiff(Encode(p), e)| && PayloadDiff(Encode(p), e)[i] != CLEAR
  {
    var E := Encode(p);
    var d := PayloadDiff(E, e);
    MissedOutside(p, k, e);
    hide Encode, Decode, Run, Value, Bits, PacketRegister, XorOctet, LeBytes;
    if forall i :: 0 <= i < |d| ==> d[i] == CLEAR {
      forall i | 0 <= i < |d| ensures e[32..][i] == E[32..][i] { ByteDifference(E[32..][i], e[32..][i]); }
      assert e[32..] == E[32..];
      RunOverZeros(ZERO, d);
      assert Xor(PacketRegister(p), ZERO) == PacketRegister(p);
      AcceptedField(p, e);
      OwnField(p);
      SamePieces(e, E);
    }
  }

  lemma SamePieces(a: bytes, b: bytes)
    requires |a| == |b| >= 32 && a[..28] == b[..28] && a[28..32] == b[28..32] && a[32..] == b[32..]
    ensures a == b
  {
    assert a == a[..28] + a[28..32] + a[32..] && b == b[..28] + b[28..32] + b[32..];
  }

  /** The payload changed by `d`. */
  function Changed(payload: bytes, d: seq<Octet>): (q: bytes)
    requires |d| == |payload|
    ensures |q| == |payload|
  {
    Powers();
    seq(|d|, i requires 0 <= i < |d| => Value(XorOctet(Bits(payload[i], 8), d[i])))
  }

  lemma ChangedDiff(payload: bytes, d: seq<Octet>, i: nat)
    requires i < |d| == |payload|
    ensures XorOctet(Bits(payload[i], 8), Bits(Changed(payload, d)[i], 8)) == d[i]
  {
    BitsOfValue(XorOctet(Bits(payload[i], 8), d[i]));
    hide Bits, Value;
  }

  /** The packet as it arrives after a silent change: header kept, CRC field changed to match. */
  function Forged(p: Packet, d: seq<Octet>): (e: bytes)
    requires |d| == |p.payload|
    ensures |e| == |Encode(p)|
  {
    Encode(p)[..28] + LeBytes(Value(Xor(PacketRegister(p), Run(ZERO, d))), 4) + Changed(p.payload, d)
  }

  lemma PayloadPart(p: Packet)
    ensures Encode(p)[32..] == p.payload
  {
  }

  lemma ForgedDiff(p: Packet, d: seq<Octet>)
    requires |d| == |p.payload|
    ensures PayloadDiff(Encode(p), Forged(p, d)) == d
    ensures Forged(p, d)[32..] == Changed(p.payload, d)
  {
    PayloadPart(p);
    var e := Forged(p, d);
    hide Encode, Run, Value, Bits, PacketRegister, Changed, XorOctet, LeBytes;
    assert e[32..] == Changed(p.payload, d);
    var got := PayloadDiff(Encode(p), e);
    forall i | 0 <= i < |d| ensures got[i] == d[i] { ChangedDiff(p.payload, d, i); }
    assert got == d;
  }

  lemma SilentIsMissed(p: Packet, k: nat, d: seq<Octet>)
    requires 1 <= k <= 3 && p.Fits() && |d| == |p.payload| && Silent(k, d)
    ensures Missed(p, k, Forged(p, d))
  {
    var E, e := Encode(p), Forged(p, d);
    ForgedDiff(p, d);
    ForgedField(p, d);
    hide Encode, Decode, Run, Value, Bits, PacketRegister, LowClear, XorOctet, Forged, PayloadDiff;
    AcceptedField(p, e);
    OwnField(p);
    KeptBytes(PacketRegister(p), Run(ZERO, d), 4 - k);
    PayloadPart(p);
    hide Changed;
    forall i | 0 <= i < |d| ensures d[i] == CLEAR <==> e[32 + i] == E[32 + i] {
      assert e[32..][i] == e[32 + i] && E[32..][i] == E[32 + i];
      ClearIffKept(p.payload, d, i);
    }
    SameOutside(e, E, d, k);
  }

  lemma SameOutside(e: bytes, E: bytes, d: seq<Octet>, k: nat)
    requires 1 <= k <= 3 && |e| == |E| == 32 + |d| && e[..28] == E[..28]
    requires e[28..32][..4 - k] == E[28..32][..4 - k]
    requires forall i :: 0 <= i < |d| ==> (d[i] == CLEAR <==> e[32 + i] == E[32 + i])
    requires forall i :: 4 - k <= i < |d| ==> d[i] == CLEAR
    ensures Confined(e, E, 32 - k)
  {
    forall i | 0 <= i < |E| && !(32 - k <= i < 36 - k) ensures e[i] == E[i] {
      if i < 28 {
        assert e[..28][i] == E[..28][i];
      } else if i < 32 - k {
        assert e[28..32][..4 - k][i - 28] == E[28..32][..4 - k][i - 28];
      } else {
        assert d[i - 32] == CLEAR;
      }
    }
  }

  lemma ClearIffKept(payload: bytes, d: seq<Octet>, i: nat)
    requires i < |d| == |payload|
    ensures d[i] == CLEAR <==> Changed(payload, d)[i] == payload[i]
  {
    hide Bits, XorOctet, Changed;
    ChangedDiff(payload, d, i);
    ByteDifference(payload[i], Changed(payload, d)[i]);
  }

  lemma ForgedField(p: Packet, d: seq<Octet>)
    requires |d| == |p.payload|
    ensures var e := Forged(p, d);
      e[..28] == Encode(p)[..28] && e[28..32] == LeBytes(Value(Xor(PacketRegister(p), Run(ZERO, d))), 4)
  {
    hide Encode, Run, Value, PacketRegister, LeBytes, Changed;
  }

  /**
   Damage in the last `k` CRC bytes and the payload bytes after them can pass if and only if
   payloads of that length have a silent difference: nothing else in the packet matters.
   */
  lemma MissedIffEscapes(p: Packet, k: nat)
    requires 1 <= k <= 3 && p.Fits()
    ensures (exists e: bytes :: Missed(p, k, e)) <==> Escapes(|p.payload|, k)
  {
    hide Missed, Silent, Encode;
    if e: bytes :| Missed(p, k, e) {
      MissedLength(p, k, e);
      MissedIsSilent(p, k, e);
      assert Silent(k, PayloadDiff(Encode(p), e));
    }
    if Escapes(|p.payload|, k) {
      var d: seq<Octet> :| |d| == |p.payload| && Silent(k, d);
      SilentIsMissed(p, k, d);
    }
  }

  lemma MissedLength(p: Packet, k: nat, e: bytes)
    requires 1 <= k <= 3 && Missed(p, k, e)
    ensures |e| == |Encode(p)|
  {
    hide Encode, Decode;
  }

  // ---- a change that passes ----

  /** Changing a payload of two bytes by 61 D8, hexadecimal. */
  function Unseen(): (d: seq<Octet>)
    ensures |d| == 2
  {
    [Bits(0x61, 8), Bits(0xD8, 8)]
  }

  const CLEAR_REG := Reg(NONE, NONE, NONE, NONE)

  lemma UnseenBits()
    ensures OctAt(Bits(0x61, 8), 0) == Oct(true, false, false, false, false, true, true, false)
    ensures OctAt(Bits(0xD8, 8), 0) == Oct(false, false, false, true, true, false, true, true)
  {
  }

  /** Sixteen steps of the register, worked out. */
  lemma UnseenRun()
    ensures var r := FeedReg(FeedReg(CLEAR_REG, Oct(true, false, false, false, false, true, true, false)),
                             Oct(false, false, false, true, true, false, true, true));
      r.a == NONE && r.b == NONE
  {
  }

  lemma LowOfReg(w: Word)
    ensures RegOf(w).a == NONE && RegOf(w).b == NONE ==> LowClear(w, 16)
  {
    if RegOf(w).a == NONE && RegOf(w).b == NONE {
      assert w[0] == w[1] == w[2] == w[3] == w[4] == w[5] == w[6] == w[7] == false;
      assert w[8] == w[9] == w[10] == w[11] == w[12] == w[13] == w[14] == w[15] == false;
    }
  }

  lemma UnseenPieces()
    ensures Unseen()[0] != CLEAR && [Unseen()[0]] + [Unseen()[1]] == Unseen() && RegOf(ZERO) == CLEAR_REG
    ensures OctAt(Unseen()[0], 0) == Oct(true, false, false, false, false, true, true, false)
    ensures OctAt(Unseen()[1], 0) == Oct(false, false, false, true, true, false, true, true)
  {
    UnseenBits();
    assert OctAt(Unseen()[0], 0).b0 && !CLEAR[0];
  }

  lemma UnseenIsSilent()
    ensures Silent(2, Unseen())
  {
    hide Bits, FeedReg, RegOf, Feed, Unseen, OctAt, Run, LowClear;
    var p, q := Unseen()[0], Unseen()[1];
    UnseenPieces();
    UnseenRun();
    FeedIs(ZERO, p);
    FeedIs(Feed(ZERO, p), q);
    RunConcat(ZERO, [p], [q]);
    RunOne(ZERO, p);
    RunOne(Feed(ZERO, p), q);
    LowOfReg(Run(ZERO, Unseen()));
  }

  /**
   The CRC does miss straddling damage: in every packet with two bytes of payload, changing both
   of them and the last two CRC bytes accordingly is accepted.
   */
  lemma TwoByteDamagePasses(p: Packet)
    requires |p.payload| == 2
    ensures Missed(p, 2, Forged(p, Unseen())) && Escapes(2, 2)
  {
    UnseenIsSilent();
    hide Silent, Forged, Missed, Unseen;
    SilentIsMissed(p, 2, Unseen());
  }

  /** An empty payload has nothing to straddle. */
  lemma EmptyNeverEscapes(p: Packet, k: nat, e: bytes)
    requires p.payload == [] && 1 <= k <= 3
    ensures !Missed(p, k, e)
  {
    hide Missed;
    MissedIffEscapes(p, k);
  }

  /** A single byte shows in the low byte of the register. */
  lemma OneByteShows(p: Oct)
    requires FeedReg(CLEAR_REG, p).a == NONE
    ensures p == NONE
  {
  }

  lemma ByteIsNone(o: Octet)
    ensures OctAt(o, 0) == NONE ==> o == CLEAR
  {
    if OctAt(o, 0) == NONE {
      assert !o[0] && !o[1] && !o[2] && !o[3] && !o[4] && !o[5] && !o[6] && !o[7];
    }
  }

  lemma LowByteOfReg(w: Word)
    ensures LowClear(w, 8) ==> RegOf(w).a == NONE
  {
  }

  /** Nor does damage to the only byte of a payload pass. */
  lemma OneByteNeverEscapes(p: Packet, k: nat, e: bytes)
    requires |p.payload| == 1 && 1 <= k <= 3
    ensures !Missed(p, k, e)
  {
    hide Missed, FeedReg, RegOf, Feed, OctAt, Run, Encode;
    MissedIffEscapes(p, k);
    if Escapes(1, k) {
      var d: seq<Octet> :| |d| == 1 && Silent(k, d);
      OneByteLoud(d[0], d);
    }
  }

  lemma OneByteLoud(o: Octet, d: seq<Octet>)
    requires d == [o] && LowClear(Run(ZERO, d), 8)
    ensures o == CLEAR
  {
    hide FeedReg, RegOf, Feed, OctAt, Run, LowClear;
    RunOne(ZERO, o);
    FeedIs(ZERO, o);
    ZeroReg();
    LowByteOfReg(Run(ZERO, d));
    OneByteShows(OctAt(o, 0));
    ByteIsNone(o);
  }

  lemma ZeroReg()
    ensures RegOf(ZERO) == CLEAR_REG
  {
  }
}
