/**
 The published check value of CRC-32: the checksum of the nine ASCII digits 1 to 9 is CBF43926,
 hexadecimal. It fixes the polynomial, the order of the bits, the preset and the final inversion.
 */
module CheckValue {
  import opened Bytes
  import opened Crc32
  import opened Straddle

  const DIGITS: bytes := [0x31, 0x32, 0x33, 0x34, 0x35, 0x36, 0x37, 0x38, 0x39]

  /** The register before the message, and after each two of its bytes. */
  const START := Reg(
    Oct(true, true, true, true, true, true, true, true),
    Oct(true, true, true, true, true, true, true, true),
    Oct(true, true, true, true, true, true, true, true),
    Oct(true, true, true, true, true, true, true, true))
  const AFTER_2 := Reg(
    Oct(false, true, false, false, true, true, false, false),
    Oct(true, true, false, true, true, true, false, true),
    Oct(false, false, true, true, false, true, false, true),
    Oct(false, false, false, false, true, true, false, true))
  const AFTER_4 := Reg(
    Oct(false, false, true, true, true, false, true, false),
    Oct(true, true, true, true, true, false, false, false),
    Oct(false, false, true, true, true, false, false, false),
    Oct(false, false, true, false, false, true, true, false))
  const AFTER_6 := Reg(
    Oct(false, true, true, true, true, false, false, true),
    Oct(false, false, true, true, false, true, false, false),
    Oct(true, false, true, true, false, false, false, true),
    Oct(false, true, true, false, true, true, true, true))
  const AFTER_8 := Reg(
    Oct(false, false, false, false, true, false, true, false),
    Oct(true, false, true, false, false, true, false, false),
    Oct(true, true, true, true, true, false, false, false),
    Oct(true, false, true, false, false, true, true, false))
  const FINAL := Reg(
    Oct(true, false, false, true, true, false, true, true),
    Oct(false, true, true, false, false, false, true, true),
    Oct(true, true, false, true, false, false, false, false),
    Oct(false, false, true, false, true, true, false, false))

  lemma Fed2()
    ensures FeedReg(FeedReg(START, Oct(true, false, false, false, true, true, false, false)),
                    Oct(false, true, false, false, true, true, false, false)) == AFTER_2
  {
  }

  lemma Fed4()
    ensures FeedReg(FeedReg(AFTER_2, Oct(true, true, false, false, true, true, false, false)),
                    Oct(false, false, true, false, true, true, false, false)) == AFTER_4
  {
  }

  lemma Fed6()
    ensures FeedReg(FeedReg(AFTER_4, Oct(true, false, true, false, true, true, false, false)),
                    Oct(false, true, true, false, true, true, false, false)) == AFTER_6
  {
  }

  lemma Fed8()
    ensures FeedReg(FeedReg(AFTER_6, Oct(true, true, true, false, true, true, false, false)),
                    Oct(false, false, false, true, true, true, false, false)) == AFTER_8
  {
  }

  lemma Fed9()
    ensures FeedReg(AFTER_8, Oct(true, false, false, true, true, true, false, false)) == FINAL
  {
  }

  lemma DigitBits()
    ensures OctAt(Bits(0x31, 8), 0) == Oct(true, false, false, false, true, true, false, false)
    ensures OctAt(Bits(0x32, 8), 0) == Oct(false, true, false, false, true, true, false, false)
    ensures OctAt(Bits(0x33, 8), 0) == Oct(true, true, false, false, true, true, false, false)
    ensures OctAt(Bits(0x34, 8), 0) == Oct(false, false, true, false, true, true, false, false)
    ensures OctAt(Bits(0x35, 8), 0) == Oct(true, false, true, false, true, true, false, false)
    ensures OctAt(Bits(0x36, 8), 0) == Oct(false, true, true, false, true, true, false, false)
    ensures OctAt(Bits(0x37, 8), 0) == Oct(true, true, true, false, true, true, false, false)
    ensures OctAt(Bits(0x38, 8), 0) == Oct(false, false, false, true, true, true, false, false)
    ensures OctAt(Bits(0x39, 8), 0) == Oct(true, false, false, true, true, true, false, false)
  {
  }

  lemma StartIs()
    ensures RegOf(ONES) == START
  {
  }

  /** Two bytes of a message through the register. */
  lemma TwoFed(c: Word, s: seq<Octet>, i: nat)
    requires i + 2 <= |s|
    ensures RegOf(Run(c, s[..i + 2]))
      == FeedReg(FeedReg(RegOf(Run(c, s[..i])), OctAt(s[i], 0)), OctAt(s[i + 1], 0))
  {
    OneFed(c, s, i);
    OneFed(c, s, i + 1);
  }

  lemma OneFed(c: Word, s: seq<Octet>, i: nat)
    requires i + 1 <= |s|
    ensures RegOf(Run(c, s[..i + 1])) == FeedReg(RegOf(Run(c, s[..i])), OctAt(s[i], 0))
  {
    hide RegOf, FeedReg, OctAt, Run, Feed;
    assert s[..i + 1] == s[..i] + [s[i]];
    RunConcat(c, s[..i], [s[i]]);
    RunOne(Run(c, s[..i]), s[i]);
    FeedIs(Run(c, s[..i]), s[i]);
  }

  lemma DigitsFed()
    ensures RegOf(Run(ONES, Octets(DIGITS))) == FINAL
  {
    hide RegOf, FeedReg, OctAt, Run, Bits;
    var s := Octets(DIGITS);
    DigitBits();
    StartIs();
    NothingFed(s);
    TwoFed(ONES, s, 0);
    Fed2();
    TwoFed(ONES, s, 2);
    Fed4();
    TwoFed(ONES, s, 4);
    Fed6();
    TwoFed(ONES, s, 6);
    Fed8();
    OneFed(ONES, s, 8);
    Fed9();
    assert s[..9] == s;
  }

  lemma NothingFed(s: seq<Octet>)
    ensures Run(ONES, s[..0]) == ONES
  {
  }

  lemma SameReg(x: Word, y: Word)
    requires RegOf(x) == RegOf(y)
    ensures x == y
  {
    SameOct(x, y, 0);
    SameOct(x, y, 8);
    SameOct(x, y, 16);
    SameOct(x, y, 24);
  }

  lemma SameOct(x: Word, y: Word, o: nat)
    requires o <= 24 && OctAt(x, o) == OctAt(y, o)
    ensures forall i :: o <= i < o + 8 ==> x[i] == y[i]
  {
  }

  /** The check value, as a register. */
  lemma CheckBits()
    ensures RegOf(Bits(0xCBF43926, 32)) == RegOf(Xor(Run(ONES, Octets(DIGITS)), ONES))
  {
    DigitsFed();
    XorReg(Run(ONES, Octets(DIGITS)), ONES);
    StartIs();
    CheckBytes();
    hide RegOf, Run, Bits, Xor;
  }

  lemma CheckBytes()
    ensures RegOf(Bits(0xCBF43926, 32)) == Reg(Flip(FINAL.a, START.a), Flip(FINAL.b, START.b), Flip(FINAL.c, START.c),
                                               Flip(FINAL.d, START.d))
  {
    JoinBytes();
    OctInWord(Bits(0x26, 8), Bits(0x39, 8), Bits(0xF4, 8), Bits(0xCB, 8));
    ValueBits();
    hide RegOf, Bits;
  }

  lemma ValueBits()
    ensures OctAt(Bits(0x26, 8), 0) == Oct(false, true, true, false, false, true, false, false)
    ensures OctAt(Bits(0x39, 8), 0) == Oct(true, false, false, true, true, true, false, false)
    ensures OctAt(Bits(0xF4, 8), 0) == Oct(false, false, true, false, true, true, true, true)
    ensures OctAt(Bits(0xCB, 8), 0) == Oct(true, true, false, true, false, false, true, true)
  {
  }

  lemma JoinBytes()
    ensures Bits(0xCBF43926, 32) == Bits(0x26, 8) + Bits(0x39, 8) + Bits(0xF4, 8) + Bits(0xCB, 8)
  {
    hide Bits, Pow2;
    Powers();
    BitsJoin(0x26, 0xCBF439, 8, 24);
    BitsJoin(0x39, 0xCBF4, 8, 16);
    BitsJoin(0xF4, 0xCB, 8, 8);
  }

  lemma CrcCheckValue()
    ensures Checksum(DIGITS) == 0xCBF43926
  {
    hide Run, Bits, Xor, RegOf, Value;
    CheckBits();
    SameReg(Bits(0xCBF43926, 32), Register(DIGITS));
    Powers();
    ValueOfBits(0xCBF43926, 32);
  }
}
