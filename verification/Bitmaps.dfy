/** The packed bitmap of received chunks (the `Manifest` methods of reassembler.rs). */
module Bitmaps {
  import opened Bytes
  import opened Messages

  /** `(num_chunks + 7) / 8` in `u32`: no byte too many, and none at all where the sum wraps. */
  function BitmapLen(n: u32): (len: nat)
    ensures n + 7 < 0x1_0000_0000 ==> n <= 8 * len < n + 8
    ensures n + 7 >= 0x1_0000_0000 ==> len == 0
  {
    ((n + 7) % U32) / 8
  }

  /** Counts for which the length does not wrap. */
  predicate Countable(n: nat) {
    n + 7 < U32
  }

  /** `bitmap[i] & (1 << b) != 0`; bits past the end read as clear. */
  predicate IsSet(bm: bytes, c: nat) {
    c / 8 < |bm| && Bits(bm[c / 8], 8)[c % 8]
  }

  /** `bitmap[i] |= 1 << b`; bits past the end are ignored. */
  function SetBit(bm: bytes, c: nat): (r: bytes)
    ensures |r| == |bm|
  {
    if c / 8 < |bm| then bm[c / 8 := ByteWith(bm[c / 8], c % 8)] else bm
  }

  function ByteWith(b: byte, k: nat): byte
    requires k < 8
  {
    Powers();
    Value(Bits(b, 8)[k := true])
  }

  ghost predicate LowSet(s: seq<bool>, k: nat)
    requires k <= |s|
  {
    forall i :: 0 <= i < k ==> s[i]
  }

  /** The mask `(1 << k) - 1`. */
  function LowMask(k: nat): nat {
    Pow2(k) - 1
  }

  /** Whole bytes first, then the bits of the last partial byte. */
  predicate IsComplete(bm: bytes, n: nat) {
    n / 8 <= |bm|
    && (forall k :: 0 <= k < n / 8 ==> bm[k] == 0xFF)
    && (n % 8 != 0 && n / 8 < |bm| ==> And(bm[n / 8], LowMask(n % 8), 8) == LowMask(n % 8))
  }

  ghost predicate AllSet(bm: bytes, n: nat) {
    forall c :: 0 <= c < n ==> IsSet(bm, c)
  }

  // ---- set and test ----

  /** Setting a bit inside the bitmap sets that bit and no other. */
  lemma SetBitSetsOne(bm: bytes, c: nat, j: nat)
    ensures IsSet(SetBit(bm, c), j) <==> IsSet(bm, j) || (j == c && c / 8 < |bm|)
  {
    hide Bits;
    if c / 8 < |bm| && j / 8 == c / 8 {
      BitsOfValue(Bits(bm[c / 8], 8)[c % 8 := true]);
      assert j == c <==> j % 8 == c % 8;
    }
  }

  lemma {:induction false} FreshIsClear(n: nat, c: nat)
    ensures !IsSet(Zeros(n), c)
  {
    if c / 8 < n { ZeroBits(8, c % 8); }
  }

  lemma {:induction false} ZeroBits(n: nat, k: nat)
    requires k < n
    ensures !Bits(0, n)[k]
  {
    if k > 0 { ZeroBits(n - 1, k - 1); }
  }

  // ---- completeness ----

  lemma FullByte(b: byte)
    ensures b == 0xFF <==> LowSet(Bits(b, 8), 8)
  {
    assert Bits(255, 8) == [true, true, true, true, true, true, true, true];
    hide Bits;
    Powers();
    if LowSet(Bits(b, 8), 8) {
      assert Bits(b, 8) == Bits(255, 8);
      ValueOfBits(b, 8);
      ValueOfBits(255, 8);
    }
  }

  lemma {:induction false} LowMaskBits(k: nat, n: nat, i: nat)
    requires k <= n && i < n
    ensures LowMask(k) < Pow2(n)
    ensures Bits(LowMask(k), n)[i] <==> i < k
  {
    if k == 0 {
      ZeroBits(n, i);
    } else {
      assert LowMask(k) % 2 == 1 && LowMask(k) / 2 == LowMask(k - 1);
      assert Bits(LowMask(k), n) == [true] + Bits(LowMask(k - 1), n - 1);
      hide Bits, LowMask;
      if i > 0 { LowMaskBits(k - 1, n - 1, i - 1); }
      else if n > 1 { LowMaskBits(k - 1, n - 1, 0); }
    }
  }

  /** `b & mask == mask` tests exactly the low bits. */
  lemma MaskedByte(b: byte, k: nat)
    requires k < 8
    ensures And(b, LowMask(k), 8) == LowMask(k) <==> LowSet(Bits(b, 8), k)
  {
    hide LowMask, Value;
    var x, m := Bits(b, 8), Bits(LowMask(k), 8);
    var both := seq(8, i requires 0 <= i < 8 => Bits(b, 8)[i] && Bits(LowMask(k), 8)[i]);
    forall i | 0 <= i < 8 ensures m[i] <==> i < k { LowMaskBits(k, 8, i); }
    LowMaskBits(k, 8, 0);
    ValueOfBits(LowMask(k), 8);
    BitsOfValue(both);
    assert And(b, LowMask(k), 8) == Value(both);
    assert Value(both) == LowMask(k) <==> both == m;
    assert both == m <==> LowSet(x, k) by {
      if both == m {
        forall i | 0 <= i < k ensures x[i] { assert both[i] == m[i]; }
      }
    }
  }

  /** The byte-wise test agrees with the bit-wise meaning. */
  lemma CompleteMeansAllSet(bm: bytes, n: nat)
    requires Countable(n) && |bm| == BitmapLen(n)
    ensures IsComplete(bm, n) <==> AllSet(bm, n)
  {
    hide Bits, And;
    var full, left := n / 8, n % 8;
    if left != 0 { MaskedByte(bm[full], left); }
    if IsComplete(bm, n) {
      forall c | 0 <= c < n ensures IsSet(bm, c) {
        if c / 8 < full {
          FullByte(bm[c / 8]);
        } else {
          assert c / 8 == full && c % 8 < left;
          assert c / 8 < |bm|;
          assert Bits(bm[full], 8)[c % 8];
        }
      }
    } else if AllSet(bm, n) {
      forall k | 0 <= k < full ensures bm[k] == 0xFF {
        FullByte(bm[k]);
        forall i | 0 <= i < 8 ensures Bits(bm[k], 8)[i] { assert IsSet(bm, 8 * k + i); }
      }
      if left != 0 {
        forall i | 0 <= i < left ensures Bits(bm[full], 8)[i] { assert IsSet(bm, 8 * full + i); }
      }
    }
  }

  // ---- missing ranges ----

  /** First set chunk at or after `i`, or `n`. */
  function GapEnd(bm: bytes, n: nat, i: nat): (j: nat)
    requires i <= n
    ensures i <= j <= n && (i < n && !IsSet(bm, i) ==> i < j)
    ensures forall c :: i <= c < j ==> !IsSet(bm, c)
    ensures j < n ==> IsSet(bm, j)
    decreases n - i
  {
    if i < n && !IsSet(bm, i) then GapEnd(bm, n, i + 1) else i
  }

  function MissingFrom(bm: bytes, n: nat, i: nat): seq<RequestedRange>
    requires i <= n
    decreases n - i
  {
    if i == n then []
    else if IsSet(bm, i) then MissingFrom(bm, n, i + 1)
    else var j := GapEnd(bm, n, i); [RequestedRange(i, j - i)] + MissingFrom(bm, n, j)
  }

  function Missing(bm: bytes, n: nat): seq<RequestedRange> {
    MissingFrom(bm, n, 0)
  }

  method MissingRanges(bm: bytes, total: nat) returns (out: seq<RequestedRange>)
    ensures out == Missing(bm, total)
  {
    hide IsSet;
    out := [];
    var i := 0;
    while i < total
      invariant 0 <= i <= total
      invariant out + MissingFrom(bm, total, i) == Missing(bm, total)
    {
      if !IsSet(bm, i) {
        var start := i;
        while i < total && !IsSet(bm, i)
          invariant start <= i <= total
          invariant GapEnd(bm, total, i) == GapEnd(bm, total, start)
          decreases total - i
        {
          i := i + 1;
        }
        out := out + [RequestedRange(start, i - start)];
      } else {
        i := i + 1;
      }
    }
  }

  /** Ranges are nonempty, in order, inside `i..n`, and kept apart by received chunks. */
  ghost predicate WellSpaced(bm: bytes, n: nat, i: nat, out: seq<RequestedRange>) {
    (forall k :: 0 <= k < |out| ==> i <= out[k].start && out[k].count > 0 && out[k].End() <= n)
    && (forall k :: 0 <= k < |out| ==> out[k].start == i || IsSet(bm, out[k].start - 1))
    && (forall k :: 0 <= k < |out| ==> out[k].End() == n || IsSet(bm, out[k].End()))
    && (forall k, l :: 0 <= k < l < |out| ==> out[k].End() < out[l].start)
  }

  ghost predicate StartsAfter(out: seq<RequestedRange>, i: nat) {
    forall k :: 0 <= k < |out| ==> out[k].start > i
  }

  ghost predicate Covers(out: seq<RequestedRange>, c: nat) {
    exists k :: 0 <= k < |out| && out[k].Contains(c)
  }

  /** A range may only follow another at a distance. */
  lemma {:induction false} MissingWellSpaced(bm: bytes, n: nat, i: nat)
    requires i <= n
    ensures WellSpaced(bm, n, i, MissingFrom(bm, n, i))
    ensures i < n && IsSet(bm, i) ==> StartsAfter(MissingFrom(bm, n, i), i)
    decreases n - i
  {
    hide IsSet, WellSpaced;
    if i < n {
      var out := MissingFrom(bm, n, i);
      if IsSet(bm, i) {
        MissingWellSpaced(bm, n, i + 1);
        WellSpacedSkip(bm, n, i, out);
      } else {
        var j := GapEnd(bm, n, i);
        MissingWellSpaced(bm, n, j);
        WellSpacedCons(bm, n, i, j, MissingFrom(bm, n, j));
      }
    } else {
      WellSpacedNil(bm, n);
    }
  }

  lemma WellSpacedNil(bm: bytes, n: nat)
    ensures WellSpaced(bm, n, n, [])
  {
  }

  lemma WellSpacedSkip(bm: bytes, n: nat, i: nat, out: seq<RequestedRange>)
    requires i < n && IsSet(bm, i) && WellSpaced(bm, n, i + 1, out)
    ensures WellSpaced(bm, n, i, out) && StartsAfter(out, i)
  {
    hide IsSet;
  }

  lemma WellSpacedCons(bm: bytes, n: nat, i: nat, j: nat, rest: seq<RequestedRange>)
    requires i < j <= n && (j < n ==> IsSet(bm, j)) && WellSpaced(bm, n, j, rest)
    requires j < n ==> StartsAfter(rest, j)
    ensures WellSpaced(bm, n, i, [RequestedRange(i, j - i)] + rest)
  {
    hide IsSet;
    var out := [RequestedRange(i, j - i)] + rest;
    assert out[0].End() == j;
    forall k | 0 < k < |out|
      ensures out[k] == rest[k - 1] && out[k].start > j && IsSet(bm, out[k].start - 1)
    {
    }
  }

  lemma {:induction false} MissingCovers(bm: bytes, n: nat, i: nat, c: nat)
    requires i <= n && i <= c
    ensures Covers(MissingFrom(bm, n, i), c) <==> c < n && !IsSet(bm, c)
    decreases n - i
  {
    hide IsSet;
    if i < n {
      var out := MissingFrom(bm, n, i);
      if IsSet(bm, i) {
        if c > i { MissingCovers(bm, n, i + 1, c); }
        else { BelowStart(bm, n, i + 1, c); }
      } else {
        var j := GapEnd(bm, n, i);
        var rest := MissingFrom(bm, n, j);
        assert out[0].Contains(c) <==> c < j;
        assert forall k :: 0 <= k < |rest| ==> out[k + 1] == rest[k];
        if c >= j {
          MissingCovers(bm, n, j, c);
        } else {
          assert Covers(out, c);
        }
        if Covers(rest, c) {
          var k :| 0 <= k < |rest| && rest[k].Contains(c);
          assert out[k + 1].Contains(c);
        }
      }
    }
  }

  lemma {:induction false} BelowStart(bm: bytes, n: nat, i: nat, c: nat)
    requires i <= n && c < i
    ensures !Covers(MissingFrom(bm, n, i), c)
    decreases n - i
  {
    if i < n {
      if IsSet(bm, i) {
        BelowStart(bm, n, i + 1, c);
      } else {
        var j := GapEnd(bm, n, i);
        BelowStart(bm, n, j, c);
        var out, rest := MissingFrom(bm, n, i), MissingFrom(bm, n, j);
        assert forall k :: 0 < k < |out| ==> out[k] == rest[k - 1];
      }
    }
  }

  function CountMissing(bm: bytes, n: nat, i: nat): (k: nat)
    requires i <= n
    ensures k <= n - i
    decreases n - i
  {
    if i == n then 0 else (if IsSet(bm, i) then 0 else 1) + CountMissing(bm, n, i + 1)
  }

  lemma {:induction false} GapCounts(bm: bytes, n: nat, i: nat)
    requires i <= n
    ensures var j := GapEnd(bm, n, i); CountMissing(bm, n, i) == (j - i) + CountMissing(bm, n, j)
    decreases n - i
  {
    hide IsSet;
    if i < n && !IsSet(bm, i) { GapCounts(bm, n, i + 1); }
  }

  lemma {:induction false} MissingSum(bm: bytes, n: nat, i: nat)
    requires i <= n
    ensures Sum(MissingFrom(bm, n, i)) == CountMissing(bm, n, i)
    decreases n - i
  {
    if i < n {
      if IsSet(bm, i) {
        MissingSum(bm, n, i + 1);
      } else {
        var j := GapEnd(bm, n, i);
        GapCounts(bm, n, i);
        MissingSum(bm, n, j);
        var out := MissingFrom(bm, n, i);
        assert out[1..] == MissingFrom(bm, n, j);
      }
    }
  }

  /** The three readings of a bitmap agree: complete, all bits set, nothing missing. */
  lemma BitmapAgreement(bm: bytes, n: nat)
    requires Countable(n) && |bm| == BitmapLen(n)
    ensures IsComplete(bm, n) <==> AllSet(bm, n)
    ensures AllSet(bm, n) <==> Missing(bm, n) == []
    ensures AllSet(bm, n) <==> CountMissing(bm, n, 0) == 0
  {
    CompleteMeansAllSet(bm, n);
    MissingWellSpaced(bm, n, 0);
    MissingSum(bm, n, 0);
    var out := Missing(bm, n);
    if out == [] {
      forall c | 0 <= c < n ensures IsSet(bm, c) {
        MissingCovers(bm, n, 0, c);
        assert !Covers(out, c);
      }
    } else {
      assert out[0].Contains(out[0].start) && Covers(out, out[0].start);
      MissingCovers(bm, n, 0, out[0].start);
    }
  }

  /** `stats` counts exactly the received chunks. */
  function ChunksReceived(bm: bytes, n: nat): int {
    n - Sum(Missing(bm, n))
  }

  lemma StatsExact(bm: bytes, n: nat)
    ensures 0 <= ChunksReceived(bm, n) <= n
    ensures ChunksReceived(bm, n) == |set c | 0 <= c < n && IsSet(bm, c)|
  {
    MissingSum(bm, n, 0);
    SetSize(bm, n, 0);
    assert (set c | 0 <= c < n && IsSet(bm, c)) == (set c | 0 <= c < n && IsSet(bm, c) && 0 <= c);
  }

  lemma {:induction false} SetSize(bm: bytes, n: nat, i: nat)
    requires i <= n
    ensures |set c | 0 <= c < n && IsSet(bm, c) && i <= c| == n - i - CountMissing(bm, n, i)
    decreases n - i
  {
    hide IsSet;
    var s := set c | 0 <= c < n && IsSet(bm, c) && i <= c;
    if i == n {
      assert s == {};
    } else {
      SetSize(bm, n, i + 1);
      var t := set c | 0 <= c < n && IsSet(bm, c) && i + 1 <= c;
      if IsSet(bm, i) {
        assert s == {i} + t && i !in t;
      } else {
        assert s == t;
      }
    }
  }

  /** A newly set bit lowers the count of missing chunks by one. */
  lemma {:induction false} SetBitCounts(bm: bytes, n: nat, i: nat, c: nat)
    requires i <= n && c < n && !IsSet(bm, c) && c / 8 < |bm|
    ensures CountMissing(SetBit(bm, c), n, i) == CountMissing(bm, n, i) - if i <= c then 1 else 0
    decreases n - i
  {
    if i < n {
      SetBitSetsOne(bm, c, i);
      SetBitCounts(bm, n, i + 1, c);
    }
  }

  lemma {:induction false} FreshMissesAll(m: nat, n: nat, i: nat)
    requires i <= n
    ensures CountMissing(Zeros(m), n, i) == n - i
    decreases n - i
  {
    if i < n {
      FreshIsClear(m, i);
      FreshMissesAll(m, n, i + 1);
    }
  }

  /** Bit `k` of a byte is the one worth `2^k`: the least significant comes first. */
  lemma BitPlace(k: nat, j: nat)
    requires k < 8 && j < 8
    ensures Pow2(k) < 256 && (IsSet([Pow2(k)], j) <==> j == k)
  {
    hide Bits, Pow2;
    Powers();
    UnitBits(k, 8, j);
    assert j / 8 == 0 && j % 8 == j;
  }

  lemma {:induction false} UnitBits(k: nat, n: nat, j: nat)
    requires k < n && j < n
    ensures Pow2(k) < Pow2(n) && (Bits(Pow2(k), n)[j] <==> j == k)
  {
    if k > 0 {
      assert Pow2(k) % 2 == 0 && Pow2(k) / 2 == Pow2(k - 1);
      if j > 0 { UnitBits(k - 1, n - 1, j - 1); } else { UnitBits(k - 1, n - 1, 0); }
    } else if j > 0 {
      ZeroBits(n - 1, j - 1);
    }
  }
}
