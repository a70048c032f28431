/**
 The exact condition of `Straddle` as a test that can be computed: damage of the window is missed at
 a payload length if and only if the columns below are linearly dependent over the two-element
 field, which elimination decides.
 */
module Kernel {
  import opened Bytes
  import opened Crc32
  import opened Packets
  import opened Straddle

  type Row = seq<bool>

  // ---- elimination ----

  function Plus(a: Row, b: Row): (c: Row)
    requires |a| == |b|
    ensures |c| == |a| && forall i :: 0 <= i < |a| ==> c[i] == (a[i] != b[i])
  {
    seq(|a|, i requires 0 <= i < |a| => a[i] != b[i])
  }

  ghost predicate Wide(vs: seq<Row>, w: nat) {
    forall k :: 0 <= k < |vs| ==> |vs[k]| == w
  }

  /** Where the row has its first one, or past its end. */
  function Leading(v: Row): (i: nat)
    ensures i <= |v| && (i < |v| ==> v[i]) && forall k :: 0 <= k < i ==> !v[k]
  {
    if v == [] || v[0] then 0 else Leading(v[1..]) + 1
  }

  /** The rows with their bit `i` cleared by adding `row` to those that have it. */
  function Cleared(vs: seq<Row>, row: Row, i: nat): (ws: seq<Row>)
    requires i < |row| && Wide(vs, |row|)
    ensures |ws| == |vs| && Wide(ws, |row|)
  {
    if vs == [] then []
    else
      assert Wide(vs[1..], |row|);
      [if vs[0][i] then Plus(vs[0], row) else vs[0]] + Cleared(vs[1..], row, i)
  }

  /** Some of the rows, at least one, add up to zero. */
  predicate Dependent(vs: seq<Row>, w: nat)
    requires Wide(vs, w)
    decreases |vs|
  {
    if vs == [] then false
    else
      assert Wide(vs[1..], w);
      Leading(vs[0]) == w || Dependent(Cleared(vs[1..], vs[0], Leading(vs[0])), w)
  }

  /** The sum of the rows chosen by `cs`. */
  function Sum(cs: Row, vs: seq<Row>, w: nat): (s: Row)
    requires |cs| == |vs| && Wide(vs, w)
    ensures |s| == w
  {
    if vs == [] then Repeat(false, w)
    else
      assert Wide(vs[1..], w);
      var rest := Sum(cs[1..], vs[1..], w);
      if cs[0] then Plus(vs[0], rest) else rest
  }

  ghost predicate Vanishes(cs: Row, vs: seq<Row>, w: nat)
    requires Wide(vs, w)
  {
    |cs| == |vs| && Leading(cs) < |cs| && Sum(cs, vs, w) == Repeat(false, w)
  }

  lemma {:induction false} SumOfNone(cs: Row, vs: seq<Row>, w: nat)
    requires |cs| == |vs| && Wide(vs, w) && Leading(cs) == |cs|
    ensures Sum(cs, vs, w) == Repeat(false, w)
    decreases |vs|
  {
    if vs != [] {
      assert forall k :: 0 <= k < |cs| ==> !cs[k];
      assert forall k :: 0 <= k < |cs[1..]| ==> !cs[1..][k];
      SumOfNone(cs[1..], vs[1..], w);
    }
  }

  /** Clearing adds the row to a sum that has the bit, and changes no other. */
  lemma {:induction false} ClearedSum(cs: Row, vs: seq<Row>, row: Row, i: nat)
    requires i < |row| && Wide(vs, |row|) && |cs| == |vs|
    ensures var s := Sum(cs, vs, |row|);
      Sum(cs, Cleared(vs, row, i), |row|) == if s[i] then Plus(row, s) else s
    decreases |vs|
  {
    if vs != [] {
      ClearedSum(cs[1..], vs[1..], row, i);
      var ws := Cleared(vs, row, i);
      assert ws[1..] == Cleared(vs[1..], row, i);
      var s, t := Sum(cs[1..], vs[1..], |row|), Sum(cs[1..], ws[1..], |row|);
      assert t == if s[i] then Plus(row, s) else s;
      if cs[0] {
        assert Sum(cs, vs, |row|) == Plus(vs[0], s) && Sum(cs, ws, |row|) == Plus(ws[0], t);
      }
    }
  }

  /** Elimination decides linear dependence. */
  lemma {:induction false} DependentIff(vs: seq<Row>, w: nat)
    requires Wide(vs, w)
    ensures Dependent(vs, w) <==> exists cs :: Vanishes(cs, vs, w)
    decreases |vs|
  {
    if vs != [] {
      var row, rest := vs[0], vs[1..];
      var i := Leading(row);
      if i == w {
        ZeroRow(vs, w);
      } else {
        var ws := Cleared(rest, row, i);
        DependentIff(ws, w);
        if cs :| Vanishes(cs, ws, w) {
          LiftSum(cs, vs, w);
        }
        if cs :| Vanishes(cs, vs, w) {
          DropSum(cs, vs, w);
        }
      }
    }
  }

  lemma ZeroRow(vs: seq<Row>, w: nat)
    requires Wide(vs, w) && vs != [] && Leading(vs[0]) == w
    ensures exists cs :: Vanishes(cs, vs, w)
  {
    var none := Repeat(false, |vs| - 1);
    var cs := [true] + none;
    assert cs[1..] == none && Wide(vs[1..], w);
    SumOfNone(none, vs[1..], w);
    assert Sum(cs, vs, w) == Repeat(false, w);
    assert Vanishes(cs, vs, w);
  }

  lemma LiftSum(cs: Row, vs: seq<Row>, w: nat)
    requires Wide(vs, w) && vs != [] && Wide(vs[1..], w) && Leading(vs[0]) < w
    requires Vanishes(cs, Cleared(vs[1..], vs[0], Leading(vs[0])), w)
    ensures exists ds :: Vanishes(ds, vs, w)
  {
    var row, rest := vs[0], vs[1..];
    var i := Leading(row);
    ClearedSum(cs, rest, row, i);
    var s := Sum(cs, rest, w);
    var ds := [s[i]] + cs;
    assert ds[1..] == cs;
    assert ds[Leading(cs) + 1] == cs[Leading(cs)];
    assert Sum(ds, vs, w) == Repeat(false, w);
    assert Vanishes(ds, vs, w);
  }

  lemma DropSum(cs: Row, vs: seq<Row>, w: nat)
    requires Wide(vs, w) && vs != [] && Wide(vs[1..], w) && Leading(vs[0]) < w && Vanishes(cs, vs, w)
    ensures Vanishes(cs[1..], Cleared(vs[1..], vs[0], Leading(vs[0])), w)
  {
    var row, rest := vs[0], vs[1..];
    var i := Leading(row);
    ClearedSum(cs[1..], rest, row, i);
    var s, zero := Sum(cs[1..], rest, w), Repeat(false, w);
    if cs[0] {
      assert Plus(row, s) == zero;
      assert zero[i] == (row[i] != s[i]);
      if Leading(cs[1..]) == |cs[1..]| {
        SumOfNone(cs[1..], rest, w);
      }
    } else {
      assert s == zero;
      assert cs[Leading(cs)] == cs[1..][Leading(cs) - 1];
    }
  }

  // ---- the columns of a window ----

  /** How many payload bits the window reaches in a payload of `n` bytes, and how many CRC bits it leaves alone. */
  function Reach(n: nat, k: nat): nat
    requires 1 <= k <= 3
  {
    8 * if n < 4 - k then n else 4 - k
  }

  function Kept(k: nat): nat
    requires 1 <= k <= 3
  {
    8 * (4 - k)
  }

  /** These bits as the first bytes of an otherwise unchanged payload. */
  function Spread(cs: Row, n: nat): (d: seq<Octet>)
    requires |cs| % 8 == 0 && |cs| <= 8 * n
    ensures |d| == n
  {
    seq(n, i requires 0 <= i < n => if 8 * i < |cs| then cs[8 * i..8 * i + 8] else CLEAR)
  }

  /** What changing these payload bits does to the CRC bits outside the window. */
  function Effect(cs: Row, n: nat, k: nat): (e: Row)
    requires 1 <= k <= 3 && |cs| == Reach(n, k)
    ensures |e| == Kept(k)
  {
    Run(ZERO, Spread(cs, n))[..Kept(k)]
  }

  function Unit(j: nat, len: nat): (u: Row)
    requires j < len
    ensures |u| == len && forall i :: 0 <= i < len ==> (u[i] <==> i == j)
  {
    seq(len, i => i == j)
  }

  /** The effect of each payload bit of the window alone. */
  function Columns(n: nat, k: nat): (vs: seq<Row>)
    requires 1 <= k <= 3
    ensures |vs| == Reach(n, k) && Wide(vs, Kept(k))
  {
    seq(Reach(n, k), j requires 0 <= j < Reach(n, k) => Effect(Unit(j, Reach(n, k)), n, k))
  }

  lemma SpreadPlus(a: Row, b: Row, n: nat)
    requires |a| == |b| && |a| % 8 == 0 && |a| <= 8 * n
    ensures Diff(Spread(a, n), Spread(b, n)) == Spread(Plus(a, b), n)
  {
    forall i | 0 <= i < n ensures Diff(Spread(a, n), Spread(b, n))[i] == Spread(Plus(a, b), n)[i] {
      assert XorOctet(CLEAR, CLEAR) == CLEAR;
      if 8 * i < |a| {
        assert XorOctet(a[8 * i..8 * i + 8], b[8 * i..8 * i + 8]) == Plus(a, b)[8 * i..8 * i + 8];
      }
    }
  }

  lemma EffectPlus(a: Row, b: Row, n: nat, k: nat)
    requires 1 <= k <= 3 && |a| == |b| == Reach(n, k)
    ensures Effect(Plus(a, b), n, k) == Plus(Effect(a, n, k), Effect(b, n, k))
  {
    hide Run, Spread;
    SpreadPlus(a, b, n);
    RunLinear(ZERO, ZERO, Spread(a, n), Spread(b, n));
    assert Xor(ZERO, ZERO) == ZERO;
  }

  lemma EffectNone(cs: Row, n: nat, k: nat)
    requires 1 <= k <= 3 && |cs| == Reach(n, k) && cs == Repeat(false, |cs|)
    ensures Effect(cs, n, k) == Repeat(false, Kept(k))
  {
    hide Run;
    forall i | 0 <= i < n ensures Spread(cs, n)[i] == CLEAR {
      if 8 * i < |cs| { assert cs[8 * i..8 * i + 8] == CLEAR; }
    }
    RunOverZeros(ZERO, Spread(cs, n));
  }

  /** The bits from `t` on. */
  function From(cs: Row, t: nat): (r: Row)
    requires t <= |cs|
    ensures |r| == |cs|
  {
    Repeat(false, t) + cs[t..]
  }

  /** The effect of a change is the sum of the columns of its bits. */
  lemma {:induction false} EffectIsSum(cs: Row, n: nat, k: nat, t: nat)
    requires 1 <= k <= 3 && |cs| == Reach(n, k) && t <= |cs|
    ensures Wide(Columns(n, k)[t..], Kept(k))
    ensures Effect(From(cs, t), n, k) == Sum(cs[t..], Columns(n, k)[t..], Kept(k))
    decreases |cs| - t
  {
    hide Effect;
    var vs := Columns(n, k);
    if t == |cs| {
      EffectNone(From(cs, t), n, k);
    } else {
      EffectIsSum(cs, n, k, t + 1);
      assert vs[t..][1..] == vs[t + 1..] && cs[t..][1..] == cs[t + 1..];
      if cs[t] {
        assert From(cs, t) == Plus(Unit(t, |cs|), From(cs, t + 1));
        EffectPlus(Unit(t, |cs|), From(cs, t + 1), n, k);
      } else {
        assert From(cs, t) == From(cs, t + 1);
      }
    }
  }

  lemma LowOfWord(w: Word, m: nat)
    requires m <= 32
    ensures w[..m] == Repeat(false, m) <==> LowClear(w, m)
  {
    if LowClear(w, m) {
      assert forall i :: 0 <= i < m ==> w[..m][i] == false;
    } else {
      var i :| 0 <= i < m && w[i];
      assert w[..m][i] != Repeat(false, m)[i];
    }
  }

  /** The bits of the first bytes of a difference. */
  function Flat(d: seq<Octet>, len: nat): (cs: Row)
    requires len <= 8 * |d|
    ensures |cs| == len
  {
    seq(len, i requires 0 <= i < len => d[i / 8][i % 8])
  }

  lemma FlatByte(d: seq<Octet>, len: nat, i: nat)
    requires len <= 8 * |d| && i < |d| && 8 * i + 8 <= len
    ensures Flat(d, len)[8 * i..8 * i + 8] == d[i]
  {
    forall b | 0 <= b < 8 ensures Flat(d, len)[8 * i..8 * i + 8][b] == d[i][b] {
      assert (8 * i + b) / 8 == i && (8 * i + b) % 8 == b;
    }
  }

  lemma SpreadFlat(d: seq<Octet>, k: nat)
    requires 1 <= k <= 3 && forall i :: 4 - k <= i < |d| ==> d[i] == CLEAR
    ensures Reach(|d|, k) % 8 == 0 && Reach(|d|, k) <= 8 * |d| && Spread(Flat(d, Reach(|d|, k)), |d|) == d
  {
    hide Flat;
    var len := Reach(|d|, k);
    forall i | 0 <= i < |d| ensures Spread(Flat(d, len), |d|)[i] == d[i] {
      if 8 * i < len { FlatByte(d, len, i); }
    }
  }

  lemma SilentVanishes(d: seq<Octet>, k: nat) returns (cs: Row)
    requires 1 <= k <= 3 && Silent(k, d)
    ensures |cs| == Reach(|d|, k) && Leading(cs) < |cs| && Effect(cs, |d|, k) == Repeat(false, Kept(k))
  {
    hide Run, Flat, Spread, LowClear;
    SpreadFlat(d, k);
    cs := Flat(d, Reach(|d|, k));
    LowOfWord(Run(ZERO, d), Kept(k));
    var i :| 0 <= i < |d| && d[i] != CLEAR;
    FlatByte(d, |cs|, i);
    var b :| 0 <= b < 8 && d[i][b];
    assert cs[8 * i..8 * i + 8][b] == cs[8 * i + b];
  }

  lemma ByteOf(j: nat, len: nat)
    requires len % 8 == 0 && j < len
    ensures 8 * (j / 8) <= j < 8 * (j / 8) + 8 <= len
  {
  }

  lemma VanishingSilent(cs: Row, n: nat, k: nat)
    requires 1 <= k <= 3 && |cs| == Reach(n, k) && Leading(cs) < |cs|
    requires Effect(cs, n, k) == Repeat(false, Kept(k))
    ensures Silent(k, Spread(cs, n))
  {
    hide Run, LowClear;
    LowOfWord(Run(ZERO, Spread(cs, n)), Kept(k));
    SpreadNonzero(cs, n);
  }

  lemma SpreadNonzero(cs: Row, n: nat)
    requires |cs| % 8 == 0 && |cs| <= 8 * n && Leading(cs) < |cs|
    ensures exists i :: 0 <= i < n && Spread(cs, n)[i] != CLEAR
  {
    var j := Leading(cs);
    ByteOf(j, |cs|);
    BitShows(cs, n, j / 8, j - 8 * (j / 8));
  }

  lemma BitShows(cs: Row, n: nat, i: nat, b: nat)
    requires |cs| % 8 == 0 && 8 * i + 8 <= |cs| <= 8 * n && b < 8 && cs[8 * i + b]
    ensures Spread(cs, n)[i] != CLEAR
  {
    var o := cs[8 * i..8 * i + 8];
    assert o[b] && !CLEAR[b];
  }

  /** Payloads of `n` bytes have a silent difference exactly when their columns are dependent. */
  lemma EscapesIffDependent(n: nat, k: nat)
    requires 1 <= k <= 3
    ensures Escapes(n, k) <==> Dependent(Columns(n, k), Kept(k))
  {
    hide Effect, Silent, Sum, Spread, Dependent;
    var vs, w := Columns(n, k), Kept(k);
    DependentIff(vs, w);
    assert vs[0..] == vs;
    if Escapes(n, k) {
      var d: seq<Octet> :| |d| == n && Silent(k, d);
      var cs := SilentVanishes(d, k);
      EffectIsSum(cs, n, k, 0);
      assert From(cs, 0) == cs && cs[0..] == cs;
      assert Vanishes(cs, vs, w);
    }
    if cs :| Vanishes(cs, vs, w) {
      EffectIsSum(cs, n, k, 0);
      assert From(cs, 0) == cs && cs[0..] == cs;
      VanishingSilent(cs, n, k);
    }
  }

  /** So whether damage of a window can be missed is a matter of computing that test. */
  lemma MissedIffDependent(p: Packet, k: nat)
    requires 1 <= k <= 3 && p.Fits()
    ensures (exists e: bytes :: Missed(p, k, e)) <==> Dependent(Columns(|p.payload|, k), Kept(k))
  {
    hide Missed, Escapes, Dependent, Columns;
    MissedIffEscapes(p, k);
    EscapesIffDependent(|p.payload|, k);
  }
}
