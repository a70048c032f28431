/**
 The closed loop of the demonstration (main of demo/src/main.rs): a first pass over a lossy
 link, then rounds of asking the ground what is missing and sending only that. The link's
 losses are a script; every round that does not land the file has lost a packet.
 */
module Demo {
  import opened Wrappers
  import opened Bytes
  import opened Messages
  import opened Bitmaps
  import opened Packets
  import opened Chunker
  import opened GroundPaths
  import opened Reassembly
  import opened Delivery
  import opened Recovery
  import RateLimiter
  import Sidecar

  const MAX_ROUNDS: nat := 25

  /** What gets through of `ps`, the first of them being packet number `from` on the link. */
  function Survivors(ps: seq<Packet>, from: nat, lost: nat -> bool): (out: seq<Packet>)
    ensures |out| <= |ps|
  {
    if ps == [] then []
    else (if lost(from) then [] else [ps[0]]) + Survivors(ps[1..], from + 1, lost)
  }

  /** How many of `ps` the limiter lets through before one it holds for ever. */
  function Passable(ps: seq<Packet>, kbps: u64): (j: nat)
    ensures j <= |ps|
  {
    if ps == [] || !RateLimiter.FitsBucket(|Encode(ps[0])|, kbps) then 0 else 1 + Passable(ps[1..], kbps)
  }

  /** The simulated link behind its rate limiter, and the ground station at its other end. */
  class LossyLink {
    const lost: nat -> bool
    const kbps: u64
    const limiter: RateLimiter.RateLimiter
    const gap: nat -> RateLimiter.Delay             // time passing before each call of the limiter
    const late: nat -> nat -> RateLimiter.Delay     // how far each of its sleeps runs over
    var calls: nat
    var ground: Ground
    var sent: nat
    var dropped: nat

    ghost predicate Valid()
      reads this, limiter
    {
      limiter.Valid() && limiter.SetAt(kbps)
    }

    constructor (kbps: u64, lost: nat -> bool, gap: nat -> RateLimiter.Delay,
        late: nat -> nat -> RateLimiter.Delay, now: real)
      ensures Valid() && fresh(limiter) && this.kbps == kbps && this.lost == lost
      ensures ground == EMPTY_GROUND && sent == 0 && dropped == 0
    {
      this.kbps, this.lost, this.gap, this.late, calls := kbps, lost, gap, late, 0;
      limiter := new RateLimiter.RateLimiter(kbps, now);
      ground, sent, dropped := EMPTY_GROUND, 0, 0;
    }

    /** Whether `acquire(n)` returns. */
    method Acquire(n: nat) returns (granted: bool)
      requires Valid() && n != 1
      modifies this`calls, limiter
      ensures Valid() && granted == RateLimiter.FitsBucket(n, kbps)
    {
      granted := limiter.AcquireReturning(n, kbps, gap(calls), late(calls));
      calls := calls + 1;
    }

    /** Emptying the bucket before a pass always comes back. */
    method DrainBurst()
      requires Valid()
      modifies this`calls, limiter
      ensures Valid()
    {
      var granted := Acquire(kbps * 125);
      assert granted;
    }

    /** One packet, unless the limiter never lets it through. */
    method Transmit(p: Packet) returns (through: bool)
      requires Valid()
      modifies this, limiter
      ensures Valid() && through == RateLimiter.FitsBucket(|Encode(p)|, kbps)
      ensures !through ==> sent == old(sent) && dropped == old(dropped) && ground == old(ground)
      ensures through ==>
        && sent == old(sent) + 1 && dropped == old(dropped) + (if lost(old(sent)) then 1 else 0)
        && ground == if lost(old(sent)) then old(ground) else Deliver(old(ground), p)
    {
      hide Deliver, Encode, RateLimiter.FitsBucket;
      through := Acquire(|Encode(p)|);
      if !through { return; }
      sent := sent + 1;
      if lost(sent - 1) { dropped := dropped + 1; } else { ground := Deliver(ground, p); }
    }

    /** Packets up to the first one held for ever are sent; those not dropped are delivered, in order. */
    method TransmitAll(ps: seq<Packet>) returns (through: bool)
      requires Valid()
      modifies this, limiter
      ensures Valid() && (through <==> Passable(ps, kbps) == |ps|)
      ensures var out := ps[..Passable(ps, kbps)];
        && sent == old(sent) + |out|
        && dropped == old(dropped) + |out| - |Survivors(out, old(sent), lost)|
        && ground == DeliverAll(old(ground), Survivors(out, old(sent), lost))
    {
      hide Deliver, Encode, RateLimiter.FitsBucket, Survivors, DeliverAll, Passable;
      ghost var out := ps[..Passable(ps, kbps)];
      through := true;
      assert ps[0..] == ps && out[0..] == out;
      for k := 0 to |ps|
        invariant Valid() && sent == old(sent) + k && k <= |out|
        invariant Passable(ps, kbps) == k + Passable(ps[k..], kbps)
        invariant dropped - |Survivors(out[k..], sent, lost)| - k == old(dropped) - |Survivors(out, old(sent), lost)|
        invariant DeliverAll(ground, Survivors(out[k..], sent, lost))
          == DeliverAll(old(ground), Survivors(out, old(sent), lost))
      {
        PassableStep(ps, k, kbps);
        if k < |out| { SendStep(ground, out, k, sent, lost); }
        through := Transmit(ps[k]);
        if !through {
          NoneLeft(ground, out, k, sent, lost);
          return;
        }
      }
      NoneLeft(ground, out, |ps|, sent, lost);
    }
  }

  lemma PassableStep(ps: seq<Packet>, k: nat, kbps: u64)
    requires k < |ps|
    ensures Passable(ps[k..], kbps) ==
      if RateLimiter.FitsBucket(|Encode(ps[k])|, kbps) then 1 + Passable(ps[k + 1..], kbps) else 0
  {
    hide Encode, RateLimiter.FitsBucket;
    assert ps[k..][1..] == ps[k + 1..];
  }

  lemma SendStep(g: Ground, out: seq<Packet>, k: nat, n: nat, lost: nat -> bool)
    requires k < |out|
    ensures |Survivors(out[k..], n, lost)| == |Survivors(out[k + 1..], n + 1, lost)| + if lost(n) then 0 else 1
    ensures DeliverAll(g, Survivors(out[k..], n, lost))
      == DeliverAll(if lost(n) then g else Deliver(g, out[k]), Survivors(out[k + 1..], n + 1, lost))
  {
    hide Deliver;
    assert out[k..][1..] == out[k + 1..];
    var rest := Survivors(out[k + 1..], n + 1, lost);
    assert [] + rest == rest && ([out[k]] + rest)[1..] == rest;
  }

  lemma NoneLeft(g: Ground, out: seq<Packet>, k: nat, n: nat, lost: nat -> bool)
    requires k == |out|
    ensures Survivors(out[k..], n, lost) == [] && DeliverAll(g, []) == g
  {
    assert out[k..] == [];
  }

  // ---- one file on its way ----

  /** The file has not landed since the assembly was begun, and something of it is missing. */
  ghost predicate Unfinished(src: Source, P: nat, a: Assembly)
    requires Sound(src) && P in src.sizes
  {
    Belongs(src, P, a) && Measure(Count(|src.content|, P), a) > 0
  }

  lemma UselessSame(src: Source, P: nat, a: Assembly, p: Packet)
    requires Sound(src) && P in src.sizes && src.name != [] && Unfinished(src, P, a) && CutAt(src, P, p)
    requires !Useful(a, p)
    ensures Measure(Count(|src.content|, P), Ingest(a, p).next) == Measure(Count(|src.content|, P), a)
    ensures Ingest(a, p).outcome != Complete
    ensures Ingest(a, p).next.manifest.Some? ==> Ingest(a, p).next.manifest.value.numChunks == Count(|src.content|, P)
  {
    hide IsSet, CountMissing, Count, BitmapLen, Written, Placed, Sidecar.Manifest.Complete, Agrees;
    PacketOfCut(src, P, p);
    if a.manifest.Some? {
      BelongsAgrees(src, P, a);
      AgreesSized(src, P, a.manifest.value, Contents(a.data));
      CompleteAtZero(a.manifest.value, Count(|src.content|, P));
    }
  }

  /** Each packet either lands the file or leaves it unfinished. */
  lemma DeliverOne(src: Source, P: nat, g: Ground, p: Packet)
    requires Sound(src) && P in src.sizes && src.name != [] && GroundPath(src.name) != []
    requires Unfinished(src, P, g.At(p.fileId)) && CutAt(src, P, p)
    ensures Unfinished(src, P, Deliver(g, p).At(p.fileId))
    ensures Deliver(g, p).finals == g.finals
      || Deliver(g, p).finals == g.finals[GroundPath(src.name) := src.content]
  {
    hide Count, CountMissing, CutAt, IngestChunk, IngestManifest, Agrees, Useful, Measure, GroundPath, IsSet;
    hide Consistent;
    var a := g.At(p.fileId);
    var st := Ingest(a, p);
    if Useful(a, p) { UsefulPacket(src, P, a, p); } else { UselessSame(src, P, a, p); }
    IngestConsistent(src, P, a, p);
    if st.outcome == Complete {
      CompleteLands(src, P, g, p);
      LandedUnder(src, P, g, p);
      NothingUnfinished(src, P);
    }
  }

  lemma NothingUnfinished(src: Source, P: nat)
    requires Sound(src) && P in src.sizes
    ensures Unfinished(src, P, NOTHING)
  {
  }

  /** Landing touches one path only. */
  lemma LandedUnder(src: Source, P: nat, g: Ground, p: Packet)
    requires Sound(src) && P in src.sizes && src.name != []
    requires Consistent(src, g.At(p.fileId)) && CutAt(src, P, p) && Ingest(g.At(p.fileId), p).outcome == Complete
    requires GroundPath(src.name) in Deliver(g, p).finals && Deliver(g, p).finals[GroundPath(src.name)] == src.content
    ensures Deliver(g, p).finals == g.finals[GroundPath(src.name) := src.content] || Deliver(g, p).finals == g.finals
  {
    hide Count, CutAt, IngestChunk, IngestManifest, IsSet, GroundPath, IsComplete, Agrees;
    var st := Ingest(g.At(p.fileId), p);
    CompleteAnswer(g.At(p.fileId), p);
    IngestConsistent(src, P, g.At(p.fileId), p);
    var m := st.next.manifest.value;
    var Q :| Q in src.sizes && Agrees(src, Q, m, Contents(st.next.data));
    AgreesNamed(src, Q, m, Contents(st.next.data));
  }

  /** What has landed stays landed, whole, and the rest of the final directory is left alone. */
  lemma {:induction false} DeliverMany(src: Source, P: nat, id: i64, g: Ground, ps: seq<Packet>)
    requires Sound(src) && P in src.sizes && src.name != [] && GroundPath(src.name) != []
    requires Unfinished(src, P, g.At(id)) && OfFile(src, P, id, ps)
    ensures Unfinished(src, P, DeliverAll(g, ps).At(id))
    ensures DeliverAll(g, ps).finals == g.finals
      || DeliverAll(g, ps).finals == g.finals[GroundPath(src.name) := src.content]
    decreases |ps|
  {
    if ps != [] {
      hide Deliver, CutAt, Unfinished, GroundPath, Sound;
      DeliverOne(src, P, g, ps[0]);
      DeliverMany(src, P, id, Deliver(g, ps[0]), ps[1..]);
    }
  }

  lemma {:induction false} SurvivorsOfFile(src: Source, P: nat, id: i64, ps: seq<Packet>, from: nat, lost: nat -> bool)
    requires P > 0 && OfFile(src, P, id, ps)
    ensures OfFile(src, P, id, Survivors(ps, from, lost))
    ensures |Survivors(ps, from, lost)| == |ps| ==> Survivors(ps, from, lost) == ps
    decreases |ps|
  {
    hide CutAt;
    if ps != [] { SurvivorsOfFile(src, P, id, ps[1..], from + 1, lost); }
  }

  // ---- the first pass ----

  function DataPackets(cut: Cut, from: nat): (ps: seq<Packet>)
    requires 0 < cut.payloadSize < U32 && from <= Count(|cut.content|, cut.payloadSize) < U32
    ensures |ps| == Count(|cut.content|, cut.payloadSize) - from
    ensures forall k :: 0 <= k < |ps| ==> cut.DataPacket(from + k) == Success(ps[k])
    decreases Count(|cut.content|, cut.payloadSize) - from
  {
    if from == Count(|cut.content|, cut.payloadSize) then []
    else [cut.DataPacket(from).value] + DataPackets(cut, from + 1)
  }

  /** The ground does not tell a data packet from its retransmission. */
  lemma RetransmitAlike(cut: Cut, c: u32, g: Ground)
    requires cut.payloadSize > 0 && c < cut.NumChunks()
    ensures Deliver(g, cut.DataPacket(c).value) == Deliver(g, cut.RetransmitPacket(c).value)
  {
    hide Count, ChunkBytes, Finalized, IsSet, WriteAt, Grow, SetLen, Offset, SetBit, Sidecar.Manifest.Complete;
    var p, q := cut.DataPacket(c).value, cut.RetransmitPacket(c).value;
    assert p.IsLast() == q.IsLast();
    assert Ingest(g.At(cut.fileId), p) == Ingest(g.At(cut.fileId), q);
  }

  /** Chunks `from..n` as data packets do to the ground what they do as retransmissions. */
  lemma {:induction false} DataLikeRetransmits(cut: Cut, from: nat, g: Ground, cs: seq<nat>)
    requires 0 < cut.payloadSize < U32 && from <= Count(|cut.content|, cut.payloadSize) < U32
    requires |cs| == Count(|cut.content|, cut.payloadSize) - from && forall k :: 0 <= k < |cs| ==> cs[k] == from + k
    ensures DeliverAll(g, DataPackets(cut, from)) == DeliverAll(g, Retransmits(cut, cs))
    decreases |cs|
  {
    hide Deliver, Count, ChunkBytes;
    if cs != [] {
      RetransmitAlike(cut, from, g);
      DataLikeRetransmits(cut, from + 1, Deliver(g, cut.DataPacket(from).value), cs[1..]);
    }
  }

  lemma OneRange(r: RequestedRange)
    ensures AllChunkIds([r]) == ChunkIds(r)
  {
    assert [r][1..] == [] && AllChunkIds([r]) == ChunkIds(r) + AllChunkIds([]);
  }

  function FirstPass(src: Source, P: nat, id: i64): seq<Packet>
    requires 0 < P < U32 && Count(|src.content|, P) < U32
  {
    [Cut(src.content, id, P).ManifestPacket(src.name)] + DataPackets(Cut(src.content, id, P), 0)
  }

  lemma FirstPassOfFile(src: Source, P: nat, id: i64)
    requires 0 < P < U32 && Count(|src.content|, P) < U32
    ensures OfFile(src, P, id, FirstPass(src, P, id))
  {
    hide Count, ChunkBytes;
  }

  /** A first pass that gets through lands the file. */
  lemma FirstPassLands(src: Source, P: nat, id: i64)
    requires Sound(src) && P in src.sizes && src.name != [] && GroundPath(src.name) != []
    ensures GroundPath(src.name) in DeliverAll(EMPTY_GROUND, FirstPass(src, P, id)).finals
  {
    hide Count, Deliver, GroundPath;
    var n, cut := Count(|src.content|, P), Cut(src.content, id, P);
    NothingUnfinished(src, P);
    var ranges := Wanted(n, NOTHING);
    var cs := AllChunkIds(ranges);
    assert ranges == [RequestedRange(0, n)];
    OneRange(RequestedRange(0, n));
    RoundLands(src, P, id, EMPTY_GROUND, ranges);
    var name := cut.ManifestPacket(src.name);
    var g := Deliver(EMPTY_GROUND, name);
    DataLikeRetransmits(cut, 0, g, cs);
    assert Round(src, P, id, NOTHING, cs)[1..] == Retransmits(cut, cs);
    assert FirstPass(src, P, id)[1..] == DataPackets(cut, 0);
  }

  // ---- the loop ----

  /** A round of the loop: everything while nothing has arrived, else the name if missing and the gaps. */
  function RoundPackets(src: Source, P: nat, id: i64, a: Assembly): seq<Packet>
    requires Sound(src) && P in src.sizes && Unfinished(src, P, a)
  {
    WantedInCut(src, P, a);
    Round(src, P, id, a, AllChunkIds(Wanted(Count(|src.content|, P), a)))
  }

  lemma WantedInCut(src: Source, P: nat, a: Assembly)
    requires Sound(src) && P in src.sizes && Unfinished(src, P, a)
    ensures InCut(src, P, AllChunkIds(Wanted(Count(|src.content|, P), a)))
  {
    hide Count, Missing, Measure, Consistent;
    var n := Count(|src.content|, P);
    if a.manifest.Some? {
      RangesJustMissing(a.manifest.value, n, Missing(a.manifest.value.bitmap, n));
    } else {
      OneRange(RequestedRange(0, n));
    }
  }

  lemma RoundOfFile(src: Source, P: nat, id: i64, a: Assembly)
    requires Sound(src) && P in src.sizes && Unfinished(src, P, a)
    ensures OfFile(src, P, id, RoundPackets(src, P, id, a))
  {
    hide CutAt, Round, AllChunkIds, Wanted, Unfinished;
    WantedInCut(src, P, a);
    RoundIsCut(src, P, id, a, AllChunkIds(Wanted(Count(|src.content|, P), a)));
  }

  /** A round that gets through lands the file. */
  lemma RoundThrough(src: Source, P: nat, id: i64, g: Ground)
    requires Sound(src) && P in src.sizes && src.name != [] && GroundPath(src.name) != []
    requires Unfinished(src, P, g.At(id))
    ensures GroundPath(src.name) in DeliverAll(g, RoundPackets(src, P, id, g.At(id))).finals
  {
    hide Round, AllChunkIds, Wanted, DeliverAll, GroundPath, Measure;
    WantedInCut(src, P, g.At(id));
    RoundLands(src, P, id, g, Wanted(Count(|src.content|, P), g.At(id)));
  }

  /** What sending `ps` leaves of the ground, and that losing none of them is what matters. */
  lemma PassDone(src: Source, P: nat, id: i64, g: Ground, ps: seq<Packet>, from: nat, lost: nat -> bool)
    requires Sound(src) && P in src.sizes && src.name != [] && GroundPath(src.name) != []
    requires Unfinished(src, P, g.At(id))
    requires OfFile(src, P, id, ps) && GroundPath(src.name) in DeliverAll(g, ps).finals
    requires GroundPath(src.name) !in g.finals
    ensures var g' := DeliverAll(g, Survivors(ps, from, lost));
      Unfinished(src, P, g'.At(id))
      && (GroundPath(src.name) in g'.finals ==> g'.finals == g.finals[GroundPath(src.name) := src.content])
      && (GroundPath(src.name) !in g'.finals ==> g'.finals == g.finals && |Survivors(ps, from, lost)| < |ps|)
  {
    hide Survivors, DeliverAll, OfFile, Unfinished, GroundPath;
    SurvivorsOfFile(src, P, id, ps, from, lost);
    DeliverMany(src, P, id, g, Survivors(ps, from, lost));
  }

  // ---- what the limiter lets through ----

  /** The two longest datagrams of a file, the name and the first chunk, fit one second of the link's traffic. */
  predicate Sendable(src: Source, P: nat, kbps: u64)
    requires P > 0
  {
    RateLimiter.FitsBucket(HEADER_LEN + |src.name|, kbps)
    && RateLimiter.FitsBucket(HEADER_LEN + FirstLen(src.content, P), kbps)
  }

  /** At 30 kbit/s a chunk of the demonstration's default datagram size is too long. */
  lemma SlowDemoIsStuck(src: Source)
    requires |src.content| >= 4096 - HEADER_LEN
    ensures !Sendable(src, 4096 - HEADER_LEN, 30)
  {
    assert ChunkBytes(src.content, 4096 - HEADER_LEN, 0) == src.content[..4096 - HEADER_LEN];
  }

  lemma LongestChunk(content: bytes, P: nat, c: nat)
    requires P > 0 && c < Count(|content|, P)
    ensures |ChunkBytes(content, P, c)| <= FirstLen(content, P)
  {
    ChunkPlace(content, P, c);
    ChunkPlace(content, P, 0);
  }

  lemma ShorterFits(m: nat, n: nat, kbps: u64)
    requires 0 < m <= n && RateLimiter.FitsBucket(n, kbps)
    ensures RateLimiter.FitsBucket(m, kbps)
  {
  }

  lemma DatagramFits(src: Source, P: nat, kbps: u64, p: Packet)
    requires Sound(src) && P in src.sizes && CutAt(src, P, p) && Sendable(src, P, kbps)
    ensures RateLimiter.FitsBucket(|Encode(p)|, kbps)
  {
    hide Encode, RateLimiter.FitsBucket, Count, ChunkBytes, CutAt;
    PacketOfCut(src, P, p);
    if p.ptype.Data? || p.ptype.Retransmit? {
      LongestChunk(src.content, P, p.chunkId);
      ShorterFits(|Encode(p)|, HEADER_LEN + FirstLen(src.content, P), kbps);
    }
  }

  lemma {:induction false} AllPass(src: Source, P: nat, id: i64, kbps: u64, ps: seq<Packet>)
    requires Sound(src) && P in src.sizes && OfFile(src, P, id, ps) && Sendable(src, P, kbps)
    ensures Passable(ps, kbps) == |ps| && ps[..Passable(ps, kbps)] == ps
  {
    hide Encode, RateLimiter.FitsBucket, CutAt, Sendable, Sound;
    if ps != [] {
      DatagramFits(src, P, kbps, ps[0]);
      AllPass(src, P, id, kbps, ps[1..]);
    }
  }

  lemma {:induction false} PassableFits(ps: seq<Packet>, kbps: u64, k: nat)
    requires Passable(ps, kbps) == |ps| && k < |ps|
    ensures RateLimiter.FitsBucket(|Encode(ps[k])|, kbps)
  {
    hide Encode, RateLimiter.FitsBucket;
    if k > 0 { PassableFits(ps[1..], kbps, k - 1); }
  }

  /** The first pass gets through the limiter exactly when the file's longest datagrams do. */
  lemma FirstPassPasses(src: Source, P: nat, id: i64, kbps: u64)
    requires Sound(src) && P in src.sizes
    ensures Passable(FirstPass(src, P, id), kbps) == |FirstPass(src, P, id)| <==> Sendable(src, P, kbps)
  {
    hide Encode, RateLimiter.FitsBucket, Count, ChunkBytes;
    var ps := FirstPass(src, P, id);
    FirstPassOfFile(src, P, id);
    CountBounds(|src.content|, P);
    assert ps[0].payload == src.name && ps[1] == DataPackets(Cut(src.content, id, P), 0)[0];
    assert ps[1].payload == ChunkBytes(src.content, P, 0);
    if Sendable(src, P, kbps) { AllPass(src, P, id, kbps, ps); }
    if Passable(ps, kbps) == |ps| {
      PassableFits(ps, kbps, 0);
      PassableFits(ps, kbps, 1);
    }
  }

  // ---- too few packets land nothing ----

  lemma DeliverAtMostOne(src: Source, P: nat, g: Ground, p: Packet)
    requires Sound(src) && P in src.sizes && src.name != [] && CutAt(src, P, p)
    requires Belongs(src, P, g.At(p.fileId)) && Measure(Count(|src.content|, P), g.At(p.fileId)) > 1
    ensures var n, g' := Count(|src.content|, P), Deliver(g, p);
      g'.finals == g.finals && Belongs(src, P, g'.At(p.fileId))
        && Measure(n, g'.At(p.fileId)) >= Measure(n, g.At(p.fileId)) - 1
  {
    hide Count, CountMissing, CutAt, IngestChunk, IngestManifest, Agrees, Useful, Measure, GroundPath, IsSet;
    hide Consistent;
    var a := g.At(p.fileId);
    if Useful(a, p) { UsefulPacket(src, P, a, p); } else { UselessSame(src, P, a, p); }
    IngestConsistent(src, P, a, p);
  }

  /** Fewer packets than are missing land nothing. */
  lemma {:induction false} TooFewLandNothing(src: Source, P: nat, id: i64, g: Ground, ps: seq<Packet>)
    requires Sound(src) && P in src.sizes && src.name != [] && OfFile(src, P, id, ps)
    requires Belongs(src, P, g.At(id)) && Measure(Count(|src.content|, P), g.At(id)) > |ps|
    ensures DeliverAll(g, ps).finals == g.finals
    decreases |ps|
  {
    if ps != [] {
      hide Deliver, CutAt, Belongs, Measure, Sound, Count;
      DeliverAtMostOne(src, P, g, ps[0]);
      TooFewLandNothing(src, P, id, Deliver(g, ps[0]), ps[1..]);
    }
  }

  /** A first pass that the limiter stops has landed nothing. */
  lemma StoppedPassLandsNothing(src: Source, P: nat, id: i64, j: nat, lost: nat -> bool)
    requires Sound(src) && P in src.sizes && src.name != [] && j < |FirstPass(src, P, id)|
    ensures DeliverAll(EMPTY_GROUND, Survivors(FirstPass(src, P, id)[..j], 0, lost)).finals == map[]
  {
    hide DeliverAll, Survivors, CutAt, Count;
    FirstPassOfFile(src, P, id);
    var out := FirstPass(src, P, id)[..j];
    assert OfFile(src, P, id, out);
    SurvivorsOfFile(src, P, id, out, 0, lost);
    assert Belongs(src, P, NOTHING) by { NothingUnfinished(src, P); }
    TooFewLandNothing(src, P, id, EMPTY_GROUND, Survivors(out, 0, lost));
  }

  // ---- the loop ----

  datatype Ending = Landed | GaveUp | Stuck

  /**
   How the demonstration ends. It never ends at all if and only if the name or the first chunk
   makes a datagram longer than one second of the link's traffic: the limiter then holds a packet
   of the first pass for ever, and nothing has landed. Otherwise it ends with the file landed, byte
   for byte and nothing else with it, or after the last round allowed; and every pass that did not
   land it has lost at least one packet.
   */
  method Recover(src: Source, P: nat, id: i64, link: LossyLink) returns (ending: Ending, rounds: nat)
    requires Sound(src) && P in src.sizes && src.name != [] && GroundPath(src.name) != []
    requires link.Valid() && link.ground == EMPTY_GROUND && link.sent == link.dropped == 0
    modifies link, link.limiter
    ensures ending.Stuck? <==> !Sendable(src, P, link.kbps)
    ensures ending.Landed? ==> link.ground.finals == map[GroundPath(src.name) := src.content]
    ensures !ending.Landed? ==> link.ground.finals == map[]
    ensures ending.GaveUp? ==> rounds == 26
    ensures 1 <= rounds <= 26 && (ending.Stuck? ==> rounds == 1)
    ensures !ending.Stuck? ==> link.dropped >= if ending.Landed? then rounds - 1 else rounds
    ensures !ending.Stuck? ==> link.dropped <= link.sent
  {
    hide DeliverAll, Survivors, GroundPath, FirstPass, Round, RoundPackets, Unfinished, OfFile, Sendable, Passable;
    var path, first := GroundPath(src.name), FirstPass(src, P, id);
    NothingUnfinished(src, P);
    FirstPassOfFile(src, P, id);
    FirstPassLands(src, P, id);
    FirstPassPasses(src, P, id, link.kbps);
    link.DrainBurst();
    rounds := 1;
    var through := link.TransmitAll(first);
    if !through {
      StoppedPassLandsNothing(src, P, id, Passable(first, link.kbps), link.lost);
      return Stuck, 1;
    }
    assert first[..|first|] == first;
    PassDone(src, P, id, EMPTY_GROUND, first, 0, link.lost);
    while path !in link.ground.finals && rounds <= MAX_ROUNDS
      invariant link.Valid() && Unfinished(src, P, link.ground.At(id))
      invariant link.ground.finals == if path in link.ground.finals then map[path := src.content] else map[]
      invariant 1 <= rounds <= MAX_ROUNDS + 1
      invariant link.dropped >= (if path in link.ground.finals then rounds - 1 else rounds) && link.dropped <= link.sent
      decreases MAX_ROUNDS + 1 - rounds
    {
      rounds := rounds + 1;
      link.DrainBurst();
      var ps := RoundPackets(src, P, id, link.ground.At(id));
      RoundOfFile(src, P, id, link.ground.At(id));
      AllPass(src, P, id, link.kbps, ps);
      RoundThrough(src, P, id, link.ground);
      PassDone(src, P, id, link.ground, ps, link.sent, link.lost);
      through := link.TransmitAll(ps);
    }
    ending := if path in link.ground.finals then Landed else GaveUp;
  }
}
