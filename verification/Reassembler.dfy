/**
 Reassembly of files from packets (reassembler.rs). `IngestChunk` and `IngestManifest` say
 what one packet does to one assembly; the class `Reassembler` performs the same steps on
 sidecar and data files, and is proved to do exactly that.
 */
module Reassembly {
  import opened Wrappers
  import opened Bytes
  import opened Errors
  import opened Bitmaps
  import opened Sidecar
  import opened Packets
  import opened GroundPaths

  datatype IngestOutcome = Accepted | Duplicate | Complete | Mismatched | Ignored

  /** The two files of one id in the holding directory, the sidecar as the manifest it holds. */
  datatype Assembly = Assembly(manifest: Option<Sidecar.Manifest>, data: Option<bytes>)

  const NOTHING := Assembly(None, None)

  /**
   What one packet does: the files afterwards, the answer, whether the sidecar was written,
   and the contents of the two files after each durable step.
   */
  datatype Step = Step(next: Assembly, outcome: IngestOutcome, saved: bool, trail: seq<Assembly>)

  // ---- the data file ----

  function SetLen(d: bytes, n: nat): (r: bytes)
    ensures |r| == n
  {
    if n <= |d| then d[..n] else d + Zeros(n - |d|)
  }

  function Grow(d: bytes, n: nat): (r: bytes)
    ensures |r| >= n && |r| >= |d| && d == r[..|d|]
  {
    if |d| < n then SetLen(d, n) else d
  }

  function WriteAt(d: bytes, at: nat, s: bytes): (r: bytes)
    requires at + |s| <= |d|
    ensures |r| == |d|
    ensures forall k :: 0 <= k < |d| ==> r[k] == if at <= k < at + |s| then s[k - at] else d[k]
  {
    d[..at] + s + d[at + |s|..]
  }

  function Offset(payloadSize: nat, chunkId: nat): nat {
    chunkId * payloadSize
  }

  function Contents(data: Option<bytes>): bytes {
    match data case None => [] case Some(d) => d
  }

  // ---- one packet ----

  /** A chunk that cannot tell the chunk size: the tail of a file of several chunks. */
  predicate Tail(p: Packet) {
    p.IsLast() && p.numChunks > 1
  }

  /** The manifest after the chunk size is known: created or patched when it was not. */
  function Sizing(m: Option<Sidecar.Manifest>, p: Packet): Sidecar.Manifest
    requires m.Some? || !Tail(p)
  {
    var size := |p.payload| % U32;
    match m
    case None => Fresh(size, p.numChunks, [])
    case Some(x) => if x.payloadSize == 0 && !Tail(p) then x.(payloadSize := size) else x
  }

  predicate Writes(m: Option<Sidecar.Manifest>, p: Packet) {
    match m
    case None => !Tail(p)
    case Some(x) => x.numChunks == p.numChunks && (x.payloadSize != 0 || !Tail(p))
  }

  /** The data file after the chunk is written and, for the last chunk, the length fixed. */
  function Written(payloadSize: nat, p: Packet, d: bytes): bytes {
    var at := Offset(payloadSize, p.chunkId);
    WriteAt(Grow(d, at + |p.payload|), at, p.payload)
  }

  function Placed(payloadSize: nat, p: Packet, d: bytes): bytes {
    var w := Written(payloadSize, p, d);
    if p.IsLast() then SetLen(w, Offset(payloadSize, p.chunkId) + |p.payload|) else w
  }

  function Marked(m: Sidecar.Manifest, p: Packet): Sidecar.Manifest {
    var hint := (Offset(m.payloadSize, p.chunkId) + |p.payload|) % U64;
    m.(bitmap := SetBit(m.bitmap, p.chunkId), sizeHint := if p.IsLast() then hint else m.sizeHint)
  }

  /** Writing a chunk into an assembly whose chunk size is known, then marking it received. */
  function StoreChunk(m: Sidecar.Manifest, data: Option<bytes>, p: Packet): Step {
    var d := Contents(data);
    var placed := Placed(m.payloadSize, p, d);
    var stored := [Assembly(Some(m), Some(d)), Assembly(Some(m), Some(Written(m.payloadSize, p, d))),
        Assembly(Some(m), Some(placed))];
    if IsSet(m.bitmap, p.chunkId) then
      Step(Assembly(Some(m), Some(placed)), Duplicate, false, stored)
    else
      var marked := Marked(m, p);
      var done := Assembly(Some(marked), Some(placed));
      Step(done, if marked.Complete() && marked.name != [] then Complete else Accepted, true, stored + [done])
  }

  function IngestChunk(a: Assembly, p: Packet): Step {
    if !Writes(a.manifest, p) then Step(a, Mismatched, false, [])
    else
      var m := Sizing(a.manifest, p);
      var sized := Assembly(Some(m), a.data);
      var created := if a.manifest.None? then [sized] else [];
      var patched := if (if a.manifest.None? then m else a.manifest.value).payloadSize == 0 then [sized] else [];
      var st := StoreChunk(m, a.data, p);
      st.(saved := st.saved || created + patched != [], trail := created + patched + st.trail)
  }

  function IngestManifest(a: Assembly, p: Packet): Step {
    var m := match a.manifest case None => Fresh(0, p.numChunks, p.payload) case Some(x) => x;
    var created := a.manifest.None?;
    if m.numChunks != p.numChunks then Step(a, Mismatched, false, [])
    else
      var named := if m.name == [] then m.(name := p.payload) else m;
      var next := a.(manifest := Some(named));
      Step(next, if named.Complete() && named.name != [] then Complete else Accepted, created || m.name == [],
           (if created then [a.(manifest := Some(m))] else []) + if m.name == [] then [next] else [])
  }

  function Ingest(a: Assembly, p: Packet): Step {
    match p.ptype
    case Data => IngestChunk(a, p)
    case Retransmit => IngestChunk(a, p)
    case Manifest => IngestManifest(a, p)
    case NameOnly => IngestManifest(a, p)
    case Heartbeat => Step(a, Ignored, false, [])
  }

  // ---- the same on files ----

  /** The two files as they are on disk. */
  datatype Slot = Slot(sidecar: Option<bytes>, data: Option<bytes>)

  function Store(a: Assembly): Slot {
    Slot(match a.manifest case None => None case Some(m) => Some(Save(m)), a.data)
  }

  function Load(s: Slot): (r: Result<Assembly, Error>)
    ensures r.Success? && r.value.manifest.Some? ==> r.value.manifest.value.Sized()
    ensures r.Failure? ==> r == Failure(BadManifest)
  {
    match s.sidecar
    case None => Success(Assembly(None, s.data))
    case Some(buf) =>
      match Open(buf)
      case Failure(e) => Failure(e)
      case Success(m) => Success(Assembly(Some(m), s.data))
  }

  /** One packet against the files: load the sidecar, apply the packet, write back what was saved. */
  function IngestSlot(s: Slot, p: Packet): (Slot, Result<IngestOutcome, Error>) {
    if p.ptype.Heartbeat? then (s, Success(Ignored))
    else match Load(s)
      case Failure(e) => (s, Failure(e))
      case Success(a) =>
        var st := Ingest(a, p);
        (Slot(if st.saved then Store(st.next).sidecar else s.sidecar, st.next.data), Success(st.outcome))
  }

  /** The holding directory by id, and the final directory. */
  datatype Files = Files(sidecars: map<i64, bytes>, incoming: map<i64, bytes>, finals: map<Path, bytes>)
  {
    function At(id: i64): Slot {
      Slot(if id in sidecars then Some(sidecars[id]) else None, if id in incoming then Some(incoming[id]) else None)
    }
  }

  function Put(f: Files, id: i64, s: Slot): Files {
    f.(sidecars := if s.sidecar.Some? then f.sidecars[id := s.sidecar.value] else f.sidecars - {id},
       incoming := if s.data.Some? then f.incoming[id := s.data.value] else f.incoming - {id})
  }

  lemma PutIs(f: Files, id: i64, s: Slot, f': Files)
    requires f'.At(id) == s && f'.finals == f.finals && forall j: i64 :: j != id ==> f'.At(j) == f.At(j)
    ensures f' == Put(f, id, s)
  {
    var g := Put(f, id, s);
    assert g.At(id) == s;
    forall j: i64 ensures f'.At(j) == g.At(j) {}
    SameSlots(f', g);
  }

  lemma SameSlots(f: Files, g: Files)
    requires f.finals == g.finals && forall j: i64 :: f.At(j) == g.At(j)
    ensures f == g
  {
    forall j: i64 ensures (j in f.sidecars <==> j in g.sidecars) && (j in f.incoming <==> j in g.incoming) {
      assert f.At(j) == g.At(j);
    }
    forall j: i64 | j in f.sidecars ensures f.sidecars[j] == g.sidecars[j] { assert f.At(j) == g.At(j); }
    forall j: i64 | j in f.incoming ensures f.incoming[j] == g.incoming[j] { assert f.At(j) == g.At(j); }
  }

  lemma PutAt(f: Files, id: i64, s: Slot)
    ensures Put(f, id, s).At(id) == s
    ensures Put(f, id, s).finals == f.finals
    ensures forall j: i64 :: j != id ==> Put(f, id, s).At(j) == f.At(j)
  {
  }

  class Reassembler {
    var sidecars: map<i64, bytes>
    var incoming: map<i64, bytes>
    var finals: map<Path, bytes>

    constructor ()
      ensures sidecars == map[] && incoming == map[] && finals == map[]
    {
      sidecars, incoming, finals := map[], map[], map[];
    }

    function SlotOf(id: i64): Slot
      reads this
    {
      Slot(if id in sidecars then Some(sidecars[id]) else None, if id in incoming then Some(incoming[id]) else None)
    }

    function Disk(): Files
      reads this
    {
      Files(sidecars, incoming, finals)
    }

    /** What a restarted receiver would find for `id`, provided the sidecar is readable. */
    ghost function View(id: i64): Assembly
      reads this
    {
      var r := Load(SlotOf(id)); if r.Success? then r.value else NOTHING
    }

    /** The view follows the data file while the sidecar stays. */
    lemma Seen(id: i64, m: Sidecar.Manifest)
      requires id in sidecars && Open(sidecars[id]) == Success(m)
      ensures View(id) == Assembly(Some(m), SlotOf(id).data) && Load(SlotOf(id)).Success?
    {
      hide Open;
    }

    method SaveManifest(id: i64, m: Sidecar.Manifest)
      requires m.Sized()
      modifies this`sidecars
      ensures sidecars == old(sidecars)[id := Save(m)]
      ensures View(id) == Assembly(Some(m), SlotOf(id).data) && Load(SlotOf(id)).Success?
    {
      sidecars := sidecars[id := Save(m)];
      OpenSized(m);
    }

    /**
     Every assignment to a file is one durable step; `trail` records what a reader of the two
     files would see after each.
     */
    method IngestChunkPacket(p: Packet) returns (r: Result<IngestOutcome, Error>, ghost trail: seq<Assembly>)
      requires p.Fits()
      modifies this`sidecars, this`incoming
      ensures old(Load(SlotOf(p.fileId))).Failure? ==>
        r == Failure(BadManifest) && trail == [] && sidecars == old(sidecars) && incoming == old(incoming)
      ensures old(Load(SlotOf(p.fileId))).Success? ==>
        var st := IngestChunk(old(View(p.fileId)), p);
        r == Success(st.outcome) && trail == st.trail && View(p.fileId) == st.next
        && SlotOf(p.fileId)
           == Slot(if st.saved then Store(st.next).sidecar else old(SlotOf(p.fileId)).sidecar, st.next.data)
      ensures forall id :: id != p.fileId ==> SlotOf(id) == old(SlotOf(id))
    {
      hide Save, Open, BitmapLen, StoreChunk;
      var id := p.fileId;
      trail := [];
      var m: Sidecar.Manifest;
      if id in sidecars {
        var got := Open(sidecars[id]);
        if got.Failure? { return Failure(BadManifest), []; }
        m := got.value;
      } else {
        if p.IsLast() && p.numChunks > 1 { return Success(Mismatched), []; }
        m := Fresh(|p.payload| % U32, p.numChunks, []);
        SaveManifest(id, m);
        trail := trail + [View(id)];
      }
      if m.numChunks != p.numChunks { return Success(Mismatched), []; }
      if m.payloadSize == 0 {
        if p.IsLast() && p.numChunks > 1 { return Success(Mismatched), []; }
        m := m.(payloadSize := |p.payload| % U32);
        SaveManifest(id, m);
        trail := trail + [View(id)];
      }
      ghost var sizing := trail;
      var outcome;
      outcome, trail := StoreChunkOf(m, p);
      r, trail := Success(outcome), sizing + trail;
    }

    method StoreChunkOf(m: Sidecar.Manifest, p: Packet) returns (outcome: IngestOutcome, ghost trail: seq<Assembly>)
      requires p.Fits() && m.Sized() && Load(SlotOf(p.fileId)).Success? && View(p.fileId).manifest == Some(m)
      modifies this`sidecars, this`incoming
      ensures var st := StoreChunk(m, old(SlotOf(p.fileId)).data, p);
        outcome == st.outcome && trail == st.trail && View(p.fileId) == st.next
        && SlotOf(p.fileId)
           == Slot(if st.saved then Store(st.next).sidecar else old(SlotOf(p.fileId)).sidecar, st.next.data)
        && Load(SlotOf(p.fileId)).Success?
      ensures forall id :: id != p.fileId ==> SlotOf(id) == old(SlotOf(id))
    {
      hide Save, Open, Sidecar.Manifest.Complete, SetBit, IsSet, WriteAt, Grow, SetLen, Offset, BitmapLen;
      var id := p.fileId;
      if id !in incoming { incoming := incoming[id := []]; }
      trail := [];
      Seen(id, m);
      trail := trail + [View(id)];
      var at := Offset(m.payloadSize, p.chunkId);
      var grown := Grow(incoming[id], at + |p.payload|);
      incoming := incoming[id := WriteAt(grown, at, p.payload)];
      Seen(id, m);
      trail := trail + [View(id)];
      var hint := m.sizeHint;
      if p.IsLast() {
        incoming := incoming[id := SetLen(incoming[id], at + |p.payload|)];
        hint := (at + |p.payload|) % U64;
      }
      Seen(id, m);
      trail := trail + [View(id)];
      if IsSet(m.bitmap, p.chunkId) { return Duplicate, trail; }
      var marked := m.(bitmap := SetBit(m.bitmap, p.chunkId), sizeHint := hint);
      SaveManifest(id, marked);
      trail := trail + [View(id)];
      outcome := if marked.Complete() && marked.name != [] then Complete else Accepted;
    }

    method IngestManifestPacket(p: Packet) returns (r: Result<IngestOutcome, Error>, ghost trail: seq<Assembly>)
      requires p.Fits()
      modifies this`sidecars
      ensures old(Load(SlotOf(p.fileId))).Failure? ==>
        r == Failure(BadManifest) && trail == [] && sidecars == old(sidecars)
      ensures old(Load(SlotOf(p.fileId))).Success? ==>
        var st := IngestManifest(old(View(p.fileId)), p);
        r == Success(st.outcome) && trail == st.trail && View(p.fileId) == st.next
        && SlotOf(p.fileId)
           == Slot(if st.saved then Store(st.next).sidecar else old(SlotOf(p.fileId)).sidecar, st.next.data)
      ensures forall id :: id != p.fileId ==> SlotOf(id) == old(SlotOf(id))
    {
      hide Save, Open, Sidecar.Manifest.Complete, SetBit, IsSet, WriteAt, Grow, SetLen, Offset, BitmapLen;
      var id := p.fileId;
      trail := [];
      var m: Sidecar.Manifest;
      if id in sidecars {
        var got := Open(sidecars[id]);
        if got.Failure? { return Failure(BadManifest), []; }
        m := got.value;
      } else {
        m := Fresh(0, p.numChunks, p.payload);
        SaveManifest(id, m);
        trail := trail + [View(id)];
      }
      if m.numChunks != p.numChunks { return Success(Mismatched), []; }
      if m.name == [] {
        m := m.(name := p.payload);
        SaveManifest(id, m);
        trail := trail + [View(id)];
      }
      if m.Complete() && m.name != [] { return Success(Complete), trail; }
      return Success(Accepted), trail;
    }

    method IngestPacket(p: Packet) returns (r: Result<IngestOutcome, Error>)
      requires p.Fits()
      modifies this`sidecars, this`incoming
      ensures var (slot, answer) := IngestSlot(old(Disk()).At(p.fileId), p);
        Disk() == Put(old(Disk()), p.fileId, slot) && r == answer
    {
      hide Put, IngestChunk, IngestManifest, Save, Open;
      ghost var f := Disk();
      ghost var trail;
      forall j: i64 ensures f.At(j) == SlotOf(j) {}
      match p.ptype {
        case Data => r, trail := IngestChunkPacket(p);
        case Retransmit => r, trail := IngestChunkPacket(p);
        case Manifest => r, trail := IngestManifestPacket(p);
        case NameOnly => r, trail := IngestManifestPacket(p);
        case Heartbeat => r := Success(Ignored);
      }
      forall j: i64 ensures Disk().At(j) == SlotOf(j) {}
      PutIs(f, p.fileId, SlotOf(p.fileId), Disk());
    }

    /** Move a complete, named assembly to its place under the final directory. */
    method Finalize(id: i64) returns (r: Result<Path, Error>)
      modifies this
      ensures var (slot, answer, landed) := FinalizeSlot(old(Disk()).At(id), old(finals));
        Disk() == Put(old(Disk()), id, slot).(finals := landed) && r == answer
    {
      hide Save, Open, GroundPath, Sidecar.Manifest.Complete;
      if id !in sidecars { return Failure(NotFound); }
      var got := Open(sidecars[id]);
      if got.Failure? { return Failure(BadManifest); }
      var m := got.value;
      if !m.Complete() || m.name == [] { return Failure(BadManifest); }
      var dest := ComputeGroundPath(m.name);
      if id !in incoming || dest == [] { return Failure(Io); }
      finals := finals[dest := incoming[id]];
      incoming := incoming - {id};
      sidecars := sidecars - {id};
      r := Success(dest);
    }
  }

  /** Renaming needs a data file and a file name to rename it to. */
  function FinalizeSlot(s: Slot, finals: map<Path, bytes>): (Slot, Result<Path, Error>, map<Path, bytes>) {
    match s.sidecar
    case None => (s, Failure(NotFound), finals)
    case Some(buf) =>
      match Open(buf)
      case Failure(_) => (s, Failure(BadManifest), finals)
      case Success(m) =>
        if !m.Complete() || m.name == [] then (s, Failure(BadManifest), finals)
        else if s.data.None? || GroundPath(m.name) == [] then (s, Failure(Io), finals)
        else (Slot(None, None), Success(GroundPath(m.name)), finals[GroundPath(m.name) := s.data.value])
  }
}
