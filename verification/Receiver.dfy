/**
 The receive loop over real files (receiver.rs). The sidecar is read back for every packet;
 these lemmas show that this gives the same ground station as keeping manifests in memory.
 */
module Receiver {
  import opened Wrappers
  import opened Bytes
  import opened Bitmaps
  import opened Sidecar
  import opened Packets
  import opened Reassembly
  import opened Delivery
  import Errors
  import GroundPaths

  /** The files hold, id by id, what the in-memory ground station knows. */
  ghost predicate Mirrors(f: Files, g: Ground) {
    f.finals == g.finals
    && forall id: i64 :: f.At(id) == Store(g.At(id)) && SizedAssembly(g.At(id))
  }

  ghost predicate SizedAssembly(a: Assembly) {
    a.manifest.Some? ==> a.manifest.value.Sized()
  }

  lemma PutTwice(f: Files, id: i64, s: Slot)
    ensures Put(f, id, s).At(id) == s && Put(f, id, s).finals == f.finals
    ensures forall t :: Put(Put(f, id, s), id, t) == Put(f, id, t)
  {
  }

  /** What one datagram does to the files. */
  function ReceiveFiles(f: Files, d: bytes): Files {
    match Decode(d)
    case Failure(_) => f
    case Success(p) =>
      var (slot, r) := IngestSlot(f.At(p.fileId), p);
      if r != Success(Complete) then Put(f, p.fileId, slot)
      else
        var (landed, _, finals) := FinalizeSlot(slot, f.finals);
        Put(f, p.fileId, landed).(finals := finals)
  }

  function ReceiveFilesAll(f: Files, ds: seq<bytes>): Files
    decreases |ds|
  {
    if ds == [] then f else ReceiveFilesAll(ReceiveFiles(f, ds[0]), ds[1..])
  }

  /** The body of the loop. */
  method ReceiveOne(r: Reassembler, d: bytes)
    modifies r
    ensures r.Disk() == ReceiveFiles(old(r.Disk()), d)
  {
    var decoded := DecodePacket(d);
    if decoded.Success? {
      var p := decoded.value;
      EncodeDecode(d);
      hide IngestSlot, FinalizeSlot, Decode, Encode, Put;
      PutTwice(old(r.Disk()), p.fileId, IngestSlot(old(r.Disk()).At(p.fileId), p).0);
      var outcome := r.IngestPacket(p);
      if outcome == Success(Complete) {
        var _ := r.Finalize(p.fileId);
      }
    }
  }

  /** The loop itself, over the datagrams of one session. */
  method ReceiveLoop(r: Reassembler, datagrams: seq<bytes>)
    modifies r
    ensures r.Disk() == ReceiveFilesAll(old(r.Disk()), datagrams)
  {
    hide ReceiveFiles;
    for k := 0 to |datagrams|
      invariant ReceiveFilesAll(r.Disk(), datagrams[k..]) == ReceiveFilesAll(old(r.Disk()), datagrams)
    {
      assert datagrams[k..][1..] == datagrams[k + 1..];
      ReceiveOne(r, datagrams[k]);
    }
  }

  // ---- reloading the sidecar changes nothing ----

  lemma IngestKeepsSized(a: Assembly, p: Packet)
    requires SizedAssembly(a) && p.Fits()
    ensures SizedAssembly(Ingest(a, p).next)
    ensures !Ingest(a, p).saved ==> Ingest(a, p).next.manifest == a.manifest
  {
    hide IsSet, Written, Placed, Sidecar.Manifest.Complete, SetLen;
  }

  lemma LoadStore(a: Assembly)
    requires SizedAssembly(a)
    ensures Load(Store(a)) == Success(a)
  {
    if a.manifest.Some? { OpenSized(a.manifest.value); }
  }

  /** One packet on the files is one packet on the assembly they hold. */
  lemma SlotRefines(a: Assembly, p: Packet)
    requires SizedAssembly(a) && p.Fits()
    ensures IngestSlot(Store(a), p) == (Store(Ingest(a, p).next), Success(Ingest(a, p).outcome))
  {
    hide IngestChunk, IngestManifest, Save;
    LoadStore(a);
    IngestKeepsSized(a, p);
  }

  /** A sidecar that cannot be read stops every packet of its file, and nothing is touched. */
  lemma UnreadableKept(f: Files, d: bytes)
    requires Decode(d).Success? && !Decode(d).value.ptype.Heartbeat?
    requires f.At(Decode(d).value.fileId).sidecar.Some? && Open(f.At(Decode(d).value.fileId).sidecar.value).Failure?
    ensures ReceiveFiles(f, d) == f
  {
    hide Open, Decode;
    var id := Decode(d).value.fileId;
    PutIs(f, id, f.At(id), f);
  }

  /** Every chunk, a name, the data, and a place to put it. */
  predicate CanLand(a: Assembly) {
    && a.manifest.Some? && a.manifest.value.Complete() && a.manifest.value.name != []
    && a.data.Some? && GroundPaths.GroundPath(a.manifest.value.name) != []
  }

  /** How `finalize` answers for an assembly, and what it leaves. */
  lemma FinalizeAnswers(a: Assembly, finals: map<GroundPaths.Path, bytes>)
    requires SizedAssembly(a)
    ensures var (slot, r, landed) := FinalizeSlot(Store(a), finals);
      && (r.Success? <==> CanLand(a))
      && (r.Success? ==> landed == finals[r.value := a.data.value] && slot == Slot(None, None))
      && (r.Failure? ==> landed == finals && slot == Store(a))
      && (a.manifest.None? ==> r == Failure(Errors.NotFound))
      && (a.manifest.Some? && (!a.manifest.value.Complete() || a.manifest.value.name == []) ==>
          r == Failure(Errors.BadManifest))
  {
    hide Save, Open, Sidecar.Manifest.Complete, GroundPaths.GroundPath;
    if a.manifest.Some? { OpenSized(a.manifest.value); }
  }

  lemma FinalizeRefines(g: Ground, id: i64)
    requires SizedAssembly(g.At(id))
    ensures FinalizeSlot(Store(g.At(id)), g.finals).0 == Store(Finalized(g, id).At(id))
    ensures FinalizeSlot(Store(g.At(id)), g.finals).2 == Finalized(g, id).finals
  {
    hide Save, Open;
    var a := g.At(id);
    if a.manifest.Some? { OpenSized(a.manifest.value); }
  }

  /** The receive loop keeps the files and the in-memory ground station in step. */
  lemma ReceiveRefines(f: Files, g: Ground, d: bytes)
    requires Mirrors(f, g)
    ensures Mirrors(ReceiveFiles(f, d), Receive(g, d))
  {
    hide IngestSlot, FinalizeSlot, Ingest, Store, Finalized, Decode, Put;
    if Decode(d).Success? {
      var p := Decode(d).value;
      DecodedFits(d);
      var a := g.At(p.fileId);
      assert f.At(p.fileId) == Store(a) && SizedAssembly(a);
      SlotRefines(a, p);
      IngestKeepsSized(a, p);
      var st := Ingest(a, p);
      var g1 := g.(assemblies := g.assemblies[p.fileId := st.next]);
      FinalizeRefines(g1, p.fileId);
      FinalizedElsewhere(g1, p.fileId);
      PutAt(f, p.fileId, Store(st.next));
      PutAt(f, p.fileId, Store(Finalized(g1, p.fileId).At(p.fileId)));
      var f', g' := ReceiveFiles(f, d), Receive(g, d);
      forall id: i64 ensures f'.At(id) == Store(g'.At(id)) && SizedAssembly(g'.At(id)) {
        assert f.At(id) == Store(g.At(id)) && SizedAssembly(g.At(id));
        if id != p.fileId { assert g1.At(id) == g.At(id); }
      }
    }
  }

  lemma FinalizedElsewhere(g: Ground, id: i64)
    ensures forall j: i64 :: j != id ==> Finalized(g, id).At(j) == g.At(j)
    ensures SizedAssembly(g.At(id)) ==> SizedAssembly(Finalized(g, id).At(id))
  {
  }

  lemma DecodedFits(d: bytes)
    requires Decode(d).Success?
    ensures Decode(d).value.Fits()
  {
    EncodeDecode(d);
  }

  function ReceiveAll(g: Ground, ds: seq<bytes>): Ground
    decreases |ds|
  {
    if ds == [] then g else ReceiveAll(Receive(g, ds[0]), ds[1..])
  }

  /** Reloading the sidecar on every packet is the same as keeping it in memory, over whole runs. */
  lemma {:induction false} ReloadingChangesNothing(f: Files, g: Ground, ds: seq<bytes>)
    requires Mirrors(f, g)
    ensures Mirrors(ReceiveFilesAll(f, ds), ReceiveAll(g, ds))
    decreases |ds|
  {
    if ds != [] {
      hide Mirrors, ReceiveFiles, Receive;
      ReceiveRefines(f, g, ds[0]);
      ReloadingChangesNothing(ReceiveFiles(f, ds[0]), Receive(g, ds[0]), ds[1..]);
    }
  }
}
