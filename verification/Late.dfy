/**
 What becomes of a file that has landed when more of its packets come (reassembler.rs): the ground
 has forgotten the file, so all but one kind of packet begin its assembly again, and the cleaner,
 which sees an assembly with gaps, asks for the file a second time.
 */
module Late {
  import opened Bytes
  import opened Bitmaps
  import opened Sidecar
  import opened Packets
  import opened Chunker
  import opened Reassembly
  import opened Delivery
  import opened Recovery
  import Cleaner

  /** The file is under way, something of it is missing, and a pass of the cleaner asks for it. */
  ghost predicate Begun(src: Source, id: i64, a: Assembly)
    requires Sound(src)
  {
    && a.manifest.Some?
    && (exists P :: P in src.sizes && Belongs(src, P, a) && Measure(Count(|src.content|, P), a) > 0)
    && Cleaner.PlanFor([Cleaner.Reading(id, a.manifest, a.manifest)]) != []
  }

  /** Where something is missing there is something to ask for. */
  lemma SomethingPlanned(src: Source, P: nat, id: i64, a: Assembly)
    requires Sound(src) && P in src.sizes && Belongs(src, P, a) && a.manifest.Some?
    requires Measure(Count(|src.content|, P), a) > 0
    ensures Cleaner.PlanFor([Cleaner.Reading(id, a.manifest, a.manifest)]) != []
  {
    hide IsSet, CountMissing, Missing, Count, Agrees;
    var m := a.manifest.value;
    BelongsAgrees(src, P, a);
    AgreesSized(src, P, m, Contents(a.data));
    BitmapAgreement(m.bitmap, m.numChunks);
    assert Cleaner.NamePlan(id, a.manifest) + Cleaner.RangePlan(id, a.manifest) != [];
  }

  /** The last chunk of a file of several says nothing of the chunk size, and is turned away. */
  lemma TailTurnedAway(g: Ground, p: Packet)
    requires g.At(p.fileId) == NOTHING && Tail(p) && (p.ptype.Data? || p.ptype.Retransmit?)
    ensures Deliver(g, p).At(p.fileId) == NOTHING && Deliver(g, p).finals == g.finals
  {
  }

  lemma TailIsChunk(src: Source, P: nat, p: Packet)
    requires Sound(src) && P in src.sizes && CutAt(src, P, p) && Tail(p)
    ensures p.ptype.Data? || p.ptype.Retransmit?
  {
    hide Count, ChunkBytes, ToldApart;
  }

  /** Any other packet begins the file again. */
  lemma OtherBegins(src: Source, P: nat, g: Ground, p: Packet)
    requires Sound(src) && P in src.sizes && CutAt(src, P, p) && g.At(p.fileId) == NOTHING && !Tail(p)
    ensures Begun(src, p.fileId, Deliver(g, p).At(p.fileId)) && Deliver(g, p).finals == g.finals
  {
    PositiveSizes(src);
    assert Belongs(src, P, NOTHING);
    hide IsSet, CountMissing, Count, Agrees, Sidecar.Manifest.Complete, Consistent, CutAt, Sound, Written, Placed;
    hide SetBit, Cleaner.PlanFor, BitmapLen;
    var n := Count(|src.content|, P);
    CountBounds(|src.content|, P);
    PacketOfCut(src, P, p);
    IngestConsistent(src, P, NOTHING, p);
    if Useful(NOTHING, p) {
      UsefulPacket(src, P, NOTHING, p);
    } else {
      NamelessBegins(n, p);
    }
    SomethingPlanned(src, P, p.fileId, Ingest(NOTHING, p).next);
  }

  /** A name packet without a name. */
  lemma NamelessBegins(n: u32, p: Packet)
    requires (p.ptype.Manifest? || p.ptype.NameOnly?) && p.payload == [] && p.numChunks == n && n > 0
    ensures var st := Ingest(NOTHING, p);
      st.outcome == Accepted && st.next.manifest.Some? && st.next.manifest.value.numChunks == n
      && Measure(n, st.next) > 0
  {
    hide CountMissing;
  }

  ghost predicate AllTails(ps: seq<Packet>) {
    forall k :: 0 <= k < |ps| ==> Tail(ps[k])
  }

  ghost predicate StaysAway(id: i64, g: Ground, ps: seq<Packet>) {
    forall k :: 0 <= k <= |ps| ==> DeliverAll(g, ps[..k]).At(id) == NOTHING
  }

  lemma AwayAtFirst(id: i64, g: Ground, ps: seq<Packet>)
    requires ps != [] && g.At(id) == NOTHING
    ensures StaysAway(id, g, ps) <==> StaysAway(id, Deliver(g, ps[0]), ps[1..])
  {
    hide Deliver;
    forall k | 0 <= k <= |ps[1..]|
      ensures DeliverAll(Deliver(g, ps[0]), ps[1..][..k]) == DeliverAll(g, ps[..k + 1])
    {
      assert ps[..k + 1][1..] == ps[1..][..k];
    }
    if StaysAway(id, Deliver(g, ps[0]), ps[1..]) {
      forall k | 0 <= k <= |ps| ensures DeliverAll(g, ps[..k]).At(id) == NOTHING {
        if k > 0 { assert DeliverAll(Deliver(g, ps[0]), ps[1..][..k - 1]) == DeliverAll(g, ps[..k]); }
      }
    }
  }

  /** The `j`-th packet is the first that is not such a last chunk, and it begins the file again. */
  ghost predicate BeginsAt(src: Source, id: i64, g: Ground, ps: seq<Packet>, j: nat)
    requires Sound(src) && 0 < j <= |ps|
  {
    AllTails(ps[..j - 1]) && Begun(src, id, DeliverAll(g, ps[..j]).At(id)) && DeliverAll(g, ps[..j]).finals == g.finals
  }

  /**
   After a file has landed, over every run of its packets, cut at any of its sizes: nothing of it is
   held again at any time if and only if every packet is the last chunk of a file of several; and if
   not, then the first other packet begins it again, nothing having landed meanwhile, with something
   missing that the cleaner asks for.
   */
  lemma {:induction false} LatePacketsBegin(src: Source, id: i64, g: Ground, ps: seq<Packet>)
    requires Sound(src) && FromFile(src, id, ps) && g.At(id) == NOTHING
    ensures StaysAway(id, g, ps) <==> AllTails(ps)
    ensures AllTails(ps) || exists j :: 0 < j <= |ps| && BeginsAt(src, id, g, ps, j)
    decreases |ps|
  {
    if ps == [] {
      Rests(id, g, ps);
    } else {
      PositiveSizes(src);
      hide CutAt, Deliver, Sound, Begun, StaysAway, BeginsAt, AllTails, Tail, DeliverAll;
      var p, g1 := ps[0], Deliver(g, ps[0]);
      var P :| P in src.sizes && CutAt(src, P, p);
      assert FromFile(src, id, ps[1..]);
      AwayAtFirst(id, g, ps);
      TailFirst(ps);
      if Tail(p) {
        TailIsChunk(src, P, p);
        TailTurnedAway(g, p);
        LatePacketsBegin(src, id, g1, ps[1..]);
        if !AllTails(ps) {
          var j :| 0 < j <= |ps[1..]| && BeginsAt(src, id, g1, ps[1..], j);
          BeginsLater(src, id, g, ps, j);
        }
      } else {
        OtherBegins(src, P, g, p);
        BeginsNow(src, id, g, ps);
      }
    }
  }

  lemma BeginsNow(src: Source, id: i64, g: Ground, ps: seq<Packet>)
    requires Sound(src) && ps != [] && !Tail(ps[0])
    requires Begun(src, id, Deliver(g, ps[0]).At(id)) && Deliver(g, ps[0]).finals == g.finals
    ensures BeginsAt(src, id, g, ps, 1) && !StaysAway(id, g, ps)
  {
    hide Deliver, Tail, Begun, Sound;
    assert ps[..1][1..] == [];
    assert DeliverAll(g, ps[..1]) == DeliverAll(Deliver(g, ps[0]), []);
    BegunIsHeld(src, id, Deliver(g, ps[0]).At(id));
  }

  lemma BeginsLater(src: Source, id: i64, g: Ground, ps: seq<Packet>, j: nat)
    requires Sound(src) && ps != [] && Tail(ps[0]) && Deliver(g, ps[0]).finals == g.finals
    requires 0 < j <= |ps[1..]| && BeginsAt(src, id, Deliver(g, ps[0]), ps[1..], j)
    ensures BeginsAt(src, id, g, ps, j + 1)
  {
    hide Deliver, Tail, Begun, Sound, AllTails;
    assert ps[..j + 1][1..] == ps[1..][..j];
    assert ps[..j][1..] == ps[1..][..j - 1];
    TailFirst(ps[..j]);
  }

  lemma Rests(id: i64, g: Ground, ps: seq<Packet>)
    requires ps == [] && g.At(id) == NOTHING
    ensures StaysAway(id, g, ps)
  {
  }

  lemma BegunIsHeld(src: Source, id: i64, a: Assembly)
    requires Sound(src) && Begun(src, id, a)
    ensures a != NOTHING
  {
  }

  lemma TailFirst(ps: seq<Packet>)
    requires ps != []
    ensures AllTails(ps) <==> Tail(ps[0]) && AllTails(ps[1..])
  {
    hide Tail;
    if Tail(ps[0]) && AllTails(ps[1..]) {
      forall k | 0 <= k < |ps| ensures Tail(ps[k]) { if k > 0 { assert Tail(ps[1..][k - 1]); } }
    }
    if AllTails(ps) {
      forall k | 0 <= k < |ps[1..]| ensures Tail(ps[1..][k]) { assert Tail(ps[k + 1]); }
    }
  }
}
