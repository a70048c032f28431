/**
 A file that vanishes on the payload, from the sender to the ground: the sender meets it while it
 serves a chunk and flags its row, the flag travels in the ledger snapshot, and the reconciler,
 which can see that a resend is impossible, does not ask for the file.
 */
module Vanished {
  import opened Wrappers
  import opened Bytes
  import opened Packets
  import opened Chunker
  import opened Queue
  import opened Ledger
  import opened Sender
  import opened Snapshot
  import RateLimiter
  import Reconcile

  /** Only a chunk of a known file that is not on disk is answered like this. */
  lemma GoneMeans(item: WorkItem, rows: Rows, chunkSize: nat, w: World)
    requires Addressed(item) && Serve(item, rows, chunkSize, w).Gone?
    ensures !item.ManifestItem? && item.fileId in rows
    ensures Serve(item, rows, chunkSize, w).name == rows[item.fileId].fileName
    ensures rows[item.fileId].fileName !in w.files
  {
    hide Encode, ChunksForSize, ChunkBytes, RateLimiter.FitsBucket;
  }

  /** The ledger now, and at any time after: the row is there and its file is flagged as gone. */
  ghost predicate FlaggedIn(rows: Rows, id: i64) {
    id in rows && rows[id].fileId == id && !rows[id].stillExists
  }

  /** What serving a vanished chunk leaves of the ledger, whatever is done to the ledger later. */
  lemma VanishedIsFlagged(item: WorkItem, rows: Rows, chunkSize: nat, w: World, later: Rows, lastId: int)
    requires Addressed(item) && Serve(item, rows, chunkSize, w).Gone?
    requires Preserves(MarkedGone(rows, Serve(item, rows, chunkSize, w).name), later) && Keyed(later, lastId)
    ensures FlaggedIn(later, item.fileId)
  {
    hide Serve;
    GoneMeans(item, rows, chunkSize, w);
  }

  /** The snapshot of such a ledger, dumped and read again, has the file's one row with the flag down. */
  lemma FlagTravels(later: Rows, rs: seq<FileRecord>, id: i64)
    requires FlaggedIn(later, id) && Listing(later, rs) && HashesPlain(rs) && NamesOneLine(rs)
    ensures Parse(Dump(rs)).Success?
    ensures exists k :: 0 <= k < |Parse(Dump(rs)).value| && Parse(Dump(rs)).value[k].fileId == id
    ensures forall k :: 0 <= k < |Parse(Dump(rs)).value| && Parse(Dump(rs)).value[k].fileId == id
              ==> !Parse(Dump(rs)).value[k].stillExists
  {
    hide Parse, Dump, HashesPlain, NamesOneLine;
    DumpRoundTrip(rs);
    assert later[id] in rs;
    var k :| 0 <= k < |rs| && rs[k] == later[id];
    assert RowsOf(rs)[k].fileId == id;
    forall j | 0 <= j < |rs| && RowsOf(rs)[j].fileId == id ensures !RowsOf(rs)[j].stillExists {
      assert rs[j] in rs;
    }
  }

  /**
   Once the sender has met a vanished chunk, no reconcile pass over a snapshot of its ledger taken
   then or later asks for the file, in any run of passes.
   */
  lemma VanishedNeverAsked(item: WorkItem, rows: Rows, chunkSize: nat, w: World, later: Rows, lastId: int,
      rs: seq<FileRecord>, m: Reconcile.Memory, scenes: seq<Reconcile.Scene>, c: Reconcile.Settings, j: nat, b: nat)
    requires Addressed(item) && Serve(item, rows, chunkSize, w).Gone?
    requires Preserves(MarkedGone(rows, Serve(item, rows, chunkSize, w).name), later) && Keyed(later, lastId)
    requires Listing(later, rs) && HashesPlain(rs) && NamesOneLine(rs)
    requires j < |scenes| && scenes[j].snapshot == Some(Dump(rs)) && b < |Reconcile.CallsIn(m, scenes, c, j)|
    ensures Reconcile.CallsIn(m, scenes, c, j)[b].row.fileId != item.fileId
  {
    hide Serve, MarkedGone, Preserves, Listing, Parse, Dump, HashesPlain, NamesOneLine, Reconcile.CallsIn;
    VanishedIsFlagged(item, rows, chunkSize, w, later, lastId);
    FlagTravels(later, rs, item.fileId);
    Reconcile.AskedWasLost(m, scenes, c, j, b);
  }
}
