/**
 The sender's packet queue (sender/queue.rs): work items served from the front, a revision
 counter that moves with every change, and the per-file index the cleaner asks for.
 */
module Queue {
  import opened Wrappers
  import opened Bytes
  import opened Messages

  datatype WorkItem =
    | ManifestItem(fileId: i64, fileName: bytes)
    | DataItem(fileId: i64, range: RequestedRange)
    | RetransmitItem(fileId: i64, range: RequestedRange)
  {
    function PacketCount(): nat {
      if ManifestItem? then 1 else range.count
    }
  }

  /** Per-file portion of the sender's status. */
  datatype SnapshotEntry = SnapshotEntry(fileId: i64, ranges: seq<RequestedRange>, manifestPending: bool)

  function Depth(items: seq<WorkItem>): nat {
    if items == [] then 0 else items[0].PacketCount() + Depth(items[1..])
  }

  predicate ContainsChunk(items: seq<WorkItem>, f: i64, c: nat) {
    exists k :: 0 <= k < |items| && !items[k].ManifestItem? && items[k].fileId == f && items[k].range.Contains(c)
  }

  /** Adding one item to the index, which is ordered by file id as a `BTreeMap` is. */
  function Index(entries: seq<SnapshotEntry>, item: WorkItem): seq<SnapshotEntry> {
    var blank := SnapshotEntry(item.fileId, [], false);
    if entries == [] then [Noted(blank, item)]
    else if entries[0].fileId < item.fileId then [entries[0]] + Index(entries[1..], item)
    else if entries[0].fileId == item.fileId then [Noted(entries[0], item)] + entries[1..]
    else [Noted(blank, item)] + entries
  }

  function Noted(e: SnapshotEntry, item: WorkItem): SnapshotEntry {
    if item.ManifestItem? then e.(manifestPending := true) else e.(ranges := e.ranges + [item.range])
  }

  function Snapshot(items: seq<WorkItem>): seq<SnapshotEntry> {
    if items == [] then [] else Index(Snapshot(items[..|items| - 1]), items[|items| - 1])
  }

  /** `iter().find(|p| p.file_id == f)` */
  function Find(entries: seq<SnapshotEntry>, f: i64): Option<SnapshotEntry> {
    if entries == [] then None
    else if entries[0].fileId == f then Some(entries[0])
    else Find(entries[1..], f)
  }

  class PacketQueue {
    var items: seq<WorkItem>
    var revision: u64

    constructor ()
      ensures items == [] && revision == 0
    {
      items, revision := [], 0;
    }

    function State(): QueueState
      reads this
    {
      QueueState(items, revision)
    }

    method PushBack(item: WorkItem)
      modifies this
      ensures State() == Apply(old(State()), PushedBack(item))
    {
      items := items + [item];
      revision := (revision + 1) % U64;
    }

    method PushFront(item: WorkItem)
      modifies this
      ensures State() == Apply(old(State()), PushedFront(item))
    {
      items := [item] + items;
      revision := (revision + 1) % U64;
    }

    method PopFront() returns (v: Option<WorkItem>)
      modifies this
      ensures State() == Apply(old(State()), Popped)
      ensures v == if old(items) == [] then None else Some(old(items)[0])
    {
      if items == [] { return None; }
      v := Some(items[0]);
      items := items[1..];
      revision := (revision + 1) % U64;
    }

    method Clear()
      modifies this
      ensures State() == Apply(old(State()), Cleared)
    {
      if items != [] {
        items := [];
        revision := (revision + 1) % U64;
      }
    }

    method TakeSnapshot() returns (entries: seq<SnapshotEntry>)
      ensures entries == Snapshot(items)
    {
      entries := [];
      for k := 0 to |items|
        invariant entries == Snapshot(items[..k])
      {
        assert items[..k + 1][..k] == items[..k];
        entries := Index(entries, items[k]);
      }
      assert items[..|items|] == items;
    }
  }

  // ---- the revision counter ----

  datatype QueueState = QueueState(items: seq<WorkItem>, revision: u64)
  datatype Change = PushedBack(item: WorkItem) | PushedFront(item: WorkItem) | Popped | Cleared

  function Apply(q: QueueState, c: Change): QueueState {
    match c
    case PushedBack(item) => QueueState(q.items + [item], (q.revision + 1) % U64)
    case PushedFront(item) => QueueState([item] + q.items, (q.revision + 1) % U64)
    case Popped => if q.items == [] then q else QueueState(q.items[1..], (q.revision + 1) % U64)
    case Cleared => if q.items == [] then q else QueueState([], (q.revision + 1) % U64)
  }

  function ApplyAll(q: QueueState, cs: seq<Change>): QueueState
    decreases |cs|
  {
    if cs == [] then q else ApplyAll(Apply(q, cs[0]), cs[1..])
  }

  /** Popping or clearing an empty queue changes nothing; everything else does. */
  predicate Changes(q: QueueState, c: Change) {
    c.PushedBack? || c.PushedFront? || q.items != []
  }

  function Effective(q: QueueState, cs: seq<Change>): nat
    decreases |cs|
  {
    if cs == [] then 0 else (if Changes(q, cs[0]) then 1 else 0) + Effective(Apply(q, cs[0]), cs[1..])
  }

  /** The revision counts the effective changes, modulo 2^64. */
  lemma {:induction false} RevisionCounts(q: QueueState, cs: seq<Change>)
    ensures ApplyAll(q, cs).revision == (q.revision + Effective(q, cs)) % U64
    ensures Effective(q, cs) == 0 ==> ApplyAll(q, cs) == q
    decreases |cs|
  {
    if cs != [] {
      RevisionCounts(Apply(q, cs[0]), cs[1..]);
      OneMore(q.revision, Effective(Apply(q, cs[0]), cs[1..]));
    }
  }

  lemma OneMore(r: nat, n: nat)
    ensures ((r + 1) % U64 + n) % U64 == (r + (1 + n)) % U64
  {
  }

  lemma {:induction false} ApplySplit(q: QueueState, a: seq<Change>, b: seq<Change>)
    ensures ApplyAll(q, a + b) == ApplyAll(ApplyAll(q, a), b)
    decreases |a|
  {
    if a == [] { assert a + b == b; }
    else { assert (a + b)[1..] == a[1..] + b; ApplySplit(Apply(q, a[0]), a[1..], b); }
  }

  /**
   Two moments of one run have the same revision exactly when a multiple of 2^64 effective changes
   lies between them; so with fewer changes than that, equal revisions mean equal queues.
   */
  lemma SameRevisionSameQueue(q: QueueState, cs: seq<Change>, i: nat, j: nat)
    requires i <= j <= |cs|
    ensures var between := Effective(ApplyAll(q, cs[..i]), cs[i..j]);
      && (ApplyAll(q, cs[..i]).revision == ApplyAll(q, cs[..j]).revision <==> between % U64 == 0)
      && (ApplyAll(q, cs[..i]).revision == ApplyAll(q, cs[..j]).revision && between < U64
          ==> ApplyAll(q, cs[..i]).items == ApplyAll(q, cs[..j]).items)
  {
    assert cs[..j] == cs[..i] + cs[i..j];
    ApplySplit(q, cs[..i], cs[i..j]);
    RevisionCounts(ApplyAll(q, cs[..i]), cs[i..j]);
    Wraps(ApplyAll(q, cs[..i]).revision, Effective(ApplyAll(q, cs[..i]), cs[i..j]));
  }

  lemma Wraps(r: u64, n: nat)
    ensures (r + n) % U64 == r <==> n % U64 == 0
  {
    var k, m := n / U64, n % U64;
    assert n == k * U64 + m && (r + n) % U64 == (r + m) % U64;
  }

  // ---- the index agrees with the queue ----

  function RangesOf(items: seq<WorkItem>, f: i64): seq<RequestedRange> {
    if items == [] then []
    else
      var last := items[|items| - 1];
      RangesOf(items[..|items| - 1], f) + if !last.ManifestItem? && last.fileId == f then [last.range] else []
  }

  predicate HasManifest(items: seq<WorkItem>, f: i64) {
    exists k :: 0 <= k < |items| && items[k].ManifestItem? && items[k].fileId == f
  }

  predicate HasFile(items: seq<WorkItem>, f: i64) {
    exists k :: 0 <= k < |items| && items[k].fileId == f
  }

  ghost predicate Ascending(entries: seq<SnapshotEntry>) {
    forall k, l :: 0 <= k < l < |entries| ==> entries[k].fileId < entries[l].fileId
  }

  ghost predicate Above(entries: seq<SnapshotEntry>, f: int) {
    forall k :: 0 <= k < |entries| ==> f < entries[k].fileId
  }

  lemma {:induction false} IndexAscending(entries: seq<SnapshotEntry>, item: WorkItem, low: int)
    requires Ascending(entries) && Above(entries, low)
    ensures Ascending(Index(entries, item))
    ensures low < item.fileId ==> Above(Index(entries, item), low)
    decreases |entries|
  {
    if entries != [] && entries[0].fileId < item.fileId {
      IndexAscending(entries[1..], item, entries[0].fileId);
    }
  }

  lemma {:induction false} FindIndex(entries: seq<SnapshotEntry>, item: WorkItem, f: i64)
    requires Ascending(entries)
    ensures Find(Index(entries, item), f) ==
      if f != item.fileId then Find(entries, f)
      else Some(Noted(match Find(entries, f) case Some(e) => e case None => SnapshotEntry(f, [], false), item))
    decreases |entries|
  {
    if entries != [] {
      if entries[0].fileId < item.fileId {
        FindIndex(entries[1..], item, f);
        assert Index(entries, item)[1..] == Index(entries[1..], item);
      } else {
        if entries[0].fileId > item.fileId { NotFoundAbove(entries, item.fileId); }
        assert Index(entries, item)[1..] == if entries[0].fileId == item.fileId then entries[1..] else entries;
      }
    } else {
      assert Index(entries, item)[1..] == [];
    }
  }

  lemma {:induction false} NotFoundAbove(entries: seq<SnapshotEntry>, f: i64)
    requires forall k :: 0 <= k < |entries| ==> f < entries[k].fileId
    ensures Find(entries, f) == None
  {
    if entries != [] { NotFoundAbove(entries[1..], f); }
  }

  /** The status has one entry per queued file, in id order, listing that file's ranges. */
  lemma {:induction false} SnapshotAgrees(items: seq<WorkItem>, f: i64)
    ensures Ascending(Snapshot(items))
    ensures Find(Snapshot(items), f) ==
      if HasFile(items, f) then Some(SnapshotEntry(f, RangesOf(items, f), HasManifest(items, f))) else None
    decreases |items|
  {
    if items != [] {
      var front, last := items[..|items| - 1], items[|items| - 1];
      SnapshotAgrees(front, f);
      AllAbove(Snapshot(front));
      IndexAscending(Snapshot(front), last, -0x8000_0000_0000_0001);
      FindIndex(Snapshot(front), last, f);
      FilesSplit(items, f);
      if !HasFile(front, f) { NoRanges(front, f); }
      assert RangesOf(front, f) + [] == RangesOf(front, f) && [] + [last.fileId] == [last.fileId];
      if !last.ManifestItem? && last.fileId == f && !HasFile(front, f) {
        assert RangesOf(items, f) == [] + [last.range];
      }
    }
  }

  lemma AllAbove(entries: seq<SnapshotEntry>)
    ensures Above(entries, -0x8000_0000_0000_0001)
  {
  }

  lemma FilesSplit(items: seq<WorkItem>, f: i64)
    requires items != []
    ensures var front, last := items[..|items| - 1], items[|items| - 1];
      (HasFile(items, f) <==> HasFile(front, f) || last.fileId == f)
      && (HasManifest(items, f) <==> HasManifest(front, f) || (last.ManifestItem? && last.fileId == f))
  {
    var front := items[..|items| - 1];
    if HasFile(front, f) {
      var k :| 0 <= k < |front| && front[k].fileId == f;
      assert items[k].fileId == f;
    }
    if HasManifest(front, f) {
      var k :| 0 <= k < |front| && front[k].ManifestItem? && front[k].fileId == f;
      assert items[k].ManifestItem? && items[k].fileId == f;
    }
  }

  lemma {:induction false} NoRanges(items: seq<WorkItem>, f: i64)
    requires !HasFile(items, f)
    ensures RangesOf(items, f) == [] && !HasManifest(items, f)
  {
    if items != [] {
      FilesSplit(items, f);
      NoRanges(items[..|items| - 1], f);
    }
  }

  ghost predicate AnyContains(ranges: seq<RequestedRange>, c: nat) {
    exists k :: 0 <= k < |ranges| && ranges[k].Contains(c)
  }

  lemma {:induction false} RangesContain(items: seq<WorkItem>, f: i64, c: nat)
    ensures AnyContains(RangesOf(items, f), c) <==> ContainsChunk(items, f, c)
    decreases |items|
  {
    if items != [] {
      var front, last := items[..|items| - 1], items[|items| - 1];
      RangesContain(front, f, c);
      var a, b := RangesOf(front, f), RangesOf(items, f);
      assert forall k :: 0 <= k < |a| ==> b[k] == a[k];
      if AnyContains(a, c) {
        var k :| 0 <= k < |a| && a[k].Contains(c);
        assert b[k].Contains(c);
      }
      if ContainsChunk(front, f, c) {
        var k :| 0 <= k < |front| && !front[k].ManifestItem? && front[k].fileId == f && front[k].range.Contains(c);
        assert items[k] == front[k];
      }
      if !last.ManifestItem? && last.fileId == f && last.range.Contains(c) {
        assert b[|b| - 1].Contains(c);
        assert items[|items| - 1].range.Contains(c);
      }
    }
  }

  /** A chunk is queued exactly when the file's entry lists a range containing it. */
  lemma ContainsChunkAgrees(items: seq<WorkItem>, f: i64, c: nat)
    ensures ContainsChunk(items, f, c)
      <==> Find(Snapshot(items), f).Some? && AnyContains(Find(Snapshot(items), f).value.ranges, c)
  {
    SnapshotAgrees(items, f);
    RangesContain(items, f, c);
    if !HasFile(items, f) { NoRanges(items, f); }
  }

  // ---- intersection of ranges ----

  predicate RangeIntersectsAny(target: RequestedRange, existing: seq<RequestedRange>) {
    exists k :: 0 <= k < |existing| && target.start < existing[k].End() && existing[k].start < target.End()
  }

  /** For nonempty ranges the test means that some chunk is shared. */
  lemma IntersectsIffShared(target: RequestedRange, existing: seq<RequestedRange>)
    requires target.count > 0 && forall k :: 0 <= k < |existing| ==> existing[k].count > 0
    ensures RangeIntersectsAny(target, existing) <==> exists c: nat :: target.Contains(c) && AnyContains(existing, c)
  {
    if RangeIntersectsAny(target, existing) {
      var k :| 0 <= k < |existing| && target.start < existing[k].End() && existing[k].start < target.End();
      var c := if target.start < existing[k].start then existing[k].start else target.start;
      assert target.Contains(c) && existing[k].Contains(c);
    }
    if c: nat :| target.Contains(c) && AnyContains(existing, c) {
      var k :| 0 <= k < |existing| && existing[k].Contains(c);
      assert target.start < existing[k].End() && existing[k].start < target.End();
    }
  }
}
