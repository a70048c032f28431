/**
 The sender's runtime (sender/state.rs): control messages put work on the queue, and
 `SendNext` serves it one packet at a time. Each method is one entry in the sender's books,
 so what `SenderBook` proves about every run of entries holds of this class.
 */
module Sender {
  import opened Wrappers
  import opened Bytes
  import opened Errors
  import opened Messages
  import opened Packets
  import opened Chunker
  import opened Queue
  import opened Ledger
  import SenderBook
  import RateLimiter
  import Delivery

  datatype SenderState = Auto | Manual | Paused | Debug

  /** What the sender finds outside itself while serving one packet, and the rate of the link in use. */
  datatype World = World(files: map<bytes, bytes>, readable: bool, linkUp: bool, kbps: u64)

  /** What is found at a submitted path. */
  datatype Stat = Missing | Unreadable | NotAFile | RegularFile(size: u64, created: int)

  type i32 = x: int | -0x8000_0000 <= x < 0x8000_0000

  /** Beyond this size the chunk count at the smallest datagram no longer fits `u32`. */
  const MAX_FILE_SIZE: nat := 0x1F_FFFF_FFE0

  // ---- what a request asks for ----

  function Total(size: nat, chunkSize: nat): u32
    requires chunkSize > HEADER_LEN
  {
    ChunksForSize(size, chunkSize - HEADER_LEN)
  }

  /** A manual request: the whole file when `start` is negative, else a clamped range. */
  function Asked(rows: Rows, chunkSize: nat, id: i64, start: i32, count: u32): Result<seq<WorkItem>, Error>
    requires chunkSize > HEADER_LEN
  {
    if id !in rows then Failure(BadConfig)
    else
      var total := Total(rows[id].fileSize, chunkSize);
      if start < 0 then Success(SenderBook.FullFile(rows[id].fileId, rows[id].fileName, total))
      else if start >= total then Failure(OutOfRange(start, total))
      else
        var wanted := if count == 0 then 1 else count;
        Success([RetransmitItem(rows[id].fileId, RequestedRange(start, Min(wanted, total - start)))])
  }

  /** Ranges are `u32` throughout: even one past the last chunk fits. */
  predicate Addressed(item: WorkItem) {
    item.ManifestItem? || (item.range.count > 0 && item.range.End() < U32)
  }

  ghost predicate AllAddressed(items: seq<WorkItem>) {
    forall k :: 0 <= k < |items| ==> Addressed(items[k])
  }

  // ---- what serving an item comes to ----

  /** `Blocked`: the rate limiter never lets the packet through. */
  datatype Outcome = Out(p: Packet) | Gone(name: bytes) | Broke(error: Error) | Blocked(p: Packet)

  function Open(w: World, name: bytes, id: i64, chunkSize: nat): Result<Cut, Error> {
    if MIN_CHUNK_SIZE <= chunkSize <= MAX_CHUNK_SIZE && name in w.files && !w.readable then Failure(Io)
    else OpenCut(if name in w.files then Some(w.files[name]) else None, id, chunkSize)
  }

  function Transmit(w: World, r: Result<Packet, Error>): Outcome {
    match r
    case Failure(e) => Broke(e)
    case Success(p) =>
      if !RateLimiter.FitsBucket(|Encode(p)|, w.kbps) then Blocked(p)
      else if w.linkUp then Out(p) else Broke(Io)
  }

  function Serve(item: WorkItem, rows: Rows, chunkSize: nat, w: World): Outcome
    requires Addressed(item)
  {
    match item
    case ManifestItem(id, name) =>
      (match Open(w, name, id, chunkSize)
       case Failure(e) => Broke(e)
       case Success(cut) => Transmit(w, Success(cut.ManifestPacket(name))))
    case DataItem(id, range) => ServeChunk(item, id, range, rows, chunkSize, w)
    case RetransmitItem(id, range) => ServeChunk(item, id, range, rows, chunkSize, w)
  }

  /** A vanished file is told apart from other failures of opening it. */
  function ServeChunk(item: WorkItem, id: i64, range: RequestedRange, rows: Rows, chunkSize: nat, w: World): Outcome
    requires range.start < U32
  {
    if id !in rows then Broke(BadConfig)
    else
      match Open(w, rows[id].fileName, id, chunkSize)
      case Failure(e) => if e == NotFound then Gone(rows[id].fileName) else Broke(e)
      case Success(cut) =>
        Transmit(w, if item.DataItem? then cut.DataPacket(range.start) else cut.RetransmitPacket(range.start))
  }

  // ---- shape of the queue ----

  /** Every queued range lies inside its file's chunk count, and every queued name is its file's. */
  ghost predicate Within(items: seq<WorkItem>, rows: Rows, chunkSize: nat)
    requires chunkSize > HEADER_LEN
  {
    forall k :: 0 <= k < |items| ==> ItemWithin(items[k], rows, chunkSize)
  }

  ghost predicate ItemWithin(item: WorkItem, rows: Rows, chunkSize: nat)
    requires chunkSize > HEADER_LEN
  {
    item.fileId in rows
    && if item.ManifestItem? then item.fileName == rows[item.fileId].fileName
       else item.range.count > 0 && item.range.End() <= Total(rows[item.fileId].fileSize, chunkSize)
  }

  ghost predicate SizesFit(rows: Rows) {
    forall id :: id in rows ==> rows[id].fileSize <= MAX_FILE_SIZE
  }

  /** The packet that went out for a unit of the books. */
  ghost predicate Carries(u: SenderBook.Unit, p: Packet) {
    p.fileId == u.fileId
    && match u
       case NameUnit(_, _) => p.ptype == Manifest
       case ChunkUnit(_, _, resend, chunk) => p.ptype == (if resend then Retransmit else Data) && p.chunkId == chunk
  }

  ghost predicate AllCarried(us: seq<SenderBook.Unit>, ps: seq<Packet>) {
    |us| == |ps| && forall k :: 0 <= k < |us| ==> Carries(us[k], ps[k])
  }

  class SenderRuntime {
    const ledger: Ledger
    const queue: PacketQueue
    const limiter: RateLimiter.RateLimiter
    var state: SenderState
    var chunkSize: nat
    var wire: seq<Packet>        // what went out on the link
    ghost var book: SenderBook.Book

    ghost predicate Valid()
      reads this, ledger, queue, limiter
    {
      && ledger.Valid() && SizesFit(ledger.rows) && limiter.Valid()
      && MIN_CHUNK_SIZE <= chunkSize <= MAX_CHUNK_SIZE
      && queue.items == SenderBook.Items(book.jobs) && AllAddressed(queue.items)
      && SenderBook.InBalance(book)
      && AllCarried(book.sent, wire)
    }

    /** Holds for as long as the chunk size and the file sizes stay as they are. */
    ghost predicate InFiles()
      reads this, ledger, queue, limiter
    {
      chunkSize > HEADER_LEN && Within(queue.items, ledger.rows, chunkSize)
    }

    constructor (ledger: Ledger, state: SenderState, chunkSize: nat, kbps: u64, now: real)
      requires ledger.Valid() && SizesFit(ledger.rows)
      requires MIN_CHUNK_SIZE <= chunkSize <= MAX_CHUNK_SIZE
      ensures Valid() && InFiles() && fresh(queue) && fresh(limiter)
      ensures this.ledger == ledger && this.state == state && this.chunkSize == chunkSize
      ensures book == SenderBook.BLANK_BOOK && wire == []
    {
      this.ledger, this.state, this.chunkSize, wire := ledger, state, chunkSize, [];
      queue := new PacketQueue();
      limiter := new RateLimiter.RateLimiter(kbps, now);
      book := SenderBook.BLANK_BOOK;
    }

    method PushFullFile(id: i64, name: bytes, total: u32, interrupt: bool, now: int)
      requires Valid() && total > 0 && total < U32
      modifies this`book, queue, ledger
      ensures Valid() && ledger.rows == MarkedQueued(old(ledger.rows), id, now)
      ensures Preserves(old(ledger.rows), ledger.rows)
      ensures old(InFiles()) && ItemWithin(ManifestItem(id, name), ledger.rows, chunkSize)
        && ItemWithin(DataItem(id, RequestedRange(0, total)), ledger.rows, chunkSize)
        ==> InFiles()
      ensures book == SenderBook.Record(old(book), SenderBook.Push(SenderBook.FullFile(id, name, total), interrupt))
      ensures queue.items == if interrupt then SenderBook.FullFile(id, name, total) + old(queue.items)
                             else old(queue.items) + SenderBook.FullFile(id, name, total)
    {
      hide SenderBook.Record, SenderBook.InBalance, SenderBook.Items, AllCarried, Keyed, Preserves;
      hide MarkedQueued, Within;
      ledger.MarkQueued(id, now);
      SenderBook.PushedItems(book, SenderBook.FullFile(id, name, total), interrupt);
      QueuedSizes(old(ledger.rows), id, now);
      WithinJoins(queue.items, SenderBook.FullFile(id, name, total), old(ledger.rows), ledger.rows, chunkSize);
      var data := DataItem(id, RequestedRange(0, total));
      var manifest := ManifestItem(id, name);
      if interrupt {
        queue.PushFront(data);
        queue.PushFront(manifest);
      } else {
        queue.PushBack(manifest);
        queue.PushBack(data);
      }
      Enter(SenderBook.Push(SenderBook.FullFile(id, name, total), interrupt));
    }

    /** Writes one entry into the books; the queue has already been changed to match. */
    ghost method Enter(e: SenderBook.Entry)
      requires SenderBook.InBalance(book) && SenderBook.ProperEntry(e)
      modifies this`book
      ensures book == SenderBook.Record(old(book), e) && SenderBook.InBalance(book)
    {
      SenderBook.RecordInBalance(book, e);
      book := SenderBook.Record(book, e);
    }

    method PushRange(id: i64, range: RequestedRange, interrupt: bool)
      requires Valid() && Addressed(RetransmitItem(id, range))
      modifies this`book, queue
      ensures Valid()
      ensures book == SenderBook.Record(old(book), SenderBook.Push([RetransmitItem(id, range)], interrupt))
      ensures queue.items == if interrupt then [RetransmitItem(id, range)] + old(queue.items)
                             else old(queue.items) + [RetransmitItem(id, range)]
      ensures old(InFiles()) && ItemWithin(RetransmitItem(id, range), ledger.rows, chunkSize) ==> InFiles()
    {
      hide SenderBook.Record, SenderBook.InBalance, SenderBook.Items, AllCarried, Keyed, Preserves;
      hide MarkedQueued, Within;
      var item := RetransmitItem(id, range);
      WithinJoins(queue.items, [item], ledger.rows, ledger.rows, chunkSize);
      if interrupt { queue.PushFront(item); } else { queue.PushBack(item); }
      SenderBook.PushedItems(book, [item], interrupt);
      Enter(SenderBook.Push([item], interrupt));
    }

    /** A request for a range, or for the whole file when `start` is negative. */
    method Enqueue(id: i64, start: i32, count: u32, interrupt: bool, now: int) returns (r: Result<(), Error>)
      requires Valid()
      modifies this`book, queue, ledger
      ensures Valid()
      ensures var asked := Asked(old(ledger.rows), chunkSize, id, start, count);
        && (asked.Failure? ==> r == Failure(asked.error) && book == old(book) && queue.State() == old(queue.State()))
        && (asked.Success? ==>
            && r == Success(()) && book == SenderBook.Record(old(book), SenderBook.Push(asked.value, interrupt))
            && queue.items == if interrupt then asked.value + old(queue.items) else old(queue.items) + asked.value)
      ensures id !in old(ledger.rows) ==> r == Failure(BadConfig)
      ensures id in old(ledger.rows) && start >= Total(old(ledger.rows)[id].fileSize, chunkSize) ==>
        r == Failure(OutOfRange(start, Total(old(ledger.rows)[id].fileSize, chunkSize)))
      ensures ledger.rows ==
        if r.Success? && start < 0 then MarkedQueued(old(ledger.rows), id, now) else old(ledger.rows)
      ensures old(InFiles()) ==> InFiles()
    {
      hide SenderBook.Record, SenderBook.InBalance, SenderBook.Items, AllCarried, Preserves, MarkedQueued;
      hide Within, Total, Count;
      var rec := ledger.Get(id);
      if rec.None? { return Failure(BadConfig); }
      var total := Total(rec.value.fileSize, chunkSize);
      TotalFits(rec.value.fileSize, chunkSize);
      if start < 0 {
        Requeued(ledger.rows, id, now);
        PushFullFile(rec.value.fileId, rec.value.fileName, total, interrupt, now);
      } else {
        if start >= total { return Failure(OutOfRange(start, total)); }
        var n := Min(if count < 1 then 1 else count, total - start);
        PushRange(rec.value.fileId, RequestedRange(start, n), interrupt);
      }
      r := Success(());
    }

    /** Registers a file by path and queues all of it. */
    method Submit(path: bytes, stat: Stat, dark: u32, flat: u32, bias: u32, interrupt: bool, now: int)
      returns (r: Result<i64, Error>)
      requires Valid()
      requires stat.RegularFile? ==> stat.size <= MAX_FILE_SIZE
      modifies this`book, queue, ledger
      ensures Valid() && Preserves(old(ledger.rows), ledger.rows)
      ensures r.Failure? ==> book == old(book) && queue.State() == old(queue.State()) && ledger.rows == old(ledger.rows)
      ensures stat.Missing? ==> r == Failure(NotFound)
      ensures stat.Unreadable? ==> r == Failure(Io)
      ensures stat.NotAFile? ==> r == Failure(BadConfig)
      ensures r.Success? ==>
        && stat.RegularFile? && r.value in ledger.rows && ledger.rows[r.value].fileName == path
        && ledger.rows[r.value].queuedAt == Some(now)
        && var items := SenderBook.FullFile(r.value, path, Total(stat.size, chunkSize));
           book == SenderBook.Record(old(book), SenderBook.Push(items, interrupt))
           && queue.items == if interrupt then items + old(queue.items) else old(queue.items) + items
      ensures stat.RegularFile? && r.Failure? ==> r.error == Io && old(ledger.lastId) == MAX_ID
      ensures old(InFiles()) && (r.Success? ==> ledger.rows[r.value].fileSize == stat.size) ==> InFiles()
    {
      hide SenderBook.Record, SenderBook.InBalance, SenderBook.Items, AllCarried, Keyed, Preserves;
      hide MarkedQueued, Within, Total, Count;
      WithinJoins([], [], ledger.rows, ledger.rows, chunkSize);
      match stat {
        case Missing => return Failure(NotFound);
        case Unreadable => return Failure(Io);
        case NotAFile => return Failure(BadConfig);
        case RegularFile(size, created) =>
          var up := ledger.Upsert(path, size, created, dark, flat, bias, chunkSize);
          if up.Failure? { return Failure(up.error); }
          WithinJoins(queue.items, [], old(ledger.rows), ledger.rows, chunkSize);
          assert queue.items + [] == queue.items;
          var total := Total(size, chunkSize);
          TotalFits(size, chunkSize);
          Requeued(ledger.rows, up.value, now);
          PreservesChain(old(ledger.rows), ledger.rows, MarkedQueued(ledger.rows, up.value, now));
          PushFullFile(up.value, path, total, interrupt, now);
          r := Success(up.value);
      }
    }

    /** The name packet of a known file cuts in. */
    method ResendName(id: i64) returns (r: Result<(), Error>)
      requires Valid()
      modifies this`book, queue
      ensures Valid() && (old(InFiles()) ==> InFiles())
      ensures id !in ledger.rows ==> r == Failure(BadConfig) && book == old(book) && queue.State() == old(queue.State())
      ensures id in ledger.rows ==>
        var item := ManifestItem(id, ledger.rows[id].fileName);
        r == Success(()) && book == SenderBook.Record(old(book), SenderBook.Push([item], true))
        && queue.items == [item] + old(queue.items)
    {
      var rec := ledger.Get(id);
      if rec.None? { return Failure(BadConfig); }
      var item := ManifestItem(rec.value.fileId, rec.value.fileName);
      SenderBook.PushedItems(book, [item], true);
      queue.PushFront(item);
      Enter(SenderBook.Push([item], true));
      r := Success(());
    }

    method FlushQueue()
      requires Valid()
      modifies this`book, queue
      ensures Valid() && InFiles() && queue.items == []
      ensures book == SenderBook.Record(old(book), SenderBook.Flush)
    {
      queue.Clear();
      Enter(SenderBook.Flush);
    }

    /** Every state but `Auto` starts from an empty queue. */
    method SetState(to: SenderState)
      requires Valid()
      modifies this`book, this`state, queue
      ensures Valid() && state == to && (old(InFiles()) ==> InFiles())
      ensures book == if to == Auto then old(book) else SenderBook.Record(old(book), SenderBook.Flush)
      ensures queue.items == if to == Auto then old(queue.items) else []
    {
      if to == Manual || to == Paused || to == Debug { FlushQueue(); }
      state := to;
    }

    /** The chunk-size override; what is queued keeps the chunk numbers it was queued with. */
    method OverrideChunkSize(size: nat) returns (r: Result<(), Error>)
      requires Valid()
      modifies this`chunkSize
      ensures Valid() && r.Success? == (64 <= size <= 65000)
      ensures r.Success? ==> chunkSize == size
      ensures r.Failure? ==> r.error == BadChunkSize && chunkSize == old(chunkSize)
    {
      if !(MIN_CHUNK_SIZE <= size <= MAX_CHUNK_SIZE) { return Failure(BadChunkSize); }
      chunkSize := size;
      r := Success(());
    }

    /**
     Serves one packet of the head item; on any failure the whole item is gone. The call returns
     unless a cut packet does not fit the bucket of the link: then it waits for ever, holding the
     runtime, and what it popped counts as dropped.
     */
    method SendNext(w: World, gap: RateLimiter.Delay, late: nat -> RateLimiter.Delay)
      returns (returned: bool, r: Result<bool, Error>)
      requires Valid()
      modifies this`book, this`wire, queue, ledger, limiter
      ensures Valid() && (old(InFiles()) ==> InFiles())
      ensures state == Paused || old(queue.items) == [] ==>
        && returned && r == Success(false) && book == old(book) && wire == old(wire)
        && queue.State() == old(queue.State()) && ledger.rows == old(ledger.rows)
      ensures state != Paused && old(queue.items) != [] ==>
        var item := old(queue.items)[0];
        var o := Serve(item, old(ledger.rows), chunkSize, w);
        && (returned <==> !o.Blocked?) && (returned ==> r == Answer(o))
        && wire == (if o.Out? then old(wire) + [o.p] else old(wire))
        && book == SenderBook.Record(old(book), SenderBook.Serve(o.Out?))
        && queue.items == (if o.Out? then SenderBook.Residue(item) else []) + old(queue.items)[1..]
        && ledger.rows == if o.Gone? then MarkedGone(old(ledger.rows), o.name) else old(ledger.rows)
    {
      hide SenderBook.Record, SenderBook.InBalance, SenderBook.Items, AllCarried;
      hide Preserves, MarkedGone, Within, Total, Count, RateLimiter.FitsBucket, Serve;
      if state == Paused { return true, Success(false); }
      var popped := queue.PopFront();
      if popped.None? { return true, Success(false); }
      var item := popped.value;
      limiter.SetKbps(w.kbps);
      var o := ServeItem(item, w, gap, late);
      if o.Out? {
        wire := wire + [o.p];
        if !item.ManifestItem? && item.range.count > 1 {
          var rest := RequestedRange(item.range.start + 1, item.range.count - 1);
          queue.PushFront(if item.DataItem? then DataItem(item.fileId, rest) else RetransmitItem(item.fileId, rest));
        }
      }
      SenderBook.ServedItems(book, o.Out?);
      SentCarries(book, old(wire), old(ledger.rows), chunkSize, w, o);
      WithinServed(old(queue.items), old(ledger.rows), ledger.rows, chunkSize, o.Out?);
      Enter(SenderBook.Serve(o.Out?));
      assert AllAddressed(queue.items) by { ServedAddressed(old(queue.items), o.Out?); }
      if o.Blocked? { return false, Failure(Io); }
      returned, r := true, Answer(o);
    }

    /** Opens the item's file, cuts the packet, waits for the limiter, and hands it to the link. */
    method ServeItem(item: WorkItem, w: World, gap: RateLimiter.Delay,
        late: nat -> RateLimiter.Delay) returns (o: Outcome)
      requires ledger.Valid() && limiter.Valid() && limiter.SetAt(w.kbps) && Addressed(item)
      modifies ledger, limiter
      ensures ledger.Valid() && limiter.Valid() && Preserves(old(ledger.rows), ledger.rows)
      ensures SizesFit(old(ledger.rows)) ==> SizesFit(ledger.rows)
      ensures o == Serve(item, old(ledger.rows), chunkSize, w)
      ensures ledger.rows == if o.Gone? then MarkedGone(old(ledger.rows), o.name) else old(ledger.rows)
    {
      hide RateLimiter.FitsBucket, Encode;
      var p;
      if item.ManifestItem? {
        var chunker := Open(w, item.fileName, item.fileId, chunkSize);
        if chunker.Failure? { return Broke(chunker.error); }
        p := Success(chunker.value.ManifestPacket(item.fileName));
      } else {
        var rec := ledger.Get(item.fileId);
        if rec.None? { return Broke(BadConfig); }
        var chunker := Open(w, rec.value.fileName, item.fileId, chunkSize);
        if chunker.Failure? {
          if chunker.error == NotFound {
            ledger.MarkGone(rec.value.fileName);
            return Gone(rec.value.fileName);
          }
          return Broke(chunker.error);
        }
        var first := item.range.start;
        p := if item.DataItem? then chunker.value.DataPacket(first) else chunker.value.RetransmitPacket(first);
        if p.Failure? { return Broke(p.error); }
      }
      var granted := limiter.AcquireReturning(|Encode(p.value)|, w.kbps, gap, late);
      if !granted { return Blocked(p.value); }
      if !w.linkUp { return Broke(Io); }
      o := Out(p.value);
    }
  }

  function Answer(o: Outcome): Result<bool, Error>
    requires !o.Blocked?
  {
    match o
    case Out(_) => Success(true)
    case Gone(_) => Success(false)
    case Broke(e) => Failure(e)
  }

  /** The packet that goes out is the one the books count as sent. */
  lemma SentCarries(b: SenderBook.Book, wire: seq<Packet>, rows: Rows, chunkSize: nat, w: World, o: Outcome)
    requires b.jobs != [] && AllCarried(b.sent, wire) && Addressed(b.jobs[0].item)
    requires o == Serve(b.jobs[0].item, rows, chunkSize, w)
    ensures AllCarried(SenderBook.Record(b, SenderBook.Serve(o.Out?)).sent, if o.Out? then wire + [o.p] else wire)
  {
    hide SenderBook.Flatten, SenderBook.Residue, Count, ChunksForSize, Encode, RateLimiter.FitsBucket;
    if o.Out? {
      var us := SenderBook.Units(b.jobs[0]);
      assert us[..1] == [us[0]];
      assert Carries(us[0], o.p);
    }
  }

  lemma ServedAddressed(items: seq<WorkItem>, out: bool)
    requires items != [] && AllAddressed(items)
    ensures AllAddressed((if out then SenderBook.Residue(items[0]) else []) + items[1..])
  {
    assert Addressed(items[0]);
  }

  lemma WithinServed(items: seq<WorkItem>, rows: Rows, after: Rows, chunkSize: nat, out: bool)
    requires chunkSize > HEADER_LEN && items != [] && Preserves(rows, after)
    ensures Within(items, rows, chunkSize)
      ==> Within((if out then SenderBook.Residue(items[0]) else []) + items[1..], after, chunkSize)
  {
    hide Total;
    if Within(items, rows, chunkSize) {
      assert forall k :: 0 <= k < |items| ==> ItemWithin(items[k], rows, chunkSize);
    }
  }

  lemma WithinJoins(held: seq<WorkItem>, more: seq<WorkItem>, rows: Rows, after: Rows, chunkSize: nat)
    requires chunkSize > HEADER_LEN
    ensures Preserves(rows, rows)
    ensures (Preserves(rows, after) && Within(held, rows, chunkSize)
          && forall k :: 0 <= k < |more| ==> ItemWithin(more[k], after, chunkSize))
      ==> Within(held + more, after, chunkSize) && Within(more + held, after, chunkSize)
  {
    hide Total;
    if Preserves(rows, after) && Within(held, rows, chunkSize) {
      forall k | 0 <= k < |held| ensures ItemWithin(held[k], after, chunkSize) {
        assert ItemWithin(held[k], rows, chunkSize);
      }
    }
  }

  lemma Requeued(rows: Rows, id: i64, when: int)
    requires id in rows
    ensures id in MarkedQueued(rows, id, when)
    ensures var r := MarkedQueued(rows, id, when)[id];
      r.queuedAt == Some(when) && r.fileName == rows[id].fileName && r.fileSize == rows[id].fileSize
    ensures Preserves(rows, MarkedQueued(rows, id, when))
  {
  }

  lemma PreservesChain(a: Rows, b: Rows, c: Rows)
    requires Preserves(a, b) && Preserves(b, c)
    ensures Preserves(a, c)
  {
  }

  lemma QueuedSizes(rows: Rows, id: i64, when: int)
    requires SizesFit(rows)
    ensures SizesFit(MarkedQueued(rows, id, when)) && Preserves(rows, MarkedQueued(rows, id, when))
  {
  }

  lemma MulLe(a: nat, x: nat, y: nat)
    requires x <= y
    ensures a * x <= a * y
  {
    assert a * y == a * x + a * (y - x);
  }

  /** No legal datagram size makes the chunk count wrap. */
  lemma TotalFits(size: nat, chunkSize: nat)
    requires size <= MAX_FILE_SIZE && chunkSize >= MIN_CHUNK_SIZE
    ensures 0 < Total(size, chunkSize) == Count(size, chunkSize - HEADER_LEN)
  {
    var p := chunkSize - HEADER_LEN;
    var n := Count(size, p);
    CountBounds(size, p);
    hide Count;
    if size > 0 {
      assert ChunkStart(p, n - 1) == (n - 1) * p;
      MulLe(n - 1, 32, p);
    }
    assert n < U32;
  }

  // ---- what goes out is cut from the file ----

  function NameOf(item: WorkItem, rows: Rows): bytes
    requires item.ManifestItem? || item.fileId in rows
  {
    if item.ManifestItem? then item.fileName else rows[item.fileId].fileName
  }

  /** The file of the item is there, as long as the ledger says, and nothing is broken. */
  ghost predicate Steady(item: WorkItem, rows: Rows, w: World)
    requires item.ManifestItem? || item.fileId in rows
  {
    w.readable && w.linkUp && NameOf(item, rows) in w.files
    && (item.ManifestItem? || |w.files[NameOf(item, rows)]| == rows[item.fileId].fileSize)
  }

  /** Whatever goes out is a packet the chunker cuts from the file as it is on disk. */
  lemma OutIsCut(item: WorkItem, rows: Rows, chunkSize: nat, w: World, sizes: set<nat>)
    requires Addressed(item) && Serve(item, rows, chunkSize, w).Out?
    ensures item.ManifestItem? || item.fileId in rows
    ensures var name := NameOf(item, rows);
      chunkSize >= MIN_CHUNK_SIZE && name in w.files
      && Delivery.CutAt(Delivery.Source(name, w.files[name], sizes), chunkSize - HEADER_LEN, Serve(item, rows,
           chunkSize, w).p)
  {
    hide ChunksForSize, ChunkBytes, Encode, RateLimiter.FitsBucket;
  }

  /** The catalogue lists the sender's files as they are on disk, with the datagram size now in use. */
  ghost predicate Lists(cat: Delivery.Catalog, rows: Rows, w: World, chunkSize: nat)
    requires chunkSize >= MIN_CHUNK_SIZE
  {
    forall id :: id in rows ==>
      && id in cat && cat[id].name == rows[id].fileName && chunkSize - HEADER_LEN in cat[id].sizes
      && (rows[id].fileName in w.files ==> w.files[rows[id].fileName] == cat[id].content)
  }

  /** So whatever the sender serves is something the ground's safety claim covers. */
  lemma OutIsSent(cat: Delivery.Catalog, item: WorkItem, rows: Rows, chunkSize: nat, w: World)
    requires Addressed(item) && chunkSize >= MIN_CHUNK_SIZE && ItemWithin(item, rows, chunkSize)
    requires Serve(item, rows, chunkSize, w).Out? && Lists(cat, rows, w, chunkSize) && Delivery.SoundCatalog(cat)
    ensures Delivery.Sent(cat, Serve(item, rows, chunkSize, w).p)
  {
    var src := cat[item.fileId];
    OutIsCut(item, rows, chunkSize, w, src.sizes);
    ServedId(item, rows, chunkSize, w);
    hide Serve, Delivery.CutAt, Delivery.Sound, Total;
    assert Delivery.CutAt(src, chunkSize - HEADER_LEN, Serve(item, rows, chunkSize, w).p);
  }

  lemma ServedId(item: WorkItem, rows: Rows, chunkSize: nat, w: World)
    requires Addressed(item) && Serve(item, rows, chunkSize, w).Out?
    ensures Serve(item, rows, chunkSize, w).p.fileId == item.fileId
  {
    hide ChunksForSize, ChunkBytes, Encode, RateLimiter.FitsBucket;
  }

  /** The length of the datagram the item's next packet makes. */
  function DatagramLen(item: WorkItem, rows: Rows, chunkSize: nat, w: World): nat
    requires chunkSize >= HEADER_LEN && (item.ManifestItem? || item.fileId in rows) && NameOf(item, rows) in w.files
  {
    HEADER_LEN + if item.ManifestItem? then |item.fileName|
                 else |ChunkBytes(w.files[NameOf(item, rows)], chunkSize - HEADER_LEN, item.range.start)|
  }

  /**
   A queued item inside its file is served, never dropped, while the file and the link stay: its
   packet goes out if and only if the datagram fits one second of traffic, and else blocks.
   */
  lemma SteadyGoesOut(item: WorkItem, rows: Rows, chunkSize: nat, w: World)
    requires MIN_CHUNK_SIZE <= chunkSize <= MAX_CHUNK_SIZE && Addressed(item) && ItemWithin(item, rows, chunkSize)
    requires Steady(item, rows, w)
    ensures var o := Serve(item, rows, chunkSize, w);
      if RateLimiter.FitsBucket(DatagramLen(item, rows, chunkSize, w), w.kbps) then o.Out? else o.Blocked?
  {
    hide ChunksForSize, ChunkBytes, RateLimiter.FitsBucket, Encode, Delivery.CutAt;
    var cut := Cut(w.files[NameOf(item, rows)], item.fileId, chunkSize - HEADER_LEN);
    if item.ManifestItem? {
      assert Serve(item, rows, chunkSize, w) == Transmit(w, Success(cut.ManifestPacket(item.fileName)));
    } else {
      assert cut.NumChunks() == Total(rows[item.fileId].fileSize, chunkSize) && item.range.start < cut.NumChunks();
      assert Serve(item, rows, chunkSize, w)
        == Transmit(w, if item.DataItem? then cut.DataPacket(item.range.start)
          else cut.RetransmitPacket(item.range.start));
    }
  }
}
