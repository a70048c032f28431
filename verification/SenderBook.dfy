/**
 The books of the sender: which packets were asked for, sent, dropped, or are still queued.
 Every control message or service step is one entry; the class `SenderRuntime` is proved to
 keep exactly these books.
 */
module SenderBook {
  import opened Bytes
  import opened Messages
  import opened Queue

  /** One packet to be sent, with the number of the request it belongs to. */
  datatype Unit =
    | NameUnit(ticket: nat, fileId: i64)
    | ChunkUnit(ticket: nat, fileId: i64, resend: bool, chunk: nat)

  datatype Job = Job(ticket: nat, item: WorkItem)

  datatype Book = Book(jobs: seq<Job>, next: nat, requested: seq<Unit>, sent: seq<Unit>, dropped: seq<Unit>)

  const BLANK_BOOK := Book([], 0, [], [], [])

  /** The entries: a request joining at the back or cutting in, a flush, one service step. */
  datatype Entry = Push(items: seq<WorkItem>, front: bool) | Flush | Serve(ok: bool)

  function Items(jobs: seq<Job>): (items: seq<WorkItem>)
    ensures |items| == |jobs| && forall k :: 0 <= k < |jobs| ==> items[k] == jobs[k].item
  {
    seq(|jobs|, k requires 0 <= k < |jobs| => jobs[k].item)
  }

  function Jobs(ticket: nat, items: seq<WorkItem>): (jobs: seq<Job>)
    ensures Items(jobs) == items && forall k :: 0 <= k < |jobs| ==> jobs[k].ticket == ticket
  {
    seq(|items|, k requires 0 <= k < |items| => Job(ticket, items[k]))
  }

  function ChunkUnits(ticket: nat, f: i64, resend: bool, r: RequestedRange): (us: seq<Unit>)
    ensures |us| == r.count
    ensures forall k :: 0 <= k < r.count ==> us[k] == ChunkUnit(ticket, f, resend, r.start + k)
  {
    seq(r.count, k requires 0 <= k < r.count => ChunkUnit(ticket, f, resend, r.start + k))
  }

  /** The packets of one job, in the order they are sent. */
  function Units(j: Job): seq<Unit> {
    match j.item
    case ManifestItem(f, _) => [NameUnit(j.ticket, f)]
    case DataItem(f, r) => ChunkUnits(j.ticket, f, false, r)
    case RetransmitItem(f, r) => ChunkUnits(j.ticket, f, true, r)
  }

  function Flatten(jobs: seq<Job>): seq<Unit> {
    if jobs == [] then [] else Units(jobs[0]) + Flatten(jobs[1..])
  }

  /** What stays of an item after its first packet went out. */
  function Residue(item: WorkItem): seq<WorkItem> {
    match item
    case ManifestItem(_, _) => []
    case DataItem(f, r) => if r.count > 1 then [DataItem(f, RequestedRange(r.start + 1, r.count - 1))] else []
    case RetransmitItem(f, r) =>
      if r.count > 1 then [RetransmitItem(f, RequestedRange(r.start + 1, r.count - 1))] else []
  }

  function Record(b: Book, e: Entry): Book {
    match e
    case Push(items, front) =>
      var jobs := Jobs(b.next, items);
      b.(jobs := if front then jobs + b.jobs else b.jobs + jobs, next := b.next + 1,
         requested := b.requested + Flatten(jobs))
    case Flush => b.(jobs := [], dropped := b.dropped + Flatten(b.jobs))
    case Serve(ok) =>
      if b.jobs == [] then b
      else if ok then
        var j := b.jobs[0];
        b.(jobs := Jobs(j.ticket, Residue(j.item)) + b.jobs[1..],
           sent := b.sent + Units(j)[..if Units(j) == [] then 0 else 1])
      else b.(jobs := b.jobs[1..], dropped := b.dropped + Units(b.jobs[0]))
  }

  function RecordAll(b: Book, es: seq<Entry>): Book
    decreases |es|
  {
    if es == [] then b else RecordAll(Record(b, es[0]), es[1..])
  }

  // ---- shape ----

  predicate Nonempty(item: WorkItem) {
    item.PacketCount() > 0
  }

  ghost predicate AllNonempty(items: seq<WorkItem>) {
    forall k :: 0 <= k < |items| ==> Nonempty(items[k])
  }

  /** Requests never queue an empty range. */
  ghost predicate ProperEntry(e: Entry) {
    e.Push? ==> AllNonempty(e.items)
  }

  ghost predicate Proper(b: Book) {
    AllNonempty(Items(b.jobs))
  }

  lemma RecordProper(b: Book, e: Entry)
    requires Proper(b) && ProperEntry(e)
    ensures Proper(Record(b, e))
  {
  }

  lemma {:induction false} FlattenConcat(a: seq<Job>, b: seq<Job>)
    ensures Flatten(a + b) == Flatten(a) + Flatten(b)
  {
    if a == [] {
      assert a + b == b;
    } else {
      assert (a + b)[1..] == a[1..] + b;
      FlattenConcat(a[1..], b);
    }
  }

  lemma FlattenOne(j: Job)
    ensures Flatten([j]) == Units(j)
  {
    assert [j][1..] == [];
  }

  /** Serving the head sends its first packet and leaves the others first in line. */
  lemma ServeShifts(b: Book)
    requires Proper(b) && b.jobs != []
    ensures Flatten(b.jobs) != []
    ensures var b' := Record(b, Serve(true));
      b'.sent == b.sent + [Flatten(b.jobs)[0]] && Flatten(b'.jobs) == Flatten(b.jobs)[1..]
      && b'.dropped == b.dropped && b'.requested == b.requested
  {
    var j := b.jobs[0];
    var rest := Jobs(j.ticket, Residue(j.item));
    assert Nonempty(Items(b.jobs)[0]);
    FlattenConcat(rest, b.jobs[1..]);
    if rest != [] { FlattenOne(rest[0]); assert rest == [rest[0]]; }
    assert Flatten(rest) == Units(j)[1..];
    assert Units(j)[..1] == [Units(j)[0]];
  }

  // ---- conservation ----

  /** Every requested packet is sent, dropped, or still queued; and nothing else is. */
  ghost predicate Balanced(b: Book) {
    multiset(b.requested) == multiset(b.sent) + multiset(b.dropped) + multiset(Flatten(b.jobs))
  }

  lemma RecordBalanced(b: Book, e: Entry)
    requires Proper(b) && ProperEntry(e) && Balanced(b)
    ensures Balanced(Record(b, e))
  {
    hide Proper, Items, Residue, Units;
    var b' := Record(b, e);
    match e {
      case Push(items, front) =>
        hide Flatten;
        var jobs := Jobs(b.next, items);
        FlattenConcat(jobs, b.jobs);
        FlattenConcat(b.jobs, jobs);
        assert multiset(b'.requested) == multiset(b.requested) + multiset(Flatten(jobs));
      case Flush =>
        assert Flatten([]) == [];
      case Serve(ok) =>
        if b.jobs != [] { ServeBalanced(b, ok); }
    }
  }

  lemma ServeBalanced(b: Book, ok: bool)
    requires Proper(b) && Balanced(b) && b.jobs != []
    ensures Balanced(Record(b, Serve(ok)))
  {
    hide Proper, Items, Residue, Units;
    if ok {
      hide Record, Flatten;
      ServeShifts(b);
      var all := Flatten(b.jobs);
      assert all == [all[0]] + all[1..];
      assert multiset(all) == multiset([all[0]]) + multiset(all[1..]);
    } else {
      var head, rest := Units(b.jobs[0]), Flatten(b.jobs[1..]);
      assert Flatten(b.jobs) == head + rest;
      assert multiset(Flatten(b.jobs)) == multiset(head) + multiset(rest);
    }
  }

  ghost predicate AllProper(es: seq<Entry>) {
    forall k :: 0 <= k < |es| ==> ProperEntry(es[k])
  }

  /** Conservation over every run of requests, flushes, sends and failures. */
  lemma {:induction false} NothingIsLostUnaccounted(b: Book, es: seq<Entry>)
    requires Proper(b) && AllProper(es) && Balanced(b)
    ensures Proper(RecordAll(b, es)) && Balanced(RecordAll(b, es))
    decreases |es|
  {
    if es != [] {
      hide Record, Balanced, Proper;
      assert ProperEntry(es[0]);
      RecordProper(b, es[0]);
      RecordBalanced(b, es[0]);
      NothingIsLostUnaccounted(Record(b, es[0]), es[1..]);
    }
  }

  // ---- draining ----

  function Serves(k: nat): seq<Entry> {
    if k == 0 then [] else [Serve(true)] + Serves(k - 1)
  }

  lemma {:induction false} DepthIsLength(jobs: seq<Job>)
    ensures Depth(Items(jobs)) == |Flatten(jobs)|
  {
    if jobs != [] {
      assert Items(jobs)[1..] == Items(jobs[1..]);
      DepthIsLength(jobs[1..]);
    }
  }

  lemma TakeNext(sent: seq<Unit>, all: seq<Unit>, k: nat)
    requires 0 < k <= |all|
    ensures sent + [all[0]] + all[1..][..k - 1] == sent + all[..k] && all[1..][k - 1..] == all[k..]
  {
    assert [all[0]] + all[1..][..k - 1] == all[..k];
  }

  /** Left alone, the sender sends the flattened queue in order, one packet less queued each time. */
  lemma {:induction false} DrainsInOrder(b: Book, k: nat)
    requires Proper(b) && k <= |Flatten(b.jobs)|
    ensures var b' := RecordAll(b, Serves(k));
      b'.sent == b.sent + Flatten(b.jobs)[..k] && Flatten(b'.jobs) == Flatten(b.jobs)[k..]
      && Depth(Items(b'.jobs)) == Depth(Items(b.jobs)) - k
    decreases k
  {
    if k > 0 {
      hide Record, Flatten, Items, Proper, Depth, Units, Jobs, Residue;
      var b1 := Record(b, Serve(true));
      ServeShifts(b);
      RecordProper(b, Serve(true));
      assert Serves(k)[1..] == Serves(k - 1);
      DrainsInOrder(b1, k - 1);
      TakeNext(b.sent, Flatten(b.jobs), k);
      DepthIsLength(b.jobs);
      DepthIsLength(b1.jobs);
    }
  }

  // ---- order within a request ----

  function OfTicket(us: seq<Unit>, t: nat): seq<Unit> {
    if us == [] then [] else (if us[0].ticket == t then [us[0]] else []) + OfTicket(us[1..], t)
  }

  lemma {:induction false} OfTicketConcat(a: seq<Unit>, b: seq<Unit>, t: nat)
    ensures OfTicket(a + b, t) == OfTicket(a, t) + OfTicket(b, t)
  {
    if a == [] {
      assert a + b == b;
    } else {
      assert (a + b)[1..] == a[1..] + b;
      OfTicketConcat(a[1..], b, t);
      var head := if a[0].ticket == t then [a[0]] else [];
      assert OfTicket(a + b, t) == head + OfTicket(a[1..] + b, t) && OfTicket(a, t) == head + OfTicket(a[1..], t);
    }
  }

  lemma {:induction false} OfTicketAll(us: seq<Unit>, t: nat)
    ensures (forall k :: 0 <= k < |us| ==> us[k].ticket == t) ==> OfTicket(us, t) == us
    ensures (forall k :: 0 <= k < |us| ==> us[k].ticket != t) ==> OfTicket(us, t) == []
  {
    if us != [] { OfTicketAll(us[1..], t); }
  }

  ghost predicate TicketsBelow(us: seq<Unit>, n: nat) {
    forall k :: 0 <= k < |us| ==> us[k].ticket < n
  }

  lemma {:induction false} JobsTickets(jobs: seq<Job>, t: nat)
    requires forall k :: 0 <= k < |jobs| ==> jobs[k].ticket == t
    ensures forall k :: 0 <= k < |Flatten(jobs)| ==> Flatten(jobs)[k].ticket == t
  {
    if jobs != [] { JobsTickets(jobs[1..], t); }
  }

  /** While nothing is dropped, each request's packets are sent and queued in the order asked for. */
  ghost predicate InOrder(b: Book) {
    TicketsBelow(b.sent, b.next) && TicketsBelow(Flatten(b.jobs), b.next) && TicketsBelow(b.requested, b.next)
    && (b.dropped == [] ==> forall t: nat :: Kept(b, t))
  }

  ghost predicate Kept(b: Book, t: nat) {
    OfTicket(b.sent + Flatten(b.jobs), t) == OfTicket(b.requested, t)
  }

  lemma PushKeeps(b: Book, items: seq<WorkItem>, front: bool, t: nat)
    requires InOrder(b) && Kept(b, t)
    ensures Kept(Record(b, Push(items, front)), t)
  {
    hide Flatten, Units, OfTicket, Proper, Items;
    var jobs := Jobs(b.next, items);
    var us, held := Flatten(jobs), Flatten(b.jobs);
    JobsTickets(jobs, b.next);
    FlattenConcat(jobs, b.jobs);
    FlattenConcat(b.jobs, jobs);
    NewTicketJoins(b.sent, held, b.requested, us, b.next, t);
  }

  /** Packets of a new request, put before or after the held ones, change nothing for the other requests. */
  lemma NewTicketJoins(sent: seq<Unit>, held: seq<Unit>, requested: seq<Unit>, us: seq<Unit>, next: nat, t: nat)
    requires TicketsBelow(sent, next) && TicketsBelow(held, next) && TicketsBelow(requested, next)
    requires forall k :: 0 <= k < |us| ==> us[k].ticket == next
    requires OfTicket(sent + held, t) == OfTicket(requested, t)
    ensures OfTicket(sent + (us + held), t) == OfTicket(requested + us, t)
    ensures OfTicket(sent + (held + us), t) == OfTicket(requested + us, t)
  {
    hide OfTicket;
    OfTicketConcat(requested, us, t);
    OfTicketConcat(sent, held, t);
    OfTicketConcat(sent, us + held, t);
    OfTicketConcat(us, held, t);
    OfTicketConcat(sent, held + us, t);
    OfTicketConcat(held, us, t);
    OfTicketAll(us, t);
    OfTicketAll(held, t);
    OfTicketAll(sent, t);
    OfTicketAll(requested, t);
  }

  lemma RecordInOrder(b: Book, e: Entry)
    requires Proper(b) && ProperEntry(e) && InOrder(b)
    ensures InOrder(Record(b, e))
  {
    hide Items, Residue, OfTicket;
    var b' := Record(b, e);
    match e {
      case Push(items, front) =>
        hide Flatten, Units, Proper;
        var jobs := Jobs(b.next, items);
        JobsTickets(jobs, b.next);
        FlattenConcat(jobs, b.jobs);
        FlattenConcat(b.jobs, jobs);
        if b.dropped == [] {
          forall t: nat ensures Kept(b', t) { assert Kept(b, t); PushKeeps(b, items, front, t); }
        }
      case Flush =>
        if b'.dropped == [] {
          assert Flatten(b.jobs) == [];
          forall t: nat ensures Kept(b', t) { assert Kept(b, t); }
        }
      case Serve(ok) =>
        if b.jobs != [] { ServeInOrder(b, ok); }
    }
  }

  lemma ServeInOrder(b: Book, ok: bool)
    requires Proper(b) && InOrder(b) && b.jobs != []
    ensures InOrder(Record(b, Serve(ok)))
  {
    if ok { SendInOrder(b); } else { DropInOrder(b); }
  }

  lemma SendInOrder(b: Book)
    requires Proper(b) && InOrder(b) && b.jobs != []
    ensures InOrder(Record(b, Serve(true)))
  {
    hide Items, Residue, OfTicket, Proper, Record, Flatten;
    var b', all := Record(b, Serve(true)), Flatten(b.jobs);
    ServeShifts(b);
    ServeKeepsNext(b, true);
    assert b.sent + all == b'.sent + all[1..];
    if b.dropped == [] {
      forall t: nat ensures Kept(b', t) { assert Kept(b, t); }
    }
  }

  lemma DropInOrder(b: Book)
    requires Proper(b) && InOrder(b) && b.jobs != []
    ensures InOrder(Record(b, Serve(false)))
  {
    hide Items, Residue, OfTicket, Proper, Units;
    var b', all, head := Record(b, Serve(false)), Flatten(b.jobs), Units(b.jobs[0]);
    HeadHasPackets(b);
    assert all == head + Flatten(b.jobs[1..]);
    forall k | 0 <= k < |Flatten(b'.jobs)| ensures Flatten(b'.jobs)[k].ticket < b.next {
      assert Flatten(b'.jobs)[k] == all[|head| + k];
    }
  }

  lemma ServeKeepsNext(b: Book, ok: bool)
    ensures Record(b, Serve(ok)).next == b.next
  {
  }

  lemma HeadHasPackets(b: Book)
    requires Proper(b) && b.jobs != []
    ensures Units(b.jobs[0]) != []
  {
    assert Nonempty(Items(b.jobs)[0]);
  }

  lemma {:induction false} RunInOrder(b: Book, es: seq<Entry>)
    requires Proper(b) && AllProper(es) && InOrder(b)
    ensures InOrder(RecordAll(b, es))
    decreases |es|
  {
    if es != [] {
      hide Record, InOrder, Proper;
      assert ProperEntry(es[0]);
      RecordProper(b, es[0]);
      RecordInOrder(b, es[0]);
      RunInOrder(Record(b, es[0]), es[1..]);
    }
  }

  // ---- the name goes first ----

  function FullFile(f: i64, name: bytes, total: nat): seq<WorkItem> {
    [ManifestItem(f, name), DataItem(f, RequestedRange(0, total))]
  }

  lemma FullFileUnits(t: nat, f: i64, name: bytes, total: nat)
    ensures Flatten(Jobs(t, FullFile(f, name, total)))
         == [NameUnit(t, f)] + ChunkUnits(t, f, false, RequestedRange(0, total))
  {
    var jobs := Jobs(t, FullFile(f, name, total));
    assert jobs == [Job(t, ManifestItem(f, name)), Job(t, DataItem(f, RequestedRange(0, total)))];
    assert jobs[1..] == [jobs[1]];
    FlattenOne(jobs[1]);
  }

  /** Requests are only ever added to. */
  lemma {:induction false} RequestedGrows(b: Book, es: seq<Entry>, t: nat)
    requires t < b.next
    ensures OfTicket(RecordAll(b, es).requested, t) == OfTicket(b.requested, t)
    ensures RecordAll(b, es).next >= b.next
    decreases |es|
  {
    if es != [] {
      if es[0].Push? {
        var us := Flatten(Jobs(b.next, es[0].items));
        JobsTickets(Jobs(b.next, es[0].items), b.next);
        OfTicketConcat(b.requested, us, t);
        OfTicketAll(us, t);
      }
      RequestedGrows(Record(b, es[0]), es[1..], t);
    }
  }

  /** A chunk at position `j` has a predecessor of its own request; the first of them is `u`. */
  lemma {:induction false} FirstOfTicket(us: seq<Unit>, j: nat, u: Unit) returns (i: nat)
    requires j < |us| && us[j] != u && OfTicket(us, us[j].ticket) != [] && OfTicket(us, us[j].ticket)[0] == u
    ensures i < j && us[i] == u
  {
    var t := us[j].ticket;
    if us[0].ticket == t {
      i := 0;
    } else {
      var k := FirstOfTicket(us[1..], j - 1, u);
      i := k + 1;
    }
  }

  /**
   Name before data: in every run in which nothing is dropped, by the time any chunk of a
   full-file request is sent its name packet has been sent, however many requests follow,
   cut in or are served in between. The request may itself cut in.
   */
  lemma NameGoesFirst(b: Book, f: i64, name: bytes, total: nat, front: bool, es: seq<Entry>, j: nat)
    requires Proper(b) && InOrder(b) && total > 0 && AllProper(es)
    requires var b' := RecordAll(Record(b, Push(FullFile(f, name, total), front)), es);
      b'.dropped == [] && j < |b'.sent| && b'.sent[j].ticket == b.next && b'.sent[j].ChunkUnit?
    ensures var b' := RecordAll(Record(b, Push(FullFile(f, name, total), front)), es);
      exists i :: 0 <= i < j && b'.sent[i] == NameUnit(b.next, f)
  {
    hide RecordAll, Record, Flatten, OfTicket, Proper;
    var t, push := b.next, Push(FullFile(f, name, total), front);
    var b1 := Record(b, push);
    var b' := RecordAll(b1, es);
    AskedForNameFirst(b, f, name, total, front);
    RecordProper(b, push);
    RecordInOrder(b, push);
    RunInOrder(b1, es);
    RequestedGrows(b1, es, t);
    assert Kept(b', t);
    OfTicketConcat(b'.sent, Flatten(b'.jobs), t);
    SomeOfTicket(b'.sent, j);
    assert OfTicket(b'.sent, t)[0] == (OfTicket(b'.sent, t) + OfTicket(Flatten(b'.jobs), t))[0] == NameUnit(t, f);
    var i := FirstOfTicket(b'.sent, j, NameUnit(t, f));
  }

  /** What a full-file request asks for begins with the name. */
  lemma AskedForNameFirst(b: Book, f: i64, name: bytes, total: nat, front: bool)
    requires InOrder(b) && total > 0
    ensures var push := Push(FullFile(f, name, total), front);
      ProperEntry(push) && Record(b, push).next == b.next + 1
      && OfTicket(Record(b, push).requested, b.next)
      == [NameUnit(b.next, f)] + ChunkUnits(b.next, f, false, RequestedRange(0, total))
  {
    hide Flatten, OfTicket, Units;
    FullFileUnits(b.next, f, name, total);
    var us := [NameUnit(b.next, f)] + ChunkUnits(b.next, f, false, RequestedRange(0, total));
    OfTicketConcat(b.requested, us, b.next);
    OfTicketAll(b.requested, b.next);
    OfTicketAll(us, b.next);
  }

  lemma {:induction false} SomeOfTicket(us: seq<Unit>, j: nat)
    requires j < |us|
    ensures OfTicket(us, us[j].ticket) != []
  {
    if j > 0 { SomeOfTicket(us[1..], j - 1); }
  }

  /** Within one request chunks go out in the order asked for: what is sent is a prefix. */
  lemma SentIsPrefix(b: Book, es: seq<Entry>, t: nat)
    requires Proper(b) && InOrder(b) && AllProper(es) && RecordAll(b, es).dropped == []
    ensures OfTicket(RecordAll(b, es).sent, t) <= OfTicket(RecordAll(b, es).requested, t)
  {
    RunInOrder(b, es);
    var b' := RecordAll(b, es);
    assert Kept(b', t);
    OfTicketConcat(b'.sent, Flatten(b'.jobs), t);
  }

  // ---- what the sender class keeps ----

  /** Everything the books promise, as one invariant of a run. */
  ghost predicate InBalance(b: Book) {
    Proper(b) && Balanced(b) && InOrder(b)
  }

  lemma RecordInBalance(b: Book, e: Entry)
    requires InBalance(b) && ProperEntry(e)
    ensures InBalance(Record(b, e))
  {
    hide Record, Proper, Balanced, InOrder;
    RecordProper(b, e);
    RecordBalanced(b, e);
    RecordInOrder(b, e);
  }

  lemma PushedItems(b: Book, items: seq<WorkItem>, front: bool)
    ensures Items(Record(b, Push(items, front)).jobs) == if front then items + Items(b.jobs) else Items(b.jobs) + items
    ensures Record(b, Push(items, front)).sent == b.sent
  {
    hide Flatten;
  }

  lemma ServedItems(b: Book, ok: bool)
    requires b.jobs != []
    ensures Items(Record(b, Serve(ok)).jobs) == (if ok then Residue(Items(b.jobs)[0]) else []) + Items(b.jobs)[1..]
  {
    hide Flatten, Units, Residue;
  }
}
