/**
 The sender's main loop (`run` and `tick` of sender/state.rs): one packet a turn, until a turn
 fails. The loop passes the error on and the process ends with it, so what one item meets
 decides over everything queued behind it.
 */
module Running {
  import opened Bytes
  import opened Errors
  import opened Messages
  import opened Packets
  import opened Chunker
  import opened Queue
  import opened Ledger
  import opened Sender
  import SenderBook
  import RateLimiter

  /** Still in the loop; ended by an error; or waiting for ever in the rate limiter. */
  datatype RunEnd = Going | Died(error: Error) | Hung

  datatype Ran = Ran(sent: seq<Packet>, items: seq<WorkItem>, end: RunEnd)

  /** What a run over these turns sends and leaves queued, `ws` being what each turn meets. */
  function RunOver(items: seq<WorkItem>, rows: Rows, chunkSize: nat, ws: seq<World>): Ran
    decreases |ws|
  {
    if ws == [] then Ran([], items, Going)
    else if items == [] || !Addressed(items[0]) then RunOver(items, rows, chunkSize, ws[1..])
    else
      match Serve(items[0], rows, chunkSize, ws[0])
      case Out(p) => Prefixed([p], RunOver(SenderBook.Residue(items[0]) + items[1..], rows, chunkSize, ws[1..]))
      case Gone(_) => RunOver(items[1..], rows, chunkSize, ws[1..])
      case Broke(e) => Ran([], items[1..], Died(e))
      case Blocked(_) => Ran([], items[1..], Hung)
  }

  function Prefixed(sent: seq<Packet>, r: Ran): Ran {
    r.(sent := sent + r.sent)
  }

  /** The table still leads to the same files. */
  ghost predicate SameNames(a: Rows, b: Rows) {
    a.Keys == b.Keys && forall id :: id in a ==> a[id].fileName == b[id].fileName
  }

  /** Serving looks at nothing but the name of a row. */
  lemma ServeByName(item: WorkItem, a: Rows, b: Rows, chunkSize: nat, w: World)
    requires Addressed(item) && SameNames(a, b)
    ensures Serve(item, a, chunkSize, w) == Serve(item, b, chunkSize, w)
  {
    hide Transmit, Open;
  }

  lemma GoneKeepsNames(rows: Rows, name: bytes)
    ensures SameNames(rows, MarkedGone(rows, name))
  {
  }

  lemma PrefixedTwice(a: seq<Packet>, b: seq<Packet>, r: Ran)
    ensures Prefixed(a, Prefixed(b, r)) == Prefixed(a + b, r)
  {
    assert a + (b + r.sent) == a + b + r.sent;
  }

  /** What one turn does, from what it meets. */
  function OneTurn(items: seq<WorkItem>, rows: Rows, chunkSize: nat, w: World): Ran {
    if items == [] || !Addressed(items[0]) then Ran([], items, Going)
    else
      match Serve(items[0], rows, chunkSize, w)
      case Out(p) => Ran([p], SenderBook.Residue(items[0]) + items[1..], Going)
      case Gone(_) => Ran([], items[1..], Going)
      case Broke(e) => Ran([], items[1..], Died(e))
      case Blocked(_) => Ran([], items[1..], Hung)
  }

  lemma NextTurn(items: seq<WorkItem>, rows: Rows, chunkSize: nat, ws: seq<World>)
    requires ws != []
    ensures var t := OneTurn(items, rows, chunkSize, ws[0]);
      RunOver(items, rows, chunkSize, ws)
      == if t.end == Going then Prefixed(t.sent, RunOver(t.items, rows, chunkSize, ws[1..])) else t
  {
    hide Serve, SenderBook.Residue;
    PrefixedNone(RunOver(OneTurn(items, rows, chunkSize, ws[0]).items, rows, chunkSize, ws[1..]));
  }

  lemma PrefixedNone(r: Ran)
    ensures Prefixed([], r) == r
  {
    assert [] + r.sent == r.sent;
  }

  /** One call of `SendNext`, and whether the loop goes on after it. */
  method TakeTurn(rt: SenderRuntime, w: World, gap: RateLimiter.Delay, late: nat -> RateLimiter.Delay, ghost rows: Rows)
    returns (end: RunEnd)
    requires rt.Valid() && SameNames(rows, rt.ledger.rows)
    modifies rt`book, rt`wire, rt.queue, rt.ledger, rt.limiter
    ensures rt.Valid() && SameNames(rows, rt.ledger.rows)
    ensures rt.state == Paused ==> end == Going && rt.wire == old(rt.wire) && rt.queue.items == old(rt.queue.items)
    ensures rt.state != Paused ==>
      var t := OneTurn(old(rt.queue.items), rows, rt.chunkSize, w);
      rt.wire == old(rt.wire) + t.sent && rt.queue.items == t.items && end == t.end
  {
    hide SenderBook.Record, SenderBook.Residue, SenderBook.InBalance, SenderBook.Items, AllCarried, SameNames;
    hide MarkedGone, SizesFit, Serve;
    ghost var items, table := rt.queue.items, rt.ledger.rows;
    if items != [] {
      assert Addressed(items[0]);
      ServeByName(items[0], rows, table, rt.chunkSize, w);
      NamesChain(rows, table);
    }
    var returned, r := rt.SendNext(w, gap, late);
    end := if !returned then Hung else if r.Failure? then Died(r.error) else Going;
  }

  /** The loop, until a turn fails or never returns. */
  method Run(rt: SenderRuntime, ws: seq<World>, gap: nat -> RateLimiter.Delay, late: nat -> nat -> RateLimiter.Delay)
    returns (end: RunEnd)
    requires rt.Valid()
    modifies rt`book, rt`wire, rt.queue, rt.ledger, rt.limiter
    ensures rt.Valid()
    ensures rt.state == Paused ==> end == Going && rt.wire == old(rt.wire) && rt.queue.items == old(rt.queue.items)
    ensures rt.state != Paused ==>
      var r := RunOver(old(rt.queue.items), old(rt.ledger.rows), rt.chunkSize, ws);
      rt.wire == old(rt.wire) + r.sent && rt.queue.items == r.items && end == r.end
  {
    hide RunOver, OneTurn, Prefixed, SameNames, Serve;
    ghost var rows := rt.ledger.rows;
    ghost var whole := RunOver(rt.queue.items, rows, rt.chunkSize, ws);
    ghost var sent: seq<Packet> := [];
    assert ws[0..] == ws;
    PrefixedNone(whole);
    SelfNames(rows);
    for k := 0 to |ws|
      invariant rt.Valid() && SameNames(rows, rt.ledger.rows)
      invariant rt.wire == old(rt.wire) + sent
      invariant rt.state == Paused ==> sent == [] && rt.queue.items == old(rt.queue.items)
      invariant rt.state != Paused ==> whole == Prefixed(sent, RunOver(rt.queue.items, rows, rt.chunkSize, ws[k..]))
    {
      assert ws[k..][0] == ws[k] && ws[k..][1..] == ws[k + 1..];
      ghost var t := OneTurn(rt.queue.items, rows, rt.chunkSize, ws[k]);
      NextTurn(rt.queue.items, rows, rt.chunkSize, ws[k..]);
      PrefixedTwice(sent, t.sent, RunOver(t.items, rows, rt.chunkSize, ws[k + 1..]));
      PrefixedIs(sent, t);
      end := TakeTurn(rt, ws[k], gap(k), late(k), rows);
      if rt.state != Paused { sent := sent + t.sent; }
      if end != Going { return; }
    }
    NoTurns(rt.queue.items, rows, rt.chunkSize, ws[|ws|..]);
    PrefixedIs(sent, RunOver(rt.queue.items, rows, rt.chunkSize, ws[|ws|..]));
    end := Going;
  }

  lemma PrefixedIs(sent: seq<Packet>, r: Ran)
    ensures Prefixed(sent, r) == Ran(sent + r.sent, r.items, r.end)
  {
  }

  lemma NoTurns(items: seq<WorkItem>, rows: Rows, chunkSize: nat, ws: seq<World>)
    requires ws == []
    ensures RunOver(items, rows, chunkSize, ws) == Ran([], items, Going)
  {
  }

  lemma SelfNames(rows: Rows)
    ensures SameNames(rows, rows)
  {
  }

  lemma NamesChain(rows: Rows, table: Rows)
    requires SameNames(rows, table)
    ensures forall name :: SameNames(rows, MarkedGone(table, name))
  {
    forall name ensures SameNames(rows, MarkedGone(table, name)) { GoneKeepsNames(table, name); }
  }

  // ---- when the loop goes on ----

  /** What the item at the head needs of the world, for the loop to go on after its turn. */
  predicate LetsOn(item: WorkItem, rows: Rows, chunkSize: nat, w: World)
    requires chunkSize >= MIN_CHUNK_SIZE
  {
    if item.ManifestItem? then
      item.fileName in w.files && Passes(w, HEADER_LEN + |item.fileName|)
    else
      item.fileId in rows
      && (NameOf(item, rows) in w.files ==>
          item.range.start < ChunksForSize(|w.files[NameOf(item, rows)]|, chunkSize - HEADER_LEN)
          && Passes(w, DatagramLen(item, rows, chunkSize, w)))
  }

  predicate Passes(w: World, len: nat) {
    w.readable && w.linkUp && RateLimiter.FitsBucket(len, w.kbps)
  }

  /** The loop goes on after a turn exactly when nothing is queued or the head gets what it needs. */
  lemma HeadDecides(items: seq<WorkItem>, rows: Rows, chunkSize: nat, w: World)
    requires MIN_CHUNK_SIZE <= chunkSize <= MAX_CHUNK_SIZE && AllAddressed(items)
    ensures OneTurn(items, rows, chunkSize, w).end == Going <==> items == [] || LetsOn(items[0], rows, chunkSize, w)
  {
    hide SenderBook.Residue, RateLimiter.FitsBucket, ChunksForSize, ChunkBytes, Encode;
    if items != [] {
      var item := items[0];
      assert Addressed(item);
      if item.ManifestItem? || (item.fileId in rows && NameOf(item, rows) in w.files) {
        HeadServed(item, rows, chunkSize, w);
      }
    }
  }

  /** Serving an item whose file is on disk. */
  lemma HeadServed(item: WorkItem, rows: Rows, chunkSize: nat, w: World)
    requires MIN_CHUNK_SIZE <= chunkSize <= MAX_CHUNK_SIZE && Addressed(item)
    requires item.ManifestItem? || (item.fileId in rows && NameOf(item, rows) in w.files)
    ensures Serve(item, rows, chunkSize, w).Out? <==> LetsOn(item, rows, chunkSize, w)
    ensures !Serve(item, rows, chunkSize, w).Gone?
  {
    hide RateLimiter.FitsBucket, ChunksForSize, ChunkBytes, Encode;
  }

  /** Where a run stands before its last turn decides what that turn adds. */
  lemma {:induction false} LastTurn(items: seq<WorkItem>, rows: Rows, chunkSize: nat, ws: seq<World>)
    requires ws != []
    ensures var front := RunOver(items, rows, chunkSize, ws[..|ws| - 1]);
      RunOver(items, rows, chunkSize, ws)
      == if front.end == Going then Prefixed(front.sent, OneTurn(front.items, rows, chunkSize, ws[|ws| - 1])) else front
    decreases |ws|
  {
    hide Serve, SenderBook.Residue, OneTurn, RunOver, Prefixed;
    var t := OneTurn(items, rows, chunkSize, ws[0]);
    NextTurn(items, rows, chunkSize, ws);
    if |ws| == 1 {
      NoTurns(items, rows, chunkSize, ws[..0]);
      NoTurns(t.items, rows, chunkSize, ws[1..]);
      PrefixedIs(t.sent, Ran([], t.items, Going));
      PrefixedNone(t);
      assert t.sent + [] == t.sent;
    } else {
      var shorter := ws[..|ws| - 1];
      NextTurn(items, rows, chunkSize, shorter);
      assert shorter[1..] == ws[1..][..|ws| - 2] && shorter[0] == ws[0];
      LastTurn(t.items, rows, chunkSize, ws[1..]);
      var later := RunOver(t.items, rows, chunkSize, shorter[1..]);
      PrefixedIs(t.sent, later);
      PrefixedTwice(t.sent, later.sent, OneTurn(later.items, rows, chunkSize, ws[|ws| - 1]));
    }
  }

  lemma {:induction false} StaysAddressed(items: seq<WorkItem>, rows: Rows, chunkSize: nat, ws: seq<World>)
    requires AllAddressed(items)
    ensures AllAddressed(RunOver(items, rows, chunkSize, ws).items)
    decreases |ws|
  {
    hide Serve, SenderBook.Residue, AllAddressed;
    if ws != [] {
      hide RunOver;
      NextTurn(items, rows, chunkSize, ws);
      TurnAddressed(items, rows, chunkSize, ws[0]);
      StaysAddressed(OneTurn(items, rows, chunkSize, ws[0]).items, rows, chunkSize, ws[1..]);
    }
  }

  lemma TurnAddressed(items: seq<WorkItem>, rows: Rows, chunkSize: nat, w: World)
    requires AllAddressed(items)
    ensures AllAddressed(OneTurn(items, rows, chunkSize, w).items)
  {
    hide Serve, SenderBook.Residue;
    if items != [] {
      ServedAddressed(items, true);
      ServedAddressed(items, false);
      assert [] + items[1..] == items[1..];
    }
  }

  /** At its turn the head of what is queued by then gets what it needs. */
  ghost predicate FedAt(items: seq<WorkItem>, rows: Rows, chunkSize: nat, ws: seq<World>, k: nat)
    requires chunkSize >= MIN_CHUNK_SIZE && k < |ws|
  {
    var queued := RunOver(items, rows, chunkSize, ws[..k]).items;
    queued == [] || LetsOn(queued[0], rows, chunkSize, ws[k])
  }

  /** The loop is still going after these turns if and only if every head got what it needed at its turn. */
  lemma {:induction false} GoesOnIff(items: seq<WorkItem>, rows: Rows, chunkSize: nat, ws: seq<World>)
    requires MIN_CHUNK_SIZE <= chunkSize <= MAX_CHUNK_SIZE && AllAddressed(items)
    ensures RunOver(items, rows, chunkSize, ws).end == Going
      <==> forall k :: 0 <= k < |ws| ==> FedAt(items, rows, chunkSize, ws, k)
    decreases |ws|
  {
    hide RunOver, OneTurn, LetsOn, AllAddressed;
    if ws == [] {
      NoTurns(items, rows, chunkSize, ws);
    } else {
      var front, n := ws[..|ws| - 1], |ws| - 1;
      var before := RunOver(items, rows, chunkSize, front);
      GoesOnIff(items, rows, chunkSize, front);
      LastTurn(items, rows, chunkSize, ws);
      StaysAddressed(items, rows, chunkSize, front);
      HeadDecides(before.items, rows, chunkSize, ws[n]);
      forall k | 0 <= k < n
        ensures FedAt(items, rows, chunkSize, ws, k) == FedAt(items, rows, chunkSize, front, k)
      {
        assert front[..k] == ws[..k] && front[k] == ws[k];
      }
      assert FedAt(items, rows, chunkSize, ws, n) <==> OneTurn(before.items, rows, chunkSize, ws[n]).end == Going;
    }
  }

  /**
   A queued name whose file has vanished ends the sender, whatever is queued behind it and whatever
   would have come; a queued chunk of a vanished file is only dropped, and the loop goes on.
   */
  lemma VanishedNameKills(id: i64, name: bytes, range: RequestedRange, rest: seq<WorkItem>, rows: Rows,
      chunkSize: nat, w: World, ws: seq<World>)
    requires MIN_CHUNK_SIZE <= chunkSize <= MAX_CHUNK_SIZE && Addressed(RetransmitItem(id, range))
    requires name !in w.files && id in rows && rows[id].fileName == name
    ensures RunOver([ManifestItem(id, name)] + rest, rows, chunkSize, [w] + ws) == Ran([], rest, Died(NotFound))
    ensures RunOver([RetransmitItem(id, range)] + rest, rows, chunkSize, [w] + ws) == RunOver(rest, rows, chunkSize, ws)
    ensures RunOver([DataItem(id, range)] + rest, rows, chunkSize, [w] + ws) == RunOver(rest, rows, chunkSize, ws)
  {
    hide Encode, RateLimiter.FitsBucket;
    assert ([w] + ws)[1..] == ws;
    assert ([ManifestItem(id, name)] + rest)[1..] == rest;
    assert ([RetransmitItem(id, range)] + rest)[1..] == rest;
    assert ([DataItem(id, range)] + rest)[1..] == rest;
  }
}
