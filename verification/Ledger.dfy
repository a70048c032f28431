/** The sender's table of files (ledger.rs): one row per file name, ids never reused. */
module Ledger {
  import opened Wrappers
  import opened Bytes
  import opened Errors

  /** One row. Timestamps are nanoseconds since the epoch. */
  datatype FileRecord = FileRecord(
    fileId: i64, fileName: bytes, fileSize: u64, createdAt: int,
    imagesPerDark: u32, imagesPerFlat: u32, imagesPerBias: u32,
    stillExists: bool, chunkSize: u32, sha256: Option<bytes>, queuedAt: Option<int>)

  type Rows = map<i64, FileRecord>

  const MAX_ID: i64 := 0x7FFF_FFFF_FFFF_FFFF

  function MarkedGone(rows: Rows, name: bytes): Rows {
    map id | id in rows :: if rows[id].fileName == name then rows[id].(stillExists := false) else rows[id]
  }

  function MarkedQueued(rows: Rows, id: i64, when: int): Rows {
    if id in rows then rows[id := rows[id].(queuedAt := Some(when))] else rows
  }

  /** Names are unique, rows are keyed by id, and no id above the last one given out is in use. */
  ghost predicate Keyed(rows: Rows, lastId: int) {
    (forall id :: id in rows ==> rows[id].fileId == id && id <= lastId)
    && forall a, b :: a in rows && b in rows && rows[a].fileName == rows[b].fileName ==> a == b
  }

  /** Every file keeps its id, name and recorded size, and one that is gone stays gone. */
  ghost predicate Preserves(before: Rows, after: Rows) {
    forall id :: id in before ==> id in after && after[id].fileName == before[id].fileName
                                  && after[id].fileSize == before[id].fileSize
                                  && (after[id].stillExists ==> before[id].stillExists)
  }

  /** `rs` lists the rows by ascending id. */
  ghost predicate Listing(rows: Rows, rs: seq<FileRecord>) {
    Ascends(rs) && forall r :: r in rs <==> r.fileId in rows && rows[r.fileId] == r
  }

  ghost predicate Ascends(rs: seq<FileRecord>) {
    forall k, l :: 0 <= k < l < |rs| ==> rs[k].fileId < rs[l].fileId
  }

  class Ledger {
    var rows: Rows
    var lastId: i64

    ghost predicate Valid()
      reads this
    {
      lastId >= 0 && Keyed(rows, lastId)
    }

    constructor ()
      ensures Valid() && rows == map[] && lastId == 0
    {
      rows, lastId := map[], 0;
    }

    /** A known name keeps its row and its id; a new one gets an id never used before. */
    method Upsert(name: bytes, size: u64, created: int, dark: u32, flat: u32, bias: u32, chunkSize: u32)
      returns (r: Result<i64, Error>)
      requires Valid()
      modifies this
      ensures Valid() && Preserves(old(rows), rows)
      ensures r.Failure? ==> r.error == Io && rows == old(rows) && old(lastId) == 0x7FFF_FFFF_FFFF_FFFF
      ensures r.Success? ==> r.value in rows && rows[r.value].fileName == name
      ensures r.Success? && r.value in old(rows) ==> rows == old(rows)
      ensures r.Success? && r.value !in old(rows) ==>
        && r.value == old(lastId) + 1
        && rows == old(rows)[r.value := FileRecord(r.value, name, size, created, dark, flat, bias, true,
             chunkSize, None, None)]
    {
      if id :| id in rows && rows[id].fileName == name { return Success(id); }
      if lastId == MAX_ID { return Failure(Io); }
      lastId := lastId + 1;
      rows := rows[lastId := FileRecord(lastId, name, size, created, dark, flat, bias, true, chunkSize, None, None)];
      r := Success(lastId);
    }

    method Get(id: i64) returns (rec: Option<FileRecord>)
      ensures rec == if id in rows then Some(rows[id]) else None
    {
      if id in rows { rec := Some(rows[id]); } else { rec := None; }
    }

    method MarkGone(name: bytes)
      requires Valid()
      modifies this
      ensures Valid() && rows == MarkedGone(old(rows), name) && Preserves(old(rows), rows) && lastId == old(lastId)
      ensures rows.Keys == old(rows).Keys
      ensures forall id :: id in rows && rows[id].fileName == name
                ==> rows[id] == old(rows)[id].(stillExists := false)
      ensures forall id :: id in rows && rows[id].fileName != name ==> rows[id] == old(rows)[id]
    {
      rows := MarkedGone(rows, name);
    }

    method MarkQueued(id: i64, when: int)
      requires Valid()
      modifies this
      ensures Valid() && rows == MarkedQueued(old(rows), id, when) && Preserves(old(rows), rows)
      ensures lastId == old(lastId) && rows.Keys == old(rows).Keys
      ensures id in rows ==> rows[id] == old(rows)[id].(queuedAt := Some(when))
      ensures forall j :: j in rows && j != id ==> rows[j] == old(rows)[j]
    {
      rows := MarkedQueued(rows, id, when);
    }

    /** Every row, `ORDER BY file_id`. */
    method All() returns (rs: seq<FileRecord>)
      requires Valid()
      ensures Listing(rows, rs)
    {
      rs := [];
      var left := rows.Keys;
      ghost var done: Rows := map[];
      while left != {}
        invariant left <= rows.Keys && done.Keys == rows.Keys - left
        invariant forall id :: id in done ==> done[id] == rows[id]
        invariant Listing(done, rs)
      {
        var id :| id in left;
        assert rows[id] !in rs;
        InsertedAscends(rs, rows[id]);
        rs := Inserted(rs, rows[id]);
        left, done := left - {id}, done[id := rows[id]];
      }
      assert done == rows;
    }
  }

  function Inserted(rs: seq<FileRecord>, r: FileRecord): seq<FileRecord> {
    if rs == [] || r.fileId < rs[0].fileId then [r] + rs else [rs[0]] + Inserted(rs[1..], r)
  }

  lemma {:induction false} InsertedAscends(rs: seq<FileRecord>, r: FileRecord)
    requires Ascends(rs) && forall k :: 0 <= k < |rs| ==> rs[k].fileId != r.fileId
    ensures Ascends(Inserted(rs, r))
    ensures forall x :: x in Inserted(rs, r) <==> x == r || x in rs
  {
    if rs != [] && r.fileId > rs[0].fileId {
      InsertedAscends(rs[1..], r);
      assert rs == [rs[0]] + rs[1..];
      forall k | 0 <= k < |Inserted(rs[1..], r)| ensures rs[0].fileId < Inserted(rs[1..], r)[k].fileId {
        assert Inserted(rs[1..], r)[k] in Inserted(rs[1..], r);
      }
    }
  }
}
