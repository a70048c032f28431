/**
 The ledger snapshot: written on the payload (`dump_csv` of ledger.rs), read on the ground
 (`parse_snapshot` of reconcile.rs). What is read back is what was written exactly when no
 file name contains a newline. Decimal nanoseconds stand in for the RFC 3339 text of times.
 */
module Snapshot {
  import opened Wrappers
  import opened Bytes
  import opened Errors
  import opened Csv
  import opened Ledger

  /** One row, as far as the reconciler cares. */
  datatype SnapshotRow = SnapshotRow(
    fileId: i64, fileName: bytes, fileSize: u64, createdAt: Option<int>, stillExists: bool, queuedAt: Option<int>)

  /** An unquoted word of length `n` starting with `c`. */
  ghost predicate Word(b: bytes, n: nat, c: char) {
    |b| == n > 0 && b[0] == c as int && Plain(b)
  }

  function FileId(): (c: bytes)
    ensures Word(c, 7, 'f')
  {
    Ascii("file_id")
  }

  function FileName(): (c: bytes)
    ensures Word(c, 9, 'f') && c[5] == 'n' as int
  {
    Ascii("file_name")
  }

  function FileSize(): (c: bytes)
    ensures Word(c, 9, 'f') && c[5] == 's' as int
  {
    Ascii("file_size")
  }

  function CreatedAt(): (c: bytes)
    ensures Word(c, 10, 'c')
  {
    Ascii("created_at")
  }

  function ImagesPerDark(): (c: bytes)
    ensures Word(c, 15, 'i')
  {
    Ascii("images_per_dark")
  }

  function ImagesPerFlat(): (c: bytes)
    ensures Word(c, 15, 'i')
  {
    Ascii("images_per_flat")
  }

  function ImagesPerBias(): (c: bytes)
    ensures Word(c, 15, 'i')
  {
    Ascii("images_per_bias")
  }

  function StillExists(): (c: bytes)
    ensures Word(c, 12, 's')
  {
    Ascii("still_exists")
  }

  function ChunkSize(): (c: bytes)
    ensures Word(c, 10, 'c')
  {
    Ascii("chunk_size")
  }

  function Sha256(): (c: bytes)
    ensures Word(c, 6, 's')
  {
    Ascii("sha256")
  }

  function QueuedAt(): (c: bytes)
    ensures Word(c, 9, 'q') && c[8] == 't' as int
  {
    Ascii("queued_at")
  }

  function Header(): (h: seq<bytes>)
    ensures |h| == 11
  {
    [FileId(), FileName(), FileSize(), CreatedAt(), ImagesPerDark(), ImagesPerFlat(),
     ImagesPerBias(), StillExists(), ChunkSize(), Sha256(), QueuedAt()]
  }

  // ---- writing ----

  function FlagText(b: bool): bytes {
    if b then Ascii("t") else Ascii("f")
  }

  function OptText(s: Option<bytes>): bytes {
    match s case None => [] case Some(x) => x
  }

  function TimeText(t: Option<int>): bytes {
    match t case None => [] case Some(x) => IntText(x)
  }

  /** The eleven columns of a row, before quoting. */
  function Fields(r: FileRecord): seq<bytes> {
    [IntText(r.fileId), r.fileName, IntText(r.fileSize), IntText(r.createdAt), IntText(r.imagesPerDark),
     IntText(r.imagesPerFlat), IntText(r.imagesPerBias), FlagText(r.stillExists), IntText(r.chunkSize),
     OptText(r.sha256), TimeText(r.queuedAt)]
  }

  /** Only the name is quoted. */
  function RowText(r: FileRecord): bytes {
    Joined(Fields(r)[1 := Escape(r.fileName)])
  }

  function Joined(fields: seq<bytes>): bytes
    requires fields != []
  {
    if |fields| == 1 then fields[0] else fields[0] + [COMMA] + Joined(fields[1..])
  }

  function RowsText(rs: seq<FileRecord>): bytes {
    if rs == [] then [] else RowText(rs[0]) + [NEWLINE] + RowsText(rs[1..])
  }

  function Dump(rs: seq<FileRecord>): bytes {
    Joined(Header()) + [NEWLINE] + RowsText(rs)
  }

  method DumpCsv(l: Ledger) returns (text: bytes, rs: seq<FileRecord>)
    requires l.Valid()
    ensures Listing(l.rows, rs) && text == Dump(rs)
  {
    hide RowText, Joined, Header;
    text := Joined(Header()) + [NEWLINE];
    rs := l.All();
    for k := 0 to |rs|
      invariant text + RowsText(rs[k..]) == Dump(rs)
    {
      assert rs[k..][1..] == rs[k + 1..];
      ghost var before := text;
      text := text + (RowText(rs[k]) + [NEWLINE]);
      assert before + (RowText(rs[k]) + [NEWLINE] + RowsText(rs[k + 1..])) == text + RowsText(rs[k + 1..]);
    }
  }

  // ---- reading ----

  function Position(cols: seq<bytes>, name: bytes): (i: Option<nat>)
    ensures i.Some? ==> i.value < |cols| && cols[i.value] == name
  {
    if cols == [] then None
    else if cols[0] == name then Some(0)
    else match Position(cols[1..], name) case None => None case Some(i) => Some(i + 1)
  }

  /** Where each column stands; the last three may be absent in snapshots of older senders. */
  datatype Columns = Columns(id: nat, name: nat, size: nat, created: Option<nat>, exists': Option<nat>,
      queued: Option<nat>)

  function FindColumns(cols: seq<bytes>): Result<Columns, Error> {
    var id, name, size := Position(cols, FileId()), Position(cols, FileName()), Position(cols, FileSize());
    if id == None || name == None || size == None then Failure(BadConfig)
    else Success(Columns(id.value, name.value, size.value, Position(cols, CreatedAt()),
                         Position(cols, StillExists()), Position(cols, QueuedAt())))
  }

  function At(f: seq<bytes>, i: Option<nat>): Option<bytes> {
    if i.Some? && i.value < |f| then Some(f[i.value]) else None
  }

  /** An absent, empty or unreadable time is no time. */
  function ReadTime(f: seq<bytes>, i: Option<nat>): Option<int> {
    match At(f, i)
    case None => None
    case Some(s) => if s == [] then None else ParseInt(s)
  }

  function ReadFlag(f: seq<bytes>, i: Option<nat>): bool {
    match At(f, i)
    case None => true
    case Some(s) => s != Ascii("f") && s != Ascii("0") && s != Ascii("false")
  }

  function ParseRow(f: seq<bytes>, cols: Columns): Result<SnapshotRow, Error> {
    var id := match At(f, Some(cols.id)) case None => None case Some(s) => ParseI64(s);
    var name := At(f, Some(cols.name));
    var size := match At(f, Some(cols.size)) case None => None case Some(s) => ParseU64(s);
    if id == None || name == None || size == None then Failure(BadConfig)
    else Success(SnapshotRow(id.value, name.value, size.value, ReadTime(f, cols.created),
                             ReadFlag(f, cols.exists'), ReadTime(f, cols.queued)))
  }

  /** Nothing but white space. */
  predicate Blank(line: bytes) {
    forall k :: 0 <= k < |line| ==> line[k] == 32 || 9 <= line[k] <= 13
  }

  function NonBlank(lines: seq<bytes>): seq<bytes> {
    if lines == [] then [] else (if Blank(lines[0]) then [] else [lines[0]]) + NonBlank(lines[1..])
  }

  /** The first malformed row ends it. */
  function ParseRows(lines: seq<bytes>, cols: Columns): Result<seq<SnapshotRow>, Error> {
    if lines == [] then Success([])
    else
      match ParseRow(Split(lines[0]), cols)
      case Failure(e) => Failure(e)
      case Success(row) => Following([row], ParseRows(lines[1..], cols))
  }

  function Following(rows: seq<SnapshotRow>, rest: Result<seq<SnapshotRow>, Error>): Result<seq<SnapshotRow>, Error> {
    match rest
    case Failure(e) => Failure(e)
    case Success(more) => Success(rows + more)
  }

  function Parse(text: bytes): Result<seq<SnapshotRow>, Error> {
    var lines := NonBlank(Lines(text));
    if lines == [] then Failure(BadConfig)
    else
      match FindColumns(Split(lines[0]))
      case Failure(e) => Failure(e)
      case Success(cols) => ParseRows(lines[1..], cols)
  }

  lemma FollowingNone(rest: Result<seq<SnapshotRow>, Error>)
    ensures Following([], rest) == rest
  {
    if rest.Success? { assert [] + rest.value == rest.value; }
  }

  lemma FollowingTwice(rows: seq<SnapshotRow>, row: SnapshotRow, rest: Result<seq<SnapshotRow>, Error>)
    ensures Following(rows, Following([row], rest)) == Following(rows + [row], rest)
  {
    if rest.Success? { assert rows + ([row] + rest.value) == rows + [row] + rest.value; }
  }

  method ParseSnapshot(text: bytes) returns (r: Result<seq<SnapshotRow>, Error>)
    ensures r == Parse(text)
  {
    hide Lines, Split, FindColumns, ParseRow;
    var lines := NonBlank(Lines(text));
    if lines == [] { return Failure(BadConfig); }
    var header := SplitCsvLine(lines[0]);
    var cols := FindColumns(header);
    if cols.Failure? { return Failure(cols.error); }
    var rows: seq<SnapshotRow> := [];
    FollowingNone(ParseRows(lines[1..], cols.value));
    for k := 1 to |lines|
      invariant ParseRows(lines[1..], cols.value) == Following(rows, ParseRows(lines[k..], cols.value))
    {
      var f := SplitCsvLine(lines[k]);
      assert lines[k..][1..] == lines[k + 1..];
      var row := ParseRow(f, cols.value);
      if row.Failure? { return Failure(row.error); }
      FollowingTwice(rows, row.value, ParseRows(lines[k + 1..], cols.value));
      rows := rows + [row.value];
    }
    assert rows + [] == rows;
    r := Success(rows);
  }

  // ---- the round trip ----

  function RowOf(r: FileRecord): SnapshotRow {
    SnapshotRow(r.fileId, r.fileName, r.fileSize, Some(r.createdAt), r.stillExists, r.queuedAt)
  }

  function RowsOf(rs: seq<FileRecord>): (rows: seq<SnapshotRow>)
    ensures |rows| == |rs| && forall k :: 0 <= k < |rs| ==> rows[k] == RowOf(rs[k])
  {
    seq(|rs|, k requires 0 <= k < |rs| => RowOf(rs[k]))
  }

  predicate AllPlain(fields: seq<bytes>) {
    forall k :: 0 <= k < |fields| ==> Plain(fields[k])
  }

  /** Text that needs no quoting reads the same written with quoting. */
  lemma {:induction false} PlainJoined(fields: seq<bytes>)
    requires fields != [] && AllPlain(fields)
    ensures Joined(fields) == Line(fields)
  {
    if |fields| > 1 { PlainJoined(fields[1..]); }
  }

  /** A hash is a hex digest. */
  predicate PlainHash(r: FileRecord) {
    Plain(OptText(r.sha256))
  }

  lemma PlainFields(r: FileRecord)
    requires PlainHash(r)
    ensures forall k :: 0 <= k < 11 && k != 1 ==> Plain(Fields(r)[k])
  {
    IntRoundTrip(r.fileId);
    IntRoundTrip(r.fileSize);
    IntRoundTrip(r.createdAt);
    IntRoundTrip(r.imagesPerDark);
    IntRoundTrip(r.imagesPerFlat);
    IntRoundTrip(r.imagesPerBias);
    IntRoundTrip(r.chunkSize);
    if r.queuedAt.Some? { IntRoundTrip(r.queuedAt.value); }
    hide IntText, Plain;
    assert Plain([]) && Plain(FlagText(r.stillExists)) by { PlainFlag(r.stillExists); }
  }

  lemma PlainFlag(b: bool)
    ensures Plain([]) && Plain(FlagText(b))
  {
  }

  /** Quoting only the second field is quoting every field, when the others need no quoting. */
  lemma OneQuoted(fs: seq<bytes>)
    requires |fs| > 2 && forall k :: 0 <= k < |fs| && k != 1 ==> Plain(fs[k])
    ensures var text := Joined(fs[1 := Escape(fs[1])]);
      text == Line(fs) && text == fs[0] + [COMMA] + (Escape(fs[1]) + [COMMA] + Joined(fs[2..]))
  {
    hide Plain, Escape;
    var tail := fs[2..];
    assert AllPlain(tail) by { assert forall k :: 0 <= k < |tail| ==> tail[k] == fs[k + 2]; }
    PlainJoined(tail);
    EscapePlain(fs[0]);
    var written := fs[1 := Escape(fs[1])];
    assert written[1..] == [Escape(fs[1])] + tail && written[1..][1..] == tail;
    assert Joined(written[1..]) == Escape(fs[1]) + [COMMA] + Joined(tail);
    assert fs[1..][1..] == tail;
    assert Line(fs[1..]) == Escape(fs[1]) + [COMMA] + Line(tail);
  }

  /** A written row is its fields, each quoted where it must be. */
  lemma RowIsLine(r: FileRecord)
    requires PlainHash(r)
    ensures RowText(r) == Line(Fields(r))
    ensures RowText(r) == IntText(r.fileId) + [COMMA] + (Escape(r.fileName) + [COMMA] + Joined(Fields(r)[2..]))
  {
    PlainFields(r);
    assert Fields(r)[0] == IntText(r.fileId) && Fields(r)[1] == r.fileName;
    OneQuoted(Fields(r));
  }

  lemma EscapePlain(s: bytes)
    ensures Plain(s) ==> Escape(s) == s
  {
  }

  // ---- the header is found ----

  const COLUMNS := Columns(0, 1, 2, Some(3), Some(7), Some(10))

  ghost predicate FirstAt(cols: seq<bytes>, name: bytes, i: nat) {
    i < |cols| && cols[i] == name && forall k :: 0 <= k < i ==> cols[k] != name
  }

  lemma {:induction false} FirstIsPosition(cols: seq<bytes>, name: bytes, i: nat)
    requires FirstAt(cols, name, i)
    ensures Position(cols, name) == Some(i)
  {
    if i > 0 { FirstIsPosition(cols[1..], name, i - 1); }
  }

  lemma HeaderFound()
    ensures FindColumns(Header()) == Success(COLUMNS)
  {
    hide FileId, FileName, FileSize, CreatedAt, ImagesPerDark, ImagesPerFlat, ImagesPerBias, StillExists;
    hide ChunkSize, Sha256, QueuedAt;
    hide Position, Plain;
    var h := Header();
    FirstIsPosition(h, FileId(), 0);
    FirstIsPosition(h, FileName(), 1);
    FirstIsPosition(h, FileSize(), 2);
    FirstIsPosition(h, CreatedAt(), 3);
    FirstIsPosition(h, StillExists(), 7);
    FirstIsPosition(h, QueuedAt(), 10);
  }

  lemma HeaderPlain()
    ensures AllPlain(Header()) && Header()[0] == FileId() && Header()[10] == QueuedAt()
  {
    hide FileId, FileName, FileSize, CreatedAt, ImagesPerDark, ImagesPerFlat, ImagesPerBias, StillExists;
    hide ChunkSize, Sha256, QueuedAt;
    hide Plain;
  }

  /** A visible byte: neither white space nor a line ending. */
  predicate Visible(b: byte) {
    b > 32
  }

  /** A line of plain fields, visible at both ends, survives being cut out of a text and split. */
  lemma PlainLine(fields: seq<bytes>)
    requires fields != [] && AllPlain(fields) && fields[0] != [] && Visible(fields[0][0])
    requires var last := fields[|fields| - 1]; last != [] && Visible(last[|last| - 1])
    ensures var text := Joined(fields);
      Split(text) == fields && OneLine(text) && !Blank(text) && WithoutReturn(text) == text
  {
    PlainJoined(fields);
    SplitLine(fields);
    hide Joined, Line, Split;
    OneLineJoined(fields);
    FirstByte(fields);
    LastByte(fields);
  }

  lemma HeaderSplits()
    ensures var text := Joined(Header());
      Split(text) == Header() && OneLine(text) && !Blank(text) && WithoutReturn(text) == text
  {
    HeaderPlain();
    hide Header, FileId, QueuedAt;
    PlainLine(Header());
  }

  lemma {:induction false} OneLineJoined(fields: seq<bytes>)
    requires fields != [] && forall k :: 0 <= k < |fields| ==> OneLine(fields[k])
    ensures OneLine(Joined(fields))
  {
    if |fields| > 1 { OneLineJoined(fields[1..]); }
  }

  lemma FirstByte(fields: seq<bytes>)
    requires fields != [] && fields[0] != []
    ensures Joined(fields) != [] && Joined(fields)[0] == fields[0][0]
  {
  }

  /** A joined line ends as its last field does, or in a comma. */
  lemma {:induction false} LastByte(fields: seq<bytes>)
    requires fields != []
    ensures var last, text := fields[|fields| - 1], Joined(fields);
      if last != [] then text != [] && text[|text| - 1] == last[|last| - 1]
      else |fields| > 1 ==> text != [] && text[|text| - 1] == COMMA
  {
    if |fields| > 1 { LastByte(fields[1..]); }
  }

  // ---- one row ----

  lemma FieldsRead(r: FileRecord)
    ensures ParseRow(Fields(r), COLUMNS) == Success(RowOf(r))
  {
    var f := Fields(r);
    assert f[0] == IntText(r.fileId) && f[1] == r.fileName && f[2] == IntText(r.fileSize);
    assert f[3] == IntText(r.createdAt) && f[7] == FlagText(r.stillExists) && f[10] == TimeText(r.queuedAt);
    assert |f| == 11;
    hide Fields, IntText, ParseInt, FlagText, ParseI64, ParseU64;
    NumbersRead(r.fileId, r.fileSize);
    TimesRead(f, r);
    FlagRead(r.stillExists);
  }

  /** The columns the reconciler does not look at read back too, and the flag is a letter. */
  lemma OtherColumnsRead(r: FileRecord)
    requires PlainHash(r) && OneLine(r.fileName)
    ensures var f := Split(RowText(r));
      && |f| == |Header()| == 11 && f[1] == r.fileName && (r.sha256.Some? ==> f[9] == r.sha256.value)
      && ParseInt(f[4]) == Some(r.imagesPerDark) && ParseInt(f[5]) == Some(r.imagesPerFlat)
      && ParseInt(f[6]) == Some(r.imagesPerBias) && ParseInt(f[8]) == Some(r.chunkSize)
      && (r.sha256.None? ==> f[9] == []) && f[7] == (if r.stillExists then [116] else [102])
  {
    hide Split, RowText, IntText, ParseInt, Header;
    GoodRow(r);
    assert |Fields(r)| == 11;
    assert Ascii("t") == [116] && Ascii("f") == [102];
    IntRoundTrip(r.imagesPerDark);
    IntRoundTrip(r.imagesPerFlat);
    IntRoundTrip(r.imagesPerBias);
    IntRoundTrip(r.chunkSize);
  }

  /** The names of the columns, in order. */
  lemma HeaderNames()
    ensures Header() == [Ascii("file_id"), Ascii("file_name"), Ascii("file_size"), Ascii("created_at"),
      Ascii("images_per_dark"), Ascii("images_per_flat"), Ascii("images_per_bias"), Ascii("still_exists"),
      Ascii("chunk_size"), Ascii("sha256"), Ascii("queued_at")]
  {
  }

  lemma NumbersRead(id: i64, size: u64)
    ensures ParseI64(IntText(id)) == Some(id) && ParseU64(IntText(size)) == Some(size)
  {
    IntRoundTrip(id);
    IntRoundTrip(size);
    hide IntText, ParseInt;
  }

  lemma TimesRead(f: seq<bytes>, r: FileRecord)
    requires |f| == 11 && f[3] == IntText(r.createdAt) && f[10] == TimeText(r.queuedAt)
    ensures ReadTime(f, Some(3)) == Some(r.createdAt) && ReadTime(f, Some(10)) == r.queuedAt
  {
    IntRoundTrip(r.createdAt);
    if r.queuedAt.Some? { IntRoundTrip(r.queuedAt.value); }
    hide IntText, ParseInt;
  }

  lemma FlagRead(b: bool)
    ensures (FlagText(b) != Ascii("f") && FlagText(b) != Ascii("0") && FlagText(b) != Ascii("false")) <==> b
  {
    if b { assert FlagText(b)[0] == 't' as int; }
  }

  lemma {:induction false} DoubledOneLine(s: bytes)
    ensures OneLine(s) <==> OneLine(Doubled(s))
  {
    if s != [] {
      DoubledOneLine(s[1..]);
      var head := if s[0] == QUOTE then [QUOTE, QUOTE] else [s[0]];
      assert Doubled(s)[|head|..] == Doubled(s[1..]);
      assert OneLine(s) <==> s[0] != NEWLINE && OneLine(s[1..]) by { assert s == [s[0]] + s[1..]; }
      OneLineConcat(head, Doubled(s[1..]));
      assert OneLine(Doubled(s)) <==> OneLine(head) && OneLine(Doubled(s[1..]));
      assert head[0] == s[0];
    }
  }

  lemma OneLineConcat(a: bytes, b: bytes)
    ensures OneLine(a + b) <==> OneLine(a) && OneLine(b)
  {
    var c := a + b;
    if OneLine(c) {
      assert forall k :: 0 <= k < |a| ==> a[k] == c[k];
      assert forall k :: 0 <= k < |b| ==> b[k] == c[|a| + k];
    }
  }

  lemma EscapedOneLine(s: bytes)
    requires OneLine(s)
    ensures OneLine(Escape(s))
  {
    DoubledOneLine(s);
  }

  /** Quoting the second field leaves one line, which splits into the fields. */
  lemma QuotedLine(fs: seq<bytes>)
    requires |fs| > 2 && (forall k :: 0 <= k < |fs| && k != 1 ==> Plain(fs[k])) && OneLine(fs[1])
    requires fs[0] != [] && Visible(fs[0][0])
    requires var last := fs[|fs| - 1]; last != [] ==> Visible(last[|last| - 1])
    ensures var text := Joined(fs[1 := Escape(fs[1])]);
      Split(text) == fs && OneLine(text) && !Blank(text) && WithoutReturn(text) == text
  {
    OneQuoted(fs);
    SplitLine(fs);
    var written := fs[1 := Escape(fs[1])];
    EscapedOneLine(fs[1]);
    hide Split, Line, Escape, Joined;
    OneLineJoined(written);
    FirstByte(written);
    LastByte(written);
  }

  /** The text of a row whose name has no newline is one line, and splits into its fields. */
  lemma GoodRow(r: FileRecord)
    requires PlainHash(r) && OneLine(r.fileName)
    ensures var text := RowText(r);
      Split(text) == Fields(r) && OneLine(text) && !Blank(text) && WithoutReturn(text) == text
  {
    PlainFields(r);
    RowEnds(r);
    assert |Fields(r)| == 11 && Fields(r)[1] == r.fileName;
    hide Fields, Split, Escape, Joined, Blank, OneLine, Visible, Plain, WithoutReturn;
    QuotedLine(Fields(r));
  }

  lemma RowEnds(r: FileRecord)
    ensures var f := Fields(r);
      f[0] != [] && Visible(f[0][0]) && (f[10] != [] ==> Visible(f[10][|f[10]| - 1])) && Visible(COMMA)
  {
    var f := Fields(r);
    assert f[0] == IntText(r.fileId) && f[10] == TimeText(r.queuedAt);
    IntVisible(r.fileId);
    if r.queuedAt.Some? { IntVisible(r.queuedAt.value); }
  }

  lemma IntVisible(x: int)
    ensures forall k :: 0 <= k < |IntText(x)| ==> Visible(IntText(x)[k])
  {
  }

  /** A row whose name has a newline is cut there, and the part before it has two fields. */
  lemma BadRow(r: FileRecord, rest: bytes) returns (line: bytes, tail: bytes)
    requires PlainHash(r) && !OneLine(r.fileName)
    ensures Lines(RowText(r) + [NEWLINE] + rest) == [line] + Lines(tail)
    ensures !Blank(line) && |Split(line)| == 2
  {
    var stub, more := CutRow(r);
    var pre := IntText(r.fileId) + [COMMA] + ([QUOTE] + Doubled(stub));
    tail := more + [NEWLINE] + rest;
    hide Doubled, RowText, Lines;
    assert RowText(r) + [NEWLINE] + rest == pre + [NEWLINE] + tail;
    StubLine(IntText(r.fileId), stub);
    IntRoundTrip(r.fileId);
    FirstLine(pre, tail);
    line := WithoutReturn(pre);
    StubSplits(r.fileId, stub);
  }

  /** Where the first newline of the name cuts the text of its row. */
  lemma CutRow(r: FileRecord) returns (stub: bytes, more: bytes)
    requires PlainHash(r) && !OneLine(r.fileName)
    ensures OneLine(stub) && RowText(r) == IntText(r.fileId) + [COMMA] + ([QUOTE] + Doubled(stub)) + [NEWLINE] + more
  {
    var k := NewlineAt(r.fileName);
    NotOneLine(r.fileName);
    stub := r.fileName[..k];
    RowIsLine(r);
    DoubledAround(r.fileName, k);
    assert !Plain(r.fileName) by { assert r.fileName[k] == NEWLINE; }
    var id, after, end := IntText(r.fileId), Doubled(r.fileName[k + 1..]), Joined(Fields(r)[2..]);
    more := after + [QUOTE] + ([COMMA] + end);
    assert Escape(r.fileName) == [QUOTE] + (Doubled(stub) + [NEWLINE] + after) + [QUOTE];
    hide Joined, Doubled, Fields, RowText, Escape, Plain;
    Regroup(id, Doubled(stub), after, end);
  }

  lemma Regroup(id: bytes, stub: bytes, after: bytes, end: bytes)
    ensures id + [COMMA] + ([QUOTE] + (stub + [NEWLINE] + after) + [QUOTE] + [COMMA] + end)
      == id + [COMMA] + ([QUOTE] + stub) + [NEWLINE] + (after + [QUOTE] + ([COMMA] + end))
  {
  }

  lemma NotOneLine(s: bytes)
    requires !OneLine(s)
    ensures NewlineAt(s) < |s|
  {
    assert s[..|s|] == s;
  }

  lemma {:induction false} DoubledConcat(a: bytes, b: bytes)
    ensures Doubled(a + b) == Doubled(a) + Doubled(b)
  {
    if a == [] {
      assert a + b == b;
    } else {
      assert (a + b)[1..] == a[1..] + b;
      DoubledConcat(a[1..], b);
    }
  }

  lemma DoubledAround(s: bytes, k: nat)
    requires k < |s| && s[k] == NEWLINE
    ensures Doubled(s) == Doubled(s[..k]) + [NEWLINE] + Doubled(s[k + 1..])
  {
    assert s == s[..k] + s[k..] && s[k..][1..] == s[k + 1..];
    DoubledConcat(s[..k], s[k..]);
  }

  lemma StubLine(id: bytes, stub: bytes)
    requires OneLine(stub)
    ensures Plain(id) ==> OneLine(id + [COMMA] + ([QUOTE] + Doubled(stub)))
  {
    DoubledOneLine(stub);
  }

  /** An opened quote that never closes leaves two fields, also after a carriage return is taken off. */
  lemma StubSplits(x: int, stub: bytes)
    ensures var line := WithoutReturn(IntText(x) + [COMMA] + ([QUOTE] + Doubled(stub)));
      !Blank(line) && |Split(line)| == 2
  {
    var id := IntText(x);
    IntRoundTrip(x);
    IntVisible(x);
    var pre := id + [COMMA] + ([QUOTE] + Doubled(stub));
    DoubledLast(stub);
    hide IntText, Doubled, Plain, Csv.Split;
    var kept := if pre[|pre| - 1] == RETURN then stub[..|stub| - 1] else stub;
    var line := id + [COMMA] + ([QUOTE] + Doubled(kept));
    assert line == WithoutReturn(pre);
    assert line[0] == id[0];
    TwoFields(id, kept);
  }

  lemma TwoFields(id: bytes, kept: bytes)
    requires Plain(id)
    ensures Split(id + [COMMA] + ([QUOTE] + Doubled(kept))) == [id, kept]
  {
    var quoted := [QUOTE] + Doubled(kept);
    var rest := [COMMA] + quoted;
    assert id + [COMMA] + quoted == id + rest;
    PlainRun(id, rest, []);
    assert [] + id == id && rest[1..] == quoted && quoted[1..] == Doubled(kept) + [];
    QuotedRun(kept, [], []);
    assert [] + kept == kept;
  }

  /** Doubling keeps the last byte. */
  lemma DoubledLast(s: bytes)
    ensures s != [] ==> Doubled(s) != [] && Doubled(s)[|Doubled(s)| - 1] == s[|s| - 1]
    ensures s != [] && s[|s| - 1] == RETURN ==> Doubled(s) == Doubled(s[..|s| - 1]) + [RETURN]
    ensures s == [] ==> Doubled(s) == []
  {
    if s != [] {
      var last := s[|s| - 1..];
      assert s == s[..|s| - 1] + last && last[1..] == [];
      DoubledConcat(s[..|s| - 1], last);
    }
  }

  // ---- the whole snapshot ----

  predicate NamesOneLine(rs: seq<FileRecord>) {
    forall k :: 0 <= k < |rs| ==> OneLine(rs[k].fileName)
  }

  ghost predicate HashesPlain(rs: seq<FileRecord>) {
    forall k :: 0 <= k < |rs| ==> PlainHash(rs[k])
  }

  lemma {:induction false} RowsRead(rs: seq<FileRecord>)
    requires HashesPlain(rs)
    ensures ParseRows(NonBlank(Lines(RowsText(rs))), COLUMNS)
      == if NamesOneLine(rs) then Success(RowsOf(rs)) else Failure(BadConfig)
  {
    hide Lines, NonBlank, ParseRows, RowText, OneLine, NamesOneLine, RowsText, PlainHash, RowsOf, Following;
    if rs == [] {
      NoRowsRead();
    } else {
      RowsRead(rs[1..]);
      NamesSplit(rs);
      if OneLine(rs[0].fileName) {
        GoodFirst(rs);
        FollowedBy(rs);
      } else {
        BadFirst(rs);
      }
    }
  }

  lemma FollowedBy(rs: seq<FileRecord>)
    requires rs != []
    ensures Following([RowOf(rs[0])], Success(RowsOf(rs[1..]))) == Success(RowsOf(rs))
    ensures Following([RowOf(rs[0])], Failure(BadConfig)) == Failure(BadConfig)
  {
    assert RowsOf(rs) == [RowOf(rs[0])] + RowsOf(rs[1..]);
  }

  lemma NoRowsRead()
    ensures ParseRows(NonBlank(Lines(RowsText([]))), COLUMNS) == Success(RowsOf([])) && NamesOneLine([])
  {
    assert RowsOf([]) == [];
  }

  lemma LinesKept(line: bytes, rest: seq<bytes>)
    requires !Blank(line)
    ensures NonBlank([line] + rest) == [line] + NonBlank(rest)
  {
    assert ([line] + rest)[1..] == rest;
  }

  lemma FirstRowRead(line: bytes, rest: seq<bytes>, cols: Columns)
    ensures var first := ParseRow(Split(line), cols);
      && (first.Failure? ==> ParseRows([line] + rest, cols) == Failure(first.error))
      && (first.Success? ==> ParseRows([line] + rest, cols) == Following([first.value], ParseRows(rest, cols)))
  {
    hide ParseRow, Split;
    assert ([line] + rest)[1..] == rest;
  }

  lemma GoodFirst(rs: seq<FileRecord>)
    requires rs != [] && HashesPlain(rs) && OneLine(rs[0].fileName)
    ensures ParseRows(NonBlank(Lines(RowsText(rs))), COLUMNS)
      == Following([RowOf(rs[0])], ParseRows(NonBlank(Lines(RowsText(rs[1..]))), COLUMNS))
  {
    hide RowText, Lines, Split, ParseRow, WithoutReturn, Blank, Fields, NonBlank, ParseRows, OneLine;
    var rest := RowsText(rs[1..]);
    GoodRow(rs[0]);
    FieldsRead(rs[0]);
    FirstLine(RowText(rs[0]), rest);
    LinesKept(RowText(rs[0]), Lines(rest));
    FirstRowRead(RowText(rs[0]), NonBlank(Lines(rest)), COLUMNS);
  }

  lemma BadFirst(rs: seq<FileRecord>)
    requires rs != [] && HashesPlain(rs) && !OneLine(rs[0].fileName)
    ensures ParseRows(NonBlank(Lines(RowsText(rs))), COLUMNS) == Failure(BadConfig)
  {
    hide RowText, Lines, Split, ParseRow, Blank, NonBlank, ParseRows, OneLine;
    var line, tail := BadRow(rs[0], RowsText(rs[1..]));
    LinesKept(line, Lines(tail));
    ShortRow(Split(line));
    FirstRowRead(line, NonBlank(Lines(tail)), COLUMNS);
  }

  lemma NamesSplit(rs: seq<FileRecord>)
    requires rs != []
    ensures NamesOneLine(rs) <==> OneLine(rs[0].fileName) && NamesOneLine(rs[1..])
  {
    hide OneLine;
    assert rs == [rs[0]] + rs[1..];
  }

  lemma ShortRow(f: seq<bytes>)
    requires |f| == 2
    ensures ParseRow(f, COLUMNS) == Failure(BadConfig)
  {
  }

  /**
   Reading the dumped ledger gives every row back if no file name contains a newline, and an
   error if one does: lines are cut before quotes are looked at.
   */
  lemma DumpRoundTrip(rs: seq<FileRecord>)
    requires HashesPlain(rs)
    ensures Parse(Dump(rs)) == if NamesOneLine(rs) then Success(RowsOf(rs)) else Failure(BadConfig)
  {
    var header := Joined(Header());
    HeaderSplits();
    HeaderFound();
    RowsRead(rs);
    hide Header, Joined, Lines, Split, WithoutReturn, Blank, FindColumns;
    FirstLine(header, RowsText(rs));
    LinesKept(header, Lines(RowsText(rs)));
    assert NonBlank(Lines(Dump(rs)))[1..] == NonBlank(Lines(RowsText(rs)));
  }

  // ---- what else may be read ----

  /** Blank lines between the others make no difference. */
  lemma {:induction false} BlankSkipped(before: seq<bytes>, blank: bytes, after: seq<bytes>)
    requires forall k :: 0 <= k < |blank| ==> blank[k] in {9, 10, 11, 12, 13, 32}
    ensures NonBlank(before + [blank] + after) == NonBlank(before + after)
    decreases |before|
  {
    if before == [] {
      assert [] + [blank] + after == [blank] + after && ([blank] + after)[1..] == after && [] + after == after;
      assert Blank(blank);
    } else {
      assert (before + [blank] + after)[1..] == before[1..] + [blank] + after;
      assert (before + after)[1..] == before[1..] + after;
      BlankSkipped(before[1..], blank, after);
    }
  }

  /** A visible character keeps its line. */
  lemma VisibleKept(line: bytes, k: nat, rest: seq<bytes>)
    requires k < |line| && line[k] !in {9, 10, 11, 12, 13, 32}
    ensures NonBlank([line] + rest) == [line] + NonBlank(rest)
  {
    LinesKept(line, rest);
  }

  /** A header serves exactly when the three columns nothing can do without are there. */
  lemma HeaderServes(cols: seq<bytes>)
    ensures FindColumns(cols).Success? <==>
      Ascii("file_id") in cols && Ascii("file_name") in cols && Ascii("file_size") in cols
  {
    PositionIff(cols, FileId());
    PositionIff(cols, FileName());
    PositionIff(cols, FileSize());
    hide Position;
  }

  lemma {:induction false} PositionIff(cols: seq<bytes>, name: bytes)
    ensures Position(cols, name).Some? <==> name in cols
  {
    if cols != [] {
      PositionIff(cols[1..], name);
      assert cols == [cols[0]] + cols[1..];
    }
  }

  /** A row is read exactly when its id and size are numbers that fit and its name is there, and carries them. */
  lemma RowMeans(f: seq<bytes>, cols: Columns)
    ensures ParseRow(f, cols).Success? <==>
      && cols.id < |f| && cols.name < |f| && cols.size < |f|
      && ParseI64(f[cols.id]).Some? && ParseU64(f[cols.size]).Some?
    ensures ParseRow(f, cols).Success? ==>
      var row := ParseRow(f, cols).value;
      && Some(row.fileId) == ParseI64(f[cols.id]) && row.fileName == f[cols.name]
      && Some(row.fileSize) == ParseU64(f[cols.size])
  {
    hide ParseI64, ParseU64, ReadTime, ReadFlag;
  }

  lemma EmptyIsNoNumber()
    ensures ParseInt([]) == None
  {
  }

  /** Columns an older sender did not write: the file exists and has no times; nor has it an unreadable one. */
  lemma OlderRow(f: seq<bytes>, cols: Columns)
    requires ParseRow(f, cols).Success?
    ensures var row := ParseRow(f, cols).value;
      && (cols.exists' == None ==> row.stillExists) && (cols.created == None ==> row.createdAt == None)
      && (cols.queued == None ==> row.queuedAt == None)
      && (cols.created.Some? && cols.created.value < |f| ==> row.createdAt == ParseInt(f[cols.created.value]))
      && (cols.queued.Some? && cols.queued.value < |f| ==> row.queuedAt == ParseInt(f[cols.queued.value]))
      && (cols.exists'.Some? && cols.exists'.value < |f| ==>
          (row.stillExists <==> f[cols.exists'.value] !in {[102], [48], [102, 97, 108, 115, 101]}))
  {
    hide ParseI64, ParseU64, ParseInt;
    EmptyIsNoNumber();
    assert Ascii("f") == [102] && Ascii("0") == [48] && Ascii("false") == [102, 97, 108, 115, 101];
  }
}
