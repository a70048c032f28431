/**
 The text the ledger snapshot is made of: quoted fields (`csv_escape` of ledger.rs and
 `split_csv_line` of reconcile.rs, quoting as in section 2 of RFC 4180), lines, and decimal
 integers.
 */
module Csv {
  import opened Wrappers
  import opened Bytes

  const NEWLINE: byte := 10
  const RETURN: byte := 13
  const QUOTE: byte := 34
  const COMMA: byte := 44
  const MINUS: byte := 45
  const PLUS: byte := 43
  const ZERO: byte := 48

  function Ascii(s: string): (b: bytes)
    requires forall k :: 0 <= k < |s| ==> s[k] as int < 256
    ensures |b| == |s| && forall k :: 0 <= k < |s| ==> b[k] == s[k] as int
  {
    seq(|s|, k requires 0 <= k < |s| => s[k] as int)
  }

  // ---- fields ----

  predicate Special(b: byte) {
    b == COMMA || b == QUOTE || b == NEWLINE
  }

  /** No comma, quote or newline: written as it is. */
  predicate Plain(s: bytes) {
    forall k :: 0 <= k < |s| ==> !Special(s[k])
  }

  /** `s.replace('"', "\"\"")` */
  function Doubled(s: bytes): bytes {
    if s == [] then [] else (if s[0] == QUOTE then [QUOTE, QUOTE] else [s[0]]) + Doubled(s[1..])
  }

  function Escape(s: bytes): bytes {
    if Plain(s) then s else [QUOTE] + Doubled(s) + [QUOTE]
  }

  function Line(fields: seq<bytes>): bytes
    requires fields != []
  {
    if |fields| == 1 then Escape(fields[0]) else Escape(fields[0]) + [COMMA] + Line(fields[1..])
  }

  /** The fields of the rest of a line, inside a field that so far reads `cur`. */
  function SplitRest(rest: bytes, cur: bytes, quoted: bool): seq<bytes>
    decreases |rest|
  {
    if rest == [] then [cur]
    else if rest[0] == QUOTE then
      if quoted && |rest| > 1 && rest[1] == QUOTE then SplitRest(rest[2..], cur + [QUOTE], true)
      else SplitRest(rest[1..], cur, !quoted)
    else if rest[0] == COMMA && !quoted then [cur] + SplitRest(rest[1..], [], false)
    else SplitRest(rest[1..], cur + [rest[0]], quoted)
  }

  function Split(line: bytes): seq<bytes> {
    SplitRest(line, [], false)
  }

  method SplitCsvLine(line: bytes) returns (fields: seq<bytes>)
    ensures fields == Split(line)
  {
    fields := [];
    var cur, quoted, i := [], false, 0;
    while i < |line|
      invariant 0 <= i <= |line|
      invariant fields + SplitRest(line[i..], cur, quoted) == Split(line)
    {
      var c := line[i];
      i := i + 1;
      assert line[i - 1..][1..] == line[i..];
      if c == QUOTE && quoted && i < |line| && line[i] == QUOTE {
        assert line[i - 1..][2..] == line[i + 1..];
        cur := cur + [QUOTE];
        i := i + 1;
      } else if c == QUOTE {
        quoted := !quoted;
      } else if c == COMMA && !quoted {
        fields, cur := fields + [cur], [];
      } else {
        cur := cur + [c];
      }
    }
    fields := fields + [cur];
  }

  // ---- what is escaped and joined is split again ----

  lemma {:induction false} PlainRun(s: bytes, rest: bytes, cur: bytes)
    requires Plain(s)
    ensures SplitRest(s + rest, cur, false) == SplitRest(rest, cur + s, false)
    decreases |s|
  {
    if s == [] {
      assert s + rest == rest && cur + s == cur;
    } else {
      assert (s + rest)[1..] == s[1..] + rest;
      PlainRun(s[1..], rest, cur + [s[0]]);
      assert cur + [s[0]] + s[1..] == cur + s;
    }
  }

  lemma {:induction false} QuotedRun(s: bytes, rest: bytes, cur: bytes)
    ensures SplitRest(Doubled(s) + rest, cur, true) == SplitRest(rest, cur + s, true)
    decreases |s|
  {
    if s == [] {
      assert Doubled(s) + rest == rest && cur + s == cur;
    } else {
      var head := if s[0] == QUOTE then [QUOTE, QUOTE] else [s[0]];
      var line, tail := Doubled(s) + rest, Doubled(s[1..]) + rest;
      assert line == head + tail;
      QuotedRun(s[1..], rest, cur + [s[0]]);
      assert cur + [s[0]] + s[1..] == cur + s;
      hide Doubled;
      assert line[|head|..] == tail;
    }
  }

  /** An escaped field is read back whole, up to the comma or the end of the line. */
  lemma EscapedRun(s: bytes, rest: bytes)
    requires rest == [] || rest[0] == COMMA
    ensures SplitRest(Escape(s) + rest, [], false) == SplitRest(rest, s, false)
  {
    if Plain(s) {
      PlainRun(s, rest, []);
      assert [] + s == s;
    } else {
      var tail := [QUOTE] + rest;
      assert Escape(s) + rest == [QUOTE] + (Doubled(s) + tail);
      assert (Escape(s) + rest)[1..] == Doubled(s) + tail;
      QuotedRun(s, tail, []);
      assert [] + s == s && tail[1..] == rest;
    }
  }

  /** Splitting a line of escaped fields gives the fields back, whatever they contain. */
  lemma {:induction false} SplitLine(fields: seq<bytes>)
    requires fields != []
    ensures Split(Line(fields)) == fields
  {
    if |fields| == 1 {
      EscapedRun(fields[0], []);
      assert Escape(fields[0]) + [] == Escape(fields[0]);
      assert fields == [fields[0]];
    } else {
      var rest := [COMMA] + Line(fields[1..]);
      EscapedRun(fields[0], rest);
      assert Escape(fields[0]) + rest == Line(fields);
      assert rest[1..] == Line(fields[1..]);
      SplitLine(fields[1..]);
      assert fields == [fields[0]] + fields[1..];
    }
  }

  // ---- lines ----

  predicate OneLine(s: bytes) {
    forall k :: 0 <= k < |s| ==> s[k] != NEWLINE
  }

  function NewlineAt(text: bytes): (k: nat)
    ensures k <= |text| && OneLine(text[..k]) && (k < |text| ==> text[k] == NEWLINE)
  {
    if text == [] || text[0] == NEWLINE then 0
    else
      var k := 1 + NewlineAt(text[1..]);
      assert text[..k] == [text[0]] + text[1..][..k - 1];
      k
  }

  function WithoutReturn(line: bytes): bytes {
    if line != [] && line[|line| - 1] == RETURN then line[..|line| - 1] else line
  }

  /** `str::lines`: a line ends at a newline, with a carriage return before it taken off. */
  function Lines(text: bytes): seq<bytes>
    decreases |text|
  {
    if text == [] then []
    else
      var k := NewlineAt(text);
      if k == |text| then [text] else [WithoutReturn(text[..k])] + Lines(text[k + 1..])
  }

  lemma NewlineIs(line: bytes, rest: bytes)
    requires OneLine(line)
    ensures NewlineAt(line + [NEWLINE] + rest) == |line|
  {
    var text := line + [NEWLINE] + rest;
    var k := NewlineAt(text);
    assert text[|line|] == NEWLINE;
    assert forall j :: 0 <= j < |line| ==> text[j] == line[j];
    assert forall j :: 0 <= j < k ==> text[..k][j] == text[j] != NEWLINE;
  }

  lemma FirstLine(line: bytes, rest: bytes)
    requires OneLine(line)
    ensures Lines(line + [NEWLINE] + rest) == [WithoutReturn(line)] + Lines(rest)
  {
    NewlineIs(line, rest);
    var text := line + [NEWLINE] + rest;
    assert text[..|line|] == line && text[|line| + 1..] == rest;
  }

  // ---- decimal integers ----

  predicate Digit(b: byte) {
    ZERO <= b < ZERO + 10
  }

  function Decimal(n: nat): (s: bytes)
    ensures s != [] && forall k :: 0 <= k < |s| ==> Digit(s[k])
    ensures s[0] == ZERO ==> n == 0 && |s| == 1
  {
    if n < 10 then [ZERO + n] else Decimal(n / 10) + [ZERO + n % 10]
  }

  function IntText(x: int): (s: bytes)
    ensures s != []
  {
    if x < 0 then [MINUS] + Decimal(-x) else Decimal(x)
  }

  function ParseDigits(s: bytes): Option<nat> {
    if s == [] || !Digit(s[|s| - 1]) then None
    else if |s| == 1 then Some(s[0] - ZERO)
    else
      match ParseDigits(s[..|s| - 1])
      case None => None
      case Some(v) => Some(10 * v + (s[|s| - 1] - ZERO))
  }

  function Negated(v: Option<int>): Option<int> {
    if v == None then None else Some(-v.value)
  }

  /** Digits with an optional sign. */
  function ParseInt(s: bytes): Option<int> {
    if s != [] && s[0] == MINUS then
      Negated(ParseDigits(s[1..]))
    else ParseDigits(if s != [] && s[0] == PLUS then s[1..] else s)
  }

  function ParseI64(s: bytes): Option<i64> {
    match ParseInt(s)
    case None => None
    case Some(v) => if -0x8000_0000_0000_0000 <= v < 0x8000_0000_0000_0000 then Some(v) else None
  }

  /** Unsigned: no minus sign, even before a zero. */
  function ParseU64(s: bytes): Option<u64> {
    if s != [] && s[0] == MINUS then None
    else
      match ParseInt(s)
      case None => None
      case Some(v) => if 0 <= v < U64 then Some(v) else None
  }

  lemma {:induction false} DigitsRoundTrip(n: nat)
    ensures ParseDigits(Decimal(n)) == Some(n)
  {
    if n >= 10 {
      DigitsRoundTrip(n / 10);
      assert Decimal(n)[..|Decimal(n)| - 1] == Decimal(n / 10);
    }
  }

  lemma IntRoundTrip(x: int)
    ensures ParseInt(IntText(x)) == Some(x) && Plain(IntText(x))
    ensures x >= 0 ==> Digit(IntText(x)[0])
  {
    hide Decimal, ParseDigits;
    if x < 0 {
      DigitsRoundTrip(-x);
      assert IntText(x)[1..] == Decimal(-x);
    } else {
      DigitsRoundTrip(x);
    }
  }

  /** A line may end in a carriage return and a newline. */
  lemma CrLf(line: bytes, rest: bytes)
    requires OneLine(line)
    ensures Lines(line + [13, 10] + rest) == [line] + Lines(rest)
  {
    assert line + [RETURN] + [NEWLINE] + rest == line + [13, 10] + rest;
    FirstLine(line + [RETURN], rest);
    assert (line + [RETURN])[..|line|] == line;
  }

  /** The last line need not end at all. */
  lemma LastLine(line: bytes)
    requires OneLine(line) && line != []
    ensures Lines(line) == [line]
  {
  }

  lemma {:induction false} DigitsMean(s: bytes)
    ensures ParseDigits(s).Some? <==> s != [] && forall k :: 0 <= k < |s| ==> '0' as int <= s[k] <= '9' as int
  {
    if s != [] && Digit(s[|s| - 1]) && |s| > 1 {
      DigitsMean(s[..|s| - 1]);
      assert forall k :: 0 <= k < |s| - 1 ==> s[..|s| - 1][k] == s[k];
    }
  }

  /** A number is digits after at most one sign; unsigned numbers take no minus; what does not fit is refused. */
  lemma NumbersMean(digits: bytes)
    ensures ParseInt([0x2B] + digits) == ParseDigits(digits)
    ensures ParseInt([0x2D] + digits) == Negated(ParseDigits(digits)) && ParseU64([0x2D] + digits) == None
    ensures digits == [] || (digits[0] != 0x2B && digits[0] != 0x2D) ==> ParseInt(digits) == ParseDigits(digits)
    ensures var v := ParseInt(digits);
      && (ParseU64(digits).Some? <==> v.Some? && 0 <= v.value < 0x1_0000_0000_0000_0000 && digits[0] != 0x2D)
      && (ParseI64(digits).Some? <==> v.Some? && -0x8000_0000_0000_0000 <= v.value < 0x8000_0000_0000_0000)
  {
    assert ([0x2B] + digits)[1..] == digits && ([0x2D] + digits)[1..] == digits;
    hide ParseDigits;
    assert digits == [] ==> ParseDigits(digits) == None by { NoDigits(); }
  }

  lemma NoDigits()
    ensures ParseDigits([]) == None
  {
  }

  /** A field is written as it is exactly when it has no comma, quote or newline; else between quotes. */
  lemma QuotedIff(s: bytes)
    ensures Escape(s) == s <==> forall k :: 0 <= k < |s| ==> s[k] !in {44, 34, 10}
    ensures Escape(s) != s ==> |Escape(s)| >= 2 && Escape(s)[0] == Escape(s)[|Escape(s)| - 1] == 34
  {
    DoubledLonger(s);
  }

  lemma {:induction false} DoubledLonger(s: bytes)
    ensures |Doubled(s)| >= |s|
  {
    if s != [] { DoubledLonger(s[1..]); }
  }

  lemma {:induction false} InQuotes(s: bytes, rest: bytes, cur: bytes)
    requires QUOTE !in s
    ensures SplitRest(s + rest, cur, true) == SplitRest(rest, cur + s, true)
    decreases |s|
  {
    if s == [] {
      assert s + rest == rest && cur + s == cur;
    } else {
      assert (s + rest)[1..] == s[1..] + rest;
      InQuotes(s[1..], rest, cur + [s[0]]);
      assert cur + [s[0]] + s[1..] == cur + s;
    }
  }

  /** Quotes may open and close anywhere in a field; what is between them, commas too, belongs to it. */
  lemma QuotesAnywhere(before: bytes, quoted: bytes, after: bytes, rest: bytes)
    requires Plain(before) && QUOTE !in quoted && Plain(after) && after != []
    ensures Split(before + [34] + quoted + [34] + after + [44] + rest) == [before + quoted + after] + Split(rest)
  {
    var tail := after + ([COMMA] + rest);
    var line := before + ([QUOTE] + (quoted + ([QUOTE] + tail)));
    assert line == before + [34] + quoted + [34] + after + [44] + rest;
    PlainRun(before, [QUOTE] + (quoted + ([QUOTE] + tail)), []);
    InQuotes(quoted, [QUOTE] + tail, before);
    PlainRun(after, [COMMA] + rest, before + quoted);
    hide SplitRest;
    assert [] + before == before;
    QuoteStep(quoted + ([QUOTE] + tail), before, false);
    assert tail[0] == after[0] != QUOTE;
    QuoteStep(tail, before + quoted, true);
    CommaStep(rest, before + quoted + after);
  }

  lemma QuoteStep(rest: bytes, cur: bytes, quoted: bool)
    requires quoted ==> rest != [] && rest[0] != QUOTE
    ensures SplitRest([QUOTE] + rest, cur, quoted) == SplitRest(rest, cur, !quoted)
  {
    assert ([QUOTE] + rest)[1..] == rest;
  }

  lemma CommaStep(rest: bytes, cur: bytes)
    ensures SplitRest([COMMA] + rest, cur, false) == [cur] + SplitRest(rest, [], false)
  {
    assert ([COMMA] + rest)[1..] == rest;
  }
}
