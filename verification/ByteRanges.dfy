/**
 Serving stored video bytes: the Range header as section 14.1.2 of RFC 9110 writes a single byte
 range, the two parsers of it, and the bodies they lead to. An unusable Range is answered with 416.
 */
module ByteRanges {
  import opened Wrappers
  import opened JsText

  type Byte = bv8

  const MAX_SAFE_INTEGER := 0x1F_FFFF_FFFF_FFFF
  const BYTES := "bytes="

  // ---------------------------------------------------------------- /^bytes=(\d*)-(\d*)$/

  predicate IsDigit(c: char) { '0' <= c <= '9' }

  predicate AllDigits(s: string) {
    forall i :: 0 <= i < |s| ==> IsDigit(s[i])
  }

  /** The greedy `\d*` at the start of a string. */
  function DigitRun(s: string): (n: nat)
    ensures n <= |s|
  {
    if s != "" && IsDigit(s[0]) then DigitRun(s[1..]) + 1 else 0
  }

  lemma {:induction false} DigitRunIsMaximal(s: string)
    ensures AllDigits(s[..DigitRun(s)]) && (DigitRun(s) < |s| ==> !IsDigit(s[DigitRun(s)]))
  {
    if s != "" && IsDigit(s[0]) {
      DigitRunIsMaximal(s[1..]);
      var n := DigitRun(s[1..]);
      assert s[..n + 1] == [s[0]] + s[1..][..n];
    }
  }

  /** The two groups of a match. */
  function MatchRange(s: string): Option<(string, string)> {
    if !(BYTES <= s) then None
    else
      var rest := s[|BYTES|..];
      var n := DigitRun(rest);
      if n < |rest| && rest[n] == '-' && DigitRun(rest[n + 1..]) == |rest| - n - 1
      then Some((rest[..n], rest[n + 1..])) else None
  }

  lemma {:induction false} DigitRunStopsAt(a: string, b: string)
    requires AllDigits(a) && (b != "" ==> !IsDigit(b[0]))
    ensures DigitRun(a + b) == |a|
  {
    if a == "" {
      assert a + b == b;
    } else {
      DigitRunStopsAt(a[1..], b);
      assert (a + b)[1..] == a[1..] + b;
    }
  }

  lemma PatternMatches(a: string, b: string)
    requires AllDigits(a) && AllDigits(b)
    ensures MatchRange(BYTES + a + "-" + b) == Some((a, b))
  {
    var rest := a + ("-" + b);
    assert BYTES + a + "-" + b == BYTES + rest;
    assert (BYTES + rest)[|BYTES|..] == rest;
    DigitRunStopsAt(a, "-" + b);
    assert rest[|a| + 1..] == b && rest[..|a|] == a;
    DigitRunStopsAt(b, "");
    assert b + "" == b;
  }

  lemma Glue(s: string, front: string, rest: string, a: string, mid: string, b: string)
    requires |mid| == 1 && |a| < |rest| && rest[..|a|] == a && rest[|a|] == mid[0] && rest[|a| + 1..] == b
    requires front <= s && s[|front|..] == rest
    ensures s == front + a + mid + b
  {
    assert rest == a + mid + b;
    assert s == front + rest;
  }

  lemma MatchIsPattern(s: string)
    requires MatchRange(s).Some?
    ensures var (a, b) := MatchRange(s).value;
            s == BYTES + a + "-" + b && AllDigits(a) && AllDigits(b)
  {
    var (a, b) := MatchRange(s).value;
    var rest := s[|BYTES|..];
    DigitRunIsMaximal(rest);
    DigitRunIsMaximal(b);
    assert b[..|b|] == b;
    Glue(s, BYTES, rest, a, "-", b);
  }

  /** The match is the pattern: exactly the strings "bytes=", digits, "-", digits, with these two groups. */
  lemma MatchIff(s: string, a: string, b: string)
    ensures MatchRange(s) == Some((a, b)) <==> s == BYTES + a + "-" + b && AllDigits(a) && AllDigits(b)
  {
    if MatchRange(s) == Some((a, b)) { MatchIsPattern(s); }
    if AllDigits(a) && AllDigits(b) { PatternMatches(a, b); }
  }

  // ---------------------------------------------------------------- numbers

  function DigitValue(c: char): nat
    requires IsDigit(c)
  {
    c as int - '0' as int
  }

  function Value(digits: string): nat
    requires AllDigits(digits)
  {
    if digits == "" then 0 else 10 * Value(digits[..|digits| - 1]) + DigitValue(digits[|digits| - 1])
  }

  /**
   Number(digits), if it is a safe integer. Up to 2^53 - 1 the conversion is exact, and what lies
   above converts to 2^53 at least, so a safe result is the exact value.
   */
  function SafeNumber(digits: string): Option<nat>
    requires AllDigits(digits)
  {
    if Value(digits) <= MAX_SAFE_INTEGER then Some(Value(digits)) else None
  }

  function Digit(n: nat): char
    requires n < 10
  {
    ('0' as int + n) as char
  }

  /** String(n) */
  function Decimal(n: nat): (s: string)
    ensures s != "" && AllDigits(s)
  {
    if n < 10 then [Digit(n)] else Decimal(n / 10) + [Digit(n % 10)]
  }

  lemma {:induction false} DecimalValue(n: nat)
    ensures Value(Decimal(n)) == n
  {
    var s := Decimal(n);
    if n < 10 {
      assert s[..0] == "";
    } else {
      DecimalValue(n / 10);
      assert s[..|s| - 1] == Decimal(n / 10);
    }
  }

  // ---------------------------------------------------------------- the public parser

  datatype Range = Whole(length: nat) | Partial(start: nat, end: nat) | Unsatisfiable

  function Bounded(start: nat, end: nat, total: nat): Range {
    if end < start || start >= total then Unsatisfiable
    else Partial(start, if end < total - 1 then end else total - 1)
  }

  /** The part after the match, for a positive size. */
  function Select(rawStart: string, rawEnd: string, total: nat): Range
    requires AllDigits(rawStart) && AllDigits(rawEnd) && total > 0
  {
    if rawStart == "" && rawEnd == "" then Unsatisfiable
    else if rawStart == "" then
      var suffix := SafeNumber(rawEnd);
      if suffix.None? || suffix.value == 0 then Unsatisfiable
      else Bounded(if total > suffix.value then total - suffix.value else 0, total - 1, total)
    else
      var start := SafeNumber(rawStart);
      var end := if rawEnd == "" then Some(total - 1) else SafeNumber(rawEnd);
      if start.None? || end.None? then Unsatisfiable else Bounded(start.value, end.value, total)
  }

  lemma MatchedGroups(s: string)
    ensures MatchRange(s).Some? ==> AllDigits(MatchRange(s).value.0) && AllDigits(MatchRange(s).value.1)
  {
    if MatchRange(s).Some? { MatchIff(s, MatchRange(s).value.0, MatchRange(s).value.1); }
  }

  function ParseRange(header: Option<string>, total: nat): Range
    requires total > 0
  {
    if header.None? || Trim(header.value) == "" then Whole(total)
    else
      MatchedGroups(Trim(header.value));
      match MatchRange(Trim(header.value))
      case None => Unsatisfiable
      case Some((rawStart, rawEnd)) => Select(rawStart, rawEnd, total)
  }

  /** An accepted range lies within the bytes stored. */
  lemma AcceptedRangesLieWithin(header: Option<string>, total: nat)
    requires total > 0
    ensures ParseRange(header, total).Partial? ==>
              0 <= ParseRange(header, total).start <= ParseRange(header, total).end < total
    ensures ParseRange(header, total).Whole? ==> ParseRange(header, total).length == total
  {
  }

  /** What the two numbers of a range header stand for, in bytes of a file of this size. */
  predicate Denotes(rawStart: string, rawEnd: string, total: nat, a: nat, b: nat)
    requires AllDigits(rawStart) && AllDigits(rawEnd)
  {
    if rawStart != "" && rawEnd != "" then
      a == Value(rawStart) <= Value(rawEnd) <= MAX_SAFE_INTEGER && a < total
      && b == if Value(rawEnd) < total then Value(rawEnd) else total - 1
    else if rawStart != "" then
      a == Value(rawStart) <= MAX_SAFE_INTEGER && a < total && b == total - 1
    else
      rawEnd != "" && 0 < Value(rawEnd) <= MAX_SAFE_INTEGER
      && a == (if Value(rawEnd) < total then total - Value(rawEnd) else 0) && b == total - 1
  }

  /** The header, trimmed, is "bytes=" with two numbers that stand for the bytes from `a` to `b`. */
  ghost predicate Means(header: string, total: nat, a: nat, b: nat) {
    exists rawStart, rawEnd ::
      && AllDigits(rawStart) && AllDigits(rawEnd) && Trim(header) == BYTES + rawStart + "-" + rawEnd
      && Denotes(rawStart, rawEnd, total, a, b)
  }

  /**
   Which headers are accepted, and as what: "a-b" with a <= b and a inside the file, "a-" with a inside,
   "-n" with n positive, all numbers safe integers, surrounding whitespace ignored.
   */
  lemma AcceptedIff(header: string, total: nat, a: nat, b: nat)
    requires total > 0 && !AllWhitespace(header)
    ensures ParseRange(Some(header), total) == Partial(a, b) <==> Means(header, total, a, b)
    ensures !ParseRange(Some(header), total).Whole?
  {
    BlankIff(header);
    MatchedGroups(Trim(header));
    if MatchRange(Trim(header)).Some? {
      MatchIff(Trim(header), MatchRange(Trim(header)).value.0, MatchRange(Trim(header)).value.1);
    }
    if rawStart, rawEnd :| AllDigits(rawStart) && AllDigits(rawEnd) && Trim(header) == BYTES + rawStart + "-" + rawEnd
                           && Denotes(rawStart, rawEnd, total, a, b)
    {
      MatchIff(Trim(header), rawStart, rawEnd);
    }
  }

  /** Every other header is 416, except that a missing or blank one asks for the whole file. */
  lemma RefusedIff(header: Option<string>, total: nat)
    requires total > 0
    ensures ParseRange(header, total) == Whole(total) <==> header.None? || AllWhitespace(header.value)
    ensures ParseRange(header, total).Unsatisfiable? <==>
              && header.Some? && !AllWhitespace(header.value)
              && forall a, b :: !Means(header.value, total, a, b)
  {
    if header.Some? {
      BlankIff(header.value);
      if !AllWhitespace(header.value) {
        forall a, b
          ensures ParseRange(header, total) == Partial(a, b) <==> Means(header.value, total, a, b)
          ensures !ParseRange(header, total).Whole?
        {
          AcceptedIff(header.value, total, a, b);
        }
        AcceptedIff(header.value, total, 0, 0);
        match ParseRange(header, total)
        case Partial(a, b) => assert Means(header.value, total, a, b);
        case _ =>
      }
    }
  }

  // ---------------------------------------------------------------- printing and parsing

  function RangeHeader(a: nat, b: nat): string {
    BYTES + Decimal(a) + "-" + Decimal(b)
  }

  lemma RangeHeaderIsTrimmed(rawStart: string, rawEnd: string)
    requires AllDigits(rawStart) && AllDigits(rawEnd)
    ensures Trim(BYTES + rawStart + "-" + rawEnd) == BYTES + rawStart + "-" + rawEnd
  {
    var s := BYTES + rawStart + "-" + rawEnd;
    assert s[0] == 'b';
    assert s[|s| - 1] == if rawEnd == "" then '-' else rawEnd[|rawEnd| - 1];
    TrimOfTrimmed(s);
  }

  /** Printing a range inside the bytes and parsing it gives the range back. */
  lemma RangeRoundTrip(a: nat, b: nat, total: nat)
    requires a <= b < total <= MAX_SAFE_INTEGER
    ensures ParseRange(Some(RangeHeader(a, b)), total) == Partial(a, b)
  {
    var header := RangeHeader(a, b);
    RangeHeaderIsTrimmed(Decimal(a), Decimal(b));
    MatchIff(header, Decimal(a), Decimal(b));
    DecimalValue(a);
    DecimalValue(b);
    assert header != "";
  }

  /** "bytes=a-" means from a to the end. */
  lemma OpenRange(a: nat, total: nat)
    requires a < total <= MAX_SAFE_INTEGER
    ensures ParseRange(Some(BYTES + Decimal(a) + "-" + ""), total) == Partial(a, total - 1)
  {
    RangeHeaderIsTrimmed(Decimal(a), "");
    PatternMatches(Decimal(a), "");
    DecimalValue(a);
    assert |BYTES + Decimal(a) + "-" + ""| > 0;
  }

  /** "bytes=-n" means the last n bytes, or all of them if there are fewer. */
  lemma SuffixRange(n: nat, total: nat)
    requires 0 < total <= MAX_SAFE_INTEGER && 0 < n <= MAX_SAFE_INTEGER
    ensures ParseRange(Some(BYTES + "" + "-" + Decimal(n)), total) ==
              Partial(if n < total then total - n else 0, total - 1)
  {
    RangeHeaderIsTrimmed("", Decimal(n));
    PatternMatches("", Decimal(n));
    DecimalValue(n);
    assert |BYTES + "" + "-" + Decimal(n)| > 0;
  }

  // ---------------------------------------------------------------- bodies

  /** `contentRange` holds first byte, last byte and size; only a size for 416. */
  datatype ContentRange = Bytes(start: nat, end: nat, size: nat) | Unsatisfied(size: nat)

  datatype Answer = Answer(status: nat, contentRange: Option<ContentRange>, contentLength: Option<nat>, body: seq<Byte>)

  /** SUBSTRING(data, start + 1, length) */
  function Substring(data: seq<Byte>, start: nat, length: nat): seq<Byte> {
    if start >= |data| then []
    else if start + length <= |data| then data[start..start + length]
    else data[start..]
  }

  /** getPublicDatabaseVideoBinary, for a GET; `None` is 404. */
  function PublicServe(data: seq<Byte>, sizeBytes: nat, header: Option<string>): Option<Answer> {
    if sizeBytes == 0 || sizeBytes > MAX_SAFE_INTEGER then None
    else
      match ParseRange(header, sizeBytes)
      case Unsatisfiable => Some(Answer(416, Some(Unsatisfied(sizeBytes)), Some(0), []))
      case Whole(length) => Some(Answer(200, None, Some(|Substring(data, 0, length)|), Substring(data, 0, length)))
      case Partial(start, end) =>
        var chunk := Substring(data, start, end - start + 1);
        Some(Answer(206, Some(Bytes(start, end, sizeBytes)), Some(|chunk|), chunk))
  }

  /** Cut points of a download in consecutive pieces: from 0 to the size, each after the one before. */
  ghost predicate Tiles(cuts: seq<nat>, size: nat) {
    && |cuts| > 1 && cuts[0] == 0 && cuts[|cuts| - 1] == size
    && forall i, j :: 0 <= i < j < |cuts| ==> cuts[i] < cuts[j]
  }

  function BodyOf(data: seq<Byte>, a: nat, b: nat): seq<Byte> {
    match PublicServe(data, |data|, Some(RangeHeader(a, b)))
    case None => []
    case Some(answer) => answer.body
  }

  /** The bodies of the first n pieces, one after the other. */
  function Bodies(data: seq<Byte>, cuts: seq<nat>, n: nat): seq<Byte>
    requires n < |cuts| && forall i :: 0 < i < |cuts| ==> cuts[i] > 0
  {
    if n == 0 then [] else Bodies(data, cuts, n - 1) + BodyOf(data, cuts[n - 1], cuts[n] - 1)
  }

  lemma PieceIsServed(data: seq<Byte>, a: nat, b: nat)
    requires a <= b < |data| <= MAX_SAFE_INTEGER
    ensures BodyOf(data, a, b) == data[a..b + 1]
  {
    RangeRoundTrip(a, b, |data|);
  }

  lemma JoinPiece(data: seq<Byte>, a: nat, b: nat)
    requires a <= b <= |data|
    ensures data[..a] + data[a..b] == data[..b]
  {
  }

  lemma {:induction false} FirstPieces(data: seq<Byte>, cuts: seq<nat>, n: nat)
    requires Tiles(cuts, |data|) && |data| <= MAX_SAFE_INTEGER && n < |cuts|
    ensures cuts[n] <= |data| && Bodies(data, cuts, n) == data[..cuts[n]]
  {
    if n > 0 {
      FirstPieces(data, cuts, n - 1);
      assert cuts[n - 1] < cuts[n];
      assert n < |cuts| - 1 ==> cuts[n] < cuts[|cuts| - 1];
      PieceIsServed(data, cuts[n - 1], cuts[n] - 1);
      JoinPiece(data, cuts[n - 1], cuts[n]);
    }
  }

  /** Fetching the bytes piece by piece and joining the bodies gives the bytes. */
  lemma TilesReassemble(data: seq<Byte>, cuts: seq<nat>)
    requires Tiles(cuts, |data|) && |data| <= MAX_SAFE_INTEGER
    ensures Bodies(data, cuts, |cuts| - 1) == data
  {
    FirstPieces(data, cuts, |cuts| - 1);
  }

  // ---------------------------------------------------------------- the admin copy

  /** streamDatabaseVideoBinary, which has the bytes at hand and counts them itself. */
  function AdminServe(data: seq<Byte>, header: Option<string>): Answer {
    var size := |data|;
    if size == 0 then Answer(200, None, Some(0), [])
    else if header.None? || Trim(header.value) == "" then Answer(200, None, Some(size), data)
    else
      var refused := Answer(416, Some(Unsatisfied(size)), None, []);
      MatchedGroups(Trim(header.value));
      match MatchRange(Trim(header.value))
      case None => refused
      case Some((rawStart, rawEnd)) =>
        if rawStart == "" && rawEnd == "" then refused
        else
          var suffix := if rawStart == "" then SafeNumber(rawEnd) else None;
          if rawStart == "" && (suffix.None? || suffix.value == 0) then refused
          else
            var start := if rawStart == "" then Some(if size > suffix.value then size - suffix.value else 0)
                else SafeNumber(rawStart);
            var end := if rawStart == "" || rawEnd == "" then Some(size - 1) else SafeNumber(rawEnd);
            if start.None? || end.None? || end.value < start.value || start.value >= size then refused
            else
              var last := if end.value < size - 1 then end.value else size - 1;
              Answer(206, Some(Bytes(start.value, last, size)), Some(last + 1 - start.value),
                  data[start.value..last + 1])
  }

  /**
   The two copies give the same verdict on every header: the same status, range and body for every
   positive size. They differ in two things only: the public path announces length 0 with a 416, and
   for an empty file it answers 404 where the admin path answers 200.
   */
  lemma ParsersAgree(data: seq<Byte>, header: Option<string>)
    requires |data| <= MAX_SAFE_INTEGER
    ensures PublicServe(data, |data|, header).None? <==> data == []
    ensures data == [] ==> AdminServe(data, header) == Answer(200, None, Some(0), [])
    ensures data != [] ==>
              var p, a := PublicServe(data, |data|, header).value, AdminServe(data, header);
              && p.status == a.status && p.contentRange == a.contentRange && p.body == a.body
              && (p.status != 416 ==> p == a)
  {
    if data != [] {
      assert Substring(data, 0, |data|) == data;
    }
  }

  class Response {
    var status: nat
    var contentRange: Option<ContentRange>
    var contentLength: Option<nat>
    var body: seq<Byte>

    ghost function Sent(): Answer
      reads this
    {
      Answer(status, contentRange, contentLength, body)
    }

    /** A response nothing has been written to. */
    ghost predicate Blank()
      reads this
    {
      contentRange.None? && contentLength.None? && body == []
    }

    method SendRangeNotSatisfiable(size: nat)
      requires Blank()
      modifies this
      ensures Sent() == Answer(416, Some(Unsatisfied(size)), None, [])
    {
      status := 416;
      contentRange := Some(Unsatisfied(size));
    }
  }

  /** The controller's own copy of the parser, writing the response step by step. */
  method StreamDatabaseVideoBinary(buffer: seq<Byte>, rangeHeader: Option<string>, response: Response)
    requires response.Blank()
    modifies response
    ensures response.Sent() == AdminServe(buffer, rangeHeader)
  {
    var size := |buffer|;
    if size == 0 {
      response.status, response.contentLength := 200, Some(0);
      return;
    }
    if rangeHeader.None? || Trim(rangeHeader.value) == "" {
      response.status, response.contentLength, response.body := 200, Some(size), buffer;
      return;
    }
    var rangeMatch := MatchRange(Trim(rangeHeader.value));
    if rangeMatch.None? {
      response.SendRangeNotSatisfiable(size);
      return;
    }
    MatchedGroups(Trim(rangeHeader.value));
    var (rawStart, rawEnd) := rangeMatch.value;
    if rawStart == "" && rawEnd == "" {
      response.SendRangeNotSatisfiable(size);
      return;
    }
    var start: Option<nat>, end: Option<nat>;
    if rawStart == "" {
      var suffixLength := SafeNumber(rawEnd);
      if suffixLength.None? || suffixLength.value == 0 {
        response.SendRangeNotSatisfiable(size);
        return;
      }
      start, end := Some(if size > suffixLength.value then size - suffixLength.value else 0), Some(size - 1);
    } else {
      start := SafeNumber(rawStart);
      end := if rawEnd == "" then Some(size - 1) else SafeNumber(rawEnd);
    }
    if start.None? || end.None? || end.value < start.value || start.value >= size {
      response.SendRangeNotSatisfiable(size);
      return;
    }
    assert rawStart == "" ==> SafeNumber(rawEnd).Some? && SafeNumber(rawEnd).value != 0;
    var boundedEnd := if end.value < size - 1 then end.value else size - 1;
    var chunk := buffer[start.value..boundedEnd + 1];
    response.status := 206;
    response.contentRange := Some(Bytes(start.value, boundedEnd, size));
    response.contentLength := Some(|chunk|);
    response.body := chunk;
  }

  /** The public service's parser, with its two locals. */
  method ParseRangeHeader(rangeHeader: Option<string>, totalSize: nat) returns (range: Range)
    requires totalSize > 0
    ensures range == ParseRange(rangeHeader, totalSize)
    ensures range.Partial? ==> range.start <= range.end < totalSize
  {
    if rangeHeader.None? || Trim(rangeHeader.value) == "" { return Whole(totalSize); }
    var rangeMatch := MatchRange(Trim(rangeHeader.value));
    if rangeMatch.None? { return Unsatisfiable; }
    MatchedGroups(Trim(rangeHeader.value));
    var (rawStart, rawEnd) := rangeMatch.value;
    if rawStart == "" && rawEnd == "" { return Unsatisfiable; }
    var start: Option<nat>, end: Option<nat>;
    if rawStart == "" {
      var suffixLength := SafeNumber(rawEnd);
      if suffixLength.None? || suffixLength.value == 0 { return Unsatisfiable; }
      start, end := Some(if totalSize > suffixLength.value then totalSize - suffixLength.value else 0),
          Some(totalSize - 1);
    } else {
      start := SafeNumber(rawStart);
      end := if rawEnd == "" then Some(totalSize - 1) else SafeNumber(rawEnd);
    }
    if start.None? || end.None? || end.value < start.value || start.value >= totalSize { return Unsatisfiable; }
    return Partial(start.value, if end.value < totalSize - 1 then end.value else totalSize - 1);
  }
}
