/** `Content-Length` framing of JSON-RPC messages over a language server's
    standard streams (LSP 3.17, "Base Protocol"). Message bodies stay bytes; the
    JSON parser is the predicate `json`. */
module Framing {
  import opened Wrappers
  import opened Utf8
  import opened ByteSource
  import opened Sequences
  import Decimal

  const MAX_HEADER_LINE_BYTES: nat := 8 * 1024
  const MAX_HEADER_BYTES: nat := 32 * 1024
  const MAX_CONTENT_LENGTH: nat := 64 * 1024 * 1024
  const MAX_USIZE: nat := 0xFFFF_FFFF_FFFF_FFFF

  datatype ReadError =
    | HeaderLineTooLong | HeadersTooLong | HeaderNotUtf8 | DuplicateLength | BadLength
    | ContentTooLarge | MissingLength | BodyTruncated | BadJson

  datatype Outcome = CleanEnd | Failed(error: ReadError)

  // ---- text helpers of the header parser ----

  /** Unicode White_Space, which `str::trim` removes. */
  predicate IsWhite(ch: char) {
    var c := ch as int;
    || 9 <= c <= 13 || c == 32 || c == 0x85 || c == 0xA0 || c == 0x1680 || 0x2000 <= c <= 0x200A
    || c == 0x2028 || c == 0x2029 || c == 0x202F || c == 0x205F || c == 0x3000
  }

  function TrimStart(s: string): string {
    if s != "" && IsWhite(s[0]) then TrimStart(s[1..]) else s
  }

  function TrimEnd(s: string): string {
    if s != "" && IsWhite(s[|s| - 1]) then TrimEnd(s[..|s| - 1]) else s
  }

  function Trim(s: string): string { TrimStart(TrimEnd(s)) }

  function Lower(c: char): char { if 'A' <= c <= 'Z' then c - 'A' + 'a' else c }

  predicate EqIgnoreAsciiCase(a: string, b: string) {
    |a| == |b| && forall i | 0 <= i < |a| :: Lower(a[i]) == Lower(b[i])
  }

  // ---- specification on the whole stream ----

  datatype Field = Blank | OtherField | LengthField(value: string)

  function ParseField(text: string): Field {
    var line := Trim(text);
    var colon := IndexOf(line, ':');
    if line == "" then Blank
    else if colon < |line| && EqIgnoreAsciiCase(Trim(line[..colon]), "Content-Length")
    then LengthField(Trim(line[colon + 1..]))
    else OtherField
  }

  function FieldOf(line: seq<byte>): Option<Field> {
    match Decode(line)
    case None => None
    case Some(text) => Some(ParseField(text))
  }

  /** A repeated, unreadable or oversized length is an error. */
  function AddLength(previous: Option<nat>, value: string): Result<nat, ReadError> {
    if previous.Some? then Err(DuplicateLength)
    else match Decimal.Parse(value, MAX_USIZE)
      case None => Err(BadLength)
      case Some(n) => if n > MAX_CONTENT_LENGTH then Err(ContentTooLarge) else Ok(n)
  }

  /** The bytes up to and including the first newline, or all that is left. */
  function HeaderLine(stream: seq<byte>): (r: Result<seq<byte>, ReadError>)
    ensures r.Ok? ==> r.value <= stream && (stream != [] ==> r.value != [])
  {
    var end := IndexOf(stream, LF);
    var n := if end < |stream| then end + 1 else end;
    if n > MAX_HEADER_LINE_BYTES then Err(HeaderLineTooLong) else Ok(stream[..n])
  }

  datatype Headers = AtEof | Bad(error: ReadError) | Complete(length: Option<nat>, rest: seq<byte>)

  function ReadHeaders(stream: seq<byte>, length: Option<nat>, count: nat): (r: Headers)
    decreases |stream|
    ensures r.Complete? ==> |r.rest| < |stream|
  {
    match HeaderLine(stream)
    case Err(e) => Bad(e)
    case Ok(line) =>
      var rest := stream[|line|..];
      if line == [] then AtEof
      else if count + |line| > MAX_HEADER_BYTES then Bad(HeadersTooLong)
      else match FieldOf(line)
        case None => Bad(HeaderNotUtf8)
        case Some(Blank) => Complete(length, rest)
        case Some(OtherField) => ReadHeaders(rest, length, count + |line|)
        case Some(LengthField(value)) =>
          match AddLength(length, value)
          case Err(e) => Bad(e)
          case Ok(n) => ReadHeaders(rest, Some(n), count + |line|)
  }

  datatype Step = Stop(outcome: Outcome) | Message(body: seq<byte>, rest: seq<byte>)

  function ReadBody(length: Option<nat>, stream: seq<byte>, json: seq<byte> -> bool): (s: Step)
    ensures s.Message? ==> |s.rest| <= |stream|
  {
    match length
    case None => Stop(Failed(MissingLength))
    case Some(n) =>
      if n > |stream| then Stop(Failed(BodyTruncated))
      else if !json(stream[..n]) then Stop(Failed(BadJson))
      else Message(stream[..n], stream[n..])
  }

  function ReadMessage(stream: seq<byte>, json: seq<byte> -> bool): (s: Step)
    ensures s.Message? ==> |s.rest| < |stream|
  {
    match ReadHeaders(stream, None, 0)
    case AtEof => Stop(CleanEnd)
    case Bad(e) => Stop(Failed(e))
    case Complete(length, rest) => ReadBody(length, rest, json)
  }

  function ReadStream(stream: seq<byte>, json: seq<byte> -> bool): (seq<seq<byte>>, Outcome)
    decreases |stream|
  {
    match ReadMessage(stream, json)
    case Stop(outcome) => ([], outcome)
    case Message(body, rest) =>
      var (bodies, outcome) := ReadStream(rest, json);
      ([body] + bodies, outcome)
  }

  /** One header line at a time. */
  lemma HeadersUnfold(line: seq<byte>, rest: seq<byte>, length: Option<nat>, count: nat)
    requires HeaderLine(line + rest) == Ok(line)
    ensures ReadHeaders(line + rest, length, count) ==
            if line == [] then AtEof
            else if count + |line| > MAX_HEADER_BYTES then Bad(HeadersTooLong)
            else match FieldOf(line)
              case None => Bad(HeaderNotUtf8)
              case Some(Blank) => Complete(length, rest)
              case Some(OtherField) => ReadHeaders(rest, length, count + |line|)
              case Some(LengthField(value)) =>
                match AddLength(length, value)
                case Err(e) => Bad(e)
                case Ok(n) => ReadHeaders(rest, Some(n), count + |line|)
  {
    hide HeaderLine, FieldOf, AddLength;
    assert (line + rest)[|line|..] == rest;
  }

  lemma HeadersFail(stream: seq<byte>, length: Option<nat>, count: nat)
    requires HeaderLine(stream).Err?
    ensures ReadHeaders(stream, length, count) == Bad(HeaderLine(stream).error)
  {
  }

  lemma BodyUnfold(body: seq<byte>, rest: seq<byte>, json: seq<byte> -> bool)
    ensures ReadBody(Some(|body|), body + rest, json) ==
            if json(body) then Message(body, rest) else Stop(Failed(BadJson))
  {
    assert (body + rest)[..|body|] == body && (body + rest)[|body|..] == rest;
  }

  lemma BodyMissing(n: nat, stream: seq<byte>, json: seq<byte> -> bool)
    requires n > |stream|
    ensures ReadBody(Some(n), stream, json) == Stop(Failed(BodyTruncated))
  {
  }

  lemma BodyUnframed(stream: seq<byte>, json: seq<byte> -> bool)
    ensures ReadBody(None, stream, json) == Stop(Failed(MissingLength))
  {
  }

  /** One message at a time. */
  lemma StreamUnfold(stream: seq<byte>, json: seq<byte> -> bool)
    ensures ReadStream(stream, json) ==
            match ReadHeaders(stream, None, 0)
            case AtEof => ([], CleanEnd)
            case Bad(e) => ([], Failed(e))
            case Complete(length, rest) =>
              match ReadBody(length, rest, json)
              case Stop(outcome) => ([], outcome)
              case Message(body, after) =>
                ([body] + ReadStream(after, json).0, ReadStream(after, json).1)
  {
  }

  // ---- the reader ----

  /** Any chunking gives the line the whole stream determines; the buffer never
      holds more than the limit. */
  method ReadLimitedHeaderLine(reader: Reader) returns (r: Result<seq<byte>, ReadError>, ghost peak: nat)
    requires reader.Valid()
    modifies reader
    ensures reader.Valid()
    ensures r == HeaderLine(old(reader.Stream()))
    ensures r.Ok? ==> old(reader.Stream()) == r.value + reader.Stream()
    ensures peak <= MAX_HEADER_LINE_BYTES
  {
    hide *;
    var line: seq<byte> := [];
    peak := 0;
    while true
      invariant reader.Valid()
      invariant old(reader.Stream()) == line + reader.Stream()
      invariant LF !in line
      invariant |line| <= peak <= MAX_HEADER_LINE_BYTES
      decreases |reader.Stream()|
    {
      var available := reader.FillBuf();
      if available == [] {
        assert line + reader.Stream() == line;
        LineEnds(line, []);
        return Ok(line), peak;
      }
      var newline := IndexOf(available, LF);
      var consumed := if newline < |available| then newline + 1 else newline;
      ghost var before := reader.Stream();
      if |line| + consumed > MAX_HEADER_LINE_BYTES {
        LongLine(line, available, newline, before);
        return Err(HeaderLineTooLong), peak;
      }
      var part := available[..consumed];
      reader.Consume(consumed);
      Append(line, part, reader.Stream());
      if newline < |available| {
        assert line + part == (line + available[..newline]) + [LF];
        LineEnds(line + available[..newline], [LF] + reader.Stream());
        Append(line + available[..newline], [LF], reader.Stream());
      }
      line := line + part;
      peak := if |line| > peak then |line| else peak;
      if newline < |available| {
        return Ok(line), peak;
      }
    }
  }

  lemma LineEnds(line: seq<byte>, rest: seq<byte>)
    requires LF !in line && (rest != [] ==> rest[0] == LF)
    requires |line| + (if rest == [] then 0 else 1) <= MAX_HEADER_LINE_BYTES
    ensures HeaderLine(line + rest) == Ok(line + if rest == [] then [] else [LF])
  {
    var all := line + rest;
    forall j | 0 <= j < |line| ensures all[j] != LF {
      assert all[j] == line[j];
    }
    IndexOfUnique(all, LF, |line|);
    assert all[..|line|] == line == line + [];
    if rest != [] {
      assert all[..|line| + 1] == line + [LF];
    }
  }

  lemma LongLine(line: seq<byte>, available: seq<byte>, newline: nat, stream: seq<byte>)
    requires LF !in line && available <= stream && newline == IndexOf(available, LF)
    requires |line| + (if newline < |available| then newline + 1 else newline) > MAX_HEADER_LINE_BYTES
    ensures HeaderLine(line + stream) == Err(HeaderLineTooLong)
  {
    var all := line + stream;
    forall j | 0 <= j < |line| + newline ensures all[j] != LF {
      if j < |line| {
        assert all[j] == line[j];
      } else {
        assert all[j] == available[j - |line|];
      }
    }
    assert IndexOf(all, LF) >= |line| + newline;
  }

  /** The inner loop: header lines until a blank one, an error or the end. */
  method ReadHeaderBlock(reader: Reader)
    returns (stop: Option<Outcome>, contentLength: Option<nat>, ghost peak: nat)
    requires reader.Valid()
    modifies reader
    ensures reader.Valid()
    ensures match ReadHeaders(old(reader.Stream()), None, 0)
            case AtEof => stop == Some(CleanEnd)
            case Bad(error) => stop == Some(Failed(error))
            case Complete(length, rest) => stop == None && contentLength == length && rest == reader.Stream()
    ensures peak <= MAX_HEADER_LINE_BYTES
  {
    hide *;
    contentLength := None;
    var headerBytes: nat := 0;
    peak := 0;
    while true
      invariant reader.Valid() && peak <= MAX_HEADER_LINE_BYTES
      invariant ReadHeaders(old(reader.Stream()), None, 0) == ReadHeaders(reader.Stream(), contentLength, headerBytes)
      decreases |reader.Stream()|
    {
      ghost var before := reader.Stream();
      var header, p := ReadLimitedHeaderLine(reader);
      peak := if p > peak then p else peak;
      if header.Err? {
        HeadersFail(before, contentLength, headerBytes);
        return Some(Failed(header.error)), contentLength, peak;
      }
      var line := header.value;
      HeadersUnfold(line, reader.Stream(), contentLength, headerBytes);
      if |line| == 0 {
        return Some(CleanEnd), contentLength, peak;
      }
      headerBytes := headerBytes + |line|;
      if headerBytes > MAX_HEADER_BYTES {
        return Some(Failed(HeadersTooLong)), contentLength, peak;
      }
      var field := FieldOf(line);
      if field.None? {
        return Some(Failed(HeaderNotUtf8)), contentLength, peak;
      }
      match field.value
      case Blank =>
        return None, contentLength, peak;
      case LengthField(value) =>
        var added := AddLength(contentLength, value);
        if added.Err? {
          return Some(Failed(added.error)), contentLength, peak;
        }
        contentLength := Some(added.value);
      case OtherField =>
    }
  }

  /** The loop of the reader task, for any chunking: the messages and the ending
      that the whole stream determines. */
  method ReadLoop(reader: Reader, json: seq<byte> -> bool)
    returns (bodies: seq<seq<byte>>, outcome: Outcome, ghost peak: nat)
    requires reader.Valid()
    modifies reader
    ensures (bodies, outcome) == ReadStream(old(reader.Stream()), json)
    ensures peak <= MAX_HEADER_LINE_BYTES
  {
    hide *;
    bodies := [];
    peak := 0;
    while true
      invariant reader.Valid() && peak <= MAX_HEADER_LINE_BYTES
      invariant ReadStream(old(reader.Stream()), json).0 == bodies + ReadStream(reader.Stream(), json).0
      invariant ReadStream(old(reader.Stream()), json).1 == ReadStream(reader.Stream(), json).1
      decreases |reader.Stream()|
    {
      StreamUnfold(reader.Stream(), json);
      var stop, contentLength, p := ReadHeaderBlock(reader);
      peak := if p > peak then p else peak;
      assert bodies == bodies + [];
      if stop.Some? {
        return bodies, stop.value, peak;
      }
      if contentLength.None? {
        BodyUnframed(reader.Stream(), json);
        return bodies, Failed(MissingLength), peak;
      }
      ghost var rest := reader.Stream();
      var ok, body := reader.ReadExact(contentLength.value);
      if !ok {
        BodyMissing(contentLength.value, rest, json);
        return bodies, Failed(BodyTruncated), peak;
      }
      BodyUnfold(body, reader.Stream(), json);
      if !json(body) {
        return bodies, Failed(BadJson), peak;
      }
      bodies := bodies + [body];
    }
  }

  // ---- the printer, and the round trip ----

  function Frame(body: seq<byte>): seq<byte> {
    Encode("Content-Length: " + Decimal.Print(|body|) + "\r\n\r\n") + body
  }

  function Frames(bodies: seq<seq<byte>>): seq<byte> {
    if bodies == [] then [] else Frame(bodies[0]) + Frames(bodies[1..])
  }

  lemma {:induction false} EncodePlain(s: string)
    ensures |s| <= |Encode(s)| <= 4 * |s|
    ensures '\n' !in s ==> LF !in Encode(s)
  {
    if s != "" {
      EncodePlain(s[1..]);
      if s[0] != '\n' {
        assert LF !in EncodeChar(s[0]);
      }
    }
  }

  lemma {:induction false} PrintLength(n: nat, max: nat)
    requires n <= max
    ensures |Decimal.Print(n)| <= |Decimal.Print(max)|
  {
    if n >= 10 {
      PrintLength(n / 10, max / 10);
    }
  }

  /** A line of text and its newline, at the head of a stream. */
  lemma TakeLine(text: string, rest: seq<byte>)
    requires '\n' !in text && |text| <= 1000
    ensures HeaderLine(Encode(text + "\n") + rest) == Ok(Encode(text + "\n"))
    ensures Encode(text + "\n") == Encode(text) + [LF]
  {
    EncodePlain(text);
    EncodeConcat(text, "\n");
    assert Encode("\n") == [LF];
    LineEnds(Encode(text), [LF] + rest);
    Append(Encode(text), [LF], rest);
  }

  lemma TrimEndWhite(s: string, w: char)
    requires IsWhite(w)
    ensures TrimEnd(s + [w]) == TrimEnd(s)
  {
    assert (s + [w])[..|s|] == s;
  }

  predicate AllDigits(s: string) { s != "" && forall c <- s :: Decimal.IsDigit(c) }

  lemma TrimLengthLine(digits: string)
    requires AllDigits(digits)
    ensures var line := "Content-Length: " + digits; Trim(line + "\r" + "\n") == line
  {
    var line := "Content-Length: " + digits;
    TrimEndWhite(line + "\r", '\n');
    TrimEndWhite(line, '\r');
    assert digits[|digits| - 1] in digits;
    assert line[|line| - 1] == digits[|digits| - 1];
  }

  lemma TrimLengthValue(digits: string)
    requires AllDigits(digits)
    ensures Trim(" " + digits) == digits
  {
    var value := " " + digits;
    assert digits[|digits| - 1] in digits && digits[0] in digits;
    assert value[|value| - 1] == digits[|digits| - 1];
    assert TrimEnd(value) == value && value[1..] == digits;
    assert TrimStart(digits) == digits;
  }

  lemma SplitLengthLine(digits: string)
    ensures var line := "Content-Length: " + digits;
            IndexOf(line, ':') == 14 < |line| && line[..14] == "Content-Length" && line[15..] == " " + digits
  {
    var name := "Content-Length";
    var line := "Content-Length: " + digits;
    assert line[14] == ':';
    assert forall j | 0 <= j < 14 :: line[j] == name[j] != ':';
  }

  lemma LengthFieldText(digits: string)
    requires AllDigits(digits)
    ensures ParseField("Content-Length: " + digits + "\r" + "\n") == LengthField(digits)
  {
    hide Trim;
    TrimLengthLine(digits);
    TrimLengthValue(digits);
    SplitLengthLine(digits);
    TrimName();
  }

  lemma TrimName()
    ensures Trim("Content-Length") == "Content-Length"
  {
  }

  lemma BlankText()
    ensures ParseField("\r" + "\n") == Blank
  {
    TrimEndWhite("\r", '\n');
    TrimEndWhite("", '\r');
    assert "" + "\r" == "\r";
  }

  function LengthLine(n: nat): string { "Content-Length: " + Decimal.Print(n) + "\r" }

  lemma LengthLineShort(n: nat)
    requires n <= MAX_CONTENT_LENGTH
    ensures |LengthLine(n)| <= 25 && '\n' !in LengthLine(n)
  {
    PrintLength(n, MAX_CONTENT_LENGTH);
    assert |Decimal.Print(MAX_CONTENT_LENGTH)| == 8;
    Decimal.PrintDigits(n);
    assert '\n' !in "Content-Length: ";
  }

  lemma FrameBytes(body: seq<byte>)
    ensures Frame(body) == Encode(LengthLine(|body|) + "\n") + (Encode("\r" + "\n") + body)
  {
    var first, second := LengthLine(|body|) + "\n", "\r" + "\n";
    assert "Content-Length: " + Decimal.Print(|body|) + "\r\n\r\n" == first + second;
    EncodeConcat(first, second);
  }

  lemma LengthHeader(n: nat, rest: seq<byte>)
    requires n <= MAX_CONTENT_LENGTH
    ensures var line := Encode(LengthLine(n) + "\n");
            && HeaderLine(line + rest) == Ok(line) && 0 < |line| < MAX_HEADER_BYTES - 8
            && FieldOf(line) == Some(LengthField(Decimal.Print(n)))
            && AddLength(None, Decimal.Print(n)) == Ok(n)
  {
    LengthLineShort(n);
    TakeLine(LengthLine(n), rest);
    EncodePlain(LengthLine(n));
    DecodeEncode(LengthLine(n) + "\n");
    Decimal.PrintDigits(n);
    LengthFieldText(Decimal.Print(n));
    Decimal.ParsePrint(n, MAX_USIZE);
  }

  lemma BlankHeader(rest: seq<byte>)
    ensures var line := Encode("\r" + "\n");
            HeaderLine(line + rest) == Ok(line) && 0 < |line| <= 8 && FieldOf(line) == Some(Blank)
  {
    TakeLine("\r", rest);
    EncodePlain("\r" + "\n");
    DecodeEncode("\r" + "\n");
    BlankText();
  }

  /** The headers of one frame announce its body and consume nothing else. */
  lemma FrameHeaders(body: seq<byte>, rest: seq<byte>)
    requires |body| <= MAX_CONTENT_LENGTH
    ensures ReadHeaders(Frame(body) + rest, None, 0) == Complete(Some(|body|), body + rest)
  {
    hide *;
    FrameBytes(body);
    var line1, line2 := Encode(LengthLine(|body|) + "\n"), Encode("\r" + "\n");
    LengthHeader(|body|, line2 + (body + rest));
    BlankHeader(body + rest);
    HeadersUnfold(line1, line2 + (body + rest), None, 0);
    HeadersUnfold(line2, body + rest, Some(|body|), |line1|);
    assert Frame(body) + rest == line1 + (line2 + (body + rest));
  }

  lemma FramesUnfold(bodies: seq<seq<byte>>)
    ensures Frames(bodies) == if bodies == [] then [] else Frame(bodies[0]) + Frames(bodies[1..])
  {
  }

  lemma EmptyStream(json: seq<byte> -> bool)
    ensures ReadStream([], json) == ([], CleanEnd)
  {
  }

  /** Whatever the server-side printer framed comes back body by body, and the
      stream then ends cleanly. */
  lemma {:induction false} FramesRoundTrip(bodies: seq<seq<byte>>, json: seq<byte> -> bool)
    requires forall i | 0 <= i < |bodies| :: |bodies[i]| <= MAX_CONTENT_LENGTH && json(bodies[i])
    ensures ReadStream(Frames(bodies), json) == (bodies, CleanEnd)
  {
    hide *;
    FramesUnfold(bodies);
    if bodies == [] {
      EmptyStream(json);
    } else {
      var body, rest := bodies[0], Frames(bodies[1..]);
      FrameHeaders(body, rest);
      BodyUnfold(body, rest, json);
      StreamUnfold(Frame(body) + rest, json);
      FramesRoundTrip(bodies[1..], json);
      assert bodies == [bodies[0]] + bodies[1..];
    }
  }

  /** The two ends together: printing, cutting into any non-empty chunks, and
      reading delivers exactly the bodies that were sent. */
  method Deliver(bodies: seq<seq<byte>>, chunks: seq<seq<byte>>, json: seq<byte> -> bool)
    returns (received: seq<seq<byte>>, outcome: Outcome)
    requires forall i | 0 <= i < |bodies| :: |bodies[i]| <= MAX_CONTENT_LENGTH && json(bodies[i])
    requires [] !in chunks && Flatten(chunks) == Frames(bodies)
    ensures received == bodies && outcome == CleanEnd
  {
    FramesRoundTrip(bodies, json);
    var reader := new Reader(chunks);
    ghost var peak;
    received, outcome, peak := ReadLoop(reader, json);
  }
}
