/** The daemon's bounded JSONL request reader: one record per line, an oversized
    record discarded through its newline. */
module JsonlReader {
  import opened Wrappers
  import opened Utf8
  import opened ByteSource
  import opened Sequences

  datatype LineError = TooLong | NotUtf8

  type Record = Result<string, LineError>

  // ---- specification on the whole stream ----

  function StripCr(line: seq<byte>): seq<byte> {
    if line != [] && line[|line| - 1] == CR then line[..|line| - 1] else line
  }

  function Decoded(content: seq<byte>, limit: nat): Record {
    if |content| > limit then Err(TooLong)
    else match Decode(content)
      case Some(text) => Ok(text)
      case None => Err(NotUtf8)
  }

  function FirstRecord(stream: seq<byte>, limit: nat): Option<Record> {
    if stream == [] then None
    else Some(Decoded(StripCr(stream[..IndexOf(stream, LF)]), limit))
  }

  function AfterRecord(stream: seq<byte>): (rest: seq<byte>)
    ensures stream != [] ==> |rest| < |stream|
  {
    var end := IndexOf(stream, LF);
    if end < |stream| then stream[end + 1..] else []
  }

  function Records(stream: seq<byte>, limit: nat): seq<Record>
    decreases |stream|
  {
    if stream == [] then []
    else [FirstRecord(stream, limit).value] + Records(AfterRecord(stream), limit)
  }

  // ---- the reader ----

  method FinishRequestLine(bytes: seq<byte>, tooLong: bool, limit: nat) returns (r: Record)
    ensures r == if tooLong then Err(TooLong) else Decoded(StripCr(bytes), limit)
  {
    var content := bytes;
    if content != [] && content[|content| - 1] == CR {
      content := content[..|content| - 1];
    }
    if tooLong || |content| > limit {
      return Err(TooLong);
    }
    match Decode(content)
    case Some(text) => return Ok(text);
    case None => return Err(NotUtf8);
  }

  lemma LineComplete(line: seq<byte>, rest: seq<byte>, limit: nat)
    requires LF !in line
    ensures var stream := line + ([LF] + rest);
            FirstRecord(stream, limit) == Some(Decoded(StripCr(line), limit)) && AfterRecord(stream) == rest
  {
    var stream := line + ([LF] + rest);
    assert stream[|line|] == LF;
    forall j | 0 <= j < |line| ensures stream[j] != LF {
      assert stream[j] == line[j];
    }
    IndexOfUnique(stream, LF, |line|);
    assert stream[..|line|] == line && stream[|line| + 1..] == rest;
  }

  lemma LineUnterminated(line: seq<byte>, limit: nat)
    requires LF !in line
    ensures FirstRecord(line, limit) == if line == [] then None else Some(Decoded(StripCr(line), limit))
    ensures AfterRecord(line) == []
  {
    IndexOfUnique(line, LF, |line|);
    assert line[..|line|] == line;
  }

  lemma TooLongLine(line: seq<byte>, limit: nat)
    requires |line| > limit + 1
    ensures Decoded(StripCr(line), limit) == Err(TooLong)
  {
  }

  /** Any chunking gives the record the whole stream determines, leaves the
      reader just past that record's newline, and never buffers more than one
      byte beyond the limit. */
  method ReadRequestLine(reader: Reader, limit: nat) returns (r: Option<Record>, ghost peak: nat)
    requires reader.Valid()
    modifies reader
    ensures reader.Valid()
    ensures r == FirstRecord(old(reader.Stream()), limit)
    ensures reader.Stream() == AfterRecord(old(reader.Stream()))
    ensures peak <= limit + 1
  {
    hide *;
    ghost var line: seq<byte> := [];
    var bytes: seq<byte> := [];
    var tooLong := false;
    peak := 0;
    while true
      invariant reader.Valid()
      invariant old(reader.Stream()) == line + reader.Stream()
      invariant LF !in line
      invariant if tooLong then |line| > limit + 1 && bytes == [] else bytes == line
      invariant |bytes| <= peak <= limit + 1
      decreases |reader.Stream()|
    {
      var available := reader.FillBuf();
      if available == [] {
        LineUnterminated(line, limit);
        assert line + reader.Stream() == line;
        if bytes == [] && !tooLong {
          return None, peak;
        }
        if tooLong { TooLongLine(line, limit); }
        var last := FinishRequestLine(bytes, tooLong, limit);
        return Some(last), peak;
      }
      var newline := IndexOf(available, LF);
      var content := available[..newline];
      if !tooLong {
        if |bytes| + newline > limit + 1 {
          bytes := [];
          tooLong := true;
        } else {
          bytes := bytes + content;
        }
      }
      peak := if |bytes| > peak then |bytes| else peak;
      reader.Consume(if newline < |available| then newline + 1 else newline);
      if newline < |available| {
        assert available[..newline + 1] == content + [LF];
        Append(content, [LF], reader.Stream());
        Append(line, content, [LF] + reader.Stream());
        LineComplete(line + content, reader.Stream(), limit);
        if tooLong { TooLongLine(line + content, limit); }
        var record := FinishRequestLine(bytes, tooLong, limit);
        return Some(record), peak;
      }
      Append(line, content, reader.Stream());
      line := line + content;
    }
  }

  lemma RecordsUnfold(stream: seq<byte>, limit: nat)
    ensures Records(stream, limit) ==
            match FirstRecord(stream, limit)
            case None => []
            case Some(r) => [r] + Records(AfterRecord(stream), limit)
    ensures FirstRecord(stream, limit).None? ==> AfterRecord(stream) == stream
    ensures FirstRecord(stream, limit).Some? ==> |AfterRecord(stream)| < |stream|
  {
  }

  /** The daemon's request loop reads on until the end of the stream. */
  method ReadAll(reader: Reader, limit: nat) returns (records: seq<Record>)
    requires reader.Valid()
    modifies reader
    ensures records == Records(old(reader.Stream()), limit)
  {
    hide *;
    records := [];
    ghost var stream := reader.Stream();
    while true
      invariant reader.Valid()
      invariant Records(stream, limit) == records + Records(reader.Stream(), limit)
      decreases |reader.Stream()|
    {
      RecordsUnfold(reader.Stream(), limit);
      var r, peak := ReadRequestLine(reader, limit);
      if r.None? {
        return;
      }
      records := records + [r.value];
    }
  }

  // ---- what the specification means ----

  /** A record is refused exactly when its content, with one trailing carriage
      return taken off, is longer than the limit or is not UTF-8; and whatever
      the first record is, the ones behind it are read as if it were not there. */
  lemma RecordIsolated(line: seq<byte>, rest: seq<byte>, limit: nat)
    requires LF !in line
    ensures Records(line + [LF] + rest, limit) == [Decoded(StripCr(line), limit)] + Records(rest, limit)
    ensures Decoded(StripCr(line), limit).Err?
            <==> |StripCr(line)| > limit || !(exists text :: Encode(text) == StripCr(line))
  {
    LineComplete(line, rest, limit);
    Append(line, [LF], rest);
    EncodeDecode(StripCr(line));
    forall text | Encode(text) == StripCr(line) ensures Decode(StripCr(line)).Some? {
      DecodeEncode(text);
    }
  }

  /** What a record says, whether a bare newline, a carriage return and newline, or
      the end of the stream ends it: its content, if that is UTF-8 and within the
      limit, byte for byte. The stream goes on behind it. */
  lemma RecordContent(x: seq<byte>, rest: seq<byte>, limit: nat, text: string)
    requires LF !in x && (x == [] || x[|x| - 1] != CR)
    ensures FirstRecord(x + ([LF] + rest), limit) == Some(Ok(text)) <==> |x| <= limit && Encode(text) == x
    ensures FirstRecord(x + ([CR, LF] + rest), limit) == Some(Ok(text)) <==> |x| <= limit && Encode(text) == x
    ensures x != [] ==> (FirstRecord(x, limit) == Some(Ok(text)) <==> |x| <= limit && Encode(text) == x)
    ensures FirstRecord([], limit) == None
    ensures AfterRecord(x + ([LF] + rest)) == rest && AfterRecord(x + ([CR, LF] + rest)) == rest
    ensures FirstRecord(x + ([LF] + rest), limit) == Some(Err(TooLong)) <==> |x| > limit
    ensures FirstRecord(x + ([LF] + rest), limit) == Some(Err(NotUtf8)) <==> |x| <= limit && forall t :: Encode(t) != x
  {
    hide *;
    StripEnds(x);
    ContentDecoded(x, limit, text);
    LineComplete(x, rest, limit);
    LineComplete(x + [CR], rest, limit);
    assert x + ([CR, LF] + rest) == (x + [CR]) + ([LF] + rest);
    LineUnterminated(x, limit);
    LineUnterminated([], limit);
  }

  lemma StripEnds(x: seq<byte>)
    requires x == [] || x[|x| - 1] != CR
    ensures StripCr(x) == x && StripCr(x + [CR]) == x
    ensures LF !in x ==> LF !in x + [CR]
  {
    assert (x + [CR])[..|x|] == x;
  }

  lemma ContentDecoded(x: seq<byte>, limit: nat, text: string)
    ensures Decoded(x, limit) == Ok(text) <==> |x| <= limit && Encode(text) == x
    ensures Decoded(x, limit) == Err(TooLong) <==> |x| > limit
    ensures Decoded(x, limit) == Err(NotUtf8) <==> |x| <= limit && forall t :: Encode(t) != x
  {
    hide Encode, Decode;
    DecodeEncode(text);
    EncodeDecode(x);
    forall t | Encode(t) == x ensures Decode(x) == Some(t) {
      DecodeEncode(t);
    }
  }

  function Written(line: string, crlf: bool): seq<byte> {
    Encode(line) + (if crlf then [CR] else [])
  }

  function WriteLines(lines: seq<string>, crlf: bool): seq<byte> {
    if lines == [] then [] else Written(lines[0], crlf) + [LF] + WriteLines(lines[1..], crlf)
  }

  function AllOk(lines: seq<string>): seq<Record> {
    if lines == [] then [] else [Ok(lines[0])] + AllOk(lines[1..])
  }

  /** Does not end in a carriage return. */
  predicate Plain(x: seq<byte>) { x == [] || x[|x| - 1] != CR }

  /** Within the limit, with no newline of its own, and not ending in a carriage
      return that a bare newline would swallow. */
  ghost predicate Writable(line: string, crlf: bool, limit: nat) {
    && |Encode(line)| <= limit
    && LF !in Encode(line)
    && (!crlf ==> Plain(Encode(line)))
  }

  lemma WrittenLine(line: string, crlf: bool, limit: nat)
    requires Writable(line, crlf, limit)
    ensures LF !in Written(line, crlf)
    ensures Decoded(StripCr(Written(line, crlf)), limit) == Ok(line)
  {
    assert StripCr(Written(line, crlf)) == Encode(line);
    DecodeEncode(line);
  }

  /** Lines written with either line ending are read back unchanged, in order. */
  lemma {:induction false} LinesRoundTrip(lines: seq<string>, crlf: bool, limit: nat)
    requires forall i | 0 <= i < |lines| :: Writable(lines[i], crlf, limit)
    ensures Records(WriteLines(lines, crlf), limit) == AllOk(lines)
  {
    if lines != [] {
      LinesRoundTrip(lines[1..], crlf, limit);
      WrittenLine(lines[0], crlf, limit);
      RecordIsolated(Written(lines[0], crlf), WriteLines(lines[1..], crlf), limit);
    }
  }
}
