/** What the header reader does with headers other than the one the daemon itself
    prints: any server may send more of them, in any letter case and spacing. */
module HeaderLaws {
  import opened Wrappers
  import opened Utf8
  import opened ByteSource
  import opened Sequences
  import opened Framing
  import Decimal

  // ---- trimming ----

  predicate AllWhite(s: string) { forall c <- s :: IsWhite(c) }

  /** Nothing but white space is cut off, and all of it at both ends. */
  ghost predicate Trimmed(s: string, t: string) {
    && (t != "" ==> !IsWhite(t[0]) && !IsWhite(t[|t| - 1]))
    && exists a, b :: s == a + t + b && AllWhite(a) && AllWhite(b)
  }

  lemma {:induction false} TrimStartMeans(s: string) returns (a: string)
    ensures s == a + TrimStart(s) && AllWhite(a)
    ensures TrimStart(s) != "" ==> !IsWhite(TrimStart(s)[0])
  {
    if s != "" && IsWhite(s[0]) {
      var rest := TrimStartMeans(s[1..]);
      a := [s[0]] + rest;
      assert s == [s[0]] + s[1..];
    } else {
      a := "";
    }
  }

  lemma {:induction false} TrimEndMeans(s: string) returns (b: string)
    ensures s == TrimEnd(s) + b && AllWhite(b)
    ensures TrimEnd(s) != "" ==> !IsWhite(TrimEnd(s)[|TrimEnd(s)| - 1])
  {
    if s != "" && IsWhite(s[|s| - 1]) {
      var rest := TrimEndMeans(s[..|s| - 1]);
      b := rest + [s[|s| - 1]];
      assert s == s[..|s| - 1] + [s[|s| - 1]];
    } else {
      b := "";
    }
  }

  lemma TrimMeans(s: string)
    ensures Trimmed(s, Trim(s))
  {
    hide IsWhite, TrimStart, TrimEnd;
    var b := TrimEndMeans(s);
    var a := TrimStartMeans(TrimEnd(s));
    var t := Trim(s);
    assert s == a + t + b;
    if t != "" {
      assert TrimEnd(s)[|TrimEnd(s)| - 1] == t[|t| - 1];
    }
  }

  lemma {:induction false} TrimEndColon(front: string, v: string)
    ensures TrimEnd(front + ":" + v) == front + ":" + TrimEnd(v)
    decreases |v|
  {
    var s := front + ":" + v;
    if v == "" {
      assert s[|s| - 1] == ':';
    } else {
      assert s[|s| - 1] == v[|v| - 1];
      assert s[..|s| - 1] == front + ":" + v[..|v| - 1];
      if IsWhite(v[|v| - 1]) {
        TrimEndColon(front, v[..|v| - 1]);
      }
    }
  }

  lemma {:induction false} TrimStartColon(name: string, v: string)
    ensures TrimStart(name + ":" + v) == TrimStart(name) + ":" + v
  {
    var s := name + ":" + v;
    if name == "" {
      assert s[0] == ':';
    } else {
      assert s[0] == name[0] && s[1..] == name[1..] + ":" + v;
      if IsWhite(name[0]) {
        TrimStartColon(name[1..], v);
      }
    }
  }

  /** Trimming off what has been trimmed off already changes nothing. */
  lemma {:induction false} TrimEndTwice(s: string)
    ensures TrimEnd(TrimEnd(s)) == TrimEnd(s)
    decreases |s|
  {
    if s != "" && IsWhite(s[|s| - 1]) {
      TrimEndTwice(s[..|s| - 1]);
    }
  }

  lemma {:induction false} TrimStartTwice(s: string)
    ensures TrimStart(TrimStart(s)) == TrimStart(s)
    decreases |s|
  {
    if s != "" && IsWhite(s[0]) {
      TrimStartTwice(s[1..]);
    }
  }

  lemma {:induction false} TrimEndCons(c: char, s: string)
    ensures TrimEnd([c] + s) == if TrimEnd(s) != "" then [c] + TrimEnd(s) else if IsWhite(c) then "" else [c]
    decreases |s|
  {
    var t := [c] + s;
    if s == "" {
      assert t == [c] && t[..0] == "";
    } else {
      assert t[|t| - 1] == s[|s| - 1] && t[..|t| - 1] == [c] + s[..|s| - 1];
      if IsWhite(s[|s| - 1]) {
        TrimEndCons(c, s[..|s| - 1]);
      }
    }
  }

  lemma {:induction false} TrimCommutes(s: string)
    ensures TrimEnd(TrimStart(s)) == TrimStart(TrimEnd(s))
    decreases |s|
  {
    if s != "" {
      assert s == [s[0]] + s[1..];
      TrimEndCons(s[0], s[1..]);
      if IsWhite(s[0]) {
        TrimCommutes(s[1..]);
        if TrimEnd(s[1..]) != "" {
          assert ([s[0]] + TrimEnd(s[1..]))[1..] == TrimEnd(s[1..]);
        }
      }
    }
  }

  lemma TrimAgain(name: string, value: string)
    ensures Trim(TrimStart(name)) == Trim(name)
    ensures Trim(TrimEnd(value)) == Trim(value)
  {
    hide TrimStart, TrimEnd;
    TrimCommutes(name);
    TrimStartTwice(TrimEnd(name));
    TrimEndTwice(value);
  }

  // ---- one header ----

  /** `Content-Length` in some letter case, with any white space around it. */
  ghost predicate IsLengthName(name: string) {
    exists t: string :: Trimmed(name, t) && SpellsContentLength(t)
  }

  predicate Either(c: char, up: char, low: char) { c == up || c == low }

  predicate SpellsContentLength(t: string) {
    && |t| == 14
    && Either(t[0], 'C', 'c') && Either(t[1], 'O', 'o') && Either(t[2], 'N', 'n') && Either(t[3], 'T', 't') && Either(t[4], 'E', 'e')
    && Either(t[5], 'N', 'n') && Either(t[6], 'T', 't') && t[7] == '-' && Either(t[8], 'L', 'l') && Either(t[9], 'E', 'e')
    && Either(t[10], 'N', 'n') && Either(t[11], 'G', 'g') && Either(t[12], 'T', 't') && Either(t[13], 'H', 'h')
  }

  lemma AnyLetterCase(t: string)
    ensures EqIgnoreAsciiCase(t, "Content-Length") <==> SpellsContentLength(t)
  {
    var name := "Content-Length";
    assert |name| == 14;
    if |t| == 14 {
      SameLetter('C', t[0]); SameLetter('o', t[1]); SameLetter('n', t[2]); SameLetter('t', t[3]);
      SameLetter('e', t[4]); SameLetter('n', t[5]); SameLetter('t', t[6]); SameLetter('-', t[7]);
      SameLetter('L', t[8]); SameLetter('e', t[9]); SameLetter('n', t[10]); SameLetter('g', t[11]);
      SameLetter('t', t[12]); SameLetter('h', t[13]);
      LettersOf(t);
      hide Lower;
    }
  }

  lemma LettersOf(t: string)
    requires |t| == 14
    ensures EqIgnoreAsciiCase(t, "Content-Length") <==>
      && Lower(t[0]) == Lower('C') && Lower(t[1]) == Lower('o') && Lower(t[2]) == Lower('n') && Lower(t[3]) == Lower('t')
      && Lower(t[4]) == Lower('e') && Lower(t[5]) == Lower('n') && Lower(t[6]) == Lower('t') && Lower(t[7]) == Lower('-')
      && Lower(t[8]) == Lower('L') && Lower(t[9]) == Lower('e') && Lower(t[10]) == Lower('n') && Lower(t[11]) == Lower('g')
      && Lower(t[12]) == Lower('t') && Lower(t[13]) == Lower('h')
  {
    hide Lower;
    var name := "Content-Length";
    assert name[0] == 'C' && name[1] == 'o' && name[2] == 'n' && name[3] == 't' && name[4] == 'e' && name[5] == 'n'
        && name[6] == 't' && name[7] == '-' && name[8] == 'L' && name[9] == 'e' && name[10] == 'n' && name[11] == 'g'
        && name[12] == 't' && name[13] == 'h';
  }

  /** ASCII letters are the same letter in either case; a dash is only a dash. */
  lemma SameLetter(c: char, d: char)
    ensures 'a' <= c <= 'z' ==> (Lower(d) == Lower(c) <==> d == c - 'a' + 'A' || d == c)
    ensures 'A' <= c <= 'Z' ==> (Lower(d) == Lower(c) <==> d == c || d == c - 'A' + 'a')
    ensures c == '-' ==> (Lower(d) == Lower(c) <==> d == c)
  {
  }

  /** Where the trimmed part lies is determined by the white space. */
  lemma Edges(s: string, a: string, t: string, b: string)
    requires s == a + t + b && AllWhite(a) && AllWhite(b)
    ensures forall j | 0 <= j < |a| || |a| + |t| <= j < |s| :: IsWhite(s[j])
    ensures t == s[|a|..|a| + |t|]
  {
    hide IsWhite;
    forall j | 0 <= j < |a| || |a| + |t| <= j < |s| ensures IsWhite(s[j]) {
      assert s[j] == if j < |a| then a[j] else b[j - |a| - |t|];
    }
  }

  lemma TrimmedUnique(s: string, t: string, u: string)
    requires Trimmed(s, t) && Trimmed(s, u)
    ensures t == u
  {
    hide IsWhite;
    var a, b :| s == a + t + b && AllWhite(a) && AllWhite(b);
    var c, d :| s == c + u + d && AllWhite(c) && AllWhite(d);
    Edges(s, a, t, b);
    Edges(s, c, u, d);
    assert t != "" ==> t[0] == s[|a|] && t[|t| - 1] == s[|a| + |t| - 1];
    assert u != "" ==> u[0] == s[|c|] && u[|u| - 1] == s[|c| + |u| - 1];
    assert t == "" <==> u == "";
    assert t != "" ==> |a| == |c| && |a| + |t| == |c| + |u|;
  }

  lemma LengthName(name: string)
    ensures IsLengthName(name) <==> EqIgnoreAsciiCase(Trim(name), "Content-Length")
  {
    hide Trim, EqIgnoreAsciiCase, Trimmed, SpellsContentLength;
    TrimMeans(name);
    AnyLetterCase(Trim(name));
    if t: string :| Trimmed(name, t) && SpellsContentLength(t) {
      TrimmedUnique(name, t, Trim(name));
    }
  }

  function HeaderText(name: string, value: string): string { name + ":" + value + "\r\n" }

  lemma HeaderField(name: string, value: string)
    requires ':' !in name
    ensures ParseField(HeaderText(name, value))
            == if EqIgnoreAsciiCase(Trim(name), "Content-Length") then LengthField(Trim(value)) else OtherField
  {
    hide TrimStart, TrimEnd, EqIgnoreAsciiCase, IsWhite;
    var text := HeaderText(name, value);
    assert IsWhite('\r') && IsWhite('\n') by { LineEndingsWhite(); }
    assert text == name + ":" + value + "\r" + "\n";
    TrimEndWhite(name + ":" + value + "\r", '\n');
    TrimEndWhite(name + ":" + value, '\r');
    TrimEndColon(name, value);
    var u := TrimEnd(value);
    TrimStartColon(name, u);
    var line := TrimStart(name) + ":" + u;
    assert Trim(text) == line;
    var at := TrimStartMeans(name);
    forall j | 0 <= j < |TrimStart(name)| ensures line[j] != ':' {
      assert line[j] == TrimStart(name)[j] == name[|at| + j];
    }
    IndexOfUnique(line, ':', |TrimStart(name)|);
    assert line[..|TrimStart(name)|] == TrimStart(name) && line[|TrimStart(name)| + 1..] == u;
    TrimAgain(name, value);
  }

  lemma LineEndingsWhite()
    ensures IsWhite('\r') && IsWhite('\n')
  {
  }

  /** A header line as it may stand on the wire. */
  ghost predicate Sendable(name: string, value: string) {
    ':' !in name && '\n' !in name && '\n' !in value && |Encode(HeaderText(name, value))| <= 8192
  }

  function Line(name: string, value: string): seq<byte> { Encode(HeaderText(name, value)) }

  lemma LineRead(name: string, value: string, rest: seq<byte>)
    requires Sendable(name, value)
    ensures HeaderLine(Line(name, value) + rest) == Ok(Line(name, value)) && Line(name, value) != []
    ensures FieldOf(Line(name, value)) == Some(ParseField(HeaderText(name, value)))
  {
    hide HeaderLine, ParseField;
    var text := name + ":" + value + "\r";
    assert HeaderText(name, value) == text + "\n";
    EncodePlain(text);
    EncodeConcat(text, "\n");
    NewlineByte();
    hide Encode;
    LineEnds(Encode(text), [LF] + rest);
    Append(Encode(text), [LF], rest);
    DecodeEncode(HeaderText(name, value));
  }

  lemma NewlineByte()
    ensures Encode("\n") == [LF]
  {
  }

  lemma UnfoldOther(line: seq<byte>, rest: seq<byte>, length: Option<nat>, count: nat)
    requires HeaderLine(line + rest) == Ok(line) && line != [] && FieldOf(line) == Some(OtherField)
    requires count + |line| <= 32768
    ensures ReadHeaders(line + rest, length, count) == ReadHeaders(rest, length, count + |line|)
  {
    Limits();
    hide *;
    HeadersUnfold(line, rest, length, count);
  }

  lemma UnfoldLength(line: seq<byte>, rest: seq<byte>, length: Option<nat>, count: nat, value: string)
    requires HeaderLine(line + rest) == Ok(line) && line != [] && FieldOf(line) == Some(LengthField(value))
    requires count + |line| <= 32768
    ensures ReadHeaders(line + rest, length, count)
            == match AddLength(length, value)
               case Err(e) => Bad(e)
               case Ok(n) => ReadHeaders(rest, Some(n), count + |line|)
  {
    Limits();
    hide *;
    HeadersUnfold(line, rest, length, count);
  }

  /** Any other header changes neither the announced length nor what follows. */
  lemma OtherHeaderSkipped(name: string, value: string, rest: seq<byte>, length: Option<nat>, count: nat)
    requires Sendable(name, value) && !IsLengthName(name) && count + |Line(name, value)| <= 32768
    ensures ReadHeaders(Line(name, value) + rest, length, count) == ReadHeaders(rest, length, count + |Line(name, value)|)
  {
    hide *;
    LineRead(name, value, rest);
    SendableParts(name, value);
    HeaderField(name, value);
    LengthName(name);
    UnfoldOther(Line(name, value), rest, length, count);
  }

  lemma SendableParts(name: string, value: string)
    requires Sendable(name, value)
    ensures ':' !in name
  {
  }

  lemma Limits()
    ensures MAX_HEADER_BYTES == 32768 && MAX_HEADER_LINE_BYTES == 8192 && MAX_CONTENT_LENGTH == 67108864
  {
  }

  /** What a length header says, in any letter case and spacing: a number, signed
      or not, up to 64 MiB, and only once. */
  lemma LengthRead(name: string, value: string, digits: string, rest: seq<byte>, length: Option<nat>, count: nat)
    requires Sendable(name, value) && IsLengthName(name) && Trimmed(value, digits)
    requires count + |Line(name, value)| <= 32768
    ensures ReadHeaders(Line(name, value) + rest, length, count)
            == if length.Some? then Bad(DuplicateLength)
               else match Decimal.Parse(digits, 0xFFFF_FFFF_FFFF_FFFF)
                 case None => Bad(BadLength)
                 case Some(n) =>
                   if n > 67108864 then Bad(ContentTooLarge)
                   else ReadHeaders(rest, Some(n), count + |Line(name, value)|)
  {
    hide *;
    LineRead(name, value, rest);
    SendableParts(name, value);
    HeaderField(name, value);
    LengthName(name);
    TrimMeans(value);
    TrimmedUnique(value, digits, Trim(value));
    ValueAdded(digits, length);
    UnfoldLength(Line(name, value), rest, length, count, digits);
  }

  lemma ValueAdded(digits: string, length: Option<nat>)
    ensures AddLength(length, digits)
            == if length.Some? then Err(DuplicateLength)
               else match Decimal.Parse(digits, 0xFFFF_FFFF_FFFF_FFFF)
                 case None => Err(BadLength)
                 case Some(n) => if n > 67108864 then Err(ContentTooLarge) else Ok(n)
  {
    hide Decimal.Parse;
  }

  /** A header that is not UTF-8 is an error. */
  lemma UnreadableHeader(line: seq<byte>, rest: seq<byte>, length: Option<nat>, count: nat)
    requires LF !in line && |line| < 8192 && count + |line| + 1 <= 32768
    requires forall text :: Encode(text) != line + [LF]
    ensures ReadHeaders(line + ([LF] + rest), length, count) == Bad(HeaderNotUtf8)
  {
    Limits();
    hide HeaderLine, ReadHeaders, Encode, Decode;
    LineEnds(line, [LF] + rest);
    EncodeDecode(line + [LF]);
    Append(line, [LF], rest);
    HeadersUnfold(line + [LF], rest, length, count);
  }

  /** A printed length, in any letter case and spacing of its header. */
  lemma LengthAnnounced(name: string, value: string, n: nat, rest: seq<byte>, length: Option<nat>, count: nat)
    requires Sendable(name, value) && IsLengthName(name) && Trimmed(value, Decimal.Print(n))
    requires count + |Line(name, value)| <= 32768
    ensures ReadHeaders(Line(name, value) + rest, length, count)
            == if length.Some? then Bad(DuplicateLength)
               else if n > 0xFFFF_FFFF_FFFF_FFFF then Bad(BadLength)
               else if n > 67108864 then Bad(ContentTooLarge)
               else ReadHeaders(rest, Some(n), count + |Line(name, value)|)
  {
    hide *;
    LengthRead(name, value, Decimal.Print(n), rest, length, count);
    Decimal.ParsePrint(n, 0xFFFF_FFFF_FFFF_FFFF);
  }

  // ---- whole header blocks ----

  function Lines(headers: seq<(string, string)>): seq<byte> {
    if headers == [] then [] else Line(headers[0].0, headers[0].1) + Lines(headers[1..])
  }

  /** Headers that are not the length header. */
  ghost predicate Others(headers: seq<(string, string)>) {
    forall h <- headers :: Sendable(h.0, h.1) && !IsLengthName(h.0)
  }

  lemma {:induction false} OthersSkipped(headers: seq<(string, string)>, rest: seq<byte>, length: Option<nat>, count: nat)
    requires Others(headers) && count + |Lines(headers)| <= 32768
    ensures ReadHeaders(Lines(headers) + rest, length, count) == ReadHeaders(rest, length, count + |Lines(headers)|)
    decreases |headers|
  {
    hide *;
    if headers == [] {
      NoLines(rest);
    } else {
      var h, more := headers[0], headers[1..];
      LinesUnfold(headers);
      Append(Line(h.0, h.1), Lines(more), rest);
      OtherHeaderSkipped(h.0, h.1, Lines(more) + rest, length, count);
      OthersSkipped(more, rest, length, count + |Line(h.0, h.1)|);
    }
  }

  lemma NoLines(rest: seq<byte>)
    ensures Lines([]) == [] && Lines([]) + rest == rest
  {
  }

  lemma LinesUnfold(headers: seq<(string, string)>)
    requires headers != []
    ensures Lines(headers) == Line(headers[0].0, headers[0].1) + Lines(headers[1..])
    ensures Others(headers) ==>
              Sendable(headers[0].0, headers[0].1) && !IsLengthName(headers[0].0) && Others(headers[1..])
  {
    if Others(headers) {
      assert headers[0] in headers;
      assert forall h <- headers[1..] :: h in headers;
    }
  }

  lemma BlankEnds(rest: seq<byte>, length: Option<nat>, count: nat)
    requires count + 2 <= 32768
    ensures ReadHeaders([13, 10] + rest, length, count) == Complete(length, rest)
  {
    BlankHeader(rest);
    Limits();
    BlankBytes();
    hide *;
    HeadersUnfold([13, 10], rest, length, count);
  }

  lemma BlankBytes()
    ensures Encode("\r" + "\n") == [13, 10] && FieldOf([13, 10]) == Some(Blank)
  {
    BlankHeader([]);
    assert "\r" + "\n" == ['\r', '\n'];
    assert ['\r', '\n'][1..] == ['\n'] && ['\n'][1..] == [];
    assert EncodeChar('\r') == [13] && EncodeChar('\n') == [10];
  }

  /** A header block: the length header somewhere among others. */
  function Block(before: seq<(string, string)>, name: string, value: string, after: seq<(string, string)>): seq<byte> {
    Lines(before) + (Line(name, value) + (Lines(after) + [13, 10]))
  }

  lemma BlockParts(before: seq<(string, string)>, name: string, value: string, after: seq<(string, string)>, rest: seq<byte>)
    ensures Block(before, name, value, after) + rest
            == Lines(before) + (Line(name, value) + (Lines(after) + ([13, 10] + rest)))
    ensures |Block(before, name, value, after)| == |Lines(before)| + |Line(name, value)| + |Lines(after)| + 2
  {
    hide Lines, Line;
    var a, l, b := Lines(before), Line(name, value), Lines(after);
    Append(b, [13, 10], rest);
    Append(l, b + [13, 10], rest);
    Append(a, l + (b + [13, 10]), rest);
  }

  lemma BlockRead(before: seq<(string, string)>, name: string, value: string, n: nat, after: seq<(string, string)>, rest: seq<byte>)
    requires Others(before) && Others(after)
    requires Sendable(name, value) && IsLengthName(name) && Trimmed(value, Decimal.Print(n)) && n <= 67108864
    requires |Block(before, name, value, after)| <= 32768
    ensures ReadHeaders(Block(before, name, value, after) + rest, None, 0) == Complete(Some(n), rest)
  {
    hide *;
    var a, l, b := Lines(before), Line(name, value), Lines(after);
    BlockParts(before, name, value, after, rest);
    OthersSkipped(before, l + (b + ([13, 10] + rest)), None, 0);
    LengthAnnounced(name, value, n, b + ([13, 10] + rest), None, |a|);
    OthersSkipped(after, [13, 10] + rest, Some(n), |a| + |l|);
    BlankEnds(rest, Some(n), |a| + |l| + |b|);
  }

  /** Whatever other headers surround the length header, the message is read, and
      the stream goes on behind its body; cut short, it is an error. */
  lemma MessageRead(before: seq<(string, string)>, name: string, value: string, after: seq<(string, string)>,
                    body: seq<byte>, more: seq<byte>, json: seq<byte> -> bool)
    requires Others(before) && Others(after)
    requires Sendable(name, value) && IsLengthName(name) && Trimmed(value, Decimal.Print(|body|)) && |body| <= 67108864
    requires |Block(before, name, value, after)| <= 32768
    ensures ReadStream(Block(before, name, value, after) + (body + more), json)
            == if json(body) then ([body] + ReadStream(more, json).0, ReadStream(more, json).1) else ([], Failed(BadJson))
    ensures forall k | 0 <= k < |body| ::
              ReadStream(Block(before, name, value, after) + body[..k], json) == ([], Failed(BodyTruncated))
  {
    var block := Block(before, name, value, after);
    hide *;
    BlockRead(before, name, value, |body|, after, body + more);
    BodyUnfold(body, more, json);
    StreamUnfold(block + (body + more), json);
    forall k | 0 <= k < |body| ensures ReadStream(block + body[..k], json) == ([], Failed(BodyTruncated)) {
      BlockRead(before, name, value, |body|, after, body[..k]);
      BodyMissing(|body|, body[..k], json);
      StreamUnfold(block + body[..k], json);
    }
  }

  /** Without a length header a message is an error, and with two. */
  lemma LengthExactlyOnce(before: seq<(string, string)>, name: string, value: string, n: nat,
                          between: seq<(string, string)>, name': string, value': string, n': nat,
                          rest: seq<byte>, json: seq<byte> -> bool)
    requires Others(before) && Others(between)
    requires Sendable(name, value) && IsLengthName(name) && Trimmed(value, Decimal.Print(n)) && n <= 67108864
    requires Sendable(name', value') && IsLengthName(name') && Trimmed(value', Decimal.Print(n'))
    requires |Lines(before)| + |Line(name, value)| + |Lines(between)| + |Line(name', value')| + 2 <= 32768
    ensures ReadStream(Lines(before) + ([13, 10] + rest), json) == ([], Failed(MissingLength))
    ensures ReadStream(Lines(before) + (Line(name, value) + (Lines(between) + (Line(name', value') + rest))), json)
            == ([], Failed(DuplicateLength))
  {
    var a, l, b, l' := Lines(before), Line(name, value), Lines(between), Line(name', value');
    hide *;
    OthersSkipped(before, [13, 10] + rest, None, 0);
    BlankEnds(rest, None, |a|);
    BodyUnframed(rest, json);
    StreamUnfold(a + ([13, 10] + rest), json);
    OthersSkipped(before, l + (b + (l' + rest)), None, 0);
    LengthAnnounced(name, value, n, b + (l' + rest), None, |a|);
    OthersSkipped(between, l' + rest, Some(n), |a| + |l|);
    LengthAnnounced(name', value', n', rest, Some(n), |a| + |l| + |b|);
    StreamUnfold(a + (l + (b + (l' + rest))), json);
  }

  /** A header line longer than 8192 bytes is refused, and so are headers of more
      than 32768 bytes in all. */
  lemma HeaderLimits(line: seq<byte>, rest: seq<byte>, headers: seq<(string, string)>, name: string, value: string)
    requires LF !in line && |line| >= 8192 && (|line| > 8192 || rest != [])
    requires Others(headers) && Sendable(name, value) && |Lines(headers)| <= 32768 < |Lines(headers)| + |Line(name, value)|
    ensures ReadHeaders(line + rest, None, 0) == Bad(HeaderLineTooLong)
    ensures ReadHeaders(Lines(headers) + (Line(name, value) + rest), None, 0) == Bad(HeadersTooLong)
  {
    LongLineRefused(line, rest);
    LineRead(name, value, rest);
    Limits();
    hide *;
    HeadersFail(line + rest, None, 0);
    OthersSkipped(headers, Line(name, value) + rest, None, 0);
    HeadersUnfold(Line(name, value), rest, None, |Lines(headers)|);
  }

  lemma LongLineRefused(line: seq<byte>, rest: seq<byte>)
    requires LF !in line && |line| >= 8192 && (|line| > 8192 || rest != [])
    ensures HeaderLine(line + rest) == Err(HeaderLineTooLong)
  {
    var all := line + rest;
    forall j | 0 <= j < |line| ensures all[j] != LF {
      assert all[j] == line[j];
    }
    assert IndexOf(all, LF) >= |line|;
  }
}
