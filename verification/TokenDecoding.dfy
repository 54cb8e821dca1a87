/** Semantic tokens are positioned relative to one another. The client decodes
    them with 32-bit arithmetic, which wraps in a release build. */
module TokenDecoding {
  import opened TokenEdits

  const U32: nat := 0x1_0000_0000

  datatype Item = Item(line: nat, start: nat, length: nat)

  predicate Fits(t: Token) { t.deltaLine < U32 && t.deltaStart < U32 && t.length < U32 }

  predicate AllFit(tokens: seq<Token>) { forall t <- tokens :: Fits(t) }

  function Place(line: nat, start: nat, t: Token): Item {
    if t.deltaLine > 0 then Item((line + t.deltaLine) % U32, t.deltaStart, t.length)
    else Item(line, (start + t.deltaStart) % U32, t.length)
  }

  function Decode(tokens: seq<Token>, line: nat, start: nat): seq<Item> {
    if tokens == [] then []
    else
      var item := Place(line, start, tokens[0]);
      [item] + Decode(tokens[1..], item.line, item.start)
  }

  /** The line and start carried past a run of tokens. */
  function Carried(tokens: seq<Token>, line: nat, start: nat): (nat, nat) {
    if tokens == [] then (line, start)
    else
      var item := Place(line, start, tokens[0]);
      Carried(tokens[1..], item.line, item.start)
  }

  method DecodeRawTokens(data: seq<Token>) returns (decoded: seq<Item>)
    ensures decoded == Decode(data, 0, 0)
  {
    decoded := [];
    var line, start := 0, 0;
    for i := 0 to |data|
      invariant decoded == Decode(data[..i], 0, 0)
      invariant (line, start) == Carried(data[..i], 0, 0)
    {
      var token := data[i];
      assert data[..i + 1] == data[..i] + [token];
      DecodeConcat(data[..i], [token], 0, 0);
      if token.deltaLine > 0 {
        line := (line + token.deltaLine) % U32;
        start := token.deltaStart;
      } else {
        start := (start + token.deltaStart) % U32;
      }
      decoded := decoded + [Item(line, start, token.length)];
    }
    assert data[..|data|] == data;
  }

  /** Decoding a concatenation is decoding the first part and then, from where
      that left off, the second. */
  lemma {:induction false} DecodeConcat(a: seq<Token>, b: seq<Token>, line: nat, start: nat)
    ensures var (l, s) := Carried(a, line, start);
            && Decode(a + b, line, start) == Decode(a, line, start) + Decode(b, l, s)
            && Carried(a + b, line, start) == Carried(b, l, s)
  {
    if a == [] {
      assert a + b == b;
    } else {
      var item := Place(line, start, a[0]);
      assert (a + b)[1..] == a[1..] + b;
      DecodeConcat(a[1..], b, item.line, item.start);
    }
  }

  // ---- the inverse ----

  function Relative(line: nat, start: nat, item: Item): Token
    requires Before(line, start, item)
  {
    if item.line > line then Token(item.line - line, item.start, item.length, 0, 0)
    else Token(0, item.start - start, item.length, 0, 0)
  }

  predicate Before(line: nat, start: nat, item: Item) {
    line < item.line || (line == item.line && start <= item.start)
  }

  /** Lexicographically non-decreasing from a given position. */
  predicate Ascending(items: seq<Item>, line: nat, start: nat) {
    items == [] || (Before(line, start, items[0]) && Ascending(items[1..], items[0].line, items[0].start))
  }

  predicate ItemsFit(items: seq<Item>) { forall i <- items :: i.line < U32 && i.start < U32 && i.length < U32 }

  function Encode(items: seq<Item>, line: nat, start: nat): seq<Token>
    requires Ascending(items, line, start)
  {
    if items == [] then []
    else [Relative(line, start, items[0])] + Encode(items[1..], items[0].line, items[0].start)
  }

  /** Only positions and lengths survive decoding in this model. */
  function Bare(tokens: seq<Token>): seq<Token> {
    if tokens == [] then []
    else [Token(tokens[0].deltaLine, tokens[0].deltaStart, tokens[0].length, 0, 0)] + Bare(tokens[1..])
  }

  /** No 32-bit sum wraps on the way. */
  predicate NoWrap(tokens: seq<Token>, line: nat, start: nat) {
    tokens == [] ||
    var t := tokens[0];
    && (if t.deltaLine > 0 then line + t.deltaLine < U32 else start + t.deltaStart < U32)
    && NoWrap(tokens[1..], Place(line, start, t).line, Place(line, start, t).start)
  }

  lemma {:induction false} DecodeEncode(items: seq<Item>, line: nat, start: nat)
    requires Ascending(items, line, start) && ItemsFit(items)
    ensures Decode(Encode(items, line, start), line, start) == items
  {
    if items != [] {
      var i := items[0];
      assert i in items;
      var rest := Encode(items[1..], i.line, i.start);
      assert Place(line, start, Relative(line, start, i)) == i;
      DecodeEncode(items[1..], i.line, i.start);
      assert ([Relative(line, start, i)] + rest)[1..] == rest;
    }
  }

  /** Decoded positions never go backwards exactly when no sum wraps. */
  lemma {:induction false} AscendingIffNoWrap(tokens: seq<Token>, line: nat, start: nat)
    requires AllFit(tokens) && line < U32 && start < U32
    ensures Ascending(Decode(tokens, line, start), line, start) <==> NoWrap(tokens, line, start)
  {
    if tokens != [] {
      var item := Place(line, start, tokens[0]);
      assert tokens[0] in tokens;
      AscendingIffNoWrap(tokens[1..], item.line, item.start);
      var rest := Decode(tokens[1..], item.line, item.start);
      assert ([item] + rest)[1..] == rest;
    }
  }

  /** And then encoding the decoded positions gives back the very same deltas. */
  lemma {:induction false} EncodeDecode(tokens: seq<Token>, line: nat, start: nat)
    requires AllFit(tokens) && line < U32 && start < U32 && NoWrap(tokens, line, start)
    ensures Ascending(Decode(tokens, line, start), line, start)
    ensures Encode(Decode(tokens, line, start), line, start) == Bare(tokens)
  {
    AscendingIffNoWrap(tokens, line, start);
    if tokens != [] {
      var t := tokens[0];
      var item := Place(line, start, t);
      assert t in tokens;
      var rest := Decode(tokens[1..], item.line, item.start);
      EncodeDecode(tokens[1..], item.line, item.start);
      assert ([item] + rest)[1..] == rest;
    }
  }

  // ---- absolute positions ----

  function Lines(tokens: seq<Token>): nat { if tokens == [] then 0 else tokens[0].deltaLine + Lines(tokens[1..]) }

  function Starts(tokens: seq<Token>): nat { if tokens == [] then 0 else tokens[0].deltaStart + Starts(tokens[1..]) }

  lemma SumsModulo(a: nat, b: nat, c: nat)
    ensures ((a + b) % U32 + c) % U32 == (a + (b + c)) % U32
  {
  }

  lemma {:induction false} CarriedLine(tokens: seq<Token>, line: nat, start: nat)
    requires AllFit(tokens) && line < U32
    ensures Carried(tokens, line, start).0 == (line + Lines(tokens)) % U32
  {
    if tokens != [] {
      var item := Place(line, start, tokens[0]);
      assert tokens[0] in tokens;
      SumsModulo(line, tokens[0].deltaLine, Lines(tokens[1..]));
      CarriedLine(tokens[1..], item.line, item.start);
    }
  }

  lemma {:induction false} CarriedStart(same: seq<Token>, line: nat, start: nat)
    requires AllFit(same) && start < U32 && forall t <- same :: t.deltaLine == 0
    ensures Carried(same, line, start) == (line, (start + Starts(same)) % U32)
  {
    if same != [] {
      assert same[0] in same;
      SumsModulo(start, same[0].deltaStart, Starts(same[1..]));
      CarriedStart(same[1..], line, (start + same[0].deltaStart) % U32);
    }
  }

  lemma {:induction false} DecodeLast(tokens: seq<Token>, line: nat, start: nat)
    ensures |Decode(tokens, line, start)| == |tokens|
    ensures tokens != [] ==>
              var (l, s) := Carried(tokens, line, start);
              Decode(tokens, line, start)[|tokens| - 1] == Item(l, s, tokens[|tokens| - 1].length)
  {
    if tokens != [] {
      var item := Place(line, start, tokens[0]);
      DecodeLast(tokens[1..], item.line, item.start);
    }
  }

  /** A token's line is the sum of all line deltas so far, and its start that of
      the start deltas since the last token that began a line, which are taken
      modulo 2^32; the tokens after it do not matter. */
  lemma PositionsAreSums(before: seq<Token>, first: Token, same: seq<Token>, after: seq<Token>)
    requires AllFit(before + [first] + same) && first.deltaLine > 0 && forall t <- same :: t.deltaLine == 0
    ensures var tokens, k := before + [first] + same + after, |before| + |same|;
      && |Decode(tokens, 0, 0)| == |tokens|
      && Decode(tokens, 0, 0)[k]
         == Item(Lines(before + [first]) % 0x1_0000_0000, (first.deltaStart + Starts(same)) % 0x1_0000_0000, tokens[k].length)
  {
    var front := before + [first];
    var tokens := front + same;
    assert first in tokens && front[|before|] == first;
    assert forall t <- same :: t in tokens;
    assert forall t <- front :: t in tokens;
    DecodeConcat(tokens, after, 0, 0);
    DecodeLast(tokens, 0, 0);
    DecodeLast(tokens + after, 0, 0);
    DecodeConcat(front, same, 0, 0);
    DecodeConcat(before, [first], 0, 0);
    CarriedLine(front, 0, 0);
    CarriedStart(same, Lines(front) % U32, first.deltaStart);
  }

  /** Until a token begins a line, all are on the first. */
  lemma FirstLine(same: seq<Token>, after: seq<Token>)
    requires AllFit(same) && same != [] && forall t <- same :: t.deltaLine == 0
    ensures |Decode(same + after, 0, 0)| == |same + after|
    ensures Decode(same + after, 0, 0)[|same| - 1] == Item(0, Starts(same) % 0x1_0000_0000, same[|same| - 1].length)
  {
    DecodeConcat(same, after, 0, 0);
    DecodeLast(same, 0, 0);
    DecodeLast(same + after, 0, 0);
    CarriedStart(same, 0, 0);
  }
}
