/** UTF-8 as `str::as_bytes` writes it and `String::from_utf8` reads it, and the
    UTF-16 unit count of a character. A Dafny `char` is a Unicode scalar value,
    like a Rust one. */
module Utf8 {
  import opened Wrappers

  type byte = x: int | 0 <= x < 256

  function Tail(n: nat): byte { 0x80 + n % 64 }

  function EncodeChar(ch: char): (bytes: seq<byte>)
    ensures 1 <= |bytes| <= 4
  {
    var c := ch as int;
    if c < 0x80 then [c]
    else if c < 0x800 then [0xC0 + c / 64, Tail(c)]
    else if c < 0x10000 then [0xE0 + c / 4096, Tail(c / 64), Tail(c)]
    else [0xF0 + c / 262144, Tail(c / 4096), Tail(c / 64), Tail(c)]
  }

  function Encode(s: string): seq<byte> {
    if s == "" then [] else EncodeChar(s[0]) + Encode(s[1..])
  }

  predicate IsTail(b: byte) { 0x80 <= b < 0xC0 }

  function Low(b: byte): int { b as int - 0x80 }

  /** A decoded code point must be a scalar value that needs this many bytes. */
  function Scalar(v: int, least: nat, size: nat): Option<(char, nat)> {
    if least <= v < 0x110000 && !(0xD800 <= v < 0xE000) then Some((v as char, size)) else None
  }

  /** The first character of a byte string and how many bytes it takes. */
  function DecodeChar(b: seq<byte>): (r: Option<(char, nat)>)
    ensures r.Some? ==> 1 <= r.value.1 <= |b|
  {
    if b == [] then None
    else if b[0] < 0x80 then Scalar(b[0], 0, 1)
    else if 0xC0 <= b[0] < 0xE0 && |b| > 1 && IsTail(b[1]) then
      Scalar((b[0] as int - 0xC0) * 64 + Low(b[1]), 0x80, 2)
    else if 0xE0 <= b[0] < 0xF0 && |b| > 2 && IsTail(b[1]) && IsTail(b[2]) then
      Scalar((b[0] as int - 0xE0) * 4096 + Low(b[1]) * 64 + Low(b[2]), 0x800, 3)
    else if 0xF0 <= b[0] < 0xF8 && |b| > 3 && IsTail(b[1]) && IsTail(b[2]) && IsTail(b[3]) then
      Scalar((b[0] as int - 0xF0) * 262144 + Low(b[1]) * 4096 + Low(b[2]) * 64 + Low(b[3]), 0x10000, 4)
    else None
  }

  function Decode(b: seq<byte>): (r: Option<string>) {
    if b == [] then Some("")
    else match DecodeChar(b)
      case None => None
      case Some((c, n)) =>
        match Decode(b[n..])
        case None => None
        case Some(s) => Some([c] + s)
  }

  lemma DecodeEncodedChar(c: char, rest: seq<byte>)
    ensures DecodeChar(EncodeChar(c) + rest) == Some((c, |EncodeChar(c)|))
  {
    var b := EncodeChar(c) + rest;
    var n, size := c as int, |EncodeChar(c)|;
    if size == 1 {
      assert b[0] == n;
    } else if size == 2 {
      assert b[0] == 0xC0 + n / 64 && b[1] == Tail(n);
    } else if size == 3 {
      assert b[0] == 0xE0 + n / 4096 && b[1] == Tail(n / 64) && b[2] == Tail(n);
      assert n / 4096 == n / 64 / 64;
    } else {
      assert b[0] == 0xF0 + n / 262144 && b[1] == Tail(n / 4096) && b[2] == Tail(n / 64) && b[3] == Tail(n);
      assert n / 262144 == n / 64 / 64 / 64 && n / 4096 == n / 64 / 64;
    }
  }

  /** Decoding inverts encoding. */
  lemma {:induction false} DecodeEncode(s: string)
    ensures Decode(Encode(s)) == Some(s)
  {
    if s != "" {
      var head, rest := EncodeChar(s[0]), Encode(s[1..]);
      DecodeEncodedChar(s[0], rest);
      assert (head + rest)[|head|..] == rest;
      DecodeEncode(s[1..]);
      assert s == [s[0]] + s[1..];
    }
  }

  lemma Digits64(a: int, b: int, c: int, d: int)
    requires 0 <= b < 64 && 0 <= c < 64 && 0 <= d < 64
    ensures var v := a * 262144 + b * 4096 + c * 64 + d;
            v / 262144 == a && v / 4096 == a * 64 + b && v / 64 == a * 4096 + b * 64 + c && v % 64 == d
    ensures (a * 64 + b) % 64 == b && (a * 4096 + b * 64 + c) % 64 == c
  {
  }

  /** From the digits of a code point back to its bytes, size by size. */
  lemma EncodeTwo(b: seq<byte>)
    requires DecodeChar(b).Some? && DecodeChar(b).value.1 == 2
    ensures EncodeChar(DecodeChar(b).value.0) == b[..2]
  {
    Digits64(0, 0, b[0] as int - 0xC0, Low(b[1]));
  }

  lemma EncodeThree(b: seq<byte>)
    requires DecodeChar(b).Some? && DecodeChar(b).value.1 == 3
    ensures EncodeChar(DecodeChar(b).value.0) == b[..3]
  {
    Digits64(0, b[0] as int - 0xE0, Low(b[1]), Low(b[2]));
  }

  lemma EncodeFour(b: seq<byte>)
    requires DecodeChar(b).Some? && DecodeChar(b).value.1 == 4
    ensures EncodeChar(DecodeChar(b).value.0) == b[..4]
  {
    Digits64(b[0] as int - 0xF0, Low(b[1]), Low(b[2]), Low(b[3]));
  }

  lemma EncodeDecodedChar(b: seq<byte>)
    requires DecodeChar(b).Some?
    ensures EncodeChar(DecodeChar(b).value.0) == b[..DecodeChar(b).value.1]
  {
    var size := DecodeChar(b).value.1;
    if size == 2 {
      EncodeTwo(b);
    } else if size == 3 {
      EncodeThree(b);
    } else if size == 4 {
      EncodeFour(b);
    }
  }

  /** And only well-formed byte strings decode: to the string they encode. */
  lemma {:induction false} EncodeDecode(b: seq<byte>)
    ensures Decode(b).Some? ==> Encode(Decode(b).value) == b
  {
    if b != [] && DecodeChar(b).Some? {
      var (ch, size) := DecodeChar(b).value;
      EncodeDecodedChar(b);
      EncodeDecode(b[size..]);
      if Decode(b[size..]).Some? {
        var rest := Decode(b[size..]).value;
        assert ([ch] + rest)[1..] == rest;
      }
    }
  }

  lemma {:induction false} EncodeConcat(s: string, t: string)
    ensures Encode(s + t) == Encode(s) + Encode(t)
  {
    if s == "" {
      assert s + t == t;
    } else {
      assert (s + t)[1..] == s[1..] + t;
      EncodeConcat(s[1..], t);
    }
  }

  function Utf16Len(c: char): nat { if c as int < 0x10000 then 1 else 2 }

  /** The four forms of the Unicode Standard, table 3-6: how many bytes, which lead
      and trail bytes, and the code point they spell. */
  lemma EncodingForms(c: char)
    ensures var b, n := EncodeChar(c), c as int;
      if n <= 0x7F then b == [n as byte]
      else if n <= 0x7FF then
        && |b| == 2 && 0xC2 <= b[0] <= 0xDF && 0x80 <= b[1] <= 0xBF
        && (b[0] as int - 0xC0) * 0x40 + (b[1] as int - 0x80) == n
      else if n <= 0xFFFF then
        && |b| == 3 && 0xE0 <= b[0] <= 0xEF && 0x80 <= b[1] <= 0xBF && 0x80 <= b[2] <= 0xBF
        && (b[0] as int - 0xE0) * 0x1000 + (b[1] as int - 0x80) * 0x40 + (b[2] as int - 0x80) == n
      else
        && |b| == 4 && 0xF0 <= b[0] <= 0xF4 && 0x80 <= b[1] <= 0xBF && 0x80 <= b[2] <= 0xBF && 0x80 <= b[3] <= 0xBF
        && (b[0] as int - 0xF0) * 0x40000 + (b[1] as int - 0x80) * 0x1000
           + (b[2] as int - 0x80) * 0x40 + (b[3] as int - 0x80) == n
  {
    var n := c as int;
    assert n == n / 64 * 64 + n % 64;
    assert n / 64 == n / 4096 * 64 + n / 64 % 64;
    assert n / 4096 == n / 262144 * 64 + n / 4096 % 64;
  }

  /** UTF-16: one unit, or a high and a low surrogate. */
  function Utf16(c: char): seq<nat> {
    var n := c as int;
    if n < 0x10000 then [n] else [0xD800 + (n - 0x10000) / 0x400, 0xDC00 + (n - 0x10000) % 0x400]
  }

  /** A character counts as many units as its UTF-16 form has; a pair of surrogates
      spells its code point, and a single unit is never one of them. */
  lemma Utf16Units(c: char)
    ensures Utf16Len(c) == |Utf16(c)|
    ensures var u, n := Utf16(c), c as int;
      if |u| == 1 then u[0] == n && !(0xD800 <= n <= 0xDFFF)
      else |u| == 2 && 0xD800 <= u[0] <= 0xDBFF && 0xDC00 <= u[1] <= 0xDFFF
           && 0x10000 + (u[0] - 0xD800) * 0x400 + (u[1] - 0xDC00) == n
  {
  }
}
