/** The order of Rust strings: byte by byte over their UTF-8 form, a proper
    prefix first. Names and completion keys are compared this way. */
module Lexicographic {
  import opened Utf8

  predicate BytesLe(a: seq<byte>, b: seq<byte>) {
    a == [] || (b != [] && (a[0] < b[0] || (a[0] == b[0] && BytesLe(a[1..], b[1..]))))
  }

  lemma {:induction false} BytesTotal(a: seq<byte>, b: seq<byte>)
    ensures BytesLe(a, b) || BytesLe(b, a)
  {
    if a != [] && b != [] {
      BytesTotal(a[1..], b[1..]);
    }
  }

  lemma {:induction false} BytesTransitive(a: seq<byte>, b: seq<byte>, c: seq<byte>)
    requires BytesLe(a, b) && BytesLe(b, c)
    ensures BytesLe(a, c)
  {
    if a != [] && a[0] == b[0] == c[0] {
      BytesTransitive(a[1..], b[1..], c[1..]);
    }
  }

  lemma {:induction false} BytesAntisymmetric(a: seq<byte>, b: seq<byte>)
    requires BytesLe(a, b) && BytesLe(b, a)
    ensures a == b
  {
    if a != [] {
      BytesAntisymmetric(a[1..], b[1..]);
      assert a == [a[0]] + a[1..] && b == [b[0]] + b[1..];
    }
  }

  predicate StrLe(a: string, b: string) { BytesLe(Encode(a), Encode(b)) }

  /** A total order on strings: two strings compare equal only if they are the
      same string, because UTF-8 can be read back. */
  lemma StrOrder(a: string, b: string, c: string)
    ensures StrLe(a, b) || StrLe(b, a)
    ensures StrLe(a, b) && StrLe(b, a) <==> a == b
    ensures StrLe(a, b) && StrLe(b, c) ==> StrLe(a, c)
  {
    hide Encode, Decode, BytesLe;
    BytesTotal(Encode(a), Encode(b));
    if StrLe(a, b) && StrLe(b, a) {
      BytesAntisymmetric(Encode(a), Encode(b));
      DecodeEncode(a);
      DecodeEncode(b);
    }
    if StrLe(a, b) && StrLe(b, c) {
      BytesTransitive(Encode(a), Encode(b), Encode(c));
    }
  }

  /** The first difference decides, and a prefix comes first. */
  lemma {:induction false} FirstDifference(p: seq<byte>, x: seq<byte>, y: seq<byte>)
    ensures x != [] && y != [] && x[0] < y[0] ==> BytesLe(p + x, p + y) && !BytesLe(p + y, p + x)
    ensures BytesLe(p, p + x) && (x != [] ==> !BytesLe(p + x, p))
  {
    if p == [] {
      assert p + x == x && p + y == y;
    } else {
      assert (p + x)[1..] == p[1..] + x && (p + y)[1..] == p[1..] + y;
      FirstDifference(p[1..], x, y);
    }
  }
}
