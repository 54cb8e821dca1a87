/** A buffered asynchronous reader. The peer decides how the stream is cut into
    chunks; `Stream` is everything not yet consumed, however it is cut. */
module ByteSource {
  import opened Utf8

  const LF: byte := 10
  const CR: byte := 13

  function Flatten(chunks: seq<seq<byte>>): seq<byte> {
    if chunks == [] then [] else chunks[0] + Flatten(chunks[1..])
  }

  class Reader {
    var buffer: seq<byte>
    var chunks: seq<seq<byte>>

    constructor (chunks: seq<seq<byte>>)
      requires [] !in chunks
      ensures Valid() && Stream() == Flatten(chunks)
    {
      this.buffer := [];
      this.chunks := chunks;
    }

    ghost predicate Valid()
      reads this
    {
      [] !in chunks
    }

    ghost function Stream(): seq<byte>
      reads this
    {
      buffer + Flatten(chunks)
    }

    /** What is buffered; reads one more chunk only when nothing is. An empty
        answer means the end of the stream. */
    method FillBuf() returns (available: seq<byte>)
      requires Valid()
      modifies this
      ensures Valid() && Stream() == old(Stream())
      ensures available == buffer && available <= Stream()
      ensures available == [] <==> Stream() == []
    {
      if buffer == [] && chunks != [] {
        buffer, chunks := chunks[0], chunks[1..];
        assert Stream() == old(Stream());
      }
      available := buffer;
    }

    method Consume(n: nat)
      requires Valid() && n <= |buffer|
      modifies this
      ensures Valid() && old(Stream()) == old(buffer)[..n] + Stream()
    {
      buffer := buffer[n..];
      assert old(buffer) == old(buffer)[..n] + buffer;
    }

    /** Fill a body of exactly `size` bytes, or fail at the end of the stream. */
    method ReadExact(size: nat) returns (ok: bool, body: seq<byte>)
      requires Valid()
      modifies this
      ensures Valid()
      ensures ok <==> size <= |old(Stream())|
      ensures ok ==> |body| == size && old(Stream()) == body + Stream()
    {
      body := [];
      while |body| < size
        invariant Valid() && |body| <= size
        invariant old(Stream()) == body + Stream()
        decreases size - |body|
      {
        var available := FillBuf();
        if available == [] {
          return false, body;
        }
        var n := if |available| <= size - |body| then |available| else size - |body|;
        Consume(n);
        Append(body, available[..n], Stream());
        body := body + available[..n];
      }
      ok := true;
    }
  }

  lemma Append(a: seq<byte>, b: seq<byte>, c: seq<byte>)
    ensures a + (b + c) == a + b + c
  {
  }
}
