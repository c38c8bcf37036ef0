// Byte streams between two ends of a connection.
module Streams {
  import opened Prelude

  /** Receiving `n` bytes gives what is there, up to `n`. */
  function Front(stream: seq<Byte>, n: nat): seq<Byte> {
    if n <= |stream| then stream[..n] else stream
  }

  function Rest(stream: seq<Byte>, n: nat): seq<Byte> {
    if n <= |stream| then stream[n..] else []
  }

  /** A connected stream socket: bytes sent and not yet received. */
  class Stream {
    var bytes: seq<Byte>

    constructor ()
      ensures bytes == []
    {
      bytes := [];
    }

    method SendBytes(data: seq<Byte>)
      modifies this
      ensures bytes == old(bytes) + data
    {
      bytes := bytes + data;
    }

    method ReceiveBytes(n: nat) returns (data: seq<Byte>)
      modifies this
      ensures data == Front(old(bytes), n) && bytes == Rest(old(bytes), n)
    {
      data := Front(bytes, n);
      bytes := Rest(bytes, n);
    }
  }
}
