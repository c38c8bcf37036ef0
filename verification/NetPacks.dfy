// Framing of messages on a stream (public/netpack/src/netpack.cc): a four-byte header length in network
// order, the header, and a payload whose length the header gives. The header codec is a parameter.
module NetPacks {
  import opened Prelude
  import opened Streams

  datatype Header = Header(payloadType: int, payloadLength: int, messageName: string)

  /** The header's serializer and parser. */
  datatype Codec = Codec(write: Header -> seq<Byte>, read: seq<Byte> -> Option<Header>)

  ghost predicate RoundTrips(codec: Codec) {
    forall h :: codec.read(codec.write(h)) == Some(h)
  }

  datatype Code =
    | Ok
    | GracefulShutdown
    | BadHeaderLength
    | AssertionFailed
    | BadHeader
    | BadPayloadLength
    | BadPayload

  // ----- the length prefix -----

  const HEADER_LIMIT := 1000

  function Digit(n: nat): Byte {
    (n % 256) as Byte
  }

  /** A 32-bit length, most significant byte first. */
  function ToNetwork(n: nat): seq<Byte> {
    [Digit(n / 0x100_0000), Digit(n / 0x1_0000), Digit(n / 0x100), Digit(n)]
  }

  function Unsigned(bytes: seq<Byte>): nat
    requires |bytes| == 4
  {
    ((bytes[0] as int * 256 + bytes[1] as int) * 256 + bytes[2] as int) * 256 + bytes[3] as int
  }

  /** Read back as a signed number. */
  function FromNetwork(bytes: seq<Byte>): int
    requires |bytes| == 4
  {
    var v := Unsigned(bytes);
    if v <= 0x7fff_ffff then v else v - 0x1_0000_0000
  }

  /** Every 32-bit length comes back, as the signed number with the same bits. */
  lemma NetworkRoundTrip(n: nat)
    requires n < 0x1_0000_0000
    ensures FromNetwork(ToNetwork(n)) == if n <= 0x7fff_ffff then n else n - 0x1_0000_0000
  {
    hide Unsigned;
    UnsignedOf(n);
  }

  lemma UnsignedOf(n: nat)
    requires n < 0x1_0000_0000
    ensures Unsigned(ToNetwork(n)) == n
  {
    NetworkOrder(n);
  }

  /** The four bytes are the digits of the length to base 256, the most significant first. */
  lemma NetworkOrder(n: nat)
    requires n < 0x1_0000_0000
    ensures var b := ToNetwork(n);
            |b| == 4
            && n == 0x100_0000 * (b[0] as int) + 0x1_0000 * (b[1] as int) + 0x100 * (b[2] as int) + b[3] as int
  {
    var a := n / 0x100;
    var b := a / 0x100;
    assert b == n / 0x1_0000 && b / 0x100 == n / 0x100_0000 < 256;
    assert n == 256 * a + n % 256 && a == 256 * b + a % 256 && b == 256 * (b / 0x100) + b % 256;
  }

  // ----- one pack -----

  datatype Pack = Pack(payloadType: int, messageName: string, payload: seq<Byte>)

  function HeaderOf(p: Pack): Header {
    Header(p.payloadType, |p.payload|, p.messageName)
  }

  /** What sendBy puts on the stream. */
  function Frame(codec: Codec, p: Pack): seq<Byte> {
    var header := codec.write(HeaderOf(p));
    ToNetwork(|header|) + header + p.payload
  }

  /** A header the receiver accepts. */
  ghost predicate Sendable(codec: Codec, p: Pack) {
    0 < |codec.write(HeaderOf(p))| < HEADER_LIMIT
  }

  /**
   * receiveFrom: the code, the pack, and the rest of the stream. The length is asserted to be in range
   * before the code of the read is looked at, so after a short read the assertion sees `garbage`.
   */
  function Receive(codec: Codec, stream: seq<Byte>, garbage: int): (Code, Pack, seq<Byte>) {
    var nothing := Pack(0, "", []);
    var prefix, body := Front(stream, 4), Rest(stream, 4);
    var length := if |prefix| == 4 then FromNetwork(prefix) else garbage;
    if !(0 < length < HEADER_LIMIT) then (AssertionFailed, nothing, body)
    else if |prefix| != 4 then (if prefix == [] then GracefulShutdown else BadHeaderLength, nothing, body)
    else
      var header, tail := Front(body, length), Rest(body, length);
      match codec.read(header)
      case None => (BadHeader, nothing, tail)
      case Some(h) =>
        if h.payloadLength < 0 then (BadPayloadLength, nothing, tail)
        else
          var payload, end := Front(tail, h.payloadLength), Rest(tail, h.payloadLength);
          if |payload| != h.payloadLength then (BadPayload, nothing, end)
          else (Ok, Pack(h.payloadType, h.messageName, payload), end)
  }

  /** A frame at the front of a stream is received as its pack, and nothing more is consumed. */
  lemma FrameIsReceived(codec: Codec, p: Pack, more: seq<Byte>, garbage: int)
    requires RoundTrips(codec) && Sendable(codec, p)
    ensures Receive(codec, Frame(codec, p) + more, garbage) == (Ok, p, more)
  {
    var header := codec.write(HeaderOf(p));
    var stream := Frame(codec, p) + more;
    NetworkRoundTrip(|header|);
    hide FromNetwork, ToNetwork;
    PrefixLength(|header|);
    assert stream == ToNetwork(|header|) + (header + (p.payload + more));
    assert Front(stream, 4) == ToNetwork(|header|) && Rest(stream, 4) == header + (p.payload + more);
    var body := header + (p.payload + more);
    assert Front(body, |header|) == header && Rest(body, |header|) == p.payload + more;
    assert Front(p.payload + more, |p.payload|) == p.payload && Rest(p.payload + more, |p.payload|) == more;
    assert codec.read(header) == Some(HeaderOf(p));
  }

  lemma PrefixLength(n: nat)
    ensures |ToNetwork(n)| == 4
  {
  }

  // ----- many packs -----

  function Frames(codec: Codec, packs: seq<Pack>): seq<Byte> {
    if packs == [] then [] else Frame(codec, packs[0]) + Frames(codec, packs[1..])
  }

  /** Receiving `n` packs one after the other; nothing if one of them fails. */
  function ReceiveMany(codec: Codec, stream: seq<Byte>, n: nat, garbage: int): Option<(seq<Pack>, seq<Byte>)>
    decreases n
  {
    if n == 0 then Some(([], stream))
    else
      var (code, p, rest) := Receive(codec, stream, garbage);
      if code != Ok then None
      else
        match ReceiveMany(codec, rest, n - 1, garbage)
        case None => None
        case Some((ps, end)) => Some(([p] + ps, end))
  }

  /** Packs written back to back are read as the same packs, with nothing left over. */
  lemma {:induction false} FramesAreReceived(codec: Codec, packs: seq<Pack>, more: seq<Byte>, garbage: int)
    requires RoundTrips(codec)
    requires forall i :: 0 <= i < |packs| ==> Sendable(codec, packs[i])
    ensures ReceiveMany(codec, Frames(codec, packs) + more, |packs|, garbage) == Some((packs, more))
  {
    hide Receive, Frame, Sendable, RoundTrips;
    if packs == [] {
      assert Frames(codec, packs) + more == more;
    } else {
      var tail := Frames(codec, packs[1..]) + more;
      assert Frames(codec, packs) + more == Frame(codec, packs[0]) + tail;
      FrameIsReceived(codec, packs[0], tail, garbage);
      FramesAreReceived(codec, packs[1..], more, garbage);
      assert [packs[0]] + packs[1..] == packs;
    }
  }

  /** A stream that ended cleanly is reported so only when the unset length happens to be in range. */
  lemma EndOfStream(codec: Codec, garbage: int)
    ensures Receive(codec, [], garbage).0 == GracefulShutdown <==> 0 < garbage < HEADER_LIMIT
    ensures Receive(codec, [], garbage).0 == AssertionFailed <==> !(0 < garbage < HEADER_LIMIT)
  {
  }

  /** What each code means, and how much of the stream is gone. */
  lemma ReceiveCodes(codec: Codec, stream: seq<Byte>, garbage: int)
    ensures var (code, p, rest) := Receive(codec, stream, garbage);
            && (code == GracefulShutdown <==> stream == [] && 0 < garbage < 1000)
            && (code == BadHeaderLength <==> 0 < |stream| < 4 && 0 < garbage < 1000)
            && (code == AssertionFailed <==>
                  !(0 < (if |stream| < 4 then garbage else FromNetwork(stream[..4])) < 1000))
            && (code != Ok ==> p == Pack(0, "", []))
    ensures |stream| >= 4 && 0 < FromNetwork(stream[..4]) < 1000 ==>
              var (code, p, rest) := Receive(codec, stream, garbage);
              var at: nat := Min(4 + FromNetwork(stream[..4]), |stream|);
              var header := codec.read(stream[4..at]);
              && (code == BadHeader <==> header == None)
              && (code == BadPayloadLength <==> header.Some? && header.value.payloadLength < 0)
              && (code == BadPayload <==> header.Some? && header.value.payloadLength > |stream| - at)
              && (code == Ok ==>
                    header.Some? && 0 <= header.value.payloadLength <= |stream| - at
                    && var end := at + header.value.payloadLength;
                       && p == Pack(header.value.payloadType, header.value.messageName, stream[at..end])
                       && rest == stream[end..])
  {
    hide FromNetwork;
    if |stream| >= 4 && 0 < FromNetwork(stream[..4]) < 1000 {
      var length := FromNetwork(stream[..4]);
      assert Front(stream, 4) == stream[..4] && Rest(stream, 4) == stream[4..];
      var at := Min(4 + length, |stream|);
      assert Front(stream[4..], length) == stream[4..at] && Rest(stream[4..], length) == stream[at..];
    }
  }

  // ----- the object -----

  class NetPack {
    const codec: Codec
    var payloadType: int
    var payload: seq<Byte>
    var messageName: string
    var header: Header

    function View(): Pack
      reads this
    {
      Pack(payloadType, messageName, payload)
    }

    /** The header describes the fields; this is so after a message is set or received. */
    ghost predicate Valid()
      reads this
    {
      header == HeaderOf(View())
    }

    constructor (codec: Codec)
      ensures this.codec == codec && View() == Pack(0, "", [])
    {
      this.codec := codec;
      payloadType, payload, messageName := 0, [], "";
      header := Header(0, 0, "");
    }

    method Clear()
      modifies this
      ensures View() == Pack(0, "", []) && Valid()
    {
      payloadType, messageName, payload := 0, "", [];
      header := Header(0, 0, "");
    }

    method SetMessage(payloadType: int, messageName: string, payload: seq<Byte>)
      modifies this
      ensures View() == Pack(payloadType, messageName, payload) && Valid()
    {
      Clear();
      this.payloadType := payloadType;
      this.messageName := messageName;
      this.payload := payload;
      header := Header(payloadType, |payload|, messageName);
    }

    method SendBy(sock: Stream)
      requires Valid()
      modifies sock
      ensures sock.bytes == old(sock.bytes) + Frame(codec, View())
    {
      var content := codec.write(header);
      sock.SendBytes(ToNetwork(|content|));
      sock.SendBytes(content);
      sock.SendBytes(payload);
    }

    method ReceiveFrom(sock: Stream, garbage: int) returns (code: Code)
      modifies this, sock
      ensures (code, View(), sock.bytes) == Receive(codec, old(sock.bytes), garbage)
      ensures code == Ok ==> header.payloadLength == |payload|
    {
      hide FromNetwork;
      Clear();
      var prefix := sock.ReceiveBytes(4);
      var length := if |prefix| == 4 then FromNetwork(prefix) else garbage;
      if !(0 < length < HEADER_LIMIT) {
        return AssertionFailed;
      }
      if |prefix| != 4 {
        return if prefix == [] then GracefulShutdown else BadHeaderLength;
      }
      var headerBuf := sock.ReceiveBytes(length);
      var parsed := codec.read(headerBuf);
      if parsed.None? {
        return BadHeader;
      }
      header := parsed.value;
      if header.payloadLength < 0 {
        return BadPayloadLength;
      }
      var buf := sock.ReceiveBytes(header.payloadLength);
      if |buf| != header.payloadLength {
        return BadPayload;
      }
      payload := buf;
      messageName := header.messageName;
      payloadType := header.payloadType;
      code := Ok;
    }
  }
}
