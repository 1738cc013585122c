/** The RSU wire frame: the encoder of `GatewayServer::sendMessageToRSU` and the decoder that a
    client needs. A frame is a one-byte message type, a two-byte error code and an eight-byte
    packet size in network order, and the payload; the packet size counts the whole frame. */
module Frame {
  import opened Prelude
  import opened ByteOrder

  datatype MessageType = Data | Status | Invalid

  datatype Message = Message(kind: MessageType, errorCode: nat, payload: seq<Byte>)

  const HEADER_SIZE: nat := 11

  /** What fits the C++ types: a 16-bit error code and a 64-bit packet size. */
  predicate Fits(m: Message) {
    m.errorCode < 0x1_0000 && HEADER_SIZE + |m.payload| < TWO_64
  }

  /** `static_cast<uint8_t>(messageType)`; the enumerator `invalid` is -1. */
  function TypeByte(kind: MessageType): Byte {
    match kind
    case Data => 1
    case Status => 2
    case Invalid => 255
  }

  function TypeOfByte(b: Byte): Option<MessageType> {
    if b == 1 then Some(Data) else if b == 2 then Some(Status) else if b == 255 then Some(Invalid) else None
  }

  /** The layout a client relies on, written without reference to the host's byte order. */
  function Encode(m: Message): (bs: seq<Byte>)
    ensures |bs| == HEADER_SIZE + |m.payload|
  {
    [TypeByte(m.kind)] + BigEndian(m.errorCode, 2) + BigEndian(HEADER_SIZE + |m.payload|, 8) + m.payload
  }

  function EncodeAll(ms: seq<Message>): seq<Byte> {
    if ms == [] then [] else Encode(ms[0]) + EncodeAll(ms[1..])
  }

  /** Splits the first frame off a byte stream; `None` when the bytes do not start with one. */
  function DecodeFirst(bs: seq<Byte>): (r: Option<(Message, seq<Byte>)>)
    ensures r.Some? ==> |r.value.1| < |bs|
  {
    if |bs| < HEADER_SIZE then None
    else
      var kind := TypeOfByte(bs[0]);
      var size := BigEndianValue(bs[3..11]);
      if kind.None? || size < HEADER_SIZE || |bs| < size then None
      else Some((Message(kind.value, BigEndianValue(bs[1..3]), bs[11..size]), bs[size..]))
  }

  function DecodeAll(bs: seq<Byte>): Option<seq<Message>>
    decreases |bs|
  {
    if bs == [] then Some([])
    else
      match DecodeFirst(bs)
      case None => None
      case Some((m, rest)) =>
        match DecodeAll(rest)
        case None => None
        case Some(ms) => Some([m] + ms)
  }

  // ----- the encoder

  /** `std::memcpy` into the buffer. `hits[i]` counts the writes that reached byte `i`. */
  method MemCpy(buffer: array<Byte>, offset: nat, source: seq<Byte>, ghost hits: seq<nat>)
    returns (ghost hits': seq<nat>)
    requires offset + |source| <= buffer.Length && |hits| == buffer.Length
    modifies buffer
    ensures buffer[..] == old(buffer[..offset]) + source + old(buffer[offset + |source|..])
    ensures |hits'| == |hits|
    ensures forall i :: 0 <= i < |hits| ==> hits'[i] == hits[i] + if offset <= i < offset + |source| then 1 else 0
  {
    forall i | 0 <= i < |source| {
      buffer[offset + i] := source[i];
    }
    hits' := seq(|hits|, i requires 0 <= i < |hits| => hits[i] + if offset <= i < offset + |source| then 1 else 0);
  }

  /** The encoder proper: fill a zeroed buffer through a moving offset, on a little-endian host. */
  method FillBuffer(m: Message) returns (buffer: array<Byte>, ghost hits: seq<nat>)
    requires Fits(m)
    ensures fresh(buffer) && buffer[..] == Encode(m)
    ensures |hits| == buffer.Length && forall i :: 0 <= i < |hits| ==> hits[i] == 1
  {
    var offset := 0;
    var packetSize := 1 + 2 + 8 + |m.payload|;
    buffer := new Byte[packetSize](_ => 0);
    hits := seq(packetSize, _ => 0);

    hits := MemCpy(buffer, offset, [TypeByte(m.kind)], hits);
    offset := offset + 1;

    var netErrorCode := Htons(m.errorCode);
    hits := MemCpy(buffer, offset, LittleEndian(netErrorCode, 2), hits);
    offset := offset + 2;
    SwapStores(m.errorCode, 2);
    assert buffer[..3] == [TypeByte(m.kind)] + BigEndian(m.errorCode, 2);

    var netPacketSize := Htonll(packetSize);
    hits := MemCpy(buffer, offset, LittleEndian(netPacketSize, 8), hits);
    offset := offset + 8;
    HtonllStoresBigEndian(packetSize);
    assert buffer[..11] == [TypeByte(m.kind)] + BigEndian(m.errorCode, 2) + BigEndian(packetSize, 8);

    hits := MemCpy(buffer, offset, m.payload, hits);
  }

  /** Where the parts of a frame are: the type, the high and the low byte of the error code, the packet
      size, and the payload. */
  lemma WireLayout(m: Message)
    requires Fits(m)
    ensures var bs := Encode(m);
            && |bs| == 11 + |m.payload| && bs[11..] == m.payload
            && (m.kind == Data ==> bs[0] == 1) && (m.kind == Status ==> bs[0] == 2) && (m.kind == Invalid ==> bs[0] == 255)
            && bs[1] == m.errorCode / 256 && bs[2] == m.errorCode % 256
            && bs[3..11] == BigEndian(11 + |m.payload|, 8)
  {
    var e := BigEndian(m.errorCode, 2);
    assert BigEndian(m.errorCode / 256, 1) == [m.errorCode / 256] by {
      assert BigEndian(m.errorCode / 256 / 256, 0) == [];
    }
    assert e == BigEndian(m.errorCode / 256, 1) + [m.errorCode % 256];
  }

  /** The frame of the text "OK" with the error code 258. */
  lemma OneFrame()
    ensures Encode(Message(Status, 258, [79, 75])) == [2, 1, 2, 0, 0, 0, 0, 0, 0, 0, 13, 79, 75]
  {
    assert BigEndian(13, 8) == [0, 0, 0, 0, 0, 0, 0, 13];
    assert BigEndian(258, 2) == [1, 2];
  }

  // ----- round trips

  /** A frame followed by anything decodes to that frame and leaves the rest of the stream. */
  lemma DecodeEncoded(m: Message, rest: seq<Byte>)
    requires Fits(m)
    ensures DecodeFirst(Encode(m) + rest) == Some((m, rest))
  {
    var bs, size := Encode(m) + rest, HEADER_SIZE + |m.payload|;
    assert bs[1..3] == BigEndian(m.errorCode, 2);
    assert bs[3..11] == BigEndian(size, 8);
    assert bs[11..size] == m.payload && bs[size..] == rest;
    Powers();
    BigEndianRoundTrip(m.errorCode, 2);
    BigEndianRoundTrip(size, 8);
  }

  lemma CutInFive(bs: seq<Byte>, a: nat, b: nat, c: nat, d: nat)
    requires a <= b <= c <= d <= |bs|
    ensures bs == bs[..a] + bs[a..b] + bs[b..c] + bs[c..d] + bs[d..]
  {
    assert bs[..b] == bs[..a] + bs[a..b];
    assert bs[..c] == bs[..b] + bs[b..c];
    assert bs[..d] == bs[..c] + bs[c..d];
    assert bs == bs[..d] + bs[d..];
  }

  /** A two-byte and an eight-byte number of the header are written back as they were read. */
  lemma NumbersBack(code: seq<Byte>, size: seq<Byte>)
    requires |code| == 2 && |size| == 8
    ensures BigEndian(BigEndianValue(code), 2) == code && BigEndianValue(code) < 0x1_0000
    ensures BigEndian(BigEndianValue(size), 8) == size && BigEndianValue(size) < TWO_64
  {
    Powers();
    BigEndianOfValue(code);
    BigEndianOfValue(size);
  }

  /** Only encodings decode: the decoder is the exact inverse of the encoder. */
  lemma EncodeDecoded(bs: seq<Byte>)
    requires DecodeFirst(bs).Some?
    ensures var (m, rest) := DecodeFirst(bs).value; Fits(m) && bs == Encode(m) + rest
  {
    var (m, rest) := DecodeFirst(bs).value;
    var size := BigEndianValue(bs[3..11]);
    NumbersBack(bs[1..3], bs[3..11]);
    assert size == HEADER_SIZE + |m.payload|;
    CutInFive(bs, 1, 3, 11, size);
    assert bs[..1] == [TypeByte(m.kind)];
    assert Encode(m) == bs[..1] + bs[1..3] + bs[3..11] + bs[11..size];
  }

  /** Decoding a stream of frames gives back exactly the frames that were sent. */
  lemma {:induction false} StreamRoundTrip(ms: seq<Message>)
    requires forall m :: m in ms ==> Fits(m)
    ensures DecodeAll(EncodeAll(ms)) == Some(ms)
  {
    if ms != [] {
      DecodeEncoded(ms[0], EncodeAll(ms[1..]));
      StreamRoundTrip(ms[1..]);
      assert ms == [ms[0]] + ms[1..];
    }
  }

  /** A stream that decodes is the concatenation of the encodings of its frames. */
  lemma {:induction false} StreamRoundTripBack(bs: seq<Byte>)
    requires DecodeAll(bs).Some?
    ensures EncodeAll(DecodeAll(bs).value) == bs
    ensures forall m :: m in DecodeAll(bs).value ==> Fits(m)
    decreases |bs|
  {
    if bs != [] {
      EncodeDecoded(bs);
      StreamRoundTripBack(DecodeFirst(bs).value.1);
      assert DecodeAll(bs).value[1..] == DecodeAll(DecodeFirst(bs).value.1).value;
    }
  }

  /** Two sequences of frames with the same bytes are the same sequence. */
  lemma EncodingInjective(ms: seq<Message>, ns: seq<Message>)
    requires forall m :: m in ms ==> Fits(m)
    requires forall n :: n in ns ==> Fits(n)
    requires EncodeAll(ms) == EncodeAll(ns)
    ensures ms == ns
  {
    StreamRoundTrip(ms);
    StreamRoundTrip(ns);
  }

  /** No frame is a prefix of another, and a frame cut short never decodes. */
  lemma PrefixFree(m: Message, n: Message, cut: nat)
    requires Fits(m) && Fits(n)
    ensures Encode(m) <= Encode(n) ==> m == n
    ensures cut < |Encode(m)| ==> DecodeFirst(Encode(m)[..cut]).None?
  {
    if Encode(m) <= Encode(n) {
      var rest := Encode(n)[|Encode(m)|..];
      assert Encode(n) == Encode(m) + rest && Encode(n) == Encode(n) + [];
      DecodeEncoded(m, rest);
      DecodeEncoded(n, []);
    }
    if cut < |Encode(m)| && DecodeFirst(Encode(m)[..cut]).Some? {
      var (p, rest) := DecodeFirst(Encode(m)[..cut]).value;
      EncodeDecoded(Encode(m)[..cut]);
      var tail := rest + Encode(m)[cut..];
      assert Encode(m) == Encode(p) + tail && Encode(m) == Encode(m) + [];
      DecodeEncoded(p, tail);
      DecodeEncoded(m, []);
    }
  }
}
