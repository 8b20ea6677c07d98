/** Packet encoding and decoding as the C++ side does it (Protocol.cpp):
    a packed header struct is filled and copied to and from memory, so the
    byte order of the machine matters. */
module CppCodec {
  import opened Framing

  datatype Host = LittleEndian | BigEndian

  /** What deserialize comes to. ReadsPastEnd: the announced body is not there and
      the code, which does not check, reads beyond its data. */
  datatype Result<+T> = Ok(value: T) | PacketTooSmall | VersionMismatch | ReadsPastEnd

  /** The four bytes a uint32_t occupies in memory. */
  function Memory(host: Host, n: nat): (b: seq<byte>)
    requires n < TWO_TO_32
    ensures |b| == 4
  {
    var b := WriteU32(n);
    if host.BigEndian? then b else [b[3], b[2], b[1], b[0]]
  }

  /** The uint32_t that four bytes of memory hold. */
  function Load(host: Host, b: seq<byte>): (n: nat)
    requires |b| >= 4
    ensures n < TWO_TO_32
  {
    if host.BigEndian? then ReadU32(b) else ReadU32([b[3], b[2], b[1], b[0]])
  }

  function ByteSwap(n: nat): (m: nat)
    requires n < TWO_TO_32
    ensures m < TWO_TO_32
  {
    n % 0x100 * 0x100_0000 + n / 0x100 % 0x100 * 0x1_0000 + n / 0x1_0000 % 0x100 * 0x100 + n / 0x100_0000
  }

  /** qToBigEndian and qFromBigEndian are the same operation. */
  function BigEndianValue(host: Host, n: nat): (m: nat)
    requires n < TWO_TO_32
    ensures m < TWO_TO_32
  {
    if host.BigEndian? then n else ByteSwap(n)
  }

  lemma ByteSwapReverses(b: seq<byte>)
    requires |b| >= 4
    ensures ByteSwap(ReadU32(b)) == ReadU32([b[3], b[2], b[1], b[0]])
  {
    WriteAfterRead(b);
    var w := WriteU32(ReadU32(b));
    assert w[0] == b[0] && w[1] == b[1] && w[2] == b[2] && w[3] == b[3];
  }

  /** On any machine, the swapped length field lies in memory in network order... */
  lemma StoredInNetworkOrder(host: Host, n: nat)
    requires n < TWO_TO_32
    ensures Memory(host, BigEndianValue(host, n)) == WriteU32(n)
  {
    if host.LittleEndian? {
      var b := WriteU32(n);
      ReadAfterWrite(n);
      ByteSwapReverses(b);
      WriteAfterRead([b[3], b[2], b[1], b[0]]);
    }
  }

  /** ...and is read back in network order. */
  lemma LoadedFromNetworkOrder(host: Host, b: seq<byte>)
    requires |b| >= 4
    ensures BigEndianValue(host, Load(host, b)) == ReadU32(b)
  {
    if host.LittleEndian? {
      ByteSwapReverses([b[3], b[2], b[1], b[0]]);
      assert ReadU32(b) == ReadU32([b[0], b[1], b[2], b[3]]);
    }
  }

  /** The length field is a uint32_t: a longer body's size is truncated to 32 bits. */
  function Wire(f: Frame): seq<byte> {
    WriteU32(|f.body| % TWO_TO_32) + [f.kind, PROTOCOL_VERSION] + f.body
  }

  /** Packet::serialize. */
  method Serialize(host: Host, f: Frame) returns (bytes: seq<byte>)
    ensures bytes == Wire(f)
  {
    var length := Memory(host, BigEndianValue(host, |f.body| % TWO_TO_32));
    StoredInNetworkOrder(host, |f.body| % TWO_TO_32);
    var data := new byte[HEADER_SIZE + |f.body|](_ => 0);
    forall i | 0 <= i < 4 {
      data[i] := length[i];
    }
    data[4] := f.kind;
    data[5] := PROTOCOL_VERSION;
    forall i | 0 <= i < |f.body| {
      data[HEADER_SIZE + i] := f.body[i];
    }
    bytes := data[..];
  }

  /** Packet::deserialize: each outcome exactly in its case. */
  method Deserialize(host: Host, data: seq<byte>) returns (r: Result<Frame>)
    ensures r.PacketTooSmall? <==> |data| < HEADER_SIZE
    ensures r.VersionMismatch? <==> |data| >= HEADER_SIZE && data[5] != PROTOCOL_VERSION
    ensures r.ReadsPastEnd? <==>
            |data| >= HEADER_SIZE && data[5] == PROTOCOL_VERSION && |data| < HEADER_SIZE + ReadU32(data)
    ensures forall f :: r == Ok(f) <==> StartsWith(data, f)
  {
    WaitingExactly(data);
    if |data| < HEADER_SIZE {
      return PacketTooSmall;
    }
    if data[5] != PROTOCOL_VERSION {
      return VersionMismatch;
    }
    LoadedFromNetworkOrder(host, data);
    var length := BigEndianValue(host, Load(host, data));
    if |data| < HEADER_SIZE + length {
      return ReadsPastEnd;
    }
    var f := Frame(data[4], data[HEADER_SIZE..HEADER_SIZE + length]);
    FrameOfHeader(data);
    forall g | StartsWith(data, g)
      ensures g == f
    {
      PrefixFree(data, f, g);
    }
    r := Ok(f);
  }

  /** The length that serialize writes is the body's exactly when the body fits.
      Then the bytes are the Node encoder's; otherwise they start with a packet
      of a shorter body. */
  lemma SerializeFaithfulExactly(f: Frame)
    ensures ReadU32(Wire(f)) == |f.body| <==> Encodable(f)
    ensures Encodable(f) ==> Wire(f) == Encode(f)
    ensures !Encodable(f) ==> exists g :: StartsWith(Wire(f), g) && |g.body| < |f.body|
  {
    LengthOnWire(f);
    if !Encodable(f) {
      FrameOfHeader(Wire(f));
    }
  }

  lemma LengthOnWire(f: Frame)
    ensures ReadU32(Wire(f)) == |f.body| % TWO_TO_32
  {
    var n := |f.body| % TWO_TO_32;
    ReadAfterWrite(n);
    assert forall i :: 0 <= i < 4 ==> Wire(f)[i] == WriteU32(n)[i];
  }

  /** One look of the receive loop at its buffer. */
  datatype Look = NeedMore | Mismatch | Packet(frame: Frame, total: nat)

  function LookAt(host: Host, buffer: seq<byte>): (r: Look)
    ensures r.Packet? ==> r.total == HEADER_SIZE + |r.frame.body| <= |buffer|
  {
    if |buffer| < HEADER_SIZE then NeedMore
    else if buffer[5] != PROTOCOL_VERSION then Mismatch
    else
      var length := BigEndianValue(host, Load(host, buffer));
      var total := HEADER_SIZE + length;
      if |buffer| < total then NeedMore
      else Packet(Frame(buffer[4], buffer[HEADER_SIZE..total]), total)
  }

  /** What the receive loop dispatches and keeps. */
  function Drain(host: Host, buffer: seq<byte>): (s: Stream)
    ensures |s.rest| <= |buffer|
    decreases |buffer|
  {
    match LookAt(host, buffer)
    case Packet(f, total) =>
      var after := Drain(host, buffer[total..]);
      Stream([f] + after.frames, after.rest)
    case _ => Stream([], buffer)
  }
}
