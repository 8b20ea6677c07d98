/** Packet encoding and decoding as the Node server does it (server.js). */
module NodeCodec {
  import opened Wrappers
  import opened Framing

  /** The result of parsePacket: `total` is how many bytes the packet occupies. */
  datatype ParsedPacket = ParsedPacket(kind: byte, body: seq<byte>, total: nat)

  /** makePacket: header buffer filled field by field, then joined with the body.
      The 32-bit write refuses a longer body (a RangeError in JavaScript: None). */
  method MakePacket(kind: byte, body: seq<byte>) returns (r: Option<seq<byte>>)
    ensures r == if Encodable(Frame(kind, body)) then Some(Encode(Frame(kind, body))) else None
  {
    var header := new byte[HEADER_SIZE];
    if |body| >= TWO_TO_32 {
      return None;
    }
    WriteUInt32BE(header, |body|);
    header[4] := kind;
    header[5] := PROTOCOL_VERSION;
    assert header[..] == header[..4] + [kind, PROTOCOL_VERSION];
    r := Some(header[..] + body);
  }

  /** Buffer.writeUInt32BE at offset 0. */
  method WriteUInt32BE(buffer: array<byte>, n: nat)
    requires buffer.Length >= 4 && n < TWO_TO_32
    modifies buffer
    ensures buffer[..4] == WriteU32(n)
    ensures forall i :: 4 <= i < buffer.Length ==> buffer[i] == old(buffer[i])
  {
    buffer[0] := (n / 0x100_0000) as byte;
    buffer[1] := (n / 0x1_0000 % 0x100) as byte;
    buffer[2] := (n / 0x100 % 0x100) as byte;
    buffer[3] := (n % 0x100) as byte;
  }

  function ParsePacket(data: seq<byte>): (r: Option<ParsedPacket>)
    ensures r.Some? ==> r.value.total == HEADER_SIZE + |r.value.body| <= |data|
  {
    if |data| < HEADER_SIZE then None
    else
      var len := ReadU32(data);
      var kind := data[4];
      var ver := data[5];
      if ver != PROTOCOL_VERSION then None
      else
        var total := HEADER_SIZE + len;
        if |data| < total then None
        else Some(ParsedPacket(kind, data[HEADER_SIZE..total], total))
  }

  /** parsePacket returns a packet exactly when that packet's encoding is at the
      front of the buffer, and nothing exactly when no packet's is. */
  lemma ParsePacketExact(data: seq<byte>, f: Frame)
    ensures ParsePacket(data) == Some(ParsedPacket(f.kind, f.body, HEADER_SIZE + |f.body|)) <==> StartsWith(data, f)
    ensures ParsePacket(data) == None <==> Waiting(data)
  {
    WaitingExactly(data);
    if StartsWith(data, f) {
      HeaderOfFrame(data, f);
    }
    if ParsePacket(data).Some? {
      FrameOfHeader(data);
    }
  }

  /** What the while loop of onData dispatches and keeps, packet by packet. */
  function Drain(buffer: seq<byte>): (s: Stream)
    ensures |s.rest| <= |buffer|
    decreases |buffer|
  {
    match ParsePacket(buffer)
    case None => Stream([], buffer)
    case Some(p) =>
      var after := Drain(buffer[p.total..]);
      Stream([Frame(p.kind, p.body)] + after.frames, after.rest)
  }

  /** The Node loop computes the one decoding of its buffer. */
  lemma {:induction false} DrainDecodes(buffer: seq<byte>)
    ensures IsDecoding(buffer, Drain(buffer))
    decreases |buffer|
  {
    match ParsePacket(buffer)
    case None =>
      ParsePacketExact(buffer, Frame(0, []));
      DecodingOfWaiting(buffer);
    case Some(p) =>
      var f := Frame(p.kind, p.body);
      ParsePacketExact(buffer, f);
      HeaderOfFrame(buffer, f);
      DrainDecodes(buffer[p.total..]);
      DecodingOfFrame(buffer, f, buffer[p.total..], Drain(buffer[p.total..]));
  }

  /** Cutting the input makes no difference to what the Node loop dispatches and keeps. */
  lemma DrainSplit(a: seq<byte>, b: seq<byte>)
    ensures Drain(a + b).frames == Drain(a).frames + Drain(Drain(a).rest + b).frames
    ensures Drain(a + b).rest == Drain(Drain(a).rest + b).rest
  {
    DrainDecodes(a);
    DrainDecodes(Drain(a).rest + b);
    DrainDecodes(a + b);
    DecodingSplit(a, b, Drain(a), Drain(Drain(a).rest + b));
    DecodingUnique(a + b, Drain(a + b),
                   Stream(Drain(a).frames + Drain(Drain(a).rest + b).frames, Drain(Drain(a).rest + b).rest));
  }

  /** What the loop leaves behind is left again when looked at a second time. */
  lemma DrainSettles(a: seq<byte>)
    ensures Drain(Drain(a).rest) == Stream([], Drain(a).rest)
  {
    DrainDecodes(a);
    ParsePacketExact(Drain(a).rest, Frame(0, []));
  }
}
