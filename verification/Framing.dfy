/** The wire format shared by the Node server and the C++ client: a frame is a
    six-byte header (big-endian 32-bit body length, type, version) and the body.
    This module says what a byte stream means, independently of either decoder. */
module Framing {

  newtype byte = x: int | 0 <= x < 256

  const HEADER_SIZE := 6
  const PROTOCOL_VERSION: byte := 1
  const TWO_TO_32 := 0x1_0000_0000

  datatype Frame = Frame(kind: byte, body: seq<byte>)

  /** What a decoder makes of a buffer: the frames it dispatches and the bytes it keeps. */
  datatype Stream = Stream(frames: seq<Frame>, rest: seq<byte>)

  // ----- the 32-bit big-endian length field -----

  function WriteU32(n: nat): (b: seq<byte>)
    requires n < TWO_TO_32
    ensures |b| == 4
  {
    [(n / 0x100_0000) as byte, (n / 0x1_0000 % 0x100) as byte, (n / 0x100 % 0x100) as byte, (n % 0x100) as byte]
  }

  function ReadU32(b: seq<byte>): (n: nat)
    requires |b| >= 4
    ensures n < TWO_TO_32
  {
    b[0] as nat * 0x100_0000 + b[1] as nat * 0x1_0000 + b[2] as nat * 0x100 + b[3] as nat
  }

  lemma ReadAfterWrite(n: nat)
    requires n < TWO_TO_32
    ensures ReadU32(WriteU32(n)) == n
  {
    assert n / 0x100 == n / 0x1_0000 * 0x100 + n / 0x100 % 0x100;
    assert n / 0x1_0000 == n / 0x100_0000 * 0x100 + n / 0x1_0000 % 0x100;
  }

  lemma WriteAfterRead(b: seq<byte>)
    requires |b| >= 4
    ensures WriteU32(ReadU32(b)) == b[..4]
  {
    var n := ReadU32(b);
    assert n / 0x100_0000 == b[0] as nat;
    assert n / 0x1_0000 == b[0] as nat * 0x100 + b[1] as nat;
    assert n / 0x100 == b[0] as nat * 0x1_0000 + b[1] as nat * 0x100 + b[2] as nat;
  }

  // ----- frames and streams of frames -----

  predicate Encodable(f: Frame) {
    |f.body| < TWO_TO_32
  }

  function Encode(f: Frame): (b: seq<byte>)
    requires Encodable(f)
    ensures |b| == HEADER_SIZE + |f.body|
  {
    WriteU32(|f.body|) + [f.kind, PROTOCOL_VERSION] + f.body
  }

  predicate AllEncodable(fs: seq<Frame>) {
    forall i :: 0 <= i < |fs| ==> Encodable(fs[i])
  }

  function EncodeAll(fs: seq<Frame>): seq<byte>
    requires AllEncodable(fs)
  {
    if fs == [] then [] else Encode(fs[0]) + EncodeAll(fs[1..])
  }

  /** The frame f, complete and of version 1, is at the front of the buffer. */
  predicate StartsWith(data: seq<byte>, f: Frame) {
    Encodable(f) && Encode(f) <= data
  }

  /** No complete version-1 frame is at the front of the buffer. */
  ghost predicate Waiting(data: seq<byte>) {
    forall f :: !StartsWith(data, f)
  }

  /** The reference meaning of a byte stream: the longest run of complete
      version-1 frames from its front, with every byte accounted for. */
  ghost predicate IsDecoding(data: seq<byte>, s: Stream) {
    AllEncodable(s.frames) && EncodeAll(s.frames) + s.rest == data && Waiting(s.rest)
  }

  /** A frame at the front is read off the header. */
  lemma HeaderOfFrame(data: seq<byte>, f: Frame)
    requires StartsWith(data, f)
    ensures |data| >= HEADER_SIZE + |f.body|
    ensures ReadU32(data) == |f.body| && data[4] == f.kind && data[5] == PROTOCOL_VERSION
    ensures data[HEADER_SIZE..HEADER_SIZE + |f.body|] == f.body
    ensures data == Encode(f) + data[HEADER_SIZE + |f.body|..]
  {
    var e := Encode(f);
    assert e == data[..|e|];
    assert e[..4] == WriteU32(|f.body|);
    assert forall i :: 0 <= i < 4 ==> data[i] == e[i] == WriteU32(|f.body|)[i];
    ReadAfterWrite(|f.body|);
    assert e[HEADER_SIZE..] == f.body;
    assert data[HEADER_SIZE..|e|] == e[HEADER_SIZE..];
  }

  /** Conversely, a header of version 1 followed by enough bytes is a frame. */
  lemma FrameOfHeader(data: seq<byte>)
    requires |data| >= HEADER_SIZE && data[5] == PROTOCOL_VERSION
    requires |data| >= HEADER_SIZE + ReadU32(data)
    ensures StartsWith(data, Frame(data[4], data[HEADER_SIZE..HEADER_SIZE + ReadU32(data)]))
  {
    var n := ReadU32(data);
    var f := Frame(data[4], data[HEADER_SIZE..HEADER_SIZE + n]);
    WriteAfterRead(data);
    assert |f.body| == n;
    assert Encode(f) == data[..4] + [data[4], data[5]] + data[HEADER_SIZE..HEADER_SIZE + n];
    assert Encode(f) == data[..HEADER_SIZE + n];
  }

  /** Exactly three kinds of buffer make a decoder wait: too short for a header,
      a wrong version, or shorter than the frame it announces. */
  lemma WaitingExactly(data: seq<byte>)
    ensures Waiting(data) <==>
            |data| < HEADER_SIZE || data[5] != PROTOCOL_VERSION || |data| < HEADER_SIZE + ReadU32(data)
  {
    if |data| >= HEADER_SIZE && data[5] == PROTOCOL_VERSION && |data| >= HEADER_SIZE + ReadU32(data) {
      FrameOfHeader(data);
    }
    forall f | StartsWith(data, f)
      ensures |data| >= HEADER_SIZE && data[5] == PROTOCOL_VERSION && |data| >= HEADER_SIZE + ReadU32(data)
    {
      HeaderOfFrame(data, f);
    }
  }

  /** At most one frame is at the front of a buffer, so no frame is a proper prefix of another. */
  lemma PrefixFree(data: seq<byte>, f: Frame, g: Frame)
    requires StartsWith(data, f) && StartsWith(data, g)
    ensures f == g
  {
    HeaderOfFrame(data, f);
    HeaderOfFrame(data, g);
  }

  lemma NoProperPrefix(f: Frame, g: Frame)
    requires Encodable(f) && Encodable(g)
    ensures Encode(f) <= Encode(g) <==> f == g
  {
    if Encode(f) <= Encode(g) {
      PrefixFree(Encode(g), f, g);
    }
  }

  lemma {:induction false} EncodeAllConcat(fs: seq<Frame>, gs: seq<Frame>)
    requires AllEncodable(fs) && AllEncodable(gs)
    ensures AllEncodable(fs + gs) && EncodeAll(fs + gs) == EncodeAll(fs) + EncodeAll(gs)
  {
    if fs == [] {
      assert fs + gs == gs;
    } else {
      assert (fs + gs)[1..] == fs[1..] + gs;
      EncodeAllConcat(fs[1..], gs);
    }
  }

  lemma DecodingOfWaiting(data: seq<byte>)
    requires Waiting(data)
    ensures IsDecoding(data, Stream([], data))
  {
    assert EncodeAll([]) + data == data;
  }

  lemma DecodingOfFrame(data: seq<byte>, f: Frame, tail: seq<byte>, s: Stream)
    requires Encodable(f) && data == Encode(f) + tail && IsDecoding(tail, s)
    ensures IsDecoding(data, Stream([f] + s.frames, s.rest))
  {
    assert ([f] + s.frames)[1..] == s.frames;
    assert Encode(f) + (EncodeAll(s.frames) + s.rest) == Encode(f) + EncodeAll(s.frames) + s.rest;
  }

  /** A byte stream has at most one decoding. */
  lemma {:induction false} DecodingUnique(data: seq<byte>, s: Stream, t: Stream)
    requires IsDecoding(data, s) && IsDecoding(data, t)
    ensures s == t
    decreases |s.frames|
  {
    if s.frames == [] && t.frames == [] {
      assert s.rest == data && t.rest == data;
    } else if s.frames == [] {
      assert Encode(t.frames[0]) <= data;
      assert StartsWith(s.rest, t.frames[0]);
    } else if t.frames == [] {
      assert Encode(s.frames[0]) <= data;
      assert StartsWith(t.rest, s.frames[0]);
    } else {
      var f, g := s.frames[0], t.frames[0];
      assert data == Encode(f) + (EncodeAll(s.frames[1..]) + s.rest);
      assert data == Encode(g) + (EncodeAll(t.frames[1..]) + t.rest);
      PrefixFree(data, f, g);
      var tail := data[|Encode(f)|..];
      assert tail == EncodeAll(s.frames[1..]) + s.rest;
      assert tail == EncodeAll(t.frames[1..]) + t.rest;
      DecodingUnique(tail, Stream(s.frames[1..], s.rest), Stream(t.frames[1..], t.rest));
      assert s.frames == [f] + s.frames[1..] && t.frames == [g] + t.frames[1..];
    }
  }

  /** Decoding a stream piece by piece: what the first piece leaves over is put
      in front of the second, and nothing depends on where the cut was. */
  lemma DecodingSplit(a: seq<byte>, b: seq<byte>, s: Stream, t: Stream)
    requires IsDecoding(a, s) && IsDecoding(s.rest + b, t)
    ensures IsDecoding(a + b, Stream(s.frames + t.frames, t.rest))
  {
    EncodeAllConcat(s.frames, t.frames);
    assert a + b == EncodeAll(s.frames) + (s.rest + b);
    assert a + b == EncodeAll(s.frames) + EncodeAll(t.frames) + t.rest;
  }

  /** A list of frames, encoded back to back, decodes to itself with nothing left. */
  lemma DecodingOfEncoding(fs: seq<Frame>)
    requires AllEncodable(fs)
    ensures IsDecoding(EncodeAll(fs), Stream(fs, []))
  {
    WaitingExactly([]);
    assert EncodeAll(fs) + [] == EncodeAll(fs);
  }

  /** The encoding of packet lists is injective. */
  lemma EncodeAllInjective(fs: seq<Frame>, gs: seq<Frame>)
    requires AllEncodable(fs) && AllEncodable(gs)
    ensures EncodeAll(fs) == EncodeAll(gs) <==> fs == gs
  {
    if EncodeAll(fs) == EncodeAll(gs) {
      DecodingOfEncoding(fs);
      DecodingOfEncoding(gs);
      DecodingUnique(EncodeAll(fs), Stream(fs, []), Stream(gs, []));
    }
  }

  // ----- pieces of a stream -----

  function Concat(chunks: seq<seq<byte>>): seq<byte> {
    if chunks == [] then [] else Concat(chunks[..|chunks| - 1]) + chunks[|chunks| - 1]
  }
}
