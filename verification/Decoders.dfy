/** The two receive loops, fed the same bytes in pieces. */
module Decoders {
  import opened Framing
  import NodeCodec
  import CppCodec

  lemma LooksAgree(host: CppCodec.Host, buffer: seq<byte>)
    ensures match NodeCodec.ParsePacket(buffer)
            case None => !CppCodec.LookAt(host, buffer).Packet?
            case Some(p) => CppCodec.LookAt(host, buffer) == CppCodec.Packet(Frame(p.kind, p.body), p.total)
  {
    if |buffer| >= HEADER_SIZE {
      CppCodec.LoadedFromNetworkOrder(host, buffer);
    }
  }

  lemma {:induction false} DrainsAgree(host: CppCodec.Host, buffer: seq<byte>)
    ensures CppCodec.Drain(host, buffer) == NodeCodec.Drain(buffer)
    decreases |buffer|
  {
    LooksAgree(host, buffer);
    match NodeCodec.ParsePacket(buffer)
    case None =>
    case Some(p) => DrainsAgree(host, buffer[p.total..]);
  }

  /** The Node server and the C++ client read the same packets off every byte
      stream, truncated, wrong-version or not, whatever the byte order of the
      client's machine (its sizes being 64-bit, so that no total wraps): the
      longest run of complete version-1 frames. */
  lemma DecodersAgree(host: CppCodec.Host, buffer: seq<byte>)
    ensures CppCodec.Drain(host, buffer) == NodeCodec.Drain(buffer)
    ensures IsDecoding(buffer, CppCodec.Drain(host, buffer))
  {
    DrainsAgree(host, buffer);
    NodeCodec.DrainDecodes(buffer);
  }

  /** The Node loop fed chunk after chunk: everything dispatched, and what is kept. */
  function FeedNode(buffer: seq<byte>, chunks: seq<seq<byte>>): Stream {
    if chunks == [] then Stream([], buffer)
    else
      var before := FeedNode(buffer, chunks[..|chunks| - 1]);
      var now := NodeCodec.Drain(before.rest + chunks[|chunks| - 1]);
      Stream(before.frames + now.frames, now.rest)
  }

  /** The C++ loop fed chunk after chunk. */
  function FeedCpp(host: CppCodec.Host, buffer: seq<byte>, chunks: seq<seq<byte>>): Stream {
    if chunks == [] then Stream([], buffer)
    else
      var before := FeedCpp(host, buffer, chunks[..|chunks| - 1]);
      var now := CppCodec.Drain(host, before.rest + chunks[|chunks| - 1]);
      Stream(before.frames + now.frames, now.rest)
  }

  lemma {:induction false} FeedNodeIsDrain(buffer: seq<byte>, chunks: seq<seq<byte>>)
    requires chunks != []
    ensures FeedNode(buffer, chunks) == NodeCodec.Drain(buffer + Concat(chunks))
    decreases |chunks|
  {
    var front, last := chunks[..|chunks| - 1], chunks[|chunks| - 1];
    if front == [] {
      assert Concat(chunks) == last;
      assert [] + NodeCodec.Drain(buffer + last).frames == NodeCodec.Drain(buffer + last).frames;
    } else {
      FeedNodeIsDrain(buffer, front);
      NodeCodec.DrainSplit(buffer + Concat(front), last);
      assert buffer + Concat(front) + last == buffer + Concat(chunks);
    }
  }

  lemma {:induction false} FeedsAgree(host: CppCodec.Host, buffer: seq<byte>, chunks: seq<seq<byte>>)
    ensures FeedCpp(host, buffer, chunks) == FeedNode(buffer, chunks)
    decreases |chunks|
  {
    if chunks != [] {
      var front, last := chunks[..|chunks| - 1], chunks[|chunks| - 1];
      FeedsAgree(host, buffer, front);
      DecodersAgree(host, FeedNode(buffer, front).rest + last);
    }
  }

  /** However the bytes are cut, both loops dispatch the one decoding of the whole. */
  lemma FeedingIsCutIndependent(host: CppCodec.Host, buffer: seq<byte>, chunks: seq<seq<byte>>)
    requires chunks != []
    ensures FeedCpp(host, buffer, chunks) == FeedNode(buffer, chunks)
    ensures IsDecoding(buffer + Concat(chunks), FeedNode(buffer, chunks))
  {
    FeedsAgree(host, buffer, chunks);
    FeedNodeIsDrain(buffer, chunks);
    NodeCodec.DrainDecodes(buffer + Concat(chunks));
  }

  /** Byte conservation and maximality: every byte received is either re-encoded
      in a dispatched packet or still in the buffer, and the buffer is too short
      for a header, starts with a wrong version, or is short of its own frame. */
  lemma BytesConserved(host: CppCodec.Host, buffer: seq<byte>, chunks: seq<seq<byte>>)
    requires chunks != []
    ensures
      var s := FeedCpp(host, buffer, chunks);
      && AllEncodable(s.frames)
      && buffer + Concat(chunks) == EncodeAll(s.frames) + s.rest
      && (|s.rest| < HEADER_SIZE || s.rest[5] != PROTOCOL_VERSION || |s.rest| < HEADER_SIZE + ReadU32(s.rest))
  {
    FeedingIsCutIndependent(host, buffer, chunks);
    WaitingExactly(FeedCpp(host, buffer, chunks).rest);
  }

  /** Packet-stream round trip: packets serialized back to back, cut anywhere,
      are dispatched as exactly that list, and the buffer ends empty. */
  lemma PacketsRoundTrip(host: CppCodec.Host, fs: seq<Frame>, chunks: seq<seq<byte>>)
    requires AllEncodable(fs) && chunks != [] && Concat(chunks) == EncodeAll(fs)
    ensures FeedCpp(host, [], chunks) == FeedNode([], chunks) == Stream(fs, [])
  {
    FeedingIsCutIndependent(host, [], chunks);
    assert [] + Concat(chunks) == EncodeAll(fs);
    DecodingOfEncoding(fs);
    DecodingUnique(EncodeAll(fs), FeedNode([], chunks), Stream(fs, []));
  }

  /** What serialize produces comes out of the C++ loop as the one packet put in,
      with nothing left over, exactly when the body is under 2^32 bytes. */
  lemma SerializedPacketSurvivesExactly(host: CppCodec.Host, f: Frame)
    ensures CppCodec.Drain(host, CppCodec.Wire(f)) == Stream([f], []) <==> Encodable(f)
  {
    DecodersAgree(host, CppCodec.Wire(f));
    if Encodable(f) {
      CppCodec.SerializeFaithfulExactly(f);
      assert EncodeAll([f]) == Encode(f);
      DecodingOfEncoding([f]);
      DecodingUnique(Encode(f), CppCodec.Drain(host, Encode(f)), Stream([f], []));
    } else {
      var frames := CppCodec.Drain(host, CppCodec.Wire(f)).frames;
      assert frames != [] ==> Encodable(frames[0]);
    }
  }
}
