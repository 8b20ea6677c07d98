/** The receiving half of the C++ client (ClientNetwork.cpp): the receive loop,
    the packet handler's effect on the client's state, and disconnection. */
module ClientNetworkModel {
  import opened Framing
  import CppCodec
  import NodeCodec
  import Decoders

  // MessageType values of Protocol.h that change the client's state
  const AUTH_RESPONSE: byte := 2
  const USER_ONLINE: byte := 17
  const PUB_KEY_RESPONSE: byte := 20

  datatype GroupEntry = GroupEntry(id: string, name: string)

  /** The members of a JSON object the client reads; an absent one reads as
      empty, as QJsonValue's conversions have it. */
  datatype Doc = Doc(status: string, userId: string, username: string, isNull: bool,
                     groups: seq<GroupEntry>, publicKey: string)

  /** The state packets can change. */
  datatype Client = Client(userId: string, username: string, authenticated: bool, isNull: bool,
                           initialGroups: seq<GroupEntry>,
                           pendingUsername: string, pendingPassword: string,
                           peerKeys: map<string, string>)
  {
    function PeerPublicKey(peer: string): string {
      if peer in peerKeys then peerKeys[peer] else ""
    }
  }

  /** One packet's effect. `doc` stands for QJsonDocument::fromJson. */
  function Handle(doc: seq<byte> -> Doc, s: Client, f: Frame): Client {
    var d := doc(f.body);
    if f.kind == AUTH_RESPONSE then
      var t := s.(pendingUsername := "", pendingPassword := "");
      if d.status == "ok" then
        t.(userId := d.userId, username := d.username, isNull := d.isNull, authenticated := true,
           initialGroups := d.groups)
      else t
    else if f.kind == USER_ONLINE || f.kind == PUB_KEY_RESPONSE then
      if d.publicKey != "" then s.(peerKeys := s.peerKeys[d.userId := d.publicKey]) else s
    else s
  }

  function HandleAll(doc: seq<byte> -> Doc, s: Client, fs: seq<Frame>): Client
    decreases |fs|
  {
    if fs == [] then s else HandleAll(doc, Handle(doc, s, fs[0]), fs[1..])
  }

  lemma HandleAllNext(doc: seq<byte> -> Doc, s: Client, f: Frame, fs: seq<Frame>)
    ensures HandleAll(doc, s, [f] + fs) == HandleAll(doc, Handle(doc, s, f), fs)
  {
    assert ([f] + fs)[1..] == fs;
  }

  class ClientNetwork {
    const host: CppCodec.Host
    const doc: seq<byte> -> Doc
    var userId: string
    var username: string
    var authenticated: bool
    var isNull: bool
    var initialGroups: seq<GroupEntry>
    var pendingUsername: string
    var pendingPassword: string
    var readBuffer: seq<byte>
    var peerKeys: map<string, string>
    ghost var handled: seq<Frame>  // the packets given to HandlePacket, in order

    constructor (host: CppCodec.Host, doc: seq<byte> -> Doc)
      ensures this.host == host && this.doc == doc && readBuffer == [] && handled == []
      ensures State() == Client("", "", false, false, [], "", "", map[])
    {
      this.host, this.doc := host, doc;
      userId, username, authenticated, isNull := "", "", false, false;
      initialGroups, pendingUsername, pendingPassword := [], "", "";
      readBuffer, peerKeys, handled := [], map[], [];
    }

    ghost function State(): Client
      reads this
    {
      Client(userId, username, authenticated, isNull, initialGroups, pendingUsername, pendingPassword, peerKeys)
    }

    /** onReadyRead. The result says whether the loop asked to disconnect. */
    method OnReadyRead(chunk: seq<byte>) returns (mismatch: bool)
      modifies this
      ensures
        var s := CppCodec.Drain(host, old(readBuffer) + chunk);
        && State() == HandleAll(doc, old(State()), s.frames)
        && handled == old(handled) + s.frames
        && readBuffer == s.rest
        && (mismatch <==> |s.rest| >= HEADER_SIZE && s.rest[5] != PROTOCOL_VERSION)
    {
      mismatch := false;
      readBuffer := readBuffer + chunk;
      ghost var whole := CppCodec.Drain(host, readBuffer);
      while |readBuffer| >= HEADER_SIZE
        invariant !mismatch
        invariant CppCodec.Drain(host, readBuffer).rest == whole.rest
        invariant handled + CppCodec.Drain(host, readBuffer).frames == old(handled) + whole.frames
        invariant HandleAll(doc, State(), CppCodec.Drain(host, readBuffer).frames)
               == HandleAll(doc, old(State()), whole.frames)
        decreases |readBuffer|
      {
        match CppCodec.LookAt(host, readBuffer)
        case Mismatch =>
          mismatch := true;
          return;
        case NeedMore =>
          return;
        case Packet(f, total) =>
          readBuffer := readBuffer[total..];
          ghost var after := CppCodec.Drain(host, readBuffer).frames;
          HandleAllNext(doc, State(), f, after);
          assert handled + ([f] + after) == handled + [f] + after;
          HandlePacket(f.kind, f.body);
      }
    }

    method HandlePacket(kind: byte, body: seq<byte>)
      modifies this
      ensures State() == Handle(doc, old(State()), Frame(kind, body))
      ensures readBuffer == old(readBuffer) && handled == old(handled) + [Frame(kind, body)]
    {
      handled := handled + [Frame(kind, body)];
      var obj := doc(body);
      if kind == AUTH_RESPONSE {
        pendingUsername, pendingPassword := "", "";
        if obj.status == "ok" {
          userId, username, isNull := obj.userId, obj.username, obj.isNull;
          authenticated := true;
          SetInitialGroups(obj.groups);
        }
      } else if kind == USER_ONLINE || kind == PUB_KEY_RESPONSE {
        if obj.publicKey != "" {
          peerKeys := peerKeys[obj.userId := obj.publicKey];
        }
      }
    }

    method SetInitialGroups(groups: seq<GroupEntry>)
      modifies `initialGroups
      ensures initialGroups == groups
    {
      initialGroups := [];
      for i := 0 to |groups|
        invariant initialGroups == groups[..i]
      {
        initialGroups := initialGroups + [groups[i]];
      }
    }

    /** onDisconnected. Neither the keys nor the read buffer are cleared. */
    method OnDisconnected()
      modifies this
      ensures State() == old(State()).(authenticated := false)
      ensures readBuffer == old(readBuffer) && handled == old(handled)
    {
      authenticated := false;
    }
  }

  // ----- whole runs: data and disconnections interleaved -----

  datatype Event = Readable(chunk: seq<byte>) | Disconnected

  datatype Net = Net(client: Client, buffer: seq<byte>)

  function Step(host: CppCodec.Host, doc: seq<byte> -> Doc, n: Net, e: Event): Net {
    match e
    case Readable(chunk) =>
      var s := CppCodec.Drain(host, n.buffer + chunk);
      Net(HandleAll(doc, n.client, s.frames), s.rest)
    case Disconnected => n.(client := n.client.(authenticated := false))
  }

  function Run(host: CppCodec.Host, doc: seq<byte> -> Doc, n: Net, events: seq<Event>): Net
    decreases |events|
  {
    if events == [] then n else Run(host, doc, Step(host, doc, n, events[0]), events[1..])
  }

  /** What the client lived through: packets received and connections lost. */
  datatype Item = Got(frame: Frame) | Lost

  function Received(fs: seq<Frame>): (items: seq<Item>)
    ensures |items| == |fs|
    ensures forall i :: 0 <= i < |fs| ==> items[i] == Got(fs[i])
  {
    seq(|fs|, i requires 0 <= i < |fs| => Got(fs[i]))
  }

  /** The history of a run, read off the byte stream alone. */
  function History(host: CppCodec.Host, buffer: seq<byte>, events: seq<Event>): seq<Item>
    decreases |events|
  {
    if events == [] then []
    else match events[0]
      case Readable(chunk) =>
        var s := CppCodec.Drain(host, buffer + chunk);
        Received(s.frames) + History(host, s.rest, events[1..])
      case Disconnected => [Lost] + History(host, buffer, events[1..])
  }

  function After(doc: seq<byte> -> Doc, s: Client, i: Item): Client {
    match i
    case Got(f) => Handle(doc, s, f)
    case Lost => s.(authenticated := false)
  }

  function AfterAll(doc: seq<byte> -> Doc, s: Client, items: seq<Item>): Client
    decreases |items|
  {
    if items == [] then s else AfterAll(doc, After(doc, s, items[0]), items[1..])
  }

  lemma {:induction false} AfterAllConcat(doc: seq<byte> -> Doc, s: Client, a: seq<Item>, b: seq<Item>)
    ensures AfterAll(doc, s, a + b) == AfterAll(doc, AfterAll(doc, s, a), b)
    decreases |a|
  {
    if a == [] {
      assert a + b == b;
    } else {
      assert (a + b)[1..] == a[1..] + b;
      AfterAllConcat(doc, After(doc, s, a[0]), a[1..], b);
    }
  }

  lemma {:induction false} AfterReceived(doc: seq<byte> -> Doc, s: Client, fs: seq<Frame>)
    ensures AfterAll(doc, s, Received(fs)) == HandleAll(doc, s, fs)
    decreases |fs|
  {
    if fs != [] {
      assert Received(fs)[1..] == Received(fs[1..]);
      AfterReceived(doc, Handle(doc, s, fs[0]), fs[1..]);
    }
  }

  lemma {:induction false} RunFollowsHistory(host: CppCodec.Host, doc: seq<byte> -> Doc, n: Net, events: seq<Event>)
    ensures Run(host, doc, n, events).client == AfterAll(doc, n.client, History(host, n.buffer, events))
    decreases |events|
  {
    if events != [] {
      var rest := events[1..];
      var m := Step(host, doc, n, events[0]);
      RunFollowsHistory(host, doc, m, rest);
      match events[0]
      case Readable(chunk) =>
        var s := CppCodec.Drain(host, n.buffer + chunk);
        AfterReceived(doc, n.client, s.frames);
        AfterAllConcat(doc, n.client, Received(s.frames), History(host, s.rest, rest));
      case Disconnected =>
        AfterAllConcat(doc, n.client, [Lost], History(host, n.buffer, rest));
        assert AfterAll(doc, n.client, [Lost]) == After(doc, n.client, Lost);
    }
  }

  /** The last place where p holds, or -1. */
  function LastWhere(items: seq<Item>, p: Item -> bool): (k: int)
    ensures -1 <= k < |items|
    ensures k >= 0 ==> p(items[k])
    ensures forall m :: k < m < |items| ==> !p(items[m])
  {
    if items == [] then -1
    else if p(items[|items| - 1]) then |items| - 1
    else LastWhere(items[..|items| - 1], p)
  }

  /** A non-empty key for u, in a UserOnline or PubKeyResponse. */
  predicate Teaches(doc: seq<byte> -> Doc, i: Item, u: string) {
    && i.Got?
    && (i.frame.kind == USER_ONLINE || i.frame.kind == PUB_KEY_RESPONSE)
    && doc(i.frame.body).userId == u && doc(i.frame.body).publicKey != ""
  }

  predicate Welcomes(doc: seq<byte> -> Doc, i: Item) {
    i.Got? && i.frame.kind == AUTH_RESPONSE && doc(i.frame.body).status == "ok"
  }

  lemma {:induction false} AfterAllLast(doc: seq<byte> -> Doc, s: Client, items: seq<Item>)
    requires items != []
    ensures AfterAll(doc, s, items)
         == After(doc, AfterAll(doc, s, items[..|items| - 1]), items[|items| - 1])
  {
    var last := items[|items| - 1];
    assert items == items[..|items| - 1] + [last];
    AfterAllConcat(doc, s, items[..|items| - 1], [last]);
    assert AfterAll(doc, AfterAll(doc, s, items[..|items| - 1]), [last])
        == After(doc, AfterAll(doc, s, items[..|items| - 1]), last);
  }

  lemma {:induction false} KeyFromHistory(doc: seq<byte> -> Doc, s: Client, items: seq<Item>, u: string)
    ensures
      var k := LastWhere(items, i => Teaches(doc, i, u));
      AfterAll(doc, s, items).PeerPublicKey(u)
      == if k < 0 then s.PeerPublicKey(u) else doc(items[k].frame.body).publicKey
    decreases |items|
  {
    if items != [] {
      AfterAllLast(doc, s, items);
      KeyFromHistory(doc, s, items[..|items| - 1], u);
    }
  }

  /** Who the client is: id, name, admin flag and groups. */
  function Identity(s: Client): (string, string, bool, seq<GroupEntry>) {
    (s.userId, s.username, s.isNull, s.initialGroups)
  }

  function IdentityIn(d: Doc): (string, string, bool, seq<GroupEntry>) {
    (d.userId, d.username, d.isNull, d.groups)
  }

  lemma {:induction false} AuthFromHistory(doc: seq<byte> -> Doc, s: Client, items: seq<Item>)
    ensures
      var ok := LastWhere(items, i => Welcomes(doc, i));
      var lost := LastWhere(items, (i: Item) => i.Lost?);
      var t := AfterAll(doc, s, items);
      && (t.authenticated <==> ok > lost || (ok == lost && s.authenticated))
      && Identity(t) == if ok < 0 then Identity(s) else IdentityIn(doc(items[ok].frame.body))
    decreases |items|
  {
    if items != [] {
      AfterAllLast(doc, s, items);
      AuthFromHistory(doc, s, items[..|items| - 1]);
    }
  }

  /** In every run, a peer's key is the last non-empty one received for it (an
      empty key never erases one, nor does a disconnection), and the client is
      authenticated exactly when an ok AuthResponse came after the last
      disconnection; its id, name, admin flag and groups are those of the last one. */
  lemma ClientIsFoldOfHistory(host: CppCodec.Host, doc: seq<byte> -> Doc, n: Net, events: seq<Event>, u: string)
    ensures
      var items := History(host, n.buffer, events);
      var t := Run(host, doc, n, events).client;
      var key := LastWhere(items, i => Teaches(doc, i, u));
      var ok := LastWhere(items, i => Welcomes(doc, i));
      var lost := LastWhere(items, (i: Item) => i.Lost?);
      && t.PeerPublicKey(u) == (if key < 0 then n.client.PeerPublicKey(u) else doc(items[key].frame.body).publicKey)
      && (t.authenticated <==> ok > lost || (ok == lost && n.client.authenticated))
      && Identity(t) == if ok < 0 then Identity(n.client) else IdentityIn(doc(items[ok].frame.body))
  {
    RunFollowsHistory(host, doc, n, events);
    KeyFromHistory(doc, n.client, History(host, n.buffer, events), u);
    AuthFromHistory(doc, n.client, History(host, n.buffer, events));
  }

  lemma {:induction false} HandleAllConcat(doc: seq<byte> -> Doc, s: Client, a: seq<Frame>, b: seq<Frame>)
    ensures HandleAll(doc, s, a + b) == HandleAll(doc, HandleAll(doc, s, a), b)
    decreases |a|
  {
    if a == [] {
      assert a + b == b;
    } else {
      assert (a + b)[1..] == a[1..] + b;
      HandleAllConcat(doc, Handle(doc, s, a[0]), a[1..], b);
    }
  }

  function Pieces(chunks: seq<seq<byte>>): (events: seq<Event>)
    ensures |events| == |chunks|
  {
    if chunks == [] then [] else [Readable(chunks[0])] + Pieces(chunks[1..])
  }

  lemma TwoPieces(host: CppCodec.Host, doc: seq<byte> -> Doc, n: Net, a: seq<byte>, b: seq<byte>)
    ensures Step(host, doc, Step(host, doc, n, Readable(a)), Readable(b)) == Step(host, doc, n, Readable(a + b))
  {
    assert n.buffer + (a + b) == n.buffer + a + b;
    var s := CppCodec.Drain(host, n.buffer + a);
    NodeCodec.DrainSplit(n.buffer + a, b);
    Decoders.DecodersAgree(host, n.buffer + a);
    Decoders.DecodersAgree(host, s.rest + b);
    Decoders.DecodersAgree(host, n.buffer + a + b);
    HandleAllConcat(doc, n.client, s.frames, CppCodec.Drain(host, s.rest + b).frames);
  }

  /** The client's whole state, leftover bytes included, does not depend on how
      the bytes were cut, into however many pieces. */
  lemma {:induction false} ClientCutIndependent(host: CppCodec.Host, doc: seq<byte> -> Doc, n: Net,
                                                chunks: seq<seq<byte>>)
    requires chunks != []
    ensures Run(host, doc, n, Pieces(chunks)) == Step(host, doc, n, Readable(Concat(chunks)))
    decreases |chunks|
  {
    var m := Step(host, doc, n, Readable(chunks[0]));
    ConcatFront(chunks);
    if |chunks| == 1 {
      assert chunks[0] + [] == chunks[0];
    } else {
      ClientCutIndependent(host, doc, m, chunks[1..]);
      TwoPieces(host, doc, n, chunks[0], Concat(chunks[1..]));
    }
  }

  lemma {:induction false} ConcatFront(chunks: seq<seq<byte>>)
    requires chunks != []
    ensures Concat(chunks) == chunks[0] + Concat(chunks[1..])
    decreases |chunks|
  {
    var front, last := chunks[..|chunks| - 1], chunks[|chunks| - 1];
    if front == [] {
      assert Concat(chunks) == last == last + [];
    } else {
      ConcatFront(front);
      assert front[1..] == chunks[1..][..|chunks| - 2];
      assert chunks[0] + Concat(front[1..]) + last == chunks[0] + (Concat(front[1..]) + last);
    }
  }

  /** The read buffer outlives the connection. A new connection's packets are
      dispatched correctly, whatever they are, exactly when nothing was left over
      from the old one: otherwise even a single empty packet is lost or misread. */
  lemma ReconnectReadsCorrectlyExactly(host: CppCodec.Host, leftover: seq<byte>)
    requires Waiting(leftover)
    ensures (forall stream: seq<byte> ::
               CppCodec.Drain(host, leftover + stream).frames == CppCodec.Drain(host, stream).frames)
            <==> leftover == []
  {
    if leftover == [] {
      forall stream: seq<byte>
        ensures CppCodec.Drain(host, leftover + stream).frames == CppCodec.Drain(host, stream).frames
      {
        assert leftover + stream == stream;
      }
    } else {
      LeftoverMisreads(host, leftover);
    }
  }

  lemma LeftoverMisreads(host: CppCodec.Host, leftover: seq<byte>)
    requires Waiting(leftover) && leftover != []
    ensures var stream := Encode(Frame(0, []));
            CppCodec.Drain(host, leftover + stream).frames != CppCodec.Drain(host, stream).frames
  {
    var f := Frame(0, []);
    var stream := Encode(f);
    assert EncodeAll([f]) == stream;
    DecodingOfEncoding([f]);
    Decoders.DecodersAgree(host, stream);
    DecodingUnique(stream, Stream([f], []), CppCodec.Drain(host, stream));
    var s := CppCodec.Drain(host, leftover + stream);
    Decoders.DecodersAgree(host, leftover + stream);
    if s.frames == [f] {
      assert leftover + stream == stream + s.rest;
      if |leftover| >= HEADER_SIZE {
        assert leftover[..HEADER_SIZE] == stream;
        assert StartsWith(leftover, f);
      }
    }
  }
}
