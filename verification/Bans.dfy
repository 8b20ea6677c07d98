/** When a ban of an offline user is total: what can still reach them, or be
    their doing, while a connection logged in as them is open. */
module Bans {
  import opened Wrappers
  import opened Framing
  import opened Dicts
  import opened ChatModel
  import opened DbSpec
  import opened DbInvariants
  import opened SessionSpec
  import opened Effects
  import opened World
  import opened Invariants
  import opened Safety
  import Broadcast
  import NodeCodec

  // ----- what a connection has yet to say -----

  /** After the complete packets a wrong version is next: nothing that arrives
      from now on is ever read. */
  predicate Deaf(buffer: seq<byte>) {
    var rest := NodeCodec.Drain(buffer).rest;
    |rest| >= HEADER_SIZE && rest[5] != PROTOCOL_VERSION
  }

  function Zeros(n: nat): (b: seq<byte>)
    ensures |b| == n
  {
    seq(n, _ => 0)
  }

  /** Bytes that complete whatever packet has begun. */
  lemma Completion(rest: seq<byte>) returns (tail: seq<byte>, f: Frame)
    requires Waiting(rest) && (|rest| < HEADER_SIZE || rest[5] == PROTOCOL_VERSION)
    ensures Encodable(f) && rest + tail == Encode(f)
  {
    WaitingExactly(rest);
    var header := if |rest| < HEADER_SIZE then rest + Zeros(5 - |rest|) + [PROTOCOL_VERSION] else rest;
    tail := header[|rest|..] + Zeros(HEADER_SIZE + ReadU32(header) - |header|);
    var data := rest + tail;
    assert data == header + Zeros(HEADER_SIZE + ReadU32(header) - |header|);
    assert ReadU32(data) == ReadU32(header) && data[5] == PROTOCOL_VERSION;
    FrameOfHeader(data);
    f := Frame(data[4], data[HEADER_SIZE..HEADER_SIZE + ReadU32(data)]);
    assert data[..|data|] == data;
  }

  /** Unless a connection is deaf, some bytes make a given packet one of those it
      dispatches, whatever it has received so far. */
  lemma CanBeSaid(buffer: seq<byte>, f: Frame) returns (chunk: seq<byte>)
    requires !Deaf(buffer) && Encodable(f)
    ensures f in NodeCodec.Drain(buffer + chunk).frames
  {
    var rest := NodeCodec.Drain(buffer).rest;
    NodeCodec.DrainDecodes(buffer);
    var tail, begun := Completion(rest);
    chunk := tail + Encode(f);
    assert rest + chunk == Encode(begun) + Encode(f);
    TwoPackets(begun, f);
    SaidAfter(buffer, chunk, begun, f);
  }

  lemma SaidAfter(buffer: seq<byte>, chunk: seq<byte>, begun: Frame, f: Frame)
    requires NodeCodec.Drain(NodeCodec.Drain(buffer).rest + chunk).frames == [begun, f]
    ensures f in NodeCodec.Drain(buffer + chunk).frames
  {
    NodeCodec.DrainSplit(buffer, chunk);
    assert [begun, f][1] == f;
  }

  lemma TwoPackets(f: Frame, g: Frame)
    requires Encodable(f) && Encodable(g)
    ensures NodeCodec.Drain(Encode(f) + Encode(g)) == Stream([f, g], [])
  {
    assert [f, g][1..] == [g] && [g][1..] == [] && EncodeAll([]) == [];
    assert EncodeAll([g]) == Encode(g);
    assert EncodeAll([f, g]) == Encode(f) + EncodeAll([g]);
    DecodingOfEncoding([f, g]);
    NodeCodec.DrainDecodes(Encode(f) + Encode(g));
    DecodingUnique(Encode(f) + Encode(g), NodeCodec.Drain(Encode(f) + Encode(g)), Stream([f, g], []));
  }

  // ----- a connection of the banned user's is answered -----

  /** A banned user's own packets unban nobody. */
  lemma BannedUnbansNobody(env: Env, w: State, c: nat, u: string)
    requires IsOf(w, c, u) && IsBanned(w.g.db.data, u)
    ensures !Unbans(env, w, Dispatch(c), u)
  {
  }

  /** Logging a connection in as someone is answered on it. */
  lemma AnnounceReplies(c: nat, s: Local, key: string, isNull: bool)
    ensures s.g.log <= Announce(c, s, key, isNull).g.log
    ensures |s.g.log| < |Announce(c, s, key, isNull).g.log| && Announce(c, s, key, isNull).g.log[|s.g.log|].conn == c
  {
  }

  lemma AuthenticationReplies(env: Env, c: nat, s: Local, f: Frame)
    requires Authenticates(env, s, f).Some?
    ensures
      var log := Handle(env, c, s, f).g.log;
      s.g.log <= log && |s.g.log| < |log| && log[|s.g.log|].conn == c
  {
    var j := env.parse(f.body).json;
    if f.kind == AUTH_LOGIN {
      var user := LoginAs(env, s, j).value;
      var me := Ident(user.id, user.username, true, user.isNull, s.me.logins + 1);
      AnnounceReplies(c, Local(SetSession(s.g, user.id, c), me), j.publicKey, user.isNull);
    } else {
      var (db', r) := RegisterUser(env, s.g.db, j.username, j.password);
      var me := Ident(r.id, j.username, true, s.me.isNull, s.me.logins + 1);
      AnnounceReplies(c, Local(SetSession(s.g.(db := db'), r.id, c), me), j.publicKey, false);
    }
  }

  /** With a ping among the packets a connection of u's has still to dispatch,
      dispatching them sends u something: an answer to a login as someone else, or
      to the ping. */
  lemma {:induction false} PendingPingAnswered(env: Env, w: State, c: nat, u: string, body: seq<byte>)
    returns (events: seq<Event>)
    requires EnvOk(env) && Inv(env, w) && IsBanned(w.g.db.data, u) && IsOf(w, c, u)
    requires Frame(PING, body) in NodeCodec.Drain(w.conns[c].buffer).frames && !env.parse(body).Malformed?
    ensures NeverUnbans(env, w, events, u) && !NothingToOrFrom(env, w, events, u)
    decreases |NodeCodec.Drain(w.conns[c].buffer).frames|
  {
    var p := NextPacket(w, c).value;
    var f := Frame(p.kind, p.body);
    var w1 := Step(env, w, Dispatch(c));
    BannedUnbansNobody(env, w, c, u);
    events := [Dispatch(c)];
    assert [Dispatch(c)][1..] == [];
    if f == Frame(PING, body) {
      PingAnswered(env, w, c, u);
    } else if IsOf(w1, c, u) {
      StepKeeps(env, w, Dispatch(c));
      BanLiftedOnlyByUnban(env, w, Dispatch(c), u);
      var frames := NodeCodec.Drain(w.conns[c].buffer).frames;
      assert frames == [f] + NodeCodec.Drain(w1.conns[c].buffer).frames;
      var more := PendingPingAnswered(env, w1, c, u, body);
      events := [Dispatch(c)] + more;
      assert events[1..] == more;
    } else {
      SwitchAnswered(env, w, c, u);
    }
  }

  lemma PingAnswered(env: Env, w: State, c: nat, u: string)
    requires IsOf(w, c, u) && NextPacket(w, c).Some? && NextPacket(w, c).value.kind == PING
    requires !env.parse(NextPacket(w, c).value.body).Malformed?
    ensures !NothingToOrFrom(env, w, [Dispatch(c)], u)
  {
    var w1 := Step(env, w, Dispatch(c));
    assert w1.g.log == w.g.log + [Sent(c, "", Pong)];
    assert !Unrelated(w, w1.g.log[|w.g.log|], u);
  }

  lemma SwitchAnswered(env: Env, w: State, c: nat, u: string)
    requires IsOf(w, c, u) && NextPacket(w, c).Some? && !IsOf(Step(env, w, Dispatch(c)), c, u)
    ensures !NothingToOrFrom(env, w, [Dispatch(c)], u)
  {
    var p, w1 := NextPacket(w, c).value, Step(env, w, Dispatch(c));
    var s, f := LocalOf(w, c), Frame(p.kind, p.body);
    HandleSessions(env, c, s, f);
    AuthenticationReplies(env, c, s, f);
    assert !Unrelated(w, w1.g.log[|w.g.log|], u);
  }

  /** Whatever part of a packet a connection of u's has received, some further
      bytes on it get u an answer, unless it is deaf. */
  lemma OpenConnectionAnswered(env: Env, w: State, c: nat, u: string, body: seq<byte>) returns (events: seq<Event>)
    requires EnvOk(env) && Inv(env, w) && IsBanned(w.g.db.data, u) && IsOf(w, c, u) && !Deaf(w.conns[c].buffer)
    requires |body| < TWO_TO_32 && !env.parse(body).Malformed?
    ensures NeverUnbans(env, w, events, u) && !NothingToOrFrom(env, w, events, u)
  {
    var chunk := CanBeSaid(w.conns[c].buffer, Frame(PING, body));
    var w1 := Step(env, w, Arrive(c, chunk));
    StepKeeps(env, w, Arrive(c, chunk));
    var more := PendingPingAnswered(env, w1, c, u, body);
    events := [Arrive(c, chunk)] + more;
    assert events[1..] == more;
  }

  // ----- a connection of the banned user's is missed -----

  /** Closing a connection of u's tells whoever is online that u is gone. */
  lemma ClosingIsTold(env: Env, w: State, c: nat, u: string, v: string)
    requires IsOf(w, c, u) && u != "" && u !in w.g.sessions.vals && v in w.g.sessions.vals
    ensures NeverUnbans(env, w, [Close(c)], u) && !NothingToOrFrom(env, w, [Close(c)], u)
  {
    var w1 := Step(env, w, Close(c));
    var k := OfflineTold(w.g.(sessions := Del(w.g.sessions, u)), u, w.conns[c].me.username, v);
    assert !Unrelated(w1, w1.g.log[k], u);
    assert [Close(c)][1..] == [];
  }

  lemma OfflineTold(g: Globals, u: string, username: string, v: string) returns (k: nat)
    requires v in g.sessions.vals && v != u
    ensures
      var log := BroadcastStatus(g, u, username, false).log;
      g.log <= log && |g.log| <= k < |log| && Origin(log[k].packet) == Some(u)
  {
    var g' := BroadcastStatus(g, u, username, false);
    Broadcast.StatusExact(g, u, username, false, v);
    var sent := g'.log[|g.log|..];
    var i := Broadcast.SomeReceived(sent, v);
    k := |g.log| + i;
    assert g'.log[k] == sent[i];
    var p := UserOffline(u, username, PublicKeyOf(g.db.data.users, u));
    FanoutPackets(g.sessions.keys, g.sessions, Some(u), p, |g.sessions.keys|);
    assert sent == Fanout(g.sessions.keys, g.sessions, Some(u), p, |g.sessions.keys|);
    assert sent[i] in sent;
  }

  lemma {:induction false} FanoutPackets(users: seq<string>, sessions: Dict<nat>, except: Option<string>, p: Packet,
                                         k: nat)
    requires k <= |users|
    ensures forall e :: e in Fanout(users, sessions, except, p, k) ==> e.packet == p
  {
    if k > 0 {
      FanoutPackets(users, sessions, except, p, k - 1);
    }
  }

  // ----- the exact condition -----

  /** Someone is online, or no open connection of u's is deaf and some text parses. */
  ghost predicate Noticeable(env: Env, w: State, u: string, body: seq<byte>) {
    || (exists v :: v in w.g.sessions.vals)
    || ((forall c :: IsOf(w, c, u) ==> !Deaf(w.conns[c].buffer)) && |body| < TWO_TO_32 && !env.parse(body).Malformed?)
  }

  /** A ban cuts an offline user off, in every run without an /unban, exactly if no
      open connection is logged in as them. For if one is, its closing is told to
      whoever is online, and something it sends is answered, whatever part of a
      packet it has already received. (Where nobody is online, and only a
      connection that got out of step is left, nothing may ever come of it.) */
  lemma BanTotalExactly(env: Env, w: State, u: string, body: seq<byte>)
    requires EnvOk(env) && Inv(env, w) && IsBanned(w.g.db.data, u) && u !in w.g.sessions.vals
    requires Noticeable(env, w, u, body)
    ensures (forall events :: NeverUnbans(env, w, events, u) ==> NothingToOrFrom(env, w, events, u)) <==> Gone(w, u)
  {
    if Gone(w, u) {
      forall events | NeverUnbans(env, w, events, u)
        ensures NothingToOrFrom(env, w, events, u)
      {
        GoneIsCutOff(env, w, events, u);
      }
    } else {
      var c :| IsOf(w, c, u);
      var events := Noticed(env, w, c, u, body);
    }
  }

  lemma Noticed(env: Env, w: State, c: nat, u: string, body: seq<byte>) returns (events: seq<Event>)
    requires EnvOk(env) && Inv(env, w) && IsBanned(w.g.db.data, u) && u !in w.g.sessions.vals && IsOf(w, c, u)
    requires Noticeable(env, w, u, body)
    ensures NeverUnbans(env, w, events, u) && !NothingToOrFrom(env, w, events, u)
  {
    if v :| v in w.g.sessions.vals {
      NoUserUnnamed(env, w.g.db);
      assert BanList(w.g.db.data, w.g.db.data.banned);
      ClosingIsTold(env, w, c, u, v);
      events := [Close(c)];
    } else {
      events := OpenConnectionAnswered(env, w, c, u, body);
    }
  }
}
