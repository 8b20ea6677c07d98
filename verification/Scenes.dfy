/** Runs of the server on which what one might expect of it fails: for every
    environment, started server and users that meet a few conditions, and ruled
    out by the exact conditions proved elsewhere. Module Witnesses meets them. */
module Scenes {
  import opened Wrappers
  import opened Framing
  import opened Dicts
  import opened ChatModel
  import opened DbSpec
  import opened DbInvariants
  import opened SessionSpec
  import Effects
  import opened World
  import opened Invariants
  import NodeCodec
  import Routing
  import Rights
  import Safety
  import Broadcast
  import Addressing

  // ----- one packet on a connection -----

  /** A packet arrives and is dispatched. */
  function Say(c: nat, f: Frame): seq<Event>
    requires Encodable(f)
  {
    [Arrive(c, Encode(f)), Dispatch(c)]
  }

  lemma SayRun(env: Env, w: State, c: nat, f: Frame)
    requires Live(w, c) && w.conns[c].buffer == [] && Encodable(f)
    ensures
      var s := Handle(env, c, LocalOf(w, c), f);
      Run(env, w, Say(c, f)) == w.(g := s.g, conns := w.conns[c := Conn(s.me, [], true)])
  {
    var me := w.conns[c].me;
    var w1 := w.(conns := w.conns[c := Conn(me, Encode(f), true)]);
    assert [] + Encode(f) == Encode(f);
    assert Step(env, w, Arrive(c, Encode(f))) == w1;
    NodeCodec.ParsePacketExact(Encode(f), f);
    var p := NextPacket(w1, c).value;
    assert p.kind == f.kind && p.body == f.body && Encode(f)[p.total..] == [];
    var s := Handle(env, c, LocalOf(w, c), f);
    assert w1.conns[c := Conn(s.me, [], true)] == w.conns[c := Conn(s.me, [], true)];
    assert Frame(p.kind, p.body) == f && LocalOf(w1, c) == LocalOf(w, c);
    var w2 := w.(g := s.g, conns := w.conns[c := Conn(s.me, [], true)]);
    assert Step(env, w1, Dispatch(c)) == HandleNext(env, w1, c, p) == w2;
    assert Say(c, f)[1..] == [Dispatch(c)] && [Dispatch(c)][1..] == [];
    assert Run(env, w1, [Dispatch(c)]) == Run(env, w2, []);
  }

  lemma OpenRun(env: Env, w: State)
    ensures Run(env, w, [Open])
         == w.(conns := w.conns[w.nextConn := Conn(NOBODY, [], true)], nextConn := w.nextConn + 1)
  {
    assert [Open][1..] == [];
  }

  /** The one-byte body `key` is the user's login, giving no public key. */
  predicate Opens(env: Env, key: byte, user: User) {
    match env.parse([key])
    case Record(j) =>
      && j.username == user.username && j.publicKey == ""
      && j.password.Some? && env.hash(j.password.value) == user.passwordHash
    case _ => false
  }

  /** The user has an account and is not banned. */
  predicate MayLogIn(d: Data, user: User) {
    user.username in d.users && d.users[user.username] == user && !IsBanned(d, user.id)
  }

  function Login(c: nat, key: byte): seq<Event> {
    Say(c, Frame(AUTH_LOGIN, [key]))
  }

  /** Such a login changes the sessions map and the connection's identity, and
      nothing else but the log. */
  lemma LoginRun(env: Env, w: State, c: nat, key: byte, user: User)
    requires Live(w, c) && w.conns[c].buffer == []
    requires Opens(env, key, user) && MayLogIn(w.g.db.data, user)
    ensures
      var w' := Run(env, w, Login(c, key));
      var me := Ident(user.id, user.username, true, user.isNull, w.conns[c].me.logins + 1);
      && w'.g.db == w.g.db && w'.g.sessions == Put(w.g.sessions, user.id, c)
      && w'.conns == w.conns[c := Conn(me, [], true)] && w'.nextConn == w.nextConn
  {
    SayRun(env, w, c, Frame(AUTH_LOGIN, [key]));
    LoginHandled(env, c, LocalOf(w, c), key, user);
    ResumedQuietly(c, LocalOf(w, c), user);
  }

  lemma LoginHandled(env: Env, c: nat, s: Local, key: byte, user: User)
    requires Opens(env, key, user) && MayLogIn(s.g.db.data, user)
    ensures Handle(env, c, s, Frame(AUTH_LOGIN, [key])) == ResumeSession(c, s, user, "")
  {
  }

  lemma ResumedQuietly(c: nat, s: Local, user: User)
    ensures
      var s' := ResumeSession(c, s, user, "");
      && s'.g.db == s.g.db && s'.g.sessions == Put(s.g.sessions, user.id, c)
      && s'.me == Ident(user.id, user.username, true, user.isNull, s.me.logins + 1)
  {
  }

  function LoggedIn(u: User): Ident {
    Ident(u.id, u.username, true, u.isNull, 1)
  }

  /** A new connection, the c-th, on which a user logs in. */
  function Joins(c: nat, key: byte): seq<Event> {
    [Open] + Login(c, key)
  }

  lemma JoinsRun(env: Env, w: State, key: byte, user: User)
    requires Opens(env, key, user) && MayLogIn(w.g.db.data, user)
    ensures
      var c := w.nextConn;
      var w' := Run(env, w, Joins(c, key));
      && w'.g.db == w.g.db && w'.g.sessions == Put(w.g.sessions, user.id, c)
      && w'.conns == w.conns[c := Conn(LoggedIn(user), [], true)] && w'.nextConn == c + 1
  {
    var c := w.nextConn;
    OpenRun(env, w);
    LoginRun(env, Run(env, w, [Open]), c, key, user);
    RunConcat(env, w, [Open], Login(c, key));
    assert w.conns[c := Conn(NOBODY, [], true)][c := Conn(LoggedIn(user), [], true)]
        == w.conns[c := Conn(LoggedIn(user), [], true)];
  }

  /** A server just started. */
  ghost predicate Idle(w: State) {
    w.conns == map[] && w.nextConn == 0 && w.g.sessions == Empty<nat>()
  }

  // ----- one connection, two users -----

  function OneConnection(key: byte, key': byte): seq<Event> {
    Joins(0, key) + Login(0, key')
  }

  lemma OneConnectionRun(env: Env, w: State, key: byte, a: User, key': byte, b: User)
    requires Idle(w) && a.id != b.id
    requires Opens(env, key, a) && Opens(env, key', b) && MayLogIn(w.g.db.data, a) && MayLogIn(w.g.db.data, b)
    ensures
      var v := Run(env, w, OneConnection(key, key'));
      && v.g.db == w.g.db && v.nextConn == 1
      && a.id in v.g.sessions.vals && v.g.sessions.vals[a.id] == 0 && Safety.IsOf(v, 0, b.id)
  {
    JoinsRun(env, w, key, a);
    LoginRun(env, Run(env, w, Joins(0, key)), 0, key', b);
    RunConcat(env, w, Joins(0, key), Login(0, key'));
  }

  /** a logs in on a connection, then b does on the same one: a's entry is left
      leading to a connection that is now b's. */
  lemma RoutingFails(env: Env, w: State, key: byte, a: User, key': byte, b: User)
    requires Idle(w) && a.id != b.id
    requires Opens(env, key, a) && Opens(env, key', b) && MayLogIn(w.g.db.data, a) && MayLogIn(w.g.db.data, b)
    ensures !Routing.Sound(Run(env, w, OneConnection(key, key')))
  {
    OneConnectionRun(env, w, key, a, key', b);
    assert !Routing.SoundEntry(Run(env, w, OneConnection(key, key')), a.id);
  }

  // ----- one user, two connections -----

  function TwoConnections(key: byte): seq<Event> {
    Joins(0, key) + Joins(1, key)
  }

  lemma TwoConnectionsRun(env: Env, w: State, key: byte, a: User)
    requires Idle(w) && Opens(env, key, a) && MayLogIn(w.g.db.data, a)
    ensures
      var w' := Run(env, w, TwoConnections(key));
      && w'.g.db == w.g.db && w'.g.sessions.vals == map[a.id := 1]
      && w'.conns == map[0 := Conn(LoggedIn(a), [], true), 1 := Conn(LoggedIn(a), [], true)] && w'.nextConn == 2
  {
    JoinsRun(env, w, key, a);
    JoinsRun(env, Run(env, w, Joins(0, key)), key, a);
    RunConcat(env, w, Joins(0, key), Joins(1, key));
  }

  /** a logs in on two connections, and the second is closed: the first is still
      open and a's, and a can no longer be reached. */
  lemma CoverageFails(env: Env, w: State, key: byte, a: User)
    requires Idle(w) && Opens(env, key, a) && MayLogIn(w.g.db.data, a) && a.id != ""
    ensures
      var w' := Run(env, w, TwoConnections(key));
      Routing.Covered(w') && !Routing.Covered(Step(env, w', Close(1)))
  {
    TwoConnectionsRun(env, w, key, a);
    var w' := Run(env, w, TwoConnections(key));
    ClosedEffect(LocalOf(w', 1));
    assert !Routing.Served(Step(env, w', Close(1)), 0);
  }

  /** And with no closing at all: a logs in on two connections, then b on the
      second. The first is still open and a's, and everything for a is written on
      a connection of b's. */
  lemma CoverageFailsUnclosed(env: Env, w: State, key: byte, a: User, key': byte, b: User)
    requires Idle(w) && a.id != b.id
    requires Opens(env, key, a) && Opens(env, key', b) && MayLogIn(w.g.db.data, a) && MayLogIn(w.g.db.data, b)
    ensures
      var v, v' := Run(env, w, TwoConnections(key)), Run(env, w, TwoConnections(key) + Login(1, key'));
      && Routing.Covered(v) && !Routing.Covered(v')
      && Safety.IsOf(v', 0, a.id) && a.id in v'.g.sessions.vals && Safety.IsOf(v', v'.g.sessions.vals[a.id], b.id)
  {
    TwoConnectionsRun(env, w, key, a);
    var v := Run(env, w, TwoConnections(key));
    LoginRun(env, v, 1, key', b);
    RunConcat(env, w, TwoConnections(key), Login(1, key'));
    assert !Routing.Served(Run(env, w, TwoConnections(key) + Login(1, key')), 0);
  }

  // ----- a group's message on a connection of a user banned from it -----

  /** a logs in on a connection, then b on the same one, and e on another. */
  function Displaced(a: byte, b: byte, e: byte): seq<Event> {
    OneConnection(a, b) + Joins(1, e)
  }

  lemma DisplacedRun(env: Env, w: State, keyA: byte, a: User, keyB: byte, b: User, keyE: byte, e: User)
    requires Idle(w) && a.id != b.id && a.id != e.id
    requires Opens(env, keyA, a) && Opens(env, keyB, b) && Opens(env, keyE, e)
    requires MayLogIn(w.g.db.data, a) && MayLogIn(w.g.db.data, b) && MayLogIn(w.g.db.data, e)
    ensures
      var v := Run(env, w, Displaced(keyA, keyB, keyE));
      && v.g.db == w.g.db && a.id in v.g.sessions.vals && v.g.sessions.vals[a.id] == 0
      && Safety.IsOf(v, 0, b.id) && Live(v, 1) && v.conns[1] == Conn(LoggedIn(e), [], true)
  {
    OneConnectionRun(env, w, keyA, a, keyB, b);
    JoinsRun(env, Run(env, w, OneConnection(keyA, keyB)), keyE, e);
    RunConcat(env, w, OneConnection(keyA, keyB), Joins(1, keyE));
  }

  /** Where in the log an online member's copy of a post with a text is. */
  lemma PostedTo(env: Env, c: nat, s: Local, j: Json, a: User) returns (k: nat)
    requires DbOk(env, s.g.db) && a.username in s.g.db.data.users && s.g.db.data.users[a.username].id == a.id
    requires !s.me.isNull && j.content.Some? && Effects.MayPost(s, j.groupId)
    requires a.id != s.me.userId && a.id in GroupMembers(s.g.db.data, j.groupId) && a.id in s.g.sessions.vals
    ensures
      var log := HandleGroupMessage(env, c, s, j).g.log;
      && s.g.log <= log && |s.g.log| <= k < |log| && log[k].conn == s.g.sessions.vals[a.id]
      && Effects.AboutGroup(log[k].packet) == Some(j.groupId)
  {
    Broadcast.PostReaches(env, c, s, j, a.username);
    k := CopyInLog(s.g, s.me, GroupMembers(s.g.db.data, j.groupId), Broadcast.PostPacket(env, s, j),
                   Broadcast.MentionPacket(s, j), HandleGroupMessage(env, c, s, j).g.log, a.id, j.groupId);
  }

  lemma CopyInLog(g: Globals, me: Ident, members: seq<string>, p: Packet, mention: Packet, log: seq<Sent>, x: string,
                  gid: string) returns (k: nat)
    requires g.log <= log && Broadcast.AllForMembers(g, me, members, p, mention, log[|g.log|..])
    requires Broadcast.Received(log[|g.log|..], x) != []
    requires Effects.AboutGroup(p) == Effects.AboutGroup(mention) == Some(gid)
    ensures |g.log| <= k < |log| && x in g.sessions.vals && log[k].conn == g.sessions.vals[x]
    ensures Effects.AboutGroup(log[k].packet) == Some(gid)
  {
    var i := CopyFor(g, me, members, p, mention, log[|g.log|..], x);
    k := |g.log| + i;
    assert log[k] == log[|g.log|..][i];
  }

  lemma CopyFor(g: Globals, me: Ident, members: seq<string>, p: Packet, mention: Packet, sent: seq<Sent>, x: string)
    returns (i: nat)
    requires Broadcast.AllForMembers(g, me, members, p, mention, sent) && Broadcast.Received(sent, x) != []
    ensures i < |sent| && x in g.sessions.vals && sent[i].conn == g.sessions.vals[x]
    ensures sent[i].packet == p || sent[i].packet == mention
  {
    i := Broadcast.SomeReceived(sent, x);
    assert Broadcast.ForMember(g, me, members, p, mention, sent, i);
  }

  /** A post with a text, to a group of which a is a member whose entry leads to a
      connection of u's, is written there. */
  lemma PostShown(env: Env, w: State, c: nat, key: byte, j: Json, a: User, u: string)
    requires DbOk(env, w.g.db) && Live(w, c) && w.conns[c].buffer == [] && !w.conns[c].me.isNull
    requires env.parse([key]) == Record(j) && j.content.Some? && Effects.MayPost(LocalOf(w, c), j.groupId)
    requires a.username in w.g.db.data.users && w.g.db.data.users[a.username].id == a.id
    requires a.id != w.conns[c].me.userId && Addressing.LeadsTo(w, j.groupId, a.id, u)
    ensures
      var w' := Run(env, w, Say(c, Frame(GROUP_MESSAGE, [key])));
      w.g.log <= w'.g.log && exists i :: |w.g.log| <= i < |w'.g.log| && Addressing.Shows(w', w'.g.log[i], j.groupId, u)
  {
    var s, f := LocalOf(w, c), Frame(GROUP_MESSAGE, [key]);
    SayRun(env, w, c, f);
    PostHandled(env, c, s, key, j);
    PostKeepsIdentity(env, c, s, j);
    var k := PostedTo(env, c, s, j, a);
    var w' := Run(env, w, Say(c, f));
    assert Addressing.Shows(w', w'.g.log[k], j.groupId, u);
  }

  lemma PostHandled(env: Env, c: nat, s: Local, key: byte, j: Json)
    requires env.parse([key]) == Record(j)
    ensures Handle(env, c, s, Frame(GROUP_MESSAGE, [key])) == HandleGroupMessage(env, c, s, j)
  {
  }

  lemma PostKeepsIdentity(env: Env, c: nat, s: Local, j: Json)
    requires !s.me.isNull
    ensures HandleGroupMessage(env, c, s, j).me == s.me
  {
  }

  /** So e's message to a group that a is a member of, and b banned from, is
      written on a connection of b's. */
  lemma GroupBanLeaks(env: Env, w: State, keyA: byte, a: User, keyB: byte, b: User, keyE: byte, e: User, post: byte)
    requires EnvOk(env) && Inv(env, w) && Idle(w) && a.id != b.id && a.id != e.id && !e.isNull
    requires Opens(env, keyA, a) && Opens(env, keyB, b) && Opens(env, keyE, e)
    requires MayLogIn(w.g.db.data, a) && MayLogIn(w.g.db.data, b) && MayLogIn(w.g.db.data, e)
    requires Posts(env, post) && env.parse([post]).json.content.Some?
    requires a.id in GroupMembers(w.g.db.data, env.parse([post]).json.groupId)
    requires !IsGroupBanned(w.g.db.data, env.parse([post]).json.groupId, e.id)
    ensures
      var v := Run(env, w, Displaced(keyA, keyB, keyE));
      var v' := Run(env, v, Say(1, Frame(GROUP_MESSAGE, [post])));
      && v.g.db == w.g.db && Safety.IsOf(v, 0, b.id) && v.g.log <= v'.g.log
      && exists i :: |v.g.log| <= i < |v'.g.log|
                     && Addressing.Shows(v', v'.g.log[i], env.parse([post]).json.groupId, b.id)
  {
    DisplacedRun(env, w, keyA, a, keyB, b, keyE, e);
    PostShown(env, Run(env, w, Displaced(keyA, keyB, keyE)), 1, post, env.parse([post]).json, a, b.id);
  }

  predicate Posts(env: Env, key: byte) {
    env.parse([key]).Record?
  }

  // ----- a post without a text -----

  function ThreeJoin(a: byte, b: byte, e: byte): seq<Event> {
    Joins(0, a) + (Joins(1, b) + Joins(2, e))
  }

  /** a, b and e log in, and e posts without a text to a group of which a and b are
      members: one of them is due the message and gets nothing. */
  lemma DeliveryStalls(env: Env, w: State, keyA: byte, a: User, keyB: byte, b: User, keyE: byte, e: User,
                       post: byte) returns (m: string)
    requires EnvOk(env) && Inv(env, w) && Idle(w) && a.id != b.id && a.id != e.id && b.id != e.id && !e.isNull
    requires Opens(env, keyA, a) && Opens(env, keyB, b) && Opens(env, keyE, e)
    requires MayLogIn(w.g.db.data, a) && MayLogIn(w.g.db.data, b) && MayLogIn(w.g.db.data, e)
    requires Posts(env, post) && env.parse([post]).json.content.None?
    requires a.id in GroupMembers(w.g.db.data, env.parse([post]).json.groupId)
    requires b.id in GroupMembers(w.g.db.data, env.parse([post]).json.groupId)
    requires !IsGroupBanned(w.g.db.data, env.parse([post]).json.groupId, e.id)
    ensures
      var v := Run(env, w, ThreeJoin(keyA, keyB, keyE));
      var v' := Run(env, v, Say(2, Frame(GROUP_MESSAGE, [post])));
      && Live(v, 2) && Effects.MayPost(LocalOf(v, 2), env.parse([post]).json.groupId)
      && m in Broadcast.DueFor(LocalOf(v, 2), env.parse([post]).json)
      && v.g.log <= v'.g.log && Broadcast.Received(v'.g.log[|v.g.log|..], m) == []
  {
    ThreeJoinRun(env, w, keyA, a, keyB, b, keyE, e);
    var v := Run(env, w, ThreeJoin(keyA, keyB, keyE));
    var s, j := LocalOf(v, 2), env.parse([post]).json;
    assert DbOk(env, v.g.db);
    SayRun(env, v, 2, Frame(GROUP_MESSAGE, [post]));
    PostHandled(env, 2, s, post, j);
    m := OneUnserved(env, 2, s, j, a.id, b.id);
  }

  lemma ThreeJoinRun(env: Env, w: State, keyA: byte, a: User, keyB: byte, b: User, keyE: byte, e: User)
    requires Idle(w) && Opens(env, keyA, a) && Opens(env, keyB, b) && Opens(env, keyE, e)
    requires MayLogIn(w.g.db.data, a) && MayLogIn(w.g.db.data, b) && MayLogIn(w.g.db.data, e)
    ensures
      var v := Run(env, w, ThreeJoin(keyA, keyB, keyE));
      && v.g.db == w.g.db && a.id in v.g.sessions.vals && b.id in v.g.sessions.vals
      && Live(v, 2) && v.conns[2] == Conn(LoggedIn(e), [], true)
  {
    FirstJoinRun(env, w, keyA, a);
    JoinTwoRun(env, Run(env, w, Joins(0, keyA)), keyB, b, keyE, e);
    RunConcat(env, w, Joins(0, keyA), Joins(1, keyB) + Joins(2, keyE));
  }

  lemma FirstJoinRun(env: Env, w: State, key: byte, a: User)
    requires Idle(w) && Opens(env, key, a) && MayLogIn(w.g.db.data, a)
    ensures
      var v := Run(env, w, Joins(0, key));
      v.g.db == w.g.db && v.nextConn == 1 && a.id in v.g.sessions.vals
  {
    JoinsRun(env, w, key, a);
  }

  lemma OneUnserved(env: Env, c: nat, s: Local, j: Json, x: string, y: string) returns (m: string)
    requires DbOk(env, s.g.db) && !s.me.isNull && j.content.None? && Effects.MayPost(s, j.groupId)
    requires x != y && x != s.me.userId && y != s.me.userId && x in s.g.sessions.vals && y in s.g.sessions.vals
    requires x in GroupMembers(s.g.db.data, j.groupId) && y in GroupMembers(s.g.db.data, j.groupId)
    ensures s.g.log <= HandleGroupMessage(env, c, s, j).g.log
    ensures m in Broadcast.DueFor(s, j) && Broadcast.Received(Broadcast.PostSent(env, c, s, j), m) == []
  {
    TwoDue(s, j, x, y);
    Broadcast.AllServedExactly(env, c, s, j);
    m :| m in Broadcast.DueFor(s, j) && Broadcast.Received(Broadcast.PostSent(env, c, s, j), m) == [];
  }

  lemma TwoDue(s: Local, j: Json, x: string, y: string)
    requires x != y && x != s.me.userId && y != s.me.userId && x in s.g.sessions.vals && y in s.g.sessions.vals
    requires x in GroupMembers(s.g.db.data, j.groupId) && y in GroupMembers(s.g.db.data, j.groupId)
    ensures |Broadcast.DueFor(s, j)| >= 2
  {
    var members, due := GroupMembers(s.g.db.data, j.groupId), Broadcast.DueFor(s, j);
    Broadcast.DueExact(s.g, s.me, members, |members|);
    assert members[..|members|] == members;
    var k :| 0 <= k < |due| && due[k] == x;
    var l :| 0 <= l < |due| && due[l] == y;
    assert k != l;
  }

  // ----- a banned user with a connection left open -----

  /** What a connection logged in as u relays, banned or not. */
  lemma OfferRun(env: Env, w: State, c: nat, key: byte, j: Json)
    requires Live(w, c) && w.conns[c].buffer == [] && w.conns[c].me.authenticated
    requires env.parse([key]) == Record(j) && j.targetId in w.g.sessions.vals
    ensures
      var me, target := w.conns[c].me, j.targetId;
      Run(env, w, Say(c, Frame(P2P_OFFER, [key]))).g.log
      == w.g.log + [Sent(w.g.sessions.vals[target], target, P2POffer(me.userId, me.username, j.sdp, j.p2pPublicKey))]
  {
    SayRun(env, w, c, Frame(P2P_OFFER, [key]));
    assert Handle(env, c, LocalOf(w, c), Frame(P2P_OFFER, [key])) == HandleP2POffer(LocalOf(w, c), j);
  }

  /** A message "/ban name" to the group. */
  predicate Bans(env: Env, key: byte, name: string) {
    && ' ' !in name && name != "" && env.lower("/ban") == "/ban"
    && match env.parse([key])
       case Record(j) => j.content == Some("/ban" + " " + name)
       case _ => false
  }

  lemma BanOp(env: Env, s: Local, key: byte, name: string)
    requires Bans(env, key, name) && s.me.isNull && name in s.g.db.data.users && s.g.db.data.users[name].id != ""
    requires Effects.MayPost(s, env.parse([key]).json.groupId)
    ensures Effects.Effect(env, s, Frame(GROUP_MESSAGE, [key]))
         == Effects.Ban(s.g.db.data.users[name].id, env.parse([key]).json.groupId)
  {
    Broadcast.SplitWord("/ban", name);
    Broadcast.SplitOne(name);
    var text := "/ban" + " " + name;
    assert Split(text) == ["/ban"] + [name];
    assert ParseCommand(env, text).verb == BanVerb && ParseCommand(env, text).arg1 == name;
    assert text[0] == '/';
  }

  lemma BanRun(env: Env, w: State, c: nat, key: byte, name: string)
    requires Live(w, c) && w.conns[c].buffer == [] && w.conns[c].me.isNull
    requires Bans(env, key, name) && name in w.g.db.data.users && w.g.db.data.users[name].id != ""
    requires Effects.MayPost(LocalOf(w, c), env.parse([key]).json.groupId)
    ensures
      var w' := Run(env, w, Say(c, Frame(GROUP_MESSAGE, [key])));
      && IsBanned(w'.g.db.data, w.g.db.data.users[name].id)
      && w'.g.sessions == w.g.sessions && w'.conns == w.conns
  {
    var s, f := LocalOf(w, c), Frame(GROUP_MESSAGE, [key]);
    SayRun(env, w, c, f);
    BanOp(env, s, key, name);
    Effects.HandleDb(env, c, s, f);
    Effects.HandleSessions(env, c, s, f);
    Safety.ApplyBans(env, w.g.db, Effects.Effect(env, s, f));
    assert w.conns == w.conns[c := Conn(w.conns[c].me, [], true)];
  }

  /** a logs in twice, b and the admin once each; then a's second connection closes. */
  function Crowd(a: byte, b: byte, admin: byte): seq<Event> {
    Party(a, b, admin) + [Close(1)]
  }

  function Party(a: byte, b: byte, admin: byte): seq<Event> {
    TwoConnections(a) + (Joins(2, b) + Joins(3, admin))
  }

  lemma PartyRun(env: Env, w: State, keyA: byte, a: User, keyB: byte, b: User, keyN: byte, n: User)
    requires Idle(w) && Opens(env, keyA, a) && Opens(env, keyB, b) && Opens(env, keyN, n)
    requires MayLogIn(w.g.db.data, a) && MayLogIn(w.g.db.data, b) && MayLogIn(w.g.db.data, n)
    ensures
      var w' := Run(env, w, Party(keyA, keyB, keyN));
      && w'.g.db == w.g.db && w'.g.sessions.vals == map[a.id := 1][b.id := 2][n.id := 3]
      && 0 in w'.conns && w'.conns[0] == Conn(LoggedIn(a), [], true)
      && 1 in w'.conns && w'.conns[1] == Conn(LoggedIn(a), [], true)
      && 3 in w'.conns && w'.conns[3] == Conn(LoggedIn(n), [], true)
  {
    TwoConnectionsRun(env, w, keyA, a);
    JoinTwoRun(env, Run(env, w, TwoConnections(keyA)), keyB, b, keyN, n);
    RunConcat(env, w, TwoConnections(keyA), Joins(2, keyB) + Joins(3, keyN));
  }

  lemma CrowdRun(env: Env, w: State, keyA: byte, a: User, keyB: byte, b: User, keyN: byte, n: User)
    requires Idle(w) && Opens(env, keyA, a) && Opens(env, keyB, b) && Opens(env, keyN, n)
    requires MayLogIn(w.g.db.data, a) && MayLogIn(w.g.db.data, b) && MayLogIn(w.g.db.data, n)
    requires a.id != b.id && a.id != n.id && b.id != n.id && a.id != "" && b.id != "" && n.id != ""
    ensures
      var w' := Run(env, w, Crowd(keyA, keyB, keyN));
      && w'.g.db == w.g.db
      && a.id !in w'.g.sessions.vals && b.id in w'.g.sessions.vals && w'.g.sessions.vals[b.id] == 2
      && 0 in w'.conns && w'.conns[0] == Conn(LoggedIn(a), [], true)
      && 3 in w'.conns && w'.conns[3] == Conn(LoggedIn(n), [], true)
  {
    PartyRun(env, w, keyA, a, keyB, b, keyN, n);
    var w1 := Run(env, w, Party(keyA, keyB, keyN));
    ClosedEffect(LocalOf(w1, 1));
    RunConcat(env, w, Party(keyA, keyB, keyN), [Close(1)]);
    assert [Close(1)][1..] == [] && Run(env, w1, [Close(1)]) == Step(env, w1, Close(1));
  }

  lemma JoinTwoRun(env: Env, w: State, keyB: byte, b: User, keyN: byte, n: User)
    requires Opens(env, keyB, b) && Opens(env, keyN, n) && MayLogIn(w.g.db.data, b) && MayLogIn(w.g.db.data, n)
    ensures
      var c := w.nextConn;
      var w' := Run(env, w, Joins(c, keyB) + Joins(c + 1, keyN));
      && w'.g.db == w.g.db && w'.g.sessions.vals == w.g.sessions.vals[b.id := c][n.id := c + 1]
      && w'.conns == w.conns[c := Conn(LoggedIn(b), [], true)][c + 1 := Conn(LoggedIn(n), [], true)]
  {
    JoinsRun(env, w, keyB, b);
    JoinsRun(env, Run(env, w, Joins(w.nextConn, keyB)), keyN, n);
    RunConcat(env, w, Joins(w.nextConn, keyB), Joins(w.nextConn + 1, keyN));
  }

  /** Then the admin bans a. */
  function BanScene(a: byte, b: byte, admin: byte, ban: byte): seq<Event> {
    Crowd(a, b, admin) + Say(3, Frame(GROUP_MESSAGE, [ban]))
  }

  /** a, b and the admin n can log in, n can ban a, and b can be made an offer. */
  predicate BanCast(env: Env, d: Data, keyA: byte, a: User, keyB: byte, b: User, keyN: byte, n: User, ban: byte,
                    offer: byte) {
    && a.id != b.id && a.id != n.id && b.id != n.id && a.id != "" && b.id != "" && n.id != ""
    && Opens(env, keyA, a) && Opens(env, keyB, b) && Opens(env, keyN, n)
    && MayLogIn(d, a) && MayLogIn(d, b) && MayLogIn(d, n)
    && n.isNull && Bans(env, ban, a.username) && !IsGroupBanned(d, env.parse([ban]).json.groupId, n.id)
    && env.parse([offer]).Record? && env.parse([offer]).json.targetId == b.id
  }

  /** u is banned and offline, and what connection 0, u's, then says is p to v, in u's name. */
  ghost predicate Relayed(env: Env, w: State, said: Frame, u: string, v: string, p: Packet)
    requires Encodable(said)
  {
    && IsBanned(w.g.db.data, u) && u !in w.g.sessions.vals && Safety.IsOf(w, 0, u)
    && Run(env, w, Say(0, said)).g.log == w.g.log + [Sent(2, v, p)] && Effects.Origin(p) == Some(u)
  }

  lemma BanSceneRun(env: Env, w: State, keyA: byte, a: User, keyB: byte, b: User, keyN: byte, n: User,
                    ban: byte, offer: byte)
    requires Idle(w) && BanCast(env, w.g.db.data, keyA, a, keyB, b, keyN, n, ban, offer)
    ensures
      var v := Run(env, w, BanScene(keyA, keyB, keyN, ban));
      && IsBanned(v.g.db.data, a.id) && a.id !in v.g.sessions.vals
      && b.id in v.g.sessions.vals && v.g.sessions.vals[b.id] == 2
      && Live(v, 0) && v.conns[0] == Conn(LoggedIn(a), [], true)
  {
    CrowdRun(env, w, keyA, a, keyB, b, keyN, n);
    BanRun(env, Run(env, w, Crowd(keyA, keyB, keyN)), 3, ban, a.username);
    RunConcat(env, w, Crowd(keyA, keyB, keyN), Say(3, Frame(GROUP_MESSAGE, [ban])));
  }

  /** So a is banned and offline; and what a's first connection offers b is
      relayed to b all the same. */
  lemma BanNotTotal(env: Env, w: State, keyA: byte, a: User, keyB: byte, b: User, keyN: byte, n: User,
                    ban: byte, offer: byte) returns (p: Packet)
    requires Idle(w) && BanCast(env, w.g.db.data, keyA, a, keyB, b, keyN, n, ban, offer)
    ensures Relayed(env, Run(env, w, BanScene(keyA, keyB, keyN, ban)), Frame(P2P_OFFER, [offer]), a.id, b.id, p)
  {
    BanSceneRun(env, w, keyA, a, keyB, b, keyN, n, ban, offer);
    p := OfferRelayed(env, Run(env, w, BanScene(keyA, keyB, keyN, ban)), a, b.id, offer, env.parse([offer]).json);
  }

  lemma OfferRelayed(env: Env, v: State, a: User, target: string, offer: byte, j: Json) returns (p: Packet)
    requires IsBanned(v.g.db.data, a.id) && a.id !in v.g.sessions.vals
    requires target in v.g.sessions.vals && v.g.sessions.vals[target] == 2
    requires Live(v, 0) && v.conns[0] == Conn(LoggedIn(a), [], true)
    requires env.parse([offer]) == Record(j) && j.targetId == target
    ensures Relayed(env, v, Frame(P2P_OFFER, [offer]), a.id, target, p)
  {
    OfferRun(env, v, 0, offer, j);
    p := P2POffer(a.id, a.username, j.sdp, j.p2pPublicKey);
  }

  // ----- registering with admin rights -----

  function RegisterAsAdmin(admin: byte, newcomer: byte): seq<Event> {
    Joins(0, admin) + Say(0, Frame(AUTH_REGISTER, [newcomer]))
  }

  /** The admin logs in and then registers a newcomer on the same connection,
      which is then logged in to an account without admin rights and has them. */
  lemma RightsFail(env: Env, w: State, admin: byte, n: User, newcomer: byte, j: Json)
    requires EnvOk(env) && Inv(env, w) && Idle(w)
    requires Opens(env, admin, n) && MayLogIn(w.g.db.data, n) && n.isNull
    requires env.parse([newcomer]) == Record(j) && j.invitePassword == INVITE_PASSWORD && j.password.Some?
    requires j.username != THE_NULL_USER && j.username !in w.g.db.data.users && !IsBanned(w.g.db.data, j.username)
    ensures
      var v := Run(env, w, RegisterAsAdmin(admin, newcomer));
      Live(v, 0) && v.conns[0].me.isNull && !Rights.RightsOk(v.g.db.data.users, v.conns[0].me)
  {
    JoinsRun(env, w, admin, n);
    RunConcat(env, w, Joins(0, admin), Say(0, Frame(AUTH_REGISTER, [newcomer])));
    RunKeeps(env, w, Joins(0, admin));
    var w2 := Run(env, w, Joins(0, admin));
    AccountOfAdmin(w2.g.db.data, n);
    RegisterRun(env, w2, 0, newcomer, j);
  }

  lemma RegisterRun(env: Env, w: State, c: nat, newcomer: byte, j: Json)
    requires EnvOk(env) && Inv(env, w) && Live(w, c) && w.conns[c].buffer == []
    requires w.conns[c].me.isNull && Rights.RightsOk(w.g.db.data.users, w.conns[c].me)
    requires env.parse([newcomer]) == Record(j) && j.invitePassword == INVITE_PASSWORD && j.password.Some?
    requires j.username != THE_NULL_USER && j.username !in w.g.db.data.users && !IsBanned(w.g.db.data, j.username)
    ensures
      var v := Run(env, w, Say(c, Frame(AUTH_REGISTER, [newcomer])));
      Live(v, c) && v.conns[c].me.isNull && !Rights.RightsOk(v.g.db.data.users, v.conns[c].me)
  {
    var s, f := LocalOf(w, c), Frame(AUTH_REGISTER, [newcomer]);
    SayRun(env, w, c, f);
    RegisterExact(env, w.g.db, j.username, j.password.value);
    Rights.OwnRightsExactly(env, c, s, f);
    Rights.RegistrationKeepsRights(env, c, s, j);
  }

  lemma AccountOfAdmin(d: Data, n: User)
    requires MayLogIn(d, n) && n.isNull
    ensures Rights.RightsOk(d.users, LoggedIn(n))
  {
    assert d.users[n.username].id == n.id;
  }
}
