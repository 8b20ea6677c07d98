/** class Session of server.js and the module-level state it works on: the same
    handlers, assigning fields in place, each proved against its function in
    SessionSpec. */
module SessionModel {
  import opened Wrappers
  import opened Framing
  import opened Dicts
  import opened ChatModel
  import opened DbInvariants
  import DbSpec
  import Spec = SessionSpec
  import opened Effects
  import opened Invariants
  import NodeCodec
  import opened JsonDbModel

  /** The sessions map as the state machine sees it: connections by number. */
  function Numbers(d: Dict<Session>): Dict<nat> {
    RawDict(d.keys, map u | u in d.vals :: d.vals[u].num)
  }

  lemma NumbersPut(d: Dict<Session>, u: string, s: Session)
    ensures Numbers(Put(d, u, s)) == Put(Numbers(d), u, s.num)
  {
    assert Numbers(Put(d, u, s)).vals == Put(Numbers(d), u, s.num).vals;
  }

  lemma NumbersDel(d: Dict<Session>, u: string)
    ensures Numbers(Del(d, u)) == Del(Numbers(d), u)
  {
    assert Numbers(Del(d, u)).vals == Del(Numbers(d), u).vals;
  }

  /** The module's globals: db, sessions, and what leaves the process. */
  class Server {
    const env: Env
    const db: JsonDB
    var sessions: Dict<Session>
    var log: seq<Sent>        // packets written to sockets
    var ticks: nat            // clock readings taken
    var timers: seq<Timer>    // timers set

    /** A new process on a database: no sessions, no timers. What was written to
        sockets before, and the clock, are not its to reset. */
    constructor (db: JsonDB, log: seq<Sent>, ticks: nat)
      ensures this.db == db && this.env == db.env
      ensures State() == Globals(db.State(), Empty<nat>(), log, ticks, [])
    {
      this.env, this.db := db.env, db;
      sessions, timers := Empty<Session>(), [];
      this.log, this.ticks := log, ticks;
      new;
      assert Numbers(sessions).vals == map[];
    }

    ghost function State(): Globals
      reads this, db
    {
      Globals(db.State(), Numbers(sessions), log, ticks, timers)
    }

    ghost predicate Valid()
      reads this, db
    {
      db.Valid() && env == db.env
    }

    method Now() returns (t: int)
      modifies `ticks
      ensures t == env.now(old(ticks)) && ticks == old(ticks) + 1
    {
      t := env.now(ticks);
      ticks := ticks + 1;
    }

    method SendSystemMessage(gid: string, text: string)
      modifies `log, `ticks
      ensures State() == Spec.SystemMessage(env, old(State()), gid, text)
    {
      var t := Now();
      var packet := GroupMessage(SYSTEM_ID, SYSTEM_USER, Some(text), false, t, gid);
      var members := db.GetGroupMembers(gid);
      for i := 0 to |members|
        invariant ticks == old(ticks) + 1
        invariant log == old(log) + Spec.Fanout(members, Numbers(sessions), None, packet, i)
      {
        Tell(members[i], None, packet);
      }
    }

    method BroadcastStatus(userId: string, username: string, online: bool)
      requires Valid()
      modifies `log
      ensures State() == Spec.BroadcastStatus(old(State()), userId, username, online)
    {
      var key := db.GetPublicKey(userId);
      var packet := if online then UserOnline(userId, username, key) else UserOffline(userId, username, key);
      var keys := sessions.keys;
      for i := 0 to |keys|
        invariant log == old(log) + Spec.Fanout(keys, Numbers(sessions), Some(userId), packet, i)
      {
        Tell(keys[i], Some(userId), packet);
      }
    }

    /** One turn of these loops. */
    method Tell(userId: string, except: Option<string>, packet: Packet)
      modifies `log
      ensures log == old(log) + Spec.FanoutOne(userId, Numbers(sessions), except, packet)
    {
      if userId in sessions.vals && Some(userId) != except {
        sessions.vals[userId].SendTo(userId, packet, this);
      }
    }

    /** The welcome timer's callback. */
    method FireTimer()
      requires timers != []
      modifies this
      ensures
        var g := old(State());
        State() == Spec.Welcome(env, g, g.timers[0], |g.db.data.groups.keys|).(timers := g.timers[1..])
    {
      ghost var g := State();
      var t := timers[0];
      for k := 0 to |db.groups.keys|
        invariant State() == Spec.Welcome(env, g, t, k) && timers == old(timers)
      {
        WelcomeKeepsDb(env, g, t, k);
        var gid := db.groups.keys[k];
        assert gid in db.groups.vals;
        if gid in db.members.vals && t.userId in db.members.vals[gid].vals
           && db.members.vals[gid].vals[t.userId] != "" {
          SendSystemMessage(gid, "\U{1F44B} Welcome to #" + db.groups.vals[gid].name + ", " + t.username + "!");
        }
      }
      timers := timers[1..];
    }
  }

  class Session {
    const num: nat
    const server: Server
    var userId: string
    var username: string
    var authenticated: bool
    var isNull: bool
    var buffer: seq<byte>
    ghost var logins: nat

    constructor (num: nat, server: Server)
      ensures this.num == num && this.server == server
      ensures Me() == NOBODY && buffer == []
    {
      this.num, this.server := num, server;
      userId, username, authenticated, isNull := "", "", false, false;
      buffer, logins := [], 0;
    }

    ghost function Me(): Ident
      reads this
    {
      Ident(userId, username, authenticated, isNull, logins)
    }

    ghost function State(): Local
      reads this, server, server.db
    {
      Local(server.State(), Me())
    }

    /** What holds between events. */
    ghost predicate Ready()
      reads this, server, server.db
    {
      && server.Valid()
      && DbInv(server.env, server.db.State())
      && IdentOk(server.db.users, Me())
    }

    // ----- sending -----

    /** A packet to this connection, looked up under user id `via`. */
    method SendTo(via: string, p: Packet, server: Server)
      modifies server`log
      ensures server.log == old(server.log) + [Sent(num, via, p)]
    {
      server.log := server.log + [Sent(num, via, p)];
    }

    method Send(p: Packet)
      modifies server`log
      ensures State() == Spec.Reply(old(State()), num, p)
    {
      SendTo("", p, server);
    }

    // ----- data -----

    method OnData(chunk: seq<byte>)
      requires Ready()
      modifies this, server, server.db
      ensures Ready()
      ensures
        var stream := NodeCodec.Drain(old(buffer) + chunk);
        && State() == Spec.HandleAll(server.env, num, old(State()), stream.frames)
        && buffer == stream.rest
    {
      buffer := buffer + chunk;
      ghost var stream := NodeCodec.Drain(buffer);
      while |buffer| >= HEADER_SIZE
        invariant Ready()
        invariant NodeCodec.Drain(buffer).rest == stream.rest
        invariant Spec.HandleAll(server.env, num, State(), NodeCodec.Drain(buffer).frames)
               == Spec.HandleAll(server.env, num, old(State()), stream.frames)
        decreases |buffer|
      {
        var pkt := NodeCodec.ParsePacket(buffer);
        if pkt.None? {
          break;
        }
        ghost var now := NodeCodec.Drain(buffer).frames;
        buffer := buffer[pkt.value.total..];
        assert now[1..] == NodeCodec.Drain(buffer).frames;
        Handle(pkt.value.kind, pkt.value.body);
      }
    }

    method OnClose()
      requires server.Valid()
      modifies server`sessions, server`log
      ensures server.Valid()
      ensures State() == Spec.Closed(old(State()))
    {
      if userId != "" {
        NumbersDel(server.sessions, userId);
        server.sessions := Del(server.sessions, userId);
        server.BroadcastStatus(userId, username, false);
      }
    }

    method Handle(kind: byte, body: seq<byte>)
      requires Ready()
      modifies this, server, server.db
      ensures Ready() && buffer == old(buffer)
      ensures State() == Spec.Handle(server.env, num, old(State()), Frame(kind, body))
    {
      HandleKeepsReady(server.env, num, State(), Frame(kind, body));
      match server.env.parse(body)
      case Malformed =>
      case NullBody => HandleNull(kind);
      case Record(json) => HandleRecord(kind, json);
    }

    /** JSON.parse gave null: handlers run until they ask it for a field. */
    method HandleNull(kind: byte)
      modifies server`log
      ensures State() == Spec.HandleNull(num, old(State()), kind)
    {
      if kind == PING {
        Send(Pong);
      } else if kind == GROUP_MESSAGE && authenticated && server.db.IsBanned(userId) {
        Send(ErrorPacket("You are banned from Nullchat"));
      } else if kind == CREATE_GROUP && authenticated && server.db.IsBanned(userId) {
        Send(ErrorPacket("You are banned"));
      }
    }

    method HandleRecord(kind: byte, json: Json)
      requires Ready()
      modifies this, server, server.db
      ensures buffer == old(buffer)
      ensures State() == Spec.HandleRecord(server.env, num, old(State()), kind, json)
    {
      if kind == AUTH_LOGIN {
        HandleLogin(json);
      } else if kind == AUTH_REGISTER {
        HandleRegister(json);
      } else if kind == GROUP_MESSAGE {
        HandleGroupMessage(json);
      } else if Spec.IsGroupKind(kind) {
        HandleGroupPacket(kind, json);
      } else {
        HandleDirectPacket(kind, json);
      }
    }

    method HandleGroupPacket(kind: byte, json: Json)
      requires server.Valid() && IdentOk(server.db.users, Me())
      modifies server, server.db
      ensures State() == Spec.HandleGroupPacket(server.env, num, old(State()), kind, json)
    {
      if kind == CREATE_GROUP {
        HandleCreateGroup(json);
      } else if kind == JOIN_GROUP {
        HandleJoinGroup(json);
      } else if kind == RENAME_GROUP {
        HandleRenameGroup(json);
      } else if kind == DELETE_GROUP {
        HandleDeleteGroup(json);
      }
    }

    method HandleDirectPacket(kind: byte, json: Json)
      requires server.Valid()
      modifies server
      ensures State() == Spec.HandleDirectPacket(server.env, num, old(State()), kind, json)
    {
      if kind == TEXT_MESSAGE {
        HandleTextMessage(json);
      } else if kind == P2P_OFFER {
        HandleP2POffer(json);
      } else if kind == P2P_ANSWER {
        HandleP2PAnswer(json);
      } else if kind == P2P_ICE_CANDIDATE {
        HandleP2PICE(json);
      } else if kind == PUB_KEY_REQUEST {
        HandlePubKeyRequest(json);
      } else if kind == PING {
        Send(Pong);
      }
    }

    // ----- authentication -----

    method HandleLogin(json: Json)
      requires server.Valid()
      modifies this, server, server.db
      ensures buffer == old(buffer)
      ensures State() == Spec.HandleLogin(server.env, num, old(State()), json)
    {
      var r := server.db.LoginUser(json.username, json.password);
      match r
      case Refused => Send(AuthError("Invalid credentials"));
      case LoginThrew =>
      case Accepted(user) =>
        if server.db.IsBanned(user.id) {
          Send(AuthError("You are banned from Nullchat"));
        } else {
          ResumeSession(user, json.publicKey);
        }
    }

    method ResumeSession(user: User, key: string)
      requires server.Valid()
      modifies this, server, server.db
      ensures buffer == old(buffer)
      ensures State() == Spec.ResumeSession(num, old(State()), user, key)
    {
      Enter(user.id, user.username, user.isNull, key, user.isNull);
    }

    /** The common end of login and registration. */
    method Enter(id: string, name: string, asNull: bool, key: string, reported: bool)
      requires server.Valid()
      modifies this, server, server.db
      ensures server.Valid() && buffer == old(buffer)
      ensures
        var me := Ident(id, name, true, asNull, old(logins) + 1);
        State() == Spec.Announce(num, Local(Spec.SetSession(old(server.State()), id, num), me), key, reported)
    {
      Become(id, name, asNull);
      Announce(key, reported);
    }

    /** Take on an identity and enter the sessions map. */
    method Become(id: string, name: string, asNull: bool)
      requires server.Valid()
      modifies this, server`sessions
      ensures server.Valid() && buffer == old(buffer)
      ensures State() == Local(Spec.SetSession(old(server.State()), id, num),
                               Ident(id, name, true, asNull, old(logins) + 1))
    {
      userId, username, isNull, authenticated := id, name, asNull, true;
      logins := logins + 1;
      NumbersPut(server.sessions, id, this);
      server.sessions := Put(server.sessions, id, this);
    }

    method Announce(key: string, asNull: bool)
      requires server.Valid()
      modifies server, server.db
      ensures server.Valid()
      ensures State() == Spec.Announce(num, old(State()), key, asNull)
    {
      if key != "" {
        server.db.SetPublicKey(userId, key);
      }
      var groups := server.db.GetUserGroups(userId);
      Send(AuthOk(userId, username, asNull, groups));
      server.BroadcastStatus(userId, username, true);
    }

    method HandleRegister(json: Json)
      requires server.Valid()
      modifies this, server, server.db
      ensures buffer == old(buffer)
      ensures State() == Spec.HandleRegister(server.env, num, old(State()), json)
    {
      if json.invitePassword != INVITE_PASSWORD {
        Send(AuthError("Invalid invite password"));
      } else if server.db.IsBanned(json.username) {
        Send(AuthError("Username is banned"));
      } else if json.username == THE_NULL_USER {
        Send(AuthError("Username reserved"));
      } else {
        var r := server.db.RegisterUser(json.username, json.password);
        match r
        case Taken => Send(AuthError("Username taken"));
        case RegisterThrew =>
        case Registered(id) =>
          NewSession(id, json.username, json.publicKey);
      }
    }

    method NewSession(id: string, name: string, key: string)
      requires server.Valid()
      modifies this, server, server.db
      ensures buffer == old(buffer)
      ensures State() == Spec.NewSession(num, old(State()), id, name, key)
    {
      Enter(id, name, isNull, key, false);
      server.timers := server.timers + [Timer(id, name)];
    }

    method HandlePubKeyRequest(json: Json)
      requires server.Valid()
      modifies server
      ensures State() == Spec.HandlePubKeyRequest(num, old(State()), json)
    {
      var key := server.db.GetPublicKey(json.userId);
      Send(PubKeyResponse(json.userId, key));
    }

    // ----- messages -----

    method HandleTextMessage(json: Json)
      modifies server
      ensures State() == Spec.HandleTextMessage(server.env, num, old(State()), json)
    {
      if !authenticated || json.recipientId !in server.sessions.vals {
        return;
      }
      var target := server.sessions.vals[json.recipientId];
      if server.db.IsBanned(userId) {
        Send(ErrorPacket("You are banned from Nullchat"));
        return;
      }
      var t := Stamp(json.timestamp);
      target.SendTo(json.recipientId, TextMessage(userId, username, json.content, json.encrypted, t), server);
    }

    method Stamp(timestamp: int) returns (t: int)
      modifies server`ticks
      ensures (t, server.State()) == Spec.Stamp(server.env, old(server.State()), timestamp)
    {
      if timestamp != 0 {
        t := timestamp;
      } else {
        t := server.Now();
      }
    }

    method HandleGroupMessage(json: Json)
      requires server.Valid()
      modifies server, server.db
      ensures State() == Spec.HandleGroupMessage(server.env, num, old(State()), json)
    {
      if !authenticated {
        return;
      }
      if server.db.IsBanned(userId) {
        Send(ErrorPacket("You are banned from Nullchat"));
        return;
      }
      if server.db.IsGroupBanned(json.groupId, userId) {
        Send(ErrorPacket("You are banned from this group"));
        return;
      }
      if isNull && json.content.None? {
        return;  // content.startsWith throws
      }
      if isNull && Spec.IsCommand(json.content) {
        HandleAdminCommand(json.groupId, json.content.value);
        return;
      }
      PostToGroup(json);
    }

    method PostToGroup(json: Json)
      requires server.Valid()
      modifies server
      ensures State() == Spec.PostToGroup(server.env, old(State()), json)
    {
      var members := server.db.GetGroupMembers(json.groupId);
      var t := Stamp(json.timestamp);
      var fwd := GroupMessage(userId, username, json.content, json.encrypted, t, json.groupId);
      var name := if json.groupId in server.db.groups.vals then server.db.groups.vals[json.groupId].name else "";
      var mention := Mention(userId, username, json.groupId, name, json.content);
      DeliverAll(members, fwd, mention, json.content);
    }

    /** The delivery loop; a throw ends it. */
    method DeliverAll(members: seq<string>, fwd: Packet, mention: Packet, content: Option<string>)
      requires server.Valid()
      modifies server`log
      ensures server.log == old(server.log)
                          + Spec.Deliver(old(server.State()), Me(), members, fwd, mention, content, |members|).sent
    {
      ghost var g := server.State();
      var i, threw := 0, false;
      while i < |members| && !threw
        invariant i <= |members|
        invariant server.log == g.log + Spec.Deliver(g, Me(), members, fwd, mention, content, i).sent
        invariant threw == Spec.Deliver(g, Me(), members, fwd, mention, content, i).threw
      {
        DeliverToFrame(g, server.State(), Me(), members[i], fwd, mention, content);
        threw := DeliverTo(members[i], fwd, mention, content);
        i := i + 1;
      }
      ThrownStays(g, Me(), members, fwd, mention, content, i, |members|);
    }

    /** One turn of the delivery loop; true if it throws. */
    method DeliverTo(member: string, fwd: Packet, mention: Packet, content: Option<string>) returns (threw: bool)
      requires server.Valid()
      modifies server`log
      ensures
        var d := Spec.DeliverTo(old(server.State()), Me(), member, fwd, mention, content);
        server.log == old(server.log) + d.sent && threw == d.threw
    {
      threw := false;
      if member == userId || member !in server.sessions.vals {
        return;
      }
      var s := server.sessions.vals[member];
      s.SendTo(member, fwd, server);
      var mentioned := server.db.FindUser(member);
      if mentioned.Some? {
        if content.None? {
          return true;  // content.includes throws
        }
        if Spec.Contains(content.value, "@" + server.db.users[mentioned.value].username) {
          s.SendTo(member, mention, server);
        }
      }
    }

    // ----- admin commands -----

    method HandleAdminCommand(gid: string, text: string)
      requires server.Valid()
      modifies server, server.db
      ensures State() == Spec.HandleAdminCommand(server.env, num, old(State()), gid, text)
    {
      var cmd := Spec.ParseCommand(server.env, text);
      match cmd.verb
      case BanVerb => BanCommand(gid, cmd);
      case UnbanVerb => UnbanCommand(gid, cmd);
      case GroupBanVerb => GroupBanCommand(gid, cmd);
      case KickVerb => KickCommand(gid, cmd);
      case HelpVerb => server.SendSystemMessage(gid, Spec.HELP_TEXT);
      case BroadcastVerb => BroadcastCommand(gid, cmd);
      case UnknownVerb =>
    }

    method BanCommand(gid: string, cmd: Spec.Command)
      requires server.Valid() && cmd.verb.BanVerb?
      modifies server, server.db
      ensures State() == Spec.RunCommand(server.env, num, old(State()), gid, cmd)
    {
      var target := server.db.GetUserIdByUsername(cmd.arg1);
      if cmd.arg1 != "" && target != "" {
        Ban(gid, cmd.arg1, target);
      }
    }

    method Ban(gid: string, name: string, target: string)
      requires server.Valid() && target in Ids(server.db.users)
      modifies server, server.db
      ensures State() == Spec.Ban(server.env, old(State()), gid, name, target)
    {
      TakeOut(gid, target);
      if target in server.sessions.vals {
        var notice := ErrorPacket("You have been banned from Nullchat by TheNull");
        server.sessions.vals[target].SendTo(target, notice, server);
      }
      server.SendSystemMessage(gid, name + " has been banned from Nullchat by TheNull");
    }

    method TakeOut(gid: string, target: string)
      requires server.Valid() && target in Ids(server.db.users)
      modifies server.db
      ensures server.db.State() == DbSpec.RemoveMember(DbSpec.BanUser(old(server.db.State()), target), gid, target)
    {
      server.db.BanUser(target);
      server.db.RemoveMember(gid, target);
    }

    method UnbanCommand(gid: string, cmd: Spec.Command)
      requires server.Valid() && cmd.verb.UnbanVerb?
      modifies server, server.db
      ensures State() == Spec.RunCommand(server.env, num, old(State()), gid, cmd)
    {
      var target := server.db.GetUserIdByUsername(cmd.arg1);
      if cmd.arg1 != "" && target != "" {
        server.db.UnbanUser(target);
        server.SendSystemMessage(gid, cmd.arg1 + " has been unbanned by TheNull");
      }
    }

    method GroupBanCommand(gid: string, cmd: Spec.Command)
      requires server.Valid() && cmd.verb.GroupBanVerb?
      modifies server, server.db
      ensures State() == Spec.RunCommand(server.env, num, old(State()), gid, cmd)
    {
      var target := server.db.GetUserIdByUsername(cmd.arg2);
      var general := server.db.GetGeneralGroupId();
      var group := if cmd.arg1 == GENERAL_GROUP then general else "";
      if cmd.arg1 != "" && cmd.arg2 != "" && target != "" && group != "" {
        GeneralIsGroup(server.db.groups, |server.db.groups.keys|);
        ShutOut(group, target);
        server.SendSystemMessage(gid, cmd.arg2 + " has been banned from " + cmd.arg1 + " by TheNull");
      }
    }

    method ShutOut(group: string, target: string)
      requires server.Valid() && target in Ids(server.db.users) && group in server.db.groups.vals
      modifies server.db
      ensures server.db.State()
           == DbSpec.RemoveMember(DbSpec.BanFromGroup(old(server.db.State()), group, target), group, target)
    {
      server.db.BanFromGroup(group, target);
      server.db.RemoveMember(group, target);
    }

    method KickCommand(gid: string, cmd: Spec.Command)
      requires server.Valid() && cmd.verb.KickVerb?
      modifies server, server.db
      ensures State() == Spec.RunCommand(server.env, num, old(State()), gid, cmd)
    {
      var general := server.db.GetGeneralGroupId();
      if general != "" {
        server.db.RemoveMember(general, userId);
      }
      Send(ErrorPacket("You have been kicked from the server"));
    }

    method BroadcastCommand(gid: string, cmd: Spec.Command)
      requires server.Valid() && cmd.verb.BroadcastVerb?
      modifies server
      ensures State() == Spec.RunCommand(server.env, num, old(State()), gid, cmd)
    {
      if cmd.rest != "" {
        var general := server.db.GetGeneralGroupId();
        if general != "" {
          server.SendSystemMessage(general, Spec.BROADCAST_MARK + cmd.rest);
        }
      }
    }

    // ----- groups -----

    method HandleCreateGroup(json: Json)
      requires server.Valid() && IdentOk(server.db.users, Me())
      modifies server, server.db
      ensures State() == Spec.HandleCreateGroup(server.env, num, old(State()), json)
    {
      if !authenticated {
        return;
      }
      if server.db.IsBanned(userId) {
        Send(ErrorPacket("You are banned"));
        return;
      }
      var gid := server.db.CreateGroup(json.name, userId);
      Send(GroupCreated(gid, json.name));
    }

    method HandleJoinGroup(json: Json)
      requires server.Valid() && IdentOk(server.db.users, Me())
      modifies server, server.db
      ensures State() == Spec.HandleJoinGroup(num, old(State()), json)
    {
      if !authenticated {
        return;
      }
      if server.db.IsGroupBanned(json.groupId, userId) {
        Send(ErrorPacket("You are banned from this group"));
        return;
      }
      var added := server.db.AddMember(json.groupId, userId, json.encryptedKey);
      Send(GroupJoined(json.groupId));
    }

    method HandleRenameGroup(json: Json)
      modifies server, server.db
      ensures State() == Spec.HandleRenameGroup(server.env, old(State()), json)
    {
      if !authenticated || !isNull {
        return;
      }
      if json.groupId in server.db.groups.vals {
        var g := server.db.groups.vals[json.groupId];
        server.db.groups := Put(server.db.groups, json.groupId, g.(name := json.name));
        server.db.Save();
        server.SendSystemMessage(json.groupId, "channel renamed to #" + json.name + " by TheNull");
      }
    }

    method HandleDeleteGroup(json: Json)
      modifies server.db
      ensures State() == Spec.HandleDeleteGroup(old(State()), json)
    {
      if !authenticated || !isNull {
        return;
      }
      if json.groupId in server.db.groups.vals {
        server.db.groups := Del(server.db.groups, json.groupId);
        server.db.members := Del(server.db.members, json.groupId);
        server.db.Save();
      }
    }

    // ----- peer-to-peer relays -----

    method HandleP2POffer(json: Json)
      modifies server`log
      ensures State() == Spec.HandleP2POffer(old(State()), json)
    {
      if authenticated && json.targetId in server.sessions.vals {
        var offer := P2POffer(userId, username, json.sdp, json.p2pPublicKey);
        server.sessions.vals[json.targetId].SendTo(json.targetId, offer, server);
      }
    }

    method HandleP2PAnswer(json: Json)
      modifies server`log
      ensures State() == Spec.HandleP2PAnswer(old(State()), json)
    {
      if authenticated && json.targetId in server.sessions.vals {
        var answer := P2PAnswer(userId, json.sdp, json.p2pPublicKey);
        server.sessions.vals[json.targetId].SendTo(json.targetId, answer, server);
      }
    }

    method HandleP2PICE(json: Json)
      modifies server`log
      ensures State() == Spec.HandleP2PIce(old(State()), json)
    {
      if authenticated && json.targetId in server.sessions.vals {
        var candidate := P2PIce(userId, json.candidate);
        server.sessions.vals[json.targetId].SendTo(json.targetId, candidate, server);
      }
    }
  }

  /** What is delivered does not depend on what was sent before. */
  lemma DeliverToFrame(g: Globals, h: Globals, me: Ident, u: string, p: Packet, mention: Packet,
                       content: Option<string>)
    requires g.sessions == h.sessions && g.db == h.db
    ensures Spec.DeliverTo(g, me, u, p, mention, content) == Spec.DeliverTo(h, me, u, p, mention, content)
  {
  }

  lemma {:induction false} ThrownStays(g: Globals, me: Ident, users: seq<string>, p: Packet, mention: Packet,
                                       content: Option<string>, i: nat, k: nat)
    requires i <= k <= |users|
    requires i < k ==> Spec.Deliver(g, me, users, p, mention, content, i).threw
    ensures Spec.Deliver(g, me, users, p, mention, content, k) == Spec.Deliver(g, me, users, p, mention, content, i)
  {
    if i < k {
      if i < k - 1 {
        ThrownStays(g, me, users, p, mention, content, i, k - 1);
      }
    }
  }

  /** A handled packet leaves a good database and a known identity. */
  lemma HandleKeepsReady(env: Env, c: nat, s: Local, f: Frame)
    requires EnvOk(env) && DbInv(env, s.g.db) && IdentOk(s.g.db.data.users, s.me)
    ensures
      var s' := Spec.Handle(env, c, s, f);
      DbInv(env, s'.g.db) && IdentOk(s'.g.db.data.users, s'.me)
  {
    EffectOk(env, s, f);
    ApplyKeeps(env, s.g.db, Effect(env, s, f));
    HandleDb(env, c, s, f);
    HandleSessions(env, c, s, f);
    AuthenticatedRegistered(env, s, f);
  }
}
