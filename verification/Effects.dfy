/** What a packet can do, read off its handler: its one database operation, its
    effect on the sessions map, and the packets it sends. Every property of
    whole runs is proved from these three summaries. */
module Effects {
  import opened Wrappers
  import opened Framing
  import opened Dicts
  import opened ChatModel
  import opened DbSpec
  import opened SessionSpec

  /** What one packet asks of the database. */
  datatype Op =
    | Nothing
    | SetKey(user: string, key: string)
    | Register(name: string, password: Option<string>, key: string)
    | Create(name: string, owner: string)
    | AddTo(group: string, user: string, key: string)
    | Rename(group: string, name: string)
    | Delete(group: string)
    | Ban(user: string, group: string)
    | Unban(user: string)
    | GroupBan(group: string, user: string)
    | Kick(user: string)

  ghost function SetKeyIf(b: Db, u: string, key: string): Db {
    if key != "" then SetPublicKey(b, u, key) else b
  }

  ghost function Apply(env: Env, b: Db, op: Op): Db {
    match op
    case Nothing => b
    case SetKey(u, key) => SetKeyIf(b, u, key)
    case Register(name, password, key) =>
      var (b', r) := RegisterUser(env, b, name, password);
      if r.Registered? then SetKeyIf(b', r.id, key) else b'
    case Create(name, owner) => CreateGroup(env, b, name, owner)
    case AddTo(g, u, key) => AddMember(b, g, u, key)
    case Rename(g, name) => RenameGroup(b, g, name)
    case Delete(g) => DeleteGroup(b, g)
    case Ban(u, g) => RemoveMember(BanUser(b, u), g, u)
    case Unban(u) => UnbanUser(b, u)
    case GroupBan(g, u) => RemoveMember(BanFromGroup(b, g, u), g, u)
    case Kick(u) => LeaveGeneral(b, u)
  }

  // ----- who asks for what -----

  /** A login that will be accepted, and as whom. */
  function LoginAs(env: Env, s: Local, j: Json): Option<User> {
    var r := LoginUser(env, s.g.db.data.users, j.username, j.password);
    if r.Accepted? && !IsBanned(s.g.db.data, r.user.id) then Some(r.user) else None
  }

  predicate MayRegister(s: Local, j: Json) {
    && j.invitePassword == INVITE_PASSWORD
    && !IsBanned(s.g.db.data, j.username)
    && j.username != THE_NULL_USER
  }

  function CommandOp(s: Local, gid: string, cmd: Command): Op {
    var users := s.g.db.data.users;
    match cmd.verb
    case BanVerb =>
      if cmd.arg1 != "" && UserIdOf(users, cmd.arg1) != "" then Ban(UserIdOf(users, cmd.arg1), gid) else Nothing
    case UnbanVerb =>
      if cmd.arg1 != "" && UserIdOf(users, cmd.arg1) != "" then Unban(UserIdOf(users, cmd.arg1)) else Nothing
    case GroupBanVerb =>
      if cmd.arg1 == GENERAL_GROUP && cmd.arg1 != "" && cmd.arg2 != ""
         && General(s.g.db.data) != "" && UserIdOf(users, cmd.arg2) != ""
      then GroupBan(General(s.g.db.data), UserIdOf(users, cmd.arg2)) else Nothing
    case KickVerb => Kick(s.me.userId)
    case _ => Nothing
  }

  predicate MayPost(s: Local, gid: string) {
    s.me.authenticated && !IsBanned(s.g.db.data, s.me.userId) && !IsGroupBanned(s.g.db.data, gid, s.me.userId)
  }

  function RecordOp(env: Env, s: Local, kind: byte, j: Json): Op {
    var u := s.me.userId;
    if kind == AUTH_LOGIN then
      match LoginAs(env, s, j) case Some(user) => SetKey(user.id, j.publicKey) case None => Nothing
    else if kind == AUTH_REGISTER then
      if MayRegister(s, j) then Register(j.username, j.password, j.publicKey) else Nothing
    else if kind == GROUP_MESSAGE then
      if MayPost(s, j.groupId) && s.me.isNull && IsCommand(j.content)
      then CommandOp(s, j.groupId, ParseCommand(env, j.content.value)) else Nothing
    else if kind == CREATE_GROUP then
      if s.me.authenticated && !IsBanned(s.g.db.data, u) then Create(j.name, u) else Nothing
    else if kind == JOIN_GROUP then
      if s.me.authenticated && !IsGroupBanned(s.g.db.data, j.groupId, u)
      then AddTo(j.groupId, u, j.encryptedKey) else Nothing
    else if kind == RENAME_GROUP then
      if s.me.authenticated && s.me.isNull then Rename(j.groupId, j.name) else Nothing
    else if kind == DELETE_GROUP then
      if s.me.authenticated && s.me.isNull then Delete(j.groupId) else Nothing
    else Nothing
  }

  function Effect(env: Env, s: Local, f: Frame): Op {
    match env.parse(f.body)
    case Record(j) => RecordOp(env, s, f.kind, j)
    case _ => Nothing
  }

  /** Every handler changes the database by exactly the operation it asks for. */
  lemma HandleDb(env: Env, c: nat, s: Local, f: Frame)
    ensures Handle(env, c, s, f).g.db == Apply(env, s.g.db, Effect(env, s, f))
  {
    match env.parse(f.body)
    case Record(j) =>
      if f.kind == AUTH_LOGIN {
        LoginDb(env, c, s, j);
      } else if f.kind == AUTH_REGISTER {
        RegisterDb(env, c, s, j);
      } else if f.kind == GROUP_MESSAGE {
        GroupMessageDb(env, c, s, j);
      } else if IsGroupKind(f.kind) {
        GroupPacketDb(env, c, s, f.kind, j);
      } else {
        DirectPacketDb(env, c, s, f.kind, j);
      }
    case _ =>
  }

  lemma LoginDb(env: Env, c: nat, s: Local, j: Json)
    ensures HandleLogin(env, c, s, j).g.db == Apply(env, s.g.db, RecordOp(env, s, AUTH_LOGIN, j))
  {
  }

  lemma RegisterDb(env: Env, c: nat, s: Local, j: Json)
    ensures HandleRegister(env, c, s, j).g.db == Apply(env, s.g.db, RecordOp(env, s, AUTH_REGISTER, j))
  {
  }

  lemma GroupMessageDb(env: Env, c: nat, s: Local, j: Json)
    ensures HandleGroupMessage(env, c, s, j).g.db == Apply(env, s.g.db, RecordOp(env, s, GROUP_MESSAGE, j))
  {
    if MayPost(s, j.groupId) && s.me.isNull && IsCommand(j.content) {
      CommandDb(env, c, s, j.groupId, ParseCommand(env, j.content.value));
    }
  }

  lemma GroupPacketDb(env: Env, c: nat, s: Local, kind: byte, j: Json)
    requires IsGroupKind(kind)
    ensures HandleGroupPacket(env, c, s, kind, j).g.db == Apply(env, s.g.db, RecordOp(env, s, kind, j))
  {
    CreateDb(env, c, s, j);
    JoinDb(env, c, s, j);
    RenameDb(env, c, s, j);
    DeleteDb(env, c, s, j);
  }

  lemma CreateDb(env: Env, c: nat, s: Local, j: Json)
    ensures HandleCreateGroup(env, c, s, j).g.db == Apply(env, s.g.db, RecordOp(env, s, CREATE_GROUP, j))
  {
  }

  lemma JoinDb(env: Env, c: nat, s: Local, j: Json)
    ensures HandleJoinGroup(c, s, j).g.db == Apply(env, s.g.db, RecordOp(env, s, JOIN_GROUP, j))
  {
  }

  lemma RenameDb(env: Env, c: nat, s: Local, j: Json)
    ensures HandleRenameGroup(env, s, j).g.db == Apply(env, s.g.db, RecordOp(env, s, RENAME_GROUP, j))
  {
  }

  lemma DeleteDb(env: Env, c: nat, s: Local, j: Json)
    ensures HandleDeleteGroup(s, j).g.db == Apply(env, s.g.db, RecordOp(env, s, DELETE_GROUP, j))
  {
  }

  lemma DirectPacketDb(env: Env, c: nat, s: Local, kind: byte, j: Json)
    ensures HandleDirectPacket(env, c, s, kind, j).g.db == s.g.db
  {
  }

  lemma CommandDb(env: Env, c: nat, s: Local, gid: string, cmd: Command)
    ensures RunCommand(env, c, s, gid, cmd).g.db == Apply(env, s.g.db, CommandOp(s, gid, cmd))
  {
    match cmd.verb
    case BanVerb => BanCommandDb(env, c, s, gid, cmd);
    case GroupBanVerb => GroupBanCommandDb(env, c, s, gid, cmd);
    case _ =>
  }

  lemma BanCommandDb(env: Env, c: nat, s: Local, gid: string, cmd: Command)
    requires cmd.verb.BanVerb?
    ensures RunCommand(env, c, s, gid, cmd).g.db == Apply(env, s.g.db, CommandOp(s, gid, cmd))
  {
  }

  lemma GroupBanCommandDb(env: Env, c: nat, s: Local, gid: string, cmd: Command)
    requires cmd.verb.GroupBanVerb?
    ensures RunCommand(env, c, s, gid, cmd).g.db == Apply(env, s.g.db, CommandOp(s, gid, cmd))
  {
  }

  // ----- sessions and identity -----

  /** Does the packet authenticate its connection, and as whom? */
  function Authenticates(env: Env, s: Local, f: Frame): Option<string> {
    match env.parse(f.body)
    case Record(j) =>
      if f.kind == AUTH_LOGIN then
        match LoginAs(env, s, j) case Some(user) => Some(user.id) case None => None
      else if f.kind == AUTH_REGISTER && MayRegister(s, j) then
        match RegisterUser(env, s.g.db, j.username, j.password).1 case Registered(id) => Some(id) case _ => None
      else None
    case _ => None
  }

  /** What a packet may do to the sessions map and its connection's identity:
      nothing, or map a user to this connection, which becomes that user's. */
  ghost predicate Reauthenticates(s: Local, s': Local, c: nat, who: Option<string>) {
    match who
    case None => s'.g.sessions == s.g.sessions && s'.me == s.me
    case Some(u) =>
      && s'.g.sessions == Put(s.g.sessions, u, c)
      && s'.me.userId == u && s'.me.authenticated && s'.me.logins == s.me.logins + 1
  }

  /** Only authentication touches the sessions map or the identity. */
  lemma HandleSessions(env: Env, c: nat, s: Local, f: Frame)
    ensures Reauthenticates(s, Handle(env, c, s, f), c, Authenticates(env, s, f))
  {
    match env.parse(f.body)
    case Record(j) =>
      if f.kind == AUTH_LOGIN {
        LoginSessions(env, c, s, j);
      } else if f.kind == AUTH_REGISTER {
        RegisterSessions(env, c, s, j);
      } else if f.kind == GROUP_MESSAGE {
        GroupMessageSessions(env, c, s, j);
      } else {
        OtherSessions(env, c, s, f.kind, j);
      }
    case _ =>
  }

  lemma LoginSessions(env: Env, c: nat, s: Local, j: Json)
    ensures
      var who := match LoginAs(env, s, j) case Some(user) => Some(user.id) case None => None;
      Reauthenticates(s, HandleLogin(env, c, s, j), c, who)
  {
  }

  lemma RegisterSessions(env: Env, c: nat, s: Local, j: Json)
    ensures
      var r := RegisterUser(env, s.g.db, j.username, j.password).1;
      var who := if MayRegister(s, j) && r.Registered? then Some(r.id) else None;
      Reauthenticates(s, HandleRegister(env, c, s, j), c, who)
  {
  }

  lemma GroupMessageSessions(env: Env, c: nat, s: Local, j: Json)
    ensures Reauthenticates(s, HandleGroupMessage(env, c, s, j), c, None)
  {
    if MayPost(s, j.groupId) && s.me.isNull && IsCommand(j.content) {
      CommandSessions(env, c, s, j.groupId, ParseCommand(env, j.content.value));
    }
  }

  lemma OtherSessions(env: Env, c: nat, s: Local, kind: byte, j: Json)
    ensures Reauthenticates(s, HandleGroupPacket(env, c, s, kind, j), c, None)
    ensures Reauthenticates(s, HandleDirectPacket(env, c, s, kind, j), c, None)
  {
  }

  lemma CommandSessions(env: Env, c: nat, s: Local, gid: string, cmd: Command)
    ensures RunCommand(env, c, s, gid, cmd).g.sessions == s.g.sessions
    ensures RunCommand(env, c, s, gid, cmd).me == s.me
  {
  }

  // ----- packets sent -----

  /** The group a group packet is about. */
  function AboutGroup(p: Packet): Option<string> {
    match p
    case GroupMessage(_, _, _, _, _, g) => Some(g)
    case Mention(_, _, g, _, _) => Some(g)
    case _ => None
  }

  /** The user (or the system) a chat packet is from. */
  function From(p: Packet): Option<string> {
    match p
    case TextMessage(u, _, _, _, _) => Some(u)
    case GroupMessage(u, _, _, _, _, _) => Some(u)
    case Mention(u, _, _, _, _) => Some(u)
    case _ => None
  }

  /** Whose doing a packet is: who a chat packet or a relayed one is from, or
      whose coming or going is told. */
  function Origin(p: Packet): Option<string> {
    match p
    case P2POffer(u, _, _, _) => Some(u)
    case P2PAnswer(u, _, _) => Some(u)
    case P2PIce(u, _) => Some(u)
    case UserOnline(u, _, _) => Some(u)
    case UserOffline(u, _, _) => Some(u)
    case _ => From(p)
  }

  /** Does the packet report the group as existing? */
  ghost predicate Lists(p: Packet, g: string) {
    match p
    case AuthOk(_, _, _, groups) => exists r :: r in groups && r.id == g
    case GroupCreated(h, _) => g == h
    case _ => false
  }

  /** A packet whose content the data allow: a chat packet is the system's or an
      unbanned user's, who is not banned from the group it is about; and only
      groups that exist are listed. */
  ghost predicate Allowed(d: Data, p: Packet) {
    && (From(p).Some? && From(p).value != SYSTEM_ID ==>
          && !IsBanned(d, From(p).value)
          && (AboutGroup(p).Some? ==> !IsGroupBanned(d, AboutGroup(p).value, From(p).value)))
    && forall g :: Lists(p, g) ==> g in d.groups.vals
  }

  /** The system's doing, the user's own, or nobody's. */
  predicate Own(me: Ident, p: Packet) {
    Origin(p).Some? ==> Origin(p).value == SYSTEM_ID || Origin(p).value == me.userId
  }

  /** A reply goes to the sender's own connection and is nobody's doing; any
      other packet goes to an online user's connection; and a group packet goes
      to a member of its group. */
  ghost predicate Routed(g: Globals, c: nat, e: Sent) {
    && (e.via == "" ==> e.conn == c && Origin(e.packet).None?)
    && (e.via != "" ==> e.via in g.sessions.vals && e.conn == g.sessions.vals[e.via])
    && (AboutGroup(e.packet).Some? ==> e.via in GroupMembers(g.db.data, AboutGroup(e.packet).value))
  }

  /** A packet sent in order on behalf of connection c, given the state and the
      identity it leaves behind. */
  ghost predicate InOrder(g: Globals, c: nat, me: Ident, e: Sent) {
    Routed(g, c, e) && Own(me, e.packet) && Allowed(g.db.data, e.packet)
  }

  /** The log grew, and everything new is in order. */
  ghost predicate SentInOrder(before: seq<Sent>, g: Globals, c: nat, me: Ident) {
    && before <= g.log
    && forall i :: |before| <= i < |g.log| ==> InOrder(g, c, me, g.log[i])
  }

  /** No user is called "". */
  ghost predicate NamedSessions(g: Globals) {
    "" !in g.sessions.vals
  }

  lemma {:induction false} FanoutInOrder(g: Globals, c: nat, me: Ident, users: seq<string>,
                                         except: Option<string>, p: Packet, k: nat)
    requires k <= |users| && NamedSessions(g)
    requires AboutGroup(p).Some? ==> users == GroupMembers(g.db.data, AboutGroup(p).value)
    requires Own(me, p) && Allowed(g.db.data, p)
    ensures forall e :: e in Fanout(users, g.sessions, except, p, k) ==> InOrder(g, c, me, e)
  {
    if k > 0 {
      FanoutInOrder(g, c, me, users, except, p, k - 1);
    }
  }

  lemma SystemMessageInOrder(env: Env, g: Globals, c: nat, me: Ident, gid: string, text: string)
    requires NamedSessions(g)
    ensures SentInOrder(g.log, SystemMessage(env, g, gid, text), c, me)
  {
    var g' := SystemMessage(env, g, gid, text);
    var members := GroupMembers(g.db.data, gid);
    FanoutInOrder(g', c, me, members, None,
                  GroupMessage(SYSTEM_ID, SYSTEM_USER, Some(text), false, env.now(g.ticks), gid), |members|);
  }

  lemma BroadcastInOrder(g: Globals, c: nat, me: Ident, online: bool)
    requires NamedSessions(g)
    ensures SentInOrder(g.log, BroadcastStatus(g, me.userId, me.username, online), c, me)
  {
    var u := me.userId;
    var g' := BroadcastStatus(g, u, me.username, online);
    var key := PublicKeyOf(g.db.data.users, u);
    var p := if online then UserOnline(u, me.username, key) else UserOffline(u, me.username, key);
    FanoutInOrder(g', c, me, g.sessions.keys, Some(u), p, |g.sessions.keys|);
  }

  /** Groups are stored under their own ids. */
  ghost predicate GroupIds(d: Data) {
    forall g :: g in d.groups.vals ==> d.groups.vals[g].id == g
  }

  lemma {:induction false} UserGroupsExist(d: Data, u: string, k: nat)
    requires GroupIds(d) && k <= |d.members.keys|
    ensures forall r :: r in UserGroups(d, u, k) ==> r.id in d.groups.vals
  {
    if k > 0 {
      UserGroupsExist(d, u, k - 1);
    }
  }

  lemma AnnounceInOrder(c: nat, s: Local, key: string, isNull: bool)
    requires NamedSessions(s.g) && GroupIds(s.g.db.data)
    ensures SentInOrder(s.g.log, Announce(c, s, key, isNull).g, c, s.me)
  {
    var s1 := if key != "" then s.(g := s.g.(db := SetPublicKey(s.g.db, s.me.userId, key))) else s;
    var d := s1.g.db.data;
    assert d.groups == s.g.db.data.groups;
    var reply := AuthOk(s.me.userId, s.me.username, isNull, GroupsOf(d, s.me.userId));
    UserGroupsExist(d, s.me.userId, |d.members.keys|);
    assert Allowed(d, reply);
    BroadcastInOrder(Reply(s1, c, reply).g, c, s.me, true);
  }

  lemma {:induction false} DeliverInOrder(g: Globals, c: nat, me: Ident, p: Packet, mention: Packet,
                                          content: Option<string>, k: nat)
    requires NamedSessions(g)
    requires p.GroupMessage? && mention.Mention? && p.groupId == mention.groupId
    requires Own(me, p) && Allowed(g.db.data, p) && Own(me, mention) && Allowed(g.db.data, mention)
    requires k <= |GroupMembers(g.db.data, p.groupId)|
    ensures
      var sent := Deliver(g, me, GroupMembers(g.db.data, p.groupId), p, mention, content, k).sent;
      forall e :: e in sent ==> InOrder(g, c, me, e)
  {
    if k > 0 {
      DeliverInOrder(g, c, me, p, mention, content, k - 1);
    }
  }

  lemma PostInOrder(env: Env, c: nat, s: Local, j: Json)
    requires NamedSessions(s.g) && MayPost(s, j.groupId)
    ensures SentInOrder(s.g.log, PostToGroup(env, s, j).g, c, s.me)
  {
    var g' := PostToGroup(env, s, j).g;
    var members := GroupMembers(s.g.db.data, j.groupId);
    var (at, g) := Stamp(env, s.g, j.timestamp);
    var p := GroupMessage(s.me.userId, s.me.username, j.content, j.encrypted, at, j.groupId);
    var mention := Mention(s.me.userId, s.me.username, j.groupId, GroupName(g.db.data, j.groupId), j.content);
    DeliverInOrder(g, c, s.me, p, mention, j.content, |members|);
    assert forall e :: InOrder(g, c, s.me, e) ==> InOrder(g', c, s.me, e);
  }

  lemma CommandInOrder(env: Env, c: nat, s: Local, gid: string, cmd: Command)
    requires NamedSessions(s.g)
    ensures SentInOrder(s.g.log, RunCommand(env, c, s, gid, cmd).g, c, s.me)
  {
    var g := s.g.(db := RunCommand(env, c, s, gid, cmd).g.db);
    match cmd.verb
    case BanVerb =>
      BanInOrder(env, c, s, gid, cmd.arg1, UserIdOf(s.g.db.data.users, cmd.arg1));
    case UnbanVerb =>
      SystemMessageInOrder(env, g, c, s.me, gid, cmd.arg1 + " has been unbanned by TheNull");
    case GroupBanVerb =>
      SystemMessageInOrder(env, g, c, s.me, gid, cmd.arg2 + " has been banned from " + cmd.arg1 + " by TheNull");
    case HelpVerb =>
      SystemMessageInOrder(env, g, c, s.me, gid, HELP_TEXT);
    case BroadcastVerb =>
      SystemMessageInOrder(env, g, c, s.me, General(s.g.db.data), BROADCAST_MARK + cmd.rest);
    case _ =>
  }

  lemma BanInOrder(env: Env, c: nat, s: Local, gid: string, name: string, target: string)
    requires NamedSessions(s.g)
    ensures SentInOrder(s.g.log, SessionSpec.Ban(env, s, gid, name, target).g, c, s.me)
  {
    var g := s.g.(db := RemoveMember(BanUser(s.g.db, target), gid, target));
    var notice := ErrorPacket("You have been banned from Nullchat by TheNull");
    var g1 := if target in g.sessions.vals then Write(g, g.sessions.vals[target], target, notice) else g;
    SystemMessageInOrder(env, g1, c, s.me, gid, name + " has been banned from Nullchat by TheNull");
  }

  /** Everything any packet causes to be sent is in order. */
  lemma HandleInOrder(env: Env, c: nat, s: Local, f: Frame)
    requires NamedSessions(s.g) && GroupIds(s.g.db.data)
    requires Authenticates(env, s, f) != Some("")
    ensures SentInOrder(s.g.log, Handle(env, c, s, f).g, c, Handle(env, c, s, f).me)
  {
    match env.parse(f.body)
    case Malformed =>
    case NullBody =>
      NullInOrder(c, s, f.kind);
    case Record(j) =>
      if f.kind == AUTH_LOGIN {
        LoginInOrder(env, c, s, j);
      } else if f.kind == AUTH_REGISTER {
        RegisterInOrder(env, c, s, j);
      } else if f.kind == GROUP_MESSAGE {
        GroupMessageInOrder(env, c, s, j);
      } else if IsGroupKind(f.kind) {
        GroupPacketInOrder(env, c, s, f.kind, j);
      } else {
        DirectPacketInOrder(env, c, s, f.kind, j);
      }
  }

  lemma ReplyInOrder(c: nat, s: Local, p: Packet)
    requires Origin(p).None? && AboutGroup(p).None? && Allowed(s.g.db.data, p)
    ensures SentInOrder(s.g.log, Reply(s, c, p).g, c, s.me)
  {
  }

  lemma NullInOrder(c: nat, s: Local, kind: byte)
    ensures SentInOrder(s.g.log, HandleNull(c, s, kind).g, c, s.me)
  {
  }

  lemma GroupPacketInOrder(env: Env, c: nat, s: Local, kind: byte, j: Json)
    requires NamedSessions(s.g)
    ensures SentInOrder(s.g.log, HandleGroupPacket(env, c, s, kind, j).g, c, s.me)
  {
    if kind == CREATE_GROUP {
      CreateInOrder(env, c, s, j);
    } else if kind == JOIN_GROUP {
      JoinInOrder(c, s, j);
    } else if kind == RENAME_GROUP {
      RenameInOrder(env, c, s, j);
    }
  }

  lemma CreateInOrder(env: Env, c: nat, s: Local, j: Json)
    ensures SentInOrder(s.g.log, HandleCreateGroup(env, c, s, j).g, c, s.me)
  {
    if s.me.authenticated && !IsBanned(s.g.db.data, s.me.userId) {
      CreateGroupAdds(env, s.g.db, j.name, s.me.userId);
      ReplyInOrder(c, s.(g := s.g.(db := CreateGroup(env, s.g.db, j.name, s.me.userId))),
                   GroupCreated(env.uuid(s.g.db.uuids), j.name));
    }
  }

  lemma CreateGroupAdds(env: Env, b: Db, name: string, owner: string)
    ensures env.uuid(b.uuids) in CreateGroup(env, b, name, owner).data.groups.vals
  {
  }

  lemma JoinInOrder(c: nat, s: Local, j: Json)
    ensures SentInOrder(s.g.log, HandleJoinGroup(c, s, j).g, c, s.me)
  {
    ReplyInOrder(c, s.(g := s.g.(db := AddMember(s.g.db, j.groupId, s.me.userId, j.encryptedKey))),
                 GroupJoined(j.groupId));
  }

  lemma RenameInOrder(env: Env, c: nat, s: Local, j: Json)
    requires NamedSessions(s.g)
    ensures SentInOrder(s.g.log, HandleRenameGroup(env, s, j).g, c, s.me)
  {
    SystemMessageInOrder(env, s.g.(db := RenameGroup(s.g.db, j.groupId, j.name)), c, s.me, j.groupId,
                         "channel renamed to #" + j.name + " by TheNull");
  }

  lemma RelayInOrder(c: nat, s: Local, target: string, p: Packet)
    requires NamedSessions(s.g)
    requires Own(s.me, p) && From(p).None? && AboutGroup(p).None? && Allowed(s.g.db.data, p)
    ensures SentInOrder(s.g.log, Relay(s, target, p).g, c, s.me)
  {
  }

  lemma TextInOrder(env: Env, c: nat, s: Local, j: Json)
    requires NamedSessions(s.g)
    ensures SentInOrder(s.g.log, HandleTextMessage(env, c, s, j).g, c, s.me)
  {
  }

  lemma DirectPacketInOrder(env: Env, c: nat, s: Local, kind: byte, j: Json)
    requires NamedSessions(s.g)
    ensures SentInOrder(s.g.log, HandleDirectPacket(env, c, s, kind, j).g, c, s.me)
  {
    if kind == TEXT_MESSAGE {
      TextInOrder(env, c, s, j);
    } else if kind == P2P_OFFER {
      RelayInOrder(c, s, j.targetId, P2POffer(s.me.userId, s.me.username, j.sdp, j.p2pPublicKey));
    } else if kind == P2P_ANSWER {
      RelayInOrder(c, s, j.targetId, P2PAnswer(s.me.userId, j.sdp, j.p2pPublicKey));
    } else if kind == P2P_ICE_CANDIDATE {
      RelayInOrder(c, s, j.targetId, P2PIce(s.me.userId, j.candidate));
    } else if kind == PUB_KEY_REQUEST {
      ReplyInOrder(c, s, PubKeyResponse(j.userId, PublicKeyOf(s.g.db.data.users, j.userId)));
    } else if kind == PING {
      ReplyInOrder(c, s, Pong);
    }
  }

  lemma LoginInOrder(env: Env, c: nat, s: Local, j: Json)
    requires NamedSessions(s.g) && GroupIds(s.g.db.data)
    requires LoginAs(env, s, j).Some? ==> LoginAs(env, s, j).value.id != ""
    ensures SentInOrder(s.g.log, HandleLogin(env, c, s, j).g, c, HandleLogin(env, c, s, j).me)
  {
    match LoginAs(env, s, j)
    case Some(user) =>
      ResumeInOrder(c, s, user, j.publicKey);
    case None =>
      RefusedInOrder(env, c, s, j);
  }

  lemma RefusedInOrder(env: Env, c: nat, s: Local, j: Json)
    requires LoginAs(env, s, j).None?
    ensures SentInOrder(s.g.log, HandleLogin(env, c, s, j).g, c, HandleLogin(env, c, s, j).me)
  {
    ReplyInOrder(c, s, AuthError("Invalid credentials"));
    ReplyInOrder(c, s, AuthError("You are banned from Nullchat"));
  }

  lemma ResumeInOrder(c: nat, s: Local, user: User, key: string)
    requires NamedSessions(s.g) && GroupIds(s.g.db.data) && user.id != ""
    ensures SentInOrder(s.g.log, ResumeSession(c, s, user, key).g, c, ResumeSession(c, s, user, key).me)
  {
    var me := Ident(user.id, user.username, true, user.isNull, s.me.logins + 1);
    AnnounceInOrder(c, Local(SetSession(s.g, user.id, c), me), key, user.isNull);
  }

  lemma RegisterInOrder(env: Env, c: nat, s: Local, j: Json)
    requires NamedSessions(s.g) && GroupIds(s.g.db.data)
    requires MayRegister(s, j) ==> RegisterUser(env, s.g.db, j.username, j.password).1 != Registered("")
    ensures SentInOrder(s.g.log, HandleRegister(env, c, s, j).g, c, HandleRegister(env, c, s, j).me)
  {
    if MayRegister(s, j) {
      var (db', r) := RegisterUser(env, s.g.db, j.username, j.password);
      RegisterKeepsGroups(env, s.g.db, j.username, j.password);
      if r.Registered? {
        NewSessionInOrder(c, s.(g := s.g.(db := db')), r.id, j.username, j.publicKey);
      }
    }
  }

  lemma RegisterKeepsGroups(env: Env, b: Db, name: string, password: Option<string>)
    ensures RegisterUser(env, b, name, password).0.data.groups == b.data.groups
  {
  }

  lemma NewSessionInOrder(c: nat, s: Local, id: string, name: string, key: string)
    requires NamedSessions(s.g) && GroupIds(s.g.db.data) && id != ""
    ensures SentInOrder(s.g.log, NewSession(c, s, id, name, key).g, c, NewSession(c, s, id, name, key).me)
  {
    var s1 := Local(SetSession(s.g, id, c), Ident(id, name, true, s.me.isNull, s.me.logins + 1));
    AnnounceInOrder(c, s1, key, false);
    var s2 := Announce(c, s1, key, false);
    assert forall e :: InOrder(s2.g, c, s1.me, e) ==> InOrder(NewSession(c, s, id, name, key).g, c, s1.me, e);
  }

  lemma GroupMessageInOrder(env: Env, c: nat, s: Local, j: Json)
    requires NamedSessions(s.g)
    ensures SentInOrder(s.g.log, HandleGroupMessage(env, c, s, j).g, c, s.me)
  {
    if MayPost(s, j.groupId) {
      if s.me.isNull && IsCommand(j.content) {
        CommandInOrder(env, c, s, j.groupId, ParseCommand(env, j.content.value));
      } else if !s.me.isNull || j.content.Some? {
        PostInOrder(env, c, s, j);
      }
    }
  }
}
