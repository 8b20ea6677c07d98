/** What each packet does: the Session handlers as functions on the shared
    state and the connection's identity. */
module SessionSpec {
  import opened Wrappers
  import opened Framing
  import opened Dicts
  import opened ChatModel
  import opened DbSpec

  // ----- sending -----

  function Write(g: Globals, conn: nat, via: string, p: Packet): Globals {
    g.(log := g.log + [Sent(conn, via, p)])
  }

  /** A reply on connection c itself. */
  function Reply(s: Local, c: nat, p: Packet): Local {
    s.(g := Write(s.g, c, "", p))
  }

  /** The packet, if the user is online and not `except`. */
  function FanoutOne(u: string, sessions: Dict<nat>, except: Option<string>, p: Packet): seq<Sent> {
    if u in sessions.vals && Some(u) != except then [Sent(sessions.vals[u], u, p)] else []
  }

  /** One packet to each of the first k listed users who is online and is not
      `except`. */
  function Fanout(users: seq<string>, sessions: Dict<nat>, except: Option<string>, p: Packet, k: nat): seq<Sent>
    requires k <= |users|
  {
    if k == 0 then []
    else Fanout(users, sessions, except, p, k - 1) + FanoutOne(users[k - 1], sessions, except, p)
  }

  /** sendSystemMessage. */
  function SystemMessage(env: Env, g: Globals, gid: string, text: string): Globals {
    var members := GroupMembers(g.db.data, gid);
    var p := GroupMessage(SYSTEM_ID, SYSTEM_USER, Some(text), false, env.now(g.ticks), gid);
    g.(log := g.log + Fanout(members, g.sessions, None, p, |members|), ticks := g.ticks + 1)
  }

  /** broadcastStatus: to every session but the user's own. */
  ghost function BroadcastStatus(g: Globals, u: string, username: string, online: bool): Globals {
    var key := PublicKeyOf(g.db.data.users, u);
    var p := if online then UserOnline(u, username, key) else UserOffline(u, username, key);
    g.(log := g.log + Fanout(g.sessions.keys, g.sessions, Some(u), p, |g.sessions.keys|))
  }

  // ----- authentication -----

  ghost function HandleLogin(env: Env, c: nat, s: Local, j: Json): Local {
    match LoginUser(env, s.g.db.data.users, j.username, j.password)
    case Refused => Reply(s, c, AuthError("Invalid credentials"))
    case LoginThrew => s
    case Accepted(user) =>
      if IsBanned(s.g.db.data, user.id) then Reply(s, c, AuthError("You are banned from Nullchat"))
      else ResumeSession(c, s, user, j.publicKey)
  }

  ghost function ResumeSession(c: nat, s: Local, user: User, key: string): Local {
    var me := Ident(user.id, user.username, true, user.isNull, s.me.logins + 1);
    Announce(c, Local(SetSession(s.g, user.id, c), me), key, user.isNull)
  }

  function SetSession(g: Globals, u: string, c: nat): Globals {
    g.(sessions := Put(g.sessions, u, c))
  }

  /** The common end of login and registration: store the key, report the user's
      groups, tell the others. */
  ghost function Announce(c: nat, s: Local, key: string, isNull: bool): Local {
    var u := s.me.userId;
    var s1 := if key != "" then s.(g := s.g.(db := SetPublicKey(s.g.db, u, key))) else s;
    var s2 := Reply(s1, c, AuthOk(u, s.me.username, isNull, GroupsOf(s1.g.db.data, u)));
    s2.(g := BroadcastStatus(s2.g, u, s.me.username, true))
  }

  ghost function HandleRegister(env: Env, c: nat, s: Local, j: Json): Local {
    if j.invitePassword != INVITE_PASSWORD then Reply(s, c, AuthError("Invalid invite password"))
    else if IsBanned(s.g.db.data, j.username) then Reply(s, c, AuthError("Username is banned"))
    else if j.username == THE_NULL_USER then Reply(s, c, AuthError("Username reserved"))
    else
      var (db', r) := RegisterUser(env, s.g.db, j.username, j.password);
      var s1 := s.(g := s.g.(db := db'));
      match r
      case Taken => Reply(s1, c, AuthError("Username taken"))
      case RegisterThrew => s1
      case Registered(id) =>
        NewSession(c, s1, id, j.username, j.publicKey)
  }

  /** A registered newcomer's session begins, and a welcome is scheduled. */
  ghost function NewSession(c: nat, s: Local, id: string, name: string, key: string): Local {
    var s1 := Local(SetSession(s.g, id, c), Ident(id, name, true, s.me.isNull, s.me.logins + 1));
    var s2 := Announce(c, s1, key, false);
    s2.(g := s2.g.(timers := s2.g.timers + [Timer(id, name)]))
  }

  ghost function HandlePubKeyRequest(c: nat, s: Local, j: Json): Local {
    Reply(s, c, PubKeyResponse(j.userId, PublicKeyOf(s.g.db.data.users, j.userId)))
  }

  // ----- messages -----

  /** `timestamp || Date.now()`, and whether the clock was read. */
  function Stamp(env: Env, g: Globals, timestamp: int): (int, Globals) {
    if timestamp != 0 then (timestamp, g) else (env.now(g.ticks), g.(ticks := g.ticks + 1))
  }

  function HandleTextMessage(env: Env, c: nat, s: Local, j: Json): Local {
    if !s.me.authenticated || j.recipientId !in s.g.sessions.vals then s
    else if IsBanned(s.g.db.data, s.me.userId) then Reply(s, c, ErrorPacket("You are banned from Nullchat"))
    else
      var (at, g) := Stamp(env, s.g, j.timestamp);
      var p := TextMessage(s.me.userId, s.me.username, j.content, j.encrypted, at);
      s.(g := Write(g, g.sessions.vals[j.recipientId], j.recipientId, p))
  }

  predicate OccursAt(text: string, pattern: string, i: nat) {
    i <= |text| - |pattern| && text[i..i + |pattern|] == pattern
  }

  /** String.includes. */
  predicate Contains(text: string, pattern: string) {
    exists i: nat | i <= |text| :: OccursAt(text, pattern, i)
  }

  /** What a delivery loop has sent so far, and whether it was cut short by a throw. */
  datatype Delivery = Delivery(sent: seq<Sent>, threw: bool)

  /** Does the message mention the member? None: looking at an absent text throws. */
  ghost function Mentioned(d: Data, content: Option<string>, u: string): Option<bool> {
    match NameOf(d.users, u)
    case None => Some(false)
    case Some(n) => if content.None? then None else Some(Contains(content.value, "@" + d.users[n].username))
  }

  /** Delivering to one member: the message, then a mention if there is one. */
  ghost function DeliverTo(g: Globals, me: Ident, u: string, p: Packet, mention: Packet,
                           content: Option<string>): Delivery {
    if u == me.userId || u !in g.sessions.vals then Delivery([], false)
    else
      var conn := g.sessions.vals[u];
      match Mentioned(g.db.data, content, u)
      case None => Delivery([Sent(conn, u, p)], true)
      case Some(yes) =>
        Delivery([Sent(conn, u, p)] + if yes then [Sent(conn, u, mention)] else [], false)
  }

  ghost function Deliver(g: Globals, me: Ident, users: seq<string>, p: Packet, mention: Packet,
                         content: Option<string>, k: nat): Delivery
    requires k <= |users|
  {
    if k == 0 then Delivery([], false)
    else
      var before := Deliver(g, me, users, p, mention, content, k - 1);
      if before.threw then before
      else
        var last := DeliverTo(g, me, users[k - 1], p, mention, content);
        Delivery(before.sent + last.sent, last.threw)
  }

  function GroupName(d: Data, gid: string): string {
    if gid in d.groups.vals then d.groups.vals[gid].name else ""
  }

  ghost function PostToGroup(env: Env, s: Local, j: Json): Local {
    var members := GroupMembers(s.g.db.data, j.groupId);
    var (at, g) := Stamp(env, s.g, j.timestamp);
    var p := GroupMessage(s.me.userId, s.me.username, j.content, j.encrypted, at, j.groupId);
    var mention := Mention(s.me.userId, s.me.username, j.groupId, GroupName(g.db.data, j.groupId), j.content);
    s.(g := g.(log := g.log + Deliver(g, s.me, members, p, mention, j.content, |members|).sent))
  }

  predicate IsCommand(content: Option<string>) {
    content.Some? && |content.value| > 0 && content.value[0] == '/'
  }

  ghost function HandleGroupMessage(env: Env, c: nat, s: Local, j: Json): Local {
    if !s.me.authenticated then s
    else if IsBanned(s.g.db.data, s.me.userId) then Reply(s, c, ErrorPacket("You are banned from Nullchat"))
    else if IsGroupBanned(s.g.db.data, j.groupId, s.me.userId) then
      Reply(s, c, ErrorPacket("You are banned from this group"))
    else if s.me.isNull && j.content.None? then s
    else if s.me.isNull && IsCommand(j.content) then HandleAdminCommand(env, c, s, j.groupId, j.content.value)
    else PostToGroup(env, s, j)
  }

  // ----- admin commands -----

  /** String.split(' '). */
  function Split(s: string): (parts: seq<string>)
    ensures |parts| > 0
  {
    if s == "" then [""]
    else
      var rest := Split(s[1..]);
      if s[0] == ' ' then [""] + rest else [[s[0]] + rest[0]] + rest[1..]
  }

  /** Array.join(' '). */
  function Join(parts: seq<string>): string {
    if parts == [] then ""
    else if |parts| == 1 then parts[0]
    else parts[0] + " " + Join(parts[1..])
  }

  datatype Verb = BanVerb | UnbanVerb | GroupBanVerb | KickVerb | HelpVerb | BroadcastVerb | UnknownVerb

  function VerbOf(word: string): Verb {
    if word == "/ban" then BanVerb
    else if word == "/unban" then UnbanVerb
    else if word == "/gban" then GroupBanVerb
    else if word == "/kick" then KickVerb
    else if word == "/help" then HelpVerb
    else if word == "/broadcast" then BroadcastVerb
    else UnknownVerb
  }

  /** A command with the words after it; a missing word reads as "". */
  datatype Command = Command(verb: Verb, arg1: string, arg2: string, rest: string)

  function ParseCommand(env: Env, text: string): Command {
    var parts := Split(text);
    Command(VerbOf(env.lower(parts[0])),
            if |parts| > 1 then parts[1] else "",
            if |parts| > 2 then parts[2] else "",
            Join(parts[1..]))
  }

  const HELP_TEXT := "commands: /ban <user> /unban <user> /gban <group> <user> /broadcast <msg>"
  const BROADCAST_MARK := "\U{1F4E2} "

  function HandleAdminCommand(env: Env, c: nat, s: Local, gid: string, text: string): Local {
    RunCommand(env, c, s, gid, ParseCommand(env, text))
  }

  function RunCommand(env: Env, c: nat, s: Local, gid: string, cmd: Command): Local {
    var users := s.g.db.data.users;
    match cmd.verb
    case BanVerb =>
      var target := UserIdOf(users, cmd.arg1);
      if cmd.arg1 != "" && target != "" then Ban(env, s, gid, cmd.arg1, target) else s
    case UnbanVerb =>
      var target := UserIdOf(users, cmd.arg1);
      if cmd.arg1 != "" && target != "" then
        s.(g := SystemMessage(env, s.g.(db := UnbanUser(s.g.db, target)), gid,
                              cmd.arg1 + " has been unbanned by TheNull"))
      else s
    case GroupBanVerb =>
      var target := UserIdOf(users, cmd.arg2);
      var group := if cmd.arg1 == GENERAL_GROUP then General(s.g.db.data) else "";
      if cmd.arg1 != "" && cmd.arg2 != "" && target != "" && group != "" then
        s.(g := SystemMessage(env,
                              s.g.(db := RemoveMember(BanFromGroup(s.g.db, group, target), group, target)), gid,
                              cmd.arg2 + " has been banned from " + cmd.arg1 + " by TheNull"))
      else s
    case KickVerb =>
      Reply(s.(g := s.g.(db := LeaveGeneral(s.g.db, s.me.userId))), c,
            ErrorPacket("You have been kicked from the server"))
    case HelpVerb => s.(g := SystemMessage(env, s.g, gid, HELP_TEXT))
    case BroadcastVerb =>
      var group := General(s.g.db.data);
      if cmd.rest != "" && group != "" then s.(g := SystemMessage(env, s.g, group, BROADCAST_MARK + cmd.rest)) else s
    case UnknownVerb => s
  }

  function LeaveGeneral(b: Db, u: string): Db {
    if General(b.data) != "" then RemoveMember(b, General(b.data), u) else b
  }

  function Ban(env: Env, s: Local, gid: string, name: string, target: string): Local {
    var g := s.g.(db := RemoveMember(BanUser(s.g.db, target), gid, target));
    var notice := ErrorPacket("You have been banned from Nullchat by TheNull");
    var g1 := if target in g.sessions.vals then Write(g, g.sessions.vals[target], target, notice) else g;
    s.(g := SystemMessage(env, g1, gid, name + " has been banned from Nullchat by TheNull"))
  }

  // ----- groups -----

  function HandleCreateGroup(env: Env, c: nat, s: Local, j: Json): Local {
    if !s.me.authenticated then s
    else if IsBanned(s.g.db.data, s.me.userId) then Reply(s, c, ErrorPacket("You are banned"))
    else
      Reply(s.(g := s.g.(db := CreateGroup(env, s.g.db, j.name, s.me.userId))), c,
            GroupCreated(env.uuid(s.g.db.uuids), j.name))
  }

  function HandleJoinGroup(c: nat, s: Local, j: Json): Local {
    if !s.me.authenticated then s
    else if IsGroupBanned(s.g.db.data, j.groupId, s.me.userId) then
      Reply(s, c, ErrorPacket("You are banned from this group"))
    else
      Reply(s.(g := s.g.(db := AddMember(s.g.db, j.groupId, s.me.userId, j.encryptedKey))), c, GroupJoined(j.groupId))
  }

  function HandleRenameGroup(env: Env, s: Local, j: Json): Local {
    if !s.me.authenticated || !s.me.isNull || j.groupId !in s.g.db.data.groups.vals then s
    else s.(g := SystemMessage(env, s.g.(db := RenameGroup(s.g.db, j.groupId, j.name)), j.groupId,
                               "channel renamed to #" + j.name + " by TheNull"))
  }

  function HandleDeleteGroup(s: Local, j: Json): Local {
    if !s.me.authenticated || !s.me.isNull then s
    else s.(g := s.g.(db := DeleteGroup(s.g.db, j.groupId)))
  }

  // ----- peer-to-peer relays -----

  function Relay(s: Local, target: string, p: Packet): Local {
    if s.me.authenticated && target in s.g.sessions.vals
    then s.(g := Write(s.g, s.g.sessions.vals[target], target, p))
    else s
  }

  function HandleP2POffer(s: Local, j: Json): Local {
    Relay(s, j.targetId, P2POffer(s.me.userId, s.me.username, j.sdp, j.p2pPublicKey))
  }

  function HandleP2PAnswer(s: Local, j: Json): Local {
    Relay(s, j.targetId, P2PAnswer(s.me.userId, j.sdp, j.p2pPublicKey))
  }

  function HandleP2PIce(s: Local, j: Json): Local {
    Relay(s, j.targetId, P2PIce(s.me.userId, j.candidate))
  }

  // ----- dispatch -----

  /** The body `null` parses, and throws when a field is asked of it: only what
      comes before that has an effect. */
  function HandleNull(c: nat, s: Local, kind: byte): Local {
    if kind == PING then Reply(s, c, Pong)
    else if kind == GROUP_MESSAGE && s.me.authenticated && IsBanned(s.g.db.data, s.me.userId) then
      Reply(s, c, ErrorPacket("You are banned from Nullchat"))
    else if kind == CREATE_GROUP && s.me.authenticated && IsBanned(s.g.db.data, s.me.userId) then
      Reply(s, c, ErrorPacket("You are banned"))
    else s
  }

  function HandleGroupPacket(env: Env, c: nat, s: Local, kind: byte, j: Json): Local {
    if kind == CREATE_GROUP then HandleCreateGroup(env, c, s, j)
    else if kind == JOIN_GROUP then HandleJoinGroup(c, s, j)
    else if kind == RENAME_GROUP then HandleRenameGroup(env, s, j)
    else if kind == DELETE_GROUP then HandleDeleteGroup(s, j)
    else s
  }

  ghost function HandleDirectPacket(env: Env, c: nat, s: Local, kind: byte, j: Json): Local {
    if kind == TEXT_MESSAGE then HandleTextMessage(env, c, s, j)
    else if kind == P2P_OFFER then HandleP2POffer(s, j)
    else if kind == P2P_ANSWER then HandleP2PAnswer(s, j)
    else if kind == P2P_ICE_CANDIDATE then HandleP2PIce(s, j)
    else if kind == PUB_KEY_REQUEST then HandlePubKeyRequest(c, s, j)
    else if kind == PING then Reply(s, c, Pong)
    else s
  }

  predicate IsGroupKind(kind: byte) {
    kind == CREATE_GROUP || kind == JOIN_GROUP || kind == RENAME_GROUP || kind == DELETE_GROUP
  }

  ghost function HandleRecord(env: Env, c: nat, s: Local, kind: byte, j: Json): Local {
    if kind == AUTH_LOGIN then HandleLogin(env, c, s, j)
    else if kind == AUTH_REGISTER then HandleRegister(env, c, s, j)
    else if kind == GROUP_MESSAGE then HandleGroupMessage(env, c, s, j)
    else if IsGroupKind(kind) then HandleGroupPacket(env, c, s, kind, j)
    else HandleDirectPacket(env, c, s, kind, j)
  }

  /** One packet; a throw is caught and what was done before it stands. */
  ghost function Handle(env: Env, c: nat, s: Local, f: Frame): Local {
    match env.parse(f.body)
    case Malformed => s
    case NullBody => HandleNull(c, s, f.kind)
    case Record(j) => HandleRecord(env, c, s, f.kind, j)
  }

  ghost function HandleAll(env: Env, c: nat, s: Local, fs: seq<Frame>): Local
    decreases |fs|
  {
    if fs == [] then s else HandleAll(env, c, Handle(env, c, s, fs[0]), fs[1..])
  }

  // ----- closing and the welcome timer -----

  ghost function Closed(s: Local): Local {
    if s.me.userId == "" then s
    else s.(g := BroadcastStatus(s.g.(sessions := Del(s.g.sessions, s.me.userId)), s.me.userId, s.me.username, false))
  }

  /** The welcome timer's loop over the first k groups: only a member whose
      stored key is not empty is welcomed. */
  function Welcome(env: Env, g: Globals, t: Timer, k: nat): Globals
    requires k <= |g.db.data.groups.keys|
  {
    if k == 0 then g
    else
      var before := Welcome(env, g, t, k - 1);
      var gid := g.db.data.groups.keys[k - 1];
      if gid in g.db.data.members.vals && t.userId in g.db.data.members.vals[gid].vals
         && g.db.data.members.vals[gid].vals[t.userId] != ""
      then SystemMessage(env, before, gid,
                         "\U{1F44B} Welcome to #" + g.db.data.groups.vals[gid].name + ", " + t.username + "!")
      else before
  }
}
