/** What each request does, said of a packet of its type: when it is carried out,
    what it changes, and what is sent to whom. */
module Requests {
  import opened Wrappers
  import opened Framing
  import opened Dicts
  import opened ChatModel
  import opened DbSpec
  import opened DbInvariants
  import opened SessionSpec
  import M = MessageNumbers
  import Effects
  import Undo
  import Broadcast

  /** The packet is a request of the type, with the record as its body. */
  predicate Asks(env: Env, f: Frame, t: M.MessageType, j: Json) {
    f.kind == M.NodeNumber(t) && env.parse(f.body) == Record(j)
  }

  /** What a handler sent: the entries the log grew by. */
  function New(s: Local, s': Local): seq<Sent>
    requires s.g.log <= s'.g.log
  {
    s'.g.log[|s.g.log|..]
  }

  /** Nothing but the log, and the clock, is different. */
  ghost predicate OnlySent(s: Local, s': Local) {
    s.g.log <= s'.g.log && s' == s.(g := s.g.(log := s'.g.log, ticks := s'.g.ticks))
  }

  /** One reply on the connection itself, and nothing else done. */
  ghost predicate JustAnswers(s: Local, s': Local, c: nat, p: Packet) {
    s' == s.(g := s.g.(log := s.g.log + [Sent(c, "", p)]))
  }

  predicate Banned(s: Local) {
    s.me.userId in s.g.db.data.banned
  }

  predicate BannedFrom(d: Data, g: string, u: string) {
    g in d.groupBans && u in d.groupBans[g]
  }

  // ----- login -----

  /** The name is an account's, the password's hash is the stored one, and the
      account is not banned. */
  predicate Admits(env: Env, d: Data, j: Json) {
    && j.username in d.users && j.password.Some?
    && d.users[j.username].passwordHash == env.hash(j.password.value)
    && d.users[j.username].id !in d.banned
  }

  lemma LoginAsExact(env: Env, s: Local, j: Json)
    ensures Effects.LoginAs(env, s, j)
         == if Admits(env, s.g.db.data, j) then Some(s.g.db.data.users[j.username]) else None
  {
  }

  function WithKey(user: User, key: string): User {
    if key != "" then user.(publicKey := key) else user
  }

  /** The connection is logged in to the account, whose key is replaced by the one
      given, if one was; nothing else of the data is different. */
  ghost predicate LoggedIn(s: Local, s': Local, c: nat, user: User, key: string) {
    && s'.me == Ident(user.id, user.username, true, user.isNull, s.me.logins + 1)
    && s'.g.sessions == Put(s.g.sessions, user.id, c) && s'.g.timers == s.g.timers
    && s'.g.db.data == s.g.db.data.(users := s.g.db.data.users[user.username := WithKey(user, key)])
  }

  /** A login is carried out exactly if the name is an account's, the password's
      hash is that account's and the account is not banned. The connection is then
      logged in to that account; its id, name, admin flag and groups are the answer,
      and every other online user is told once. Otherwise nothing changes: a wrong
      name or password and a ban are answered, an absent password is not. */
  lemma LoginExact(env: Env, c: nat, s: Local, f: Frame, j: Json, gid: string, v: string)
    requires DbInv(env, s.g.db) && "" !in s.g.sessions.vals && Asks(env, f, M.AuthLogin, j)
    ensures s.g.log <= Handle(env, c, s, f).g.log
    ensures
      var s', d := Handle(env, c, s, f), s.g.db.data;
      if Admits(env, d, j) then
        var user := WithKey(d.users[j.username], j.publicKey);
        && LoggedIn(s, s', c, d.users[j.username], j.publicKey)
        && Broadcast.Announced(New(s, s'), c, user, gid, Broadcast.NameIfMember(d, gid, user.id), v,
                               v in s.g.sessions.vals && v != user.id)
      else if j.username in d.users && j.password.None? then s' == s
      else
        JustAnswers(s, s', c, AuthError(
          if j.username in d.users && d.users[j.username].passwordHash == env.hash(j.password.value)
          then "You are banned from Nullchat" else "Invalid credentials"))
  {
    M.ServerServes(env, c, s, M.AuthLogin, j);
    LoginAsExact(env, s, j);
    if Admits(env, s.g.db.data, j) {
      var user := s.g.db.data.users[j.username];
      Broadcast.LoginResponseExact(env, c, s, j, gid, v);
      assert HandleLogin(env, c, s, j) == ResumeSession(c, s, user, j.publicKey);
      ResumedExact(env, c, s, user, j.publicKey);
    }
  }

  lemma ResumedExact(env: Env, c: nat, s: Local, user: User, key: string)
    requires DbOk(env, s.g.db) && user.username in s.g.db.data.users && s.g.db.data.users[user.username] == user
    ensures LoggedIn(s, ResumeSession(c, s, user, key), c, user, key)
  {
    NameOfUser(s.g.db.data.users, user.username);
    assert s.g.db.data.users[user.username := user] == s.g.db.data.users;
  }

  // ----- registration -----

  /** Everything but a free name and a password is there. */
  predicate Invited(d: Data, j: Json) {
    j.invitePassword == INVITE_PASSWORD && j.username !in d.banned && j.username != THE_NULL_USER
  }

  /** A registration that is refused is answered with the first reason there is,
      and changes nothing. */
  lemma RegistrationRefusedExact(env: Env, c: nat, s: Local, f: Frame, j: Json)
    requires Asks(env, f, M.AuthRegister, j)
    ensures
      var s', d := Handle(env, c, s, f), s.g.db.data;
      && (!Invited(d, j) ==>
            JustAnswers(s, s', c, AuthError(if j.invitePassword != INVITE_PASSWORD then "Invalid invite password"
                                            else if j.username in d.banned then "Username is banned"
                                            else "Username reserved")))
      && (Invited(d, j) && j.username in d.users ==> JustAnswers(s, s', c, AuthError("Username taken")))
      && (Invited(d, j) && j.username !in d.users && j.password.None? ==>
            s' == s.(g := s.g.(db := s.g.db.(uuids := s.g.db.uuids + 1))))
  {
    M.ServerServes(env, c, s, M.AuthRegister, j);
  }

  /** A registration is otherwise carried out: the account is stored under a new id,
      without admin rights and with the key given; the newcomer is a member, with an
      empty key, of exactly the groups with a default name, and no other membership
      is different; the connection is logged in to the account, keeping its admin
      flag; a welcome is scheduled; the answer and the others' notices are as at login. */
  lemma RegistrationExact(env: Env, c: nat, s: Local, f: Frame, j: Json, gid: string, v: string)
    requires EnvOk(env) && DbInv(env, s.g.db) && "" !in s.g.sessions.vals && Asks(env, f, M.AuthRegister, j)
    requires forall u :: u in s.g.sessions.vals ==> u in Ids(s.g.db.data.users)
    requires Invited(s.g.db.data, j) && j.username !in s.g.db.data.users && j.password.Some?
    ensures s.g.log <= Handle(env, c, s, f).g.log
    ensures
      var s', groups := Handle(env, c, s, f), s.g.db.data.groups.vals;
      var user := User(env.uuid(s.g.db.uuids), j.username, env.hash(j.password.value), j.publicKey, false);
      && Enrolled(s, s', c, user)
      && Broadcast.Announced(New(s, s'), c, user, gid,
                             if gid in groups && groups[gid].name in DEFAULT_GROUPS then [groups[gid].name] else [],
                             v, v in s.g.sessions.vals)
  {
    RegisterServed(env, c, s, f, j);
    Broadcast.RegistrationResponseExact(env, c, s, j, gid, v);
    EnrolledExact(env, c, s, j);
  }

  lemma RegisterServed(env: Env, c: nat, s: Local, f: Frame, j: Json)
    requires Asks(env, f, M.AuthRegister, j)
    ensures Handle(env, c, s, f) == HandleRegister(env, c, s, j)
  {
    M.ServerServes(env, c, s, M.AuthRegister, j);
  }

  ghost predicate Enrolled(s: Local, s': Local, c: nat, user: User) {
    var d, d' := s.g.db.data, s'.g.db.data;
    && user.id !in Ids(d.users)
    && d' == d.(users := d.users[user.username := user], members := d'.members)
    && JoinedDefaults(DEFAULT_GROUPS, d.groups, d.members, d'.members, user.id, d.groups.keys)
    && s'.me == Ident(user.id, user.username, true, s.me.isNull, s.me.logins + 1)
    && s'.g.sessions == Put(s.g.sessions, user.id, c)
    && s'.g.timers == s.g.timers + [Timer(user.id, user.username)]
  }

  lemma EnrolledExact(env: Env, c: nat, s: Local, j: Json)
    requires EnvOk(env) && DbInv(env, s.g.db)
    requires Invited(s.g.db.data, j) && j.username !in s.g.db.data.users && j.password.Some?
    ensures
      Enrolled(s, HandleRegister(env, c, s, j), c,
               User(env.uuid(s.g.db.uuids), j.username, env.hash(j.password.value), j.publicKey, false))
  {
    var id := env.uuid(s.g.db.uuids);
    RegisterExact(env, s.g.db, j.username, j.password.value);
    var db' := RegisterUser(env, s.g.db, j.username, j.password).0;
    assert DbOk(env, db') by {
      RegisterKeeps(env, s.g.db, j.username, j.password);
    }
    var s1 := s.(g := s.g.(db := db'));
    RegisterHandled(env, c, s, j, id);
    EnteredExact(env, c, s1, db'.data.users[j.username], j.publicKey);
    KeyedNewcomer(s.g.db.data.users, db'.data.users[j.username], j.publicKey);
  }

  lemma RegisterHandled(env: Env, c: nat, s: Local, j: Json, id: string)
    requires Invited(s.g.db.data, j) && RegisterUser(env, s.g.db, j.username, j.password).1 == Registered(id)
    ensures
      var db' := RegisterUser(env, s.g.db, j.username, j.password).0;
      HandleRegister(env, c, s, j) == NewSession(c, s.(g := s.g.(db := db')), id, j.username, j.publicKey)
  {
  }

  lemma KeyedNewcomer(users: map<string, User>, user: User, key: string)
    requires user.publicKey == ""
    ensures users[user.username := user][user.username := WithKey(user, key)]
         == users[user.username := user.(publicKey := key)]
  {
  }

  lemma EnteredExact(env: Env, c: nat, s: Local, user: User, key: string)
    requires DbOk(env, s.g.db) && user.username in s.g.db.data.users && s.g.db.data.users[user.username] == user
    ensures
      var s' := NewSession(c, s, user.id, user.username, key);
      && s'.me == Ident(user.id, user.username, true, s.me.isNull, s.me.logins + 1)
      && s'.g.sessions == Put(s.g.sessions, user.id, c)
      && s'.g.timers == s.g.timers + [Timer(user.id, user.username)]
      && s'.g.db.data == s.g.db.data.(users := s.g.db.data.users[user.username := WithKey(user, key)])
  {
    NameOfUser(s.g.db.data.users, user.username);
    assert s.g.db.data.users[user.username := user] == s.g.db.data.users;
  }

  // ----- public keys -----

  /** The key an id has: its account's, or none. */
  ghost predicate HasKey(users: map<string, User>, id: string, key: string) {
    if id in Ids(users) then exists n :: n in users && users[n].id == id && users[n].publicKey == key
    else key == ""
  }

  /** A key request is answered to whoever asks with the id asked for and that id's
      key, and does nothing else. */
  lemma KeyRequestExact(env: Env, c: nat, s: Local, f: Frame, j: Json, key: string)
    requires DbOk(env, s.g.db) && Asks(env, f, M.PubKeyRequest, j) && HasKey(s.g.db.data.users, j.userId, key)
    ensures JustAnswers(s, Handle(env, c, s, f), c, PubKeyResponse(j.userId, key))
  {
    M.ServerServes(env, c, s, M.PubKeyRequest, j);
    KeyOfId(env, s.g.db, j.userId, key);
  }

  lemma KeyOfId(env: Env, b: Db, id: string, key: string)
    requires DbOk(env, b) && HasKey(b.data.users, id, key)
    ensures PublicKeyOf(b.data.users, id) == key
  {
    NameOfNobody(b.data.users, id);
    if id in Ids(b.data.users) {
      var n :| n in b.data.users && b.data.users[n].id == id && b.data.users[n].publicKey == key;
      NameOfUser(b.data.users, n);
    }
  }

  // ----- messages -----

  /** The time a message carries: the one given, or else the clock's. */
  function TimeOf(env: Env, g: Globals, timestamp: int): int {
    if timestamp == 0 then env.now(g.ticks) else timestamp
  }

  /** A direct message reaches exactly the recipient's connection, under the
      sender's own id and name, if the sender is logged in and not banned and the
      recipient online; a banned sender is told so instead; and otherwise nothing is done. */
  lemma DirectMessageExact(env: Env, c: nat, s: Local, f: Frame, j: Json)
    requires Asks(env, f, M.TextMessage, j)
    ensures
      var s' := Handle(env, c, s, f);
      if !s.me.authenticated || j.recipientId !in s.g.sessions.vals then s' == s
      else if Banned(s) then JustAnswers(s, s', c, ErrorPacket("You are banned from Nullchat"))
      else
        && OnlySent(s, s') && s'.g.ticks == s.g.ticks + (if j.timestamp == 0 then 1 else 0)
        && New(s, s') == [Sent(s.g.sessions.vals[j.recipientId], j.recipientId,
                               TextMessage(s.me.userId, s.me.username, j.content, j.encrypted,
                                                  TimeOf(env, s.g, j.timestamp)))]
  {
    M.ServerServes(env, c, s, M.TextMessage, j);
  }

  /** A relay passes one packet, marked as the sender's own, to the target's
      connection, if the sender is logged in and the target online. */
  lemma RelaysExact(env: Env, c: nat, s: Local, f: Frame, j: Json, t: M.MessageType)
    requires Asks(env, f, t, j) && (t.P2POffer? || t.P2PAnswer? || t.P2PICECandidate?)
    ensures
      var s' := Handle(env, c, s, f);
      if !s.me.authenticated || j.targetId !in s.g.sessions.vals then s' == s
      else
        && OnlySent(s, s') && s'.g.ticks == s.g.ticks
        && New(s, s') == [Sent(s.g.sessions.vals[j.targetId], j.targetId,
                               match t
                               case P2POffer => P2POffer(s.me.userId, s.me.username, j.sdp, j.p2pPublicKey)
                               case P2PAnswer => P2PAnswer(s.me.userId, j.sdp, j.p2pPublicKey)
                               case _ => P2PIce(s.me.userId, j.candidate))]
  {
    M.ServerServes(env, c, s, t, j);
  }

  /** The sender may post in the group. */
  predicate MaySpeak(s: Local, g: string) {
    s.me.authenticated && !Banned(s) && !BannedFrom(s.g.db.data, g, s.me.userId)
  }

  /** Who may not post is told why, if logged in, and nothing else is done. */
  lemma PostRefusedExact(env: Env, c: nat, s: Local, f: Frame, j: Json)
    requires Asks(env, f, M.GroupMessage, j) && !MaySpeak(s, j.groupId)
    ensures
      var s' := Handle(env, c, s, f);
      if !s.me.authenticated then s' == s
      else JustAnswers(s, s', c, ErrorPacket(if Banned(s) then "You are banned from Nullchat"
                                             else "You are banned from this group"))
  {
    M.ServerServes(env, c, s, M.GroupMessage, j);
  }

  /** The text says the name with an '@' before it somewhere. */
  ghost predicate Mentions(text: string, name: string) {
    exists a, b :: text == a + ("@" + name) + b
  }

  lemma ContainsExact(text: string, pattern: string)
    ensures Contains(text, pattern) <==> exists a, b :: text == a + pattern + b
  {
    if Contains(text, pattern) {
      var i: nat :| i <= |text| && OccursAt(text, pattern, i);
      assert text == text[..i] + pattern + text[i + |pattern|..];
    }
    if exists a, b :: text == a + pattern + b {
      var a, b :| text == a + pattern + b;
      assert OccursAt(text, pattern, |a|);
    }
  }

  /** The text of an admin that begins with a slash is a command; all else is posted. */
  predicate IsPost(s: Local, j: Json) {
    !(s.me.isNull && j.content.Some? && |j.content.value| > 0 && j.content.value[0] == '/')
  }

  /** A post as its readers get it, and a mention in it. */
  function Posted(env: Env, s: Local, j: Json): Packet {
    GroupMessage(s.me.userId, s.me.username, j.content, j.encrypted, TimeOf(env, s.g, j.timestamp), j.groupId)
  }

  function Mentioning(s: Local, j: Json): Packet {
    Mention(s.me.userId, s.me.username, j.groupId,
            if j.groupId in s.g.db.data.groups.vals then s.g.db.data.groups.vals[j.groupId].name else "",
            j.content)
  }

  lemma PacketsExact(env: Env, s: Local, j: Json)
    ensures Broadcast.PostPacket(env, s, j) == Posted(env, s, j) && Broadcast.MentionPacket(s, j) == Mentioning(s, j)
  {
  }

  lemma MaySpeakExact(s: Local, g: string)
    ensures Effects.MayPost(s, g) <==> MaySpeak(s, g)
  {
  }

  /** Group broadcast is exact. A post that is no command of an admin's sends each
      online member but the sender exactly one message, followed by one mention
      exactly if '@' and their username occur in the text, and nothing to anyone
      else. Without a text it sends one message, to the first of these members
      only, and from a connection with admin rights none. */
  lemma PostExact(env: Env, c: nat, s: Local, f: Frame, j: Json, n: string)
    requires DbOk(env, s.g.db) && n in s.g.db.data.users && Asks(env, f, M.GroupMessage, j)
    requires MaySpeak(s, j.groupId) && IsPost(s, j)
    ensures
      var s', u := Handle(env, c, s, f), s.g.db.data.users[n].id;
      var members, due := GroupMembers(s.g.db.data, j.groupId), Broadcast.DueFor(s, j);
      && OnlySent(s, s')
      && s'.g.ticks == s.g.ticks + (if j.timestamp == 0 && !(s.me.isNull && j.content.None?) then 1 else 0)
      && (u in due <==> u in members && u != s.me.userId && u in s.g.sessions.vals)
      && Broadcast.Received(New(s, s'), u) ==
           (match j.content
            case Some(text) =>
              if u in due then [Posted(env, s, j)] + (if Mentions(text, n) then [Mentioning(s, j)] else []) else []
            case None => if !s.me.isNull && due != [] && u == due[0] then [Posted(env, s, j)] else [])
      && Broadcast.AllForMembers(s.g, s.me, members, Posted(env, s, j), Mentioning(s, j), New(s, s'))
  {
    M.ServerServes(env, c, s, M.GroupMessage, j);
    PostHandled(env, c, s, j);
    PacketsExact(env, s, j);
    MaySpeakExact(s, j.groupId);
    if j.content.Some? {
      ContainsExact(j.content.value, "@" + n);
    }
    Broadcast.GroupBroadcastExact(env, c, s, j, n);
  }

  lemma PostHandled(env: Env, c: nat, s: Local, j: Json)
    requires MaySpeak(s, j.groupId) && IsPost(s, j)
    ensures
      var s' := HandleGroupMessage(env, c, s, j);
      && OnlySent(s, s')
      && s'.g.ticks == s.g.ticks + (if j.timestamp == 0 && !(s.me.isNull && j.content.None?) then 1 else 0)
  {
  }

  // ----- groups -----

  /** A creation makes a new group under a new id, the asker its owner and only
      member, and is answered with the id and the name; a banned asker is told so. */
  lemma CreateExact(env: Env, c: nat, s: Local, f: Frame, j: Json)
    requires EnvOk(env) && DbInv(env, s.g.db) && Asks(env, f, M.CreateGroup, j)
    ensures
      var s', d := Handle(env, c, s, f), s.g.db.data;
      var d', id := s'.g.db.data, env.uuid(s.g.db.uuids);
      if !s.me.authenticated then s' == s
      else if Banned(s) then JustAnswers(s, s', c, ErrorPacket("You are banned"))
      else
        && id !in d.groups.vals && id !in d.members.vals
        && s' == s.(g := s.g.(db := s'.g.db, log := s.g.log + [Sent(c, "", GroupCreated(id, j.name))]))
        && d' == d.(groups := d'.groups, members := d'.members)
        && d'.groups == Put(d.groups, id, Group(id, j.name, s.me.userId))
        && d'.members.vals == d.members.vals[id := Put(Empty<string>(), s.me.userId, "")]
  {
    M.ServerServes(env, c, s, M.CreateGroup, j);
    if s.me.authenticated && !Banned(s) {
      CreatedExact(env, s.g.db, j.name, s.me.userId);
    }
  }

  lemma CreatedExact(env: Env, b: Db, name: string, owner: string)
    requires DbOk(env, b)
    ensures
      var id, d' := env.uuid(b.uuids), DbSpec.CreateGroup(env, b, name, owner).data;
      && id !in b.data.groups.vals && id !in b.data.members.vals
      && d' == b.data.(groups := Put(b.data.groups, id, Group(id, name, owner)), members := d'.members)
      && d'.members.vals == b.data.members.vals[id := Put(Empty<string>(), owner, "")]
  {
    Undo.CreatedData(env, b, name, owner);
  }

  /** A join is answered ok exactly if the asker is logged in and not banned from the
      group, and then stores exactly the key given as the asker's, and changes no
      other entry of any table, exactly if the group exists; who is banned from it is
      told so. */
  lemma JoinExact(env: Env, c: nat, s: Local, f: Frame, j: Json, g: string, u: string)
    requires DbInv(env, s.g.db) && Asks(env, f, M.JoinGroup, j)
    ensures
      var s', d := Handle(env, c, s, f), s.g.db.data;
      var d' := s'.g.db.data;
      if !s.me.authenticated then s' == s
      else if BannedFrom(d, j.groupId, s.me.userId) then
        JustAnswers(s, s', c, ErrorPacket("You are banned from this group"))
      else
        && s' == s.(g := s.g.(db := s'.g.db, log := s.g.log + [Sent(c, "", GroupJoined(j.groupId))]))
        && d' == d.(members := d'.members)
        && EntryOf(d', g, u) == if g == j.groupId && u == s.me.userId && g in d.groups.vals then Some(j.encryptedKey)
                                else EntryOf(d, g, u)
  {
    M.ServerServes(env, c, s, M.JoinGroup, j);
  }

  /** An admin's renaming of an existing group changes its name alone and is
      announced to its online members; without rights or group nothing is done. */
  lemma RenameExact(env: Env, c: nat, s: Local, f: Frame, j: Json, v: string)
    requires Asks(env, f, M.RenameGroup, j)
    ensures
      var s', d := Handle(env, c, s, f), s.g.db.data;
      var d', g := s'.g.db.data, j.groupId;
      if !s.me.authenticated || !s.me.isNull || g !in d.groups.vals then s' == s
      else
        && s.g.log <= s'.g.log && s'.me == s.me && s'.g.sessions == s.g.sessions && s'.g.timers == s.g.timers
        && d' == d.(groups := Put(d.groups, g, d.groups.vals[g].(name := j.name)))
        && Broadcast.Received(New(s, s'), v)
           == (if g in d.members.vals && v in d.members.vals[g].vals && v in s.g.sessions.vals
               then [GroupMessage(SYSTEM_ID, SYSTEM_USER, Some("channel renamed to #" + j.name + " by TheNull"),
                                         false, env.now(s.g.ticks), g)]
               else [])
  {
    M.ServerServes(env, c, s, M.RenameGroup, j);
    Broadcast.SystemMessageExact(env, s.g.(db := DbSpec.RenameGroup(s.g.db, j.groupId, j.name)), j.groupId,
                                 "channel renamed to #" + j.name + " by TheNull", v);
  }

  /** An admin's deletion takes away the group and its table, and nothing is said. */
  lemma DeleteExact(env: Env, c: nat, s: Local, f: Frame, j: Json)
    requires Asks(env, f, M.DeleteGroup, j)
    ensures
      var s', d := Handle(env, c, s, f), s.g.db.data;
      var d' := s'.g.db.data;
      if !s.me.authenticated || !s.me.isNull || j.groupId !in d.groups.vals then s' == s
      else
        && s' == s.(g := s.g.(db := s'.g.db))
        && d' == d.(groups := d'.groups, members := d'.members)
        && d'.groups.vals == d.groups.vals - {j.groupId} && d'.members.vals == d.members.vals - {j.groupId}
  {
    M.ServerServes(env, c, s, M.DeleteGroup, j);
  }

  // ----- everything else -----

  /** A ping is answered to anyone. */
  lemma PingExact(env: Env, c: nat, s: Local, f: Frame, j: Json)
    requires Asks(env, f, M.Ping, j)
    ensures JustAnswers(s, Handle(env, c, s, f), c, Pong)
  {
    M.ServerServes(env, c, s, M.Ping, j);
  }

  /** The types that are requests to the server. */
  predicate Serves(t: M.MessageType) {
    || t.AuthLogin? || t.AuthRegister? || t.TextMessage? || t.GroupMessage? || t.CreateGroup? || t.JoinGroup?
    || t.P2POffer? || t.P2PAnswer? || t.P2PICECandidate? || t.PubKeyRequest? || t.RenameGroup? || t.DeleteGroup?
    || t.Ping?
  }

  ghost predicate NumbersRequest(kind: byte) {
    exists t :: Serves(t) && M.NodeNumber(t) == kind
  }

  /** A number that is no request's, and a body that does not parse, do nothing. */
  lemma IgnoredExact(env: Env, c: nat, s: Local, f: Frame)
    requires env.parse(f.body).Malformed? || (env.parse(f.body).Record? && !NumbersRequest(f.kind))
    ensures Handle(env, c, s, f) == s
  {
    match env.parse(f.body)
    case Record(j) =>
      RequestNumbers(f.kind);
      NoRequest(env, c, s, f.kind, j);
    case _ =>
  }

  lemma RequestNumbers(kind: byte)
    requires !NumbersRequest(kind)
    ensures kind > 6 || kind == 2
    ensures kind !in {9, 10, 11, 13, 18, 20, 21}
  {
    assert Serves(M.AuthLogin) && Serves(M.AuthRegister) && Serves(M.TextMessage) && Serves(M.GroupMessage);
    assert Serves(M.CreateGroup) && Serves(M.JoinGroup) && Serves(M.P2POffer) && Serves(M.P2PAnswer);
    assert Serves(M.P2PICECandidate) && Serves(M.PubKeyRequest) && Serves(M.RenameGroup) && Serves(M.DeleteGroup);
    assert Serves(M.Ping);
  }

  lemma NoRequest(env: Env, c: nat, s: Local, kind: byte, j: Json)
    requires (kind > 6 || kind == 2) && kind !in {9, 10, 11, 13, 18, 20, 21}
    ensures HandleRecord(env, c, s, kind, j) == s
  {
  }

  /** The body null does what any record would where the handler needs no field of
      it, and nothing elsewhere. */
  lemma NullBodyExact(env: Env, c: nat, s: Local, f: Frame, j: Json)
    requires env.parse(f.body).NullBody?
    ensures Handle(env, c, s, f) ==
              if f.kind == M.NodeNumber(M.Ping)
                 || (f.kind in [M.NodeNumber(M.GroupMessage), M.NodeNumber(M.CreateGroup)]
                     && s.me.authenticated && Banned(s))
              then HandleRecord(env, c, s, f.kind, j) else s
  {
    M.ServerServes(env, c, s, M.Ping, j);
    M.ServerServes(env, c, s, M.GroupMessage, j);
    M.ServerServes(env, c, s, M.CreateGroup, j);
  }
}
