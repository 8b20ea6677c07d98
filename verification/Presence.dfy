/** Coming, being someone, and going: which connection is whose and why, what is
    told of it, and what follows for names and keys over whole runs. */
module Presence {
  import opened Wrappers
  import opened Framing
  import opened Dicts
  import opened ChatModel
  import opened DbSpec
  import opened DbInvariants
  import opened SessionSpec
  import opened World
  import opened Invariants
  import opened Requests
  import M = MessageNumbers
  import Broadcast
  import Effects
  import Rights
  import Safety
  import Seeding

  // ----- going -----

  /** Closing an open connection that is logged in as u ends u's entry and tells
      every other online user, once, that u is offline, under the connection's
      username and with u's key; no one else is told anything. Closing one that is
      nobody's tells nobody. */
  lemma CloseExact(env: Env, w: State, c: nat, key: string, v: string)
    requires Inv(env, w) && Live(w, c) && HasKey(w.g.db.data.users, w.conns[c].me.userId, key)
    ensures
      var w', me := Step(env, w, Close(c)), w.conns[c].me;
      && w' == w.(g := w'.g, conns := w.conns[c := w.conns[c].(open := false)])
      && w.g.log <= w'.g.log && w'.g == w.g.(sessions := w'.g.sessions, log := w'.g.log)
      && (if me.authenticated then
            && w'.g.sessions.vals == w.g.sessions.vals - {me.userId}
            && Broadcast.Received(w'.g.log[|w.g.log|..], v)
               == (if v in w.g.sessions.vals && v != me.userId then [UserOffline(me.userId, me.username, key)] else [])
            && (forall i :: |w.g.log| <= i < |w'.g.log| ==> ToAnother(w.g.sessions, me.userId, w'.g.log[i]))
          else w'.g == w.g)
  {
    NoUserUnnamed(env, w.g.db);
    var me := w.conns[c].me;
    if me.authenticated {
      var g := w.g.(sessions := Del(w.g.sessions, me.userId));
      KeyOfId(env, w.g.db, me.userId, key);
      Broadcast.StatusExact(g, me.userId, me.username, false, v);
      OfflineToOthers(g, me, key);
    }
  }

  /** The entry is routed to an online user other than u, on their connection. */
  ghost predicate ToAnother(sessions: Dict<nat>, u: string, e: Sent) {
    e.via in sessions.vals && e.via != u && e.conn == sessions.vals[e.via]
  }

  lemma OfflineToOthers(g: Globals, me: Ident, key: string)
    requires PublicKeyOf(g.db.data.users, me.userId) == key
    ensures
      var log := BroadcastStatus(g, me.userId, me.username, false).log;
      g.log <= log && forall i :: |g.log| <= i < |log| ==> ToAnother(g.sessions, me.userId, log[i])
  {
    var p := UserOffline(me.userId, me.username, key);
    FanoutToOthers(g.sessions.keys, g.sessions, me.userId, p, |g.sessions.keys|);
  }

  lemma {:induction false} FanoutToOthers(users: seq<string>, sessions: Dict<nat>, u: string, p: Packet, k: nat)
    requires k <= |users|
    ensures forall e :: e in Fanout(users, sessions, Some(u), p, k) ==> ToAnother(sessions, u, e)
  {
    if k > 0 {
      FanoutToOthers(users, sessions, u, p, k - 1);
    }
  }

  // ----- who a connection is -----

  /** The packet a dispatch on c handles. */
  function Incoming(w: State, c: nat): Option<Frame> {
    match NextPacket(w, c) case Some(p) => Some(Frame(p.kind, p.body)) case None => None
  }

  /** The step handles, on c, a login to u's account with a password of its hash. */
  ghost predicate LogsIn(env: Env, w: State, e: Event, c: nat, u: string) {
    && e == Dispatch(c) && Incoming(w, c).Some?
    && exists j :: LoginTo(env, w.g.db.data, Incoming(w, c).value, j, u)
  }

  ghost predicate LoginTo(env: Env, d: Data, f: Frame, j: Json, u: string) {
    Asks(env, f, M.AuthLogin, j) && Admits(env, d, j) && d.users[j.username].id == u
  }

  predicate Is(w: State, c: nat, u: string) {
    c in w.conns && w.conns[c].me.userId == u
  }

  /** A connection becomes an existing user's by such a login only... */
  lemma BecomesByLogin(env: Env, w: State, e: Event, c: nat, u: string)
    requires EnvOk(env) && Inv(env, w) && u in Ids(w.g.db.data.users)
    requires !Is(w, c, u) && Is(Step(env, w, e), c, u)
    ensures LogsIn(env, w, e, c, u)
  {
    NoUserUnnamed(env, w.g.db);
    match e
    case Dispatch(x) =>
      if Incoming(w, x).Some? {
        var s, f := LocalOf(w, x), Incoming(w, x).value;
        Effects.HandleSessions(env, x, s, f);
        AuthenticatedBy(env, s, f, u);
      }
    case _ =>
  }

  /** An authentication as someone who has an account is a login to it. */
  lemma AuthenticatedBy(env: Env, s: Local, f: Frame, u: string)
    requires EnvOk(env) && DbInv(env, s.g.db) && u in Ids(s.g.db.data.users)
    requires Effects.Authenticates(env, s, f) == Some(u)
    ensures exists j :: LoginTo(env, s.g.db.data, f, j, u)
  {
    var j := env.parse(f.body).json;
    LoginAsExact(env, s, j);
    if f.kind == AUTH_LOGIN {
      assert LoginTo(env, s.g.db.data, f, j, u);
    } else {
      RegisterExact(env, s.g.db, j.username, j.password.value);
    }
  }

  /** ...and does become theirs by it. */
  lemma LoginBecomes(env: Env, w: State, e: Event, c: nat, u: string)
    requires EnvOk(env) && Inv(env, w) && LogsIn(env, w, e, c, u)
    ensures Is(Step(env, w, e), c, u)
  {
    NoUserUnnamed(env, w.g.db);
    var j :| LoginTo(env, w.g.db.data, Incoming(w, c).value, j, u);
    LoginExact(env, c, LocalOf(w, c), Incoming(w, c).value, j, "", "");
  }

  /** Over whole runs: whatever was sent, a connection that ends up as a user who
      had an account became so at some step by a login with a password of the hash
      stored for them. */
  lemma {:induction false} IdentityEarned(env: Env, w: State, events: seq<Event>, c: nat, u: string) returns (i: nat)
    requires EnvOk(env) && Inv(env, w) && u in Ids(w.g.db.data.users)
    requires !Is(w, c, u) && Is(Run(env, w, events), c, u)
    ensures i < |events| && LogsIn(env, Run(env, w, events[..i]), events[i], c, u)
    decreases |events|
  {
    var w1 := Step(env, w, events[0]);
    if Is(w1, c, u) {
      BecomesByLogin(env, w, events[0], c, u);
      i := 0;
    } else {
      StepKeeps(env, w, events[0]);
      StepKeepsIds(env, w, events[0]);
      var k := IdentityEarned(env, w1, events[1..], c, u);
      i := k + 1;
      assert events[..i][0] == events[0] && events[..i][1..] == events[1..][..k];
    }
  }

  lemma StepKeepsIds(env: Env, w: State, e: Event)
    requires EnvOk(env) && Inv(env, w)
    ensures Ids(w.g.db.data.users) <= Ids(Step(env, w, e).g.db.data.users)
  {
    Safety.StepDb(env, w, e);
    if e.Restart? {
      SeedKeepsIds(env, w.g.db);
    } else {
      ApplyKeeps(env, w.g.db, Safety.StepOp(env, w, e));
    }
  }

  lemma SeedKeepsIds(env: Env, b: Db)
    requires EnvOk(env) && DbOk(env, b)
    ensures Ids(b.data.users) <= Ids(Seed(env, b).data.users)
  {
    Seeding.SeedExact(env, b);
    if THE_NULL_USER !in b.data.users {
      IdsOfNew(b.data.users, THE_NULL_USER, Seed(env, b).data.users[THE_NULL_USER]);
    }
  }

  // ----- accounts and the admin -----

  /** The name's account is the same but for its key. */
  predicate SameAccount(users: map<string, User>, users': map<string, User>, n: string) {
    n in users && n in users' && users'[n] == users[n].(publicKey := users'[n].publicKey)
  }

  lemma StepKeepsAccount(env: Env, w: State, e: Event, n: string)
    requires EnvOk(env) && Inv(env, w) && n in w.g.db.data.users
    ensures SameAccount(w.g.db.data.users, Step(env, w, e).g.db.data.users, n)
  {
    Safety.StepDb(env, w, e);
    if e.Restart? {
      Seeding.SeedExact(env, w.g.db);
    } else {
      ApplyKeepsAccount(env, w.g.db, Safety.StepOp(env, w, e), n);
    }
  }

  lemma ApplyKeepsAccount(env: Env, b: Db, op: Effects.Op, n: string)
    requires EnvOk(env) && DbOk(env, b) && n in b.data.users
    ensures SameAccount(b.data.users, Effects.Apply(env, b, op).data.users, n)
  {
    match op
    case SetKey(v, k) => SetKeyKeepsAccount(b, v, k, n);
    case Register(name, password, k) => RegisterKeepsAccount(env, b, name, password, k, n);
    case _ => Rights.OtherOpsKeepUsers(env, b, op);
  }

  lemma SetKeyKeepsAccount(b: Db, v: string, key: string, n: string)
    requires n in b.data.users
    ensures SameAccount(b.data.users, Effects.SetKeyIf(b, v, key).data.users, n)
  {
  }

  lemma RegisterKeepsAccount(env: Env, b: Db, name: string, password: Option<string>, key: string, n: string)
    requires EnvOk(env) && DbOk(env, b) && n in b.data.users
    ensures SameAccount(b.data.users, Effects.Apply(env, b, Effects.Register(name, password, key)).data.users, n)
  {
    if name !in b.data.users && password.Some? {
      RegisterExact(env, b, name, password.value);
      var (b', r) := RegisterUser(env, b, name, password);
      SetKeyKeepsAccount(b', r.id, key, n);
    }
  }

  lemma {:induction false} RunKeepsAccount(env: Env, w: State, events: seq<Event>, n: string)
    requires EnvOk(env) && Inv(env, w) && n in w.g.db.data.users
    ensures SameAccount(w.g.db.data.users, Run(env, w, events).g.db.data.users, n)
    decreases |events|
  {
    if events != [] {
      StepKeeps(env, w, events[0]);
      StepKeepsAccount(env, w, events[0], n);
      RunKeepsAccount(env, Step(env, w, events[0]), events[1..], n);
    }
  }

  /** An account lasts. After any run, restarts included, a login under its name is
      carried out exactly for a password of the hash it had at the start and while
      it is not banned, and gives its id and rights. */
  lemma AccountLasts(env: Env, w: State, events: seq<Event>, c: nat, j: Json)
    requires EnvOk(env) && Inv(env, w) && j.username in w.g.db.data.users && j.password.Some?
    requires
      var v := Run(env, w, events);
      Incoming(v, c).Some? && Asks(env, Incoming(v, c).value, M.AuthLogin, j)
    ensures LoginDecided(env, Run(env, w, events), c, j, w.g.db.data.users[j.username])
  {
    var v := Run(env, w, events);
    RunKeeps(env, w, events);
    RunKeepsAccount(env, w, events, j.username);
    LoginIsDecided(env, v, c, j);
  }

  /** Handled on c, the login becomes the user exactly for a password of their hash
      and while they are not banned, and is otherwise just answered with the reason. */
  ghost predicate LoginDecided(env: Env, v: State, c: nat, j: Json, user: User)
    requires Incoming(v, c).Some? && j.password.Some?
  {
    var v', right := Step(env, v, Dispatch(c)), env.hash(j.password.value) == user.passwordHash;
    if right && user.id !in v.g.db.data.banned
    then v'.conns[c].me == Ident(user.id, user.username, true, user.isNull, v.conns[c].me.logins + 1)
    else
      && v'.conns[c].me == v.conns[c].me
      && v'.g == v.g.(log := v.g.log + [Sent(c, "", AuthError(if right then "You are banned from Nullchat"
                                                               else "Invalid credentials"))])
  }

  lemma LoginIsDecided(env: Env, v: State, c: nat, j: Json)
    requires EnvOk(env) && Inv(env, v) && j.username in v.g.db.data.users && j.password.Some?
    requires Incoming(v, c).Some? && Asks(env, Incoming(v, c).value, M.AuthLogin, j)
    ensures LoginDecided(env, v, c, j, v.g.db.data.users[j.username])
  {
    NoUserUnnamed(env, v.g.db);
    LoginExact(env, c, LocalOf(v, c), Incoming(v, c).value, j, "", "");
  }

  /** A server started on the empty store has an admin to log in as: its account is
      TheNull's, with the set password's hash, and so lasts. */
  lemma AdminOfEmptyStore(env: Env)
    requires EnvOk(env)
    ensures
      var w := Boot(env, EMPTY_STORE, 0);
      && Inv(env, w) && w.g.db.data.banned == []
      && w.g.db.data.users
         == map[THE_NULL_USER := User(NULL_ID, THE_NULL_USER, env.hash(THE_NULL_PASSWORD), "", true)]
  {
    var b := Db(EMPTY_STORE, EMPTY_STORE, 0);
    EmptyStoreWellFormed(env);
    BootGood(env, EMPTY_STORE, 0);
    Seeding.SeedExact(env, b);
    Safety.SeedKeepsBans(env, b);
  }

  const EMPTY_STORE := Data(map[], Empty<Group>(), Empty<Members>(), [], map[])

  /** After seeding there is a group named general to find. */
  lemma SeededHasGeneral(env: Env, b: Db)
    requires EnvOk(env) && DbOk(env, b) && BansDisjoint(b.data)
    ensures exists g :: IsGeneral(Seed(env, b).data, g)
  {
    var d := Seed(env, b).data;
    SeedKeeps(env, b);
    Seeding.SeedExact(env, b);
    GeneralExact(d);
    GeneralIsDefault();
    assert GENERAL_GROUP in GroupNames(d.groups);
    assert IsGeneral(d, General(d));
  }

  lemma GeneralIsDefault()
    ensures GENERAL_GROUP in DEFAULT_GROUPS
  {
    assert DEFAULT_GROUPS[0] == GENERAL_GROUP;
  }

  // ----- names -----

  /** A logged-in connection's username is its user's. */
  ghost predicate NameOk(users: map<string, User>, me: Ident) {
    me.authenticated ==> me.username in users && users[me.username].id == me.userId
  }

  ghost predicate NamesMatch(w: State) {
    forall c :: c in w.conns ==> NameOk(w.g.db.data.users, w.conns[c].me)
  }

  /** So messages always carry the name of the user they are from: every step, and
      every run, keeps connections' usernames those of their users. */
  lemma StepKeepsNames(env: Env, w: State, e: Event)
    requires EnvOk(env) && Inv(env, w) && NamesMatch(w)
    ensures NamesMatch(Step(env, w, e))
  {
    match e
    case Dispatch(c) =>
      if Incoming(w, c).Some? {
        var s, f := LocalOf(w, c), Incoming(w, c).value;
        Effects.HandleDb(env, c, s, f);
        Rights.ApplyKeepsAccounts(env, s.g.db, Effects.Effect(env, s, f));
        OwnNameKept(env, c, s, f);
        OthersKeepNames(w, c, Handle(env, c, s, f), w.conns[c].buffer[NextPacket(w, c).value.total..]);
      }
    case Fire =>
      if w.g.timers != [] {
        WelcomeKeepsDb(env, w.g, w.g.timers[0], |w.g.db.data.groups.keys|);
      }
    case _ =>
  }

  lemma OthersKeepNames(w: State, c: nat, s': Local, buffer: seq<byte>)
    requires NamesMatch(w) && Rights.AccountsKept(w.g.db.data.users, s'.g.db.data.users)
    requires NameOk(s'.g.db.data.users, s'.me)
    ensures NamesMatch(w.(g := s'.g, conns := w.conns[c := Conn(s'.me, buffer, true)]))
  {
  }

  lemma OwnNameKept(env: Env, c: nat, s: Local, f: Frame)
    requires EnvOk(env) && DbInv(env, s.g.db) && NameOk(s.g.db.data.users, s.me)
    ensures NameOk(Handle(env, c, s, f).g.db.data.users, Handle(env, c, s, f).me)
  {
    Effects.HandleDb(env, c, s, f);
    Rights.ApplyKeepsAccounts(env, s.g.db, Effects.Effect(env, s, f));
    Effects.HandleSessions(env, c, s, f);
    if Effects.Authenticates(env, s, f).Some? {
      NewNameOk(env, c, s, f);
    }
  }

  lemma NewNameOk(env: Env, c: nat, s: Local, f: Frame)
    requires EnvOk(env) && DbInv(env, s.g.db) && Effects.Authenticates(env, s, f).Some?
    ensures NameOk(Handle(env, c, s, f).g.db.data.users, Handle(env, c, s, f).me)
  {
    var j := env.parse(f.body).json;
    LoginAsExact(env, s, j);
    if f.kind == AUTH_LOGIN {
      ResumedExact(env, c, s, s.g.db.data.users[j.username], j.publicKey);
    } else {
      EnrolledExact(env, c, s, j);
    }
  }

  lemma {:induction false} RunKeepsNames(env: Env, w: State, events: seq<Event>)
    requires EnvOk(env) && Inv(env, w) && NamesMatch(w)
    ensures NamesMatch(Run(env, w, events))
    decreases |events|
  {
    if events != [] {
      StepKeeps(env, w, events[0]);
      StepKeepsNames(env, w, events[0]);
      RunKeepsNames(env, Step(env, w, events[0]), events[1..]);
    }
  }

  // ----- keys -----

  /** The step handles a login to u's account that gives a key. */
  ghost predicate GivesKey(env: Env, w: State, e: Event, u: string) {
    && e.Dispatch? && Incoming(w, e.c).Some?
    && exists j :: LoginTo(env, w.g.db.data, Incoming(w, e.c).value, j, u) && j.publicKey != ""
  }

  ghost predicate NeverGivesKey(env: Env, w: State, events: seq<Event>, u: string)
    decreases |events|
  {
    events == [] || (!GivesKey(env, w, events[0], u) && NeverGivesKey(env, Step(env, w, events[0]), events[1..], u))
  }

  /** u has an account, and this key. */
  ghost predicate KeyIs(users: map<string, User>, u: string, key: string) {
    exists n :: n in users && users[n].id == u && users[n].publicKey == key
  }

  lemma ApplyKeepsKey(env: Env, b: Db, op: Effects.Op, u: string, key: string)
    requires EnvOk(env) && DbInv(env, b) && KeyIs(b.data.users, u, key)
    requires op.SetKey? && op.user == u ==> op.key == ""
    requires op.Register? ==> op.name != THE_NULL_USER
    ensures KeyIs(Effects.Apply(env, b, op).data.users, u, key)
  {
    match op
    case SetKey(v, k) =>
      var n :| n in b.data.users && b.data.users[n].id == u && b.data.users[n].publicKey == key;
      OtherKeyKept(env, b, v, k, n);
    case Register(name, password, k) => RegisterKeepsKey(env, b, name, password, k, u, key);
    case _ => Rights.OtherOpsKeepUsers(env, b, op);
  }

  lemma RegisterKeepsKey(env: Env, b: Db, name: string, password: Option<string>, k: string, u: string, key: string)
    requires EnvOk(env) && DbInv(env, b) && KeyIs(b.data.users, u, key) && name != THE_NULL_USER
    ensures KeyIs(Effects.Apply(env, b, Effects.Register(name, password, k)).data.users, u, key)
  {
    var n :| n in b.data.users && b.data.users[n].id == u && b.data.users[n].publicKey == key;
    if name !in b.data.users && password.Some? {
      RegisterExact(env, b, name, password.value);
      RegisterKeeps(env, b, name, password);
      var (b', r) := RegisterUser(env, b, name, password);
      OtherKeyKept(env, b', r.id, k, n);
    }
  }

  lemma OtherKeyKept(env: Env, b: Db, v: string, key: string, n: string)
    requires DbOk(env, b) && n in b.data.users && (b.data.users[n].id != v || key == "")
    ensures n in Effects.SetKeyIf(b, v, key).data.users
    ensures Effects.SetKeyIf(b, v, key).data.users[n] == b.data.users[n]
  {
    NameOfNobody(b.data.users, v);
  }

  lemma StepKeepsKey(env: Env, w: State, e: Event, u: string, key: string)
    requires EnvOk(env) && Inv(env, w) && KeyIs(w.g.db.data.users, u, key) && !GivesKey(env, w, e, u)
    ensures KeyIs(Step(env, w, e).g.db.data.users, u, key)
  {
    Safety.StepDb(env, w, e);
    if e.Restart? {
      SeedKeepsKey(env, w.g.db, u, key);
    } else {
      SetKeyGives(env, w, e, u);
      ApplyKeepsKey(env, w.g.db, Safety.StepOp(env, w, e), u, key);
    }
  }

  lemma SeedKeepsKey(env: Env, b: Db, u: string, key: string)
    requires EnvOk(env) && DbInv(env, b) && KeyIs(b.data.users, u, key)
    ensures KeyIs(Seed(env, b).data.users, u, key)
  {
    var n :| n in b.data.users && b.data.users[n].id == u && b.data.users[n].publicKey == key;
    Seeding.SeedExact(env, b);
    assert n in Seed(env, b).data.users && Seed(env, b).data.users[n] == b.data.users[n];
  }

  lemma SetKeyGives(env: Env, w: State, e: Event, u: string)
    requires !GivesKey(env, w, e, u)
    ensures var op := Safety.StepOp(env, w, e); op.SetKey? && op.user == u ==> op.key == ""
  {
    var op := Safety.StepOp(env, w, e);
    if op.SetKey? && op.user == u && op.key != "" {
      var f := Incoming(w, e.c).value;
      var j := env.parse(f.body).json;
      LoginAsExact(env, LocalOf(w, e.c), j);
      assert LoginTo(env, w.g.db.data, f, j, u) && j.publicKey != "";
    }
  }

  lemma {:induction false} RunKeepsKey(env: Env, w: State, events: seq<Event>, u: string, key: string)
    requires EnvOk(env) && Inv(env, w) && KeyIs(w.g.db.data.users, u, key) && NeverGivesKey(env, w, events, u)
    ensures KeyIs(Run(env, w, events).g.db.data.users, u, key)
    decreases |events|
  {
    if events != [] {
      StepKeeps(env, w, events[0]);
      StepKeepsKey(env, w, events[0], u, key);
      RunKeepsKey(env, Step(env, w, events[0]), events[1..], u, key);
    }
  }

  /** The law of keys. After a login of u's that gives a key, whatever happens,
      restarts included, any connection that asks for u's key is answered with that
      key, once, until a login of u's gives another. */
  lemma KeyServedUntilNext(env: Env, w: State, c: nat, j: Json, u: string, events: seq<Event>, c': nat, ask: Json)
    requires EnvOk(env) && Inv(env, w) && Incoming(w, c).Some?
    requires LoginTo(env, w.g.db.data, Incoming(w, c).value, j, u) && j.publicKey != ""
    requires NeverGivesKey(env, Step(env, w, Dispatch(c)), events, u)
    requires
      var v := Run(env, Step(env, w, Dispatch(c)), events);
      Incoming(v, c').Some? && Asks(env, Incoming(v, c').value, M.PubKeyRequest, ask) && ask.userId == u
    ensures
      var v := Run(env, Step(env, w, Dispatch(c)), events);
      Step(env, v, Dispatch(c')).g == v.g.(log := v.g.log + [Sent(c', "", PubKeyResponse(u, j.publicKey))])
  {
    var w1 := Step(env, w, Dispatch(c));
    var v := Run(env, w1, events);
    StepKeeps(env, w, Dispatch(c));
    LoginStoresKey(env, w, c, j, u);
    RunKeepsKey(env, w1, events, u, j.publicKey);
    RunKeeps(env, w1, events);
    KeyRequestExact(env, c', LocalOf(v, c'), Incoming(v, c').value, ask, j.publicKey);
  }

  lemma LoginStoresKey(env: Env, w: State, c: nat, j: Json, u: string)
    requires EnvOk(env) && Inv(env, w) && Incoming(w, c).Some?
    requires LoginTo(env, w.g.db.data, Incoming(w, c).value, j, u) && j.publicKey != ""
    ensures KeyIs(Step(env, w, Dispatch(c)).g.db.data.users, u, j.publicKey)
  {
    NoUserUnnamed(env, w.g.db);
    LoginExact(env, c, LocalOf(w, c), Incoming(w, c).value, j, "", "");
    assert Step(env, w, Dispatch(c)).g.db.data.users[j.username].publicKey == j.publicKey;
  }
}
