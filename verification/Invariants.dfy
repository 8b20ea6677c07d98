/** What every step of the server keeps. */
module Invariants {
  import opened Wrappers
  import opened Framing
  import opened Dicts
  import opened ChatModel
  import opened DbSpec
  import opened DbInvariants
  import opened SessionSpec
  import opened Effects
  import opened World

  // ----- operations -----

  /** What an operation's asker has checked. */
  ghost predicate OpOk(d: Data, op: Op) {
    match op
    case Register(name, _, _) => name != THE_NULL_USER
    case Create(_, owner) => owner in Ids(d.users)
    case AddTo(g, u, _) => u in Ids(d.users) && !IsGroupBanned(d, g, u)
    case Ban(u, _) => u in Ids(d.users)
    case GroupBan(g, u) => u in Ids(d.users) && g in d.groups.vals
    case _ => true
  }

  lemma SetKeyIfKeeps(env: Env, b: Db, u: string, key: string)
    requires DbInv(env, b)
    ensures DbInv(env, SetKeyIf(b, u, key)) && Ids(SetKeyIf(b, u, key).data.users) == Ids(b.data.users)
  {
    SetPublicKeyKeeps(env, b, u, key);
  }

  lemma ApplyKeeps(env: Env, b: Db, op: Op)
    requires EnvOk(env) && DbInv(env, b) && OpOk(b.data, op)
    ensures DbInv(env, Apply(env, b, op)) && Ids(b.data.users) <= Ids(Apply(env, b, op).data.users)
  {
    match op
    case Nothing =>
    case SetKey(u, key) => SetKeyIfKeeps(env, b, u, key);
    case Register(name, password, key) =>
      RegisterKeeps(env, b, name, password);
      var (b', r) := RegisterUser(env, b, name, password);
      if r.Registered? {
        SetKeyIfKeeps(env, b', r.id, key);
      }
    case Create(name, owner) => CreateGroupKeeps(env, b, name, owner);
    case AddTo(g, u, key) => AddMemberKeeps(env, b, g, u, key);
    case Rename(g, name) => RenameGroupKeeps(env, b, g, name);
    case Delete(g) => DeleteGroupKeeps(env, b, g);
    case Ban(u, g) =>
      BanUserKeeps(env, b, u);
      RemoveMemberKeeps(env, BanUser(b, u), g, u);
    case Unban(u) => UnbanUserKeeps(env, b, u);
    case GroupBan(g, u) =>
      BanFromGroupKeeps(env, b, g, u);
      RemoveMemberKeeps(env, BanFromGroup(b, g, u), g, u);
      BanThenRemoveDisjoint(b, g, u);
    case Kick(u) => RemoveMemberKeeps(env, b, General(b.data), u);
  }

  lemma {:induction false} GeneralIsGroup(groups: Dict<Group>, k: nat)
    requires k <= |groups.keys|
    ensures
      var g := GeneralGroupId(groups, k);
      g != "" ==> g in groups.vals && groups.vals[g].name == GENERAL_GROUP
  {
    if k > 0 {
      GeneralIsGroup(groups, k - 1);
      assert groups.keys[k - 1] in groups.keys;
    }
  }

  /** An identity the invariant knows: logged in as a registered user, or nobody. */
  ghost predicate IdentOk(users: map<string, User>, me: Ident) {
    && (me.authenticated <==> me.logins > 0)
    && (me.authenticated ==> me.userId in Ids(users))
    && (!me.authenticated ==> me.userId == "")
  }

  /** The handlers check what their operations need. */
  lemma EffectOk(env: Env, s: Local, f: Frame)
    requires IdentOk(s.g.db.data.users, s.me)
    ensures OpOk(s.g.db.data, Effect(env, s, f))
  {
    GeneralIsGroup(s.g.db.data.groups, |s.g.db.data.groups.keys|);
    match env.parse(f.body)
    case Record(j) =>
      if f.kind == GROUP_MESSAGE && j.content.Some? {
        CommandOk(s, j.groupId, ParseCommand(env, j.content.value));
      }
    case _ =>
  }

  lemma CommandOk(s: Local, gid: string, cmd: Command)
    ensures OpOk(s.g.db.data, CommandOp(s, gid, cmd))
  {
    GeneralIsGroup(s.g.db.data.groups, |s.g.db.data.groups.keys|);
  }

  // ----- the invariant -----

  /** Session keys are registered users, and lead to connections that logged in;
      a connection that logged in just once is open and is that user's. */
  ghost predicate SessionsOk(w: State) {
    forall u :: u in w.g.sessions.vals ==>
      && u in Ids(w.g.db.data.users)
      && w.g.sessions.vals[u] in w.conns
      && var conn := w.conns[w.g.sessions.vals[u]];
         conn.me.logins >= 1 && (conn.me.logins == 1 ==> conn.open && conn.me.userId == u)
  }

  ghost predicate ConnsOk(w: State) {
    forall c :: c in w.conns ==> c < w.nextConn && IdentOk(w.g.db.data.users, w.conns[c].me)
  }

  ghost predicate Inv(env: Env, w: State) {
    DbInv(env, w.g.db) && SessionsOk(w) && ConnsOk(w)
  }

  lemma NoUserUnnamed(env: Env, b: Db)
    requires DbOk(env, b)
    ensures "" !in Ids(b.data.users) && SYSTEM_ID !in Ids(b.data.users)
  {
  }

  /** Authentication gives the id of a registered user, who is not banned. */
  lemma AuthenticatedRegistered(env: Env, s: Local, f: Frame)
    requires EnvOk(env) && DbInv(env, s.g.db)
    ensures
      var who := Authenticates(env, s, f);
      who.Some? ==>
        && who.value in Ids(Apply(env, s.g.db, Effect(env, s, f)).data.users)
        && !IsBanned(s.g.db.data, who.value)
  {
    match env.parse(f.body)
    case Record(j) =>
      if f.kind == AUTH_LOGIN && LoginAs(env, s, j).Some? {
        SetKeyIfKeeps(env, s.g.db, LoginAs(env, s, j).value.id, j.publicKey);
      } else if f.kind == AUTH_REGISTER && MayRegister(s, j) {
        NewcomerRegistered(env, s.g.db, j.username, j.password, j.publicKey);
      }
    case _ =>
  }

  lemma NewcomerRegistered(env: Env, b: Db, name: string, password: Option<string>, key: string)
    requires EnvOk(env) && DbInv(env, b) && name != THE_NULL_USER
    ensures
      var r := RegisterUser(env, b, name, password).1;
      r.Registered? ==>
        r.id in Ids(Apply(env, b, Register(name, password, key)).data.users) && !IsBanned(b.data, r.id)
  {
    RegisterKeeps(env, b, name, password);
    var (b', r) := RegisterUser(env, b, name, password);
    if r.Registered? {
      SetKeyIfKeeps(env, b', r.id, key);
      assert r.id == env.uuid(b.uuids) && r.id !in Ids(b.data.users);
    }
  }

  lemma SessionsAfter(w: State, c: nat, s': Local, buffer: seq<byte>, who: Option<string>)
    requires Live(w, c) && SessionsOk(w) && ConnsOk(w)
    requires Ids(w.g.db.data.users) <= Ids(s'.g.db.data.users)
    requires who.Some? ==> who.value in Ids(s'.g.db.data.users)
    requires Reauthenticates(LocalOf(w, c), s', c, who)
    ensures
      var w' := w.(g := s'.g, conns := w.conns[c := Conn(s'.me, buffer, true)]);
      SessionsOk(w') && ConnsOk(w')
  {
  }

  lemma HandleNextKeeps(env: Env, w: State, c: nat)
    requires EnvOk(env) && Inv(env, w) && NextPacket(w, c).Some?
    ensures Inv(env, HandleNext(env, w, c, NextPacket(w, c).value))
    ensures Ids(w.g.db.data.users) <= Ids(HandleNext(env, w, c, NextPacket(w, c).value).g.db.data.users)
  {
    var p := NextPacket(w, c).value;
    var s, f := LocalOf(w, c), Frame(p.kind, p.body);
    EffectOk(env, s, f);
    ApplyKeeps(env, s.g.db, Effect(env, s, f));
    HandleDb(env, c, s, f);
    HandleSessions(env, c, s, f);
    AuthenticatedRegistered(env, s, f);
    SessionsAfter(w, c, Handle(env, c, s, f), w.conns[c].buffer[p.total..], Authenticates(env, s, f));
  }

  lemma CloseKeeps(env: Env, w: State, c: nat)
    requires Inv(env, w)
    ensures Inv(env, Step(env, w, Close(c)))
  {
    if Live(w, c) {
      NoUserUnnamed(env, w.g.db);
      ClosedEffect(LocalOf(w, c));
      ConnGone(w, c, Closed(LocalOf(w, c)).g);
    }
  }

  lemma ClosedEffect(s: Local)
    requires "" !in s.g.sessions.vals
    ensures Closed(s).g.db == s.g.db && Closed(s).g.sessions.vals == s.g.sessions.vals - {s.me.userId}
  {
  }

  lemma ConnGone(w: State, c: nat, g: Globals)
    requires SessionsOk(w) && ConnsOk(w) && Live(w, c)
    requires g.db == w.g.db && g.sessions.vals == w.g.sessions.vals - {w.conns[c].me.userId}
    ensures
      var w' := w.(g := g, conns := w.conns[c := w.conns[c].(open := false)]);
      SessionsOk(w') && ConnsOk(w')
  {
  }

  lemma {:induction false} WelcomeKeepsDb(env: Env, g: Globals, t: Timer, k: nat)
    requires k <= |g.db.data.groups.keys|
    ensures Welcome(env, g, t, k).db == g.db && Welcome(env, g, t, k).sessions == g.sessions
  {
    if k > 0 {
      WelcomeKeepsDb(env, g, t, k - 1);
    }
  }

  lemma StepKeeps(env: Env, w: State, e: Event)
    requires EnvOk(env) && Inv(env, w)
    ensures Inv(env, Step(env, w, e))
  {
    match e
    case Open => OpenKeeps(env, w);
    case Arrive(c, chunk) => ArriveKeeps(env, w, c, chunk);
    case Dispatch(c) => DispatchKeeps(env, w, c);
    case Close(c) => CloseKeeps(env, w, c);
    case Fire => FireKeeps(env, w);
    case Restart => RestartKeeps(env, w);
  }

  lemma DispatchKeeps(env: Env, w: State, c: nat)
    requires EnvOk(env) && Inv(env, w)
    ensures Inv(env, Step(env, w, Dispatch(c)))
  {
    if NextPacket(w, c).Some? {
      HandleNextKeeps(env, w, c);
    }
  }

  lemma OpenKeeps(env: Env, w: State)
    requires Inv(env, w)
    ensures Inv(env, Step(env, w, Open))
  {
  }

  lemma ArriveKeeps(env: Env, w: State, c: nat, chunk: seq<byte>)
    requires Inv(env, w)
    ensures Inv(env, Step(env, w, Arrive(c, chunk)))
  {
  }

  lemma FireKeeps(env: Env, w: State)
    requires Inv(env, w)
    ensures Inv(env, Step(env, w, Fire))
  {
    if w.g.timers != [] {
      WelcomeKeepsDb(env, w.g, w.g.timers[0], |w.g.db.data.groups.keys|);
    }
  }

  lemma RestartKeeps(env: Env, w: State)
    requires EnvOk(env) && Inv(env, w)
    ensures Inv(env, Step(env, w, Restart))
  {
    SeedKeeps(env, Db(w.g.db.disk, w.g.db.disk, w.g.db.uuids));
  }

  /** Every run from a good state stays good: the database is well-formed, bans
      and memberships are apart, and the file equals memory between events. */
  lemma {:induction false} RunKeeps(env: Env, w: State, events: seq<Event>)
    requires EnvOk(env) && Inv(env, w)
    ensures Inv(env, Run(env, w, events))
    decreases |events|
  {
    if events != [] {
      StepKeeps(env, w, events[0]);
      RunKeeps(env, Step(env, w, events[0]), events[1..]);
    }
  }

  /** Starting on any well-formed stored database, such as the empty one, is good. */
  lemma BootGood(env: Env, stored: Data, uuids: nat)
    requires EnvOk(env) && WellFormed(env, stored, uuids) && BansDisjoint(stored)
    ensures Inv(env, Boot(env, stored, uuids))
  {
    SeedKeeps(env, Db(stored, stored, uuids));
  }

  lemma EmptyStoreWellFormed(env: Env)
    ensures
      var empty := Data(map[], Empty<Group>(), Empty<Members>(), [], map[]);
      WellFormed(env, empty, 0) && BansDisjoint(empty)
  {
  }

  /** Persistence: a restart at any event boundary of any run gives exactly the
      seeded form of the data in memory, and a good state; connections, sessions and
      timers are gone. */
  lemma RestartLosesNothing(env: Env, w: State, events: seq<Event>)
    requires EnvOk(env) && Inv(env, w)
    ensures
      var v := Run(env, w, events);
      Reborn(env, v, Step(env, v, Restart)) && Inv(env, Step(env, v, Restart))
  {
    var v := Run(env, w, events);
    RunKeeps(env, w, events);
    RestartSeeds(env, v);
    StepKeeps(env, v, Restart);
  }

  ghost predicate Reborn(env: Env, v: State, v': State) {
    v' == State(Globals(Seed(env, v.g.db), Empty<nat>(), v.g.log, v.g.ticks, []), map[], v.nextConn)
  }

  lemma RestartSeeds(env: Env, v: State)
    requires v.g.db.disk == v.g.db.data
    ensures Reborn(env, v, Step(env, v, Restart))
  {
    assert Db(v.g.db.disk, v.g.db.disk, v.g.db.uuids) == v.g.db;
  }
}
