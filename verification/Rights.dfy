/** Who has admin rights: how a connection gets them, and when they are those of
    the account it is logged in to. */
module Rights {
  import opened Wrappers
  import opened Framing
  import opened ChatModel
  import opened DbSpec
  import opened DbInvariants
  import opened SessionSpec
  import opened Effects
  import opened World
  import opened Invariants
  import opened Growth

  // ----- how a connection gets them -----

  /** Is the packet a login, about to be accepted, to an account with admin rights? */
  predicate AdminLogin(env: Env, s: Local, f: Frame) {
    match env.parse(f.body)
    case Record(j) => f.kind == AUTH_LOGIN && LoginAs(env, s, j).Some? && LoginAs(env, s, j).value.isNull
    case _ => false
  }

  /** A connection gets admin rights only by such a login. */
  lemma AdminOnlyByLogin(env: Env, c: nat, s: Local, f: Frame)
    requires !s.me.isNull
    ensures Handle(env, c, s, f).me.isNull <==> AdminLogin(env, s, f)
  {
    HandleSessions(env, c, s, f);
    match env.parse(f.body)
    case Record(j) =>
      if f.kind == AUTH_LOGIN && LoginAs(env, s, j).Some? {
        LoginGivesRights(env, c, s, j);
      } else if f.kind == AUTH_REGISTER && MayRegister(s, j) {
        RegistrationKeepsRights(env, c, s, j);
      }
    case _ =>
  }

  lemma LoginGivesRights(env: Env, c: nat, s: Local, j: Json)
    requires LoginAs(env, s, j).Some?
    ensures HandleLogin(env, c, s, j).me.isNull == LoginAs(env, s, j).value.isNull
  {
  }

  lemma RegistrationKeepsRights(env: Env, c: nat, s: Local, j: Json)
    ensures HandleRegister(env, c, s, j).me.isNull == s.me.isNull
  {
  }

  ghost predicate NoAdminLogin(env: Env, w: State, events: seq<Event>)
    decreases |events|
  {
    events == [] || (
      && (events[0].Dispatch? && NextPacket(w, events[0].c).Some? ==>
            var p := NextPacket(w, events[0].c).value;
            !AdminLogin(env, LocalOf(w, events[0].c), Frame(p.kind, p.body)))
      && NoAdminLogin(env, Step(env, w, events[0]), events[1..]))
  }

  predicate NoAdmins(w: State) {
    forall c | c in w.conns :: !w.conns[c].me.isNull
  }

  lemma NoAdminsStep(env: Env, w: State, e: Event)
    requires NoAdmins(w) && NoAdminLogin(env, w, [e])
    ensures NoAdmins(Step(env, w, e))
  {
    if e.Dispatch? && NextPacket(w, e.c).Some? {
      var p := NextPacket(w, e.c).value;
      AdminOnlyByLogin(env, e.c, LocalOf(w, e.c), Frame(p.kind, p.body));
    }
  }

  /** As long as no one logs in to an admin account, no connection ever has
      admin rights, so all that users do, whatever they send, only grows the
      database: nothing is renamed, deleted, banned, unbanned or removed. */
  lemma {:induction false} WithoutAdminLoginOnlyGrowth(env: Env, w: State, events: seq<Event>)
    requires EnvOk(env) && Inv(env, w) && NoAdmins(w) && NoAdminLogin(env, w, events)
    ensures NoAdmins(Run(env, w, events)) && Grows(w.g.db.data, Run(env, w, events).g.db.data)
    decreases |events|
  {
    if events != [] {
      var w1 := Step(env, w, events[0]);
      StepKeeps(env, w, events[0]);
      PlainStepGrows(env, w, events[0]);
      NoAdminsStep(env, w, events[0]);
      WithoutAdminLoginOnlyGrowth(env, w1, events[1..]);
      GrowsTransitive(w.g.db.data, w1.g.db.data, Run(env, w, events).g.db.data);
    }
  }

  // ----- whose they are -----

  /** Some account of this id has admin rights. */
  ghost predicate AccountAdmin(users: map<string, User>, id: string) {
    exists n :: n in users && users[n].id == id && users[n].isNull
  }

  /** A logged-in connection's admin flag is its account's. */
  ghost predicate RightsOk(users: map<string, User>, me: Ident) {
    me.authenticated ==> (me.isNull <==> AccountAdmin(users, me.userId))
  }

  ghost predicate RightsMatch(w: State) {
    forall c :: c in w.conns ==> RightsOk(w.g.db.data.users, w.conns[c].me)
  }

  /** Accounts are kept, names, ids and admin flags included; any new one is
      under a new id and has no admin rights. */
  ghost predicate AccountsKept(users: map<string, User>, users': map<string, User>) {
    && (forall n :: n in users ==> n in users' && users'[n].id == users[n].id && users'[n].isNull == users[n].isNull)
    && (forall n :: n in users' && n !in users ==> users'[n].id !in Ids(users) && !users'[n].isNull)
  }

  lemma KeptAdmin(users: map<string, User>, users': map<string, User>, id: string)
    requires AccountsKept(users, users') && id in Ids(users)
    ensures AccountAdmin(users', id) <==> AccountAdmin(users, id)
  {
    if AccountAdmin(users, id) {
      var n :| n in users && users[n].id == id && users[n].isNull;
      assert n in users';
    }
  }

  lemma ApplyKeepsAccounts(env: Env, b: Db, op: Op)
    requires EnvOk(env) && DbInv(env, b)
    ensures AccountsKept(b.data.users, Apply(env, b, op).data.users)
  {
    match op
    case Register(name, password, key) => RegisterOpKeepsAccounts(env, b, name, password, key);
    case SetKey(u, key) => KeyKeepsAccounts(b, u, key);
    case _ => OtherOpsKeepUsers(env, b, op);
  }

  lemma OtherOpsKeepUsers(env: Env, b: Db, op: Op)
    requires !op.Register? && !op.SetKey?
    ensures Apply(env, b, op).data.users == b.data.users
  {
  }

  lemma RegisterOpKeepsAccounts(env: Env, b: Db, name: string, password: Option<string>, key: string)
    requires EnvOk(env) && DbOk(env, b)
    ensures AccountsKept(b.data.users, Apply(env, b, Register(name, password, key)).data.users)
  {
    RegisterKeepsAccounts(env, b, name, password);
    var (b', r) := RegisterUser(env, b, name, password);
    if r.Registered? {
      KeyKeepsAccounts(b', r.id, key);
      KeptTwice(b.data.users, b'.data.users, SetKeyIf(b', r.id, key).data.users);
    }
  }

  lemma RegisterKeepsAccounts(env: Env, b: Db, name: string, password: Option<string>)
    requires EnvOk(env) && DbOk(env, b)
    ensures AccountsKept(b.data.users, RegisterUser(env, b, name, password).0.data.users)
  {
    if name !in b.data.users && password.Some? {
      RegisterExact(env, b, name, password.value);
    }
  }

  lemma KeyKeepsAccounts(b: Db, id: string, key: string)
    ensures AccountsKept(b.data.users, SetKeyIf(b, id, key).data.users)
    ensures b.data.users.Keys == SetKeyIf(b, id, key).data.users.Keys
  {
  }

  lemma KeptTwice(a: map<string, User>, b: map<string, User>, c: map<string, User>)
    requires AccountsKept(a, b) && AccountsKept(b, c) && b.Keys == c.Keys
    ensures AccountsKept(a, c)
  {
  }

  /** Is the packet a registration, about to be accepted? */
  predicate Registers(env: Env, s: Local, f: Frame) {
    f.kind == AUTH_REGISTER && Authenticates(env, s, f).Some?
  }

  /** The connection the packet came on keeps its account's rights, unless it
      registers a newcomer while having admin rights. */
  lemma OwnRightsExactly(env: Env, c: nat, s: Local, f: Frame)
    requires EnvOk(env) && DbInv(env, s.g.db) && IdentOk(s.g.db.data.users, s.me)
    requires RightsOk(s.g.db.data.users, s.me)
    ensures
      var s' := Handle(env, c, s, f);
      RightsOk(s'.g.db.data.users, s'.me) <==> !(Registers(env, s, f) && s.me.isNull)
  {
    var users, users' := s.g.db.data.users, Handle(env, c, s, f).g.db.data.users;
    HandleDb(env, c, s, f);
    ApplyKeepsAccounts(env, s.g.db, Effect(env, s, f));
    HandleSessions(env, c, s, f);
    match Authenticates(env, s, f)
    case None =>
      if s.me.authenticated {
        KeptAdmin(users, users', s.me.userId);
      }
    case Some(u) =>
      var j := env.parse(f.body).json;
      if f.kind == AUTH_LOGIN {
        LoginGivesRights(env, c, s, j);
        AdminOfUser(users, j.username);
        KeptAdmin(users, users', u);
      } else {
        RegistrationKeepsRights(env, c, s, j);
        NewcomerNoAdmin(env, s, j);
      }
  }

  /** An account's flag is what its id says. */
  lemma AdminOfUser(users: map<string, User>, n: string)
    requires UsersOk(users) && n in users
    ensures users[n].id in Ids(users) && (AccountAdmin(users, users[n].id) <==> users[n].isNull)
  {
  }

  lemma NewcomerNoAdmin(env: Env, s: Local, j: Json)
    requires EnvOk(env) && DbInv(env, s.g.db) && MayRegister(s, j)
    requires RegisterUser(env, s.g.db, j.username, j.password).1.Registered?
    ensures
      var op := Register(j.username, j.password, j.publicKey);
      !AccountAdmin(Apply(env, s.g.db, op).data.users, RegisterUser(env, s.g.db, j.username, j.password).1.id)
  {
    var op := Register(j.username, j.password, j.publicKey);
    var (b', r) := RegisterUser(env, s.g.db, j.username, j.password);
    RegisterExact(env, s.g.db, j.username, j.password.value);
    RegisterKeeps(env, s.g.db, j.username, j.password);
    AdminOfUser(b'.data.users, j.username);
    KeyKeepsAccounts(b', r.id, j.publicKey);
    KeptAdmin(b'.data.users, Apply(env, s.g.db, op).data.users, r.id);
  }

  /** The step accepts a registration on a connection that has admin rights. */
  predicate RegistersAsAdmin(env: Env, w: State, e: Event) {
    match e
    case Dispatch(c) =>
      (match NextPacket(w, c)
       case Some(p) => Registers(env, LocalOf(w, c), Frame(p.kind, p.body)) && w.conns[c].me.isNull
       case None => false)
    case _ => false
  }

  /** Connections' rights are their accounts' after a step exactly if it is not
      such a registration, whose newcomer is left with the rights of the account
      the connection was logged in to before. */
  lemma RightsMatchExactly(env: Env, w: State, e: Event)
    requires EnvOk(env) && Inv(env, w) && RightsMatch(w)
    ensures RightsMatch(Step(env, w, e)) <==> !RegistersAsAdmin(env, w, e)
  {
    match e
    case Dispatch(c) =>
      if NextPacket(w, c).Some? {
        DispatchRightsExactly(env, w, c);
      }
    case Fire =>
      if w.g.timers != [] {
        WelcomeKeepsDb(env, w.g, w.g.timers[0], |w.g.db.data.groups.keys|);
      }
    case _ =>
  }

  lemma DispatchRightsExactly(env: Env, w: State, c: nat)
    requires EnvOk(env) && Inv(env, w) && RightsMatch(w) && NextPacket(w, c).Some?
    ensures RightsMatch(Step(env, w, Dispatch(c))) <==> !RegistersAsAdmin(env, w, Dispatch(c))
  {
    var p := NextPacket(w, c).value;
    var s, f := LocalOf(w, c), Frame(p.kind, p.body);
    OwnRightsExactly(env, c, s, f);
    HandleDb(env, c, s, f);
    ApplyKeepsAccounts(env, s.g.db, Effect(env, s, f));
    OthersKeepRights(w, c, Handle(env, c, s, f), w.conns[c].buffer[p.total..]);
  }

  lemma OthersKeepRights(w: State, c: nat, s': Local, buffer: seq<byte>)
    requires ConnsOk(w) && RightsMatch(w) && AccountsKept(w.g.db.data.users, s'.g.db.data.users)
    ensures
      RightsMatch(w.(g := s'.g, conns := w.conns[c := Conn(s'.me, buffer, true)]))
      <==> RightsOk(s'.g.db.data.users, s'.me)
  {
    var w' := w.(g := s'.g, conns := w.conns[c := Conn(s'.me, buffer, true)]);
    forall d | d in w.conns && d != c
      ensures RightsOk(w'.g.db.data.users, w'.conns[d].me)
    {
      if w.conns[d].me.authenticated {
        KeptAdmin(w.g.db.data.users, s'.g.db.data.users, w.conns[d].me.userId);
      }
    }
    assert w'.conns[c].me == s'.me;
  }

  /** Rights match after each step of the run. */
  ghost predicate AlwaysMatch(env: Env, w: State, events: seq<Event>)
    decreases |events|
  {
    events == [] || (RightsMatch(Step(env, w, events[0])) && AlwaysMatch(env, Step(env, w, events[0]), events[1..]))
  }

  ghost predicate NeverRegistersAsAdmin(env: Env, w: State, events: seq<Event>)
    decreases |events|
  {
    events == [] || (
      !RegistersAsAdmin(env, w, events[0]) && NeverRegistersAsAdmin(env, Step(env, w, events[0]), events[1..]))
  }

  /** Over a whole run, every connection acts with exactly its own account's
      rights throughout, exactly if the run holds no such registration. */
  lemma {:induction false} RightsMatchThroughoutExactly(env: Env, w: State, events: seq<Event>)
    requires EnvOk(env) && Inv(env, w) && RightsMatch(w)
    ensures AlwaysMatch(env, w, events) <==> NeverRegistersAsAdmin(env, w, events)
    decreases |events|
  {
    if events != [] {
      StepKeeps(env, w, events[0]);
      RightsMatchExactly(env, w, events[0]);
      if RightsMatch(Step(env, w, events[0])) {
        RightsMatchThroughoutExactly(env, Step(env, w, events[0]), events[1..]);
      }
    }
  }
}
