/** What ordinary users can do to the database: add to it, and change what is their own. */
module Growth {
  import opened Wrappers
  import opened Framing
  import opened ChatModel
  import opened DbSpec
  import opened DbInvariants
  import opened SessionSpec
  import opened Effects
  import opened World
  import opened Invariants
  import opened Safety
  import opened Seeding

  /** d' keeps every user (but for public keys), group, group name and
      membership of d, and its ban lists. */
  ghost predicate Grows(d: Data, d': Data) {
    && (forall n :: n in d.users ==> n in d'.users && d'.users[n] == d.users[n].(publicKey := d'.users[n].publicKey))
    && (forall g :: g in d.groups.vals ==> g in d'.groups.vals && d'.groups.vals[g] == d.groups.vals[g])
    && (forall g, u :: g in d.members.vals && u in d.members.vals[g].vals ==>
          g in d'.members.vals && u in d'.members.vals[g].vals)
    && d'.banned == d.banned && d'.groupBans == d.groupBans
  }

  /** Only u's public key, and u's entries in existing member tables, differ. */
  ghost predicate OnlyOwn(d: Data, d': Data, u: string) {
    && (forall n :: n in d.users && n in d'.users && d.users[n].id != u ==> d'.users[n] == d.users[n])
    && (forall g :: g in d.members.vals && g in d'.members.vals ==>
          d'.members.vals[g].vals - {u} == d.members.vals[g].vals - {u})
  }

  lemma GrowsTransitive(a: Data, b: Data, c: Data)
    requires Grows(a, b) && Grows(b, c)
    ensures Grows(a, c)
  {
    forall n | n in a.users
      ensures n in c.users && c.users[n] == a.users[n].(publicKey := c.users[n].publicKey)
    {
      assert n in b.users;
    }
  }

  lemma SetKeyIfOwn(env: Env, b: Db, u: string, key: string)
    requires DbOk(env, b)
    ensures Grows(b.data, SetKeyIf(b, u, key).data) && OnlyOwn(b.data, SetKeyIf(b, u, key).data, u)
  {
  }

  lemma AddMemberOwn(b: Db, g: string, u: string, key: string)
    ensures Grows(b.data, AddMember(b, g, u, key).data) && OnlyOwn(b.data, AddMember(b, g, u, key).data, u)
  {
  }

  lemma CreateGroupOwn(env: Env, b: Db, name: string, u: string)
    requires EnvOk(env) && DbOk(env, b)
    ensures Grows(b.data, CreateGroup(env, b, name, u).data) && OnlyOwn(b.data, CreateGroup(env, b, name, u).data, u)
  {
    var b1 := NewGroup(env, b, name, u);
    AddMemberOwn(b1, env.uuid(b.uuids), u, "");
    assert Grows(b.data, b1.data);
    GrowsTransitive(b.data, b1.data, CreateGroup(env, b, name, u).data);
  }

  lemma RegisterOwn(env: Env, b: Db, name: string, password: Option<string>)
    requires EnvOk(env) && DbOk(env, b)
    ensures
      var b' := RegisterUser(env, b, name, password).0;
      Grows(b.data, b'.data) && OnlyOwn(b.data, b'.data, env.uuid(b.uuids))
  {
    if name !in b.data.users && password.Some? {
      var id := env.uuid(b.uuids);
      RegisterExact(env, b, name, password.value);
      NewcomerInNoGroup(env, b, id);
      JoiningOwn(DEFAULT_GROUPS, b.data, RegisterUser(env, b, name, password).0.data,
                 User(id, name, env.hash(password.value), "", false));
    }
  }

  lemma JoiningOwn(defaults: seq<string>, d: Data, d': Data, u: User)
    requires GroupsOk(d) && u.username !in d.users
    requires forall g :: g in d.groups.vals ==> u.id !in d.members.vals[g].vals
    requires d' == d.(users := d.users[u.username := u], members := d'.members)
    requires JoinedDefaults(defaults, d.groups, d.members, d'.members, u.id, d.groups.keys)
    ensures Grows(d, d') && OnlyOwn(d, d', u.id)
  {
    forall g | g in d.members.vals
      ensures d'.members.vals[g].vals - {u.id} == d.members.vals[g].vals
    {
      assert g in d.groups.vals;
    }
    assert forall g, m :: g in d.members.vals && m in d.members.vals[g].vals ==> m in d'.members.vals[g].vals - {u.id};
  }

  /** The operations ordinary users can ask for, and on whose behalf. */
  ghost predicate PlainOp(env: Env, b: Db, op: Op, u: string) {
    match op
    case Nothing => true
    case SetKey(who, _) => who == u
    case Register(_, _, _) => env.uuid(b.uuids) == u
    case Create(_, owner) => owner == u
    case AddTo(_, who, _) => who == u
    case _ => false
  }

  lemma PlainOpOwn(env: Env, b: Db, op: Op, u: string)
    requires EnvOk(env) && DbInv(env, b) && OpOk(b.data, op) && PlainOp(env, b, op, u)
    ensures Grows(b.data, Apply(env, b, op).data) && OnlyOwn(b.data, Apply(env, b, op).data, u)
  {
    match op
    case Nothing =>
    case SetKey(_, key) => SetKeyIfOwn(env, b, u, key);
    case Create(name, _) => CreateGroupOwn(env, b, name, u);
    case AddTo(g, _, key) => AddMemberOwn(b, g, u, key);
    case Register(name, password, key) =>
      RegisterOpOwn(env, b, name, password, key);
  }

  lemma RegisterOpOwn(env: Env, b: Db, name: string, password: Option<string>, key: string)
    requires EnvOk(env) && DbInv(env, b) && name != THE_NULL_USER
    ensures
      var b' := Apply(env, b, Register(name, password, key));
      Grows(b.data, b'.data) && OnlyOwn(b.data, b'.data, env.uuid(b.uuids))
  {
    var (b', r) := RegisterUser(env, b, name, password);
    assert DbOk(env, b') by {
      RegisterKeeps(env, b, name, password);
    }
    RegisterOwn(env, b, name, password);
    if r.Registered? {
      KeyAfterRegister(env, b, b', r.id, key);
    }
  }

  lemma KeyAfterRegister(env: Env, b: Db, b': Db, id: string, key: string)
    requires DbOk(env, b') && Grows(b.data, b'.data) && OnlyOwn(b.data, b'.data, id)
    requires forall g :: g in b.data.members.vals ==> g in b'.data.members.vals
    ensures Grows(b.data, SetKeyIf(b', id, key).data) && OnlyOwn(b.data, SetKeyIf(b', id, key).data, id)
  {
    SetKeyIfOwn(env, b', id, key);
    GrowsTransitive(b.data, b'.data, SetKeyIf(b', id, key).data);
    OwnTransitive(b.data, b'.data, SetKeyIf(b', id, key).data, id);
  }

  lemma OwnTransitive(a: Data, b: Data, c: Data, u: string)
    requires Grows(a, b) && Grows(b, c) && OnlyOwn(a, b, u) && OnlyOwn(b, c, u)
    requires forall g :: g in a.members.vals ==> g in b.members.vals
    ensures OnlyOwn(a, c, u)
  {
    forall n | n in a.users && n in c.users && a.users[n].id != u
      ensures c.users[n] == a.users[n]
    {
      assert b.users[n].id == a.users[n].id;
    }
  }

  /** A packet on a connection without admin rights only adds to the database,
      and touches only what belongs to the user the connection ends up as. */
  lemma PlainPacketOwn(env: Env, c: nat, s: Local, f: Frame)
    requires EnvOk(env) && DbInv(env, s.g.db) && IdentOk(s.g.db.data.users, s.me) && !s.me.isNull
    ensures
      var s' := Handle(env, c, s, f);
      && Grows(s.g.db.data, s'.g.db.data)
      && OnlyOwn(s.g.db.data, s'.g.db.data, s'.me.userId)
  {
    var op := Effect(env, s, f);
    var s' := Handle(env, c, s, f);
    HandleDb(env, c, s, f);
    HandleSessions(env, c, s, f);
    EffectOk(env, s, f);
    if op.Register? && Authenticates(env, s, f).None? {
      FailedRegistration(env, s.g.db, op);
    } else {
      PlainAsker(env, s, f);
      PlainOpOwn(env, s.g.db, op, s'.me.userId);
    }
  }

  lemma FailedRegistration(env: Env, b: Db, op: Op)
    requires EnvOk(env) && DbInv(env, b) && op.Register? && !RegisterUser(env, b, op.name, op.password).1.Registered?
    ensures Apply(env, b, op).data == b.data
  {
    if op.name !in b.data.users && op.password.Some? {
      RegisterExact(env, b, op.name, op.password.value);
    }
  }

  lemma PlainAsker(env: Env, s: Local, f: Frame)
    requires !s.me.isNull
    requires !(Effect(env, s, f).Register? && Authenticates(env, s, f).None?)
    ensures
      var u := match Authenticates(env, s, f) case Some(id) => id case None => s.me.userId;
      PlainOp(env, s.g.db, Effect(env, s, f), u)
  {
  }

  /** Every dispatch of the run is on a connection without admin rights. */
  ghost predicate PlainRun(env: Env, w: State, events: seq<Event>)
    decreases |events|
  {
    events == [] || (
      && (events[0].Dispatch? && NextPacket(w, events[0].c).Some? ==> !w.conns[events[0].c].me.isNull)
      && PlainRun(env, Step(env, w, events[0]), events[1..]))
  }

  lemma KeptGrows(d: Data, d': Data)
    requires Kept(d, d')
    ensures Grows(d, d')
  {
  }

  lemma SeedGrows(env: Env, b: Db)
    requires EnvOk(env) && DbOk(env, b)
    ensures Grows(b.data, Seed(env, b).data)
  {
    var b1 := SeedNull(env, b);
    SeedNullKeeps(env, b);
    SeedNullGrows(env, b);
    DefaultsDistinct();
    SeedGroupsExact(env, b1, GroupNames(b.data.groups), DEFAULT_GROUPS, |DEFAULT_GROUPS|);
    KeptGrows(b1.data, Seed(env, b).data);
    GrowsTransitive(b.data, b1.data, Seed(env, b).data);
  }

  lemma SeedNullGrows(env: Env, b: Db)
    ensures Grows(b.data, SeedNull(env, b).data)
  {
  }

  /** Without admin packets, every run, restarts included, only grows the database. */
  lemma {:induction false} PlainRunGrows(env: Env, w: State, events: seq<Event>)
    requires EnvOk(env) && Inv(env, w) && PlainRun(env, w, events)
    ensures Grows(w.g.db.data, Run(env, w, events).g.db.data)
    decreases |events|
  {
    if events != [] {
      var w1 := Step(env, w, events[0]);
      PlainStepGrows(env, w, events[0]);
      StepKeeps(env, w, events[0]);
      PlainRunGrows(env, w1, events[1..]);
      GrowsTransitive(w.g.db.data, w1.g.db.data, Run(env, w, events).g.db.data);
    }
  }

  lemma PlainStepGrows(env: Env, w: State, e: Event)
    requires EnvOk(env) && Inv(env, w)
    requires e.Dispatch? && NextPacket(w, e.c).Some? ==> !w.conns[e.c].me.isNull
    ensures Grows(w.g.db.data, Step(env, w, e).g.db.data)
  {
    if e.Dispatch? && NextPacket(w, e.c).Some? {
      var p := NextPacket(w, e.c).value;
      PlainPacketOwn(env, e.c, LocalOf(w, e.c), Frame(p.kind, p.body));
    } else {
      StepDb(env, w, e);
      SeedGrows(env, w.g.db);
    }
  }

  // ----- what is one's own stays as it is -----

  /** u's account, key included, and u's entries in existing member tables are as they were. */
  ghost predicate Untouched(d: Data, d': Data, u: string) {
    && (forall n :: n in d.users && d.users[n].id == u ==> n in d'.users && d'.users[n] == d.users[n])
    && (forall g :: g in d.members.vals ==> g in d'.members.vals)
    && (forall g :: g in d.members.vals ==> SameEntry(d.members.vals[g], d'.members.vals[g], u))
  }

  ghost predicate SameEntry(m: Members, m': Members, u: string) {
    (u in m'.vals <==> u in m.vals) && (u in m.vals ==> m'.vals[u] == m.vals[u])
  }

  lemma UntouchedTransitive(a: Data, b: Data, c: Data, u: string)
    requires Untouched(a, b, u) && Untouched(b, c, u)
    ensures Untouched(a, c, u)
  {
    forall n | n in a.users && a.users[n].id == u
      ensures n in c.users && c.users[n] == a.users[n]
    {
      assert n in b.users && b.users[n].id == u;
    }
    forall g | g in a.members.vals
      ensures SameEntry(a.members.vals[g], c.members.vals[g], u)
    {
      assert SameEntry(a.members.vals[g], b.members.vals[g], u);
      assert SameEntry(b.members.vals[g], c.members.vals[g], u);
    }
  }

  lemma OwnOfAnother(d: Data, d': Data, v: string, u: string)
    requires Grows(d, d') && OnlyOwn(d, d', v) && u != v && GroupsOk(d) && GroupsOk(d')
    ensures Untouched(d, d', u)
  {
    forall g | g in d.members.vals
      ensures g in d'.members.vals && SameEntry(d.members.vals[g], d'.members.vals[g], u)
    {
      assert g in d.groups.vals;
      var m, m' := d.members.vals[g].vals, d'.members.vals[g].vals;
      assert m' - {v} == m - {v};
      assert u in m' <==> u in m' - {v};
      assert u in m <==> u in m - {v};
    }
  }

  lemma SeedUntouched(env: Env, b: Db, u: string)
    requires EnvOk(env) && DbOk(env, b)
    ensures Untouched(b.data, Seed(env, b).data, u)
  {
    var b1 := SeedNull(env, b);
    SeedNullKeeps(env, b);
    SeededKept(env, b, b1);
    KeptUntouched(b.data, b1.data, Seed(env, b).data, u);
  }

  lemma SeededKept(env: Env, b: Db, b1: Db)
    requires EnvOk(env) && DbOk(env, b1) && b1 == SeedNull(env, b) && NULL_ID in Ids(b1.data.users)
    requires b1.data.groups == b.data.groups
    ensures Kept(b1.data, Seed(env, b).data)
  {
    DefaultsDistinct();
    SeedGroupsExact(env, b1, GroupNames(b.data.groups), DEFAULT_GROUPS, |DEFAULT_GROUPS|);
  }

  lemma KeptUntouched(d: Data, d1: Data, d': Data, u: string)
    requires d1.members == d.members && Kept(d1, d')
    requires forall n :: n in d.users ==> n in d1.users && d1.users[n] == d.users[n]
    ensures Untouched(d, d', u)
  {
    forall g | g in d.members.vals
      ensures g in d'.members.vals && SameEntry(d.members.vals[g], d'.members.vals[g], u)
    {
      assert d'.members.vals[g] == d1.members.vals[g];
    }
  }

  /** No dispatch of the run ends with its connection logged in as u. */
  ghost predicate NeverActs(env: Env, w: State, events: seq<Event>, u: string)
    decreases |events|
  {
    events == [] || (
      var w1 := Step(env, w, events[0]);
      && (events[0].Dispatch? && NextPacket(w, events[0].c).Some? ==> w1.conns[events[0].c].me.userId != u)
      && NeverActs(env, w1, events[1..], u))
  }

  /** Without admin packets, and whatever all others send, a user who does nothing
      keeps their account, their key and their entry in every member table that
      there was, over whole runs, restarts included. */
  lemma {:induction false} PlainRunLeavesOthers(env: Env, w: State, events: seq<Event>, u: string)
    requires EnvOk(env) && Inv(env, w) && PlainRun(env, w, events) && NeverActs(env, w, events, u)
    ensures Untouched(w.g.db.data, Run(env, w, events).g.db.data, u)
    decreases |events|
  {
    if events != [] {
      var w1 := Step(env, w, events[0]);
      StepKeeps(env, w, events[0]);
      PlainStepLeavesOthers(env, w, events[0], u);
      PlainRunLeavesOthers(env, w1, events[1..], u);
      UntouchedTransitive(w.g.db.data, w1.g.db.data, Run(env, w, events).g.db.data, u);
    }
  }

  lemma PlainStepLeavesOthers(env: Env, w: State, e: Event, u: string)
    requires EnvOk(env) && Inv(env, w) && Inv(env, Step(env, w, e))
    requires e.Dispatch? && NextPacket(w, e.c).Some? ==>
               !w.conns[e.c].me.isNull && Step(env, w, e).conns[e.c].me.userId != u
    ensures Untouched(w.g.db.data, Step(env, w, e).g.db.data, u)
  {
    if e.Dispatch? && NextPacket(w, e.c).Some? {
      var p := NextPacket(w, e.c).value;
      var s, f := LocalOf(w, e.c), Frame(p.kind, p.body);
      PlainPacketOwn(env, e.c, s, f);
      OwnOfAnother(w.g.db.data, Step(env, w, e).g.db.data, Handle(env, e.c, s, f).me.userId, u);
    } else {
      StepDb(env, w, e);
      if e.Restart? {
        SeedUntouched(env, w.g.db, u);
      }
    }
  }
}
