/** What each packet's database operation does, read off the database: who is a
    member of what, who is banned, which groups there are. */
module Operations {
  import opened Wrappers
  import opened ChatModel
  import opened DbSpec
  import opened DbInvariants
  import opened Effects
  import Safety

  /** Global bans: /ban adds its target, /unban takes its target off, nothing else. */
  lemma OpBans(env: Env, b: Db, op: Op, u: string)
    ensures
      var before := IsBanned(b.data, u);
      IsBanned(Apply(env, b, op).data, u) <==>
        match op
        case Ban(v, _) => before || u == v
        case Unban(v) => before && u != v
        case _ => before
  {
  }

  /** Group bans: /gban adds its target to its group's list, and nothing takes anyone off. */
  lemma OpGroupBans(env: Env, b: Db, op: Op, g: string, u: string)
    ensures IsGroupBanned(Apply(env, b, op).data, g, u) <==> IsGroupBanned(b.data, g, u) || op == GroupBan(g, u)
  {
    Safety.ApplyGroupBans(env, b, op);
  }

  /** Groups: a creation adds one under its new id, a deletion removes one,
      a renaming changes one's name; every other group is as it was. */
  lemma OpGroups(env: Env, b: Db, op: Op, g: string)
    requires EnvOk(env) && DbInv(env, b)
    ensures
      var groups, groups' := b.data.groups.vals, Apply(env, b, op).data.groups.vals;
      && (g in groups' <==> (g in groups && op != Delete(g)) || (op.Create? && g == env.uuid(b.uuids)))
      && (g in groups' && g in groups ==>
            groups'[g] == if op.Rename? && op.group == g then groups[g].(name := op.name) else groups[g])
      && (op.Create? && g == env.uuid(b.uuids) ==> groups'[g] == Group(g, op.name, op.owner))
  {
    match op
    case Register(_, _, _) => RegisterKeepsGroups(env, b, op);
    case Create(name, owner) => CreatedGroups(env, b, name, owner);
    case Delete(h) => DeletedGroups(b, h);
    case Rename(h, name) =>
    case _ => OtherOpsKeepGroups(env, b, op);
  }

  lemma CreatedGroups(env: Env, b: Db, name: string, owner: string)
    requires DbOk(env, b)
    ensures
      var id := env.uuid(b.uuids);
      && id !in b.data.groups.vals
      && CreateGroup(env, b, name, owner).data.groups.vals == b.data.groups.vals[id := Group(id, name, owner)]
  {
  }

  lemma DeletedGroups(b: Db, g: string)
    ensures DeleteGroup(b, g).data.groups.vals == b.data.groups.vals - {g}
  {
  }

  lemma OtherOpsKeepGroups(env: Env, b: Db, op: Op)
    requires !op.Register? && !op.Create? && !op.Delete? && !op.Rename?
    ensures Apply(env, b, op).data.groups == b.data.groups
  {
  }

  lemma RegisterKeepsGroups(env: Env, b: Db, op: Op)
    requires op.Register?
    ensures Apply(env, b, op).data.groups == b.data.groups
  {
  }

  /** Memberships, with the keys stored: a creation gives the owner an empty key in
      the new group, a join the joiner the key given in an existing one, in place
      of any they had; a registration gives the newcomer an empty key in the groups
      with a default name; a deletion empties its group; a ban, a group ban and a
      kick take one user out of one group. No other entry is different. */
  lemma OpMembership(env: Env, b: Db, op: Op, g: string, u: string)
    requires EnvOk(env) && DbInv(env, b)
    ensures
      var before, id, groups := EntryOf(b.data, g, u), env.uuid(b.uuids), b.data.groups.vals;
      EntryOf(Apply(env, b, op).data, g, u) ==
        match op
        case Create(_, owner) => if g == id && u == owner then Some("") else before
        case AddTo(h, v, key) => if g == h && u == v && g in groups then Some(key) else before
        case Register(name, password, _) =>
          if name !in b.data.users && password.Some? && u == id && g in groups && groups[g].name in DEFAULT_GROUPS
          then Some("") else before
        case Delete(h) => if g == h then None else before
        case Ban(v, h) => if g == h && u == v then None else before
        case GroupBan(h, v) => if g == h && u == v then None else before
        case Kick(v) => if IsGeneral(b.data, g) && u == v then None else before
        case _ => before
  {
    match op
    case Create(name, owner) => CreateMembership(env, b, name, owner, g, u);
    case Ban(v, h) => RemoveMembership(BanUser(b, v), h, v, g, u);
    case GroupBan(h, v) => RemoveMembership(BanFromGroup(b, h, v), h, v, g, u);
    case Kick(v) =>
      NoGroupUnnamed(env, b);
      GeneralExact(b.data);
      RemoveMembership(b, General(b.data), v, g, u);
    case AddTo(h, v, key) => AddMembership(b, h, v, key, g, u);
    case Register(name, password, key) => RegisterMembership(env, b, name, password, key, g, u);
    case Delete(h) => DeleteMembership(env, b, h, g, u);
    case _ => OtherOpsKeepMembers(env, b, op);
  }

  lemma OtherOpsKeepMembers(env: Env, b: Db, op: Op)
    requires op.Nothing? || op.SetKey? || op.Rename? || op.Unban?
    ensures Apply(env, b, op).data.members == b.data.members
  {
  }

  lemma RemoveMembership(b: Db, h: string, v: string, g: string, u: string)
    ensures EntryOf(RemoveMember(b, h, v).data, g, u) == if g == h && u == v then None else EntryOf(b.data, g, u)
  {
  }

  lemma AddMembership(b: Db, h: string, v: string, key: string, g: string, u: string)
    ensures EntryOf(AddMember(b, h, v, key).data, g, u)
         == if g == h && u == v && g in b.data.members.vals then Some(key) else EntryOf(b.data, g, u)
  {
  }

  lemma DeleteMembership(env: Env, b: Db, h: string, g: string, u: string)
    requires DbOk(env, b)
    ensures EntryOf(DeleteGroup(b, h).data, g, u) == if g == h then None else EntryOf(b.data, g, u)
  {
  }

  lemma CreateMembership(env: Env, b: Db, name: string, owner: string, g: string, u: string)
    requires EnvOk(env) && DbOk(env, b)
    ensures EntryOf(CreateGroup(env, b, name, owner).data, g, u)
         == if g == env.uuid(b.uuids) && u == owner then Some("") else EntryOf(b.data, g, u)
  {
    AddMembership(NewGroup(env, b, name, owner), env.uuid(b.uuids), owner, "", g, u);
  }

  lemma RegisterMembership(env: Env, b: Db, name: string, password: Option<string>, key: string, g: string, u: string)
    requires EnvOk(env) && DbOk(env, b)
    ensures
      var groups := b.data.groups.vals;
      EntryOf(Apply(env, b, Register(name, password, key)).data, g, u)
      == if name !in b.data.users && password.Some? && u == env.uuid(b.uuids) && g in groups
            && groups[g].name in DEFAULT_GROUPS then Some("") else EntryOf(b.data, g, u)
  {
    if name !in b.data.users && password.Some? {
      var (b', r) := RegisterUser(env, b, name, password);
      EnrolledMembership(env, b, name, password.value, g, u);
      KeyKeepsMembers(b', env.uuid(b.uuids), key);
    }
  }

  lemma EnrolledMembership(env: Env, b: Db, name: string, password: string, g: string, u: string)
    requires EnvOk(env) && DbOk(env, b) && name !in b.data.users
    ensures
      var (b', r) := RegisterUser(env, b, name, Some(password));
      var groups := b.data.groups.vals;
      && r == Registered(env.uuid(b.uuids))
      && EntryOf(b'.data, g, u)
         == if u == env.uuid(b.uuids) && g in groups && groups[g].name in DEFAULT_GROUPS then Some("")
            else EntryOf(b.data, g, u)
  {
    RegisterExact(env, b, name, password);
    NewcomerInNoGroup(env, b, env.uuid(b.uuids));
  }

  lemma KeyKeepsMembers(b: Db, u: string, key: string)
    ensures SetKeyIf(b, u, key).data.members == b.data.members
  {
  }

  lemma NoGroupUnnamed(env: Env, b: Db)
    requires DbOk(env, b)
    ensures "" !in b.data.groups.vals && "" !in b.data.members.vals
  {
  }

  /** Who has registered can log in: with the password given, or any other of
      the same hash, as the id that was assigned and without admin rights. */
  lemma RegisteredCanLogIn(env: Env, b: Db, name: string, password: string, attempt: string, key: string)
    requires EnvOk(env) && DbInv(env, b) && name !in b.data.users && name != THE_NULL_USER
    ensures
      var users' := Apply(env, b, Register(name, Some(password), key)).data.users;
      match LoginUser(env, users', name, Some(attempt))
      case Accepted(user) =>
        env.hash(attempt) == env.hash(password) && user.id == env.uuid(b.uuids) && user.username == name && !user.isNull
        && user.publicKey == key
      case Refused => env.hash(attempt) != env.hash(password)
      case LoginThrew => false
  {
    var id := env.uuid(b.uuids);
    RegisterExact(env, b, name, password);
    RegisterKeeps(env, b, name, Some(password));
    NameOfUser(RegisterUser(env, b, name, Some(password)).0.data.users, name);
  }

  /** Taking a group ban back, which no handler does, lifts exactly that ban. */
  lemma UnbanFromGroupExact(b: Db, g: string, u: string, h: string, v: string)
    ensures
      var d' := UnbanFromGroup(b, g, u).data;
      && d' == b.data.(groupBans := d'.groupBans)
      && (IsGroupBanned(d', h, v) <==> IsGroupBanned(b.data, h, v) && !(g == h && u == v))
  {
  }
}
