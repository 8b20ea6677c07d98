/** The database operations of JsonDB as functions from database to database. */
module DbSpec {
  import opened Wrappers
  import opened Dicts
  import opened ChatModel

  function Save(b: Db): Db {
    b.(disk := b.data)
  }

  // ----- seeding -----

  function SeedNull(env: Env, b: Db): Db {
    if THE_NULL_USER in b.data.users then b
    else
      var u := User(NULL_ID, THE_NULL_USER, env.hash(THE_NULL_PASSWORD), "", true);
      b.(data := b.data.(users := b.data.users[THE_NULL_USER := u]))
  }

  ghost function GroupNames(groups: Dict<Group>): set<string> {
    set g | g in groups.vals :: groups.vals[g].name
  }

  /** A new group of TheNull's, with TheNull its only member. */
  function AddDefaultGroup(env: Env, b: Db, name: string): Db {
    var gid := env.uuid(b.uuids);
    b.(data := b.data.(groups := Put(b.data.groups, gid, Group(gid, name, NULL_ID)),
                       members := Put(b.data.members, gid, Put(Empty<string>(), NULL_ID, ""))),
       uuids := b.uuids + 1)
  }

  /** The first k default groups, those not among the existing names created. */
  function SeedGroups(env: Env, b: Db, existing: set<string>, defaults: seq<string>, k: nat): Db
    requires k <= |defaults|
  {
    if k == 0 then b
    else
      var before := SeedGroups(env, b, existing, defaults, k - 1);
      if defaults[k - 1] in existing then before else AddDefaultGroup(env, before, defaults[k - 1])
  }

  ghost function Seed(env: Env, b: Db): Db {
    Save(SeedGroups(env, SeedNull(env, b), GroupNames(b.data.groups), DEFAULT_GROUPS, |DEFAULT_GROUPS|))
  }

  // ----- bans -----

  predicate IsBanned(d: Data, u: string) {
    u in d.banned
  }

  function BanUser(b: Db, u: string): Db {
    Save(if u in b.data.banned then b else b.(data := b.data.(banned := b.data.banned + [u])))
  }

  function UnbanUser(b: Db, u: string): Db {
    Save(b.(data := b.data.(banned := Without(b.data.banned, u))))
  }

  function GroupBans(d: Data, g: string): seq<string> {
    if g in d.groupBans then d.groupBans[g] else []
  }

  predicate IsGroupBanned(d: Data, g: string, u: string) {
    u in GroupBans(d, g)
  }

  function BanFromGroup(b: Db, g: string, u: string): Db {
    var bans := GroupBans(b.data, g);
    Save(b.(data := b.data.(groupBans := b.data.groupBans[g := if u in bans then bans else bans + [u]])))
  }

  function UnbanFromGroup(b: Db, g: string, u: string): Db {
    Save(if g in b.data.groupBans
         then b.(data := b.data.(groupBans := b.data.groupBans[g := Without(b.data.groupBans[g], u)]))
         else b)
  }

  // ----- users -----

  /** The username of the user with this id. */
  ghost function NameOf(users: map<string, User>, id: string): Option<string> {
    if n :| n in users && users[n].id == id then Some(n) else None
  }

  ghost function SetPublicKey(b: Db, id: string, key: string): Db {
    match NameOf(b.data.users, id)
    case None => b
    case Some(n) => Save(b.(data := b.data.(users := b.data.users[n := b.data.users[n].(publicKey := key)])))
  }

  ghost function PublicKeyOf(users: map<string, User>, id: string): string {
    match NameOf(users, id)
    case None => ""
    case Some(n) => users[n].publicKey
  }

  function UserIdOf(users: map<string, User>, name: string): string {
    if name in users then users[name].id else ""
  }

  datatype Login = Accepted(user: User) | Refused | LoginThrew

  function LoginUser(env: Env, users: map<string, User>, name: string, password: Option<string>): Login {
    if name !in users then Refused
    else if password.None? then LoginThrew
    else if users[name].passwordHash != env.hash(password.value) then Refused
    else Accepted(users[name])
  }

  /** Membership tables after joining the first k groups that have a default
      name; `ok` is false once a group without a table was met. */
  datatype Joined = Joined(members: Dict<Members>, ok: bool)

  function JoinIfDefault(defaults: seq<string>, groups: Dict<Group>, j: Joined, gid: string, id: string): Joined
    requires gid in groups.vals
  {
    if !j.ok || groups.vals[gid].name !in defaults then j
    else if gid !in j.members.vals then j.(ok := false)
    else
      var m := j.members.vals[gid];
      if id in m.vals && m.vals[id] != "" then j
      else Joined(Put(j.members, gid, Put(m, id, "")), true)
  }

  function AutoJoin(defaults: seq<string>, groups: Dict<Group>, members: Dict<Members>, id: string, k: nat): Joined
    requires k <= |groups.keys|
  {
    if k == 0 then Joined(members, true)
    else
      assert groups.keys[k - 1] in groups.keys;
      JoinIfDefault(defaults, groups, AutoJoin(defaults, groups, members, id, k - 1), groups.keys[k - 1], id)
  }

  datatype Registration = Registered(id: string) | Taken | RegisterThrew

  /** Store the new user, then join the default groups; saved once after each. */
  function Enroll(b: Db, user: User): (Db, Registration) {
    var b1 := Save(b.(data := b.data.(users := b.data.users[user.username := user])));
    var j := AutoJoin(DEFAULT_GROUPS, b1.data.groups, b1.data.members, user.id, |b1.data.groups.keys|);
    var b2 := b1.(data := b1.data.(members := j.members));
    if j.ok then (Save(b2), Registered(user.id)) else (b2, RegisterThrew)
  }

  function RegisterUser(env: Env, b: Db, name: string, password: Option<string>): (Db, Registration) {
    if name in b.data.users then (b, Taken)
    else
      var id := env.uuid(b.uuids);
      var b1 := b.(uuids := b.uuids + 1);
      if password.None? then (b1, RegisterThrew)
      else Enroll(b1, User(id, name, env.hash(password.value), "", false))
  }

  // ----- groups -----

  /** The first group named "general", or "". */
  function GeneralGroupId(groups: Dict<Group>, k: nat): string
    requires k <= |groups.keys|
  {
    if k == 0 then ""
    else
      var before := GeneralGroupId(groups, k - 1);
      if before == "" && groups.vals[groups.keys[k - 1]].name == GENERAL_GROUP then groups.keys[k - 1] else before
  }

  function General(d: Data): string {
    GeneralGroupId(d.groups, |d.groups.keys|)
  }

  function AddMember(b: Db, g: string, u: string, key: string): Db {
    if g !in b.data.members.vals then b
    else Save(b.(data := b.data.(members := Put(b.data.members, g, Put(b.data.members.vals[g], u, key)))))
  }

  function RemoveMember(b: Db, g: string, u: string): Db {
    if g !in b.data.members.vals then b
    else Save(b.(data := b.data.(members := Put(b.data.members, g, Del(b.data.members.vals[g], u)))))
  }

  /** A group without members. */
  function NewGroup(env: Env, b: Db, name: string, owner: string): Db {
    var id := env.uuid(b.uuids);
    b.(data := b.data.(groups := Put(b.data.groups, id, Group(id, name, owner)),
                       members := Put(b.data.members, id, Empty<string>())),
       uuids := b.uuids + 1)
  }

  function CreateGroup(env: Env, b: Db, name: string, owner: string): Db {
    Save(AddMember(NewGroup(env, b, name, owner), env.uuid(b.uuids), owner, ""))
  }

  function RenameGroup(b: Db, g: string, name: string): Db {
    if g !in b.data.groups.vals then b
    else Save(b.(data := b.data.(groups := Put(b.data.groups, g, b.data.groups.vals[g].(name := name)))))
  }

  function DeleteGroup(b: Db, g: string): Db {
    if g !in b.data.groups.vals then b
    else Save(b.(data := b.data.(groups := Del(b.data.groups, g), members := Del(b.data.members, g))))
  }

  function GroupMembers(d: Data, g: string): seq<string> {
    if g in d.members.vals then d.members.vals[g].keys else []
  }

  /** The groups among the first k membership tables that list the user. */
  function UserGroups(d: Data, u: string, k: nat): seq<GroupRef>
    requires k <= |d.members.keys|
  {
    if k == 0 then []
    else
      var before := UserGroups(d, u, k - 1);
      var gid := d.members.keys[k - 1];
      if u in d.members.vals[gid].vals && gid in d.groups.vals
      then before + [GroupRef(d.groups.vals[gid].id, d.groups.vals[gid].name)]
      else before
  }

  function GroupsOf(d: Data, u: string): seq<GroupRef> {
    UserGroups(d, u, |d.members.keys|)
  }
}
