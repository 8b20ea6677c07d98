/** What the database operations keep: well-formedness, group-ban disjointness,
    and agreement with the saved file. */
module DbInvariants {
  import opened Wrappers
  import opened Dicts
  import opened ChatModel
  import opened DbSpec

  ghost predicate UsersOk(users: map<string, User>) {
    && (forall n :: n in users ==>
          && users[n].username == n && users[n].id != "" && users[n].id != SYSTEM_ID
          && (users[n].id == NULL_ID <==> n == THE_NULL_USER))
    && (forall m, n :: m in users && n in users && users[m].id == users[n].id ==> m == n)
  }

  ghost predicate GroupsOk(d: Data) {
    && (forall g :: g in d.groups.vals <==> g in d.members.vals)
    && (forall g :: g in d.groups.vals ==> g != "" && d.groups.vals[g].id == g)
  }

  ghost predicate MembersKnown(d: Data) {
    forall g, u :: g in d.members.vals && u in d.members.vals[g].vals ==> u in Ids(d.users)
  }

  /** A list of distinct ids of registered users. */
  ghost predicate BanList(d: Data, bans: seq<string>) {
    Distinct(bans) && forall u :: u in bans ==> u in Ids(d.users)
  }

  ghost predicate BansOk(d: Data) {
    BanList(d, d.banned) && forall g :: g in d.groupBans ==> BanList(d, d.groupBans[g])
  }

  /** No id still to be drawn is in use. */
  ghost predicate Fresh(env: Env, d: Data, uuids: nat) {
    forall i: nat :: i >= uuids ==>
      env.uuid(i) !in Ids(d.users) && env.uuid(i) !in d.groups.vals && env.uuid(i) !in d.groupBans
  }

  ghost predicate WellFormed(env: Env, d: Data, uuids: nat) {
    UsersOk(d.users) && GroupsOk(d) && MembersKnown(d) && BansOk(d) && Fresh(env, d, uuids)
  }

  /** No one is a member of a group they are banned from. */
  ghost predicate BansDisjoint(d: Data) {
    forall g, u :: g in d.members.vals && u in GroupBans(d, g) ==> u !in d.members.vals[g].vals
  }

  ghost predicate DbOk(env: Env, b: Db) {
    WellFormed(env, b.data, b.uuids)
  }

  /** The full invariant between events: well-formed, disjoint, and saved. */
  ghost predicate DbInv(env: Env, b: Db) {
    DbOk(env, b) && BansDisjoint(b.data) && b.disk == b.data
  }

  /** A member's entry in a group's table: their key, if they are a member. */
  function EntryOf(d: Data, g: string, u: string): Option<string> {
    if g in d.members.vals && u in d.members.vals[g].vals then Some(d.members.vals[g].vals[u]) else None
  }

  // ----- the general group -----

  /** g is the first group, in the order they were created, that is named general. */
  ghost predicate IsGeneral(d: Data, g: string) {
    exists k :: FirstGeneral(d.groups, k) && d.groups.keys[k] == g
  }

  ghost predicate FirstGeneral(groups: Dict<Group>, k: int) {
    && 0 <= k < |groups.keys| && NamedGeneral(groups, k)
    && forall i :: 0 <= i < k ==> !NamedGeneral(groups, i)
  }

  predicate NamedGeneral(groups: Dict<Group>, k: int)
    requires 0 <= k < |groups.keys|
  {
    assert groups.keys[k] in groups.keys;
    groups.vals[groups.keys[k]].name == GENERAL_GROUP
  }

  ghost predicate NoneGeneral(d: Data) {
    forall g :: g in d.groups.vals ==> d.groups.vals[g].name != GENERAL_GROUP
  }

  /** The lookup finds the first group named general, and nothing exactly if there is none. */
  lemma GeneralExact(d: Data)
    requires GroupsOk(d)
    ensures General(d) == "" <==> NoneGeneral(d)
    ensures forall g :: IsGeneral(d, g) <==> g != "" && g == General(d)
  {
    var r := GeneralUpTo(d, |d.groups.keys|);
    if r < 0 {
      forall g | g in d.groups.vals
        ensures d.groups.vals[g].name != GENERAL_GROUP
      {
        var k :| 0 <= k < |d.groups.keys| && d.groups.keys[k] == g;
        assert !NamedGeneral(d.groups, k);
      }
    } else {
      assert FirstGeneral(d.groups, r) && d.groups.keys[r] in d.groups.vals;
      forall g | IsGeneral(d, g)
        ensures g == General(d)
      {
        var k :| FirstGeneral(d.groups, k) && d.groups.keys[k] == g;
        assert k == r;
      }
    }
  }

  lemma {:induction false} GeneralUpTo(d: Data, n: nat) returns (k: int)
    requires GroupsOk(d) && n <= |d.groups.keys|
    ensures if k < 0 then GeneralGroupId(d.groups, n) == "" && forall i :: 0 <= i < n ==> !NamedGeneral(d.groups, i)
            else k < n && FirstGeneral(d.groups, k) && GeneralGroupId(d.groups, n) == d.groups.keys[k] != ""
  {
    if n == 0 {
      k := -1;
    } else {
      k := GeneralUpTo(d, n - 1);
      assert d.groups.keys[n - 1] in d.groups.vals;
      if k < 0 && NamedGeneral(d.groups, n - 1) {
        k := n - 1;
      }
    }
  }

  // ----- users by id -----

  /** With unique ids, a scan for an id finds the one user who has it. */
  lemma NameOfUser(users: map<string, User>, n: string)
    requires UsersOk(users) && n in users
    ensures NameOf(users, users[n].id) == Some(n)
  {
  }

  lemma NameOfNobody(users: map<string, User>, id: string)
    ensures NameOf(users, id).None? <==> id !in Ids(users)
  {
    assert id in Ids(users) <==> exists n :: n in users && users[n].id == id;
  }

  lemma SetPublicKeyKeeps(env: Env, b: Db, id: string, key: string)
    requires DbOk(env, b)
    ensures DbOk(env, SetPublicKey(b, id, key))
    ensures Ids(SetPublicKey(b, id, key).data.users) == Ids(b.data.users)
    ensures BansDisjoint(b.data) ==> BansDisjoint(SetPublicKey(b, id, key).data)
    ensures b.disk == b.data ==> SetPublicKey(b, id, key).disk == SetPublicKey(b, id, key).data
  {
    var users, users' := b.data.users, SetPublicKey(b, id, key).data.users;
    assert users.Keys == users'.Keys;
    assert forall n :: n in users ==> users[n].id == users'[n].id;
    IdsKept(users, users');
  }

  lemma IdsKept(users: map<string, User>, users': map<string, User>)
    requires users.Keys == users'.Keys
    requires forall n :: n in users ==> users[n].id == users'[n].id
    ensures Ids(users') == Ids(users)
  {
    forall id | id in Ids(users)
      ensures id in Ids(users')
    {
      var n :| n in users && users[n].id == id;
      assert users'[n].id == id;
    }
  }

  lemma IdsOfNew(users: map<string, User>, n: string, u: User)
    requires n !in users
    ensures Ids(users[n := u]) == Ids(users) + {u.id}
  {
    var users' := users[n := u];
    forall id | id in Ids(users)
      ensures id in Ids(users')
    {
      var m :| m in users && users[m].id == id;
      assert users'[m].id == id;
    }
    assert users'[n].id == u.id;
  }

  // ----- seeding -----

  lemma SeedNullKeeps(env: Env, b: Db)
    requires EnvOk(env) && DbOk(env, b)
    ensures DbOk(env, SeedNull(env, b)) && NULL_ID in Ids(SeedNull(env, b).data.users)
    ensures BansDisjoint(b.data) ==> BansDisjoint(SeedNull(env, b).data)
  {
    if THE_NULL_USER in b.data.users {
      assert b.data.users[THE_NULL_USER].id == NULL_ID;
    } else {
      IdsOfNew(b.data.users, THE_NULL_USER, SeedNull(env, b).data.users[THE_NULL_USER]);
    }
  }

  lemma AddDefaultGroupKeeps(env: Env, b: Db, name: string)
    requires EnvOk(env) && DbOk(env, b) && NULL_ID in Ids(b.data.users)
    ensures DbOk(env, AddDefaultGroup(env, b, name))
    ensures BansDisjoint(b.data) ==> BansDisjoint(AddDefaultGroup(env, b, name).data)
  {
  }

  /** What seeding keeps of b, with TheNull there. */
  ghost predicate SeedingOk(env: Env, b: Db, b': Db) {
    DbOk(env, b') && b'.data.users == b.data.users && (BansDisjoint(b.data) ==> BansDisjoint(b'.data))
  }

  lemma SeedGroupsKeeps(env: Env, b: Db, existing: set<string>, defaults: seq<string>, k: nat)
    requires EnvOk(env) && DbOk(env, b) && NULL_ID in Ids(b.data.users) && k <= |defaults|
    ensures DbOk(env, SeedGroups(env, b, existing, defaults, k))
    ensures SeedGroups(env, b, existing, defaults, k).data.users == b.data.users
    ensures BansDisjoint(b.data) ==> BansDisjoint(SeedGroups(env, b, existing, defaults, k).data)
  {
    SeedGroupsOk(env, b, b, existing, defaults, k);
  }

  lemma {:induction false} SeedGroupsOk(env: Env, b0: Db, b: Db, existing: set<string>, defaults: seq<string>, k: nat)
    requires EnvOk(env) && SeedingOk(env, b0, b) && NULL_ID in Ids(b0.data.users) && k <= |defaults|
    ensures SeedingOk(env, b0, SeedGroups(env, b, existing, defaults, k))
  {
    if k > 0 {
      SeedGroupsOk(env, b0, b, existing, defaults, k - 1);
      NextSeedOk(env, b0, SeedGroups(env, b, existing, defaults, k - 1), defaults[k - 1]);
    }
  }

  lemma NextSeedOk(env: Env, b: Db, before: Db, name: string)
    requires EnvOk(env) && NULL_ID in Ids(b.data.users) && SeedingOk(env, b, before)
    ensures SeedingOk(env, b, AddDefaultGroup(env, before, name))
  {
    AddDefaultGroupKeeps(env, before, name);
  }

  lemma SeedKeeps(env: Env, b: Db)
    requires EnvOk(env) && DbOk(env, b) && BansDisjoint(b.data)
    ensures DbInv(env, Seed(env, b))
  {
    SeedNullKeeps(env, b);
    SeedGroupsKeeps(env, SeedNull(env, b), GroupNames(b.data.groups), DEFAULT_GROUPS, |DEFAULT_GROUPS|);
  }

  // ----- bans -----

  lemma BanUserKeeps(env: Env, b: Db, u: string)
    requires DbOk(env, b) && u in Ids(b.data.users)
    ensures DbOk(env, BanUser(b, u))
  {
    if u !in b.data.banned {
      DistinctAdd(b.data.banned, u);
    }
  }

  lemma UnbanUserKeeps(env: Env, b: Db, u: string)
    requires DbOk(env, b)
    ensures DbOk(env, UnbanUser(b, u))
  {
    WithoutDistinct(b.data.banned, u);
  }

  /** Fresh ids must not name a group with a ban list, so the group must exist. */
  lemma BanFromGroupKeeps(env: Env, b: Db, g: string, u: string)
    requires DbOk(env, b) && u in Ids(b.data.users) && g in b.data.groups.vals
    ensures DbOk(env, BanFromGroup(b, g, u))
  {
    if u !in GroupBans(b.data, g) {
      DistinctAdd(GroupBans(b.data, g), u);
    }
  }

  /** Ban, then remove: together they keep bans and memberships apart. */
  lemma BanThenRemoveDisjoint(b: Db, g: string, u: string)
    requires BansDisjoint(b.data)
    ensures BansDisjoint(RemoveMember(BanFromGroup(b, g, u), g, u).data)
  {
  }

  lemma UnbanFromGroupKeeps(env: Env, b: Db, g: string, u: string)
    requires DbOk(env, b)
    ensures DbOk(env, UnbanFromGroup(b, g, u))
    ensures BansDisjoint(b.data) ==> BansDisjoint(UnbanFromGroup(b, g, u).data)
  {
    if g in b.data.groupBans {
      WithoutDistinct(b.data.groupBans[g], u);
    }
  }

  // ----- groups and members -----

  lemma AddMemberKeeps(env: Env, b: Db, g: string, u: string, key: string)
    requires DbOk(env, b) && u in Ids(b.data.users)
    ensures DbOk(env, AddMember(b, g, u, key))
    ensures BansDisjoint(b.data) && !IsGroupBanned(b.data, g, u) ==> BansDisjoint(AddMember(b, g, u, key).data)
  {
  }

  lemma RemoveMemberKeeps(env: Env, b: Db, g: string, u: string)
    requires DbOk(env, b)
    ensures DbOk(env, RemoveMember(b, g, u))
    ensures BansDisjoint(b.data) ==> BansDisjoint(RemoveMember(b, g, u).data)
  {
  }

  lemma NewGroupKeeps(env: Env, b: Db, name: string, owner: string)
    requires EnvOk(env) && DbOk(env, b)
    ensures
      var b' := NewGroup(env, b, name, owner);
      && DbOk(env, b')
      && (BansDisjoint(b.data) ==> BansDisjoint(b'.data))
      && GroupBans(b'.data, env.uuid(b.uuids)) == []
  {
  }

  lemma CreateGroupKeeps(env: Env, b: Db, name: string, owner: string)
    requires EnvOk(env) && DbOk(env, b) && owner in Ids(b.data.users)
    ensures DbOk(env, CreateGroup(env, b, name, owner))
    ensures BansDisjoint(b.data) ==> BansDisjoint(CreateGroup(env, b, name, owner).data)
  {
    NewGroupKeeps(env, b, name, owner);
    AddMemberKeeps(env, NewGroup(env, b, name, owner), env.uuid(b.uuids), owner, "");
  }

  lemma RenameGroupKeeps(env: Env, b: Db, g: string, name: string)
    requires DbOk(env, b)
    ensures DbOk(env, RenameGroup(b, g, name))
    ensures BansDisjoint(b.data) ==> BansDisjoint(RenameGroup(b, g, name).data)
  {
  }

  lemma DeleteGroupKeeps(env: Env, b: Db, g: string)
    requires DbOk(env, b)
    ensures DbOk(env, DeleteGroup(b, g))
    ensures BansDisjoint(b.data) ==> BansDisjoint(DeleteGroup(b, g).data)
  {
  }

  // ----- registration -----

  /** Membership tables m' are m with the newcomer added, with an empty key, to
      those of the listed groups that have a default name. */
  ghost predicate JoinedDefaults(defaults: seq<string>, groups: Dict<Group>, m: Dict<Members>,
                                 m': Dict<Members>, id: string, listed: seq<string>) {
    && m'.vals.Keys == m.vals.Keys
    && forall g :: g in m.vals && g in groups.vals ==>
         m'.vals[g].vals == if g in listed && groups.vals[g].name in defaults then m.vals[g].vals[id := ""]
                            else m.vals[g].vals
  }

  lemma JoinIfDefaultExact(defaults: seq<string>, groups: Dict<Group>, m: Dict<Members>, j: Joined,
                           gid: string, id: string, listed: seq<string>)
    requires gid in groups.vals && gid !in listed && gid in m.vals && id !in m.vals[gid].vals
    requires j.ok && JoinedDefaults(defaults, groups, m, j.members, id, listed)
    ensures JoinIfDefault(defaults, groups, j, gid, id).ok
    ensures JoinedDefaults(defaults, groups, m, JoinIfDefault(defaults, groups, j, gid, id).members, id, listed + [gid])
  {
    var m' := JoinIfDefault(defaults, groups, j, gid, id).members;
    forall g | g in m.vals && g in groups.vals
      ensures m'.vals[g].vals == if g in listed + [gid] && groups.vals[g].name in defaults
                                 then m.vals[g].vals[id := ""] else m.vals[g].vals
    {
      assert g in listed + [gid] <==> g in listed || g == gid;
      if g != gid {
        assert m'.vals[g] == j.members.vals[g];
      }
    }
  }

  lemma {:induction false} AutoJoinExact(defaults: seq<string>, groups: Dict<Group>, m: Dict<Members>,
                                         id: string, k: nat)
    requires k <= |groups.keys|
    requires forall g :: g in groups.vals ==> g in m.vals && id !in m.vals[g].vals
    ensures AutoJoin(defaults, groups, m, id, k).ok
    ensures JoinedDefaults(defaults, groups, m, AutoJoin(defaults, groups, m, id, k).members, id, groups.keys[..k])
  {
    if k > 0 {
      AutoJoinExact(defaults, groups, m, id, k - 1);
      NextToJoin(groups, k);
      JoinIfDefaultExact(defaults, groups, m, AutoJoin(defaults, groups, m, id, k - 1), groups.keys[k - 1], id,
                         groups.keys[..k - 1]);
    }
  }

  lemma NextToJoin(groups: Dict<Group>, k: nat)
    requires 0 < k <= |groups.keys|
    ensures groups.keys[k - 1] in groups.vals && groups.keys[k - 1] !in groups.keys[..k - 1]
    ensures groups.keys[..k] == groups.keys[..k - 1] + [groups.keys[k - 1]]
  {
    DistinctFrom(groups.keys, k - 1);
    assert groups.keys[k - 1] in groups.keys;
  }

  /** Registration never meets a group without a member table. It makes the new
      user a member of exactly the groups with a default name, and changes
      nothing else about anyone's membership. */
  lemma RegisterExact(env: Env, b: Db, name: string, password: string)
    requires EnvOk(env) && DbOk(env, b) && name !in b.data.users
    ensures
      var id := env.uuid(b.uuids);
      var (b', r) := RegisterUser(env, b, name, Some(password));
      && r == Registered(id)
      && b'.data == b.data.(users := b.data.users[name := User(id, name, env.hash(password), "", false)],
                            members := b'.data.members)
      && b'.disk == b'.data && b'.uuids == b.uuids + 1
      && JoinedDefaults(DEFAULT_GROUPS, b.data.groups, b.data.members, b'.data.members, id, b.data.groups.keys)
  {
    var id := env.uuid(b.uuids);
    NewcomerInNoGroup(env, b, id);
    AutoJoinExact(DEFAULT_GROUPS, b.data.groups, b.data.members, id, |b.data.groups.keys|);
    assert b.data.groups.keys[..|b.data.groups.keys|] == b.data.groups.keys;
  }

  lemma NewcomerInNoGroup(env: Env, b: Db, id: string)
    requires DbOk(env, b) && id !in Ids(b.data.users)
    ensures forall g :: g in b.data.groups.vals ==> g in b.data.members.vals && id !in b.data.members.vals[g].vals
  {
  }

  /** The same, said of members: the newcomer is in exactly the default groups,
      everyone else is where they were. */
  lemma RegisterMembership(env: Env, b: Db, name: string, password: string, g: string, u: string)
    requires EnvOk(env) && DbOk(env, b) && name !in b.data.users
    ensures
      var id := env.uuid(b.uuids);
      var d' := RegisterUser(env, b, name, Some(password)).0.data;
      u in GroupMembers(d', g) <==>
        if u == id then g in b.data.groups.vals && b.data.groups.vals[g].name in DEFAULT_GROUPS
        else u in GroupMembers(b.data, g)
  {
    RegisterExact(env, b, name, password);
    NewcomerInNoGroup(env, b, env.uuid(b.uuids));
  }

  lemma RegisterKeeps(env: Env, b: Db, name: string, password: Option<string>)
    requires EnvOk(env) && DbOk(env, b) && name != THE_NULL_USER
    ensures
      var (b', r) := RegisterUser(env, b, name, password);
      && DbOk(env, b')
      && (BansDisjoint(b.data) ==> BansDisjoint(b'.data))
      && (b.disk == b.data ==> b'.disk == b'.data)
      && Ids(b.data.users) <= Ids(b'.data.users)
      && (r.Registered? ==> r.id in Ids(b'.data.users))
  {
    if name !in b.data.users && password.Some? {
      var b' := RegisterUser(env, b, name, password).0;
      RegisterExact(env, b, name, password.value);
      NewcomerKeepsOk(env, b, b', b'.data.users[name]);
      if BansDisjoint(b.data) {
        NewcomerKeepsDisjoint(b.data, b'.data, env.uuid(b.uuids));
      }
    }
  }

  lemma NewcomerKeepsOk(env: Env, b: Db, b': Db, user: User)
    requires EnvOk(env) && DbOk(env, b) && user.username !in b.data.users && user.username != THE_NULL_USER
    requires user.id == env.uuid(b.uuids) && b'.uuids == b.uuids + 1
    requires b'.data == b.data.(users := b.data.users[user.username := user], members := b'.data.members)
    requires JoinedDefaults(DEFAULT_GROUPS, b.data.groups, b.data.members, b'.data.members, user.id, b.data.groups.keys)
    ensures DbOk(env, b') && Ids(b'.data.users) == Ids(b.data.users) + {user.id}
  {
    IdsOfNew(b.data.users, user.username, user);
  }

  lemma NewcomerKeepsDisjoint(d: Data, d': Data, id: string)
    requires GroupsOk(d) && BansOk(d) && BansDisjoint(d) && id !in Ids(d.users)
    requires d'.groupBans == d.groupBans
    requires JoinedDefaults(DEFAULT_GROUPS, d.groups, d.members, d'.members, id, d.groups.keys)
    ensures BansDisjoint(d')
  {
    forall g, u | g in d'.members.vals && u in GroupBans(d', g)
      ensures u !in d'.members.vals[g].vals
    {
      assert BanList(d, d.groupBans[g]);
    }
  }

  /** The membership index read both ways: a group is in the list a user is
      given at login exactly when the user is in that group's member list. */
  lemma GroupListExact(env: Env, b: Db, u: string, g: string)
    requires DbOk(env, b)
    ensures (exists r :: r in GroupsOf(b.data, u) && r.id == g) <==> u in GroupMembers(b.data, g)
    ensures forall r :: r in GroupsOf(b.data, u) ==>
              r.id in b.data.groups.vals && r.name == b.data.groups.vals[r.id].name
    ensures forall i, j :: 0 <= i < j < |GroupsOf(b.data, u)| ==> GroupsOf(b.data, u)[i].id != GroupsOf(b.data, u)[j].id
  {
    UserGroupsExact(b.data, u, |b.data.members.keys|);
    assert b.data.members.keys[..|b.data.members.keys|] == b.data.members.keys;
    if u in GroupMembers(b.data, g) {
      assert g in b.data.members.keys;
    }
  }

  lemma {:induction false} UserGroupsExact(d: Data, u: string, k: nat)
    requires GroupsOk(d) && k <= |d.members.keys|
    ensures forall r :: r in UserGroups(d, u, k) ==>
              r.id in d.members.keys[..k] && u in d.members.vals[r.id].vals && r.name == d.groups.vals[r.id].name
    ensures forall g :: g in d.members.keys[..k] && u in d.members.vals[g].vals ==>
              exists r :: r in UserGroups(d, u, k) && r.id == g
    ensures forall i, j :: 0 <= i < j < |UserGroups(d, u, k)| ==> UserGroups(d, u, k)[i].id != UserGroups(d, u, k)[j].id
  {
    if k > 0 {
      var last := d.members.keys[k - 1];
      var before := UserGroups(d, u, k - 1);
      UserGroupsExact(d, u, k - 1);
      assert d.members.keys[..k] == d.members.keys[..k - 1] + [last];
      assert last in d.members.keys;
      DistinctFrom(d.members.keys, k - 1);
      if u in d.members.vals[last].vals {
        var r := GroupRef(last, d.groups.vals[last].name);
        assert UserGroups(d, u, k) == before + [r];
        assert r in UserGroups(d, u, k);
        forall g | g in d.members.keys[..k - 1] && u in d.members.vals[g].vals
          ensures exists q :: q in UserGroups(d, u, k) && q.id == g
        {
          var q :| q in before && q.id == g;
          assert q in UserGroups(d, u, k);
        }
      }
    }
  }
}
