/** class JsonDB of server.js: the same operations, updating the stored tables
    in place, each proved against its function in DbSpec. */
module JsonDbModel {
  import opened Wrappers
  import opened Dicts
  import opened ChatModel
  import DbSpec
  import opened DbInvariants

  class JsonDB {
    const env: Env
    var users: map<string, User>
    var groups: Dict<Group>
    var members: Dict<Members>
    var bannedUsers: seq<string>
    var groupBans: map<string, seq<string>>
    var disk: Data   // the file
    var uuids: nat   // how many random ids were drawn

    ghost function State(): Db
      reads this
    {
      Db(Data(users, groups, members, bannedUsers, groupBans), disk, uuids)
    }

    ghost predicate Valid()
      reads this
    {
      EnvOk(env) && DbOk(env, State())
    }

    /** Load the file, then seed. */
    constructor (env: Env, stored: Data, uuids: nat)
      ensures this.env == env
      ensures State() == DbSpec.Seed(env, Db(stored, stored, uuids))
      ensures EnvOk(env) && WellFormed(env, stored, uuids) ==> Valid()
    {
      this.env := env;
      users, groups, members := stored.users, stored.groups, stored.members;
      bannedUsers, groupBans := stored.banned, stored.groupBans;
      disk, this.uuids := stored, uuids;
      new;
      assert State() == Db(stored, stored, uuids);
      Seed();
    }

    method Save()
      modifies `disk
      ensures State() == DbSpec.Save(old(State()))
    {
      disk := Data(users, groups, members, bannedUsers, groupBans);
    }

    method RandomUUID() returns (id: string)
      modifies `uuids
      ensures id == env.uuid(old(uuids)) && uuids == old(uuids) + 1
    {
      id := env.uuid(uuids);
      uuids := uuids + 1;
    }

    method GroupNames() returns (names: set<string>)
      ensures names == DbSpec.GroupNames(groups)
    {
      names := {};
      for i := 0 to |groups.keys|
        invariant names == set g | g in groups.keys[..i] :: groups.vals[g].name
      {
        assert groups.keys[i] in groups.vals;
        assert groups.keys[..i + 1] == groups.keys[..i] + [groups.keys[i]];
        names := names + {groups.vals[groups.keys[i]].name};
      }
      assert groups.keys[..|groups.keys|] == groups.keys;
    }

    method Seed()
      modifies this
      ensures State() == DbSpec.Seed(env, old(State()))
      ensures old(Valid()) ==> Valid()
    {
      ghost var b := State();
      if Valid() {
        SeedNullKeeps(env, b);
        SeedGroupsKeeps(env, DbSpec.SeedNull(env, b), DbSpec.GroupNames(groups), DEFAULT_GROUPS, |DEFAULT_GROUPS|);
      }
      var existing := GroupNames();
      SeedNull();
      SeedGroups(existing, DEFAULT_GROUPS);
      Save();
    }

    method SeedNull()
      modifies this
      ensures State() == DbSpec.SeedNull(env, old(State()))
    {
      if THE_NULL_USER !in users {
        users := users[THE_NULL_USER := User(NULL_ID, THE_NULL_USER, env.hash(THE_NULL_PASSWORD), "", true)];
      }
    }

    method SeedGroups(existing: set<string>, defaults: seq<string>)
      modifies this
      ensures State() == DbSpec.SeedGroups(env, old(State()), existing, defaults, |defaults|)
    {
      for k := 0 to |defaults|
        invariant State() == DbSpec.SeedGroups(env, old(State()), existing, defaults, k)
      {
        var name := defaults[k];
        if name !in existing {
          AddDefaultGroup(name);
        }
      }
    }

    method AddDefaultGroup(name: string)
      modifies this
      ensures State() == DbSpec.AddDefaultGroup(env, old(State()), name)
    {
      var gid := RandomUUID();
      groups := Put(groups, gid, Group(gid, name, NULL_ID));
      members := Put(members, gid, Put(Empty<string>(), NULL_ID, ""));
    }

    // ----- bans -----

    predicate IsBanned(u: string)
      reads this
      ensures IsBanned(u) <==> DbSpec.IsBanned(State().data, u)
    {
      u in bannedUsers
    }

    method BanUser(u: string)
      requires Valid() && u in Ids(users)
      modifies this
      ensures Valid() && State() == DbSpec.BanUser(old(State()), u)
    {
      BanUserKeeps(env, State(), u);
      if u !in bannedUsers {
        bannedUsers := bannedUsers + [u];
      }
      Save();
    }

    method UnbanUser(u: string)
      requires Valid()
      modifies this
      ensures Valid() && State() == DbSpec.UnbanUser(old(State()), u)
    {
      UnbanUserKeeps(env, State(), u);
      bannedUsers := Without(bannedUsers, u);
      Save();
    }

    predicate IsGroupBanned(g: string, u: string)
      reads this
      ensures IsGroupBanned(g, u) <==> DbSpec.IsGroupBanned(State().data, g, u)
    {
      g in groupBans && u in groupBans[g]
    }

    method BanFromGroup(g: string, u: string)
      requires Valid() && u in Ids(users) && g in groups.vals
      modifies this
      ensures Valid() && State() == DbSpec.BanFromGroup(old(State()), g, u)
    {
      BanFromGroupKeeps(env, State(), g, u);
      AddGroupBan(g, u);
      Save();
    }

    method AddGroupBan(g: string, u: string)
      modifies `groupBans
      ensures
        var bans := if g in old(groupBans) then old(groupBans)[g] else [];
        groupBans == old(groupBans)[g := if u in bans then bans else bans + [u]]
    {
      if g !in groupBans {
        groupBans := groupBans[g := []];
      }
      if u !in groupBans[g] {
        groupBans := groupBans[g := groupBans[g] + [u]];
      }
    }

    method UnbanFromGroup(g: string, u: string)
      requires Valid()
      modifies this
      ensures Valid() && State() == DbSpec.UnbanFromGroup(old(State()), g, u)
    {
      UnbanFromGroupKeeps(env, State(), g, u);
      if g in groupBans {
        groupBans := groupBans[g := Without(groupBans[g], u)];
      }
      Save();
    }

    // ----- users, scanned in no particular order -----

    /** The loop shared by setPublicKey, getPublicKey and getUserById. */
    method FindUser(id: string) returns (found: Option<string>)
      requires Valid()
      ensures found == DbSpec.NameOf(users, id)
      ensures found.Some? ==> found.value in users && users[found.value].id == id
    {
      var rest := users.Keys;
      while rest != {}
        invariant rest <= users.Keys
        invariant forall n :: n in users && n !in rest ==> users[n].id != id
        decreases |rest|
      {
        var n :| n in rest;
        if users[n].id == id {
          NameOfUser(users, n);
          return Some(n);
        }
        rest := rest - {n};
      }
      NameOfNobody(users, id);
      found := None;
    }

    method SetPublicKey(id: string, key: string)
      requires Valid()
      modifies this
      ensures Valid() && State() == DbSpec.SetPublicKey(old(State()), id, key)
    {
      SetPublicKeyKeeps(env, State(), id, key);
      var found := FindUser(id);
      if found.Some? {
        users := users[found.value := users[found.value].(publicKey := key)];
        Save();
      }
    }

    method GetPublicKey(id: string) returns (key: string)
      requires Valid()
      ensures key == DbSpec.PublicKeyOf(users, id)
    {
      var found := FindUser(id);
      key := if found.Some? then users[found.value].publicKey else "";
    }

    method LoginUser(username: string, password: Option<string>) returns (r: DbSpec.Login)
      ensures r == DbSpec.LoginUser(env, users, username, password)
      ensures r.Accepted? <==>
              username in users && password.Some? && users[username].passwordHash == env.hash(password.value)
      ensures r.Accepted? ==> r.user == users[username]
    {
      if username !in users {
        return DbSpec.Refused;
      }
      if password.None? {
        return DbSpec.LoginThrew;
      }
      var hash := env.hash(password.value);
      if users[username].passwordHash != hash {
        return DbSpec.Refused;
      }
      r := DbSpec.Accepted(users[username]);
    }

    function GetUserIdByUsername(username: string): (id: string)
      reads this
      ensures id != "" ==> id in Ids(users)
    {
      DbSpec.UserIdOf(users, username)
    }

    method RegisterUser(username: string, password: Option<string>) returns (r: DbSpec.Registration)
      requires Valid() && username != THE_NULL_USER
      modifies this
      ensures Valid()
      ensures (State(), r) == DbSpec.RegisterUser(env, old(State()), username, password)
    {
      RegisterKeeps(env, State(), username, password);
      NewcomerInNoGroup(env, State(), env.uuid(uuids));
      r := Register(username, password);
    }

    method Register(username: string, password: Option<string>) returns (r: DbSpec.Registration)
      requires forall g :: g in groups.vals ==> g in members.vals && env.uuid(uuids) !in members.vals[g].vals
      modifies this
      ensures (State(), r) == DbSpec.RegisterUser(env, old(State()), username, password)
    {
      if username in users {
        return DbSpec.Taken;
      }
      var id := RandomUUID();
      if password.None? {
        return DbSpec.RegisterThrew;
      }
      r := Enroll(User(id, username, env.hash(password.value), "", false));
    }

    method Enroll(user: User) returns (r: DbSpec.Registration)
      requires forall g :: g in groups.vals ==> g in members.vals && user.id !in members.vals[g].vals
      modifies this
      ensures (State(), r) == DbSpec.Enroll(old(State()), user)
    {
      AutoJoinExact(DEFAULT_GROUPS, groups, members, user.id, |groups.keys|);
      users := users[user.username := user];
      Save();
      AutoJoin(DEFAULT_GROUPS, user.id);
      Save();
      r := DbSpec.Registered(user.id);
    }

    /** The loop that joins a newcomer to the default groups. Every group it
        meets has a member table. */
    method AutoJoin(defaults: seq<string>, id: string)
      requires forall g :: g in groups.vals ==> g in members.vals && id !in members.vals[g].vals
      modifies `members
      ensures members == DbSpec.AutoJoin(defaults, groups, old(members), id, |groups.keys|).members
    {
      ghost var m := members;
      for k := 0 to |groups.keys|
        invariant DbSpec.AutoJoin(defaults, groups, m, id, k) == DbSpec.Joined(members, true)
      {
        AutoJoinExact(defaults, groups, m, id, k + 1);
        var gid := groups.keys[k];
        assert gid in groups.keys;
        JoinIfDefault(defaults, gid, id);
      }
    }

    method JoinIfDefault(defaults: seq<string>, gid: string, id: string)
      requires gid in groups.vals
      requires DbSpec.JoinIfDefault(defaults, groups, DbSpec.Joined(members, true), gid, id).ok
      modifies `members
      ensures DbSpec.JoinIfDefault(defaults, groups, DbSpec.Joined(old(members), true), gid, id)
           == DbSpec.Joined(members, true)
    {
      if groups.vals[gid].name in defaults
         && (id !in members.vals[gid].vals || members.vals[gid].vals[id] == "") {
        members := Put(members, gid, Put(members.vals[gid], id, ""));
      }
    }

    // ----- groups -----

    method GetGeneralGroupId() returns (gid: string)
      requires Valid()
      ensures gid == "" <==> NoneGeneral(State().data)
      ensures gid != "" ==> IsGeneral(State().data, gid)
      ensures gid == DbSpec.General(State().data)
    {
      GeneralExact(State().data);
      for k := 0 to |groups.keys|
        invariant DbSpec.GeneralGroupId(groups, k) == ""
      {
        var id := groups.keys[k];
        assert id in groups.vals && id != "";
        if groups.vals[id].name == GENERAL_GROUP {
          GeneralStays(k + 1, |groups.keys|);
          return id;
        }
      }
      gid := "";
    }

    lemma GeneralStays(k: nat, n: nat)
      requires k <= n <= |groups.keys| && DbSpec.GeneralGroupId(groups, k) != ""
      ensures DbSpec.GeneralGroupId(groups, n) == DbSpec.GeneralGroupId(groups, k)
    {
      if k < n {
        GeneralStays(k, n - 1);
      }
    }

    method CreateGroup(name: string, owner: string) returns (id: string)
      requires Valid() && owner in Ids(users)
      modifies this
      ensures Valid() && State() == DbSpec.CreateGroup(env, old(State()), name, owner)
      ensures id == env.uuid(old(uuids))
    {
      ghost var b := State();
      CreateGroupKeeps(env, b, name, owner);
      NewGroupKeeps(env, b, name, owner);
      id := NewGroup(name, owner);
      var added := AddMember(id, owner, "");
      Save();
    }

    method NewGroup(name: string, owner: string) returns (id: string)
      modifies this
      ensures State() == DbSpec.NewGroup(env, old(State()), name, owner)
      ensures id == env.uuid(old(uuids))
    {
      id := RandomUUID();
      groups := Put(groups, id, Group(id, name, owner));
      members := Put(members, id, Empty<string>());
    }

    method AddMember(g: string, u: string, key: string) returns (added: bool)
      requires Valid() && u in Ids(users)
      modifies this
      ensures Valid() && State() == DbSpec.AddMember(old(State()), g, u, key)
      ensures added <==> g in old(members).vals
    {
      AddMemberKeeps(env, State(), g, u, key);
      if g !in members.vals {
        return false;
      }
      members := Put(members, g, Put(members.vals[g], u, key));
      Save();
      added := true;
    }

    method RemoveMember(g: string, u: string)
      requires Valid()
      modifies this
      ensures Valid() && State() == DbSpec.RemoveMember(old(State()), g, u)
    {
      RemoveMemberKeeps(env, State(), g, u);
      if g in members.vals {
        members := Put(members, g, Del(members.vals[g], u));
        Save();
      }
    }

    function GetGroupMembers(g: string): (ms: seq<string>)
      reads this
      ensures forall u :: u in ms <==> g in members.vals && u in members.vals[g].vals
    {
      DbSpec.GroupMembers(Data(users, groups, members, bannedUsers, groupBans), g)
    }

    method GetUserGroups(u: string) returns (list: seq<GroupRef>)
      ensures list == DbSpec.GroupsOf(State().data, u)
    {
      list := [];
      for k := 0 to |members.keys|
        invariant list == DbSpec.UserGroups(State().data, u, k)
      {
        var gid := members.keys[k];
        assert gid in members.vals;
        if u in members.vals[gid].vals && gid in groups.vals {
          list := list + [GroupRef(groups.vals[gid].id, groups.vals[gid].name)];
        }
      }
    }
  }
}
