/** What seeding the database does, and that doing it twice is doing it once. */
module Seeding {
  import opened Dicts
  import opened ChatModel
  import opened DbSpec
  import opened DbInvariants

  /** g is a group of d' that d did not have. */
  predicate Added(d: Data, d': Data, g: string) {
    g in d'.groups.vals && g !in d.groups.vals
  }

  /** Everything that was in d is in d'. */
  ghost predicate Kept(d: Data, d': Data) {
    && d'.users == d.users && d'.banned == d.banned && d'.groupBans == d.groupBans
    && (forall g :: g in d.groups.vals ==> g in d'.groups.vals && d'.groups.vals[g] == d.groups.vals[g])
    && (forall g :: g in d.members.vals ==> g in d'.members.vals && d'.members.vals[g] == d.members.vals[g])
  }

  /** The groups added are TheNull's, with TheNull as only member and a missing name. */
  ghost predicate AddedAsNeeded(d: Data, d': Data, existing: set<string>, names: seq<string>) {
    forall g :: Added(d, d', g) ==>
      && d'.groups.vals[g].name in names && d'.groups.vals[g].name !in existing
      && d'.groups.vals[g].ownerId == NULL_ID && JustTheNull(d', g)
  }

  /** The table of g has TheNull as its only member, with an empty key. */
  ghost predicate JustTheNull(d: Data, g: string) {
    g in d.members.vals && d.members.vals[g] == Put(Empty<string>(), NULL_ID, "")
  }

  /** An added group with the name. */
  ghost predicate Supplied(d: Data, d': Data, n: string) {
    exists g :: Added(d, d', g) && d'.groups.vals[g].name == n
  }

  ghost predicate AddedOnce(d: Data, d': Data) {
    forall g, h :: Added(d, d', g) && Added(d, d', h) && d'.groups.vals[g].name == d'.groups.vals[h].name ==> g == h
  }

  /** d' is d with exactly one group of TheNull's added for each of the names
      that does not exist yet. */
  ghost predicate SeededWith(d: Data, d': Data, existing: set<string>, names: seq<string>) {
    && Kept(d, d') && AddedAsNeeded(d, d', existing, names) && AddedOnce(d, d')
    && forall n :: n in names && n !in existing ==> Supplied(d, d', n)
  }

  /** d1 is d0 with one more group, and its table, under the new id gid. */
  ghost predicate OneMore(d0: Data, d1: Data, gid: string, name: string) {
    && gid !in d0.groups.vals && gid !in d0.members.vals
    && d1.users == d0.users && d1.banned == d0.banned && d1.groupBans == d0.groupBans
    && d1.groups.vals == d0.groups.vals[gid := Group(gid, name, NULL_ID)]
    && d1.members.vals.Keys == d0.members.vals.Keys + {gid}
    && (forall g :: g in d0.members.vals ==> d1.members.vals[g] == d0.members.vals[g])
    && JustTheNull(d1, gid)
  }

  lemma AddDefaultGroupIsOneMore(env: Env, b: Db, name: string)
    requires DbOk(env, b)
    ensures OneMore(b.data, AddDefaultGroup(env, b, name).data, env.uuid(b.uuids), name)
  {
  }

  lemma OneMoreSeeds(d: Data, d0: Data, d1: Data, existing: set<string>, names: seq<string>, gid: string,
                     name: string)
    requires SeededWith(d, d0, existing, names) && OneMore(d0, d1, gid, name)
    requires name !in names && name !in existing
    ensures SeededWith(d, d1, existing, names + [name])
  {
    assert forall g :: Added(d, d1, g) <==> Added(d, d0, g) || g == gid;
    OneMoreSupplies(d, d0, d1, gid, name);
    OneMoreAsNeeded(d, d0, d1, existing, names, gid, name);
  }

  lemma OneMoreSupplies(d: Data, d0: Data, d1: Data, gid: string, name: string)
    requires Kept(d, d0) && OneMore(d0, d1, gid, name)
    ensures Supplied(d, d1, name)
    ensures forall n :: Supplied(d, d0, n) ==> Supplied(d, d1, n)
  {
    assert Added(d, d1, gid) && d1.groups.vals[gid].name == name;
    forall n | Supplied(d, d0, n)
      ensures Supplied(d, d1, n)
    {
      var g :| Added(d, d0, g) && d0.groups.vals[g].name == n;
      assert Added(d, d1, g) && d1.groups.vals[g].name == n;
    }
  }

  lemma OneMoreAsNeeded(d: Data, d0: Data, d1: Data, existing: set<string>, names: seq<string>, gid: string,
                        name: string)
    requires AddedAsNeeded(d, d0, existing, names) && OneMore(d0, d1, gid, name)
    requires name !in existing
    ensures AddedAsNeeded(d, d1, existing, names + [name])
  {
    forall g | Added(d, d1, g)
      ensures d1.groups.vals[g].name in names + [name] && JustTheNull(d1, g)
    {
      if g != gid {
        assert Added(d, d0, g);
      }
    }
    assert forall g :: Added(d, d1, g) ==> Added(d, d0, g) || g == gid;
  }

  lemma {:induction false} SeedGroupsExact(env: Env, b: Db, existing: set<string>, defaults: seq<string>, k: nat)
    requires EnvOk(env) && DbOk(env, b) && NULL_ID in Ids(b.data.users)
    requires Distinct(defaults) && k <= |defaults|
    ensures SeededWith(b.data, SeedGroups(env, b, existing, defaults, k).data, existing, defaults[..k])
  {
    if k > 0 {
      var before := SeedGroups(env, b, existing, defaults, k - 1);
      var name := defaults[k - 1];
      SeedGroupsExact(env, b, existing, defaults, k - 1);
      DistinctFrom(defaults, k - 1);
      assert defaults[..k] == defaults[..k - 1] + [name];
      if name !in existing {
        SeedGroupsKeeps(env, b, existing, defaults, k - 1);
        AddDefaultGroupIsOneMore(env, before, name);
        OneMoreSeeds(b.data, before.data, AddDefaultGroup(env, before, name).data, existing, defaults[..k - 1],
                     env.uuid(before.uuids), name);
      }
    }
  }

  lemma DefaultsDistinct()
    ensures Distinct(DEFAULT_GROUPS)
  {
    var d := DEFAULT_GROUPS;
    assert |d| == 5 && |d[0]| == 7 && |d[1]| == 13 && |d[2]| == 7 && |d[3]| == 11 && |d[4]| == 9;
    assert d[0][0] == 'g' && d[2][0] == 's';
  }

  /** Seeding adds TheNull's account if it is missing, with the set password, no key
      and admin rights, and no other; it leaves every default name carried by some
      group, adds one group of TheNull's per missing name and none otherwise, and
      keeps everything that was there. */
  lemma SeedExact(env: Env, b: Db)
    requires EnvOk(env) && DbOk(env, b)
    ensures
      var d' := Seed(env, b).data;
      && THE_NULL_USER in d'.users && d'.users[THE_NULL_USER].id == NULL_ID
      && d'.users == (if THE_NULL_USER in b.data.users then b.data.users
                      else b.data.users[THE_NULL_USER :=
                                          User(NULL_ID, THE_NULL_USER, env.hash(THE_NULL_PASSWORD), "", true)])
      && SeededWith(b.data.(users := d'.users), d', GroupNames(b.data.groups), DEFAULT_GROUPS)
      && (forall n :: n in DEFAULT_GROUPS ==> n in GroupNames(d'.groups))
      && Seed(env, b).disk == d'
  {
    var b1 := SeedNull(env, b);
    var existing := GroupNames(b.data.groups);
    SeedNullKeeps(env, b);
    DefaultsDistinct();
    SeedGroupsExact(env, b1, existing, DEFAULT_GROUPS, |DEFAULT_GROUPS|);
    assert DEFAULT_GROUPS[..|DEFAULT_GROUPS|] == DEFAULT_GROUPS;
    NamesCarried(b1.data, Seed(env, b).data, existing, DEFAULT_GROUPS);
  }

  lemma NamesCarried(d: Data, d': Data, existing: set<string>, names: seq<string>)
    requires SeededWith(d, d', existing, names) && existing == GroupNames(d.groups)
    ensures forall n :: n in names ==> n in GroupNames(d'.groups)
  {
    forall n | n in names
      ensures n in GroupNames(d'.groups)
    {
      if n in existing {
        var g :| g in d.groups.vals && d.groups.vals[g].name == n;
        assert d'.groups.vals[g].name == n;
      } else {
        assert Supplied(d, d', n);
        var g :| Added(d, d', g) && d'.groups.vals[g].name == n;
        assert g in d'.groups.vals;
      }
    }
  }

  lemma {:induction false} NothingToSeed(env: Env, b: Db, existing: set<string>, defaults: seq<string>, k: nat)
    requires k <= |defaults| && forall n :: n in defaults ==> n in existing
    ensures SeedGroups(env, b, existing, defaults, k) == b
  {
    if k > 0 {
      assert defaults[k - 1] in defaults;
      NothingToSeed(env, b, existing, defaults, k - 1);
    }
  }

  /** A second seeding changes nothing. */
  lemma SeedIdempotent(env: Env, b: Db)
    requires EnvOk(env) && DbOk(env, b)
    ensures Seed(env, Seed(env, b)) == Seed(env, b)
  {
    SeedExact(env, b);
    var b' := Seed(env, b);
    NothingToSeed(env, b', GroupNames(b'.data.groups), DEFAULT_GROUPS, |DEFAULT_GROUPS|);
  }
}
