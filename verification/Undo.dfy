/** What undoes what in the database, and the user table read as a key store. */
module Undo {
  import opened Dicts
  import opened ChatModel
  import opened DbSpec
  import opened DbInvariants

  lemma {:induction false} WithoutLast(s: seq<string>, x: string)
    requires x !in s
    ensures Without(s + [x], x) == s
  {
    assert (s + [x])[..|s|] == s;
  }

  lemma DelAfterPut<V>(d: Dict<V>, k: string, v: V)
    requires k !in d.vals
    ensures Del(Put(d, k, v), k) == d
  {
    WithoutLast(d.keys, k);
    assert d.vals[k := v] - {k} == d.vals;
  }

  /** Unbanning a user who was banned just now restores the database exactly. */
  lemma UnbanUndoesBan(b: Db, u: string)
    requires u !in b.data.banned
    ensures UnbanUser(BanUser(b, u), u).data == b.data
  {
    WithoutLast(b.data.banned, u);
  }

  /** Removing a member who joined just now restores every membership table, order included. */
  lemma RemoveUndoesAdd(b: Db, g: string, u: string, key: string)
    requires g in b.data.members.vals && u !in b.data.members.vals[g].vals
    ensures RemoveMember(AddMember(b, g, u, key), g, u).data == b.data
  {
    var m := b.data.members.vals[g];
    DelAfterPut(m, u, key);
    var once := Put(b.data.members, g, Put(m, u, key));
    assert Put(once, g, m).vals == b.data.members.vals;
  }

  /** Deleting a group created just now restores the database exactly. */
  lemma DeleteUndoesCreate(env: Env, b: Db, name: string, owner: string)
    requires EnvOk(env) && DbOk(env, b)
    ensures DeleteGroup(CreateGroup(env, b, name, owner), env.uuid(b.uuids)).data == b.data
  {
    var id := env.uuid(b.uuids);
    assert id !in b.data.groups.vals && id !in b.data.members.vals;
    DelAfterPut(b.data.groups, id, Group(id, name, owner));
    DelAfterPut(b.data.members, id, Put(Empty<string>(), owner, ""));
    PutAgain(b.data.members, id, Empty<string>(), Put(Empty<string>(), owner, ""));
    CreatedData(env, b, name, owner);
  }

  lemma PutAgain<V>(d: Dict<V>, k: string, v: V, w: V)
    ensures Put(Put(d, k, v), k, w) == Put(d, k, w)
  {
    assert d.vals[k := v][k := w] == d.vals[k := w];
  }

  lemma CreatedData(env: Env, b: Db, name: string, owner: string)
    ensures
      var id := env.uuid(b.uuids);
      CreateGroup(env, b, name, owner).data
      == b.data.(groups := Put(b.data.groups, id, Group(id, name, owner)),
                 members := Put(Put(b.data.members, id, Empty<string>()), id, Put(Empty<string>(), owner, "")))
  {
  }

  /** Setting and getting public keys by scanning for an id is a map from
      registered ids to keys: a set is read back, and changes no other key. */
  lemma PublicKeysFormMap(env: Env, b: Db, id: string, key: string, other: string)
    requires DbOk(env, b)
    ensures
      var users' := SetPublicKey(b, id, key).data.users;
      PublicKeyOf(users', other)
      == if other == id && id in Ids(b.data.users) then key else PublicKeyOf(b.data.users, other)
  {
    var users, users' := b.data.users, SetPublicKey(b, id, key).data.users;
    SetPublicKeyKeeps(env, b, id, key);
    NameOfNobody(users, id);
    NameOfNobody(users, other);
    NameOfNobody(users', other);
    if other in Ids(users) {
      var n :| n in users && users[n].id == other;
      NameOfUser(users, n);
      NameOfUser(users', n);
      if id in Ids(users) {
        var m :| m in users && users[m].id == id;
        NameOfUser(users, m);
      }
    }
  }
}
