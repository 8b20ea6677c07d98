/** A concrete environment, store and cast on which the runs of module Scenes
    can be played, from the start of the server. */
module Witnesses {
  import opened Wrappers
  import opened Framing
  import opened Dicts
  import opened ChatModel
  import opened DbSpec
  import opened DbInvariants
  import Effects
  import opened World
  import opened Invariants
  import opened Scenes
  import Routing
  import Rights
  import Safety
  import Seeding
  import Broadcast
  import Addressing

  // ----- the environment and the store -----

  const NO_FIELDS := Json("", None, "", "", "", None, false, 0, "", "", "", "", "", "", "", "")

  // the users: three ordinary ones and the admin
  const USER_A := User("A", "a", "", "", false)
  const USER_B := User("B", "b", "", "", false)
  const USER_E := User("E", "e", "", "", false)
  const ADMIN := User(NULL_ID, THE_NULL_USER, "", "", true)

  /** One body for each request the scenes make. */
  function Script(body: seq<byte>): Parsed {
    if |body| != 1 then Malformed
    else if body[0] == 1 then Record(NO_FIELDS.(username := "a", password := Some("")))
    else if body[0] == 2 then Record(NO_FIELDS.(username := "b", password := Some("")))
    else if body[0] == 3 then Record(NO_FIELDS.(username := THE_NULL_USER, password := Some("")))
    else if body[0] == 4 then
      Record(NO_FIELDS.(username := "c", password := Some(""), invitePassword := INVITE_PASSWORD))
    else if body[0] == 5 then Record(NO_FIELDS.(content := Some("/ban" + " " + "a")))
    else if body[0] == 6 then Record(NO_FIELDS.(targetId := "B"))
    else if body[0] == 7 then Record(NO_FIELDS.(username := "e", password := Some("")))
    else if body[0] == 8 then Record(NO_FIELDS.(groupId := "g", content := Some("")))
    else if body[0] == 9 then Record(NO_FIELDS.(groupId := "h"))
    else Malformed
  }

  /** Ids are runs of a's of different lengths, hashes are all the same, and
      lower-casing changes nothing. */
  const ENV := Env((n: nat) => seq(n + 1, _ => 'a'), _ => 0, _ => "", s => s, Script)

  const USERS := map["a" := USER_A, "b" := USER_B, "e" := USER_E, THE_NULL_USER := ADMIN]

  /** Two groups, of a, and of a and b. */
  const ROOMS: Dict<Group> := Put(Put(Empty(), "g", Group("g", "", "A")), "h", Group("h", "", "A"))
  const TABLES: Dict<Members> :=
    Put(Put(Empty(), "g", Put(Empty(), "A", "")), "h", Put(Put(Empty(), "A", ""), "B", ""))

  /** b is banned from the first. */
  const STORED := Data(USERS, ROOMS, TABLES, [], map["g" := ["B"]])

  lemma EnvFits()
    ensures EnvOk(ENV)
  {
    forall i: nat, j: nat | i < j
      ensures ENV.uuid(i) != ENV.uuid(j)
    {
      assert |ENV.uuid(i)| == i + 1 && |ENV.uuid(j)| == j + 1;
    }
    forall i: nat
      ensures ENV.uuid(i) != NULL_ID && ENV.uuid(i) != SYSTEM_ID && ENV.uuid(i) != ""
    {
      assert ENV.uuid(i)[0] == 'a' && NULL_ID[0] == '0' && SYSTEM_ID[0] == 's';
    }
  }

  lemma UsersFit()
    ensures IsCast(USERS) && UsersOk(USERS) && Ids(USERS) == {"A", "B", "E", NULL_ID}
  {
    assert |NULL_ID| == 36 && |SYSTEM_ID| == 6 && |THE_NULL_USER| == 7;
    assert "A"[0] == 'A' && "B"[0] == 'B' && "E"[0] == 'E' && "a"[0] == 'a' && "b"[0] == 'b' && "e"[0] == 'e';
    assert "c"[0] == 'c';
    IdsOfCast(USERS);
  }

  predicate IsCast(users: map<string, User>) {
    && "a" in users && users["a"] == USER_A
    && "b" in users && users["b"] == USER_B
    && "e" in users && users["e"] == USER_E
    && THE_NULL_USER in users && users[THE_NULL_USER] == ADMIN
    && "c" !in users
  }

  lemma IdsOfCast(users: map<string, User>)
    requires IsCast(users) && users.Keys == {"a", "b", "e", THE_NULL_USER}
    ensures Ids(users) == {"A", "B", "E", NULL_ID}
  {
    assert users["a"].id == "A" && users["b"].id == "B" && users["e"].id == "E";
    assert users[THE_NULL_USER].id == NULL_ID;
  }

  lemma StoreIsSmall()
    ensures SmallStore(STORED, {"A", "B", "E", NULL_ID}, "g", "h", "A", "B")
  {
    UsersFit();
    RoomsAreSmall();
    assert "A"[0] == 'A' && "B"[0] == 'B';
  }

  lemma RoomsAreSmall()
    ensures SmallRooms(STORED, "g", "h", "A", "B")
  {
    TablesFit();
    assert "g"[0] == 'g' && "h"[0] == 'h';
  }

  /** The random ids are none of these. */
  ghost predicate Unused(env: Env, ids: set<string>, g: string, h: string) {
    forall i: nat :: env.uuid(i) !in ids && env.uuid(i) != g && env.uuid(i) != h
  }

  lemma IdsUnused()
    ensures Unused(ENV, {"A", "B", "E", NULL_ID}, "g", "h")
  {
    assert "A"[0] == 'A' && "B"[0] == 'B' && "E"[0] == 'E' && "g"[0] == 'g' && "h"[0] == 'h' && NULL_ID[0] == '0';
    forall i: nat
      ensures ENV.uuid(i) !in {"A", "B", "E", NULL_ID} && ENV.uuid(i) != "g" && ENV.uuid(i) != "h"
    {
      assert ENV.uuid(i)[0] == 'a';
    }
  }

  lemma TablesFit()
    ensures ROOMS.vals == map["g" := Group("g", "", "A"), "h" := Group("h", "", "A")]
    ensures TABLES.vals == map["g" := Put(Empty(), "A", ""), "h" := Put(Put(Empty(), "A", ""), "B", "")]
    ensures Put(Empty(), "A", "").keys == ["A"] && Put(Put(Empty(), "A", ""), "B", "").keys == ["A", "B"]
  {
    assert "g"[0] == 'g' && "h"[0] == 'h' && "A"[0] == 'A' && "B"[0] == 'B';
  }

  /** A store of two groups g and h, of a and of a and b, where b is banned from g. */
  ghost predicate SmallStore(d: Data, ids: set<string>, g: string, h: string, a: string, b: string) {
    && UsersOk(d.users) && Ids(d.users) == ids && a in ids && b in ids && a != b
    && d.banned == [] && d.groupBans == map[g := [b]] && SmallRooms(d, g, h, a, b)
  }

  ghost predicate SmallRooms(d: Data, g: string, h: string, a: string, b: string) {
    && g != h && g != "" && h != ""
    && d.groups.vals.Keys == {g, h} && d.members.vals.Keys == {g, h}
    && d.groups.vals[g].id == g && d.groups.vals[h].id == h
    && d.members.vals[g].vals.Keys == {a} && d.members.vals[h].vals.Keys == {a, b}
  }

  lemma SmallStoreFits(env: Env, d: Data, ids: set<string>, g: string, h: string, a: string, b: string)
    requires SmallStore(d, ids, g, h, a, b)
    requires Unused(env, ids, g, h)
    ensures WellFormed(env, d, 0) && BansDisjoint(d)
  {
    assert Distinct([b]) && Distinct(d.banned);
  }

  // ----- the cast -----

  /** Three users and an admin, the bodies of their logins (a, b, n, e), and those
      of a registration, a ban of a, an offer to b, and two posts. */
  datatype Cast = Cast(a: User, b: User, n: User, e: User, keyA: byte, keyB: byte, keyN: byte, keyE: byte,
                       newcomer: byte, ban: byte, offer: byte, post: byte, silent: byte)

  const CAST := Cast(USER_A, USER_B, ADMIN, USER_E, 1, 2, 3, 7, 4, 5, 6, 8, 9)

  /** A server started on a well-formed store, on which the cast can play. */
  ghost predicate Stage(env: Env, stored: Data, t: Cast) {
    var w := Boot(env, stored, 0);
    && EnvOk(env) && WellFormed(env, stored, 0) && BansDisjoint(stored) && Inv(env, w) && Idle(w)
    && OnStage(env, w.g.db.data, t)
  }

  predicate OnStage(env: Env, d: Data, t: Cast) {
    && Logins(env, t) && Requests(env, t) && Accounts(d, t) && NewcomerIn(env, t.newcomer, d)
    && Rooms(d, GroupOf(env, t.ban), GroupOf(env, t.post), GroupOf(env, t.silent), t)
  }

  predicate Logins(env: Env, t: Cast) {
    Opens(env, t.keyA, t.a) && Opens(env, t.keyB, t.b) && Opens(env, t.keyN, t.n) && Opens(env, t.keyE, t.e)
  }

  predicate Requests(env: Env, t: Cast) {
    && Bans(env, t.ban, t.a.username)
    && Posts(env, t.offer) && env.parse([t.offer]).json.targetId == t.b.id
    && Posts(env, t.post) && env.parse([t.post]).json.content.Some?
    && Posts(env, t.silent) && env.parse([t.silent]).json.content.None?
  }

  function GroupOf(env: Env, key: byte): string {
    match env.parse([key]) case Record(j) => j.groupId case _ => ""
  }

  predicate Accounts(d: Data, t: Cast) {
    && t.a.id != t.b.id && t.a.id != t.n.id && t.b.id != t.n.id && t.a.id != t.e.id && t.b.id != t.e.id
    && t.a.id != "" && t.b.id != "" && t.n.id != "" && t.n.isNull && !t.e.isNull
    && MayLogIn(d, t.a) && MayLogIn(d, t.b) && MayLogIn(d, t.n) && MayLogIn(d, t.e)
  }

  predicate NewcomerIn(env: Env, key: byte, d: Data) {
    match env.parse([key])
    case Record(j) =>
      && j.invitePassword == INVITE_PASSWORD && j.password.Some? && j.username != THE_NULL_USER
      && j.username !in d.users && !IsBanned(d, j.username)
    case _ => false
  }

  /** b is banned from the group posted to, of which a is a member; a and b are
      members of the other. */
  predicate Rooms(d: Data, command: string, shown: string, stalled: string, t: Cast) {
    && !IsGroupBanned(d, command, t.n.id) && !IsGroupBanned(d, shown, t.e.id) && !IsGroupBanned(d, stalled, t.e.id)
    && IsGroupBanned(d, shown, t.b.id) && t.a.id in GroupMembers(d, shown)
    && t.a.id in GroupMembers(d, stalled) && t.b.id in GroupMembers(d, stalled)
  }

  lemma Playable() returns (env: Env, stored: Data, t: Cast)
    ensures Stage(env, stored, t)
  {
    var ids, g, h;
    env, stored, t, ids, g, h := Ingredients();
    SmallStoreFits(env, stored, ids, g, h, t.a.id, t.b.id);
    Staged(env, stored, t);
  }

  lemma Ingredients() returns (env: Env, stored: Data, t: Cast, ids: set<string>, g: string, h: string)
    ensures EnvOk(env) && Unused(env, ids, g, h) && SmallStore(stored, ids, g, h, t.a.id, t.b.id)
    ensures THE_NULL_USER in stored.users && OnStage(env, stored, t)
  {
    env, stored, t, ids, g, h := ENV, STORED, CAST, {"A", "B", "E", NULL_ID}, "g", "h";
    EnvFits();
    StoreIsSmall();
    IdsUnused();
    StoreOnStage();
  }

  lemma StoreOnStage()
    ensures THE_NULL_USER in STORED.users && OnStage(ENV, STORED, CAST)
  {
    UsersFit();
    CastFits(STORED);
  }

  lemma CastFits(d: Data)
    requires IsCast(d.users) && d.banned == [] && d.groupBans == STORED.groupBans && d.members == TABLES
    ensures OnStage(ENV, d, CAST)
  {
    LoginsFit();
    RequestsFit();
    AccountsFit(d);
    NewcomerFits(d);
    RoomsFit(d);
  }

  lemma LoginsFit()
    ensures Logins(ENV, CAST)
  {
  }

  lemma RequestsFit()
    ensures Requests(ENV, CAST)
    ensures GroupOf(ENV, CAST.ban) == "" && GroupOf(ENV, CAST.post) == "g" && GroupOf(ENV, CAST.silent) == "h"
  {
    BanFits();
    PostsFit();
  }

  lemma BanFits()
    ensures Bans(ENV, CAST.ban, CAST.a.username) && GroupOf(ENV, CAST.ban) == ""
  {
    assert "a"[0] != ' ';
  }

  lemma PostsFit()
    ensures ENV.parse([CAST.offer]) == Record(NO_FIELDS.(targetId := "B"))
    ensures ENV.parse([CAST.post]) == Record(NO_FIELDS.(groupId := "g", content := Some("")))
    ensures ENV.parse([CAST.silent]) == Record(NO_FIELDS.(groupId := "h"))
  {
  }

  lemma AccountsFit(d: Data)
    requires IsCast(d.users) && d.banned == []
    ensures Accounts(d, CAST)
  {
    assert USER_A.id[0] == 'A' && USER_B.id[0] == 'B' && USER_E.id[0] == 'E' && NULL_ID[0] == '0';
  }

  lemma NewcomerFits(d: Data)
    requires IsCast(d.users) && d.banned == []
    ensures NewcomerIn(ENV, CAST.newcomer, d)
  {
    assert |THE_NULL_USER| == 7;
  }

  lemma RoomsFit(d: Data)
    requires d.groupBans == STORED.groupBans && d.members == TABLES
    ensures Rooms(d, "", "g", "h", CAST)
  {
    MembersFit(d);
    BansFit(d);
    assert "B"[0] == 'B' && "E"[0] == 'E';
  }

  lemma MembersFit(d: Data)
    requires d.members == TABLES
    ensures GroupMembers(d, "g") == ["A"] && GroupMembers(d, "h") == ["A", "B"]
  {
    TablesFit();
    assert "g"[0] == 'g' && "h"[0] == 'h';
  }

  lemma BansFit(d: Data)
    requires d.groupBans == STORED.groupBans
    ensures GroupBans(d, "") == GroupBans(d, "h") == [] && GroupBans(d, "g") == ["B"]
  {
    assert "g"[0] == 'g' && "h"[0] == 'h';
  }

  lemma Staged(env: Env, stored: Data, t: Cast)
    requires EnvOk(env) && WellFormed(env, stored, 0) && BansDisjoint(stored)
    requires THE_NULL_USER in stored.users && OnStage(env, stored, t)
    ensures Stage(env, stored, t)
  {
    StartedFrom(env, stored);
    SameStage(env, stored, Boot(env, stored, 0).g.db.data, t);
  }

  lemma SameStage(env: Env, d: Data, d': Data, t: Cast)
    requires OnStage(env, d, t) && Seeding.Kept(d, d')
    ensures OnStage(env, d', t)
  {
  }

  lemma StartedFrom(env: Env, stored: Data)
    requires EnvOk(env) && WellFormed(env, stored, 0) && BansDisjoint(stored) && THE_NULL_USER in stored.users
    ensures
      var w := Boot(env, stored, 0);
      && Inv(env, w) && Seeding.Kept(stored, w.g.db.data)
      && w.conns == map[] && w.nextConn == 0 && w.g.sessions == Empty<nat>()
  {
    var b := Db(stored, stored, 0);
    BootGood(env, stored, 0);
    SeedNullKeeps(env, b);
    assert SeedNull(env, b) == b;
    Seeding.DefaultsDistinct();
    Seeding.SeedGroupsExact(env, b, GroupNames(stored.groups), DEFAULT_GROUPS, |DEFAULT_GROUPS|);
  }

  // ----- the scenes, played -----

  /** A run of a server started on a well-formed store ends in the state. */
  ghost predicate Reached(env: Env, stored: Data, events: seq<Event>, w: State) {
    && EnvOk(env) && WellFormed(env, stored, 0) && BansDisjoint(stored)
    && w == Run(env, Boot(env, stored, 0), events)
  }

  /** Routing fails on some run: an entry leads to another user's connection. */
  lemma RoutingCanFail() returns (env: Env, stored: Data, events: seq<Event>, w: State)
    ensures Reached(env, stored, events, w) && !Routing.Sound(w)
  {
    var t;
    env, stored, t := Playable();
    RoutingFails(env, Boot(env, stored, 0), t.keyA, t.a, t.keyB, t.b);
    events := OneConnection(t.keyA, t.keyB);
    w := Run(env, Boot(env, stored, 0), events);
  }

  /** Coverage fails on some run: a user with an open connection cannot be
      reached once another of theirs has closed. */
  lemma CoverageCanFail() returns (env: Env, stored: Data, events: seq<Event>, w: State)
    ensures Reached(env, stored, events, w) && Routing.Covered(w) && !Routing.Covered(Step(env, w, Close(1)))
  {
    var t;
    env, stored, t := Playable();
    CoverageFails(env, Boot(env, stored, 0), t.keyA, t.a);
    events := TwoConnections(t.keyA);
    w := Run(env, Boot(env, stored, 0), events);
  }

  /** And without any closing: a user has an open connection, and their entry leads
      to another user's, since that connection was logged in a second time. */
  lemma CoverageCanFailUnclosed() returns (env: Env, stored: Data, events: seq<Event>, w: State, u: string)
    ensures Reached(env, stored, events, w) && (forall i :: 0 <= i < |events| ==> !events[i].Close?)
    ensures Safety.IsOf(w, 0, u) && u in w.g.sessions.vals && !Safety.IsOf(w, w.g.sessions.vals[u], u)
    ensures !Routing.Covered(w)
  {
    var t;
    env, stored, t := Playable();
    CoverageFailsUnclosed(env, Boot(env, stored, 0), t.keyA, t.a, t.keyB, t.b);
    Unclosed(t.keyA, t.keyB);
    events, u := TwoConnections(t.keyA) + Scenes.Login(1, t.keyB), t.a.id;
    w := Run(env, Boot(env, stored, 0), events);
  }

  lemma Unclosed(key: byte, key': byte)
    ensures
      var events := TwoConnections(key) + Scenes.Login(1, key');
      forall i :: 0 <= i < |events| ==> !events[i].Close?
  {
  }

  /** A group's message reaches a user banned from it on some run: it is written on
      a connection logged in as them, to which a member's entry leads. */
  lemma GroupBanCanLeak() returns (env: Env, stored: Data, events: seq<Event>, w: State, g: string, u: string,
                                   post: Frame)
    ensures Reached(env, stored, events, w) && IsGroupBanned(w.g.db.data, g, u) && Encodable(post)
    ensures
      var w' := Run(env, w, Say(1, post));
      w.g.log <= w'.g.log && exists i :: |w.g.log| <= i < |w'.g.log| && Addressing.Shows(w', w'.g.log[i], g, u)
  {
    var t;
    env, stored, t := Playable();
    LeakPlayed(env, Boot(env, stored, 0), t);
    events, post := Displaced(t.keyA, t.keyB, t.keyE), Frame(GROUP_MESSAGE, [t.post]);
    g, u := GroupOf(env, t.post), t.b.id;
    w := Run(env, Boot(env, stored, 0), events);
  }

  lemma LeakPlayed(env: Env, w: State, t: Cast)
    requires EnvOk(env) && Inv(env, w) && Idle(w) && OnStage(env, w.g.db.data, t)
    ensures
      var v := Run(env, w, Displaced(t.keyA, t.keyB, t.keyE));
      var v', g := Run(env, v, Say(1, Frame(GROUP_MESSAGE, [t.post]))), GroupOf(env, t.post);
      && IsGroupBanned(v.g.db.data, g, t.b.id) && v.g.log <= v'.g.log
      && exists i :: |v.g.log| <= i < |v'.g.log| && Addressing.Shows(v', v'.g.log[i], g, t.b.id)
  {
    GroupBanLeaks(env, w, t.keyA, t.a, t.keyB, t.b, t.keyE, t.e, t.post);
  }

  /** A post without a text fails some member on some run: it is due to them, and
      they get nothing. */
  lemma DeliveryCanStall() returns (env: Env, stored: Data, events: seq<Event>, w: State, post: Frame, j: Json,
                                    m: string)
    ensures Reached(env, stored, events, w) && Encodable(post) && env.parse(post.body) == Record(j)
    ensures Live(w, 2) && Effects.MayPost(LocalOf(w, 2), j.groupId) && m in Broadcast.DueFor(LocalOf(w, 2), j)
    ensures
      var w' := Run(env, w, Say(2, post));
      w.g.log <= w'.g.log && Broadcast.Received(w'.g.log[|w.g.log|..], m) == []
  {
    var t;
    env, stored, t := Playable();
    m := StallPlayed(env, Boot(env, stored, 0), t);
    post, j := Frame(GROUP_MESSAGE, [t.silent]), env.parse([t.silent]).json;
    events := ThreeJoin(t.keyA, t.keyB, t.keyE);
    w := Run(env, Boot(env, stored, 0), events);
  }

  lemma StallPlayed(env: Env, w: State, t: Cast) returns (m: string)
    requires EnvOk(env) && Inv(env, w) && Idle(w) && OnStage(env, w.g.db.data, t)
    ensures
      var v, j := Run(env, w, ThreeJoin(t.keyA, t.keyB, t.keyE)), env.parse([t.silent]).json;
      var v' := Run(env, v, Say(2, Frame(GROUP_MESSAGE, [t.silent])));
      && Live(v, 2) && Effects.MayPost(LocalOf(v, 2), j.groupId) && m in Broadcast.DueFor(LocalOf(v, 2), j)
      && v.g.log <= v'.g.log && Broadcast.Received(v'.g.log[|v.g.log|..], m) == []
  {
    m := DeliveryStalls(env, w, t.keyA, t.a, t.keyB, t.b, t.keyE, t.e, t.silent);
  }

  /** A ban is not total on some run: the user is banned and offline, and what a
      connection still logged in as them sends is relayed in their name. */
  lemma BanCanBePartial() returns (env: Env, stored: Data, events: seq<Event>, w: State, u: string, v: string,
                                   offer: Frame, p: Packet)
    ensures Reached(env, stored, events, w) && Encodable(offer)
    ensures IsBanned(w.g.db.data, u) && u !in w.g.sessions.vals && Safety.IsOf(w, 0, u)
    ensures Run(env, w, Say(0, offer)).g.log == w.g.log + [Sent(2, v, p)] && Effects.Origin(p) == Some(u) && v != u
  {
    var t;
    env, stored, t := Playable();
    p := BanPlayed(env, Boot(env, stored, 0), t);
    events, u, v := BanScene(t.keyA, t.keyB, t.keyN, t.ban), t.a.id, t.b.id;
    offer := Frame(P2P_OFFER, [t.offer]);
    w := Run(env, Boot(env, stored, 0), events);
  }

  lemma BanPlayed(env: Env, w: State, t: Cast) returns (p: Packet)
    requires Idle(w) && OnStage(env, w.g.db.data, t)
    ensures Relayed(env, Run(env, w, BanScene(t.keyA, t.keyB, t.keyN, t.ban)), Frame(P2P_OFFER, [t.offer]), t.a.id,
                    t.b.id, p)
  {
    BanCastFits(env, w.g.db.data, t);
    p := BanNotTotal(env, w, t.keyA, t.a, t.keyB, t.b, t.keyN, t.n, t.ban, t.offer);
  }

  lemma BanCastFits(env: Env, d: Data, t: Cast)
    requires OnStage(env, d, t)
    ensures BanCast(env, d, t.keyA, t.a, t.keyB, t.b, t.keyN, t.n, t.ban, t.offer)
  {
  }

  /** Rights fail on some run: a connection has admin rights and its account none. */
  lemma RightsCanFail() returns (env: Env, stored: Data, events: seq<Event>, w: State)
    ensures Reached(env, stored, events, w) && !Rights.RightsMatch(w)
    ensures Live(w, 0) && w.conns[0].me.isNull && !Rights.AccountAdmin(w.g.db.data.users, w.conns[0].me.userId)
  {
    var t;
    env, stored, t := Playable();
    RightsPlayed(env, Boot(env, stored, 0), t);
    events := RegisterAsAdmin(t.keyN, t.newcomer);
    w := Run(env, Boot(env, stored, 0), events);
  }

  lemma RightsPlayed(env: Env, w: State, t: Cast)
    requires EnvOk(env) && Inv(env, w) && Idle(w) && OnStage(env, w.g.db.data, t)
    ensures
      var v := Run(env, w, RegisterAsAdmin(t.keyN, t.newcomer));
      Live(v, 0) && v.conns[0].me.isNull && !Rights.RightsOk(v.g.db.data.users, v.conns[0].me)
  {
    RightsFail(env, w, t.keyN, t.n, t.newcomer, env.parse([t.newcomer]).json);
  }
}
