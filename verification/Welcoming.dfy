/** The welcome timer: who is welcomed, where, and who reads it. */
module Welcoming {
  import opened Wrappers
  import opened Dicts
  import opened ChatModel
  import opened DbSpec
  import opened DbInvariants
  import opened SessionSpec
  import opened World
  import opened Invariants
  import opened Presence
  import opened Requests
  import M = MessageNumbers
  import Broadcast
  import Effects
  import Operations
  import Safety
  import Seeding

  /** The packets that are about the group. */
  function About(packets: seq<Packet>, gid: string): seq<Packet> {
    if packets == [] then []
    else
      var last := packets[|packets| - 1];
      About(packets[..|packets| - 1], gid) + if Effects.AboutGroup(last) == Some(gid) then [last] else []
  }

  lemma {:induction false} AboutConcat(a: seq<Packet>, b: seq<Packet>, gid: string)
    ensures About(a + b, gid) == About(a, gid) + About(b, gid)
    decreases |b|
  {
    if b == [] {
      assert a + b == a;
    } else {
      assert (a + b)[..|a + b| - 1] == a + b[..|b| - 1];
      AboutConcat(a, b[..|b| - 1], gid);
    }
  }

  /** What user v has been told about the group by the entries logged after the first n. */
  ghost function Told(log: seq<Sent>, n: nat, v: string, gid: string): seq<Packet>
    requires n <= |log|
  {
    About(Broadcast.Received(log[n..], v), gid)
  }

  lemma ToldNext(log: seq<Sent>, log': seq<Sent>, n: nat, v: string, gid: string)
    requires n <= |log| && log <= log'
    ensures Told(log', n, v, gid) == Told(log, n, v, gid) + Told(log', |log|, v, gid)
  {
    assert log'[n..] == log[n..] + log'[|log|..];
    Broadcast.ReceivedConcat(log[n..], log'[|log|..], v);
    AboutConcat(Broadcast.Received(log[n..], v), Broadcast.Received(log'[|log|..], v), gid);
  }

  /** One message of the system's to the group, with the text. */
  ghost predicate OneNotice(packets: seq<Packet>, gid: string, text: string) {
    exists at :: packets == [GroupMessage(SYSTEM_ID, SYSTEM_USER, Some(text), false, at, gid)]
  }

  /** The user has a key in the group, not just an entry. */
  predicate Keyed(d: Data, gid: string, u: string) {
    EntryOf(d, gid, u).Some? && EntryOf(d, gid, u) != Some("")
  }

  /** Is v told of t's user's coming to the group? */
  predicate Hears(g: Globals, t: Timer, gid: string, v: string) {
    Keyed(g.db.data, gid, t.userId) && v in g.sessions.vals && EntryOf(g.db.data, gid, v).Some?
  }

  function Greeting(name: string, t: Timer): string {
    "\U{1F44B} Welcome to #" + name + ", " + t.username + "!"
  }

  /** A timer that fires welcomes its user, by name, in exactly the groups where
      they have a non-empty key by then: each online member of such a group gets one
      message naming the group, and nobody gets anything else. The timer is spent,
      and nothing but the log and the clock is different. */
  lemma WelcomeExact(env: Env, w: State, gid: string, v: string)
    requires Inv(env, w) && w.g.timers != []
    ensures
      var w' := Step(env, w, Fire);
      && w' == w.(g := w.g.(log := w'.g.log, ticks := w'.g.ticks, timers := w.g.timers[1..]))
      && w.g.log <= w'.g.log
      && (if gid in w.g.db.data.groups.vals && Hears(w.g, w.g.timers[0], gid, v)
          then OneNotice(Told(w'.g.log, |w.g.log|, v, gid), gid,
                         Greeting(w.g.db.data.groups.vals[gid].name, w.g.timers[0]))
          else Told(w'.g.log, |w.g.log|, v, gid) == [])
  {
    var keys := w.g.db.data.groups.keys;
    WelcomeUpTo(env, w.g, w.g.timers[0], |keys|, gid, v);
    assert keys[..|keys|] == keys;
  }

  lemma {:induction false} WelcomeUpTo(env: Env, g: Globals, t: Timer, k: nat, gid: string, v: string)
    requires DbOk(env, g.db) && k <= |g.db.data.groups.keys|
    ensures
      var g' := Welcome(env, g, t, k);
      && OnlyTold(g, g')
      && (gid in g.db.data.groups.keys[..k] && Hears(g, t, gid, v) ==>
            OneNotice(Told(g'.log, |g.log|, v, gid), gid, Greeting(g.db.data.groups.vals[gid].name, t)))
      && (!(gid in g.db.data.groups.keys[..k] && Hears(g, t, gid, v)) ==> Told(g'.log, |g.log|, v, gid) == [])
  {
    if k > 0 {
      WelcomeUpTo(env, g, t, k - 1, gid, v);
      var keys := g.db.data.groups.keys;
      var h := keys[k - 1];
      var before := Welcome(env, g, t, k - 1);
      WelcomeRuns(env, g, t, k);
      TakeNext(keys, k, gid);
      if Keyed(g.db.data, h, t.userId) {
        NoticeTold(env, g, before, h, Greeting(g.db.data.groups.vals[h].name, t), gid, v);
      }
    } else {
      assert g.log[|g.log|..] == [];
    }
  }

  ghost predicate OnlyTold(g: Globals, g': Globals) {
    g.log <= g'.log && g' == g.(log := g'.log, ticks := g'.ticks)
  }

  lemma WelcomeRuns(env: Env, g: Globals, t: Timer, k: nat)
    requires DbOk(env, g.db) && 0 < k <= |g.db.data.groups.keys|
    ensures
      var h, before := g.db.data.groups.keys[k - 1], Welcome(env, g, t, k - 1);
      h in g.db.data.groups.vals &&
      Welcome(env, g, t, k)
      == if Keyed(g.db.data, h, t.userId) then SystemMessage(env, before, h, Greeting(g.db.data.groups.vals[h].name, t))
         else before
  {
  }

  lemma NoticeTold(env: Env, g: Globals, before: Globals, h: string, text: string, gid: string, v: string)
    requires DbOk(env, g.db) && OnlyTold(g, before)
    ensures
      var after := SystemMessage(env, before, h, text);
      && OnlyTold(g, after)
      && (h != gid || v !in g.sessions.vals || EntryOf(g.db.data, gid, v).None? ==>
            Told(after.log, |g.log|, v, gid) == Told(before.log, |g.log|, v, gid))
      && (h == gid && v in g.sessions.vals && EntryOf(g.db.data, gid, v).Some?
          && Told(before.log, |g.log|, v, gid) == [] ==>
            OneNotice(Told(after.log, |g.log|, v, gid), gid, text))
  {
    var after := SystemMessage(env, before, h, text);
    var p := GroupMessage(SYSTEM_ID, SYSTEM_USER, Some(text), false, env.now(before.ticks), h);
    Broadcast.SystemMessageExact(env, before, h, text, v);
    ToldNext(before.log, after.log, |g.log|, v, gid);
    AboutOne(p, gid);
    MemberHasEntry(env, g.db, h, v);
  }

  lemma AboutOne(p: Packet, gid: string)
    ensures About([p], gid) == if Effects.AboutGroup(p) == Some(gid) then [p] else []
  {
  }

  lemma MemberHasEntry(env: Env, b: Db, g: string, u: string)
    requires DbOk(env, b)
    ensures u in GroupMembers(b.data, g) <==> EntryOf(b.data, g, u).Some?
  {
  }

  // ----- and so, who is never welcomed -----

  /** The user may be in groups, but has no key in any. */
  ghost predicate Unkeyed(d: Data, u: string) {
    forall g :: g in d.groups.vals ==> !Keyed(d, g, u)
  }

  /** The timer of a user without keys does nothing at all. */
  lemma UnkeyedUnwelcomed(env: Env, w: State)
    requires Inv(env, w) && w.g.timers != [] && Unkeyed(w.g.db.data, w.g.timers[0].userId)
    ensures Step(env, w, Fire) == w.(g := w.g.(timers := w.g.timers[1..]))
  {
    NoneWelcomed(env, w.g, w.g.timers[0], |w.g.db.data.groups.keys|);
  }

  lemma {:induction false} NoneWelcomed(env: Env, g: Globals, t: Timer, k: nat)
    requires DbOk(env, g.db) && k <= |g.db.data.groups.keys| && Unkeyed(g.db.data, t.userId)
    ensures Welcome(env, g, t, k) == g
  {
    if k > 0 {
      NoneWelcomed(env, g, t, k - 1);
      WelcomeRuns(env, g, t, k);
    }
  }

  /** The step handles a join by u that gives a key. */
  ghost predicate JoinsWithKey(env: Env, w: State, e: Event, u: string) {
    && e.Dispatch? && Incoming(w, e.c).Some? && w.conns[e.c].me.userId == u
    && exists j :: Asks(env, Incoming(w, e.c).value, M.JoinGroup, j) && j.encryptedKey != ""
  }

  ghost predicate NeverJoinsWithKey(env: Env, w: State, events: seq<Event>, u: string)
    decreases |events|
  {
    events == []
    || (!JoinsWithKey(env, w, events[0], u) && NeverJoinsWithKey(env, Step(env, w, events[0]), events[1..], u))
  }

  lemma StepKeepsUnkeyed(env: Env, w: State, e: Event, u: string)
    requires EnvOk(env) && Inv(env, w) && Unkeyed(w.g.db.data, u) && !JoinsWithKey(env, w, e, u)
    ensures Unkeyed(Step(env, w, e).g.db.data, u)
  {
    Safety.StepDb(env, w, e);
    if e.Restart? {
      SeedKeepsUnkeyed(env, w.g.db, u);
    } else {
      KeyGivenByJoin(env, w, e, u);
      ApplyKeepsUnkeyed(env, w.g.db, Safety.StepOp(env, w, e), u);
    }
  }

  lemma KeyGivenByJoin(env: Env, w: State, e: Event, u: string)
    requires !JoinsWithKey(env, w, e, u)
    ensures var op := Safety.StepOp(env, w, e); op.AddTo? && op.user == u ==> op.key == ""
  {
    var op := Safety.StepOp(env, w, e);
    if op.AddTo? && op.user == u && op.key != "" {
      var f := Incoming(w, e.c).value;
      assert Asks(env, f, M.JoinGroup, env.parse(f.body).json);
    }
  }

  lemma ApplyKeepsUnkeyed(env: Env, b: Db, op: Effects.Op, u: string)
    requires EnvOk(env) && DbInv(env, b) && Unkeyed(b.data, u)
    requires op.AddTo? && op.user == u ==> op.key == ""
    ensures Unkeyed(Effects.Apply(env, b, op).data, u)
  {
    forall g | Keyed(Effects.Apply(env, b, op).data, g, u)
      ensures false
    {
      Operations.OpMembership(env, b, op, g, u);
      EntryInGroup(env, b, g, u);
    }
  }

  lemma EntryInGroup(env: Env, b: Db, g: string, u: string)
    requires DbOk(env, b) && EntryOf(b.data, g, u).Some?
    ensures g in b.data.groups.vals
  {
  }

  lemma SeedKeepsUnkeyed(env: Env, b: Db, u: string)
    requires EnvOk(env) && DbInv(env, b) && Unkeyed(b.data, u)
    ensures Unkeyed(Seed(env, b).data, u)
  {
    Seeding.SeedExact(env, b);
    var d' := Seed(env, b).data;
    forall g | g in d'.groups.vals
      ensures !Keyed(d', g, u)
    {
      if g !in b.data.groups.vals {
        assert Seeding.Added(b.data.(users := d'.users), d', g);
      }
    }
  }

  /** A welcome is never read by anyone before its user has joined a group with a
      key: after a registration, and whatever else happens but such a join, the
      newcomer's timer does nothing. */
  lemma NewcomerUnwelcomed(env: Env, w: State, c: nat, j: Json, events: seq<Event>)
    requires EnvOk(env) && Inv(env, w) && Incoming(w, c).Some?
    requires Asks(env, Incoming(w, c).value, M.AuthRegister, j)
    requires Invited(w.g.db.data, j) && j.username !in w.g.db.data.users && j.password.Some?
    requires NeverJoinsWithKey(env, Step(env, w, Dispatch(c)), events, env.uuid(w.g.db.uuids))
    ensures
      var v := Run(env, Step(env, w, Dispatch(c)), events);
      v.g.timers != [] && v.g.timers[0].userId == env.uuid(w.g.db.uuids) ==>
        Step(env, v, Fire) == v.(g := v.g.(timers := v.g.timers[1..]))
  {
    var w1 := Step(env, w, Dispatch(c));
    var v := Run(env, w1, events);
    StepKeeps(env, w, Dispatch(c));
    NewcomerUnkeyed(env, w, c, j);
    RunKeepsUnkeyed(env, w1, events, env.uuid(w.g.db.uuids));
    RunKeeps(env, w1, events);
    if v.g.timers != [] && v.g.timers[0].userId == env.uuid(w.g.db.uuids) {
      UnkeyedUnwelcomed(env, v);
    }
  }

  lemma {:induction false} RunKeepsUnkeyed(env: Env, w: State, events: seq<Event>, u: string)
    requires EnvOk(env) && Inv(env, w) && Unkeyed(w.g.db.data, u) && NeverJoinsWithKey(env, w, events, u)
    ensures Unkeyed(Run(env, w, events).g.db.data, u)
    decreases |events|
  {
    if events != [] {
      StepKeeps(env, w, events[0]);
      StepKeepsUnkeyed(env, w, events[0], u);
      RunKeepsUnkeyed(env, Step(env, w, events[0]), events[1..], u);
    }
  }

  lemma NewcomerUnkeyed(env: Env, w: State, c: nat, j: Json)
    requires EnvOk(env) && Inv(env, w) && Incoming(w, c).Some?
    requires Asks(env, Incoming(w, c).value, M.AuthRegister, j)
    requires Invited(w.g.db.data, j) && j.username !in w.g.db.data.users && j.password.Some?
    ensures Unkeyed(Step(env, w, Dispatch(c)).g.db.data, env.uuid(w.g.db.uuids))
  {
    var u, op := env.uuid(w.g.db.uuids), Effects.Register(j.username, j.password, j.publicKey);
    Safety.StepDb(env, w, Dispatch(c));
    assert Safety.StepOp(env, w, Dispatch(c)) == op;
    assert u !in Ids(w.g.db.data.users);
    NewcomerInNoGroup(env, w.g.db, u);
    ApplyKeepsUnkeyed(env, w.g.db, op, u);
  }
}
