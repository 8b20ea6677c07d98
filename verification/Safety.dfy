/** Safety over whole runs: bans, group bans and deletions hold, and nothing is
    delivered that should not be. */
module Safety {
  import opened Wrappers
  import opened Framing
  import opened Dicts
  import opened ChatModel
  import opened DbSpec
  import opened DbInvariants
  import opened SessionSpec
  import opened Effects
  import opened World
  import opened Invariants

  // ----- deliveries -----

  /** A delivery in order, given the state it leaves behind: routed packets go to
      online users, group packets to members of their group, and the data allow
      what the packet says. */
  ghost predicate Proper(g: Globals, e: Sent) {
    && (e.via != "" ==> e.via in g.sessions.vals)
    && (AboutGroup(e.packet).Some? ==> e.via in GroupMembers(g.db.data, AboutGroup(e.packet).value))
    && Allowed(g.db.data, e.packet)
  }

  ghost predicate LogGrows(before: seq<Sent>, g: Globals) {
    before <= g.log && forall i :: |before| <= i < |g.log| ==> Proper(g, g.log[i])
  }

  lemma InOrderProper(before: seq<Sent>, g: Globals, c: nat, me: Ident)
    requires SentInOrder(before, g, c, me)
    ensures LogGrows(before, g)
  {
    forall i | |before| <= i < |g.log|
      ensures Proper(g, g.log[i])
    {
      assert InOrder(g, c, me, g.log[i]);
    }
  }

  lemma InOrderAddsUp(before: seq<Sent>, g: Globals, g': Globals, c: nat, me: Ident)
    requires SentInOrder(before, g, c, me) && SentInOrder(g.log, g', c, me)
    requires g'.db == g.db && g'.sessions == g.sessions
    ensures SentInOrder(before, g', c, me)
  {
    forall i | |before| <= i < |g'.log|
      ensures InOrder(g', c, me, g'.log[i])
    {
      if i < |g.log| {
        assert InOrder(g, c, me, g.log[i]);
      }
    }
  }

  lemma {:induction false} WelcomeInOrder(env: Env, g: Globals, t: Timer, k: nat)
    requires k <= |g.db.data.groups.keys| && NamedSessions(g)
    ensures SentInOrder(g.log, Welcome(env, g, t, k), 0, NOBODY)
  {
    if k > 0 {
      WelcomeInOrder(env, g, t, k - 1);
      WelcomeKeepsDb(env, g, t, k - 1);
      var before := Welcome(env, g, t, k - 1);
      var gid := g.db.data.groups.keys[k - 1];
      var text := "\U{1F44B} Welcome to #" + g.db.data.groups.vals[gid].name + ", " + t.username + "!";
      SystemMessageInOrder(env, before, 0, NOBODY, gid, text);
      InOrderAddsUp(g.log, before, SystemMessage(env, before, gid, text), 0, NOBODY);
    }
  }

  /** On whose behalf a step sends: the connection it dispatches on or closes, as
      that ends up, or nobody. */
  function Actor(w': State, e: Event): Ident {
    if (e.Dispatch? || e.Close?) && e.c in w'.conns then w'.conns[e.c].me else NOBODY
  }

  function ActorConn(e: Event): nat {
    if e.Dispatch? || e.Close? then e.c else 0
  }

  /** Everything a step sends is in order, on behalf of its own connection. */
  lemma StepInOrder(env: Env, w: State, e: Event)
    requires EnvOk(env) && Inv(env, w)
    ensures SentInOrder(w.g.log, Step(env, w, e).g, ActorConn(e), Actor(Step(env, w, e), e))
  {
    NoUserUnnamed(env, w.g.db);
    assert NamedSessions(w.g);
    match e
    case Dispatch(c) =>
      if NextPacket(w, c).Some? {
        DispatchInOrder(env, w, c);
      }
    case Close(c) =>
      if Live(w, c) && w.conns[c].me.userId != "" {
        var me := w.conns[c].me;
        BroadcastInOrder(w.g.(sessions := Del(w.g.sessions, me.userId)), c, me, false);
      }
    case Fire =>
      if w.g.timers != [] {
        WelcomeInOrder(env, w.g, w.g.timers[0], |w.g.db.data.groups.keys|);
      }
    case _ =>
  }

  lemma DispatchInOrder(env: Env, w: State, c: nat)
    requires EnvOk(env) && Inv(env, w) && NextPacket(w, c).Some? && NamedSessions(w.g)
    ensures
      var w' := HandleNext(env, w, c, NextPacket(w, c).value);
      SentInOrder(w.g.log, w'.g, c, w'.conns[c].me)
  {
    var p := NextPacket(w, c).value;
    var s, f := LocalOf(w, c), Frame(p.kind, p.body);
    AuthenticatedRegistered(env, s, f);
    EffectOk(env, s, f);
    ApplyKeeps(env, s.g.db, Effect(env, s, f));
    NoUserUnnamed(env, Apply(env, s.g.db, Effect(env, s, f)));
    HandleInOrder(env, c, s, f);
  }

  /** So every new entry of the log is a proper delivery. */
  lemma StepDelivers(env: Env, w: State, e: Event)
    requires EnvOk(env) && Inv(env, w)
    ensures LogGrows(w.g.log, Step(env, w, e).g)
  {
    StepInOrder(env, w, e);
    InOrderProper(w.g.log, Step(env, w, e).g, ActorConn(e), Actor(Step(env, w, e), e));
  }

  // ----- the database along a step -----

  /** The operation a step performs on the database (seeding aside). */
  ghost function StepOp(env: Env, w: State, e: Event): Op {
    match e
    case Dispatch(c) =>
      (match NextPacket(w, c)
       case Some(p) => Effect(env, LocalOf(w, c), Frame(p.kind, p.body))
       case None => Nothing)
    case _ => Nothing
  }

  lemma StepDb(env: Env, w: State, e: Event)
    requires EnvOk(env) && Inv(env, w)
    ensures Step(env, w, e).g.db == if e.Restart? then Seed(env, w.g.db) else Apply(env, w.g.db, StepOp(env, w, e))
    ensures OpOk(w.g.db.data, StepOp(env, w, e))
  {
    match e
    case Dispatch(c) =>
      if NextPacket(w, c).Some? {
        var p := NextPacket(w, c).value;
        HandleDb(env, c, LocalOf(w, c), Frame(p.kind, p.body));
        EffectOk(env, LocalOf(w, c), Frame(p.kind, p.body));
      }
    case Fire =>
      if w.g.timers != [] {
        WelcomeKeepsDb(env, w.g, w.g.timers[0], |w.g.db.data.groups.keys|);
      }
    case _ =>
  }

  /** Seeding leaves the ban lists alone. */
  lemma {:induction false} SeedGroupsKeepBans(env: Env, b: Db, existing: set<string>, defaults: seq<string>, k: nat)
    requires k <= |defaults|
    ensures SeedGroups(env, b, existing, defaults, k).data.banned == b.data.banned
    ensures SeedGroups(env, b, existing, defaults, k).data.groupBans == b.data.groupBans
  {
    if k > 0 {
      SeedGroupsKeepBans(env, b, existing, defaults, k - 1);
    }
  }

  lemma SeedKeepsBans(env: Env, b: Db)
    ensures Seed(env, b).data.banned == b.data.banned && Seed(env, b).data.groupBans == b.data.groupBans
  {
    SeedGroupsKeepBans(env, SeedNull(env, b), GroupNames(b.data.groups), DEFAULT_GROUPS, |DEFAULT_GROUPS|);
  }

  lemma ApplyGroupBans(env: Env, b: Db, op: Op)
    ensures Apply(env, b, op).data.groupBans
         == if op.GroupBan? then BanFromGroup(b, op.group, op.user).data.groupBans else b.data.groupBans
  {
  }

  lemma ApplyBans(env: Env, b: Db, op: Op)
    ensures Apply(env, b, op).data.banned ==
              match op
              case Ban(u, _) => BanUser(b, u).data.banned
              case Unban(u) => Without(b.data.banned, u)
              case _ => b.data.banned
  {
  }

  // ----- group bans -----

  /** Nothing lifts a group ban. */
  lemma StepKeepsGroupBan(env: Env, w: State, e: Event, g: string, u: string)
    requires EnvOk(env) && Inv(env, w) && IsGroupBanned(w.g.db.data, g, u)
    ensures IsGroupBanned(Step(env, w, e).g.db.data, g, u)
  {
    StepDb(env, w, e);
    if e.Restart? {
      SeedKeepsBans(env, w.g.db);
    } else {
      ApplyKeepsGroupBan(env, w.g.db, StepOp(env, w, e), g, u);
    }
  }

  lemma ApplyKeepsGroupBan(env: Env, b: Db, op: Op, g: string, u: string)
    requires IsGroupBanned(b.data, g, u)
    ensures IsGroupBanned(Apply(env, b, op).data, g, u)
  {
    ApplyGroupBans(env, b, op);
  }

  /** Is the log free, from position n on, of packets about g routed to u or from u? */
  ghost predicate NoGroupPacket(log: seq<Sent>, n: nat, g: string, u: string) {
    forall i :: n <= i < |log| && AboutGroup(log[i].packet) == Some(g) ==>
      log[i].via != u && From(log[i].packet) != Some(u)
  }

  /** Once banned from a group, always banned from it, never a member of it
      again, never the addressee of one of its messages, mentions or announcements,
      and never the sender of one: in every run, whatever joins, creations,
      seedings and restarts it holds. Where what is addressed to others ends up is
      another matter (module Addressing). */
  lemma {:induction false} GroupBanHolds(env: Env, w: State, events: seq<Event>, g: string, u: string)
    requires EnvOk(env) && Inv(env, w) && IsGroupBanned(w.g.db.data, g, u)
    ensures
      var v := Run(env, w, events);
      && IsGroupBanned(v.g.db.data, g, u)
      && u !in GroupMembers(v.g.db.data, g)
      && w.g.log <= v.g.log && NoGroupPacket(v.g.log, |w.g.log|, g, u)
    decreases |events|
  {
    if events != [] {
      var w1 := Step(env, w, events[0]);
      StepKeeps(env, w, events[0]);
      StepKeepsGroupBan(env, w, events[0], g, u);
      StepDelivers(env, w, events[0]);
      GroupBanHolds(env, w1, events[1..], g, u);
      BannedFromGroupIsOut(env, w.g.log, w1.g, g, u);
      NothingAddsUp(w.g.log, w1.g.log, Run(env, w, events).g.log, g, u);
    }
  }

  lemma BannedFromGroupIsOut(env: Env, before: seq<Sent>, g: Globals, gid: string, u: string)
    requires DbInv(env, g.db) && LogGrows(before, g) && IsGroupBanned(g.db.data, gid, u)
    ensures NoGroupPacket(g.log, |before|, gid, u)
  {
    NoUserUnnamed(env, g.db);
    assert BanList(g.db.data, g.db.data.groupBans[gid]);
    forall i | |before| <= i < |g.log| && AboutGroup(g.log[i].packet) == Some(gid)
      ensures g.log[i].via != u && From(g.log[i].packet) != Some(u)
    {
      assert Proper(g, g.log[i]);
    }
  }

  lemma NothingAddsUp(a: seq<Sent>, b: seq<Sent>, c: seq<Sent>, g: string, u: string)
    requires a <= b <= c && NoGroupPacket(b, |a|, g, u) && NoGroupPacket(c, |b|, g, u)
    ensures NoGroupPacket(c, |a|, g, u)
  {
    forall i | |a| <= i < |c| && AboutGroup(c[i].packet) == Some(g)
      ensures c[i].via != u && From(c[i].packet) != Some(u)
    {
      if i < |b| {
        assert c[i] == b[i];
      }
    }
  }

  // ----- deleted groups -----

  /** No group has the id, and no id still to be drawn is it. */
  ghost predicate Dead(env: Env, b: Db, g: string) {
    g !in b.data.groups.vals && forall i: nat :: i >= b.uuids ==> env.uuid(i) != g
  }

  lemma {:induction false} SeedGroupsKeepDead(env: Env, b: Db, existing: set<string>, defaults: seq<string>,
                                              k: nat, g: string)
    requires k <= |defaults| && Dead(env, b, g)
    ensures Dead(env, SeedGroups(env, b, existing, defaults, k), g)
  {
    if k > 0 {
      SeedGroupsKeepDead(env, b, existing, defaults, k - 1, g);
    }
  }

  lemma ApplyKeepsDead(env: Env, b: Db, op: Op, g: string)
    requires Dead(env, b, g)
    ensures Dead(env, Apply(env, b, op), g)
  {
  }

  lemma StepKeepsDead(env: Env, w: State, e: Event, g: string)
    requires EnvOk(env) && Inv(env, w) && Dead(env, w.g.db, g)
    ensures Dead(env, Step(env, w, e).g.db, g)
  {
    StepDb(env, w, e);
    if e.Restart? {
      SeedGroupsKeepDead(env, SeedNull(env, w.g.db), GroupNames(w.g.db.data.groups), DEFAULT_GROUPS,
                         |DEFAULT_GROUPS|, g);
    } else {
      ApplyKeepsDead(env, w.g.db, StepOp(env, w, e), g);
    }
  }

  /** A group that a step removed is dead. */
  lemma RemovedIsDead(env: Env, w: State, e: Event, g: string)
    requires EnvOk(env) && Inv(env, w)
    requires g in w.g.db.data.groups.vals && g !in Step(env, w, e).g.db.data.groups.vals
    ensures Dead(env, Step(env, w, e).g.db, g)
  {
    StepDb(env, w, e);
    if e.Restart? {
      SeedGroupsKeepGroups(env, SeedNull(env, w.g.db), GroupNames(w.g.db.data.groups), DEFAULT_GROUPS,
                           |DEFAULT_GROUPS|, g);
    } else {
      ApplyDraws(env, w.g.db, StepOp(env, w, e));
    }
  }

  lemma {:induction false} SeedGroupsKeepGroups(env: Env, b: Db, existing: set<string>, defaults: seq<string>,
                                                k: nat, g: string)
    requires k <= |defaults| && g in b.data.groups.vals
    ensures g in SeedGroups(env, b, existing, defaults, k).data.groups.vals
  {
    if k > 0 {
      SeedGroupsKeepGroups(env, b, existing, defaults, k - 1, g);
    }
  }

  lemma ApplyDraws(env: Env, b: Db, op: Op)
    ensures Apply(env, b, op).uuids >= b.uuids
  {
  }

  /** Does the packet carry the group id: a packet about the group, a group list
      or a creation with it, or the answer to an attempt to join it? */
  ghost predicate Carries(p: Packet, g: string) {
    AboutGroup(p) == Some(g) || Lists(p, g) || p == GroupJoined(g)
  }

  /** From position n on, nothing carries the id but answers to attempts to join. */
  ghost predicate OnlyJoinAnswers(log: seq<Sent>, n: nat, g: string) {
    forall i :: n <= i < |log| && Carries(log[i].packet, g) ==> log[i].packet == GroupJoined(g)
  }

  /** Deleted groups stay dead: in every later state of every run the id names
      no group and no member table, no one is listed with it, and nothing that
      carries it is sent to anyone, but for the answer that whoever still tries to
      join it gets (JoinAnsweredExactly). */
  lemma DeletedGroupStaysDead(env: Env, w: State, e: Event, events: seq<Event>, g: string)
    requires EnvOk(env) && Inv(env, w)
    requires g in w.g.db.data.groups.vals && g !in Step(env, w, e).g.db.data.groups.vals
    ensures
      var w1 := Step(env, w, e);
      var v := Run(env, w1, events);
      && g !in v.g.db.data.groups.vals && g !in v.g.db.data.members.vals && GroupMembers(v.g.db.data, g) == []
      && w1.g.log <= v.g.log && OnlyJoinAnswers(v.g.log, |w1.g.log|, g)
  {
    RemovedIsDead(env, w, e, g);
    StepKeeps(env, w, e);
    DeadStaysDead(env, Step(env, w, e), events, g);
  }

  lemma {:induction false} DeadStaysDead(env: Env, w: State, events: seq<Event>, g: string)
    requires EnvOk(env) && Inv(env, w) && Dead(env, w.g.db, g)
    ensures
      var v := Run(env, w, events);
      && Dead(env, v.g.db, g) && g !in v.g.db.data.members.vals
      && w.g.log <= v.g.log && OnlyJoinAnswers(v.g.log, |w.g.log|, g)
    decreases |events|
  {
    if events != [] {
      var w1 := Step(env, w, events[0]);
      StepKeeps(env, w, events[0]);
      StepKeepsDead(env, w, events[0], g);
      StepDelivers(env, w, events[0]);
      DeadStaysDead(env, w1, events[1..], g);
      DeadIsSilent(env, w.g.log, w1.g, g);
      var log := Run(env, w, events).g.log;
      forall i | |w.g.log| <= i < |log| && Carries(log[i].packet, g)
        ensures log[i].packet == GroupJoined(g)
      {
        if i < |w1.g.log| {
          assert log[i] == w1.g.log[i];
        }
      }
    }
  }

  lemma DeadIsSilent(env: Env, before: seq<Sent>, g: Globals, gid: string)
    requires DbOk(env, g.db) && LogGrows(before, g) && gid !in g.db.data.groups.vals
    ensures OnlyJoinAnswers(g.log, |before|, gid)
  {
    forall i | |before| <= i < |g.log| && Carries(g.log[i].packet, gid)
      ensures g.log[i].packet == GroupJoined(gid)
    {
      assert Proper(g, g.log[i]);
    }
  }

  /** A logged-in user who is not banned from the group asked for is answered
      that the join went well, and is a member afterwards exactly if the group
      exists; anyone else is told nothing of the kind and joins nothing. */
  lemma JoinAnsweredExactly(env: Env, c: nat, s: Local, j: Json)
    requires DbInv(env, s.g.db)
    ensures
      var s' := HandleJoinGroup(c, s, j);
      var may := s.me.authenticated && !IsGroupBanned(s.g.db.data, j.groupId, s.me.userId);
      && ((s'.g.log == s.g.log + [Sent(c, "", GroupJoined(j.groupId))]) <==> may)
      && (may ==> (s.me.userId in GroupMembers(s'.g.db.data, j.groupId) <==> j.groupId in s.g.db.data.groups.vals))
      && (!may ==> s'.g.db == s.g.db)
  {
    var s' := HandleJoinGroup(c, s, j);
    if s.me.authenticated {
      assert s'.g.log[|s.g.log|] == Sent(c, "", s'.g.log[|s.g.log|].packet);
    }
  }

  // ----- global bans -----

  /** Does the step carry out an /unban of u? */
  ghost predicate Unbans(env: Env, w: State, e: Event, u: string) {
    StepOp(env, w, e) == Unban(u)
  }

  /** Only an /unban lifts a global ban, and it does. */
  lemma BanLiftedOnlyByUnban(env: Env, w: State, e: Event, u: string)
    requires EnvOk(env) && Inv(env, w) && IsBanned(w.g.db.data, u)
    ensures IsBanned(Step(env, w, e).g.db.data, u) <==> !Unbans(env, w, e, u)
  {
    StepDb(env, w, e);
    if e.Restart? {
      SeedKeepsBans(env, w.g.db);
    } else {
      ApplyBans(env, w.g.db, StepOp(env, w, e));
    }
  }

  ghost predicate NeverUnbans(env: Env, w: State, events: seq<Event>, u: string)
    decreases |events|
  {
    events == [] || (!Unbans(env, w, events[0], u) && NeverUnbans(env, Step(env, w, events[0]), events[1..], u))
  }

  /** No step brings a banned user's entry into the sessions map. */
  lemma BannedStaysOffline(env: Env, w: State, e: Event, u: string)
    requires EnvOk(env) && Inv(env, w) && IsBanned(w.g.db.data, u) && u !in w.g.sessions.vals
    ensures u !in Step(env, w, e).g.sessions.vals
  {
    match e
    case Dispatch(c) =>
      if NextPacket(w, c).Some? {
        var p := NextPacket(w, c).value;
        AuthenticatedRegistered(env, LocalOf(w, c), Frame(p.kind, p.body));
        HandleSessions(env, c, LocalOf(w, c), Frame(p.kind, p.body));
      }
    case Fire =>
      if w.g.timers != [] {
        WelcomeKeepsDb(env, w.g, w.g.timers[0], |w.g.db.data.groups.keys|);
      }
    case _ =>
  }

  /** Nothing routed to u, and nothing said by u, from position n of the log on. */
  ghost predicate Silent(log: seq<Sent>, n: nat, u: string) {
    forall i :: n <= i < |log| ==> log[i].via != u && From(log[i].packet) != Some(u)
  }

  /** A banned user who is offline stays banned and offline in every run that does
      not /unban them: no packet is routed to them, and no message or mention is
      from them. Connections they still have open are another matter: these go on
      being answered and relayed for (module Bans). */
  lemma {:induction false} GlobalBanHolds(env: Env, w: State, events: seq<Event>, u: string)
    requires EnvOk(env) && Inv(env, w) && IsBanned(w.g.db.data, u) && u !in w.g.sessions.vals
    requires NeverUnbans(env, w, events, u)
    ensures
      var v := Run(env, w, events);
      && IsBanned(v.g.db.data, u) && u !in v.g.sessions.vals
      && w.g.log <= v.g.log && Silent(v.g.log, |w.g.log|, u)
    decreases |events|
  {
    if events != [] {
      var w1 := Step(env, w, events[0]);
      StepKeeps(env, w, events[0]);
      BanLiftedOnlyByUnban(env, w, events[0], u);
      BannedStaysOffline(env, w, events[0], u);
      StepDelivers(env, w, events[0]);
      GlobalBanHolds(env, w1, events[1..], u);
      BannedIsSilent(env, w.g.log, w1.g, u);
      SilenceAddsUp(w.g.log, w1.g.log, Run(env, w, events).g.log, u);
    }
  }

  lemma BannedIsSilent(env: Env, before: seq<Sent>, g: Globals, u: string)
    requires DbOk(env, g.db) && LogGrows(before, g) && IsBanned(g.db.data, u) && u !in g.sessions.vals
    ensures Silent(g.log, |before|, u)
  {
    NoUserUnnamed(env, g.db);
    forall i | |before| <= i < |g.log|
      ensures g.log[i].via != u && From(g.log[i].packet) != Some(u)
    {
      assert Proper(g, g.log[i]);
    }
  }

  lemma SilenceAddsUp(a: seq<Sent>, b: seq<Sent>, c: seq<Sent>, u: string)
    requires a <= b <= c && Silent(b, |a|, u) && Silent(c, |b|, u)
    ensures Silent(c, |a|, u)
  {
    forall i | |a| <= i < |c|
      ensures c[i].via != u && From(c[i].packet) != Some(u)
    {
      if i < |b| {
        assert c[i] == b[i];
      }
    }
  }

  // ----- banned users without a connection -----

  /** The open connection c is logged in as u. */
  predicate IsOf(w: State, c: nat, u: string) {
    Live(w, c) && w.conns[c].me.userId == u
  }

  /** No open connection is logged in as u. */
  ghost predicate Gone(w: State, u: string) {
    forall c :: !IsOf(w, c, u)
  }

  lemma GoneStaysGone(env: Env, w: State, e: Event, u: string)
    requires EnvOk(env) && Inv(env, w) && IsBanned(w.g.db.data, u) && Gone(w, u)
    ensures Gone(Step(env, w, e), u)
  {
    NoUserUnnamed(env, w.g.db);
    assert BanList(w.g.db.data, w.g.db.data.banned);
    var w' := Step(env, w, e);
    if e.Dispatch? && NextPacket(w, e.c).Some? {
      var p := NextPacket(w, e.c).value;
      AuthenticatedRegistered(env, LocalOf(w, e.c), Frame(p.kind, p.body));
      HandleSessions(env, e.c, LocalOf(w, e.c), Frame(p.kind, p.body));
    }
    forall c
      ensures !IsOf(w', c, u)
    {
      assert !IsOf(w, c, u);
    }
  }

  /** The entry is neither u's doing nor sent to u, by routing or on a connection of u's. */
  ghost predicate Unrelated(w: State, e: Sent, u: string) {
    e.via != u && Origin(e.packet) != Some(u) && !IsOf(w, e.conn, u)
  }

  /** No step of the run sends anything that is u's doing or is sent to u. */
  ghost predicate NothingToOrFrom(env: Env, w: State, events: seq<Event>, u: string)
    decreases |events|
  {
    events == [] || (
      var w1 := Step(env, w, events[0]);
      && w.g.log <= w1.g.log
      && (forall i :: |w.g.log| <= i < |w1.g.log| ==> Unrelated(w, w1.g.log[i], u) && Unrelated(w1, w1.g.log[i], u))
      && NothingToOrFrom(env, w1, events[1..], u))
  }

  lemma StepUnrelated(env: Env, w: State, e: Event, u: string)
    requires EnvOk(env) && Inv(env, w) && IsBanned(w.g.db.data, u) && u !in w.g.sessions.vals && Gone(w, u)
    ensures
      var w1 := Step(env, w, e);
      && w.g.log <= w1.g.log
      && forall i :: |w.g.log| <= i < |w1.g.log| ==> Unrelated(w, w1.g.log[i], u) && Unrelated(w1, w1.g.log[i], u)
  {
    var w1 := Step(env, w, e);
    NoUserUnnamed(env, w.g.db);
    assert BanList(w.g.db.data, w.g.db.data.banned);
    GoneStaysGone(env, w, e, u);
    BannedStaysOffline(env, w, e, u);
    StepInOrder(env, w, e);
    NotTheActor(env, w, e, u);
    forall i | |w.g.log| <= i < |w1.g.log|
      ensures Unrelated(w, w1.g.log[i], u) && Unrelated(w1, w1.g.log[i], u)
    {
      assert InOrder(w1.g, ActorConn(e), Actor(w1, e), w1.g.log[i]);
    }
  }

  /** A step that sends anything is not on behalf of a user without a connection. */
  lemma NotTheActor(env: Env, w: State, e: Event, u: string)
    requires Gone(w, u) && Gone(Step(env, w, e), u) && u != ""
    ensures Actor(Step(env, w, e), e).userId != u || Step(env, w, e).g.log == w.g.log
  {
    var w1 := Step(env, w, e);
    if (e.Dispatch? || e.Close?) && e.c in w1.conns {
      assert !IsOf(w, e.c, u) && !IsOf(w1, e.c, u);
    }
  }

  /** A banned user who is offline and has no open connection is cut off
      altogether: in every run that does not /unban them, no connection becomes
      theirs and nothing of any kind, relays, status and replies included, is
      their doing or is sent to them. */
  lemma {:induction false} GoneIsCutOff(env: Env, w: State, events: seq<Event>, u: string)
    requires EnvOk(env) && Inv(env, w) && IsBanned(w.g.db.data, u) && u !in w.g.sessions.vals && Gone(w, u)
    requires NeverUnbans(env, w, events, u)
    ensures NothingToOrFrom(env, w, events, u) && Gone(Run(env, w, events), u)
    decreases |events|
  {
    if events != [] {
      var e := events[0];
      StepKeeps(env, w, e);
      BanLiftedOnlyByUnban(env, w, e, u);
      BannedStaysOffline(env, w, e, u);
      GoneStaysGone(env, w, e, u);
      StepUnrelated(env, w, e, u);
      GoneIsCutOff(env, Step(env, w, e), events[1..], u);
    }
  }
}
