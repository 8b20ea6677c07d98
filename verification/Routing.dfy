/** The sessions map as a routing table. */
module Routing {
  import opened Wrappers
  import opened Framing
  import opened Dicts
  import opened ChatModel
  import opened Effects
  import opened World
  import opened Invariants
  import NodeCodec

  /** The entry for u leads to an open connection, logged in as exactly u. */
  ghost predicate SoundEntry(w: State, u: string)
    requires u in w.g.sessions.vals
  {
    var c := w.g.sessions.vals[u];
    Live(w, c) && w.conns[c].me.authenticated && w.conns[c].me.userId == u
  }

  /** The connection, if it is known, has authenticated at most once. */
  predicate LoggedInOnce(w: State, c: nat) {
    c in w.conns ==> w.conns[c].me.logins <= 1
  }

  ghost predicate Sound(w: State) {
    forall u :: u in w.g.sessions.vals ==> SoundEntry(w, u)
  }

  /** In every run, every entry whose connection has authenticated only once is
      sound, however many connections log in as the same user and in whatever
      order they close; so the table is sound if no connection authenticates twice. */
  lemma RoutingSound(env: Env, w: State, events: seq<Event>)
    requires EnvOk(env) && Inv(env, w)
    ensures
      var v := Run(env, w, events);
      && (forall u :: u in v.g.sessions.vals && LoggedInOnce(v, v.g.sessions.vals[u]) ==> SoundEntry(v, u))
      && ((forall c :: LoggedInOnce(v, c)) ==> Sound(v))
  {
    RunKeeps(env, w, events);
  }

  /** Whom a dispatch on connection c authenticates, if anyone. */
  function Authenticated(env: Env, w: State, c: nat): Option<string> {
    match NextPacket(w, c)
    case Some(p) => Authenticates(env, LocalOf(w, c), Frame(p.kind, p.body))
    case None => None
  }

  /** What a dispatch that authenticates connection c as u breaks: exactly the
      entry of another user the same connection was still serving. */
  lemma AuthenticationKeepsSoundExactly(env: Env, w: State, c: nat, u: string)
    requires EnvOk(env) && Inv(env, w) && Sound(w)
    requires Authenticated(env, w, c) == Some(u)
    ensures
      var before := w.conns[c].me.userId;
      Sound(Step(env, w, Dispatch(c))) <==>
        before == u || before !in w.g.sessions.vals || w.g.sessions.vals[before] != c
  {
    var p := NextPacket(w, c).value;
    HandleSessions(env, c, LocalOf(w, c), Frame(p.kind, p.body));
    NewEntrySoundExactly(w, Step(env, w, Dispatch(c)), c, u);
  }

  lemma NewEntrySoundExactly(w: State, w': State, c: nat, u: string)
    requires Sound(w) && c in w.conns && c in w'.conns
    requires w'.g.sessions == Put(w.g.sessions, u, c)
    requires w'.conns == w.conns[c := w'.conns[c]] && w'.conns[c].open
    requires w'.conns[c].me.authenticated && w'.conns[c].me.userId == u
    ensures
      var before := w.conns[c].me.userId;
      Sound(w') <==> before == u || before !in w.g.sessions.vals || w.g.sessions.vals[before] != c
  {
    var before := w.conns[c].me.userId;
    if before != u && before in w.g.sessions.vals && w.g.sessions.vals[before] == c {
      assert !SoundEntry(w', before);
    } else {
      forall v | v in w'.g.sessions.vals
        ensures SoundEntry(w', v)
      {
        if v != u {
          assert SoundEntry(w, v);
        }
      }
    }
  }

  /** Every other step keeps a sound table sound: closing a connection removes
      the entry under its own user id, which is the only one that can lead to it. */
  lemma OtherStepsKeepSound(env: Env, w: State, e: Event)
    requires EnvOk(env) && Inv(env, w) && Sound(w)
    requires e.Dispatch? ==> Authenticated(env, w, e.c).None?
    ensures Sound(Step(env, w, e))
  {
    if e.Close? && Live(w, e.c) {
      CloseKeepsSound(env, w, e.c);
    } else if e.Dispatch? && NextPacket(w, e.c).Some? {
      QuietPacketKeepsTable(env, w, e.c, NextPacket(w, e.c).value);
      KeptTableSound(w, Step(env, w, e));
    } else {
      StepKeepsTable(env, w, e);
      KeptTableSound(w, Step(env, w, e));
    }
  }

  lemma CloseKeepsSound(env: Env, w: State, c: nat)
    requires Inv(env, w) && Sound(w) && Live(w, c)
    ensures Sound(Step(env, w, Close(c)))
  {
    NoUserUnnamed(env, w.g.db);
    var w' := Step(env, w, Close(c));
    forall v | v in w'.g.sessions.vals
      ensures SoundEntry(w', v)
    {
      assert SoundEntry(w, v);
    }
  }

  /** Entries are kept or lost, and the open connections they lead to keep their users. */
  ghost predicate TableKept(w: State, w': State) {
    forall v :: v in w'.g.sessions.vals ==>
      && v in w.g.sessions.vals
      && var c := w.g.sessions.vals[v];
         w'.g.sessions.vals[v] == c && (Live(w, c) ==> Live(w', c) && w'.conns[c].me == w.conns[c].me)
  }

  lemma StepKeepsTable(env: Env, w: State, e: Event)
    requires Inv(env, w) && !(e.Close? && Live(w, e.c)) && !(e.Dispatch? && NextPacket(w, e.c).Some?)
    ensures TableKept(w, Step(env, w, e))
  {
    match e
    case Open => OpenKeepsTable(env, w);
    case Arrive(c, chunk) => ArriveKeepsTable(env, w, c, chunk);
    case Fire =>
      if w.g.timers != [] {
        FireKeepsTable(env, w);
      }
    case Restart => RestartClearsTable(env, w);
    case _ =>
  }

  lemma OpenKeepsTable(env: Env, w: State)
    requires ConnsOk(w)
    ensures TableKept(w, Step(env, w, Open))
  {
    assert w.nextConn !in w.conns;
  }

  lemma ArriveKeepsTable(env: Env, w: State, c: nat, chunk: seq<byte>)
    ensures TableKept(w, Step(env, w, Arrive(c, chunk)))
  {
  }

  lemma RestartClearsTable(env: Env, w: State)
    ensures TableKept(w, Step(env, w, Restart))
  {
  }

  lemma FireKeepsTable(env: Env, w: State)
    requires w.g.timers != []
    ensures TableKept(w, w.(g := FireTimer(env, w.g)))
  {
    WelcomeKeepsDb(env, w.g, w.g.timers[0], |w.g.db.data.groups.keys|);
  }

  lemma QuietPacketKeepsTable(env: Env, w: State, c: nat, p: NodeCodec.ParsedPacket)
    requires Live(w, c) && p.total <= |w.conns[c].buffer|
    requires Authenticates(env, LocalOf(w, c), Frame(p.kind, p.body)).None?
    ensures TableKept(w, HandleNext(env, w, c, p))
  {
    HandleSessions(env, c, LocalOf(w, c), Frame(p.kind, p.body));
  }

  lemma KeptTableSound(w: State, w': State)
    requires Sound(w) && TableKept(w, w')
    ensures Sound(w')
  {
    forall v | v in w'.g.sessions.vals
      ensures SoundEntry(w', v)
    {
      assert SoundEntry(w, v);
    }
  }

  // ----- users with an open connection -----

  /** If the connection is open and logged in, its user has an entry, and that
      leads to an open connection logged in as them. */
  ghost predicate Served(w: State, c: nat) {
    Live(w, c) && w.conns[c].me.authenticated ==>
      var u := w.conns[c].me.userId;
      u in w.g.sessions.vals && SoundEntry(w, u)
  }

  /** Whoever has an open connection is reached, on a connection of theirs. */
  ghost predicate Covered(w: State) {
    forall c :: Served(w, c)
  }

  /** Another open connection logged in as the same user as c. */
  predicate Twins(w: State, c: nat, d: nat)
    requires c in w.conns
  {
    d != c && Live(w, d) && w.conns[d].me.authenticated && w.conns[d].me.userId == w.conns[c].me.userId
  }

  /** The open connection c is logged in, and it is not its user's only one. */
  ghost predicate HasTwin(w: State, c: nat) {
    Live(w, c) && w.conns[c].me.authenticated && exists d :: Twins(w, c, d)
  }

  /** Logging c in as u takes away the connection that the entry of another user,
      who has a further one, leads to. */
  ghost predicate LeavesTwin(w: State, c: nat, u: string) {
    && HasTwin(w, c)
    && var before := w.conns[c].me.userId;
       before != u && before in w.g.sessions.vals && w.g.sessions.vals[before] == c
  }

  /** Closing a connection removes its user's only entry. So everyone with an
      open connection is still reached afterwards exactly if the closed one was
      not logged in, or no other open connection is logged in as its user. */
  lemma CloseKeepsCoveredExactly(env: Env, w: State, c: nat)
    requires Inv(env, w) && Covered(w) && Live(w, c)
    ensures Covered(Step(env, w, Close(c))) <==> !HasTwin(w, c)
  {
    NoUserUnnamed(env, w.g.db);
    ClosedEffect(LocalOf(w, c));
    ClosedCoveredExactly(w, Step(env, w, Close(c)), c);
  }

  lemma ClosedCoveredExactly(w: State, w': State, c: nat)
    requires Covered(w) && Live(w, c)
    requires w'.conns == w.conns[c := w.conns[c].(open := false)]
    requires w'.g.sessions.vals == w.g.sessions.vals - {w.conns[c].me.userId}
    requires !w.conns[c].me.authenticated ==> w.conns[c].me.userId !in w.g.sessions.vals
    ensures Covered(w') <==> !HasTwin(w, c)
  {
    if HasTwin(w, c) {
      var d :| Twins(w, c, d);
      assert !Served(w', d);
    } else {
      forall d
        ensures Served(w', d)
      {
        assert Served(w, d) && !(w.conns[c].me.authenticated && Twins(w, c, d));
      }
    }
  }

  /** Authenticating a connection as u keeps everyone with an open connection
      reached exactly if it does not leave, for u, a user who has another
      connection but whose entry led to this one. */
  lemma AuthenticationKeepsCoveredExactly(env: Env, w: State, c: nat, u: string)
    requires Covered(w) && Authenticated(env, w, c) == Some(u)
    ensures Covered(Step(env, w, Dispatch(c))) <==> !LeavesTwin(w, c, u)
  {
    var p := NextPacket(w, c).value;
    HandleSessions(env, c, LocalOf(w, c), Frame(p.kind, p.body));
    NewEntryCoveredExactly(w, Step(env, w, Dispatch(c)), c, u);
  }

  lemma NewEntryCoveredExactly(w: State, w': State, c: nat, u: string)
    requires Covered(w) && Live(w, c) && c in w'.conns
    requires w'.g.sessions == Put(w.g.sessions, u, c)
    requires w'.conns == w.conns[c := w'.conns[c]] && w'.conns[c].open
    requires w'.conns[c].me.authenticated && w'.conns[c].me.userId == u
    ensures Covered(w') <==> !LeavesTwin(w, c, u)
  {
    if LeavesTwin(w, c, u) {
      var d :| Twins(w, c, d);
      assert !Served(w', d);
    } else {
      forall d
        ensures Served(w', d)
      {
        assert Served(w, d) && Served(w, c);
        assert Twins(w, c, d) && w.conns[c].me.authenticated ==> HasTwin(w, c);
      }
    }
  }

  /** Does the step leave a user with an open connection unreached? */
  ghost predicate Strands(env: Env, w: State, e: Event) {
    match e
    case Close(c) => HasTwin(w, c)
    case Dispatch(c) => Authenticated(env, w, c).Some? && LeavesTwin(w, c, Authenticated(env, w, c).value)
    case _ => false
  }

  /** All told: a step keeps everyone with an open connection reached exactly if
      it neither closes one of a user's several connections nor logs one of them,
      the one their entry leads to, in as someone else. */
  lemma StepKeepsCoveredExactly(env: Env, w: State, e: Event)
    requires EnvOk(env) && Inv(env, w) && Covered(w)
    ensures Covered(Step(env, w, e)) <==> !Strands(env, w, e)
  {
    if e.Close? && Live(w, e.c) {
      CloseKeepsCoveredExactly(env, w, e.c);
    } else if e.Dispatch? && Authenticated(env, w, e.c).Some? {
      AuthenticationKeepsCoveredExactly(env, w, e.c, Authenticated(env, w, e.c).value);
    } else {
      OtherStepsKeepCovered(env, w, e);
    }
  }

  lemma OtherStepsKeepCovered(env: Env, w: State, e: Event)
    requires Inv(env, w) && Covered(w) && !(e.Close? && Live(w, e.c))
    requires e.Dispatch? ==> Authenticated(env, w, e.c).None?
    ensures Covered(Step(env, w, e))
  {
    var w' := Step(env, w, e);
    match e
    case Dispatch(c) =>
      if NextPacket(w, c).Some? {
        QuietPacketKeepsServed(env, w, c, NextPacket(w, c).value);
        SameServed(w, w');
      }
    case Fire =>
      if w.g.timers != [] {
        WelcomeKeepsDb(env, w.g, w.g.timers[0], |w.g.db.data.groups.keys|);
        SameServed(w, w');
      }
    case Open => SameServed(w, w');
    case Arrive(_, _) => SameServed(w, w');
    case Restart => assert w'.conns == map[];
    case Close(_) =>
  }

  /** Entries, and open connections but for newcomers, are as they were. */
  ghost predicate ServedAsBefore(w: State, w': State) {
    && w'.g.sessions.vals == w.g.sessions.vals
    && (forall c :: Live(w, c) ==> Live(w', c) && w'.conns[c].me == w.conns[c].me)
    && (forall c :: Live(w', c) && !Live(w, c) ==> !w'.conns[c].me.authenticated)
  }

  lemma SameServed(w: State, w': State)
    requires Covered(w) && ServedAsBefore(w, w')
    ensures Covered(w')
  {
    forall c
      ensures Served(w', c)
    {
      assert Served(w, c);
    }
  }

  lemma QuietPacketKeepsServed(env: Env, w: State, c: nat, p: NodeCodec.ParsedPacket)
    requires Live(w, c) && p.total <= |w.conns[c].buffer|
    requires Authenticates(env, LocalOf(w, c), Frame(p.kind, p.body)).None?
    ensures ServedAsBefore(w, HandleNext(env, w, c, p))
  {
    HandleSessions(env, c, LocalOf(w, c), Frame(p.kind, p.body));
  }

  /** Everyone with an open connection is reached after each step of the run. */
  ghost predicate AlwaysCovered(env: Env, w: State, events: seq<Event>)
    decreases |events|
  {
    events == [] || (Covered(Step(env, w, events[0])) && AlwaysCovered(env, Step(env, w, events[0]), events[1..]))
  }

  ghost predicate NeverStrands(env: Env, w: State, events: seq<Event>)
    decreases |events|
  {
    events == [] || (!Strands(env, w, events[0]) && NeverStrands(env, Step(env, w, events[0]), events[1..]))
  }

  /** So a run keeps everyone with an open connection reached throughout exactly
      if none of its steps is of these two kinds. */
  lemma {:induction false} CoveredExactly(env: Env, w: State, events: seq<Event>)
    requires EnvOk(env) && Inv(env, w) && Covered(w)
    ensures AlwaysCovered(env, w, events) <==> NeverStrands(env, w, events)
    decreases |events|
  {
    if events != [] {
      StepKeeps(env, w, events[0]);
      StepKeepsCoveredExactly(env, w, events[0]);
      if Covered(Step(env, w, events[0])) {
        CoveredExactly(env, Step(env, w, events[0]), events[1..]);
      }
    }
  }
}
