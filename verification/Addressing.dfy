/** On whose connections packets end up: the sessions map is asked for a user,
    and what it gives is a connection, which may by then be another user's. */
module Addressing {
  import opened Wrappers
  import opened ChatModel
  import opened DbSpec
  import opened SessionSpec
  import opened Effects
  import opened World
  import opened Invariants
  import opened Safety
  import opened Routing
  import Broadcast

  /** The sessions map is sound after each step of the run. */
  ghost predicate AlwaysSound(env: Env, w: State, events: seq<Event>)
    decreases |events|
  {
    events == [] || (Sound(Step(env, w, events[0])) && AlwaysSound(env, Step(env, w, events[0]), events[1..]))
  }

  /** The step logs in, as someone else, the connection a user's entry leads to. */
  ghost predicate Displaces(env: Env, w: State, e: Event) {
    && e.Dispatch? && Authenticated(env, w, e.c).Some?
    && var before := w.conns[e.c].me.userId;
       && before != Authenticated(env, w, e.c).value
       && before in w.g.sessions.vals && w.g.sessions.vals[before] == e.c
  }

  ghost predicate NeverDisplaces(env: Env, w: State, events: seq<Event>)
    decreases |events|
  {
    events == [] || (!Displaces(env, w, events[0]) && NeverDisplaces(env, Step(env, w, events[0]), events[1..]))
  }

  /** A sound sessions map stays sound throughout a run exactly if the run never
      logs in a connection that an entry leads to as someone else. */
  lemma {:induction false} SoundThroughoutExactly(env: Env, w: State, events: seq<Event>)
    requires EnvOk(env) && Inv(env, w) && Sound(w)
    ensures AlwaysSound(env, w, events) <==> NeverDisplaces(env, w, events)
    decreases |events|
  {
    if events != [] {
      var e := events[0];
      StepKeeps(env, w, e);
      if e.Dispatch? && Authenticated(env, w, e.c).Some? {
        AuthenticationKeepsSoundExactly(env, w, e.c, Authenticated(env, w, e.c).value);
      } else {
        OtherStepsKeepSound(env, w, e);
      }
      if Sound(Step(env, w, e)) {
        SoundThroughoutExactly(env, Step(env, w, e), events[1..]);
      }
    }
  }

  /** The entry of the log, if it was routed, is on an open connection logged in
      as the user it was routed to. */
  ghost predicate OnOwn(w: State, e: Sent) {
    e.via != "" ==> IsOf(w, e.conn, e.via)
  }

  /** Where the sessions map is sound, what a step routes to a user is written on
      a connection of that user's. */
  lemma RoutedReachesAddressee(env: Env, w: State, e: Event)
    requires EnvOk(env) && Inv(env, w) && Sound(Step(env, w, e))
    ensures
      var w1 := Step(env, w, e);
      w.g.log <= w1.g.log && forall i :: |w.g.log| <= i < |w1.g.log| ==> OnOwn(w1, w1.g.log[i])
  {
    var w1 := Step(env, w, e);
    StepInOrder(env, w, e);
    forall i | |w.g.log| <= i < |w1.g.log|
      ensures OnOwn(w1, w1.g.log[i])
    {
      assert InOrder(w1.g, ActorConn(e), Actor(w1, e), w1.g.log[i]);
      if w1.g.log[i].via != "" {
        assert SoundEntry(w1, w1.g.log[i].via);
      }
    }
  }

  // ----- group bans, end to end -----

  /** The entry of some member of g leads to an open connection logged in as u. */
  ghost predicate Leaks(w: State, g: string, u: string) {
    exists m :: LeadsTo(w, g, m, u)
  }

  predicate LeadsTo(w: State, g: string, m: string, u: string) {
    m in GroupMembers(w.g.db.data, g) && m in w.g.sessions.vals && IsOf(w, w.g.sessions.vals[m], u)
  }

  /** An entry about g that is written on a connection of u's. */
  ghost predicate Shows(w: State, e: Sent, g: string, u: string) {
    AboutGroup(e.packet) == Some(g) && IsOf(w, e.conn, u)
  }

  /** A packet about g is written on a connection of u's by a leak only... */
  lemma ShownOnlyByLeak(env: Env, w: State, e: Event, g: string, u: string)
    requires EnvOk(env) && Inv(env, w)
    ensures
      var w1 := Step(env, w, e);
      w.g.log <= w1.g.log && forall i :: |w.g.log| <= i < |w1.g.log| && Shows(w1, w1.g.log[i], g, u) ==> Leaks(w1, g, u)
  {
    var w1 := Step(env, w, e);
    StepInOrder(env, w, e);
    forall i | |w.g.log| <= i < |w1.g.log| && Shows(w1, w1.g.log[i], g, u)
      ensures Leaks(w1, g, u)
    {
      assert InOrder(w1.g, ActorConn(e), Actor(w1, e), w1.g.log[i]);
      assert LeadsTo(w1, g, w1.g.log[i].via, u);
    }
  }

  /** ...and an announcement in g is, if there is one. */
  lemma AnnouncementShownExactly(env: Env, w: State, g: string, text: string, u: string)
    requires Inv(env, w)
    ensures
      var g' := SystemMessage(env, w.g, g, text);
      && w.g.log <= g'.log
      && ((exists i :: |w.g.log| <= i < |g'.log| && Shows(w, g'.log[i], g, u)) <==> Leaks(w, g, u))
  {
    NoUserUnnamed(env, w.g.db);
    var g' := SystemMessage(env, w.g, g, text);
    SystemMessageInOrder(env, w.g, 0, NOBODY, g, text);
    if Leaks(w, g, u) {
      var m :| LeadsTo(w, g, m, u);
      var k := AnnouncedTo(env, w.g, g, text, m);
      assert InOrder(g', 0, NOBODY, g'.log[k]) && Shows(w, g'.log[k], g, u);
    }
    forall i | |w.g.log| <= i < |g'.log| && Shows(w, g'.log[i], g, u)
      ensures Leaks(w, g, u)
    {
      assert InOrder(g', 0, NOBODY, g'.log[i]);
      assert LeadsTo(w, g, g'.log[i].via, u);
    }
  }

  /** Where in the log an online member's copy of an announcement is. */
  lemma AnnouncedTo(env: Env, g: Globals, gid: string, text: string, m: string) returns (k: nat)
    requires m in GroupMembers(g.db.data, gid) && m in g.sessions.vals
    ensures
      var g' := SystemMessage(env, g, gid, text);
      |g.log| <= k < |g'.log| && g'.log[k].via == m && AboutGroup(g'.log[k].packet) == Some(gid)
  {
    Broadcast.SystemMessageExact(env, g, gid, text, m);
    var g' := SystemMessage(env, g, gid, text);
    var sent := g'.log[|g.log|..];
    var i := Broadcast.SomeReceived(sent, m);
    k := |g.log| + i;
    assert g'.log[k] == sent[i];
  }

  /** Where the sessions map is sound, groups leak to nobody banned from them. */
  lemma SoundDoesNotLeak(env: Env, w: State, g: string, u: string)
    requires Inv(env, w) && Sound(w) && IsGroupBanned(w.g.db.data, g, u)
    ensures !Leaks(w, g, u)
  {
    forall m
      ensures !LeadsTo(w, g, m, u)
    {
      if m in GroupMembers(w.g.db.data, g) && m in w.g.sessions.vals {
        assert SoundEntry(w, m);
      }
    }
  }

  /** No step of the run writes a packet about g on a connection logged in as u. */
  ghost predicate NeverShown(env: Env, w: State, events: seq<Event>, g: string, u: string)
    decreases |events|
  {
    events == [] || (
      var w1 := Step(env, w, events[0]);
      && w.g.log <= w1.g.log
      && (forall i :: |w.g.log| <= i < |w1.g.log| ==> !Shows(w1, w1.g.log[i], g, u))
      && NeverShown(env, w1, events[1..], g, u))
  }

  /** A group ban holds end to end on every run that keeps the sessions map sound:
      nothing about the group is written on a connection of the banned user's. */
  lemma {:induction false} GroupBanEndToEnd(env: Env, w: State, events: seq<Event>, g: string, u: string)
    requires EnvOk(env) && Inv(env, w) && IsGroupBanned(w.g.db.data, g, u) && AlwaysSound(env, w, events)
    ensures NeverShown(env, w, events, g, u)
    decreases |events|
  {
    if events != [] {
      var w1 := Step(env, w, events[0]);
      StepKeeps(env, w, events[0]);
      StepKeepsGroupBan(env, w, events[0], g, u);
      ShownOnlyByLeak(env, w, events[0], g, u);
      SoundDoesNotLeak(env, w1, g, u);
      GroupBanEndToEnd(env, w1, events[1..], g, u);
    }
  }
}
