/** The whole server as a state machine: connections come, send bytes and go,
    timers fire, the process restarts. Node runs each callback to completion, so
    a real history interleaves these steps; onData is an arrival followed by
    dispatches (module Chunking). */
module World {
  import opened Wrappers
  import opened Framing
  import opened Dicts
  import opened ChatModel
  import opened DbSpec
  import opened SessionSpec
  import NodeCodec

  datatype Conn = Conn(me: Ident, buffer: seq<byte>, open: bool)

  datatype State = State(g: Globals, conns: map<nat, Conn>, nextConn: nat)

  datatype Event =
    | Open
    | Arrive(c: nat, chunk: seq<byte>)
    | Dispatch(c: nat)
    | Close(c: nat)
    | Fire
    | Restart

  predicate Live(w: State, c: nat) {
    c in w.conns && w.conns[c].open
  }

  function LocalOf(w: State, c: nat): Local
    requires c in w.conns
  {
    Local(w.g, w.conns[c].me)
  }

  /** The packet a dispatch on c would handle. */
  function NextPacket(w: State, c: nat): Option<NodeCodec.ParsedPacket> {
    if Live(w, c) then NodeCodec.ParsePacket(w.conns[c].buffer) else None
  }

  ghost function HandleNext(env: Env, w: State, c: nat, p: NodeCodec.ParsedPacket): State
    requires Live(w, c) && p.total <= |w.conns[c].buffer|
  {
    var s := Handle(env, c, LocalOf(w, c), Frame(p.kind, p.body));
    w.(g := s.g, conns := w.conns[c := Conn(s.me, w.conns[c].buffer[p.total..], true)])
  }

  ghost function Step(env: Env, w: State, e: Event): State {
    match e
    case Open => w.(conns := w.conns[w.nextConn := Conn(NOBODY, [], true)], nextConn := w.nextConn + 1)
    case Arrive(c, chunk) =>
      if Live(w, c) then w.(conns := w.conns[c := w.conns[c].(buffer := w.conns[c].buffer + chunk)]) else w
    case Dispatch(c) =>
      (match NextPacket(w, c)
       case Some(p) => HandleNext(env, w, c, p)
       case None => w)
    case Close(c) =>
      if Live(w, c) then w.(g := Closed(LocalOf(w, c)).g, conns := w.conns[c := w.conns[c].(open := false)]) else w
    case Fire => if w.g.timers == [] then w else w.(g := FireTimer(env, w.g))
    case Restart => w.(g := Restarted(env, w.g), conns := map[])
  }

  function FireTimer(env: Env, g: Globals): Globals
    requires g.timers != []
  {
    Welcome(env, g, g.timers[0], |g.db.data.groups.keys|).(timers := g.timers[1..])
  }

  /** Only the file survives: it is loaded and seeded. */
  ghost function Restarted(env: Env, g: Globals): Globals {
    g.(db := Seed(env, Db(g.db.disk, g.db.disk, g.db.uuids)), sessions := Empty<nat>(), timers := [])
  }

  ghost function Run(env: Env, w: State, events: seq<Event>): State
    decreases |events|
  {
    if events == [] then w else Run(env, Step(env, w, events[0]), events[1..])
  }

  /** The server started on a stored database. */
  ghost function Boot(env: Env, stored: Data, uuids: nat): State {
    State(Globals(Seed(env, Db(stored, stored, uuids)), Empty<nat>(), [], 0, []), map[], 0)
  }

  lemma {:induction false} RunConcat(env: Env, w: State, a: seq<Event>, b: seq<Event>)
    ensures Run(env, w, a + b) == Run(env, Run(env, w, a), b)
    decreases |a|
  {
    if a == [] {
      assert a + b == b;
    } else {
      assert (a + b)[1..] == a[1..] + b;
      RunConcat(env, Step(env, w, a[0]), a[1..], b);
    }
  }
}
