/** The running program: the server's objects and its open connections, driven
    by Node's callbacks, are the state machine of module World. */
module ProcessModel {
  import opened Framing
  import opened ChatModel
  import opened DbInvariants
  import SessionSpec
  import opened World
  import opened Invariants
  import opened Chunking
  import NodeCodec
  import opened JsonDbModel
  import opened SessionModel

  class Process {
    const env: Env
    var server: Server
    var conns: map<nat, Session>  // every connection of this process, by number
    var open: set<nat>            // those whose socket is open
    var next: nat

    ghost function State(): World.State
      reads this, server, server.db, conns.Values
    {
      World.State(server.State(), map c | c in conns :: Conn(conns[c].Me(), conns[c].buffer, c in open), next)
    }

    /** Connections are told apart by their numbers and share the one server. */
    ghost predicate Wired()
      reads this, server, conns.Values
    {
      && server.env == env && server.db.env == env
      && (forall c :: c in conns ==> conns[c].num == c && conns[c].server == server)
      && open <= conns.Keys
    }

    /** And the machine is in a good state. */
    ghost predicate Valid()
      reads this, server, server.db, conns.Values
    {
      Wired() && EnvOk(env) && Inv(env, State())
    }

    /** Start on a stored database. */
    constructor (env: Env, stored: Data, uuids: nat)
      ensures fresh(server) && fresh(server.db) && conns == map[]
      ensures this.env == env && State() == Boot(env, stored, uuids)
      ensures EnvOk(env) && WellFormed(env, stored, uuids) && BansDisjoint(stored) ==> Valid()
    {
      var db := new JsonDB(env, stored, uuids);
      this.env := env;
      server := new Server(db, [], 0);
      conns, open, next := map[], {}, 0;
      new;
      if EnvOk(env) && WellFormed(env, stored, uuids) && BansDisjoint(stored) {
        BootGood(env, stored, uuids);
      }
    }

    /** A client connects. */
    method Connect()
      requires Valid()
      modifies this
      ensures Valid() && server == old(server) && fresh(conns.Values - old(conns.Values))
      ensures State() == Step(env, old(State()), Open)
    {
      ghost var w := State();
      StepKeeps(env, w, Open);
      Accept();
      assert State() == Step(env, w, Open);
    }

    method Accept()
      requires Wired()
      modifies this
      ensures Wired() && server == old(server) && fresh(conns.Values - old(conns.Values))
      ensures
        var w := old(State());
        State() == w.(conns := w.conns[w.nextConn := Conn(NOBODY, [], true)], nextConn := w.nextConn + 1)
    {
      var s := new Session(next, server);
      conns, open, next := conns[next := s], open + {next}, next + 1;
      assert State().conns == old(State()).conns[old(next) := Conn(NOBODY, [], true)];
    }

    /** Bytes arrive on a connection. */
    method Receive(c: nat, chunk: seq<byte>)
      requires Valid()
      modifies server, server.db, conns.Values
      ensures Valid()
      ensures State() == OnData(env, old(State()), c, chunk)
    {
      ghost var w := State();
      OnDataKeeps(env, w, c, chunk);
      if c in open {
        Feed(c, chunk);
      }
      assert State() == OnData(env, w, c, chunk);
    }

    method Feed(c: nat, chunk: seq<byte>)
      requires Wired() && c in open && conns[c].Ready()
      modifies server, server.db, conns.Values
      ensures Wired()
      ensures
        var w := old(State());
        var stream := NodeCodec.Drain(w.conns[c].buffer + chunk);
        var s := SessionSpec.HandleAll(env, c, LocalOf(w, c), stream.frames);
        State() == w.(g := s.g, conns := w.conns[c := Conn(s.me, stream.rest, true)])
    {
      conns[c].OnData(chunk);
      assert State().conns == old(State()).conns[c := Conn(conns[c].Me(), conns[c].buffer, true)];
    }

    /** A connection is closed. */
    method Hangup(c: nat)
      requires Valid()
      modifies this`open, server
      ensures Valid() && conns == old(conns) && server == old(server)
      ensures State() == Step(env, old(State()), Close(c))
    {
      ghost var w := State();
      StepKeeps(env, w, Close(c));
      if c in open {
        Drop(c);
      }
      assert State() == Step(env, w, Close(c));
    }

    method Drop(c: nat)
      requires Wired() && c in open && server.Valid()
      modifies this`open, server
      ensures Wired() && conns == old(conns) && server == old(server)
      ensures
        var w := old(State());
        State() == w.(g := SessionSpec.Closed(LocalOf(w, c)).g, conns := w.conns[c := w.conns[c].(open := false)])
    {
      ghost var w := State();
      var s := conns[c];
      s.OnClose();
      open := open - {c};
      assert State().g == SessionSpec.Closed(LocalOf(w, c)).g;
      assert State().conns == w.conns[c := w.conns[c].(open := false)];
    }

    /** A welcome timer is due. */
    method TimerDue()
      requires Valid()
      modifies server
      ensures Valid()
      ensures State() == Step(env, old(State()), Fire)
    {
      ghost var w := State();
      StepKeeps(env, w, Fire);
      if server.timers != [] {
        server.FireTimer();
        assert State().g == World.FireTimer(env, w.g);
      }
      assert State() == Step(env, w, Fire);
    }

    /** The process ends and is started again on the file. */
    method Restart()
      requires Valid()
      modifies this
      ensures Valid() && fresh(server) && fresh(server.db) && conns == map[]
      ensures State() == Step(env, old(State()), World.Restart)
    {
      RestartStep(env, State());
      Reboot();
    }

    method Reboot()
      requires Wired()
      modifies this
      ensures Wired() && fresh(server) && fresh(server.db) && conns == map[]
      ensures State() == old(State()).(g := World.Restarted(env, old(State()).g), conns := map[])
    {
      var db := new JsonDB(env, server.db.disk, server.db.uuids);
      server := new Server(db, server.log, server.ticks);
      conns, open := map[], {};
    }
  }

  lemma RestartStep(env: Env, w: World.State)
    requires EnvOk(env) && Inv(env, w)
    ensures Step(env, w, World.Restart) == w.(g := World.Restarted(env, w.g), conns := map[])
    ensures Inv(env, Step(env, w, World.Restart))
  {
    StepKeeps(env, w, World.Restart);
  }

  lemma OnDataKeeps(env: Env, w: World.State, c: nat, chunk: seq<byte>)
    requires EnvOk(env) && Inv(env, w)
    ensures Inv(env, OnData(env, w, c, chunk))
  {
    CallbackIsARun(env, w, Callback.Data(c, chunk));
    RunKeeps(env, w, StepsOf(w, Callback.Data(c, chunk)));
  }
}
