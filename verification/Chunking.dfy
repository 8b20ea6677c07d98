/** The server's onData, and that cutting the byte stream differently changes nothing. */
module Chunking {
  import opened Framing
  import opened ChatModel
  import opened SessionSpec
  import opened World
  import NodeCodec

  /** One call of onData on an open connection. */
  ghost function OnData(env: Env, w: State, c: nat, chunk: seq<byte>): State {
    if !Live(w, c) then w
    else
      var stream := NodeCodec.Drain(w.conns[c].buffer + chunk);
      var s := HandleAll(env, c, LocalOf(w, c), stream.frames);
      w.(g := s.g, conns := w.conns[c := Conn(s.me, stream.rest, true)])
  }

  ghost function Feed(env: Env, w: State, c: nat, chunks: seq<seq<byte>>): State {
    if chunks == [] then w else OnData(env, Feed(env, w, c, chunks[..|chunks| - 1]), c, chunks[|chunks| - 1])
  }

  lemma {:induction false} HandleAllConcat(env: Env, c: nat, s: Local, a: seq<Frame>, b: seq<Frame>)
    ensures HandleAll(env, c, s, a + b) == HandleAll(env, c, HandleAll(env, c, s, a), b)
    decreases |a|
  {
    if a == [] {
      assert a + b == b;
    } else {
      assert (a + b)[1..] == a[1..] + b;
      HandleAllConcat(env, c, Handle(env, c, s, a[0]), a[1..], b);
    }
  }

  lemma OnDataTwice(env: Env, w: State, c: nat, a: seq<byte>, b: seq<byte>)
    ensures OnData(env, OnData(env, w, c, a), c, b) == OnData(env, w, c, a + b)
  {
    if Live(w, c) {
      var buffer := w.conns[c].buffer;
      var first := NodeCodec.Drain(buffer + a);
      var second := NodeCodec.Drain(first.rest + b);
      NodeCodec.DrainSplit(buffer + a, b);
      assert buffer + a + b == buffer + (a + b);
      HandleAllConcat(env, c, LocalOf(w, c), first.frames, second.frames);
      var s := HandleAll(env, c, LocalOf(w, c), first.frames + second.frames);
      var once := w.conns[c := Conn(HandleAll(env, c, LocalOf(w, c), first.frames).me, first.rest, true)];
      assert once[c := Conn(s.me, second.rest, true)] == w.conns[c := Conn(s.me, second.rest, true)];
    }
  }

  /** For every byte string and every way of cutting it, feeding the pieces in
      turn ends in the same database and file, sessions map, connection, leftover
      bytes, timers and packets sent as feeding it whole. */
  lemma {:induction false} CutIndependent(env: Env, w: State, c: nat, chunks: seq<seq<byte>>)
    requires chunks != []
    ensures Feed(env, w, c, chunks) == OnData(env, w, c, Concat(chunks))
    decreases |chunks|
  {
    var front, last := chunks[..|chunks| - 1], chunks[|chunks| - 1];
    if front == [] {
      assert Concat(chunks) == last;
    } else {
      CutIndependent(env, w, c, front);
      OnDataTwice(env, w, c, Concat(front), last);
    }
  }

  function Dispatches(c: nat, n: nat): seq<Event> {
    if n == 0 then [] else [Dispatch(c)] + Dispatches(c, n - 1)
  }

  lemma {:induction false} DispatchesDrain(env: Env, w: State, c: nat, n: nat)
    requires Live(w, c) && n == |NodeCodec.Drain(w.conns[c].buffer).frames|
    ensures
      var stream := NodeCodec.Drain(w.conns[c].buffer);
      var s := HandleAll(env, c, LocalOf(w, c), stream.frames);
      Run(env, w, Dispatches(c, n)) == w.(g := s.g, conns := w.conns[c := Conn(s.me, stream.rest, true)])
    decreases n
  {
    match NodeCodec.ParsePacket(w.conns[c].buffer)
    case None =>
      assert w.conns == w.conns[c := Conn(w.conns[c].me, w.conns[c].buffer, true)];
    case Some(p) =>
      var w1 := HandleNext(env, w, c, p);
      var frames := NodeCodec.Drain(w.conns[c].buffer).frames;
      assert frames[1..] == NodeCodec.Drain(w1.conns[c].buffer).frames;
      DispatchesDrain(env, w1, c, n - 1);
      assert Dispatches(c, n)[1..] == Dispatches(c, n - 1);
      assert Step(env, w, Dispatch(c)) == w1;
      var stream := NodeCodec.Drain(w1.conns[c].buffer);
      var s := HandleAll(env, c, LocalOf(w1, c), stream.frames);
      assert w1.conns[c := Conn(s.me, stream.rest, true)] == w.conns[c := Conn(s.me, stream.rest, true)];
  }

  /** onData is one arrival and then one dispatch per complete packet, so what
      holds of all runs of the machine holds of the server fed with bytes. */
  lemma OnDataIsARun(env: Env, w: State, c: nat, chunk: seq<byte>)
    requires Live(w, c)
    ensures
      var n := |NodeCodec.Drain(w.conns[c].buffer + chunk).frames|;
      OnData(env, w, c, chunk) == Run(env, w, [Arrive(c, chunk)] + Dispatches(c, n))
  {
    var w1 := Step(env, w, Arrive(c, chunk));
    var n := |NodeCodec.Drain(w.conns[c].buffer + chunk).frames|;
    DispatchesDrain(env, w1, c, n);
    assert ([Arrive(c, chunk)] + Dispatches(c, n))[1..] == Dispatches(c, n);
    var stream := NodeCodec.Drain(w.conns[c].buffer + chunk);
    var s := HandleAll(env, c, LocalOf(w, c), stream.frames);
    assert w1.conns[c := Conn(s.me, stream.rest, true)] == w.conns[c := Conn(s.me, stream.rest, true)];
  }

  /** What the process sees: connections, chunks of bytes, closings, timers, restarts. */
  datatype Callback = Connected | Data(c: nat, chunk: seq<byte>) | Closed(c: nat) | TimerDue | Restarted

  ghost function CallbackStep(env: Env, w: State, e: Callback): State {
    match e
    case Connected => Step(env, w, Open)
    case Data(c, chunk) => OnData(env, w, c, chunk)
    case Closed(c) => Step(env, w, Close(c))
    case TimerDue => Step(env, w, Fire)
    case Restarted => Step(env, w, Restart)
  }

  ghost function Serve(env: Env, w: State, history: seq<Callback>): State
    decreases |history|
  {
    if history == [] then w else Serve(env, CallbackStep(env, w, history[0]), history[1..])
  }

  /** The steps a callback amounts to. */
  ghost function StepsOf(w: State, e: Callback): seq<Event> {
    match e
    case Connected => [Open]
    case Data(c, chunk) =>
      if Live(w, c) then [Arrive(c, chunk)] + Dispatches(c, |NodeCodec.Drain(w.conns[c].buffer + chunk).frames|) else []
    case Closed(c) => [Close(c)]
    case TimerDue => [Fire]
    case Restarted => [Restart]
  }

  ghost function AllSteps(env: Env, w: State, history: seq<Callback>): seq<Event>
    decreases |history|
  {
    if history == [] then []
    else StepsOf(w, history[0]) + AllSteps(env, CallbackStep(env, w, history[0]), history[1..])
  }

  lemma CallbackIsARun(env: Env, w: State, e: Callback)
    ensures CallbackStep(env, w, e) == Run(env, w, StepsOf(w, e))
  {
    match e
    case Data(c, chunk) =>
      if Live(w, c) {
        OnDataIsARun(env, w, c, chunk);
      }
    case _ =>
      var step := StepsOf(w, e)[0];
      assert StepsOf(w, e) == [step] && [step][1..] == [];
      assert Run(env, w, [step]) == Run(env, Step(env, w, step), []);
  }

  /** Every history of the process is a run of the machine, so every theorem
      about runs is one about the server and the bytes it is sent. */
  lemma {:induction false} HistoryIsARun(env: Env, w: State, history: seq<Callback>)
    ensures Serve(env, w, history) == Run(env, w, AllSteps(env, w, history))
    decreases |history|
  {
    if history != [] {
      var w1 := CallbackStep(env, w, history[0]);
      CallbackIsARun(env, w, history[0]);
      HistoryIsARun(env, w1, history[1..]);
      RunConcat(env, w, StepsOf(w, history[0]), AllSteps(env, w1, history[1..]));
    }
  }
}
