/**
  Two ways in which a body that the handler's `SendMsg` was told is on its way never reaches the
  client, although the client reports a successful end: the writer goes on after a write that
  failed, and `SendMsg` does not look at whether the trailer was sent. And one in which a body never
  reaches the handler: it stands next to the client's trailer.
 */
module MissedBodies {
  import opened Frames
  import opened Logs
  import opened Methods
  import opened Systems
  import opened LostFailures
  import MetadataCodec
  import C = Clients
  import CS = ClientStreams
  import SS = ServerStreams
  import S = Servers
  import SI = ServerInvariants
  import Mux = Multiplexers

  /** The server with its one live stream, and what became of the frames handed to the writer. */
  function Live(x: Scene, st: S.Stream, writer: Option<S.Out>, handed: seq<S.Out>, out: seq<S.Out>, lost: seq<S.Out>): S.Server {
    S.Fresh().(inLog := [Opening(x)], table := map[1 := 0], all := [st], writer := writer, handed := handed,
               outLog := out, ctxDone := lost != [], lost := lost)
  }

  function OutOf(st: S.Stream, call: SS.Call): S.Out
    requires SS.Writes(st.ss, call)
  {
    S.Out(S.FromStream(0), SS.Frame(st.ss, call))
  }

  /** The stream after a call that was accepted. */
  function After(st: S.Stream, call: SS.Call): S.Stream {
    S.Completed(st.(busy := Some(call)), true)
  }

  /** An accepted `SendMsg`: its frame is handed to the writer. */
  lemma Sends(x: Scene, c: C.Client, st: S.Stream, call: SS.Call, handed: seq<S.Out>, out: seq<S.Out>, lost: seq<S.Out>)
    requires Reachable(x.cfg, System(c, Live(x, st, None, handed, out, lost)))
    requires st.busy.None? && call.SendMsg? && SS.Legal(st.ss, call)
    ensures Reachable(x.cfg, System(c, Live(x, After(st, call), Some(OutOf(st, call)), handed + [OutOf(st, call)], out, lost)))
  {
    hide Reachable, SS.Apply, SS.Frame, SS.Legal;
    ServerGoes(x.cfg, c, Live(x, st, None, handed, out, lost), S.Call(0, call),
               Live(x, st.(busy := Some(call)), None, handed, out, lost));
    ServerGoes(x.cfg, c, Live(x, st.(busy := Some(call)), None, handed, out, lost), S.HandFrame(0),
               Live(x, After(st, call), Some(OutOf(st, call)), handed + [OutOf(st, call)], out, lost));
  }

  /** The writer writes the frame that it holds, or fails to. */
  lemma WriterGoes(x: Scene, c: C.Client, st: S.Stream, o: S.Out, handed: seq<S.Out>, out: seq<S.Out>, lost: seq<S.Out>, ok: bool)
    requires Reachable(x.cfg, System(c, Live(x, st, Some(o), handed, out, lost)))
    ensures Reachable(x.cfg, System(c, Live(x, st, None, handed, if ok then out + [o] else out, if ok then lost else lost + [o])))
  {
    hide Reachable;
    ServerGoes(x.cfg, c, Live(x, st, Some(o), handed, out, lost), S.Write(ok),
               Live(x, st, None, handed, if ok then out + [o] else out, if ok then lost else lost + [o]));
  }

  const OkTrailer := SS.SendTrailer(None, [], [])

  function Returned(st: S.Stream): S.Stream { st.(pc := S.Returned, result := Some(None)) }

  function Trailing(st: S.Stream): S.Stream { Returned(st).(pc := S.Trailing, busy := Some(OkTrailer)) }

  lemma Returns(x: Scene, c: C.Client, st: S.Stream, handed: seq<S.Out>, out: seq<S.Out>, lost: seq<S.Out>)
    requires Reachable(x.cfg, System(c, Live(x, st, None, handed, out, lost)))
    requires st.pc.Running? && st.busy.None? && SS.Legal(st.ss, OkTrailer)
    ensures Reachable(x.cfg, System(c, Live(x, Trailing(st), None, handed, out, lost)))
  {
    hide Reachable, SS.Legal;
    ServerGoes(x.cfg, c, Live(x, st, None, handed, out, lost), S.Return(0, None), Live(x, Returned(st), None, handed, out, lost));
    ServerGoes(x.cfg, c, Live(x, Returned(st), None, handed, out, lost), S.Trail(0, [], []),
               Live(x, Trailing(st), None, handed, out, lost));
  }

  /** The handler succeeds, and its trailer is handed to the writer. */
  lemma Succeeds(x: Scene, c: C.Client, st: S.Stream, handed: seq<S.Out>, out: seq<S.Out>, lost: seq<S.Out>)
    requires Reachable(x.cfg, System(c, Live(x, st, None, handed, out, lost)))
    requires st.pc.Running? && st.busy.None? && !st.ss.trailersSent && SS.Legal(st.ss, OkTrailer)
    ensures Reachable(x.cfg, System(c, Live(x, After(Returned(st), OkTrailer), Some(OutOf(st, OkTrailer)),
                                            handed + [OutOf(st, OkTrailer)], out, lost)))
  {
    hide Reachable, SS.Apply, SS.Frame, SS.Legal;
    Returns(x, c, st, handed, out, lost);
    ServerGoes(x.cfg, c, Live(x, Trailing(st), None, handed, out, lost), S.HandFrame(0),
               Live(x, After(Returned(st), OkTrailer), Some(OutOf(st, OkTrailer)), handed + [OutOf(st, OkTrailer)], out, lost));
  }

  function Message(x: Scene): SS.Call { SS.SendMsg(x.body, []) }

  /** The first frame of a stream on which nothing was set is a plain one. */
  lemma StartedCalls(x: Scene)
    ensures var st := Started(x);
            && SS.Legal(st.ss, Message(x)) && SS.Legal(st.ss, OkTrailer) && LooksOk(OutOf(st, OkTrailer).rpc)
            && OutOf(st, Message(x)).rpc.body == Some(x.body) && OutOf(st, OkTrailer).rpc.body.None?
  {
    hide S.ReplyMethod, MetadataCodec.Encodes;
    NothingEncodes();
  }

  /** A stream after its first accepted call. */
  lemma AfterFirst(x: Scene, call: SS.Call)
    requires call == Message(x) || call == OkTrailer
    ensures var st := After(if call.SendTrailer? then Returned(Started(x)) else Started(x), call);
            && st.id == 1 && st.busy.None? && (st.pc.Running? <==> call.SendMsg?)
            && st.result == (if call.SendTrailer? then Some(None) else None)
            && st.ss.headersSent && st.ss.trailers == [] && (st.ss.trailersSent <==> call.SendTrailer?)
            && st.ss.written == [OutOf(Started(x), call).rpc]
  {
    hide SS.Frame;
    StartedShape(x);
    assert [] + [OutOf(Started(x), call).rpc] == [OutOf(Started(x), call).rpc];
  }

  /** What both runs come to: a handler that succeeded, one body accepted, and a client that got none but reports success. */
  predicate Missed(x: Scene, s: System) {
    && |s.server.all| == 1 && s.server.all[0].id == 1 && s.server.all[0].result == Some(None)
    && Bodies(s.server.all[0].ss.written) == [x.body]
    && 1 in s.client.streams && s.client.streams[1].cs.recvAnswers == [CS.Stored(Some(EOF))]
  }

  lemma StartIsLive(x: Scene)
    requires Suits(x)
    ensures Reachable(x.cfg, System(Open(x, Idle(x)), Live(x, Started(x), None, [], [], [])))
  {
    hide Reachable, Suits;
    OpenedAndStarted(x);
    StartedShape(x);
    assert WithStream(x, Started(x)) == Live(x, Started(x), None, [], [], []);
  }

  /**
    A failed write in the middle: the writer loses the body, goes on, and writes the trailer. So the
    first exception in `Completeness.NothingMissedExactly` is real.
   */
  lemma FailedWriteLosesBody(x: Scene) returns (s: System)
    requires Suits(x)
    ensures Reachable(x.cfg, s) && Missed(x, s)
    ensures |s.server.lost| == 1
  {
    hide Reachable, Suits, Live, After, OutOf, LooksOk, Open, SS.Legal, Misled, Bodies;
    var c, st0 := Open(x, Idle(x)), Started(x);
    var st1, o1 := After(st0, Message(x)), OutOf(st0, Message(x));
    StartIsLive(x);
    StartedCalls(x);
    StartedShape(x);
    Sends(x, c, st0, Message(x), [], [], []);
    WriterGoes(x, c, st1, o1, [] + [o1], [], [], false);
    AfterFirst(x, Message(x));
    SecondCall(x, Message(x), OkTrailer);
    Succeeds(x, c, st1, [] + [o1], [], [] + [o1]);
    var st2, o2 := After(Returned(st1), OkTrailer), OutOf(st1, OkTrailer);
    WriterGoes(x, c, st2, o2, [] + [o1] + [o2], [], [] + [o1], true);
    var v := Live(x, st2, None, [] + [o1] + [o2], [] + [o2], [] + [o1]);
    LiveShape(x, st2, [] + [o1] + [o2], [] + [o2], [] + [o1]);
    ClientBelieves(x, false, o2.rpc, v);
    s := Misled(x, false, o2.rpc, v);
    MisledClient(x, o2.rpc, v);
  }

  /** The second call on a stream: a frame without header metadata behind the first one. */
  lemma SecondCall(x: Scene, first: SS.Call, second: SS.Call)
    requires (first == Message(x) && second == OkTrailer) || (first == OkTrailer && second == Message(x))
    ensures var st := After(if first.SendTrailer? then Returned(Started(x)) else Started(x), first);
            && SS.Legal(st.ss, second) && SS.Writes(st.ss, second)
            && (second.SendTrailer? ==> LooksOk(OutOf(st, second).rpc))
            && Bodies(After(if second.SendTrailer? then Returned(st) else st, second).ss.written) == [x.body]
            && After(if second.SendTrailer? then Returned(st) else st, second).result == Some(None)
            && After(if second.SendTrailer? then Returned(st) else st, second).id == 1
  {
    hide MetadataCodec.Encodes, S.ReplyMethod;
    NothingEncodes();
    AfterFirst(x, first);
    StartedCalls(x);
    var st := After(if first.SendTrailer? then Returned(Started(x)) else Started(x), first);
    var f := OutOf(st, second).rpc;
    BodiesAppend([], OutOf(Started(x), first).rpc);
    BodiesAppend([OutOf(Started(x), first).rpc], f);
    assert [] + [OutOf(Started(x), first).rpc] == [OutOf(Started(x), first).rpc];
  }

  lemma LiveShape(x: Scene, st: S.Stream, handed: seq<S.Out>, out: seq<S.Out>, lost: seq<S.Out>)
    ensures var v := Live(x, st, None, handed, out, lost);
            v.outLog == out && v.all == [st] && v.lost == lost
  {
  }

  lemma MisledClient(x: Scene, f: Rpc, v: S.Server)
    ensures var s := Misled(x, false, f, v);
            s.server == v && 1 in s.client.streams && s.client.streams[1].cs.recvAnswers == [CS.Stored(Some(EOF))]
  {
  }

  /**
    A `SendMsg` after the trailer is accepted and written, and the client never receives it: the
    second exception in `Completeness.NothingMissedExactly` is real.
   */
  lemma BodyAfterTrailerIsMissed(x: Scene) returns (s: System)
    requires Suits(x)
    ensures Reachable(x.cfg, s) && Missed(x, s)
    ensures s.server.lost == []
  {
    hide Reachable, Suits, Live, After, OutOf, LooksOk, Open, SS.Legal, Misled, Bodies;
    var c, st0 := Open(x, Idle(x)), Started(x);
    var st1, o1 := After(Returned(st0), OkTrailer), OutOf(st0, OkTrailer);
    StartIsLive(x);
    StartedCalls(x);
    StartedShape(x);
    Succeeds(x, c, st0, [], [], []);
    WriterGoes(x, c, st1, o1, [] + [o1], [], [], true);
    AfterFirst(x, OkTrailer);
    SecondCall(x, OkTrailer, Message(x));
    Sends(x, c, st1, Message(x), [] + [o1], [] + [o1], []);
    var st2, o2 := After(st1, Message(x)), OutOf(st1, Message(x));
    WriterGoes(x, c, st2, o2, [] + [o1] + [o2], [] + [o1], [], true);
    var v := Live(x, st2, None, [] + [o1] + [o2], [] + [o1] + [o2], []);
    LiveShape(x, st2, [] + [o1] + [o2], [] + [o1] + [o2], []);
    ClientBelieves(x, false, o1.rpc, v);
    s := Misled(x, false, o1.rpc, v);
    MisledClient(x, o1.rpc, v);
  }

  // ----- a body next to the client's trailer

  /** Some run of a server, against some client, gets to this state. */
  ghost predicate Served(cfg: Config, v: S.Server) {
    exists states, steps :: SI.IsRun(cfg, states, steps) && states[|steps|] == v
  }

  lemma FreshServed(cfg: Config)
    ensures Served(cfg, S.Fresh())
  {
    hide S.Enabled, S.Next;
    var steps: seq<S.Step> := [];
    assert SI.IsRun(cfg, [S.Fresh()], steps) && [S.Fresh()][|steps|] == S.Fresh();
  }

  lemma StepServed(cfg: Config, v: S.Server, step: S.Step, v': S.Server)
    requires Served(cfg, v) && S.Enabled(cfg, v, step) && v' == S.Next(cfg, v, step)
    ensures Served(cfg, v')
  {
    hide S.Enabled, S.Next;
    var states, steps :| SI.IsRun(cfg, states, steps) && states[|steps|] == v;
    var states', steps' := states + [v'], steps + [step];
    assert forall i :: 0 <= i < |states| ==> states'[i] == states[i];
    assert forall i :: 0 <= i < |steps| ==> steps'[i] == steps[i];
    assert SI.IsRun(cfg, states', steps') && states'[|steps'|] == v';
  }

  /** A frame for the live stream, with a body and a trailer. */
  predicate BothParts(x: Scene, f: Rpc) {
    && f.id == 1 && f.header.Some? && RouteHeader(x.cfg, f.header.value).StreamMethod?
    && !IsReset(f) && f.body.Some? && f.trailer.Some?
  }

  /** The server with its live stream, and the frame on its way to it. */
  function Fed(x: Scene, f: Rpc, ch: Mux.Chan, loop: S.LoopPc, lock: S.Lock): S.Server {
    WithStream(x, Started(x).(ch := ch)).(inLog := [Opening(x), f], loop := loop, lock := lock)
  }

  lemma FrameRouted(x: Scene, f: Rpc)
    requires BothParts(x, f) && Served(x.cfg, WithStream(x, Started(x)))
    ensures Served(x.cfg, Fed(x, f, Mux.Chan([], 0, false), S.Pushing(0, 1), S.HeldByServe))
  {
    hide Served, RouteHeader, S.StartStream;
    StartedShape(x);
    StartedChan(x);
    var v := Fed(x, f, Mux.Chan([], 0, false), S.Routing(1), S.Free);
    assert [Opening(x)] + [f] == [Opening(x), f];
    StepServed(x.cfg, WithStream(x, Started(x)), S.Read(f), v);
    StepServed(x.cfg, v, S.RouteFrame(true), Fed(x, f, Mux.Chan([], 0, false), S.Pushing(0, 1), S.HeldByServe));
  }

  lemma StartedChan(x: Scene)
    ensures Started(x).ch == Mux.Chan([], 0, false)
  {
  }

  lemma FrameTaken(x: Scene, f: Rpc)
    requires Served(x.cfg, Fed(x, f, Mux.Chan([], 0, false), S.Pushing(0, 1), S.HeldByServe))
    ensures Served(x.cfg, Fed(x, f, Mux.Chan([f], 1, false), S.Reading, S.Free))
  {
    hide Served, S.StartStream;
    StartedShape(x);
    assert [] + [f] == [f];
    StepServed(x.cfg, Fed(x, f, Mux.Chan([], 0, false), S.Pushing(0, 1), S.HeldByServe), S.PushIn,
               Fed(x, f, Mux.Chan([f], 0, false), S.Reading, S.Free));
    StepServed(x.cfg, Fed(x, f, Mux.Chan([f], 0, false), S.Reading, S.Free), S.Receive(0),
               Fed(x, f, Mux.Chan([f], 1, false), S.Reading, S.Free));
  }

  /**
    The protocol lets a client send its last body next to the trailer. For every such frame some run
    of the server has its handler read it and get no body: `RecvMsg` answers the end of stream.
   */
  lemma ServerDropsBodyNextToTrailer(x: Scene, f: Rpc) returns (v: S.Server)
    requires Suits(x) && BothParts(x, f)
    ensures Served(x.cfg, v) && |v.all| == 1 && v.all[0].ch.sent == [f] && v.all[0].ch.taken == 1
    ensures SS.HandedOut(v.all[0].ch.sent) == [] && Bodies(v.all[0].ch.sent) == [f.body.value]
  {
    hide Served, Suits, S.Enabled, S.Next, S.StartStream;
    FreshServed(x.cfg);
    ServerStarts(x);
    var v1 := S.Next(x.cfg, S.Fresh(), S.Read(Opening(x)));
    StepServed(x.cfg, S.Fresh(), S.Read(Opening(x)), v1);
    StepServed(x.cfg, v1, S.RouteFrame(true), WithStream(x, Started(x)));
    FrameRouted(x, f);
    FrameTaken(x, f);
    v := Fed(x, f, Mux.Chan([f], 1, false), S.Reading, S.Free);
    assert [f][..0] == [];
    BodiesAppend([], f);
    assert [] + [f] == [f];
  }
}
