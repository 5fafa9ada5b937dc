/**
  Why the end of a client stream is not always its handler's result: a run in which the handler of a stream
  fails, every write succeeds, and the client still reports a successful end. The handler's trailer
  waits at the writer while a reset for a late body goes straight to the transport.
 */
module LostFailures {
  import opened Frames
  import opened Methods
  import opened Systems
  import MetadataCodec
  import EndToEnd
  import Mux = Multiplexers
  import CS = ClientStreams
  import SS = ServerStreams
  import C = Clients
  import S = Servers

  /** Some run gets to this state. */
  ghost predicate Reachable(cfg: Config, s: System) {
    exists states, steps :: IsRun(cfg, states, steps) && states[|steps|] == s
  }

  lemma FreshReachable(cfg: Config)
    ensures Reachable(cfg, Fresh())
  {
    hide Enabled, Next;
    var steps: seq<Step> := [];
    assert IsRun(cfg, [Fresh()], steps) && [Fresh()][|steps|] == Fresh();
  }

  lemma StepReachable(cfg: Config, s: System, step: Step, s': System)
    requires Reachable(cfg, s) && Enabled(cfg, s, step) && s' == Next(cfg, s, step)
    ensures Reachable(cfg, s')
  {
    hide Enabled, Next;
    var states, steps :| IsRun(cfg, states, steps) && states[|steps|] == s;
    var states', steps' := states + [s'], steps + [step];
    assert states'[..|states|] == states && steps'[..|steps|] == steps;
    assert forall i :: 0 <= i < |states| ==> states'[i] == states[i];
    assert forall i :: 0 <= i < |steps| ==> steps'[i] == steps[i];
    assert IsRun(cfg, states', steps') && states'[|steps'|] == s';
  }

  lemma ClientGoes(cfg: Config, c: C.Client, v: S.Server, step: C.Step, c': C.Client)
    requires Reachable(cfg, System(c, v)) && !step.Read? && C.Enabled(c, step) && c' == C.Next(c, step)
    ensures Reachable(cfg, System(c', v))
  {
    hide Reachable, C.Enabled, C.Next;
    StepReachable(cfg, System(c, v), ClientStep(step), System(c', v));
  }

  lemma ServerGoes(cfg: Config, c: C.Client, v: S.Server, step: S.Step, v': S.Server)
    requires Reachable(cfg, System(c, v)) && !step.Read? && S.Enabled(cfg, v, step) && v' == S.Next(cfg, v, step)
    ensures Reachable(cfg, System(c, v'))
  {
    hide Reachable, S.Enabled, S.Next;
    StepReachable(cfg, System(c, v), ServerStep(step), System(c, v'));
  }

  /** The call and what comes of it: a header, a handler's error, and a body. */
  datatype Scene = Scene(cfg: Config, h: RequestHeader, err: Status, body: Body)

  predicate Suits(x: Scene) {
    RouteHeader(x.cfg, x.h).StreamMethod? && x.h.headers == []
  }

  function Opening(x: Scene): Rpc { C.Opening(1, x.h) }
  function Ident(x: Scene): CS.Identity { C.IdentityOf(1, x.h) }
  function Late(x: Scene): Rpc { CS.BodyFrame(Ident(x), x.body) }
  function Rejection(x: Scene): Rpc { S.ResetReply(Late(x)) }

  // ----- the server, step by step

  function Started(x: Scene): S.Stream { S.StartStream(Opening(x), 0) }

  function Failing(x: Scene): S.Stream {
    Started(x).(pc := S.Returned, result := Some(Some(x.err)))
  }

  function Trailing(x: Scene): S.Stream {
    Failing(x).(pc := S.Trailing, busy := Some(SS.SendTrailer(Some(x.err), [], [])))
  }

  function Trailed(x: Scene): S.Stream { S.Completed(Trailing(x), true) }

  function TrailerOut(x: Scene): S.Out {
    S.Out(S.FromStream(0), SS.Frame(Started(x).ss, SS.SendTrailer(Some(x.err), [], [])))
  }

  function Left(x: Scene): S.Stream {
    Trailed(x).(pc := S.Gone, cancelled := true, tokens := 1, tokensSent := 1)
  }

  /** The server with one stream, live or gone. */
  function WithStream(x: Scene, st: S.Stream): S.Server {
    S.Fresh().(inLog := [Opening(x)], table := if st.pc.Gone? then map[] else map[1 := 0], all := [st])
  }

  /** The same, with the trailer at the writer. */
  function AtWriter(x: Scene, st: S.Stream): S.Server {
    WithStream(x, st).(writer := Some(TrailerOut(x)), handed := [TrailerOut(x)])
  }

  lemma ServerStarts(x: Scene)
    requires Suits(x)
    ensures S.Enabled(x.cfg, S.Fresh(), S.Read(Opening(x)))
    ensures var v := S.Next(x.cfg, S.Fresh(), S.Read(Opening(x)));
            S.Enabled(x.cfg, v, S.RouteFrame(true)) && S.Next(x.cfg, v, S.RouteFrame(true)) == WithStream(x, Started(x))
  {
    hide RouteHeader, S.StartStream;
    assert MetadataCodec.Decode([]).Some?;
    StartedShape(x);
  }

  lemma StartedShape(x: Scene)
    ensures var st := Started(x);
            && st.id == 1 && st.startAt == 0 && st.pc.Running? && st.busy.None? && st.tokens == 0 && st.tokensSent == 0
            && !st.ss.headersSent && !st.ss.trailersSent && st.ss.headers == [] && st.ss.trailers == []
  {
    hide S.ReplyMethod;
  }

  lemma ServerTrails(x: Scene)
    ensures S.Enabled(x.cfg, WithStream(x, Started(x)), S.Return(0, Some(x.err)))
    ensures S.Next(x.cfg, WithStream(x, Started(x)), S.Return(0, Some(x.err))) == WithStream(x, Failing(x))
    ensures S.Enabled(x.cfg, WithStream(x, Failing(x)), S.Trail(0, [], []))
    ensures S.Next(x.cfg, WithStream(x, Failing(x)), S.Trail(0, [], [])) == WithStream(x, Trailing(x))
  {
    hide S.StartStream, MetadataCodec.Encodes;
    StartedShape(x);
    NothingEncodes();
  }

  lemma NothingEncodes()
    ensures MetadataCodec.Encodes([], [])
  {
    assert MetadataCodec.IsOrder([], MetadataCodec.Join([])) && MetadataCodec.EncodeIn([], MetadataCodec.Join([])) == [];
  }

  lemma ServerHands(x: Scene)
    ensures S.Enabled(x.cfg, WithStream(x, Trailing(x)), S.HandFrame(0))
    ensures S.Next(x.cfg, WithStream(x, Trailing(x)), S.HandFrame(0)) == AtWriter(x, Trailed(x))
  {
    hide S.StartStream, SS.TrailerStatus;
    StartedShape(x);
  }

  function Leaving(x: Scene): S.Stream { Trailed(x).(pc := S.Leaving, cancelled := true) }

  function Unregistering(x: Scene): S.Server {
    AtWriter(x, Leaving(x).(pc := S.Unregistering, tokens := 1, tokensSent := 1)).(lock := S.HeldByUnregister(0))
  }

  lemma TrailedShape(x: Scene)
    ensures var st := Trailed(x);
            && st.id == 1 && st.startAt == 0 && st.pc.Trailed? && st.busy.None? && st.tokens == 0 && st.tokensSent == 0
            && st.result == Some(Some(x.err))
  {
    hide S.StartStream, SS.Apply;
    StartedShape(x);
  }

  lemma ServerLeaves(x: Scene)
    ensures S.Enabled(x.cfg, AtWriter(x, Trailed(x)), S.Leave(0))
    ensures S.Next(x.cfg, AtWriter(x, Trailed(x)), S.Leave(0)) == AtWriter(x, Leaving(x))
    ensures S.Enabled(x.cfg, AtWriter(x, Leaving(x)), S.Unregister(0))
    ensures S.Next(x.cfg, AtWriter(x, Leaving(x)), S.Unregister(0)) == Unregistering(x)
    ensures S.Enabled(x.cfg, Unregistering(x), S.Delete(0))
    ensures S.Next(x.cfg, Unregistering(x), S.Delete(0)) == AtWriter(x, Left(x))
  {
    hide Trailed, TrailerOut;
    TrailedShape(x);
    assert map[1 := 0] - {1} == map[];
  }

  /** The late body has been rejected; the trailer is still at the writer. */
  function Rejected(x: Scene): S.Server {
    AtWriter(x, Left(x)).(inLog := [Opening(x), Late(x)], outLog := [S.Out(S.FromReset(1), Rejection(x))])
  }

  lemma ServerRejects(x: Scene)
    requires Suits(x)
    ensures S.Enabled(x.cfg, AtWriter(x, Left(x)), S.Read(Late(x)))
    ensures var v := S.Next(x.cfg, AtWriter(x, Left(x)), S.Read(Late(x)));
            S.Enabled(x.cfg, v, S.RouteFrame(true)) && S.Next(x.cfg, v, S.RouteFrame(true)) == Rejected(x)
  {
    hide RouteHeader, Trailed, TrailerOut, S.ResetReply;
    TrailedShape(x);
    RouteByMethod(x.cfg, x.h, Late(x).header.value);
    assert [Opening(x)] + [Late(x)] == [Opening(x), Late(x)];
    assert [] + [S.Out(S.FromReset(1), Rejection(x))] == [S.Out(S.FromReset(1), Rejection(x))];
  }

  // ----- the client, step by step

  function OneCall(m: Mux.Multiplexer, x: Scene, pc: C.StreamPc, cs: CS.ClientStream): C.Client {
    C.Client(m, map[], map[1 := C.StreamCall(Opening(x), pc, cs)],
             if pc.StreamOpen? then [Opening(x)] + cs.emitted else [])
  }

  function OneChan(ch: Mux.Chan): Mux.Multiplexer {
    Mux.Fresh.(streamCounter := 1, chans := map[0 := ch], owner := map[1 := 0])
  }

  /** The multiplexer with the call registered, and some frames read. */
  function Listening(ch: Mux.Chan, inLog: seq<Rpc>): Mux.Multiplexer {
    OneChan(ch).(handlers := if ch.closed then map[] else map[1 := 0], registered := map[1 := 0], inLog := inLog)
  }

  const Empty := Mux.Chan([], 0, false)

  function Idle(x: Scene): CS.ClientStream { CS.Start(Ident(x)) }

  function Sending(x: Scene): CS.ClientStream { Idle(x).(send := CS.SendWriting(x.body)) }

  function SentLate(x: Scene): CS.ClientStream { Idle(x).(emitted := [Late(x)], sendAnswers := [CS.Sent(x.body)]) }

  lemma ClientOpens(x: Scene)
    ensures C.Enabled(C.Fresh, C.NewStream(0, x.h))
    ensures C.Next(C.Fresh, C.NewStream(0, x.h)) == OneCall(OneChan(Empty), x, C.StreamNew, Idle(x))
    ensures C.Enabled(OneCall(OneChan(Empty), x, C.StreamNew, Idle(x)), C.RegisterStream(1))
    ensures C.Next(OneCall(OneChan(Empty), x, C.StreamNew, Idle(x)), C.RegisterStream(1)) ==
            OneCall(Listening(Empty, []), x, C.StreamRegistered, Idle(x))
    ensures C.Enabled(OneCall(Listening(Empty, []), x, C.StreamRegistered, Idle(x)), C.WriteOpening(1, true))
    ensures C.Next(OneCall(Listening(Empty, []), x, C.StreamRegistered, Idle(x)), C.WriteOpening(1, true)) ==
            OneCall(Listening(Empty, []), x, C.StreamOpen, Idle(x))
  {
    hide CS.Enabled, CS.Next;
    assert [] + [Opening(x)] == [Opening(x)] + [];
  }

  lemma StreamNext(x: Scene, m: Mux.Multiplexer, m': Mux.Multiplexer, cs: CS.ClientStream, step: CS.Step, cs': CS.ClientStream)
    requires CS.Enabled(cs, step) && cs' == CS.Next(cs, step) && C.MuxAllows(m, 1, cs, step)
    requires m' == if C.MuxPart(1, step).Some? then Mux.Next(m, C.MuxPart(1, step).value) else m
    ensures var c := OneCall(m, x, C.StreamOpen, cs);
            C.Enabled(c, C.OnStream(1, step)) && C.Next(c, C.OnStream(1, step)) == OneCall(m', x, C.StreamOpen, cs')
  {
    hide CS.Enabled, CS.Next, Mux.Next, Mux.Enabled, C.MuxAllows, C.MuxPart, Opening;
    CS.StepShape(cs, step);
    var c := OneCall(m, x, C.StreamOpen, cs);
    assert ([Opening(x)] + cs.emitted) + cs'.emitted[|cs.emitted|..] == [Opening(x)] + cs'.emitted;
    assert c.streams[1 := C.StreamCall(Opening(x), C.StreamOpen, cs')] == map[1 := C.StreamCall(Opening(x), C.StreamOpen, cs')];
  }

  /** A step of the open stream, with the multiplexer's part in it. */
  lemma StreamGoes(x: Scene, v: S.Server, m: Mux.Multiplexer, m': Mux.Multiplexer, cs: CS.ClientStream, step: CS.Step, cs': CS.ClientStream)
    requires Reachable(x.cfg, System(OneCall(m, x, C.StreamOpen, cs), v))
    requires CS.Enabled(cs, step) && cs' == CS.Next(cs, step) && C.MuxAllows(m, 1, cs, step)
    requires m' == if C.MuxPart(1, step).Some? then Mux.Next(m, C.MuxPart(1, step).value) else m
    ensures Reachable(x.cfg, System(OneCall(m', x, C.StreamOpen, cs'), v))
  {
    hide Reachable, CS.Enabled, CS.Next, Mux.Next, Mux.Enabled, C.MuxAllows, C.MuxPart, C.Enabled, C.Next, OneCall;
    StreamNext(x, m, m', cs, step, cs');
    ClientGoes(x.cfg, OneCall(m, x, C.StreamOpen, cs), v, C.OnStream(1, step), OneCall(m', x, C.StreamOpen, cs'));
  }

  lemma ClientSends(x: Scene, v: S.Server)
    requires Reachable(x.cfg, System(OneCall(Listening(Empty, []), x, C.StreamOpen, Idle(x)), v))
    ensures Reachable(x.cfg, System(OneCall(Listening(Empty, []), x, C.StreamOpen, SentLate(x)), v))
  {
    hide Reachable, CS.Handle, CS.OnReady, CS.ToStatusError, MetadataCodec.Decode, CS.BodyFrame, OneCall, Mux.Next;
    var m := Listening(Empty, []);
    assert [] + [Late(x)] == [Late(x)] && [] + [CS.Sent(x.body)] == [CS.Sent(x.body)];
    StreamGoes(x, v, m, m, Idle(x), CS.SendCall(x.body, true), Sending(x));
    StreamGoes(x, v, m, m, Sending(x), CS.SendWrite(true), SentLate(x));
  }

  /** The client stream before its first frame, with the late body sent or without. */
  function Before(x: Scene, late: bool): CS.ClientStream {
    if late then SentLate(x) else Idle(x)
  }

  /** A frame of the stream that a client stream reads as a successful end. */
  predicate LooksOk(f: Rpc) {
    f.id == 1 && f.trailer == Some(Trailer([])) && CS.HeaderOf(f) == [] && CS.ErrorIfDone(f) == Some(EOF)
  }

  /** The frame has been read by the client, and perhaps taken by the stream. */
  function HasFrame(f: Rpc, taken: nat, closed: bool): Mux.Multiplexer {
    Listening(Mux.Chan([f], taken, closed), [f])
  }

  lemma ClientReadsFrame(f: Rpc)
    requires LooksOk(f)
    ensures var m := Listening(Empty, []);
            && Mux.Enabled(m, Mux.Deliver(f))
            && Mux.Enabled(Mux.Next(m, Mux.Deliver(f)), Mux.Push)
            && Mux.Next(Mux.Next(m, Mux.Deliver(f)), Mux.Push) == HasFrame(f, 0, false)
  {
    hide Mux.CloseAll, CS.ErrorIfDone, CS.HeaderOf;
    assert [] + [f] == [f];
  }

  lemma RejectionShape(x: Scene)
    ensures LooksOk(Rejection(x)) && IsReset(Rejection(x))
  {
  }

  function Got(x: Scene, late: bool, f: Rpc): CS.ClientStream {
    Before(x, late).(loop := CS.Handling(f), inbox := [f])
  }

  function Ended(x: Scene, late: bool, f: Rpc): CS.ClientStream {
    Got(x, late, f).(loop := CS.Ending(Some(EOF), Some(Trailer([]))), header := Some(map[]), ready := 0)
  }

  lemma ClientHandlesFrame(x: Scene, late: bool, f: Rpc, v: S.Server)
    requires LooksOk(f) && Reachable(x.cfg, System(OneCall(HasFrame(f, 0, false), x, C.StreamOpen, Before(x, late)), v))
    ensures Reachable(x.cfg, System(OneCall(HasFrame(f, 1, false), x, C.StreamOpen, Ended(x, late, f)), v))
  {
    hide Reachable, CS.ToStatusError, MetadataCodec.Decode, CS.BodyFrame, OneCall, CS.ErrorIfDone, CS.HeaderOf, Mux.CloseAll;
    NothingDecodes();
    assert [] + [f] == [f];
    StreamGoes(x, v, HasFrame(f, 0, false), HasFrame(f, 1, false), Before(x, late), CS.LoopRead(f), Got(x, late, f));
    StreamGoes(x, v, HasFrame(f, 1, false), HasFrame(f, 1, false), Got(x, late, f), CS.LoopHandle, Ended(x, late, f));
  }

  lemma NothingDecodes()
    ensures MetadataCodec.Decode([]) == Some(map[])
  {
  }

  /** The close-down of a stream that ended by a trailer, up to the lock being free. */
  function Closing(x: Scene, late: bool, f: Rpc, loop: CS.LoopPc, ctxDone: bool): CS.ClientStream {
    Ended(x, late, f).(loop := loop, rChClosed := true, ctxDone := ctxDone)
  }

  function Done(x: Scene, late: bool, f: Rpc): CS.ClientStream {
    Closing(x, late, f, CS.Finished, true).(done := true, rErr := Some(EOF), trailer := Some(Trailer([])))
  }

  /** The application has been told that the stream ended well, and has received nothing. */
  function Told(x: Scene, late: bool, f: Rpc): CS.ClientStream {
    Done(x, late, f).(recvAnswers := [CS.Stored(Some(EOF))])
  }

  lemma ClientCloses(x: Scene, late: bool, f: Rpc, v: S.Server)
    requires Reachable(x.cfg, System(OneCall(HasFrame(f, 1, false), x, C.StreamOpen, Ended(x, late, f)), v))
    ensures Reachable(x.cfg, System(OneCall(HasFrame(f, 1, false), x, C.StreamOpen,
                                            Closing(x, late, f, CS.ClosingUnregister(Some(EOF), Some(Trailer([]))), false)), v))
  {
    hide Reachable, CS.ToStatusError, MetadataCodec.Decode, CS.BodyFrame, OneCall, CS.Handle, Mux.Next;
    var m, tr := HasFrame(f, 1, false), Some(Trailer([]));
    StreamGoes(x, v, m, m, Ended(x, late, f), CS.LoopClose, Closing(x, late, f, CS.ClosingReset(Some(EOF), tr, false), false));
    StreamGoes(x, v, m, m, Closing(x, late, f, CS.ClosingReset(Some(EOF), tr, false), false), CS.LoopReset(true),
               Closing(x, late, f, CS.ClosingUnregister(Some(EOF), tr), false));
  }

  lemma ClientUnregisters(x: Scene, late: bool, f: Rpc, v: S.Server)
    requires Reachable(x.cfg, System(OneCall(HasFrame(f, 1, false), x, C.StreamOpen,
                                             Closing(x, late, f, CS.ClosingUnregister(Some(EOF), Some(Trailer([]))), false)), v))
    ensures Reachable(x.cfg, System(OneCall(HasFrame(f, 1, true), x, C.StreamOpen,
                                            Closing(x, late, f, CS.ClosingStore(Some(EOF), Some(Trailer([]))), true)), v))
  {
    hide Reachable, CS.ToStatusError, MetadataCodec.Decode, CS.BodyFrame, OneCall, CS.Handle, Mux.CloseAll;
    var m, m', tr := HasFrame(f, 1, false), HasFrame(f, 1, true), Some(Trailer([]));
    assert map[1 := 0] - {1} == map[];
    StreamGoes(x, v, m, m', Closing(x, late, f, CS.ClosingUnregister(Some(EOF), tr), false), CS.LoopUnregister,
               Closing(x, late, f, CS.ClosingCancel(Some(EOF), tr), false));
    StreamGoes(x, v, m', m', Closing(x, late, f, CS.ClosingCancel(Some(EOF), tr), false), CS.LoopCancel,
               Closing(x, late, f, CS.ClosingStore(Some(EOF), tr), true));
  }

  lemma ClientIsTold(x: Scene, late: bool, f: Rpc, v: S.Server)
    requires Reachable(x.cfg, System(OneCall(HasFrame(f, 1, true), x, C.StreamOpen,
                                             Closing(x, late, f, CS.ClosingStore(Some(EOF), Some(Trailer([]))), true)), v))
    ensures Reachable(x.cfg, System(OneCall(HasFrame(f, 1, true), x, C.StreamOpen, Told(x, late, f)), v))
  {
    hide Reachable, CS.ToStatusError, MetadataCodec.Decode, CS.BodyFrame, OneCall, CS.Handle, Mux.Next;
    var m, tr := HasFrame(f, 1, true), Some(Trailer([]));
    StreamGoes(x, v, m, m, Closing(x, late, f, CS.ClosingStore(Some(EOF), tr), true), CS.LoopStore, Done(x, late, f));
    assert [] + [CS.Stored(Some(EOF))] == [CS.Stored(Some(EOF))];
    StreamGoes(x, v, m, m, Done(x, late, f), CS.RecvCall, Told(x, late, f));
  }

  // ----- both together

  lemma ServerGets(cfg: Config, c: C.Client, v: S.Server, rpc: Rpc, v': S.Server)
    requires Reachable(cfg, System(c, v)) && |v.inLog| < |c.outLog| && c.outLog[|v.inLog|] == rpc
    requires S.Enabled(cfg, v, S.Read(rpc)) && v' == S.Next(cfg, v, S.Read(rpc))
    ensures Reachable(cfg, System(c, v'))
  {
    hide Reachable, S.Enabled, S.Next;
    StepReachable(cfg, System(c, v), ServerReads, System(c, v'));
  }

  lemma ClientGets(cfg: Config, c: C.Client, v: S.Server, rpc: Rpc, c': C.Client)
    requires Reachable(cfg, System(c, v)) && |c.mux.inLog| < |v.outLog| && v.outLog[|c.mux.inLog|].rpc == rpc
    requires C.Enabled(c, C.Read(rpc)) && c' == C.Next(c, C.Read(rpc))
    ensures Reachable(cfg, System(c', v))
  {
    hide Reachable, C.Enabled, C.Next;
    StepReachable(cfg, System(c, v), ClientReads, System(c', v));
  }

  function Open(x: Scene, cs: CS.ClientStream): C.Client {
    OneCall(Listening(Empty, []), x, C.StreamOpen, cs)
  }

  lemma OpenedAndStarted(x: Scene)
    requires Suits(x)
    ensures Reachable(x.cfg, System(Open(x, Idle(x)), WithStream(x, Started(x))))
  {
    hide Reachable, S.Enabled, S.Next, C.Enabled, C.Next, Suits, Idle, Opening;
    var c1 := OneCall(OneChan(Empty), x, C.StreamNew, Idle(x));
    var c2 := OneCall(Listening(Empty, []), x, C.StreamRegistered, Idle(x));
    var c3, v0 := Open(x, Idle(x)), S.Fresh();
    FreshReachable(x.cfg);
    ClientOpens(x);
    ClientGoes(x.cfg, C.Fresh, v0, C.NewStream(0, x.h), c1);
    ClientGoes(x.cfg, c1, v0, C.RegisterStream(1), c2);
    ClientGoes(x.cfg, c2, v0, C.WriteOpening(1, true), c3);
    ServerStarts(x);
    var v1 := S.Next(x.cfg, v0, S.Read(Opening(x)));
    ServerGets(x.cfg, c3, v0, Opening(x), v1);
    ServerGoes(x.cfg, c3, v1, S.RouteFrame(true), WithStream(x, Started(x)));
  }

  lemma FailedAndLeft(x: Scene, c: C.Client)
    requires Reachable(x.cfg, System(c, WithStream(x, Started(x))))
    ensures Reachable(x.cfg, System(c, AtWriter(x, Left(x))))
  {
    hide Reachable, S.Enabled, S.Next, WithStream, AtWriter, Unregistering, Started, Failing, Trailing, Trailed, Leaving, Left;
    ServerTrails(x);
    ServerHands(x);
    ServerLeaves(x);
    ServerGoes(x.cfg, c, WithStream(x, Started(x)), S.Return(0, Some(x.err)), WithStream(x, Failing(x)));
    ServerGoes(x.cfg, c, WithStream(x, Failing(x)), S.Trail(0, [], []), WithStream(x, Trailing(x)));
    ServerGoes(x.cfg, c, WithStream(x, Trailing(x)), S.HandFrame(0), AtWriter(x, Trailed(x)));
    ServerGoes(x.cfg, c, AtWriter(x, Trailed(x)), S.Leave(0), AtWriter(x, Leaving(x)));
    ServerGoes(x.cfg, c, AtWriter(x, Leaving(x)), S.Unregister(0), Unregistering(x));
    ServerGoes(x.cfg, c, Unregistering(x), S.Delete(0), AtWriter(x, Left(x)));
  }

  lemma LateAndRejected(x: Scene)
    requires Suits(x) && Reachable(x.cfg, System(Open(x, SentLate(x)), AtWriter(x, Left(x))))
    ensures Reachable(x.cfg, System(Open(x, SentLate(x)), Rejected(x)))
  {
    hide Reachable, S.Enabled, S.Next, Suits, Left, Late, Opening;
    ServerRejects(x);
    var v := S.Next(x.cfg, AtWriter(x, Left(x)), S.Read(Late(x)));
    ServerGets(x.cfg, Open(x, SentLate(x)), AtWriter(x, Left(x)), Late(x), v);
    ServerGoes(x.cfg, Open(x, SentLate(x)), v, S.RouteFrame(true), Rejected(x));
  }

  lemma ReadAndDelivered(x: Scene, late: bool, f: Rpc, v: S.Server)
    requires LooksOk(f) && Reachable(x.cfg, System(Open(x, Before(x, late)), v)) && |v.outLog| > 0 && v.outLog[0].rpc == f
    ensures Reachable(x.cfg, System(OneCall(HasFrame(f, 0, false), x, C.StreamOpen, Before(x, late)), v))
  {
    hide Reachable, Mux.Enabled, Mux.Next, Before, LooksOk, CS.Enabled, CS.Next;
    ClientReadsFrame(f);
    var m := Mux.Next(Listening(Empty, []), Mux.Deliver(f));
    var c := OneCall(m, x, C.StreamOpen, Before(x, late));
    ClientGets(x.cfg, Open(x, Before(x, late)), v, f, c);
    ClientGoes(x.cfg, c, v, C.Push, OneCall(HasFrame(f, 0, false), x, C.StreamOpen, Before(x, late)));
  }

  /** The client reads a frame that looks like a successful end, and reports one. */
  lemma ClientBelieves(x: Scene, late: bool, f: Rpc, v: S.Server)
    requires LooksOk(f) && Reachable(x.cfg, System(Open(x, Before(x, late)), v)) && |v.outLog| > 0 && v.outLog[0].rpc == f
    ensures Reachable(x.cfg, Misled(x, late, f, v))
  {
    hide Reachable, LooksOk, Before;
    ReadAndDelivered(x, late, f, v);
    ClientHandlesFrame(x, late, f, v);
    ClientCloses(x, late, f, v);
    ClientUnregisters(x, late, f, v);
    ClientIsTold(x, late, f, v);
  }

  /** Where the run ends. */
  function Misled(x: Scene, late: bool, f: Rpc, v: S.Server): System {
    System(OneCall(HasFrame(f, 1, true), x, C.StreamOpen, Told(x, late, f)), v)
  }

  /**
    For every stream method, every error of its handler and every body: some run without a failed
    write ends with the client's `RecvMsg` answering io.EOF although the handler failed. The reset
    for the late body overtakes the trailer.
   */
  lemma ResetHidesFailure(x: Scene) returns (s: System)
    requires Suits(x)
    ensures Reachable(x.cfg, s)
    ensures s.server.lost == [] && |s.server.all| == 1 && s.server.all[0].id == 1
    ensures s.server.all[0].result == Some(Some(x.err))
    ensures 1 in s.client.streams && s.client.streams[1].cs.recvAnswers == [CS.Stored(Some(EOF))]
    ensures EndToEnd.EndedByReset(s.client.streams[1].cs)
  {
    hide Reachable, Suits, LooksOk;
    OpenedAndStarted(x);
    FailedAndLeft(x, Open(x, Idle(x)));
    ClientSends(x, AtWriter(x, Left(x)));
    LateAndRejected(x);
    RejectionShape(x);
    ClientBelieves(x, true, Rejection(x), Rejected(x));
    TrailedShape(x);
    s := Misled(x, true, Rejection(x), Rejected(x));
  }
}
