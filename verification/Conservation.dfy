/**
  Nothing is dropped on the way, over whole runs: every unary request that the server reads is in one
  place, every frame handed to the writer is written, lost in a failed write, or at the writer; and a
  client's call that has returned has left the multiplexer's table.
 */
module Conservation {
  import opened Frames
  import opened Methods
  import MetadataCodec
  import Systems
  import Mux = Multiplexers
  import SS = ServerStreams
  import S = Servers
  import SI = ServerInvariants
  import C = Clients
  import CS = ClientStreams

  // ----- unary requests

  /** A worker has the request at position `r`. */
  predicate AtWorker(s: S.Server, r: nat) {
    exists w :: 0 <= w < |s.workers| && S.WorkedOn(s.workers[w], r)
  }

  /** An answer to the request at position `r` was handed to the writer. */
  predicate AnswerHanded(s: S.Server, r: nat) {
    exists k :: 0 <= k < |s.handed| && S.Answers(s.handed[k], r)
  }

  /** The request is being handed to a worker, is at one, or has its answer handed to the writer. */
  predicate InPlace(s: S.Server, r: nat) {
    s.loop == S.HandingUnary(r) || AtWorker(s, r) || AnswerHanded(s, r)
  }

  /** The frame at position `r` goes to a unary worker. */
  predicate IsRequest(cfg: Config, s: S.Server, r: nat) {
    r < |s.inLog| && s.inLog[r].header.Some? && RouteOf(cfg, s.inLog[r]).UnaryMethod?
  }

  /** Every request is in place, but for the last frame read, which the end of serving may drop. */
  ghost predicate RequestsKept(cfg: Config, s: S.Server) {
    forall r :: IsRequest(cfg, s, r) ==> InPlace(s, r) || (SI.Over(s.loop) && r == |s.inLog| - 1)
  }

  /** What a step may do to the places of requests. */
  ghost predicate PlacesGrow(s: S.Server, s': S.Server) {
    && (forall r :: AtWorker(s, r) || AnswerHanded(s, r) ==> AtWorker(s', r) || AnswerHanded(s', r))
    && (forall r :: s.loop == S.HandingUnary(r) ==> InPlace(s', r) || (SI.Over(s'.loop) && r == |s'.inLog| - 1))
  }

  lemma HandKeepsPlaces(cfg: Config, s: S.Server, step: S.Step)
    requires S.Enabled(cfg, s, step) && step.Hand?
    ensures PlacesGrow(s, S.Next(cfg, s, step))
  {
    var s' := S.Next(cfg, s, step);
    assert s'.handed == s.handed;
    assert S.WorkedOn(s'.workers[step.i], s.loop.r);
    forall r | AtWorker(s, r)
      ensures AtWorker(s', r)
    {
      var w :| 0 <= w < |s.workers| && S.WorkedOn(s.workers[w], r);
      assert w != step.i && s'.workers[w] == s.workers[w];
    }
  }

  lemma ComputeKeepsPlaces(cfg: Config, s: S.Server, step: S.Step)
    requires S.Enabled(cfg, s, step) && step.Compute?
    ensures PlacesGrow(s, S.Next(cfg, s, step))
  {
    var s' := S.Next(cfg, s, step);
    assert s'.handed == s.handed;
    forall r | AtWorker(s, r)
      ensures AtWorker(s', r)
    {
      var w :| 0 <= w < |s.workers| && S.WorkedOn(s.workers[w], r);
      assert S.WorkedOn(s'.workers[w], r);
    }
  }

  lemma ReplyKeepsPlaces(cfg: Config, s: S.Server, step: S.Step)
    requires S.Enabled(cfg, s, step) && step.HandReply?
    ensures PlacesGrow(s, S.Next(cfg, s, step))
  {
    hide RouteOf, S.UnaryReply;
    var s' := S.Next(cfg, s, step);
    HandedGrows(s, s');
    forall r | AtWorker(s, r)
      ensures AtWorker(s', r) || AnswerHanded(s', r)
    {
      var w :| 0 <= w < |s.workers| && S.WorkedOn(s.workers[w], r);
      if w == step.i {
        assert S.Answers(s'.handed[|s.handed|], r);
      } else {
        assert s'.workers[w] == s.workers[w];
      }
    }
  }

  lemma HandedGrows(s: S.Server, s': S.Server)
    requires s.handed <= s'.handed
    ensures forall r :: AnswerHanded(s, r) ==> AnswerHanded(s', r)
  {
    forall r | AnswerHanded(s, r)
      ensures AnswerHanded(s', r)
    {
      var k :| 0 <= k < |s.handed| && S.Answers(s.handed[k], r);
      assert s'.handed[k] == s.handed[k];
    }
  }

  lemma OthersKeepPlaces(cfg: Config, s: S.Server, step: S.Step)
    requires S.Enabled(cfg, s, step) && !step.Hand? && !step.Compute? && !step.HandReply?
    requires s.loop.HandingUnary? ==> s.loop.r == |s.inLog| - 1
    ensures PlacesGrow(s, S.Next(cfg, s, step))
  {
    hide RouteOf, SS.Frame, SS.Apply, SS.Legal, SS.Writes, S.UnaryReply, S.ResetReply, S.AfterRead, S.StartStream, S.Signalled, S.Completed, S.WorkedOn, S.Answers, S.RouteNext;
    var s' := S.Next(cfg, s, step);
    if step.RouteFrame? {
      SI.RouteKeepsUnary(cfg, s, step.ok);
    }
    assert s.handed <= s'.handed && s'.workers == s.workers;
    HandedGrows(s, s');
    assert forall r :: AtWorker(s, r) ==> AtWorker(s', r);
  }

  /** What a step does to the frames read and to where the loop is. */
  lemma StepReads(cfg: Config, s: S.Server, step: S.Step)
    requires S.Enabled(cfg, s, step)
    ensures var s' := S.Next(cfg, s, step);
            && (step.Read? ==> s'.inLog == s.inLog + [step.rpc] && s'.loop == S.AfterRead(cfg, step.rpc, |s.inLog|) && S.Serving(s.loop))
            && (!step.Read? ==> s'.inLog == s.inLog)
            && (SI.Over(s.loop) ==> SI.Over(s'.loop))
  {
    hide RouteOf, SS.Frame, SS.Apply, SS.Legal, SS.Writes, S.UnaryReply, S.ResetReply, S.AfterRead, S.StartStream, S.Signalled, S.Completed, S.RouteNext;
    if step.RouteFrame? {
      SI.RouteKeepsTokens(cfg, s, step.ok);
      RouteReads(cfg, s, step.ok);
    }
  }

  lemma RouteReads(cfg: Config, s: S.Server, ok: bool)
    requires S.Enabled(cfg, s, S.RouteFrame(ok))
    ensures S.RouteNext(cfg, s, ok).inLog == s.inLog
  {
    hide RouteOf, S.ResetReply, S.StartStream, MetadataCodec.Decode;
  }

  lemma StepKeepsRequests(cfg: Config, s: S.Server, step: S.Step)
    requires S.Inv(cfg, s) && S.Enabled(cfg, s, step) && RequestsKept(cfg, s)
    ensures RequestsKept(cfg, S.Next(cfg, s, step))
  {
    hide S.Inv, S.Enabled, S.Next, RouteOf, AtWorker, AnswerHanded, PlacesGrow;
    var s' := S.Next(cfg, s, step);
    HandingLast(cfg, s);
    PlacesKept(cfg, s, step);
    StepReads(cfg, s, step);
    forall r: nat | IsRequest(cfg, s', r)
      ensures InPlace(s', r) || (SI.Over(s'.loop) && r == |s'.inLog| - 1)
    {
      if r < |s.inLog| {
        assert s'.inLog[r] == s.inLog[r] && IsRequest(cfg, s, r);
        OldPlace(cfg, s, s', r);
      }
    }
  }

  lemma OldPlace(cfg: Config, s: S.Server, s': S.Server, r: nat)
    requires PlacesGrow(s, s') && (InPlace(s, r) || (SI.Over(s.loop) && r == |s.inLog| - 1))
    requires SI.Over(s.loop) ==> SI.Over(s'.loop) && |s'.inLog| == |s.inLog|
    ensures InPlace(s', r) || (SI.Over(s'.loop) && r == |s'.inLog| - 1)
  {
    hide AtWorker, AnswerHanded;
  }

  lemma PlacesKept(cfg: Config, s: S.Server, step: S.Step)
    requires S.Enabled(cfg, s, step) && (s.loop.HandingUnary? ==> s.loop.r == |s.inLog| - 1)
    ensures PlacesGrow(s, S.Next(cfg, s, step))
  {
    hide S.Enabled, S.Next, PlacesGrow;
    match step
    case Hand(_) => HandKeepsPlaces(cfg, s, step);
    case Compute(_, _) => ComputeKeepsPlaces(cfg, s, step);
    case HandReply(_) => ReplyKeepsPlaces(cfg, s, step);
    case _ => OthersKeepPlaces(cfg, s, step);
  }

  lemma HandingLast(cfg: Config, s: S.Server)
    requires S.Inv(cfg, s)
    ensures s.loop.HandingUnary? ==> s.loop.r == |s.inLog| - 1
  {
    hide S.StreamsOk, S.TableOk, S.OutsOk, S.FeedOk, S.AnswersOk, S.UnaryOk, S.WriterOk, S.WritesOk, S.StartsOk, RouteOf;
  }

  /**
    No unary request is dropped, in every run and under every schedule of the workers: each one read is
    being handed to a worker, at a worker, or answered; only the one in hand when serving ends is lost.
   */
  lemma {:induction false} RequestsConserved(cfg: Config, states: seq<S.Server>, steps: seq<S.Step>, i: nat)
    requires SI.IsRun(cfg, states, steps) && i < |states|
    ensures RequestsKept(cfg, states[i]) && |states[i].workers| == 8
  {
    hide S.Enabled, S.Next, S.Inv, InPlace, RouteOf;
    SI.InvAlongRun(cfg, states, steps, i);
    EightWorkers(cfg, states[i]);
    if i > 0 {
      RequestsConserved(cfg, states, steps, i - 1);
      SI.InvAlongRun(cfg, states, steps, i - 1);
      StepKeepsRequests(cfg, states[i - 1], steps[i - 1]);
    }
  }

  lemma EightWorkers(cfg: Config, s: S.Server)
    requires S.Inv(cfg, s)
    ensures |s.workers| == 8
  {
    hide S.StreamsOk, S.TableOk, S.OutsOk, S.FeedOk, S.AnswersOk, S.LoopOk, S.WriterOk, S.WritesOk, S.StartsOk, RouteOf;
  }

  // ----- contexts and channels

  /** The connection's context is done once serving is over or a write has failed, and each stream's channel holds at most one frame. */
  predicate Bounded(s: S.Server) {
    && (SI.Over(s.loop) || s.lost != [] ==> s.ctxDone)
    && (forall n :: 0 <= n < |s.all| ==> |s.all[n].ch.sent| <= s.all[n].ch.taken + 1)
  }

  lemma StepKeepsBounded(cfg: Config, s: S.Server, step: S.Step)
    requires S.Enabled(cfg, s, step) && Bounded(s)
    ensures Bounded(S.Next(cfg, s, step))
  {
    hide RouteOf, SS.Frame, SS.Apply, SS.Legal, SS.Writes, S.UnaryReply, S.ResetReply, S.RouteNext, S.Signalled;
    if step.RouteFrame? {
      RouteKeepsBounded(cfg, s, step.ok);
    } else if step.Unregister? {
      UnregisterKeepsBounded(cfg, s, step);
    }
  }

  lemma RouteKeepsBounded(cfg: Config, s: S.Server, ok: bool)
    requires S.Enabled(cfg, s, S.RouteFrame(ok)) && Bounded(s)
    ensures Bounded(S.RouteNext(cfg, s, ok))
  {
    hide RouteOf, S.ResetReply, S.ReplyMethod, MetadataCodec.Decode, SS.Fresh;
  }

  lemma UnregisterKeepsBounded(cfg: Config, s: S.Server, step: S.Step)
    requires S.Enabled(cfg, s, step) && step.Unregister? && Bounded(s)
    ensures Bounded(S.Next(cfg, s, step))
  {
    hide RouteOf, SS.Frame, SS.Apply, SS.Legal, SS.Writes, S.UnaryReply, S.ResetReply, S.AfterRead, S.RouteNext, S.Completed, S.HandOver;
  }

  lemma {:induction false} BoundedAlongRun(cfg: Config, states: seq<S.Server>, steps: seq<S.Step>, i: nat)
    requires SI.IsRun(cfg, states, steps) && i < |states|
    ensures Bounded(states[i])
  {
    hide S.Enabled, S.Next;
    if i > 0 {
      BoundedAlongRun(cfg, states, steps, i - 1);
      StepKeepsBounded(cfg, states[i - 1], steps[i - 1]);
    }
  }

  // ----- the writer

  /** Every frame handed over is written, lost, or at the writer. */
  predicate HandedKept(s: S.Server) {
    forall k :: 0 <= k < |s.handed| ==>
                  s.handed[k] in s.outLog || s.handed[k] in s.lost || s.writer == Some(s.handed[k])
  }

  /** A step leaves the writer alone, gives it a frame, or lets it finish one. */
  ghost predicate WriterMoves(s: S.Server, s': S.Server) {
    && s.outLog <= s'.outLog && s.lost <= s'.lost
    && (s'.handed == s.handed || exists o :: s'.handed == s.handed + [o] && s'.writer == Some(o))
    && (s'.writer != s.writer && s.writer.Some? ==> s.writer.value in s'.outLog || s.writer.value in s'.lost)
  }

  lemma StepMovesWriter(cfg: Config, s: S.Server, step: S.Step)
    requires S.Enabled(cfg, s, step)
    ensures WriterMoves(s, S.Next(cfg, s, step))
  {
    hide RouteOf, SS.Frame, SS.Apply, SS.Legal, SS.Writes, S.UnaryReply, S.ResetReply, S.AfterRead, S.StartStream, S.Signalled, S.Completed, S.RouteNext;
    if step.RouteFrame? {
      RouteLeavesWriter(cfg, s, step.ok);
    }
    if step.Write? {
      var o := s.writer.value;
      assert (s.outLog + [o])[|s.outLog|] == o && (s.lost + [o])[|s.lost|] == o;
    }
  }

  lemma RouteLeavesWriter(cfg: Config, s: S.Server, ok: bool)
    requires S.Enabled(cfg, s, S.RouteFrame(ok))
    ensures var s' := S.RouteNext(cfg, s, ok);
            s.outLog <= s'.outLog && s'.lost == s.lost && s'.handed == s.handed && s'.writer == s.writer
  {
    hide RouteOf, S.ResetReply, S.StartStream, MetadataCodec.Decode;
  }

  lemma MovesKeepHanded(s: S.Server, s': S.Server)
    requires HandedKept(s) && WriterMoves(s, s')
    ensures HandedKept(s')
  {
    forall k | 0 <= k < |s'.handed|
      ensures s'.handed[k] in s'.outLog || s'.handed[k] in s'.lost || s'.writer == Some(s'.handed[k])
    {
      if k < |s.handed| {
        assert s'.handed[k] == s.handed[k];
      }
    }
  }

  /** No frame handed to the writer is dropped, in every run: it is written, lost in a failed write, or still there. */
  lemma {:induction false} HandedConserved(cfg: Config, states: seq<S.Server>, steps: seq<S.Step>, i: nat)
    requires SI.IsRun(cfg, states, steps) && i < |states|
    ensures HandedKept(states[i])
  {
    hide S.Enabled, S.Next, HandedKept, WriterMoves;
    if i == 0 {
      FreshHanded();
    } else {
      HandedConserved(cfg, states, steps, i - 1);
      StepMovesWriter(cfg, states[i - 1], steps[i - 1]);
      MovesKeepHanded(states[i - 1], states[i]);
    }
  }

  lemma FreshHanded()
    ensures HandedKept(S.Fresh())
  {
  }

  // ----- the client's table

  /** The close-down of the stream has unregistered it. */
  predicate Unregistered(cs: CS.ClientStream) {
    cs.loop.ClosingCancel? || cs.loop.ClosingStore? || cs.loop.Finished?
  }

  /** The call is over, and must have left the table. */
  predicate OverFor(c: C.Client, id: nat) {
    || (id in c.unary && c.unary[id].pc.UnaryReturned?)
    || (id in c.streams && Unregistered(c.streams[id].cs))
  }

  /** A call that is over was registered, and is not in the table. */
  ghost predicate LeftTable(c: C.Client) {
    forall id :: OverFor(c, id) ==> id in c.mux.registered && id !in c.mux.handlers
  }

  /** Once registered and gone from the table, an id stays out of it. */
  lemma StaysOut(m: Mux.Multiplexer, step: Mux.Step, id: nat)
    requires Mux.Enabled(m, step) && id in m.registered && id !in m.handlers
    ensures id in Mux.Next(m, step).registered && id !in Mux.Next(m, step).handlers
  {
    hide Mux.CloseAll;
    CloseAllTable(m);
  }

  lemma CloseAllTable(m: Mux.Multiplexer)
    ensures Mux.CloseAll(m).registered == m.registered && Mux.CloseAll(m).handlers == map[]
  {
  }

  lemma UnregisterLeaves(m: Mux.Multiplexer, id: nat)
    requires Mux.Inv(m) && Mux.Enabled(m, Mux.Unregister(id))
    ensures id in Mux.Next(m, Mux.Unregister(id)).registered && id !in Mux.Next(m, Mux.Unregister(id)).handlers
  {
    hide Mux.CloseAll;
  }

  /** The multiplexer's part in a step of the client side. */
  lemma StepStaysOut(c: C.Client, step: C.Step, id: nat)
    requires C.Enabled(c, step) && id in c.mux.registered && id !in c.mux.handlers
    ensures id in C.Next(c, step).mux.registered && id !in C.Next(c, step).mux.handlers
  {
    hide Mux.Enabled, Mux.Next, C.Enabled, C.Next;
    Systems.MuxStepIs(c, step);
    var part := Systems.MuxStepOf(c, step);
    if part.Some? {
      StaysOut(c.mux, part.value, id);
    }
  }

  /** A call is over after a step only if it was before, or if the step unregisters it. */
  lemma StepEndsCall(c: C.Client, step: C.Step, id: nat)
    requires C.Enabled(c, step) && OverFor(C.Next(c, step), id)
    requires step.NewUnary? || step.NewStream? ==> c.mux.streamCounter + 1 !in c.unary && c.mux.streamCounter + 1 !in c.streams
    requires !(id in c.unary && id in c.streams)
    ensures OverFor(c, id) || Systems.MuxStepOf(c, step) == Some(Mux.Unregister(id))
  {
    hide Mux.Enabled, Mux.Next, C.Answer, CS.Start, C.Emits, CS.Next, CS.Enabled, C.MuxAllows;
    if step.OnStream? && step.id == id {
      StreamEnds(c.streams[id].cs, step.step);
    }
    FreshRunning();
  }

  lemma FreshRunning()
    ensures forall ident :: CS.Start(ident).loop.Reading?
  {
  }

  lemma StreamEnds(cs: CS.ClientStream, step: CS.Step)
    requires CS.Enabled(cs, step) && Unregistered(CS.Next(cs, step))
    ensures Unregistered(cs) || step.LoopUnregister?
  {
    hide CS.Handle, CS.OnReady, CS.ToStatusError, CS.BodyFrame, CS.CloseSendFrame, CS.ResetFrame, MetadataCodec.Decode;
    if step.LoopHandle? {
      HandleDoesNotEnd(cs, cs.loop.rpc, MetadataCodec.Decode(CS.HeaderOf(cs.loop.rpc)));
    }
  }

  lemma HandleDoesNotEnd(cs: CS.ClientStream, rpc: Rpc, md: Option<Metadata>)
    ensures !Unregistered(CS.Handle(cs, rpc, md))
  {
  }

  lemma FreshIds(c: C.Client)
    requires C.Inv(c)
    ensures c.mux.streamCounter + 1 !in c.unary && c.mux.streamCounter + 1 !in c.streams
    ensures forall id :: !(id in c.unary && id in c.streams)
    ensures Mux.Inv(c.mux)
  {
    hide C.CallsInv, C.WriteInv, Mux.FeedInv;
    assert c.mux.streamCounter + 1 !in c.mux.owner;
  }

  lemma StepKeepsLeft(c: C.Client, step: C.Step)
    requires C.Inv(c) && C.Enabled(c, step) && LeftTable(c)
    ensures LeftTable(C.Next(c, step))
  {
    hide C.Inv, C.Enabled, C.Next, Mux.Inv, Mux.Enabled, Mux.Next, OverFor;
    FreshIds(c);
    forall id | OverFor(C.Next(c, step), id)
      ensures id in C.Next(c, step).mux.registered && id !in C.Next(c, step).mux.handlers
    {
      StepEndsCall(c, step, id);
      if OverFor(c, id) {
        StepStaysOut(c, step, id);
      } else {
        Systems.MuxStepIs(c, step);
        UnregisterLeaves(c.mux, id);
      }
    }
  }

  /**
    In every run: a unary call that has returned, and a stream whose close-down is past its teardown,
    have been unregistered: their id is not in the multiplexer's table, and never comes back.
   */
  lemma {:induction false} FinishedCallsLeave(cfg: Config, states: seq<Systems.System>, steps: seq<Systems.Step>, i: nat)
    requires Systems.IsRun(cfg, states, steps) && i < |states|
    ensures LeftTable(states[i].client)
  {
    hide Systems.Enabled, Systems.Next, Systems.Inv, LeftTable;
    if i == 0 {
      FreshLeft();
    } else {
      FinishedCallsLeave(cfg, states, steps, i - 1);
      Systems.InvAlongRun(cfg, states, steps, i - 1);
      SystemKeepsLeft(cfg, states[i - 1], steps[i - 1]);
    }
  }

  lemma FreshLeft()
    ensures LeftTable(Systems.Fresh().client)
  {
  }

  lemma SystemKeepsLeft(cfg: Config, s: Systems.System, step: Systems.Step)
    requires Systems.Inv(cfg, s) && Systems.Enabled(cfg, s, step) && LeftTable(s.client)
    ensures LeftTable(Systems.Next(cfg, s, step).client)
  {
    hide C.Inv, S.Inv, S.Enabled, S.Next, C.Enabled, C.Next, LeftTable;
    match step
    case ClientStep(cstep) => StepKeepsLeft(s.client, cstep);
    case ClientReads => StepKeepsLeft(s.client, C.Read(Systems.NextDown(s)));
    case _ =>
  }
}
