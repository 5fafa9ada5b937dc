/**
  What the calls of a stream's application have to do with the frames of its stream, over whole
  runs: the bodies written are those of the accepted `SendMsg` calls, and no reset is written for a
  stream whose handler is still there.
 */
module Calls {
  import opened Frames
  import opened Logs
  import opened Methods
  import opened Systems
  import EndToEnd
  import HeaderTrips
  import MetadataCodec
  import SS = ServerStreams
  import S = Servers
  import SI = ServerInvariants
  import C = Clients

  // ----- bodies

  lemma ApplyBodies(ss: SS.State, call: SS.Call, ok: bool)
    ensures Bodies(SS.Apply(ss, call, ok).written) ==
            Bodies(ss.written) + (if call.SendMsg? && ok then [call.body] else [])
  {
    hide SS.Frame, Bodies;
    assert Bodies(ss.written) + [] == Bodies(ss.written);
    if SS.Writes(ss, call) {
      SS.FrameShape(ss, call);
      BodiesAppend(ss.written, SS.Frame(ss, call));
    }
  }

  /** The body of a `SendMsg` of stream `n` that a step hands to the writer: the call is accepted. */
  function Accepts(s: S.Server, step: S.Step, n: nat): seq<Body> {
    if step == S.HandFrame(n) && n < |s.all| && s.all[n].busy.Some? && s.all[n].busy.value.SendMsg? then
      [s.all[n].busy.value.body]
    else []
  }

  /** The step completes the call in progress of stream `n`. */
  predicate Completes(s: S.Server, step: S.Step, n: nat) {
    (step == S.HandFrame(n) || step == S.Complete(n)) && n < |s.all| && s.all[n].busy.Some?
  }

  lemma CallCompletes(cfg: Config, s: S.Server, step: S.Step, n: nat)
    requires S.Enabled(cfg, s, step) && Completes(s, step, n)
    ensures n < |S.Next(cfg, s, step).all|
    ensures S.Next(cfg, s, step).all[n].ss ==
            SS.Apply(s.all[n].ss, s.all[n].busy.value, step.HandFrame? || !SS.Writes(s.all[n].ss, s.all[n].busy.value))
  {
    hide RouteOf, SS.Frame, SS.Apply, SS.Legal, S.UnaryReply, S.ResetReply, S.AfterRead, S.RouteNext, SS.Writes, S.Signalled;
  }

  lemma NoCallCompletes(cfg: Config, s: S.Server, step: S.Step, n: nat)
    requires S.Enabled(cfg, s, step) && n < |s.all| && !Completes(s, step, n)
    ensures n < |S.Next(cfg, s, step).all| && S.Next(cfg, s, step).all[n].ss == s.all[n].ss
  {
    hide RouteOf, SS.Frame, SS.Apply, SS.Legal, S.UnaryReply, S.ResetReply, S.AfterRead, S.RouteNext, SS.Writes, S.Signalled, S.Completed;
    if step.RouteFrame? {
      HeaderTrips.RouteOnStream(cfg, s, step, n);
    } else if step.Unregister? {
      HeaderTrips.UnregisterOnStream(cfg, s, step, n);
    }
  }

  lemma StepBodies(cfg: Config, s: S.Server, step: S.Step, n: nat)
    requires S.Enabled(cfg, s, step) && n < |s.all|
    ensures n < |S.Next(cfg, s, step).all|
    ensures Bodies(S.Next(cfg, s, step).all[n].ss.written) == Bodies(s.all[n].ss.written) + Accepts(s, step, n)
  {
    hide S.Next, S.Enabled, Bodies, SS.Apply;
    if Completes(s, step, n) {
      var call := s.all[n].busy.value;
      CallCompletes(cfg, s, step, n);
      ApplyBodies(s.all[n].ss, call, step.HandFrame? || !SS.Writes(s.all[n].ss, call));
    } else {
      NoCallCompletes(cfg, s, step, n);
      assert Bodies(s.all[n].ss.written) + [] == Bodies(s.all[n].ss.written);
    }
  }

  /** The bodies of the accepted `SendMsg` calls of stream `n` in the first `i` steps. */
  function AcceptedBodies(states: seq<System>, steps: seq<Step>, i: nat, n: nat): seq<Body>
    requires |states| == |steps| + 1 && i <= |steps|
  {
    if i == 0 then []
    else
      AcceptedBodies(states, steps, i - 1, n)
      + (if steps[i - 1].ServerStep? then Accepts(states[i - 1].server, steps[i - 1].sstep, n) else [])
  }

  lemma SystemStepBodies(cfg: Config, s: System, step: Step, n: nat)
    requires Enabled(cfg, s, step)
    ensures n < |s.server.all| ==>
              && n < |Next(cfg, s, step).server.all|
              && Bodies(Next(cfg, s, step).server.all[n].ss.written) ==
                 Bodies(s.server.all[n].ss.written) + (if step.ServerStep? then Accepts(s.server, step.sstep, n) else [])
    ensures |s.server.all| <= n < |Next(cfg, s, step).server.all| ==> Next(cfg, s, step).server.all[n].ss.written == []
  {
    hide S.Enabled, S.Next, C.Enabled, C.Next, Bodies;
    if n < |s.server.all| {
      assert Bodies(s.server.all[n].ss.written) + [] == Bodies(s.server.all[n].ss.written);
    }
    if step.ServerStep? || step.ServerReads? {
      var sstep := if step.ServerStep? then step.sstep else S.Read(NextUp(s));
      if n < |s.server.all| {
        StepBodies(cfg, s.server, sstep, n);
      } else if n < |Next(cfg, s, step).server.all| {
        HeaderTrips.NewStream(cfg, s.server, sstep, n);
      }
    }
  }

  /**
    In every run: the bodies that the server stream of a handler has written are those of its
    accepted `SendMsg` calls, in call order.
   */
  lemma {:induction false} WrittenAreAccepted(cfg: Config, states: seq<System>, steps: seq<Step>, i: nat, n: nat)
    requires IsRun(cfg, states, steps) && i < |states|
    ensures n < |states[i].server.all| ==>
              Bodies(states[i].server.all[n].ss.written) == AcceptedBodies(states, steps, i, n)
    ensures n >= |states[i].server.all| ==> AcceptedBodies(states, steps, i, n) == []
  {
    hide Enabled, Next;
    if i > 0 {
      WrittenAreAccepted(cfg, states, steps, i - 1, n);
      SystemStepBodies(cfg, states[i - 1], steps[i - 1], n);
    }
  }

  // ----- header and trailer metadata

  /** The header metadata of a call of stream `n` that a step completes before the headers were sent: the call is not refused. */
  function OffersHeader(s: S.Server, step: S.Step, n: nat): seq<Metadata> {
    if Completes(s, step, n) && !s.all[n].ss.headersSent && (s.all[n].busy.value.SetHeader? || s.all[n].busy.value.SendHeader?) then
      [s.all[n].busy.value.md]
    else []
  }

  /** The trailer metadata of a `SetTrailer` of stream `n` that a step completes before the trailer was sent. */
  function OffersTrailer(s: S.Server, step: S.Step, n: nat): seq<Metadata> {
    if Completes(s, step, n) && !s.all[n].ss.trailersSent && s.all[n].busy.value.SetTrailer? then [s.all[n].busy.value.md] else []
  }

  lemma StepOffers(cfg: Config, s: S.Server, step: S.Step, n: nat)
    requires S.Enabled(cfg, s, step) && n < |s.all|
    ensures n < |S.Next(cfg, s, step).all|
    ensures S.Next(cfg, s, step).all[n].ss.headers == s.all[n].ss.headers + OffersHeader(s, step, n)
    ensures S.Next(cfg, s, step).all[n].ss.trailers == s.all[n].ss.trailers + OffersTrailer(s, step, n)
  {
    hide S.Next, S.Enabled, SS.Frame;
    if Completes(s, step, n) {
      CallCompletes(cfg, s, step, n);
    } else {
      NoCallCompletes(cfg, s, step, n);
    }
  }

  function OfferedHeaders(states: seq<System>, steps: seq<Step>, i: nat, n: nat): seq<Metadata>
    requires |states| == |steps| + 1 && i <= |steps|
  {
    if i == 0 then []
    else
      OfferedHeaders(states, steps, i - 1, n)
      + (if steps[i - 1].ServerStep? then OffersHeader(states[i - 1].server, steps[i - 1].sstep, n) else [])
  }

  function OfferedTrailers(states: seq<System>, steps: seq<Step>, i: nat, n: nat): seq<Metadata>
    requires |states| == |steps| + 1 && i <= |steps|
  {
    if i == 0 then []
    else
      OfferedTrailers(states, steps, i - 1, n)
      + (if steps[i - 1].ServerStep? then OffersTrailer(states[i - 1].server, steps[i - 1].sstep, n) else [])
  }

  lemma SystemStepOffers(cfg: Config, s: System, step: Step, n: nat)
    requires Enabled(cfg, s, step)
    ensures var all, all' := s.server.all, Next(cfg, s, step).server.all;
            && (n < |all| ==>
                  && n < |all'|
                  && all'[n].ss.headers == all[n].ss.headers + (if step.ServerStep? then OffersHeader(s.server, step.sstep, n) else [])
                  && all'[n].ss.trailers == all[n].ss.trailers + (if step.ServerStep? then OffersTrailer(s.server, step.sstep, n) else []))
            && (|all| <= n < |all'| ==> all'[n].ss.headers == [] && all'[n].ss.trailers == [])
  {
    hide S.Enabled, S.Next, C.Enabled, C.Next;
    if step.ServerStep? || step.ServerReads? {
      var sstep := if step.ServerStep? then step.sstep else S.Read(NextUp(s));
      if n < |s.server.all| {
        StepOffers(cfg, s.server, sstep, n);
      } else if n < |Next(cfg, s, step).server.all| {
        HeaderTrips.NewStream(cfg, s.server, sstep, n);
      }
    }
  }

  /**
    In every run: the metadata that a server stream has collected are those of the calls that were not
    refused, in call order.
   */
  lemma {:induction false} CollectedAreOffered(cfg: Config, states: seq<System>, steps: seq<Step>, i: nat, n: nat)
    requires IsRun(cfg, states, steps) && i < |states|
    ensures n < |states[i].server.all| ==>
              && states[i].server.all[n].ss.headers == OfferedHeaders(states, steps, i, n)
              && states[i].server.all[n].ss.trailers == OfferedTrailers(states, steps, i, n)
    ensures n >= |states[i].server.all| ==>
              OfferedHeaders(states, steps, i, n) == [] && OfferedTrailers(states, steps, i, n) == []
  {
    hide Enabled, Next;
    if i > 0 {
      CollectedAreOffered(cfg, states, steps, i - 1, n);
      SystemStepOffers(cfg, states[i - 1], steps[i - 1], n);
    }
  }

  /**
    Headers and trailers, call to call, in every run: what the client's `Header()` and `Trailer()`
    return are the merges, in call order, of what the handler's calls offered and were not refused.
   */
  lemma MetadataOfCalls(cfg: Config, states: seq<System>, steps: seq<Step>, i: nat, id: nat, n: nat)
    requires IsRun(cfg, states, steps) && i < |states| && EndToEnd.OpenStream(cfg, states[i], id)
    requires n < |states[i].server.all| && states[i].server.all[n].id == id
    ensures var cs := states[i].client.streams[id].cs;
            && (HeaderTrips.NoFailedCall(states, steps, i, n) && S.From(n, states[i].server.lost) == [] && cs.header.Some? ==>
                  HeaderTrips.HeaderIsMerge(cs, MetadataCodec.Join(OfferedHeaders(states, steps, i, n))))
            && (EndToEnd.EndedProperly(cs) && !EndToEnd.EndedByReset(cs) ==>
                  HeaderTrips.TrailerIsMerge(cs, MetadataCodec.Join(OfferedTrailers(states, steps, i, n))))
  {
    hide Enabled, Next, HeaderTrips.HeaderIsMerge, HeaderTrips.TrailerIsMerge, HeaderTrips.NoFailedCall, S.From, OfferedHeaders, OfferedTrailers, RouteOf;
    CollectedAreOffered(cfg, states, steps, i, n);
    var cs := states[i].client.streams[id].cs;
    if HeaderTrips.NoFailedCall(states, steps, i, n) {
      HeaderTrips.HeaderArrives(cfg, states, steps, i, id, n);
    }
    if EndToEnd.EndedProperly(cs) && !EndToEnd.EndedByReset(cs) {
      HeaderTrips.TrailerArrives(cfg, states, steps, i, id, n);
    }
  }

  // ----- resets

  /** Whoever is reset is gone: the streams with the id of a reset that were started before its cause. */
  predicate ResetsLate(s: S.Server) {
    forall j, n :: 0 <= j < |s.outLog| && 0 <= n < |s.all| && s.outLog[j].origin.FromReset?
                   && s.all[n].id == s.outLog[j].rpc.id && s.all[n].startAt < s.outLog[j].origin.r
                   ==> s.all[n].pc.Gone?
  }

  /** A stream keeps its id and its start, and stays gone. */
  predicate StaysGone(a: S.Stream, b: S.Stream) {
    b.id == a.id && b.startAt == a.startAt && (a.pc.Gone? ==> b.pc.Gone?)
  }

  lemma RouteKeepsGone(cfg: Config, s: S.Server, ok: bool, n: nat)
    requires S.Enabled(cfg, s, S.RouteFrame(ok)) && n < |s.all|
    ensures n < |S.RouteNext(cfg, s, ok).all| && StaysGone(s.all[n], S.RouteNext(cfg, s, ok).all[n])
  {
    hide RouteOf, S.ResetReply, S.ReplyMethod, MetadataCodec.Decode, SS.Fresh;
  }

  lemma StepKeepsGone(cfg: Config, s: S.Server, step: S.Step, n: nat)
    requires S.Enabled(cfg, s, step) && n < |s.all|
    requires s.all[n].pc.Gone? ==> s.all[n].busy.None? || !s.all[n].busy.value.SendTrailer?
    ensures n < |S.Next(cfg, s, step).all| && StaysGone(s.all[n], S.Next(cfg, s, step).all[n])
  {
    hide RouteOf, SS.Frame, SS.Apply, SS.Legal, SS.Writes, S.UnaryReply, S.ResetReply, S.AfterRead, S.ReplyMethod, SS.Fresh, S.RouteNext, S.Signalled;
    if step.RouteFrame? {
      RouteKeepsGone(cfg, s, step.ok, n);
    } else if step.Unregister? {
      HeaderTrips.UnregisterOnStream(cfg, s, step, n);
    }
  }

  /** A step writes at most one frame, and a reset only when it dispatches a frame whose id is not in the table. */
  lemma StepWrites(cfg: Config, s: S.Server, step: S.Step)
    requires S.Enabled(cfg, s, step) && (s.writer.Some? ==> !s.writer.value.origin.FromReset?)
    ensures var out := S.Next(cfg, s, step).outLog;
            && (out == s.outLog || exists o :: out == s.outLog + [o])
            && (|out| > |s.outLog| && out[|s.outLog|].origin.FromReset? ==>
                  && step.RouteFrame? && out[|s.outLog|] == S.Out(S.FromReset(s.loop.r), S.ResetReply(s.inLog[s.loop.r]))
                  && s.inLog[s.loop.r].id !in s.table && S.Next(cfg, s, step).all == s.all)
  {
    hide RouteOf, SS.Frame, SS.Apply, SS.Legal, SS.Writes, S.UnaryReply, S.ResetReply, S.AfterRead, S.RouteNext, S.Signalled, S.Completed;
    if step.RouteFrame? {
      RouteWrites(cfg, s, step.ok);
    }
  }

  lemma RouteWrites(cfg: Config, s: S.Server, ok: bool)
    requires S.Enabled(cfg, s, S.RouteFrame(ok))
    ensures var s', o := S.RouteNext(cfg, s, ok), S.Out(S.FromReset(s.loop.r), S.ResetReply(s.inLog[s.loop.r]));
            s'.outLog == s.outLog || (s'.outLog == s.outLog + [o] && s.inLog[s.loop.r].id !in s.table && s'.all == s.all)
  {
    hide RouteOf, S.ResetReply, S.StartStream, MetadataCodec.Decode;
  }

  /** A stream that a step starts begins with the frame read last. */
  lemma StepStarts(cfg: Config, s: S.Server, step: S.Step, n: nat)
    requires S.Enabled(cfg, s, step) && |s.all| <= n < |S.Next(cfg, s, step).all|
    ensures step.RouteFrame? && S.Next(cfg, s, step).all[n].startAt == s.loop.r
  {
    hide RouteOf, SS.Frame, SS.Apply, SS.Legal, SS.Writes, S.UnaryReply, S.ResetReply, S.AfterRead, S.RouteNext, S.StartStream;
    if step.RouteFrame? {
      HeaderTrips.RouteStarts(cfg, s, step.ok, n);
    }
  }

  /** What the invariant says for this. */
  lemma GoneFacts(cfg: Config, s: S.Server)
    requires S.Inv(cfg, s)
    ensures s.writer.Some? ==> !s.writer.value.origin.FromReset?
    ensures s.loop.Routing? ==> s.loop.r == |s.inLog| - 1
    ensures forall n :: 0 <= n < |s.all| && s.all[n].id !in s.table ==> s.all[n].pc.Gone?
    ensures forall n :: 0 <= n < |s.all| && s.all[n].pc.Gone? ==> s.all[n].busy.None? || !s.all[n].busy.value.SendTrailer?
    ensures forall j :: 0 <= j < |s.outLog| && s.outLog[j].origin.FromReset? ==> s.outLog[j].origin.r < |s.inLog|
  {
    hide S.Opens, S.WrittenOk, S.FeedOk, S.StartsOk, S.WritesOk, S.AnswersOk, S.UnaryOk, RouteOf, S.ResetReply, S.UnaryReply, S.CausesReset;
    forall n | 0 <= n < |s.all| && s.all[n].pc.Gone?
      ensures s.all[n].busy.None? || !s.all[n].busy.value.SendTrailer?
    {
      assert S.StreamOk(cfg, s.inLog, s.all[n]);
    }
    forall j | 0 <= j < |s.outLog| && s.outLog[j].origin.FromReset?
      ensures s.outLog[j].origin.r < |s.inLog|
    {
      assert S.OutOk(cfg, s.inLog, s.all, s.outLog[j]);
    }
  }

  lemma StepKeepsResetsLate(cfg: Config, s: S.Server, step: S.Step)
    requires S.Inv(cfg, s) && S.Enabled(cfg, s, step) && ResetsLate(s)
    ensures ResetsLate(S.Next(cfg, s, step))
  {
    hide S.Inv, S.Next, S.ResetReply;
    var s' := S.Next(cfg, s, step);
    GoneFacts(cfg, s);
    StepWrites(cfg, s, step);
    forall j, n | 0 <= j < |s'.outLog| && 0 <= n < |s'.all| && s'.outLog[j].origin.FromReset?
                  && s'.all[n].id == s'.outLog[j].rpc.id && s'.all[n].startAt < s'.outLog[j].origin.r
      ensures s'.all[n].pc.Gone?
    {
      if n >= |s.all| {
        StepStarts(cfg, s, step, n);
      } else {
        StepKeepsGone(cfg, s, step, n);
        ResetId(s, step);
      }
    }
  }

  lemma ResetId(s: S.Server, step: S.Step)
    ensures s.loop.Routing? && s.loop.r < |s.inLog| && s.inLog[s.loop.r].header.Some? ==>
              S.ResetReply(s.inLog[s.loop.r]).id == s.inLog[s.loop.r].id
  {
  }

  lemma {:induction false} ResetsLateAlongRun(cfg: Config, states: seq<System>, steps: seq<Step>, i: nat)
    requires IsRun(cfg, states, steps) && i < |states|
    ensures ResetsLate(states[i].server)
  {
    hide Enabled, Next, Inv, ResetsLate;
    if i == 0 {
      FreshResetsLate();
    } else {
      ResetsLateAlongRun(cfg, states, steps, i - 1);
      InvAlongRun(cfg, states, steps, i - 1);
      SystemStepResetsLate(cfg, states[i - 1], steps[i - 1]);
    }
  }

  lemma FreshResetsLate()
    ensures ResetsLate(Fresh().server)
  {
  }

  lemma SystemStepResetsLate(cfg: Config, s: System, step: Step)
    requires Inv(cfg, s) && Enabled(cfg, s, step) && ResetsLate(s.server)
    ensures ResetsLate(Next(cfg, s, step).server)
  {
    hide C.Inv, S.Inv, S.Enabled, S.Next, C.Enabled, C.Next, ResetsLate;
    match step
    case ServerStep(sstep) => StepKeepsResetsLate(cfg, s.server, sstep);
    case ServerReads => StepKeepsResetsLate(cfg, s.server, S.Read(NextUp(s)));
    case _ =>
  }

  /**
    A reset never hits a running handler: in every run, once the server has written a reset for the
    id of a stream, the handler of that stream has returned and its goroutine is gone.
   */
  lemma ResetMeansGone(cfg: Config, states: seq<System>, steps: seq<Step>, i: nat, j: nat, n: nat)
    requires IsRun(cfg, states, steps) && i < |states|
    requires j < |states[i].server.outLog| && states[i].server.outLog[j].origin.FromReset?
    requires n < |states[i].server.all| && states[i].server.all[n].id == states[i].server.outLog[j].rpc.id
    ensures states[i].server.all[n].pc.Gone? && states[i].server.all[n].result.Some?
  {
    hide Inv, Enabled, Next;
    InvAlongRun(cfg, states, steps, i);
    ResetsLateAlongRun(cfg, states, steps, i);
    CauseAfterStart(cfg, states[i], j, n);
  }

  lemma CauseAfterStart(cfg: Config, s: System, j: nat, n: nat)
    requires Inv(cfg, s) && j < |s.server.outLog| && s.server.outLog[j].origin.FromReset?
    requires n < |s.server.all| && s.server.all[n].id == s.server.outLog[j].rpc.id
    ensures s.server.all[n].startAt < s.server.outLog[j].origin.r
    ensures s.server.all[n].pc.Gone? ==> s.server.all[n].result.Some?
  {
    hide C.Inv, S.Inv, RouteOf, On, S.WrittenOk, MetadataCodec.Decode, S.Fed;
    var st, r := s.server.all[n], s.server.outLog[j].origin.r;
    EndToEnd.HandlerOfStream(cfg, s, n);
    EndToEnd.StreamStart(cfg, s, n);
    EndToEnd.CauseWasWritten(cfg, s, j);
    EndToEnd.OriginFacts(cfg, s.server, j);
    EndToEnd.ServerPart(cfg, s);
    SI.StreamFacts(cfg, s.server, n);
    if r < st.startAt {
      assert s.client.outLog[..st.startAt][r] == s.client.outLog[r];
      EndToEnd.OnHas(st.id, s.client.outLog[..st.startAt], r);
    }
  }

  // ----- the calls in progress are those that were made

  /** Step `t` of the run makes this call on stream `n`; the call of `SendTrailer` is its goroutine's own. */
  predicate Makes(states: seq<System>, steps: seq<Step>, t: nat, n: nat, call: SS.Call) {
    && t < |steps| && t < |states| && steps[t].ServerStep?
    && (steps[t].sstep == S.Call(n, call)
        || (call.SendTrailer? && steps[t].sstep == S.Trail(n, call.kvs, call.trailerKvs)
            && n < |states[t].server.all| && states[t].server.all[n].result == Some(call.result)))
  }

  /** Step `t` of the run lets the handler of stream `n` return this result. */
  predicate ReturnsAt(steps: seq<Step>, t: nat, n: nat, result: Option<Status>) {
    t < |steps| && steps[t] == ServerStep(S.Return(n, result))
  }

  lemma StepOnBusy(cfg: Config, s: S.Server, step: S.Step, n: nat)
    requires S.Enabled(cfg, s, step) && n < |s.all|
    ensures n < |S.Next(cfg, s, step).all|
    ensures var a, b := s.all[n], S.Next(cfg, s, step).all[n];
            && (b.busy == a.busy || b.busy.None?
                || (b.busy.Some? && (step == S.Call(n, b.busy.value)
                                     || (b.busy.value.SendTrailer? && step == S.Trail(n, b.busy.value.kvs, b.busy.value.trailerKvs)
                                         && a.result == Some(b.busy.value.result)))))
            && (b.result == a.result || (b.result.Some? && step == S.Return(n, b.result.value)))
  {
    hide RouteOf, SS.Frame, SS.Apply, SS.Legal, SS.Writes, S.UnaryReply, S.ResetReply, S.AfterRead, S.ReplyMethod, SS.Fresh, S.RouteNext, S.Signalled;
    if step.RouteFrame? {
      HeaderTrips.RouteOnStream(cfg, s, step, n);
      RouteKeepsResult(cfg, s, step.ok, n);
    } else if step.Unregister? {
      HeaderTrips.UnregisterOnStream(cfg, s, step, n);
      UnregisterKeepsResult(cfg, s, step, n);
    }
  }

  lemma RouteKeepsResult(cfg: Config, s: S.Server, ok: bool, n: nat)
    requires S.Enabled(cfg, s, S.RouteFrame(ok)) && n < |s.all|
    ensures n < |S.RouteNext(cfg, s, ok).all| && S.RouteNext(cfg, s, ok).all[n].result == s.all[n].result
  {
    hide RouteOf, S.ResetReply, S.ReplyMethod, MetadataCodec.Decode, SS.Fresh;
  }

  lemma UnregisterKeepsResult(cfg: Config, s: S.Server, step: S.Step, n: nat)
    requires S.Enabled(cfg, s, step) && step.Unregister? && n < |s.all|
    ensures n < |S.Next(cfg, s, step).all| && S.Next(cfg, s, step).all[n].result == s.all[n].result
  {
    hide RouteOf, SS.Frame, SS.Apply, SS.Legal, SS.Writes, S.UnaryReply, S.ResetReply, S.AfterRead, S.RouteNext, S.Completed, S.HandOver;
  }

  lemma NewHasNoResult(cfg: Config, s: S.Server, step: S.Step, n: nat)
    requires S.Enabled(cfg, s, step) && |s.all| <= n < |S.Next(cfg, s, step).all|
    ensures S.Next(cfg, s, step).all[n].busy.None? && S.Next(cfg, s, step).all[n].result.None?
  {
    hide RouteOf, SS.Frame, SS.Apply, SS.Legal, SS.Writes, S.UnaryReply, S.ResetReply, S.AfterRead, S.RouteNext, S.Completed, S.StartStream;
    if step.RouteFrame? {
      HeaderTrips.RouteStarts(cfg, s, step.ok, n);
      StartHasNoResult(s.inLog[s.loop.r], s.loop.r);
    }
  }

  lemma StartHasNoResult(f: Rpc, r: nat)
    requires f.header.Some?
    ensures S.StartStream(f, r).result.None? && S.StartStream(f, r).busy.None?
  {
  }

  lemma SystemStepOnBusy(cfg: Config, s: System, step: Step, n: nat)
    requires Enabled(cfg, s, step) && n < |Next(cfg, s, step).server.all|
    ensures var b := Next(cfg, s, step).server.all[n];
            if n >= |s.server.all| then b.busy.None? && b.result.None?
            else
              var a := s.server.all[n];
              && (b.busy == a.busy || b.busy.None?
                  || (b.busy.Some? && step.ServerStep?
                      && (step.sstep == S.Call(n, b.busy.value)
                          || (b.busy.value.SendTrailer? && step.sstep == S.Trail(n, b.busy.value.kvs, b.busy.value.trailerKvs)
                              && a.result == Some(b.busy.value.result)))))
              && (b.result == a.result || (b.result.Some? && step == ServerStep(S.Return(n, b.result.value))))
  {
    hide S.Enabled, S.Next, C.Enabled, C.Next;
    if step.ServerStep? || step.ServerReads? {
      var sstep := if step.ServerStep? then step.sstep else S.Read(NextUp(s));
      if n < |s.server.all| {
        StepOnBusy(cfg, s.server, sstep, n);
      } else {
        NewHasNoResult(cfg, s.server, sstep, n);
      }
    }
  }

  /**
    In every run: the call in progress on a stream is one that its application made, with what it
    passed, or the trailer of its result; and its result is what its handler returned.
   */
  lemma {:induction false} CallsWereMade(cfg: Config, states: seq<System>, steps: seq<Step>, i: nat, n: nat)
    requires IsRun(cfg, states, steps) && i < |states| && n < |states[i].server.all|
    ensures var st := states[i].server.all[n];
            && (st.busy.Some? ==> exists t :: 0 <= t < i && Makes(states, steps, t, n, st.busy.value))
            && (st.result.Some? ==> exists t :: 0 <= t < i && ReturnsAt(steps, t, n, st.result.value))
  {
    hide Enabled, Next, Makes, ReturnsAt;
    if i > 0 {
      SystemStepOnBusy(cfg, states[i - 1], steps[i - 1], n);
      if n < |states[i - 1].server.all| {
        CallsWereMade(cfg, states, steps, i - 1, n);
        LastMakes(states, steps, i - 1, n);
      }
    }
  }

  lemma LastMakes(states: seq<System>, steps: seq<Step>, t: nat, n: nat)
    requires t < |steps| && t < |states|
    ensures forall call :: steps[t] == ServerStep(S.Call(n, call)) ==> Makes(states, steps, t, n, call)
    ensures forall call: SS.Call ::
              (call.SendTrailer? && steps[t] == ServerStep(S.Trail(n, call.kvs, call.trailerKvs))
               && n < |states[t].server.all| && states[t].server.all[n].result == Some(call.result))
              ==> Makes(states, steps, t, n, call)
    ensures forall result :: steps[t] == ServerStep(S.Return(n, result)) ==> ReturnsAt(steps, t, n, result)
  {
  }
}
