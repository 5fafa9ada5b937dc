/**
  Header metadata over a whole connection: what the handler of a stream set is what the client's
  `Header()` returns. And addresses: where the frames of a stream go.
 */
module HeaderTrips {
  import opened Frames
  import opened Methods
  import opened Systems
  import MetadataCodec
  import Logs
  import EndToEnd
  import CS = ClientStreams
  import SS = ServerStreams
  import S = Servers
  import C = Clients
  import SI = ServerInvariants

  /** The first frame, once written, carries all the header metadata collected, and no later frame any. */
  ghost predicate Announced(ss: SS.State) {
    && (ss.headersSent <==> ss.written != [])
    && (ss.written != [] ==> MetadataCodec.Encodes(SS.HeadersOf(ss.written[0]), ss.headers))
    && SS.NoHeaders(ss.written, 1)
  }

  /** A call that does not fail keeps it. */
  lemma ApplyAnnounced(ss: SS.State, call: SS.Call)
    requires Announced(ss) && SS.Legal(ss, call)
    ensures Announced(SS.Apply(ss, call, true))
  {
    hide MetadataCodec.Encodes, SS.TrailerStatus;
  }

  ghost predicate StreamAnnounced(st: S.Stream) {
    Announced(st.ss) && (st.busy.Some? ==> SS.Legal(st.ss, st.busy.value))
  }

  /** What a step may do to the server stream of a stream. */
  ghost predicate StreamStep(a: S.Stream, b: S.Stream) {
    || (b.ss == a.ss && (b.busy == a.busy || (b.busy.Some? && SS.Legal(a.ss, b.busy.value))))
    || (a.busy.Some? && b.busy.None? && b.ss == SS.Apply(a.ss, a.busy.value, true))
  }

  /** The step is a call of stream `n` whose frame does not reach the writer. */
  predicate FailsCall(s: S.Server, step: S.Step, n: nat) {
    step == S.Complete(n) && n < |s.all| && s.all[n].busy.Some? && SS.Writes(s.all[n].ss, s.all[n].busy.value)
  }

  lemma StepOnStream(cfg: Config, s: S.Server, step: S.Step, n: nat)
    requires S.Enabled(cfg, s, step) && n < |s.all| && !FailsCall(s, step, n)
    ensures |s.all| <= |S.Next(cfg, s, step).all|
    ensures StreamStep(s.all[n], S.Next(cfg, s, step).all[n])
  {
    hide RouteOf, SS.Frame, SS.Apply, SS.Legal, SS.Writes, S.UnaryReply, S.ResetReply, S.AfterRead, S.ReplyMethod, SS.Fresh, S.RouteNext, S.Signalled;
    if step.RouteFrame? {
      RouteOnStream(cfg, s, step, n);
    } else if step.Unregister? {
      UnregisterOnStream(cfg, s, step, n);
    }
  }

  lemma UnregisterOnStream(cfg: Config, s: S.Server, step: S.Step, n: nat)
    requires S.Enabled(cfg, s, step) && step.Unregister? && n < |s.all|
    ensures var all := S.Next(cfg, s, step).all;
            && |all| == |s.all| && all[n].ss == s.all[n].ss && all[n].busy == s.all[n].busy
            && all[n].startAt == s.all[n].startAt && all[n].id == s.all[n].id && (s.all[n].pc.Gone? ==> all[n].pc.Gone?)
  {
    hide RouteOf, SS.Frame, SS.Apply, SS.Legal, SS.Writes, S.UnaryReply, S.ResetReply, S.AfterRead, S.RouteNext, S.Completed, S.HandOver;
  }

  lemma RouteOnStream(cfg: Config, s: S.Server, step: S.Step, n: nat)
    requires S.Enabled(cfg, s, step) && step.RouteFrame? && n < |s.all|
    ensures |s.all| <= |S.RouteNext(cfg, s, step.ok).all|
    ensures S.RouteNext(cfg, s, step.ok).all[n].ss == s.all[n].ss && S.RouteNext(cfg, s, step.ok).all[n].busy == s.all[n].busy
    ensures S.RouteNext(cfg, s, step.ok).all[n].startAt == s.all[n].startAt
  {
    hide RouteOf, S.ResetReply, S.ReplyMethod, MetadataCodec.Decode, SS.Fresh;
  }

  lemma NewStream(cfg: Config, s: S.Server, step: S.Step, n: nat)
    requires S.Enabled(cfg, s, step) && |s.all| <= n < |S.Next(cfg, s, step).all|
    ensures S.Next(cfg, s, step).all[n].ss.written == [] && !S.Next(cfg, s, step).all[n].ss.headersSent
    ensures S.Next(cfg, s, step).all[n].ss.headers == [] && S.Next(cfg, s, step).all[n].ss.trailers == []
    ensures S.Next(cfg, s, step).all[n].busy.None?
  {
    hide RouteOf, SS.Frame, SS.Apply, SS.Legal, SS.Writes, S.UnaryReply, S.ResetReply, S.AfterRead, S.RouteNext, S.Completed, S.StartStream;
    if step.RouteFrame? {
      RouteStarts(cfg, s, step.ok, n);
    }
  }

  lemma RouteStarts(cfg: Config, s: S.Server, ok: bool, n: nat)
    requires S.Enabled(cfg, s, S.RouteFrame(ok)) && |s.all| <= n < |S.RouteNext(cfg, s, ok).all|
    ensures S.RouteNext(cfg, s, ok).all[n] == S.StartStream(s.inLog[s.loop.r], s.loop.r)
    ensures S.RouteNext(cfg, s, ok).inLog == s.inLog
    ensures S.StartStream(s.inLog[s.loop.r], s.loop.r).ss.written == []
    ensures !S.StartStream(s.inLog[s.loop.r], s.loop.r).ss.headersSent
    ensures S.StartStream(s.inLog[s.loop.r], s.loop.r).ss.headers == [] && S.StartStream(s.inLog[s.loop.r], s.loop.r).ss.trailers == []
    ensures S.StartStream(s.inLog[s.loop.r], s.loop.r).busy.None? && S.StartStream(s.inLog[s.loop.r], s.loop.r).startAt == s.loop.r
  {
    hide RouteOf, S.ResetReply, S.ReplyMethod, MetadataCodec.Decode;
  }

  lemma StepAnnounced(a: S.Stream, b: S.Stream)
    requires StreamAnnounced(a) && StreamStep(a, b)
    ensures StreamAnnounced(b)
  {
    hide Announced, SS.Legal, SS.Apply;
    if b.ss != a.ss {
      ApplyAnnounced(a.ss, a.busy.value);
    }
  }

  /** No call of stream `n` failed in the first `upto` steps. */
  predicate NoFailedCall(states: seq<System>, steps: seq<Step>, upto: nat, n: nat)
    requires |states| == |steps| + 1
  {
    forall t :: 0 <= t < |steps| && t < upto && steps[t].ServerStep? ==> !FailsCall(states[t].server, steps[t].sstep, n)
  }

  lemma SystemStepAnnounced(cfg: Config, s: System, step: Step, n: nat)
    requires Enabled(cfg, s, step) && n < |Next(cfg, s, step).server.all|
    requires step.ServerStep? ==> !FailsCall(s.server, step.sstep, n)
    requires n < |s.server.all| ==> StreamAnnounced(s.server.all[n])
    ensures StreamAnnounced(Next(cfg, s, step).server.all[n])
  {
    hide S.Enabled, S.Next, StreamAnnounced, StreamStep, FailsCall;
    if step.ServerStep? || step.ServerReads? {
      var sstep := if step.ServerStep? then step.sstep else S.Read(NextUp(s));
      ReadFailsNothing(s.server, NextUpOr(s, step), n);
      if n < |s.server.all| {
        StepOnStream(cfg, s.server, sstep, n);
        StepAnnounced(s.server.all[n], S.Next(cfg, s.server, sstep).all[n]);
      } else {
        NewStream(cfg, s.server, sstep, n);
        FreshAnnounced(S.Next(cfg, s.server, sstep).all[n]);
      }
    }
  }

  function NextUpOr(s: System, step: Step): Rpc
    requires step.ServerReads? ==> |s.server.inLog| < |s.client.outLog|
  {
    if step.ServerReads? then NextUp(s) else Rpc(0, None, None, None, None, None)
  }

  lemma ReadFailsNothing(s: S.Server, rpc: Rpc, n: nat)
    ensures !FailsCall(s, S.Read(rpc), n)
  {
  }

  lemma FreshAnnounced(st: S.Stream)
    requires st.ss.written == [] && !st.ss.headersSent && st.busy.None?
    ensures StreamAnnounced(st)
  {
  }

  lemma {:induction false} AnnouncedAlongRun(cfg: Config, states: seq<System>, steps: seq<Step>, i: nat, n: nat)
    requires IsRun(cfg, states, steps) && i < |states| && NoFailedCall(states, steps, i, n)
    requires n < |states[i].server.all|
    ensures StreamAnnounced(states[i].server.all[n])
  {
    hide Enabled, Next, StreamAnnounced, FailsCall;
    if i > 0 {
      if n < |states[i - 1].server.all| {
        AnnouncedAlongRun(cfg, states, steps, i - 1, n);
      }
      SystemStepAnnounced(cfg, states[i - 1], steps[i - 1], n);
    }
  }

  /**
    Headers end to end, in every run in which no call of the handler's stream failed: no frame of the
    stream but the first carries header metadata. When none of its frames was lost, what the
    client's `Header()` returns is the merge, in call order, of the header metadata collected by the
    handler's stream, under lower-case keys; unless the first frame it got was a reset, and then it
    is empty. With lost frames it is that, or empty.
   */
  lemma HeaderArrives(cfg: Config, states: seq<System>, steps: seq<Step>, i: nat, id: nat, n: nat)
    requires IsRun(cfg, states, steps) && i < |states| && EndToEnd.OpenStream(cfg, states[i], id)
    requires n < |states[i].server.all| && states[i].server.all[n].id == id
    requires NoFailedCall(states, steps, i, n)
    ensures SS.NoHeaders(states[i].server.all[n].ss.written, 1)
    ensures var cs, ss := states[i].client.streams[id].cs, states[i].server.all[n].ss;
            cs.header.Some? ==>
              && (S.From(n, states[i].server.lost) == [] ==> HeaderIsMerge(cs, MetadataCodec.Join(ss.headers)))
              && (HeaderIsMerge(cs, MetadataCodec.Join(ss.headers)) || cs.header.value == map[])
  {
    hide Inv, Enabled, Next, StreamAnnounced, FailsCall, RouteOf, CS.Inv, HeaderIsMerge, EndToEnd.FromHandler, EndToEnd.PlainReset, S.From, Logs.Accounted;
    InvAlongRun(cfg, states, steps, i);
    EndToEnd.InboxIsCarried(cfg, states[i], id, n);
    EndToEnd.ServerPart(cfg, states[i]);
    EndToEnd.StreamAccounted(cfg, states[i].server, n);
    AnnouncedAlongRun(cfg, states, steps, i, n);
    HeaderOfFirst(cfg, states[i], id, n);
  }

  /** The header that a client stream has, against what was offered. */
  ghost predicate HeaderIsMerge(cs: CS.ClientStream, offered: Metadata) {
    && |cs.inbox| > 0 && cs.header.Some?
    && if IsReset(cs.inbox[0]) then cs.header.value == map[]
       else
         && (MetadataCodec.LowerApart(offered) ==> MetadataCodec.Carries(cs.header.value, offered, offered.Keys))
         && (MetadataCodec.Canonical(offered) ==> cs.header.value == offered)
  }

  lemma HeaderOfFirst(cfg: Config, s: System, id: nat, n: nat)
    requires Inv(cfg, s) && EndToEnd.OpenStream(cfg, s, id) && n < |s.server.all|
    requires var cs := s.client.streams[id].cs; CS.Inv(cs) && EndToEnd.FromHandler(cs) <= S.From(n, s.server.outLog)
    requires StreamAnnounced(s.server.all[n])
    requires Logs.Accounted(s.server.all[n].ss.written, S.From(n, S.Held(s.server.writer)),
                            S.From(n, s.server.outLog), S.From(n, s.server.lost))
    ensures SS.NoHeaders(s.server.all[n].ss.written, 1)
    ensures var cs := s.client.streams[id].cs;
            cs.header.Some? ==>
              && (S.From(n, s.server.lost) == [] ==> HeaderIsMerge(cs, MetadataCodec.Join(s.server.all[n].ss.headers)))
              && (HeaderIsMerge(cs, MetadataCodec.Join(s.server.all[n].ss.headers)) || cs.header.value == map[])
  {
    hide Inv, RouteOf, CS.Inv, HeaderIsMerge, MetadataCodec.Encodes, MetadataCodec.Decode, MetadataCodec.Join, SS.Legal, S.From, Logs.Accounted;
    var cs, ss := s.client.streams[id].cs, s.server.all[n].ss;
    if cs.header.Some? {
      HeaderFromFirst(cs);
      if IsReset(cs.inbox[0]) {
        ResetHasNoHeaders(cfg, s, id);
        EmptyHeader(cs, MetadataCodec.Join(ss.headers));
      } else {
        FirstOfHandler(cs);
        assert cs.inbox[0] == S.From(n, s.server.outLog)[0];
        EndToEnd.AccountFacts(ss.written, S.From(n, S.Held(s.server.writer)), S.From(n, s.server.outLog), S.From(n, s.server.lost));
        assert S.From(n, s.server.outLog)[0] in ss.written;
        if cs.inbox[0] == ss.written[0] {
          MergeDecodes(cs, ss.headers);
        } else {
          var k :| 0 <= k < |ss.written| && ss.written[k] == cs.inbox[0];
          LaterHasNoHeader(cs, ss, k);
        }
      }
    }
  }

  lemma LaterHasNoHeader(cs: CS.ClientStream, ss: SS.State, k: nat)
    requires |cs.inbox| > 0 && 1 <= k < |ss.written| && ss.written[k] == cs.inbox[0] && SS.NoHeaders(ss.written, 1)
    requires cs.header.Some? && cs.header == MetadataCodec.Decode(CS.HeaderOf(cs.inbox[0]))
    ensures cs.header.value == map[]
  {
    assert SS.HeadersOf(ss.written[k]) == [];
  }

  lemma HeaderFromFirst(cs: CS.ClientStream)
    requires CS.Inv(cs) && cs.header.Some?
    ensures |cs.inbox| > 0 && cs.header == MetadataCodec.Decode(CS.HeaderOf(cs.inbox[0]))
  {
    hide CS.LifecycleInv, CS.DeliveryInv, CS.EmissionInv, CS.HeaderKept, MetadataCodec.Decode;
  }

  lemma FirstOfHandler(cs: CS.ClientStream)
    requires |cs.inbox| > 0 && !IsReset(cs.inbox[0])
    ensures |EndToEnd.FromHandler(cs)| > 0 && EndToEnd.FromHandler(cs)[0] == cs.inbox[0]
  {
  }

  lemma ResetHasNoHeaders(cfg: Config, s: System, id: nat)
    requires Inv(cfg, s) && EndToEnd.OpenStream(cfg, s, id) && |s.client.streams[id].cs.inbox| > 0
    requires IsReset(s.client.streams[id].cs.inbox[0])
    ensures CS.HeaderOf(s.client.streams[id].cs.inbox[0]) == []
  {
    hide C.Inv, S.Inv, RouteOf, S.CausesReset, S.ReplyRoute;
    var j := EndToEnd.InboxWasWritten(cfg, s, id, 0);
    EndToEnd.ResetOrigin(cfg, s.server, j);
    EndToEnd.OriginFacts(cfg, s.server, j);
  }

  lemma EmptyHeader(cs: CS.ClientStream, offered: Metadata)
    requires |cs.inbox| > 0 && IsReset(cs.inbox[0]) && CS.HeaderOf(cs.inbox[0]) == []
    requires cs.header.Some? && cs.header == MetadataCodec.Decode(CS.HeaderOf(cs.inbox[0]))
    ensures HeaderIsMerge(cs, offered)
  {
  }

  lemma MergeDecodes(cs: CS.ClientStream, mds: seq<Metadata>)
    requires |cs.inbox| > 0 && !IsReset(cs.inbox[0]) && MetadataCodec.Encodes(SS.HeadersOf(cs.inbox[0]), mds)
    requires cs.header.Some? && cs.header == MetadataCodec.Decode(CS.HeaderOf(cs.inbox[0]))
    ensures HeaderIsMerge(cs, MetadataCodec.Join(mds))
  {
    hide MetadataCodec.Encodes, MetadataCodec.Decode, MetadataCodec.Carries, MetadataCodec.LowerApart, MetadataCodec.Canonical, MetadataCodec.Join;
    var kvs := SS.HeadersOf(cs.inbox[0]);
    CanonicalApart(MetadataCodec.Join(mds));
    if MetadataCodec.LowerApart(MetadataCodec.Join(mds)) {
      MetadataCodec.RoundTripLowered(kvs, mds);
      if MetadataCodec.Canonical(MetadataCodec.Join(mds)) {
        MetadataCodec.CarriesCanonical(cs.header.value, MetadataCodec.Join(mds));
      }
    }
  }

  lemma CanonicalApart(md: Metadata)
    ensures MetadataCodec.Canonical(md) ==> MetadataCodec.LowerApart(md)
  {
  }

  // ----- trailers

  /** At most one trailer was written, without a body, and it carries all the trailer metadata collected. */
  ghost predicate TrailerCarries(ss: SS.State) {
    && SS.TrailerCount(ss.written) <= (if ss.trailersSent then 1 else 0)
    && (forall i :: 0 <= i < |ss.written| && ss.written[i].trailer.Some? ==>
                      && ss.trailersSent && ss.written[i].body.None?
                      && MetadataCodec.Encodes(ss.written[i].trailer.value.metadata, ss.trailers))
  }

  lemma TrailerAppend(log: seq<Rpc>, f: Rpc)
    ensures SS.TrailerCount(log + [f]) == SS.TrailerCount(log) + (if f.trailer.Some? then 1 else 0)
  {
    assert (log + [f])[..|log|] == log;
  }

  /** Every call keeps it, whether it fails or not. */
  lemma ApplyTrailers(ss: SS.State, call: SS.Call, ok: bool)
    requires TrailerCarries(ss) && SS.Legal(ss, call)
    ensures TrailerCarries(SS.Apply(ss, call, ok))
  {
    hide MetadataCodec.Encodes, SS.TrailerStatus, SS.TrailerCount;
    if SS.Writes(ss, call) {
      TrailerAppend(ss.written, SS.Frame(ss, call));
    }
  }

  ghost predicate StreamTrails(st: S.Stream) {
    TrailerCarries(st.ss) && (st.busy.Some? ==> SS.Legal(st.ss, st.busy.value))
  }

  /** What any step may do to the server stream of a stream, failed calls included. */
  ghost predicate LegalStep(a: S.Stream, b: S.Stream) {
    || (b.ss == a.ss && (b.busy == a.busy || (b.busy.Some? && SS.Legal(a.ss, b.busy.value))))
    || (a.busy.Some? && b.busy.None? && exists ok :: b.ss == SS.Apply(a.ss, a.busy.value, ok))
  }

  lemma LegalStepOnStream(cfg: Config, s: S.Server, step: S.Step, n: nat)
    requires S.Enabled(cfg, s, step) && n < |s.all|
    ensures |s.all| <= |S.Next(cfg, s, step).all|
    ensures LegalStep(s.all[n], S.Next(cfg, s, step).all[n])
  {
    hide RouteOf, SS.Frame, SS.Apply, SS.Legal, SS.Writes, S.UnaryReply, S.ResetReply, S.AfterRead, S.ReplyMethod, SS.Fresh, S.RouteNext, S.Signalled;
    if step.RouteFrame? {
      RouteOnStream(cfg, s, step, n);
    } else if step.Unregister? {
      UnregisterOnStream(cfg, s, step, n);
    }
  }

  lemma StepTrails(a: S.Stream, b: S.Stream)
    requires StreamTrails(a) && LegalStep(a, b)
    ensures StreamTrails(b)
  {
    hide TrailerCarries, SS.Legal, SS.Apply;
    if b.ss != a.ss {
      var ok :| b.ss == SS.Apply(a.ss, a.busy.value, ok);
      ApplyTrailers(a.ss, a.busy.value, ok);
    }
  }

  lemma FreshTrails(st: S.Stream)
    requires st.ss.written == [] && st.busy.None?
    ensures StreamTrails(st)
  {
  }

  lemma SystemStepTrails(cfg: Config, s: System, step: Step, n: nat)
    requires Enabled(cfg, s, step) && n < |Next(cfg, s, step).server.all|
    requires n < |s.server.all| ==> StreamTrails(s.server.all[n])
    ensures StreamTrails(Next(cfg, s, step).server.all[n])
  {
    hide S.Enabled, S.Next, C.Enabled, C.Next, StreamTrails, LegalStep;
    if step.ServerStep? || step.ServerReads? {
      var sstep := if step.ServerStep? then step.sstep else S.Read(NextUp(s));
      if n < |s.server.all| {
        LegalStepOnStream(cfg, s.server, sstep, n);
        StepTrails(s.server.all[n], S.Next(cfg, s.server, sstep).all[n]);
      } else {
        NewStream(cfg, s.server, sstep, n);
        FreshTrails(S.Next(cfg, s.server, sstep).all[n]);
      }
    }
  }

  lemma {:induction false} TrailsAlongRun(cfg: Config, states: seq<System>, steps: seq<Step>, i: nat, n: nat)
    requires IsRun(cfg, states, steps) && i < |states| && n < |states[i].server.all|
    ensures StreamTrails(states[i].server.all[n])
  {
    hide Enabled, Next, StreamTrails;
    if i > 0 {
      if n < |states[i - 1].server.all| {
        TrailsAlongRun(cfg, states, steps, i - 1, n);
      }
      SystemStepTrails(cfg, states[i - 1], steps[i - 1], n);
    }
  }

  /** What `Trailer()` returns, against the metadata collected. */
  ghost predicate TrailerIsMerge(cs: CS.ClientStream, offered: Metadata) {
    && CS.TrailerOf(cs).Some?
    && (MetadataCodec.LowerApart(offered) ==> MetadataCodec.Carries(CS.TrailerOf(cs).value, offered, offered.Keys))
    && (MetadataCodec.Canonical(offered) ==> CS.TrailerOf(cs).value == offered)
  }

  /**
    Trailers end to end, in every run, with failed calls and writes or without: for a stream that its
    handler's trailer ended, the client's `Trailer()` returns the merge, in call order, of the
    trailer metadata collected by the handler's stream, under lower-case keys.
   */
  lemma TrailerArrives(cfg: Config, states: seq<System>, steps: seq<Step>, i: nat, id: nat, n: nat)
    requires IsRun(cfg, states, steps) && i < |states| && EndToEnd.OpenStream(cfg, states[i], id)
    requires n < |states[i].server.all| && states[i].server.all[n].id == id
    requires EndToEnd.EndedProperly(states[i].client.streams[id].cs) && !EndToEnd.EndedByReset(states[i].client.streams[id].cs)
    ensures TrailerIsMerge(states[i].client.streams[id].cs, MetadataCodec.Join(states[i].server.all[n].ss.trailers))
  {
    hide Inv, Enabled, Next, StreamTrails, RouteOf, CS.Inv, TrailerIsMerge, EndToEnd.PlainReset, S.From, Logs.Accounted;
    InvAlongRun(cfg, states, steps, i);
    TrailsAlongRun(cfg, states, steps, i, n);
    TrailerOfHandler(cfg, states[i], id, n);
    TrailerDecodes(states[i].client.streams[id].cs, states[i].server.all[n]);
  }

  /** The trailer that ended the stream is one that the server stream wrote. */
  lemma TrailerOfHandler(cfg: Config, s: System, id: nat, n: nat)
    requires Inv(cfg, s) && EndToEnd.OpenStream(cfg, s, id) && n < |s.server.all| && s.server.all[n].id == id
    requires EndToEnd.EndedProperly(s.client.streams[id].cs) && !EndToEnd.EndedByReset(s.client.streams[id].cs)
    ensures var cs := s.client.streams[id].cs;
            && |cs.inbox| > 0 && CS.Last(cs.inbox) in s.server.all[n].ss.written
            && cs.trailer.Some? && cs.trailer == CS.Last(cs.inbox).trailer
  {
    hide C.Inv, S.Inv, RouteOf, CS.Inv, EndToEnd.PlainReset, S.From, Logs.Accounted;
    var cs, v := s.client.streams[id].cs, s.server;
    EndToEnd.InboxIsCarried(cfg, s, id, n);
    EndToEnd.ClientSide(cs);
    EndToEnd.StreamAccounted(cfg, v, n);
    EndToEnd.AccountFacts(v.all[n].ss.written, S.From(n, S.Held(v.writer)), S.From(n, v.outLog), S.From(n, v.lost));
    assert CS.Last(cs.inbox) == S.From(n, v.outLog)[|cs.inbox| - 1];
  }

  lemma TrailerDecodes(cs: CS.ClientStream, st: S.Stream)
    requires StreamTrails(st) && |cs.inbox| > 0 && CS.Last(cs.inbox) in st.ss.written
    requires cs.trailer.Some? && cs.trailer == CS.Last(cs.inbox).trailer
    ensures TrailerIsMerge(cs, MetadataCodec.Join(st.ss.trailers))
  {
    hide SS.Legal, MetadataCodec.Encodes, MetadataCodec.Decode, MetadataCodec.Carries, MetadataCodec.LowerApart, MetadataCodec.Canonical, MetadataCodec.Join, SS.TrailerCount;
    var kvs, mds := cs.trailer.value.metadata, st.ss.trailers;
    assert MetadataCodec.Encodes(kvs, mds);
    MetadataCodec.EncodedAlwaysDecodes(kvs, mds);
    CanonicalApart(MetadataCodec.Join(mds));
    if MetadataCodec.LowerApart(MetadataCodec.Join(mds)) {
      MetadataCodec.RoundTripLowered(kvs, mds);
      if MetadataCodec.Canonical(MetadataCodec.Join(mds)) {
        MetadataCodec.CarriesCanonical(CS.TrailerOf(cs).value, MetadataCodec.Join(mds));
      }
    }
  }

  /** With a GOAT server the panic in `Trailer()` is unreachable on a stream. */
  lemma TrailerNeverPanics(cfg: Config, states: seq<System>, steps: seq<Step>, i: nat, id: nat)
    requires IsRun(cfg, states, steps) && i < |states| && EndToEnd.OpenStream(cfg, states[i], id)
    requires EndToEnd.EndedProperly(states[i].client.streams[id].cs)
    ensures CS.TrailerOf(states[i].client.streams[id].cs).Some?
  {
    hide Inv, Enabled, Next, RouteOf, CS.Inv, EndToEnd.DeliveredFrom, S.From, CS.TrailerOf;
    InvAlongRun(cfg, states, steps, i);
    if EndToEnd.EndedByReset(states[i].client.streams[id].cs) {
      ResetTrailerDecodes(cfg, states[i], id);
    } else {
      EndToEnd.ServerToClient(cfg, states, steps, i, id);
      var n :| 0 <= n < |states[i].server.all| && states[i].server.all[n].id == id;
      TrailerArrives(cfg, states, steps, i, id, n);
    }
  }

  lemma ResetTrailerDecodes(cfg: Config, s: System, id: nat)
    requires Inv(cfg, s) && EndToEnd.OpenStream(cfg, s, id)
    requires EndToEnd.EndedProperly(s.client.streams[id].cs) && EndToEnd.EndedByReset(s.client.streams[id].cs)
    ensures CS.TrailerOf(s.client.streams[id].cs).Some?
  {
    hide C.Inv, S.Inv, RouteOf, S.CausesReset, S.ReplyRoute, CS.Inv;
    var cs := s.client.streams[id].cs;
    EndToEnd.InboxIsTaken(s.client, id);
    EndToEnd.ClientSide(cs);
    var j := EndToEnd.InboxWasWritten(cfg, s, id, |cs.inbox| - 1);
    EndToEnd.ResetOrigin(cfg, s.server, j);
    EndToEnd.OriginFacts(cfg, s.server, j);
    assert cs.trailer == Some(Trailer([]));
  }

  // ----- addresses

  /**
    A server stream answers for the method and the address of its opening frame, and every frame
    that it wrote goes back where that frame came from. It follows no proxy route.
   */
  predicate Addressed(st: S.Stream, opening: Rpc) {
    && opening.header.Some?
    && st.ss.src == opening.header.value.destination && st.ss.dst == opening.header.value.source
    && st.ss.fullMethod == S.ReplyMethod(opening.header.value.fullMethod)
    && (forall i :: 0 <= i < |st.ss.written| ==> SentFrom(st.ss, st.ss.written[i]))
  }

  predicate SentFrom(ss: SS.State, rpc: Rpc) {
    && rpc.id == ss.id && rpc.header.Some?
    && rpc.header.value == RequestHeader(ss.fullMethod, rpc.header.value.headers, ss.src, ss.dst, [], None)
  }

  /** What any step may do to a stream, failed calls included. */
  ghost predicate AnyStreamStep(a: S.Stream, b: S.Stream) {
    b.startAt == a.startAt && (b.ss == a.ss || exists call, ok :: b.ss == SS.Apply(a.ss, call, ok))
  }

  lemma ApplyAddressed(ss: SS.State, call: SS.Call, ok: bool)
    requires forall i :: 0 <= i < |ss.written| ==> SentFrom(ss, ss.written[i])
    ensures var ss' := SS.Apply(ss, call, ok);
            && ss'.src == ss.src && ss'.dst == ss.dst && ss'.fullMethod == ss.fullMethod && ss'.id == ss.id
            && (forall i :: 0 <= i < |ss'.written| ==> SentFrom(ss', ss'.written[i]))
  {
    hide SS.TrailerStatus;
  }

  lemma AnyStepOnStream(cfg: Config, s: S.Server, step: S.Step, n: nat)
    requires S.Enabled(cfg, s, step) && n < |s.all|
    ensures |s.all| <= |S.Next(cfg, s, step).all|
    ensures AnyStreamStep(s.all[n], S.Next(cfg, s, step).all[n])
  {
    hide RouteOf, SS.Frame, SS.Apply, SS.Legal, SS.Writes, S.UnaryReply, S.ResetReply, S.AfterRead, S.ReplyMethod, SS.Fresh, S.RouteNext, S.Signalled;
    if step.RouteFrame? {
      RouteOnStream(cfg, s, step, n);
    } else if step.Unregister? {
      UnregisterOnStream(cfg, s, step, n);
    }
  }

  lemma StepAddressed(a: S.Stream, b: S.Stream, opening: Rpc)
    requires Addressed(a, opening) && AnyStreamStep(a, b)
    ensures Addressed(b, opening)
  {
    hide SS.Apply, S.ReplyMethod, SentFrom;
    if b.ss != a.ss {
      var call, ok :| b.ss == SS.Apply(a.ss, call, ok);
      ApplyAddressed(a.ss, call, ok);
    }
  }

  lemma NewAddressed(cfg: Config, s: S.Server, step: S.Step, n: nat)
    requires S.Enabled(cfg, s, step) && |s.all| <= n < |S.Next(cfg, s, step).all|
    ensures var s' := S.Next(cfg, s, step);
            s'.all[n].startAt < |s'.inLog| && Addressed(s'.all[n], s'.inLog[s'.all[n].startAt])
  {
    hide RouteOf, SS.Frame, SS.Apply, SS.Legal, SS.Writes, S.UnaryReply, S.ResetReply, S.AfterRead, S.ReplyMethod, S.RouteNext, S.Completed;
    if step.RouteFrame? {
      RouteStarts(cfg, s, step.ok, n);
    }
  }

  lemma ReadsOn(cfg: Config, s: S.Server, step: S.Step)
    requires S.Enabled(cfg, s, step)
    ensures s.inLog <= S.Next(cfg, s, step).inLog
  {
    hide RouteOf, SS.Frame, SS.Apply, SS.Legal, SS.Writes, S.UnaryReply, S.ResetReply, S.AfterRead, S.StartStream;
  }

  /**
    In every run of a server: every frame that a stream wrote carries its id and method, goes from
    the destination of the frame that opened it to its source, and has no proxy route.
   */
  lemma {:induction false} FramesGoBack(cfg: Config, states: seq<S.Server>, steps: seq<S.Step>, i: nat, n: nat)
    requires SI.IsRun(cfg, states, steps) && i < |states| && n < |states[i].all|
    ensures states[i].all[n].startAt < |states[i].inLog|
    ensures Addressed(states[i].all[n], states[i].inLog[states[i].all[n].startAt])
  {
    hide S.Enabled, S.Next, Addressed, AnyStreamStep;
    if i > 0 {
      var s, step := states[i - 1], steps[i - 1];
      if n < |s.all| {
        FramesGoBack(cfg, states, steps, i - 1, n);
        AnyStepOnStream(cfg, s, step, n);
        ReadsOn(cfg, s, step);
        StartKept(s.all[n], states[i].all[n]);
        StepAddressed(s.all[n], states[i].all[n], s.inLog[s.all[n].startAt]);
      } else {
        NewAddressed(cfg, s, step, n);
      }
    }
  }

  lemma StartKept(a: S.Stream, b: S.Stream)
    requires AnyStreamStep(a, b)
    ensures b.startAt == a.startAt
  {
  }
}
