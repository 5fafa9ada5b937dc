/**
  What the dispatch of a stream frame does, and what cancels a stream: over whole runs, a client's
  reset that finds its stream live cancels it for good, and nothing else does but the stream's own
  context, the shutdown and the end of its goroutine.
 */
module Cancellation {
  import opened Frames
  import opened Logs
  import opened Methods
  import opened Systems
  import Calls
  import EndToEnd
  import HeaderTrips
  import MetadataCodec
  import Mux = Multiplexers
  import CS = ClientStreams
  import SS = ServerStreams
  import S = Servers
  import SI = ServerInvariants
  import C = Clients

  /** Stream `n` is live, with this id. */
  predicate Live(s: S.Server, n: nat, id: nat) {
    n < |s.all| && s.all[n].id == id && !s.all[n].pc.Gone?
  }

  /** The frame that the serve loop is about to dispatch to a stream. */
  function Pending(s: S.Server): Rpc
    requires s.loop.Routing? && s.loop.r < |s.inLog|
  {
    s.inLog[s.loop.r]
  }

  /** The frame opens a stream: no body, no trailer, no reset, and metadata that decode. */
  predicate IsStart(f: Rpc) {
    && f.body.None? && f.trailer.None? && f.reset != Some(RstStream)
    && f.header.Some? && MetadataCodec.Decode(f.header.value.headers).Some?
  }

  /** The frame cannot belong to a stream that is not live: it has a body, or opens one with metadata that do not decode. */
  predicate IsStray(f: Rpc) {
    && f.reset != Some(RstStream) && f.header.Some?
    && (f.body.Some? || (f.trailer.None? && MetadataCodec.Decode(f.header.value.headers).None?))
  }

  /** The table, as far as one id is concerned. */
  lemma LiveInTable(cfg: Config, s: S.Server, id: nat)
    requires S.Inv(cfg, s)
    ensures id in s.table ==> Live(s, s.table[id], id)
    ensures forall n :: Live(s, n, id) ==> id in s.table && s.table[id] == n
  {
    hide S.Inv;
    SI.LiveFacts(cfg, s);
  }

  /**
    The dispatch of a stream frame, by the frame and by whether a stream with its id is live. It is
    passed to the live stream unless it is a reset; it starts a stream exactly when none is live and
    it opens one; it is answered with a reset, and serving ends if that cannot be written, exactly
    when none is live and it is a stray; and otherwise nothing is written and no stream started.
   */
  lemma DispatchMeans(cfg: Config, s: S.Server, ok: bool)
    requires S.Inv(cfg, s) && S.Enabled(cfg, s, S.RouteFrame(ok))
    ensures s.loop.Routing? && s.loop.r < |s.inLog|
    ensures var s', f := S.Next(cfg, s, S.RouteFrame(ok)), Pending(s);
            var live := exists n :: Live(s, n, f.id);
            && (s'.loop.Pushing? <==> live && f.reset != Some(RstStream))
            && (s'.loop.Pushing? ==> Live(s, s'.loop.n, f.id) && s'.loop.r == s.loop.r)
            && (|s'.all| > |s.all| <==> !live && IsStart(f))
            && (|s'.all| > |s.all| ==> |s'.all| == |s.all| + 1 && s'.all[|s.all|].id == f.id && !s'.all[|s.all|].cancelled)
            && (s'.outLog != s.outLog <==> !live && IsStray(f) && ok)
            && (s'.outLog != s.outLog ==> s'.outLog == s.outLog + [S.Out(S.FromReset(s.loop.r), S.ResetReply(f))])
            && (s'.loop.Stopped? <==> !live && IsStray(f) && !ok)
  {
    hide S.Inv, RouteOf, S.ResetReply, MetadataCodec.Decode, SS.Fresh, S.ReplyMethod;
    LiveInTable(cfg, s, Pending(s).id);
  }

  // ----- cancelled for good

  lemma RouteCancels(cfg: Config, s: S.Server, ok: bool, n: nat)
    requires S.Enabled(cfg, s, S.RouteFrame(ok)) && n < |s.all|
    ensures s.loop.Routing? && s.loop.r < |s.inLog|
    ensures var s' := S.RouteNext(cfg, s, ok);
            && n < |s'.all|
            && (s'.all[n].cancelled <==>
                  s.all[n].cancelled || (Pending(s).reset == Some(RstStream) && Pending(s).id in s.table && s.table[Pending(s).id] == n))
  {
    hide RouteOf, S.ResetReply, MetadataCodec.Decode, SS.Fresh, S.ReplyMethod;
  }

  lemma UnregisterCancels(cfg: Config, s: S.Server, step: S.Step, n: nat)
    requires S.Enabled(cfg, s, step) && step.Unregister? && n < |s.all|
    requires s.all[step.n].id in s.table ==> s.table[s.all[step.n].id] == step.n
    ensures n < |S.Next(cfg, s, step).all|
    ensures S.Next(cfg, s, step).all[n].cancelled ==> s.all[n].cancelled || n == step.n
    ensures s.all[n].cancelled ==> S.Next(cfg, s, step).all[n].cancelled
  {
    hide RouteOf, S.RouteNext, S.UnaryReply, S.ResetReply, S.AfterRead, S.Completed, S.HandOver, SS.Legal, SS.Writes;
  }

  /** What cancels stream `n`: a client's reset that finds it live, its own context, the shutdown, or the end of its goroutine. */
  predicate Cancels(s: S.Server, step: S.Step, n: nat) {
    || (step.RouteFrame? && s.loop.Routing? && s.loop.r < |s.inLog| && n < |s.all|
        && Pending(s).reset == Some(RstStream) && Pending(s).id == s.all[n].id && !s.all[n].pc.Gone?)
    || step == S.CancelStream(n)
    || step == S.Pick(n)
    || step == S.Leave(n) || step == S.Unregister(n)
  }

  lemma OtherStepCancels(cfg: Config, s: S.Server, step: S.Step, n: nat)
    requires S.Enabled(cfg, s, step) && n < |s.all| && !step.RouteFrame? && !step.Unregister?
    ensures n < |S.Next(cfg, s, step).all|
    ensures S.Next(cfg, s, step).all[n].cancelled <==>
              s.all[n].cancelled || step == S.CancelStream(n) || step == S.Pick(n) || step == S.Leave(n)
  {
    hide RouteOf, SS.Frame, SS.Apply, SS.Legal, SS.Writes, S.UnaryReply, S.ResetReply, S.AfterRead, S.RouteNext, S.Signalled;
  }

  lemma LeavingIsOwn(cfg: Config, s: S.Server, step: S.Step)
    requires S.Inv(cfg, s) && S.Enabled(cfg, s, step) && step.Unregister?
    ensures step.n < |s.all| && s.all[step.n].id in s.table && s.table[s.all[step.n].id] == step.n
  {
    hide S.Inv;
    SI.LeavingFacts(cfg, s, step.n);
  }

  /** A step cancels exactly the streams that it should, and none is ever uncancelled. */
  lemma StepCancels(cfg: Config, s: S.Server, step: S.Step, n: nat)
    requires S.Inv(cfg, s) && S.Enabled(cfg, s, step) && n < |s.all|
    ensures n < |S.Next(cfg, s, step).all|
    ensures s.all[n].cancelled ==> S.Next(cfg, s, step).all[n].cancelled
    ensures S.Next(cfg, s, step).all[n].cancelled ==> s.all[n].cancelled || Cancels(s, step, n)
    ensures Cancels(s, step, n) && !step.Unregister? ==> S.Next(cfg, s, step).all[n].cancelled
  {
    hide S.Inv, S.Enabled, S.Next;
    if step.RouteFrame? {
      NextIsRoute(cfg, s, step);
      RouteCancels(cfg, s, step.ok, n);
      LiveInTable(cfg, s, Pending(s).id);
      assert Live(s, n, Pending(s).id) <==> Pending(s).id == s.all[n].id && !s.all[n].pc.Gone?;
    } else if step.Unregister? {
      LeavingIsOwn(cfg, s, step);
      UnregisterCancels(cfg, s, step, n);
    } else {
      OtherStepCancels(cfg, s, step, n);
    }
  }

  lemma NextIsRoute(cfg: Config, s: S.Server, step: S.Step)
    requires S.Enabled(cfg, s, step) && step.RouteFrame?
    ensures S.Next(cfg, s, step) == S.RouteNext(cfg, s, step.ok)
  {
    hide S.RouteNext, RouteOf;
  }

  /** The step of the server within a step of the whole. */
  function ServerPart(s: System, step: Step): Option<S.Step>
    requires step.ServerReads? ==> |s.server.inLog| < |s.client.outLog|
  {
    match step
    case ServerStep(sstep) => Some(sstep)
    case ServerReads => Some(S.Read(NextUp(s)))
    case _ => None
  }

  lemma ServerPartIs(cfg: Config, s: System, step: Step)
    requires Inv(cfg, s) && Enabled(cfg, s, step)
    ensures step.ServerReads? ==> |s.server.inLog| < |s.client.outLog|
    ensures S.Inv(cfg, s.server)
    ensures var part := ServerPart(s, step);
            if part.None? then Next(cfg, s, step).server == s.server
            else S.Enabled(cfg, s.server, part.value) && Next(cfg, s, step).server == S.Next(cfg, s.server, part.value)
  {
    hide C.Inv, S.Inv, S.Enabled, S.Next, C.Enabled, C.Next;
  }

  /** Step `t` of the run cancels stream `n`. */
  predicate CancelledAt(states: seq<System>, steps: seq<Step>, t: nat, n: nat) {
    && t < |steps| && t < |states| && steps[t].ServerStep? && Cancels(states[t].server, steps[t].sstep, n)
  }

  lemma CancelledKept(cfg: Config, s: System, step: Step, n: nat)
    requires Inv(cfg, s) && Enabled(cfg, s, step) && n < |s.server.all| && s.server.all[n].cancelled
    ensures n < |Next(cfg, s, step).server.all| && Next(cfg, s, step).server.all[n].cancelled
  {
    hide Enabled, Next, Inv, S.Inv, S.Enabled, S.Next, Cancels;
    ServerPartIs(cfg, s, step);
    var part := ServerPart(s, step);
    if part.Some? {
      StepCancels(cfg, s.server, part.value, n);
    }
  }

  lemma {:induction false} CancelledStays(cfg: Config, states: seq<System>, steps: seq<Step>, i: nat, j: nat, n: nat)
    requires IsRun(cfg, states, steps) && i <= j < |states| && n < |states[i].server.all| && states[i].server.all[n].cancelled
    ensures n < |states[j].server.all| && states[j].server.all[n].cancelled
    decreases j - i
  {
    hide Enabled, Next, Inv;
    if i < j {
      CancelledStays(cfg, states, steps, i, j - 1, n);
      InvAlongRun(cfg, states, steps, j - 1);
      CancelledKept(cfg, states[j - 1], steps[j - 1], n);
    }
  }

  /**
    A client's reset cancels its stream, in every run: when the server dispatches a reset and a
    stream with its id is live, that stream is cancelled in every later state.
   */
  lemma ClientResetCancels(cfg: Config, states: seq<System>, steps: seq<Step>, t: nat, j: nat, n: nat)
    requires IsRun(cfg, states, steps) && t < j < |states|
    requires steps[t].ServerStep? && steps[t].sstep.RouteFrame?
    requires var v := states[t].server;
             && v.loop.Routing? && v.loop.r < |v.inLog| && IsReset(v.inLog[v.loop.r])
             && n < |v.all| && v.all[n].id == v.inLog[v.loop.r].id && !v.all[n].pc.Gone?
    ensures n < |states[j].server.all| && states[j].server.all[n].cancelled
  {
    hide Next, Inv, S.Next, S.Enabled, C.Enabled, C.Next;
    InvAlongRun(cfg, states, steps, t);
    ServerPartIs(cfg, states[t], steps[t]);
    StepCancels(cfg, states[t].server, steps[t].sstep, n);
    CancelledStays(cfg, states, steps, t + 1, j, n);
  }

  /** Whatever is cancelled was cancelled by a step that may do so. */
  lemma {:induction false} CancelledHasCause(cfg: Config, states: seq<System>, steps: seq<Step>, i: nat, n: nat)
    requires IsRun(cfg, states, steps) && i < |states| && n < |states[i].server.all| && states[i].server.all[n].cancelled
    ensures exists t :: 0 <= t < i && CancelledAt(states, steps, t, n)
  {
    hide Next, Inv, S.Next, S.Enabled, C.Enabled, C.Next, Cancels;
    if i > 0 {
      var s, step := states[i - 1], steps[i - 1];
      InvAlongRun(cfg, states, steps, i - 1);
      ServerPartIs(cfg, s, step);
      var part := ServerPart(s, step);
      if n < |s.server.all| && s.server.all[n].cancelled {
        CancelledHasCause(cfg, states, steps, i - 1, n);
      } else if n < |s.server.all| {
        StepCancels(cfg, s.server, part.value, n);
        ReadCancelsNone(s, step, n);
        assert CancelledAt(states, steps, i - 1, n);
      } else {
        NewNotCancelled(cfg, s.server, part.value, n);
      }
    }
  }

  /** The goroutine of the stream is leaving, or gone. */
  predicate Leaves(s: S.Server, n: nat) {
    n < |s.all| && (s.all[n].pc.Leaving? || s.all[n].pc.Unregistering? || s.all[n].pc.Gone?)
  }

  lemma StepKeepsLeaving(cfg: Config, s: S.Server, step: S.Step, n: nat)
    requires S.Enabled(cfg, s, step) && !step.RouteFrame? && !step.Unregister?
    requires n < |s.all| && s.all[n].busy.Some? && s.all[n].busy.value.SendTrailer? ==> s.all[n].pc.Trailing?
    ensures Leaves(s, n) || step == S.Leave(n) ==> Leaves(S.Next(cfg, s, step), n)
  {
    hide RouteOf, SS.Frame, SS.Apply, SS.Legal, SS.Writes, S.UnaryReply, S.ResetReply, S.RouteNext, S.AfterRead, S.Signalled;
  }

  lemma RouteKeepsLeaving(cfg: Config, s: S.Server, step: S.Step, n: nat)
    requires S.Enabled(cfg, s, step) && step.RouteFrame?
    ensures Leaves(s, n) ==> Leaves(S.Next(cfg, s, step), n)
  {
    hide RouteOf, S.ResetReply, MetadataCodec.Decode, SS.Fresh, S.ReplyMethod;
  }

  lemma UnregisterKeepsLeaving(cfg: Config, s: S.Server, step: S.Step, n: nat)
    requires S.Enabled(cfg, s, step) && step.Unregister?
    ensures Leaves(s, n) || step == S.Unregister(n) ==> Leaves(S.Next(cfg, s, step), n)
  {
    hide RouteOf, S.RouteNext, S.UnaryReply, S.ResetReply, S.AfterRead, S.Completed, S.HandOver, SS.Legal, SS.Writes;
  }

  lemma ServerKeepsLeaving(cfg: Config, s: S.Server, step: S.Step, n: nat)
    requires S.Inv(cfg, s) && S.Enabled(cfg, s, step)
    ensures Leaves(s, n) || step == S.Leave(n) || step == S.Unregister(n) ==> Leaves(S.Next(cfg, s, step), n)
  {
    hide S.Enabled, S.Next, S.Inv, Leaves;
    if n < |s.all| {
      PcFacts(cfg, s, n);
    }
    if step.RouteFrame? {
      RouteKeepsLeaving(cfg, s, step, n);
    } else if step.Unregister? {
      UnregisterKeepsLeaving(cfg, s, step, n);
    } else {
      StepKeepsLeaving(cfg, s, step, n);
    }
  }

  lemma LeavingKept(cfg: Config, s: System, step: Step, n: nat)
    requires Inv(cfg, s) && Enabled(cfg, s, step) && Leaves(s.server, n)
    ensures Leaves(Next(cfg, s, step).server, n)
  {
    hide Enabled, Next, Inv, S.Inv, S.Enabled, S.Next, Leaves;
    ServerPartIs(cfg, s, step);
    var part := ServerPart(s, step);
    if part.Some? {
      ServerKeepsLeaving(cfg, s.server, part.value, n);
    }
  }

  lemma {:induction false} LeavingStays(cfg: Config, states: seq<System>, steps: seq<Step>, i: nat, j: nat, n: nat)
    requires IsRun(cfg, states, steps) && i <= j < |states| && Leaves(states[i].server, n)
    ensures Leaves(states[j].server, n)
    decreases j - i
  {
    hide Enabled, Next, Inv, Leaves;
    if i < j {
      LeavingStays(cfg, states, steps, i, j - 1, n);
      InvAlongRun(cfg, states, steps, j - 1);
      LeavingKept(cfg, states[j - 1], steps[j - 1], n);
    }
  }

  /** Before its goroutine leaves, a stream is cancelled only by a client's reset, its own context or the shutdown. */
  lemma CancelledBeforeLeaving(cfg: Config, states: seq<System>, steps: seq<Step>, i: nat, n: nat)
    requires IsRun(cfg, states, steps) && i < |states| && n < |states[i].server.all| && states[i].server.all[n].cancelled
    requires !Leaves(states[i].server, n)
    ensures exists t :: 0 <= t < i && CancelledAt(states, steps, t, n)
                        && (steps[t].sstep.RouteFrame? || steps[t].sstep == S.CancelStream(n) || steps[t].sstep == S.Pick(n))
  {
    hide Next, Inv, S.Next, S.Enabled, C.Enabled, C.Next, Leaves;
    CancelledHasCause(cfg, states, steps, i, n);
    var t :| 0 <= t < i && CancelledAt(states, steps, t, n);
    var sstep := steps[t].sstep;
    if sstep == S.Leave(n) || sstep == S.Unregister(n) {
      InvAlongRun(cfg, states, steps, t);
      ServerPartIs(cfg, states[t], steps[t]);
      ServerKeepsLeaving(cfg, states[t].server, sstep, n);
      LeavingStays(cfg, states, steps, t + 1, i, n);
    }
  }

  lemma ReadCancelsNone(s: System, step: Step, n: nat)
    requires step.ServerReads? ==> |s.server.inLog| < |s.client.outLog|
    ensures step.ServerReads? ==> !Cancels(s.server, ServerPart(s, step).value, n)
  {
  }

  lemma NewNotCancelled(cfg: Config, s: S.Server, step: S.Step, n: nat)
    requires S.Enabled(cfg, s, step) && |s.all| <= n < |S.Next(cfg, s, step).all|
    ensures !S.Next(cfg, s, step).all[n].cancelled
  {
    hide RouteOf, SS.Frame, SS.Apply, SS.Legal, SS.Writes, S.UnaryReply, S.ResetReply, S.AfterRead, S.RouteNext, S.StartStream, S.Completed;
    if step.RouteFrame? {
      HeaderTrips.RouteStarts(cfg, s, step.ok, n);
      StartNotCancelled(s.inLog[s.loop.r], s.loop.r);
    }
  }

  lemma StartNotCancelled(f: Rpc, r: nat)
    requires f.header.Some?
    ensures !S.StartStream(f, r).cancelled
  {
  }

  /** A stream whose goroutine is leaving or gone, or that the shutdown waits for, is cancelled. */
  predicate EndsCancelled(s: S.Server, n: nat) {
    n < |s.all| && (s.all[n].pc.Leaving? || s.all[n].pc.Unregistering? || s.all[n].pc.Gone? || s.loop == S.Waiting(n)) ==>
      s.all[n].cancelled
  }

  lemma OthersEndCancelled(cfg: Config, s: S.Server, step: S.Step, n: nat)
    requires S.Enabled(cfg, s, step) && n < |s.all| && !step.RouteFrame? && !step.Unregister?
    requires s.all[n].busy.Some? && s.all[n].busy.value.SendTrailer? ==> s.all[n].pc.Trailing?
    requires s.lock == S.HeldByUnregister(n) ==> s.all[n].pc.Unregistering?
    requires EndsCancelled(s, n)
    ensures EndsCancelled(S.Next(cfg, s, step), n)
  {
    hide RouteOf, SS.Frame, SS.Apply, SS.Legal, SS.Writes, S.UnaryReply, S.ResetReply, S.RouteNext, S.Signalled;
  }

  lemma RouteEndsCancelled(cfg: Config, s: S.Server, step: S.Step, n: nat)
    requires S.Enabled(cfg, s, step) && n < |s.all| && step.RouteFrame? && EndsCancelled(s, n)
    ensures EndsCancelled(S.Next(cfg, s, step), n)
  {
    hide RouteOf, S.ResetReply, MetadataCodec.Decode, SS.Fresh, S.ReplyMethod;
  }

  lemma UnregisterEndsCancelled(cfg: Config, s: S.Server, step: S.Step, n: nat)
    requires S.Enabled(cfg, s, step) && n < |s.all| && step.Unregister? && EndsCancelled(s, n)
    ensures EndsCancelled(S.Next(cfg, s, step), n)
  {
    hide RouteOf, S.RouteNext, S.UnaryReply, S.ResetReply, S.AfterRead, S.Completed, S.HandOver, SS.Legal, SS.Writes;
  }

  lemma NewEndsCancelled(cfg: Config, s: S.Server, step: S.Step, n: nat)
    requires S.Enabled(cfg, s, step) && |s.all| <= n < |S.Next(cfg, s, step).all|
    ensures EndsCancelled(S.Next(cfg, s, step), n)
  {
    hide S.Next, S.Enabled, S.RouteNext, S.StartStream, EndsCancelled;
    Calls.StepStarts(cfg, s, step, n);
    assert step == S.RouteFrame(step.ok);
    NextIsRoute(cfg, s, step);
    var s' := S.RouteNext(cfg, s, step.ok);
    HeaderTrips.RouteStarts(cfg, s, step.ok, n);
    RouteStartsReading(cfg, s, step.ok);
    StartRuns(s.inLog[s.loop.r], s.loop.r);
    RunningEnds(s', n);
  }

  lemma RunningEnds(s: S.Server, n: nat)
    requires n < |s.all| && s.all[n].pc.Running? && s.loop.Reading?
    ensures EndsCancelled(s, n)
  {
  }

  lemma RouteStartsReading(cfg: Config, s: S.Server, ok: bool)
    requires S.Enabled(cfg, s, S.RouteFrame(ok)) && |S.RouteNext(cfg, s, ok).all| > |s.all|
    ensures S.RouteNext(cfg, s, ok).loop.Reading? && s.loop.Routing? && s.loop.r < |s.inLog| && s.inLog[s.loop.r].header.Some?
  {
    hide RouteOf, S.ResetReply, MetadataCodec.Decode, S.StartStream;
  }

  lemma StartRuns(f: Rpc, r: nat)
    requires f.header.Some?
    ensures S.StartStream(f, r).pc.Running?
  {
  }

  lemma PcFacts(cfg: Config, s: S.Server, n: nat)
    requires S.Inv(cfg, s) && n < |s.all|
    ensures s.all[n].busy.Some? && s.all[n].busy.value.SendTrailer? ==> s.all[n].pc.Trailing?
    ensures s.lock == S.HeldByUnregister(n) ==> s.all[n].pc.Unregistering?
  {
    hide S.Inv, S.Opens, S.WrittenOk, S.Fed, RouteOf;
    SI.StreamFacts(cfg, s, n);
  }

  lemma {:induction false} GoneAreCancelled(cfg: Config, states: seq<System>, steps: seq<Step>, i: nat, n: nat)
    requires IsRun(cfg, states, steps) && i < |states|
    ensures EndsCancelled(states[i].server, n)
  {
    hide Next, Inv, S.Next, S.Enabled, C.Enabled, C.Next, EndsCancelled;
    if i == 0 || n >= |states[i].server.all| {
      NothingToCancel(states[i].server, n);
    } else {
      var s, step := states[i - 1], steps[i - 1];
      GoneAreCancelled(cfg, states, steps, i - 1, n);
      InvAlongRun(cfg, states, steps, i - 1);
      ServerPartIs(cfg, s, step);
      var part := ServerPart(s, step);
      if part.Some? {
        if n >= |s.server.all| {
          NewEndsCancelled(cfg, s.server, part.value, n);
        } else if part.value.RouteFrame? {
          RouteEndsCancelled(cfg, s.server, part.value, n);
        } else if part.value.Unregister? {
          UnregisterEndsCancelled(cfg, s.server, part.value, n);
        } else {
          PcFacts(cfg, s.server, n);
          OthersEndCancelled(cfg, s.server, part.value, n);
        }
      }
    }
  }

  lemma NothingToCancel(s: S.Server, n: nat)
    requires n >= |s.all|
    ensures EndsCancelled(s, n)
  {
  }

  // ----- nothing withheld

  /**
    While a stream is live and the server serves, its channel was sent exactly the frames of its id
    that were dispatched after its opening frame, but for resets and for the one being pushed; in
    every run.
   */
  lemma NothingWithheld(cfg: Config, states: seq<System>, steps: seq<Step>, i: nat, n: nat)
    requires IsRun(cfg, states, steps) && i < |states| && n < |states[i].server.all|
    requires !states[i].server.all[n].pc.Gone? && S.Serving(states[i].server.loop)
    ensures var s, st := states[i].server, states[i].server.all[n];
            var upto := S.Dispatched(s.inLog, s.loop);
            && st.startAt < upto <= |s.inLog|
            && st.ch.sent + S.PushingTo(s.inLog, s.loop, n) == NonReset(On(st.id, s.inLog[st.startAt + 1..upto]))
  {
    hide Inv, Enabled, Next, NonReset, On;
    InvAlongRun(cfg, states, steps, i);
    PassedOn(cfg, states[i], n);
  }

  lemma PassedOn(cfg: Config, s: System, n: nat)
    requires Inv(cfg, s) && n < |s.server.all| && !s.server.all[n].pc.Gone? && S.Serving(s.server.loop)
    ensures var v, st := s.server, s.server.all[n];
            var upto := S.Dispatched(v.inLog, v.loop);
            && st.startAt < upto <= |v.inLog|
            && st.ch.sent + S.PushingTo(v.inLog, v.loop, n) == NonReset(On(st.id, v.inLog[st.startAt + 1..upto]))
  {
    hide C.Inv, S.Inv, NonReset, On, RouteOf, S.Passed, S.StreamOk;
    var v, st := s.server, s.server.all[n];
    var upto := S.Dispatched(v.inLog, v.loop);
    EndToEnd.ServerPart(cfg, s);
    EndToEnd.HandlerOfStream(cfg, s, n);
    SI.StreamFacts(cfg, v, n);
    var segment := v.inLog[st.startAt + 1..upto];
    forall f | f in segment && f.id == st.id
      ensures RouteOf(cfg, f).StreamMethod?
    {
      OnMembers(st.id, s.client.outLog);
      assert f in s.client.outLog;
      EndToEnd.StreamFramesRouteAlike(cfg, s.client, st.id, f);
    }
    EndToEnd.PassedIsNonReset(cfg, st.id, segment);
  }
}
