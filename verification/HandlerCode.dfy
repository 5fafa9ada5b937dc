/**
  `handler` (server.go) in its own form: the methods that change the table of streams under the
  mutex, and the loop that ends a connection.
 */
module HandlerCode {
  import opened Frames
  import opened Methods
  import opened Servers
  import SI = ServerInvariants
  import Timeouts
  import MetadataCodec

  class Handler {
    const cfg: Config
    var streams: map<nat, nat>
    var all: seq<Stream>
    var loop: LoopPc
    var lock: Lock
    var inLog: seq<Rpc>
    var outLog: seq<Out>
    var workers: seq<Worker>
    var writer: Option<Out>
    var ctxDone: bool
    var handed: seq<Out>             // history
    var lost: seq<Out>               // history

    function State(): Server
      reads this
    {
      Server(inLog, loop, lock, streams, all, workers, writer, ctxDone, handed, outLog, lost)
    }

    ghost predicate Valid()
      reads this
    {
      Inv(cfg, State())
    }

    constructor (cfg: Config)
      ensures this.cfg == cfg && State() == Fresh() && Valid()
    {
      this.cfg := cfg;
      streams, all, loop, lock, inLog, outLog := map[], [], Reading, Free, [], [];
      workers, writer, ctxDone := seq(WORKERS, _ => Idle), None, false;
      handed, lost := [], [];
      new;
      Servers.FreshInv(cfg);
    }

    /**
      One turn of the serve loop up to the point where the frame is handed on: a unary worker or the
      dispatch of streams, by the tables of the services.
     */
    method ServeFrame(rpc: Rpc)
      requires Valid() && Enabled(cfg, State(), Read(rpc))
      modifies this`inLog, this`loop
      ensures State() == Next(cfg, old(State()), Read(rpc)) && Valid()
      ensures inLog == old(inLog) + [rpc]
      ensures rpc.header.None? ==> loop == Reading
      ensures rpc.header.Some? ==> Dispatched(cfg, rpc.header.value, |old(inLog)|, loop)
    {
      hide Inv, RouteNext, UnaryReply, HandOver, Signalled, Completed, Dispatched;
      SI.StepKeepsInv(cfg, State(), Read(rpc));
      if rpc.header.Some? {
        RouteDispatches(cfg, rpc.header.value, |inLog|);
      }
      inLog := inLog + [rpc];
      if rpc.header.None? {
        return;
      }
      var h := rpc.header.value;
      var parsed := ParseRawMethod(h.fullMethod);
      if parsed.None? {
        return;
      }
      if h.destination != cfg.id {
        return;
      }
      var (service, name) := parsed.value;
      if service !in cfg.services {
        return;
      }
      if name in cfg.services[service].methods {
        loop := HandingUnary(|inLog| - 1);
        return;
      }
      if name in cfg.services[service].streams {
        loop := Routing(|inLog| - 1);
      }
    }

    /** Where the serve loop goes with the frame at position `r`, by the tables. */
    static ghost predicate Dispatched(cfg: Config, header: RequestHeader, r: nat, loop: LoopPc) {
      && (loop == HandingUnary(r) || loop == Routing(r) || loop == Reading)
      && (forall service, name :: '/' !in name && header.fullMethod == FullMethod(service, name) ==>
            && (loop == HandingUnary(r) <==>
                  header.destination == cfg.id && service in cfg.services && name in cfg.services[service].methods)
            && (loop == Routing(r) <==>
                  && header.destination == cfg.id && service in cfg.services
                  && name in cfg.services[service].streams && name !in cfg.services[service].methods))
    }

    static lemma RouteDispatches(cfg: Config, header: RequestHeader, r: nat)
      ensures Dispatched(cfg, header, r, match RouteHeader(cfg, header)
                                         case Ignored => Reading
                                         case UnaryMethod => HandingUnary(r)
                                         case StreamMethod => Routing(r))
    {
      hide RouteHeader;
      forall service, name | '/' !in name && header.fullMethod == FullMethod(service, name)
        ensures RouteHeader(cfg, header).UnaryMethod? <==>
                header.destination == cfg.id && service in cfg.services && name in cfg.services[service].methods
        ensures RouteHeader(cfg, header).StreamMethod? <==>
                && header.destination == cfg.id && service in cfg.services
                && name in cfg.services[service].streams && name !in cfg.services[service].methods
      {
        RouteMeans(cfg, header, service, name);
      }
    }

    /**
      `processUnaryRpc` around the handler's results; `None` is the panic on a header that does not
      decode. The reply frame is that of `UnaryReply`.
     */
    method ProcessUnaryRpc(rpc: Rpc, response: Option<Body>, error: Option<Status>, headers: Metadata, trailers: Metadata)
      returns (reply: Option<Rpc>, outcome: UnaryOutcome)
      requires rpc.header.Some?
      ensures reply.None? <==> MetadataCodec.Decode(rpc.header.value.headers).None?
      ensures reply.Some? ==>
                && reply.value == UnaryReply(rpc, outcome)
                && reply.value.id == rpc.id && reply.value.body == response && reply.value.status == error
                && reply.value.reset.None? && reply.value.header.Some? && reply.value.trailer.Some?
                && MetadataCodec.Encodes(reply.value.header.value.headers, [headers])
                && MetadataCodec.Encodes(reply.value.trailer.value.metadata, [trailers])
                && outcome.response == response && outcome.error == error
                && MetadataCodec.Encodes(outcome.headers, [headers]) && MetadataCodec.Encodes(outcome.trailers, [trailers])
    {
      hide MetadataCodec.Decode, MetadataCodec.Encodes, ReplyMethod;
      outcome := UnaryOutcome(response, error, [], []);
      var h := rpc.header.value;
      var ctx := Timeouts.ContextFromHeaders(h.headers);
      if ctx.None? {
        return None, outcome;
      }
      var respH := MetadataCodec.ToKeyValue([headers]);
      var respHeader := RequestHeader(ReplyMethod(h.fullMethod), respH, h.destination, h.source, [], None);
      if |h.proxyRecord| > 1 {
        respHeader := respHeader.(proxyNext := Some(h.proxyRecord[..|h.proxyRecord| - 1]));
      }
      var respTrailer := MetadataCodec.ToKeyValue([trailers]);
      outcome := UnaryOutcome(response, error, respH, respTrailer);
      reply := Some(Rpc(rpc.id, Some(respHeader), error, response, Some(Trailer(respTrailer)), None));
    }

    /** `resetStream`: the reset goes straight to the transport. */
    method ResetStream(r: nat, writeOk: bool)
      requires r < |inLog| && inLog[r].header.Some?
      modifies this`outLog
      ensures outLog == if writeOk then old(outLog) + [Out(FromReset(r), ResetReply(inLog[r]))] else old(outLog)
    {
      var h := inLog[r].header.value;
      var header := RequestHeader(h.fullMethod, [], h.destination, h.source, [], None);
      if |h.proxyRecord| > 1 {
        header := header.(proxyNext := Some(h.proxyRecord[..|h.proxyRecord| - 1]));
      }
      if writeOk {
        outLog := outLog + [Out(FromReset(r), Rpc(inLog[r].id, Some(header), None, None, Some(Trailer([])), Some(RstStream)))];
      }
    }

    /** A reset, or the end of serving when it cannot be written. */
    method RejectFrame(r: nat, writeOk: bool)
      requires r < |inLog| && inLog[r].header.Some?
      modifies this`outLog, this`loop, this`ctxDone
      ensures outLog == if writeOk then old(outLog) + [Out(FromReset(r), ResetReply(inLog[r]))] else old(outLog)
      ensures loop == (if writeOk then Reading else Stopped) && ctxDone == (old(ctxDone) || !writeOk)
    {
      ResetStream(r, writeOk);
      loop := if writeOk then Reading else Stopped;
      ctxDone := ctxDone || !writeOk;
    }

    /**
      `processStreamingRpc` for the frame read last. When the frame goes to a live stream the mutex
      stays held until `PushFrame`; `writeOk` is the outcome of writing a reset, if it comes to that.
     */
    method ProcessStreamingRpc(writeOk: bool)
      requires Valid() && Enabled(cfg, State(), RouteFrame(writeOk))
      modifies this
      ensures State() == Next(cfg, old(State()), RouteFrame(writeOk)) && Valid()
    {
      hide Inv, RouteOf, ReplyMethod, ResetReply, MetadataCodec.Decode, Timeouts.FirstTimeout, Signalled, Completed, HandOver, UnaryReply, AfterRead;
      SI.StepKeepsInv(cfg, State(), RouteFrame(writeOk));
      var r := loop.r;
      var rpc := inLog[r];
      if rpc.id in streams {
        var n := streams[rpc.id];
        if IsReset(rpc) {
          all := all[n := all[n].(cancelled := true)];
          loop := Reading;
        } else {
          lock, loop := HeldByServe, Pushing(n, r);
        }
        return;
      }
      if IsReset(rpc) {
        loop := Reading;
        return;
      }
      if rpc.body.Some? {
        RejectFrame(r, writeOk);
        return;
      }
      if rpc.trailer.Some? {
        loop := Reading;
        return;
      }
      var ctx := Timeouts.ContextFromHeaders(rpc.header.value.headers);
      if ctx.None? {
        RejectFrame(r, writeOk);
        return;
      }
      streams := streams[rpc.id := |all|];
      all := all + [StartStream(rpc, r)];
      loop := Reading;
    }

    /** The `select` under the mutex: the channel send, once there is room, or a context that is done and ends the serving. */
    method PushFrame(arm: Step)
      requires Valid() && loop.Pushing? && (arm.PushIn? || arm.StopServing?) && Enabled(cfg, State(), arm)
      modifies this
      ensures State() == Next(cfg, old(State()), arm) && Valid()
    {
      hide Inv, RouteNext, UnaryReply, AfterRead, HandOver, Opens, RouteOf, Signalled, Completed;
      SI.StepKeepsInv(cfg, State(), arm);
      if arm.StopServing? {
        lock, loop, ctxDone := Free, Stopped, true;
        return;
      }
      var n, rpc := loop.n, inLog[loop.r];
      all := all[n := all[n].(ch := all[n].ch.(sent := all[n].ch.sent + [rpc]))];
      lock, loop := Free, Reading;
    }

    /** The handler of an id, if it is in the table, is cancelled and its token sent. */
    method SignalDone(id: nat)
      requires id in streams ==> streams[id] < |all|
      modifies this`all
      ensures all == Signalled(old(State()), id)
    {
      if id in streams {
        var n := streams[id];
        all := all[n := all[n].(cancelled := true, tokens := all[n].tokens + 1, tokensSent := all[n].tokensSent + 1)];
      }
    }

    /** `unregisterStream` by the goroutine of stream `n`, up to the token, with the mutex taken. */
    method BeginUnregister(n: nat)
      requires Valid() && Enabled(cfg, State(), Unregister(n))
      modifies this`all, this`lock
      ensures State() == Next(cfg, old(State()), Unregister(n)) && Valid()
    {
      hide Inv, RouteNext, UnaryReply, AfterRead, HandOver, Completed, Opens, RouteOf;
      SI.StepKeepsInv(cfg, State(), Unregister(n));
      lock := HeldByUnregister(n);
      SignalDone(all[n].id);
      all := all[n := all[n].(pc := Unregistering)];
    }

    /** The rest of `unregisterStream`: the entry goes, and the mutex is free again. */
    method EndUnregister(n: nat)
      requires Valid() && Enabled(cfg, State(), Delete(n))
      modifies this`all, this`lock, this`streams
      ensures State() == Next(cfg, old(State()), Delete(n)) && Valid()
    {
      hide Inv, RouteNext, UnaryReply, AfterRead, HandOver, Completed, Opens, RouteOf, Signalled;
      SI.StepKeepsInv(cfg, State(), Delete(n));
      streams := streams - {all[n].id};
      all := all[n := all[n].(pc := Gone)];
      lock := Free;
    }

    // ----- the end of a connection

    /** One step of another goroutine. */
    method Do(step: Step)
      requires Valid() && Enabled(cfg, State(), step)
      modifies this
      ensures State() == Next(cfg, old(State()), step) && Valid()
    {
      hide Inv, Next, Enabled;
      SI.StepKeepsInv(cfg, State(), step);
      var s := Next(cfg, State(), step);
      inLog, loop, lock, streams, all, workers, writer := s.inLog, s.loop, s.lock, s.table, s.all, s.workers, s.writer;
      ctxDone, handed, outLog, lost := s.ctxDone, s.handed, s.outLog, s.lost;
    }

    /** Stream `n` moved on; the table, the loop and the mutex are as they were. */
    static predicate Moved(a: Server, b: Server, n: nat)
      requires n < |a.all|
    {
      && b.table == a.table && b.loop == a.loop && b.lock == a.lock && |b.all| == |a.all|
      && b.all[n].id == a.all[n].id && (a.all[n].cancelled ==> b.all[n].cancelled)
    }

    /** A call in progress completes: its context is cancelled, so it need not reach the writer. */
    method FinishCall(n: nat)
      requires Valid() && n < |all| && all[n].busy.Some? && all[n].cancelled
      modifies this
      ensures Valid() && Moved(old(State()), State(), n)
      ensures all[n].busy.None? && all[n].result == old(all[n]).result
      ensures all[n].pc == if old(all[n]).busy.value.SendTrailer? then Trailed else old(all[n]).pc
    {
      hide Inv, RouteNext, UnaryReply, AfterRead, HandOver, Opens, RouteOf, Signalled;
      Do(Complete(n));
    }

    /** The handler of a cancelled stream returns, and its goroutine sends the trailer. */
    method FinishHandler(n: nat, result: Option<Status>)
      requires Valid() && n < |all| && all[n].busy.None? && all[n].cancelled && all[n].pc.Running?
      modifies this
      ensures Valid() && Moved(old(State()), State(), n) && all[n].pc.Returned? && all[n].busy.None? && all[n].result.Some?
    {
      hide Inv, RouteNext, UnaryReply, AfterRead, HandOver, Opens, RouteOf, Signalled;
      Do(Return(n, result));
    }

    method FinishTrailer(n: nat)
      requires Valid() && n < |all| && all[n].busy.None? && all[n].cancelled && all[n].pc.Returned? && all[n].result.Some?
      modifies this
      ensures Valid() && Moved(old(State()), State(), n) && all[n].pc.Trailed? && all[n].busy.None?
    {
      hide Inv, RouteNext, UnaryReply, AfterRead, HandOver, Opens, RouteOf, Signalled, MetadataCodec.Encodes;
      var kvs := MetadataCodec.ToKeyValue(all[n].ss.headers);
      var trailerKvs := MetadataCodec.ToKeyValue(all[n].ss.trailers);
      Do(Trail(n, kvs, trailerKvs));
      FinishCall(n);
    }

    method LeaveStream(n: nat)
      requires Valid() && n < |all| && all[n].pc.Trailed?
      modifies this
      ensures Valid() && Moved(old(State()), State(), n) && all[n].pc.Leaving?
    {
      hide Inv, RouteNext, UnaryReply, AfterRead, HandOver, Opens, RouteOf, Signalled;
      Do(Leave(n));
    }

    /** What the invariant says about the goroutine of a live stream while the mutex is free. */
    lemma LiveStream(n: nat)
      requires Valid() && lock.Free? && n in streams.Values
      ensures n < |all| && !all[n].pc.Gone? && !all[n].pc.Unregistering?
      ensures all[n].id in streams && streams[all[n].id] == n
      ensures all[n].pc.Running? <==> all[n].result.None?
      ensures all[n].pc.Trailing? <==> all[n].busy.Some? && all[n].busy.value.SendTrailer?
    {
      hide Inv, Opens, RouteOf, WrittenOk, Fed;
      SI.TableFacts(cfg, State());
      SI.StreamFacts(cfg, State(), n);
    }

    /** The goroutine of a cancelled stream, given that its handler returns when cancelled. */
    method RunToLeave(n: nat, result: Option<Status>)
      requires Valid() && lock.Free? && n in streams.Values && n < |all| && all[n].cancelled
      modifies this
      ensures Valid() && n < |old(all)| && Moved(old(State()), State(), n) && all[n].pc.Leaving?
    {
      hide Inv;
      LiveStream(n);
      if all[n].busy.Some? && !all[n].pc.Leaving? {
        FinishCall(n);
      }
      if all[n].pc.Running? {
        FinishHandler(n, result);
      }
      if all[n].pc.Returned? {
        FinishTrailer(n);
      }
      if all[n].pc.Trailed? {
        LeaveStream(n);
      }
    }

    /** One stream is picked and cancelled. */
    method CancelOne(n: nat)
      requires Valid() && Enabled(cfg, State(), Pick(n))
      modifies this`all, this`loop
      ensures State() == Next(cfg, old(State()), Pick(n)) && Valid()
    {
      hide Inv, RouteNext, UnaryReply, AfterRead, HandOver, Opens, RouteOf, Signalled, Completed;
      SI.StepKeepsInv(cfg, State(), Pick(n));
      all := all[n := all[n].(cancelled := true)];
      loop := Waiting(n);
    }

    /** The done token of the stream waited for is received. */
    method ReceiveDone()
      requires Valid() && Enabled(cfg, State(), TakeToken)
      modifies this`all, this`loop
      ensures State() == Next(cfg, old(State()), TakeToken) && Valid()
    {
      hide Inv, RouteNext, UnaryReply, AfterRead, HandOver, Opens, RouteOf, Signalled, Completed;
      SI.StepKeepsInv(cfg, State(), TakeToken);
      all := all[loop.n := all[loop.n].(tokens := all[loop.n].tokens - 1)];
      loop := Stopped;
    }

    /** The goroutine of a leaving stream unregisters it: one token, and the entry of its id is gone. */
    method Depart(n: nat)
      requires Valid() && lock.Free? && n < |all| && all[n].pc.Leaving?
      modifies this
      ensures Valid() && lock.Free? && loop == old(loop) && n < |all| && all[n].tokens == 1
      ensures streams == old(streams) - {old(all[n]).id}
    {
      hide Inv, RouteNext, UnaryReply, AfterRead, HandOver, Opens, RouteOf, Completed;
      SI.LeavingFacts(cfg, State(), n);
      BeginUnregister(n);
      EndUnregister(n);
    }

    /** One turn of the wait: cancel a stream, let it end with any result, and receive its token. */
    method WaitForOne(n: nat, result: Option<Status>)
      requires Valid() && loop.Stopped? && lock.Free? && n in streams.Values
      modifies this
      ensures Valid() && loop.Stopped? && lock.Free? && streams.Keys < old(streams.Keys)
    {
      hide Inv, RouteNext, UnaryReply, AfterRead, HandOver, Opens, RouteOf, Signalled, Completed;
      LiveStream(n);
      CancelOne(n);
      RunToLeave(n, result);
      Depart(n);
      ReceiveDone();
    }

    /**
      `cancelAndWaitForStreams`, given that handlers return when they are cancelled: every turn
      strictly shrinks the table, no wait is in vain, and the table ends up empty.
     */
    method CancelAndWaitForStreams(result: Option<Status>)
      requires Valid() && loop.Stopped? && lock.Free?
      modifies this
      ensures Valid() && streams == map[] && loop.AllDone? && lock.Free?
    {
      hide Inv, RouteNext, UnaryReply, AfterRead, HandOver, Opens, RouteOf, Signalled, Completed;
      while |streams| > 0
        invariant Valid() && loop.Stopped? && lock.Free?
        decreases streams.Keys
      {
        var id :| id in streams;
        WaitForOne(streams[id], result);
      }
      Do(Finish);
    }
  }
}
