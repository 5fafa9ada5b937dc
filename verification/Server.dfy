/**
  The server side of a connection (server.go, `handler`): the serve loop with its dispatch, the 8
  unary workers, the single writer, one goroutine per stream, and the wait at the end; against an
  arbitrary client. Steps are the sections that run without interruption.
 */
module Servers {
  import opened Frames
  import opened Logs
  import opened Methods
  import Mux = Multiplexers
  import SS = ServerStreams
  import MetadataCodec

  const WORKERS := 8

  /** What a unary handler returned: a marshalled response, an error status, headers and trailers. */
  datatype UnaryOutcome = UnaryOutcome(
    response: Option<Body>, error: Option<Status>, headers: seq<KeyValue>, trailers: seq<KeyValue>)

  /** Where an outgoing frame comes from; a request is named by its position in the frames read. */
  datatype Origin = FromStream(n: nat) | FromUnary(r: nat, outcome: UnaryOutcome) | FromReset(r: nat)

  datatype Out = Out(origin: Origin, rpc: Rpc)

  datatype Worker = Idle | Busy(r: nat) | Replying(r: nat, outcome: UnaryOutcome)

  datatype LoopPc =
    | Reading
    | HandingUnary(r: nat)
    | Routing(r: nat)            // a stream frame, about to take the mutex
    | Pushing(n: nat, r: nat)    // holds the mutex, waits for room in the stream's channel
    | Stopped                    // serving is over: about to look at the table
    | Waiting(n: nat)            // waits for the done token of a stream
    | AllDone

  datatype Lock = Free | HeldByServe | HeldByUnregister(n: nat)

  datatype StreamPc =
    | Running                    // the application's handler
    | Returned
    | Trailing                   // in `SendTrailer`
    | Trailed
    | Leaving                    // context cancelled, about to unregister
    | Unregistering              // holds the mutex, done token sent
    | Gone

  /** One started stream: its `streamHandler`, its goroutine and its server stream. */
  datatype Stream = Stream(
    id: nat,
    startAt: nat,                // position of its opening frame in the frames read
    ch: Mux.Chan,
    tokens: nat,                 // in the `done` channel
    cancelled: bool,
    ss: SS.State,
    busy: Option<SS.Call>,       // a call that holds the stream's lock and has not completed
    pc: StreamPc,
    result: Option<Option<Status>>,
    tokensSent: nat)             // history

  datatype Server = Server(
    inLog: seq<Rpc>,             // frames read from the transport
    loop: LoopPc,
    lock: Lock,
    table: map<nat, nat>,        // id -> position in `all`
    all: seq<Stream>,            // every stream ever started
    workers: seq<Worker>,
    writer: Option<Out>,         // the frame that the writer goroutine is writing
    ctxDone: bool,
    handed: seq<Out>,            // history: frames handed to the writer
    outLog: seq<Out>,            // frames written to the transport
    lost: seq<Out>)              // history: frames whose write by the writer failed

  datatype Step =
    | Read(rpc: Rpc)
    | Hand(i: nat)
    | RouteFrame(ok: bool)
    | PushIn
    | StopServing
    | Compute(i: nat, outcome: UnaryOutcome)
    | HandReply(i: nat)
    | Write(ok: bool)
    | Call(n: nat, call: SS.Call)
    | Return(n: nat, result: Option<Status>)
    | Trail(n: nat, kvs: seq<KeyValue>, trailerKvs: seq<KeyValue>)
    | HandFrame(n: nat)
    | Complete(n: nat)
    | Receive(n: nat)
    | CancelStream(n: nat)
    | Leave(n: nat)
    | Unregister(n: nat)
    | Delete(n: nat)
    | Pick(n: nat)
    | TakeToken
    | Finish

  function Fresh(): Server {
    Server([], Reading, Free, map[], [], seq(WORKERS, _ => Idle), None, false, [], [], [])
  }

  // ----- replies

  /** The route of a reply: the recorded proxies but the last, when there is more than one. */
  function ReplyRoute(record: seq<string>): Option<seq<string>> {
    if |record| > 1 then Some(record[..|record| - 1]) else None
  }

  function ReplyMethod(raw: string): string {
    var parsed := ParseRawMethod(raw);
    if parsed.None? then raw else FullMethod(parsed.value.0, parsed.value.1)
  }

  /** `processUnaryRpc`: the reply frame for a request and what its handler returned. */
  function UnaryReply(req: Rpc, outcome: UnaryOutcome): Rpc
    requires req.header.Some?
  {
    var h := req.header.value;
    Rpc(req.id,
        Some(RequestHeader(ReplyMethod(h.fullMethod), outcome.headers, h.destination, h.source, [],
                           ReplyRoute(h.proxyRecord))),
        outcome.error, outcome.response, Some(Trailer(outcome.trailers)), None)
  }

  /** A unary reply carries what the handler gave, each in its place. */
  lemma UnaryReplyMeans(req: Rpc, outcome: UnaryOutcome)
    requires req.header.Some?
    ensures var reply := UnaryReply(req, outcome);
            && reply.id == req.id && reply.status == outcome.error && reply.body == outcome.response && reply.reset.None?
            && reply.trailer.Some? && reply.trailer.value.metadata == outcome.trailers
            && reply.header.Some? && reply.header.value.headers == outcome.headers
            && reply.header.value.fullMethod == ReplyMethod(req.header.value.fullMethod) && reply.header.value.proxyRecord == []
            && reply.header.value.source == req.header.value.destination
            && reply.header.value.destination == req.header.value.source
  {
  }

  /** A reply to "/service/name", or to "service/name", names "/service/name". */
  lemma ReplyMethodMeans(raw: string, service: string, name: string)
    requires '/' !in name
    requires || raw == "/" + service + "/" + name
             || (raw == service + "/" + name && |service| > 0 && service[0] != '/')
    ensures ReplyMethod(raw) == "/" + service + "/" + name
  {
    SplitParses(raw, service, name);
  }

  /** `resetStream`: the frame that tells the caller to tear the stream down. */
  function ResetReply(req: Rpc): Rpc
    requires req.header.Some?
  {
    var h := req.header.value;
    Rpc(req.id, Some(RequestHeader(h.fullMethod, [], h.destination, h.source, [], ReplyRoute(h.proxyRecord))),
        None, None, Some(Trailer([])), Some(RstStream))
  }

  // ----- dispatch

  /** A reset answers for the id and the method of its cause, goes back to its source, and has an empty trailer. */
  lemma ResetReplyMeans(req: Rpc)
    requires req.header.Some?
    ensures var reset := ResetReply(req);
            && reset.id == req.id && reset.reset == Some(RstStream) && reset.trailer == Some(Trailer([]))
            && reset.status.None? && reset.body.None? && reset.header.Some?
            && reset.header.value.fullMethod == req.header.value.fullMethod && reset.header.value.headers == []
            && reset.header.value.source == req.header.value.destination
            && reset.header.value.destination == req.header.value.source && reset.header.value.proxyRecord == []
  {
  }

  /** What `processStreamingRpc` does with a frame, given whether its id is in the table. */
  datatype StreamAction = CancelIt | PushIt | IgnoreIt | ResetIt | StartIt

  function ActionFor(known: bool, rpc: Rpc): StreamAction {
    if known then (if IsReset(rpc) then CancelIt else PushIt)
    else if IsReset(rpc) then IgnoreIt
    else if rpc.body.Some? then ResetIt
    else if rpc.trailer.Some? then IgnoreIt
    else if rpc.header.None? || MetadataCodec.Decode(rpc.header.value.headers).None? then ResetIt
    else StartIt
  }

  /** The stream that an opening frame at position `r` starts. */
  function StartStream(rpc: Rpc, r: nat): Stream
    requires rpc.header.Some?
  {
    var h := rpc.header.value;
    Stream(rpc.id, r, Mux.Chan([], 0, false), 0, false,
           SS.Fresh(rpc.id, ReplyMethod(h.fullMethod), h.destination, h.source), None, Running, None, 0)
  }

  predicate ValidStream(s: Server, n: nat) {
    n < |s.all|
  }

  predicate Routable(cfg: Config, s: Server, r: nat) {
    r < |s.inLog| && s.inLog[r].header.Some? && RouteOf(cfg, s.inLog[r]).StreamMethod?
  }

  predicate Answerable(cfg: Config, s: Server, r: nat) {
    r < |s.inLog| && s.inLog[r].header.Some? && RouteOf(cfg, s.inLog[r]).UnaryMethod?
  }

  ghost predicate Enabled(cfg: Config, s: Server, step: Step) {
    match step
    case Read(_) => s.loop.Reading?
    case Hand(i) => s.loop.HandingUnary? && i < |s.workers| && s.workers[i].Idle?
    case RouteFrame(_) =>
      && s.loop.Routing? && s.lock.Free? && Routable(cfg, s, s.loop.r)
      && (s.inLog[s.loop.r].id in s.table ==> ValidStream(s, s.table[s.inLog[s.loop.r].id]))
    case PushIn => s.loop.Pushing? && ValidStream(s, s.loop.n) && s.loop.r < |s.inLog| && Mux.HasRoom(s.all[s.loop.n].ch)
    case StopServing => s.loop.Reading? || s.loop.HandingUnary? || s.loop.Pushing?
    case Compute(i, _) => i < |s.workers| && s.workers[i].Busy?
    case HandReply(i) =>
      i < |s.workers| && s.workers[i].Replying? && s.writer.None? && Answerable(cfg, s, s.workers[i].r)
    case Write(_) => s.writer.Some?
    case Call(n, call) => ValidStream(s, n) && s.all[n].busy.None? && !call.SendTrailer? && SS.Legal(s.all[n].ss, call)
    case Return(n, _) => ValidStream(s, n) && s.all[n].pc.Running?
    case Trail(n, kvs, trailerKvs) =>
      && ValidStream(s, n) && s.all[n].pc.Returned? && s.all[n].busy.None? && s.all[n].result.Some?
      && SS.Legal(s.all[n].ss, SS.SendTrailer(s.all[n].result.value, kvs, trailerKvs))
    case HandFrame(n) =>
      ValidStream(s, n) && s.all[n].busy.Some? && SS.Writes(s.all[n].ss, s.all[n].busy.value) && s.writer.None?
    case Complete(n) =>
      && ValidStream(s, n) && s.all[n].busy.Some?
      && (SS.Writes(s.all[n].ss, s.all[n].busy.value) ==> s.all[n].cancelled)
    case Receive(n) => ValidStream(s, n) && Mux.HasItem(s.all[n].ch)
    case CancelStream(n) => ValidStream(s, n)
    case Leave(n) => ValidStream(s, n) && s.all[n].pc.Trailed?
    case Unregister(n) =>
      && ValidStream(s, n) && s.all[n].pc.Leaving? && s.lock.Free?
      && (s.all[n].id in s.table ==>
            ValidStream(s, s.table[s.all[n].id]) && s.all[s.table[s.all[n].id]].tokens == 0)
    case Delete(n) => ValidStream(s, n) && s.lock == HeldByUnregister(n)
    case Pick(n) => s.loop.Stopped? && s.lock.Free? && ValidStream(s, n) && n in s.table.Values
    case TakeToken => s.loop.Waiting? && ValidStream(s, s.loop.n) && s.all[s.loop.n].tokens > 0
    case Finish => s.loop.Stopped? && s.lock.Free? && |s.table| == 0
  }

  /** The call in progress completes, with the trailer's goroutine moving on. */
  function Completed(st: Stream, ok: bool): Stream
    requires st.busy.Some?
  {
    st.(ss := SS.Apply(st.ss, st.busy.value, ok), busy := None,
        pc := if st.busy.value.SendTrailer? then Trailed else st.pc)
  }

  function Put(s: Server, n: nat, st: Stream): Server
    requires ValidStream(s, n)
  {
    s.(all := s.all[n := st])
  }

  /** A frame handed to the writer. */
  function HandOver(s: Server, out: Out): Server {
    s.(writer := Some(out), handed := s.handed + [out])
  }

  function AfterRead(cfg: Config, rpc: Rpc, r: nat): LoopPc {
    match RouteOf(cfg, rpc)
    case Ignored => Reading
    case UnaryMethod => HandingUnary(r)
    case StreamMethod => Routing(r)
  }

  function RouteNext(cfg: Config, s: Server, ok: bool): Server
    requires Enabled(cfg, s, RouteFrame(ok))
  {
    var r := s.loop.r;
    var rpc := s.inLog[r];
    match ActionFor(rpc.id in s.table, rpc)
    case CancelIt => Put(s, s.table[rpc.id], s.all[s.table[rpc.id]].(cancelled := true)).(loop := Reading)
    case PushIt => s.(loop := Pushing(s.table[rpc.id], r), lock := HeldByServe)
    case IgnoreIt => s.(loop := Reading)
    case ResetIt =>
      if ok then s.(loop := Reading, outLog := s.outLog + [Out(FromReset(r), ResetReply(rpc))])
      else s.(loop := Stopped, ctxDone := true)
    case StartIt =>
      s.(loop := Reading, table := s.table[rpc.id := |s.all|], all := s.all + [StartStream(rpc, r)])
  }

  /** The token sent, and the context cancelled, of the stream that the table has for this id. */
  function Signalled(s: Server, id: nat): seq<Stream>
    requires id in s.table ==> ValidStream(s, s.table[id])
  {
    if id !in s.table then s.all
    else
      var st := s.all[s.table[id]];
      s.all[s.table[id] := st.(cancelled := true, tokens := st.tokens + 1, tokensSent := st.tokensSent + 1)]
  }

  function Next(cfg: Config, s: Server, step: Step): Server
    requires Enabled(cfg, s, step)
  {
    match step
    case Read(rpc) => s.(inLog := s.inLog + [rpc], loop := AfterRead(cfg, rpc, |s.inLog|))
    case Hand(i) => s.(workers := s.workers[i := Busy(s.loop.r)], loop := Reading)
    case RouteFrame(ok) => RouteNext(cfg, s, ok)
    case PushIn =>
      var st := s.all[s.loop.n];
      Put(s, s.loop.n, st.(ch := st.ch.(sent := st.ch.sent + [s.inLog[s.loop.r]]))).(loop := Reading, lock := Free)
    case StopServing =>
      s.(loop := Stopped, ctxDone := true, lock := if s.loop.Pushing? then Free else s.lock)
    case Compute(i, outcome) => s.(workers := s.workers[i := Replying(s.workers[i].r, outcome)])
    case HandReply(i) =>
      var w := s.workers[i];
      HandOver(s, Out(FromUnary(w.r, w.outcome), UnaryReply(s.inLog[w.r], w.outcome))).(workers := s.workers[i := Idle])
    case Write(ok) =>
      if ok then s.(writer := None, outLog := s.outLog + [s.writer.value])
      else s.(writer := None, ctxDone := true, lost := s.lost + [s.writer.value])
    case Call(n, call) => Put(s, n, s.all[n].(busy := Some(call)))
    case Return(n, result) => Put(s, n, s.all[n].(pc := Returned, result := Some(result)))
    case Trail(n, kvs, trailerKvs) =>
      Put(s, n, s.all[n].(pc := Trailing, busy := Some(SS.SendTrailer(s.all[n].result.value, kvs, trailerKvs))))
    case HandFrame(n) =>
      HandOver(Put(s, n, Completed(s.all[n], true)), Out(FromStream(n), SS.Frame(s.all[n].ss, s.all[n].busy.value)))
    case Complete(n) =>
      Put(s, n, Completed(s.all[n], !SS.Writes(s.all[n].ss, s.all[n].busy.value)))
    case Receive(n) => Put(s, n, s.all[n].(ch := s.all[n].ch.(taken := s.all[n].ch.taken + 1)))
    case CancelStream(n) => Put(s, n, s.all[n].(cancelled := true))
    case Leave(n) => Put(s, n, s.all[n].(pc := Leaving, cancelled := true))
    case Unregister(n) =>
      var all := Signalled(s, s.all[n].id);
      s.(lock := HeldByUnregister(n), all := all[n := all[n].(pc := Unregistering)])
    case Delete(n) => Put(s, n, s.all[n].(pc := Gone)).(lock := Free, table := s.table - {s.all[n].id})
    case Pick(n) => Put(s, n, s.all[n].(cancelled := true)).(loop := Waiting(n))
    case TakeToken => Put(s, s.loop.n, s.all[s.loop.n].(tokens := s.all[s.loop.n].tokens - 1)).(loop := Stopped)
    case Finish => s.(loop := AllDone)
  }

  // ----- invariant

  /** A frame that may start a stream. */
  predicate Opens(cfg: Config, rpc: Rpc) {
    && IsOpening(rpc) && rpc.header.Some? && RouteOf(cfg, rpc).StreamMethod?
    && MetadataCodec.Decode(rpc.header.value.headers).Some?
  }

  /** The frames of `log` that the serve loop passes to the stream with this id. */
  function Passed(cfg: Config, id: nat, log: seq<Rpc>): seq<Rpc> {
    if |log| == 0 then []
    else
      var last := log[|log| - 1];
      Passed(cfg, id, log[..|log| - 1])
      + (if last.id == id && RouteOf(cfg, last).StreamMethod? && !IsReset(last) then [last] else [])
  }

  /** Trailer frames carry the status of the handler's result. */
  predicate WrittenOk(st: Stream) {
    forall i :: 0 <= i < |st.ss.written| ==>
                  && st.ss.written[i].id == st.id && st.ss.written[i].reset.None?
                  && (st.ss.written[i].trailer.Some? ==>
                        st.result.Some? && st.ss.written[i].status == Some(SS.TrailerStatus(st.result.value)))
  }

  /** One stream, on its own. */
  predicate StreamOk(cfg: Config, inLog: seq<Rpc>, st: Stream) {
    && st.startAt < |inLog| && Opens(cfg, inLog[st.startAt]) && inLog[st.startAt].id == st.id
    && st.ss.id == st.id
    && WrittenOk(st)
    && st.ch.taken <= |st.ch.sent|
    && (st.pc.Running? <==> st.result.None?)
    && (st.pc.Trailing? <==> st.busy.Some? && st.busy.value.SendTrailer?)
    && (st.pc.Trailing? ==> st.busy.value.result == st.result.value)
    && st.tokens <= st.tokensSent
    && st.tokensSent == (if st.pc.Unregistering? || st.pc.Gone? then 1 else 0)
  }

  predicate StreamsOk(cfg: Config, inLog: seq<Rpc>, all: seq<Stream>) {
    forall n :: 0 <= n < |all| ==> StreamOk(cfg, inLog, all[n])
  }

  /**
    The table: the entry for an id is the one live stream with that id. The mutex is held by the
    serve loop exactly while it pushes, and by a leaving stream exactly while it unregisters.
   */
  predicate TableOk(table: map<nat, nat>, all: seq<Stream>, lock: Lock, loop: LoopPc) {
    && (forall id :: id in table ==> table[id] < |all| && all[table[id]].id == id && !all[table[id]].pc.Gone?)
    && (forall n :: 0 <= n < |all| && !all[n].pc.Gone? ==> all[n].id in table && table[all[n].id] == n)
    && (lock.HeldByServe? <==> loop.Pushing?)
    && (forall n :: 0 <= n < |all| ==> (all[n].pc.Unregistering? <==> lock == HeldByUnregister(n)))
    && (lock.HeldByUnregister? ==> lock.n < |all|)
    && (loop.Pushing? ==> loop.n < |all| && !all[loop.n].pc.Gone?)
    && (loop.Waiting? ==> loop.n < |all|)
  }

  /** How many of the frames read have been dispatched. */
  function Dispatched(inLog: seq<Rpc>, loop: LoopPc): nat {
    if loop.Routing? && |inLog| > 0 then |inLog| - 1 else |inLog|
  }

  predicate StartsOk(all: seq<Stream>, upto: nat) {
    && (forall i, j :: 0 <= i < j < |all| ==> all[i].startAt < all[j].startAt)
    && (forall n :: 0 <= n < |all| ==> all[n].startAt < upto)
  }

  /** The frame that the serve loop is busy with is the last one read. */
  predicate LoopOk(cfg: Config, inLog: seq<Rpc>, all: seq<Stream>, loop: LoopPc) {
    && (loop.Routing? || loop.HandingUnary? || loop.Pushing? ==> loop.r == |inLog| - 1 && inLog[loop.r].header.Some?)
    && (loop.Routing? || loop.Pushing? ==> RouteOf(cfg, inLog[loop.r]).StreamMethod?)
    && (loop.HandingUnary? ==> RouteOf(cfg, inLog[loop.r]).UnaryMethod?)
    && (loop.Pushing? ==> loop.n < |all| && inLog[loop.r].id == all[loop.n].id && !IsReset(inLog[loop.r]))
  }

  predicate Serving(loop: LoopPc) {
    loop.Reading? || loop.HandingUnary? || loop.Routing? || loop.Pushing?
  }

  /** The frame being pushed to stream `n`, if any. */
  function PushingTo(inLog: seq<Rpc>, loop: LoopPc, n: nat): seq<Rpc> {
    if loop.Pushing? && loop.n == n && loop.r < |inLog| then [inLog[loop.r]] else []
  }

  predicate FedWith(sent: seq<Rpc>, live: bool, pushing: seq<Rpc>, passed: seq<Rpc>) {
    if live then sent + pushing == passed else sent <= passed
  }

  /**
    What a stream's channel was sent, against what was dispatched for its id after its opening
    frame: all of it, but for the frame being pushed, while it is live and the loop serves; a
    prefix of it otherwise.
   */
  predicate Fed(cfg: Config, inLog: seq<Rpc>, loop: LoopPc, n: nat, st: Stream) {
    && st.startAt < Dispatched(inLog, loop) <= |inLog|
    && FedWith(st.ch.sent, !st.pc.Gone? && Serving(loop), PushingTo(inLog, loop, n),
               Passed(cfg, st.id, inLog[st.startAt + 1..Dispatched(inLog, loop)]))
  }

  predicate FeedOk(cfg: Config, inLog: seq<Rpc>, loop: LoopPc, all: seq<Stream>) {
    forall n :: 0 <= n < |all| ==> Fed(cfg, inLog, loop, n, all[n])
  }

  /** The frames of stream `n` in a log of outgoing frames. */
  function From(n: nat, log: seq<Out>): seq<Rpc> {
    if |log| == 0 then []
    else
      var last := log[|log| - 1];
      From(n, log[..|log| - 1]) + (if last.origin == FromStream(n) then [last.rpc] else [])
  }

  /** A frame that is answered with a reset when its id has no live stream: a body, or an opening that does not decode. */
  predicate CausesReset(rpc: Rpc) {
    && rpc.header.Some? && !IsReset(rpc)
    && (rpc.body.Some? || (IsOpening(rpc) && MetadataCodec.Decode(rpc.header.value.headers).None?))
  }

  /** An outgoing frame is what its origin says. */
  predicate OutOk(cfg: Config, inLog: seq<Rpc>, all: seq<Stream>, o: Out) {
    match o.origin
    case FromStream(n) => n < |all| && o.rpc.id == all[n].id && o.rpc.reset.None?
    case FromUnary(r, outcome) =>
      && r < |inLog| && inLog[r].header.Some? && RouteOf(cfg, inLog[r]).UnaryMethod?
      && o.rpc == UnaryReply(inLog[r], outcome)
    case FromReset(r) =>
      && r < |inLog| && inLog[r].header.Some? && RouteOf(cfg, inLog[r]).StreamMethod?
      && CausesReset(inLog[r]) && o.rpc == ResetReply(inLog[r])
  }

  predicate OutsOk(cfg: Config, inLog: seq<Rpc>, all: seq<Stream>, log: seq<Out>) {
    forall i :: 0 <= i < |log| ==> OutOk(cfg, inLog, all, log[i])
  }

  function Held(writer: Option<Out>): seq<Out> {
    if writer.Some? then [writer.value] else []
  }

  /** What a stream handed to the writer was written or lost, in order, but for the frame at the writer. */
  ghost predicate WriterOk(handed: seq<Out>, writer: Option<Out>, outLog: seq<Out>, lost: seq<Out>) {
    && (writer.Some? ==> !writer.value.origin.FromReset?)
    && (forall n: nat :: Accounted(From(n, handed), From(n, Held(writer)), From(n, outLog), From(n, lost)))
  }

  /** What each stream has handed to the writer is what its server stream has written. */
  predicate WritesOk(handed: seq<Out>, all: seq<Stream>) {
    forall n :: 0 <= n < |all| ==> From(n, handed) == all[n].ss.written
  }

  /** The request of unary origin, if any. */
  predicate Answers(o: Out, r: nat) {
    o.origin.FromUnary? && o.origin.r == r
  }

  predicate WorkedOn(w: Worker, r: nat) {
    !w.Idle? && w.r == r
  }

  /** Each unary request is in at most one place: being handed over, at one worker, or answered once. */
  predicate UnaryOk(cfg: Config, inLog: seq<Rpc>, loop: LoopPc, workers: seq<Worker>, handed: seq<Out>) {
    && |workers| == WORKERS
    && (forall i :: 0 <= i < |workers| && !workers[i].Idle? ==>
                      && workers[i].r < |inLog| && inLog[workers[i].r].header.Some?
                      && RouteOf(cfg, inLog[workers[i].r]).UnaryMethod?)
    && (forall i, j :: 0 <= i < j < |workers| && !workers[i].Idle? && !workers[j].Idle? ==> workers[i].r != workers[j].r)
    && (forall i, k :: 0 <= i < |workers| && 0 <= k < |handed| && !workers[i].Idle? ==> !Answers(handed[k], workers[i].r))
    && (forall k, l :: 0 <= k < l < |handed| && handed[k].origin.FromUnary? ==> !Answers(handed[l], handed[k].origin.r))
    && (loop.HandingUnary? ==>
          && (forall i :: 0 <= i < |workers| ==> !WorkedOn(workers[i], loop.r))
          && (forall k :: 0 <= k < |handed| ==> !Answers(handed[k], loop.r)))
    && (forall k :: 0 <= k < |handed| && handed[k].origin.FromUnary? ==> handed[k].origin.r < |inLog|)
  }

  /** What was written, or is being written, was handed over; no request is answered twice on the transport. */
  predicate AnswersOk(handed: seq<Out>, writer: Option<Out>, outLog: seq<Out>) {
    && (writer.Some? ==> writer.value in handed)
    && (forall k :: 0 <= k < |outLog| && !outLog[k].origin.FromReset? ==> outLog[k] in handed)
    && (forall k, l :: 0 <= k < l < |outLog| && outLog[k].origin.FromUnary? ==> !Answers(outLog[l], outLog[k].origin.r))
    && (writer.Some? && writer.value.origin.FromUnary? ==>
          forall k :: 0 <= k < |outLog| ==> !Answers(outLog[k], writer.value.origin.r))
  }

  ghost predicate Inv(cfg: Config, s: Server) {
    && StreamsOk(cfg, s.inLog, s.all)
    && TableOk(s.table, s.all, s.lock, s.loop)
    && StartsOk(s.all, Dispatched(s.inLog, s.loop))
    && LoopOk(cfg, s.inLog, s.all, s.loop)
    && FeedOk(cfg, s.inLog, s.loop, s.all)
    && OutsOk(cfg, s.inLog, s.all, s.handed) && OutsOk(cfg, s.inLog, s.all, s.outLog)
    && (s.writer.Some? ==> OutOk(cfg, s.inLog, s.all, s.writer.value))
    && WriterOk(s.handed, s.writer, s.outLog, s.lost)
    && WritesOk(s.handed, s.all)
    && AnswersOk(s.handed, s.writer, s.outLog)
    && UnaryOk(cfg, s.inLog, s.loop, s.workers, s.handed)
  }

  lemma FreshUnary(cfg: Config)
    ensures UnaryOk(cfg, [], Reading, Fresh().workers, [])
  {
    hide RouteOf, WorkedOn;
  }

  lemma FreshWriter()
    ensures WriterOk([], None, [], []) && AnswersOk([], None, []) && WritesOk([], [])
  {
    var none: seq<Rpc> := [];
    assert none == none + none && IsMerge(none, none, none);
  }

  lemma FreshStreams(cfg: Config)
    ensures StreamsOk(cfg, [], []) && TableOk(map[], [], Free, Reading) && StartsOk([], 0)
    ensures LoopOk(cfg, [], [], Reading) && FeedOk(cfg, [], Reading, []) && OutsOk(cfg, [], [], [])
  {
    hide StreamOk, OutOk, Fed, RouteOf;
  }

  lemma FreshInv(cfg: Config)
    ensures Inv(cfg, Fresh())
  {
    hide StreamsOk, TableOk, StartsOk, LoopOk, FeedOk, OutsOk, WriterOk, AnswersOk, WritesOk, UnaryOk;
    FreshUnary(cfg);
    FreshWriter();
    FreshStreams(cfg);
  }
}
