/**
  The client stream (internal/client/stream.go) as a machine whose steps are the sections that
  run without interruption: the read loop and its deferred close-down, `RecvMsg`, `SendMsg`,
  `CloseSend` and cancellation, in any interleaving. The peer is arbitrary: the frames that the
  read loop gets, and whether each write succeeds, are parameters of the steps.
 */
module ClientStreams {
  import opened Frames
  import opened Logs
  import MetadataCodec

  datatype Identity = Identity(id: nat, fullMethod: string, source: string, destination: string)

  /**
    Where the read loop is. In the three `Closing` states it holds the lock of the protected
    fields, has closed `rCh`, and has still to send the reset, to unregister from the
    multiplexer and cancel the context, and to store the outcome.
   */
  datatype LoopPc =
    | Reading
    | Handling(rpc: Rpc)
    | Offering(body: Body)
    | Ending(err: Option<Error>, trailer: Option<Trailer>)
    | ClosingReset(err: Option<Error>, trailer: Option<Trailer>, sendRst: bool)
    | ClosingUnregister(err: Option<Error>, trailer: Option<Trailer>)
    | ClosingCancel(err: Option<Error>, trailer: Option<Trailer>)
    | ClosingStore(err: Option<Error>, trailer: Option<Trailer>)
    | Finished

  datatype RecvPc = RecvIdle | RecvSelecting | RecvSawClosed

  datatype SendPc = SendIdle | SendWriting(body: Body) | SendUnregistering | SendCancelling

  /** What a call of `RecvMsg` answered. A body that does not unmarshal is used up, and answered with the codec's error. */
  datatype RecvAnswer =
    | Message(body: Body, decoded: bool)
    | ContextError(err: Option<Error>)
    | Stored(err: Option<Error>)

  datatype SendAnswer = Sent(body: Body) | SendFailed | SendStored(err: Option<Error>)

  datatype ClientStream = ClientStream(
    ident: Identity,
    ctxDone: bool,
    header: Option<Metadata>,
    headerErr: Option<Error>,
    ready: int,                 // the count of the `ready` wait group
    done: bool,
    rErr: Option<Error>,
    trailer: Option<Trailer>,
    rChClosed: bool,
    loop: LoopPc,
    recv: RecvPc,
    send: SendPc,
    panicked: bool,
    // histories
    inbox: seq<Rpc>,            // frames the read loop got
    emitted: seq<Rpc>,          // frames this stream wrote
    recvAnswers: seq<RecvAnswer>,
    sendAnswers: seq<SendAnswer>)

  datatype Step =
    | LoopRead(rpc: Rpc)
    | LoopReadError(err: Error)
    | LoopHandle
    | LoopAbort(err: Error)
    | LoopClose
    | LoopReset(ok: bool)
    | LoopUnregister
    | LoopCancel
    | LoopStore
    | RecvCall
    | RecvContextDone(cause: Error)
    | RecvTake(decodes: bool)
    | RecvClosed
    | RecvAfterClosed
    | SendCall(body: Body, marshals: bool)
    | SendWrite(ok: bool)
    | SendUnregister
    | SendCancel
    | CloseSend(ok: bool)
    | Cancel

  function Start(ident: Identity): ClientStream {
    ClientStream(ident, false, None, None, 1, false, None, None, false, Reading, RecvIdle, SendIdle,
                 false, [], [], [], [])
  }

  // ----- pure parts of the source

  /** `toStatusError`: the error as a status; nil for a status whose code is OK. */
  function ToStatusError(err: Error): (r: Option<Error>)
    ensures r.None? <==> err.WithStatus? && err.status.code == 0
    ensures r.Some? ==> r.value.WithStatus? && r.value.status.code != 0
    ensures r.Some? && err.WithStatus? ==> r.value == err
    ensures err.Canceled? <==> r.Some? && !err.WithStatus? && r.value.status.code == 1
    ensures err.Plain? ==> r == Some(WithStatus(Status(2, err.message, [])))
    ensures err.EOF? ==> r.Some? && r.value.status.code == 2
    ensures err.DeadlineExceeded? <==> r.Some? && !err.WithStatus? && r.value.status.code == 4
  {
    match err
    case Canceled => Some(WithStatus(Status(CODE_CANCELLED, "context canceled", [])))
    case DeadlineExceeded => Some(WithStatus(Status(CODE_DEADLINE_EXCEEDED, "context deadline exceeded", [])))
    case WithStatus(st) => if st.code == CODE_OK then None else Some(err)
    case EOF => Some(WithStatus(Status(CODE_UNKNOWN, "EOF", [])))
    case Plain(m) => Some(WithStatus(Status(CODE_UNKNOWN, m, [])))
  }

  /** `errorIfDone`: the end that a frame announces, if it carries a trailer. */
  function ErrorIfDone(rpc: Rpc): Option<Error> {
    if rpc.trailer.None? then None
    else if StatusCode(rpc) == CODE_OK then Some(EOF)
    else Some(WithStatus(rpc.status.value))
  }

  function HeaderOf(rpc: Rpc): seq<KeyValue> {
    if rpc.header.Some? then rpc.header.value.headers else []
  }

  function FrameHeader(ident: Identity): RequestHeader {
    PlainHeader(ident.fullMethod, ident.source, ident.destination)
  }

  function BodyFrame(ident: Identity, body: Body): Rpc {
    Rpc(ident.id, Some(FrameHeader(ident)), None, Some(body), None, None)
  }

  function CloseSendFrame(ident: Identity): Rpc {
    Rpc(ident.id, Some(FrameHeader(ident)), Some(Status(CODE_OK, "OK", [])), None, Some(Trailer([])), None)
  }

  function ResetFrame(ident: Identity): Rpc {
    Rpc(ident.id, Some(FrameHeader(ident)), None, None, None, Some(RstStream))
  }

  // ----- the machine

  predicate Locked(cs: ClientStream) {
    || cs.loop.ClosingReset? || cs.loop.ClosingUnregister?
    || cs.loop.ClosingCancel? || cs.loop.ClosingStore?
  }

  predicate Enabled(cs: ClientStream, step: Step) {
    !cs.panicked &&
    match step
    case LoopRead(_) => cs.loop.Reading?
    case LoopReadError(_) => cs.loop.Reading?
    case LoopHandle => cs.loop.Handling?
    case LoopAbort(err) => cs.loop.Offering? && cs.ctxDone && (err.Canceled? || err.DeadlineExceeded?)
    case LoopClose => cs.loop.Ending?
    case LoopReset(_) => cs.loop.ClosingReset?
    case LoopUnregister => cs.loop.ClosingUnregister?
    case LoopCancel => cs.loop.ClosingCancel?
    case LoopStore => cs.loop.ClosingStore?
    case RecvCall => cs.recv.RecvIdle? && !Locked(cs)
    case RecvContextDone(cause) => cs.recv.RecvSelecting? && cs.ctxDone && (cause.Canceled? || cause.DeadlineExceeded?)
    case RecvTake(_) => cs.recv.RecvSelecting? && cs.loop.Offering?
    case RecvClosed => cs.recv.RecvSelecting? && cs.rChClosed
    case RecvAfterClosed => cs.recv.RecvSawClosed? && !Locked(cs)
    case SendCall(_, _) => cs.send.SendIdle? && !Locked(cs)
    case SendWrite(_) => cs.send.SendWriting?
    case SendUnregister => cs.send.SendUnregistering?
    case SendCancel => cs.send.SendCancelling?
    case CloseSend(_) => cs.send.SendIdle?
    case Cancel => true
  }

  /** `onReady`: fills the header once and releases `Header()`. */
  function OnReady(cs: ClientStream, err: Option<Error>, md: Option<Metadata>): ClientStream {
    if cs.header.Some? then cs
    else cs.(headerErr := err, header := md, ready := cs.ready - 1, panicked := cs.panicked || cs.ready <= 0)
  }

  /** Where the read loop goes after a frame, given the header it had and what the frame's header decodes to. */
  function LoopAfter(rpc: Rpc, hadHeader: bool, md: Option<Metadata>): LoopPc {
    if !hadHeader && md.None? then Ending(None, None)
    else if ErrorIfDone(rpc).Some? then Ending(ErrorIfDone(rpc), rpc.trailer)
    else if rpc.body.None? then Reading
    else Offering(rpc.body.value)
  }

  /** What the read loop does with a frame whose header decodes to `md`, up to the next blocking point. */
  function Handle(cs: ClientStream, rpc: Rpc, md: Option<Metadata>): ClientStream {
    var cs' := if cs.header.None? && md.Some? then OnReady(cs, None, md) else cs;
    cs'.(loop := LoopAfter(rpc, cs.header.Some?, md))
  }

  function Next(cs: ClientStream, step: Step): ClientStream
    requires Enabled(cs, step)
  {
    match step
    case LoopRead(rpc) => cs.(loop := Handling(rpc), inbox := cs.inbox + [rpc])
    case LoopReadError(err) =>
      OnReady(cs, ToStatusError(err), None).(loop := Ending(ToStatusError(err), None))
    case LoopHandle => Handle(cs, cs.loop.rpc, MetadataCodec.Decode(HeaderOf(cs.loop.rpc)))
    case LoopAbort(err) => cs.(loop := Ending(ToStatusError(err), None))
    case LoopClose =>
      cs.(loop := ClosingReset(cs.loop.err, cs.loop.trailer, cs.loop.trailer.None? && cs.ctxDone),
          rChClosed := true, panicked := cs.rChClosed)
    case LoopReset(ok) =>
      cs.(loop := ClosingUnregister(cs.loop.err, cs.loop.trailer),
          emitted := if cs.loop.sendRst && ok then cs.emitted + [ResetFrame(cs.ident)] else cs.emitted)
    case LoopUnregister => cs.(loop := ClosingCancel(cs.loop.err, cs.loop.trailer))
    case LoopCancel => cs.(loop := ClosingStore(cs.loop.err, cs.loop.trailer), ctxDone := true)
    case LoopStore => cs.(loop := Finished, done := true, rErr := cs.loop.err, trailer := cs.loop.trailer)
    case RecvCall =>
      if cs.done then cs.(recvAnswers := cs.recvAnswers + [Stored(cs.rErr)])
      else cs.(recv := RecvSelecting)
    case RecvContextDone(cause) =>
      cs.(recv := RecvIdle, recvAnswers := cs.recvAnswers + [ContextError(ToStatusError(cause))])
    case RecvTake(decodes) =>
      cs.(recv := RecvIdle, loop := Reading, recvAnswers := cs.recvAnswers + [Message(cs.loop.body, decodes)])
    case RecvClosed => cs.(recv := RecvSawClosed)
    case RecvAfterClosed =>
      if cs.done then cs.(recv := RecvIdle, recvAnswers := cs.recvAnswers + [Stored(cs.rErr)])
      else cs.(panicked := true)
    case SendCall(body, marshals) =>
      if cs.done then cs.(sendAnswers := cs.sendAnswers + [SendStored(cs.rErr)])
      else if marshals then cs.(send := SendWriting(body))
      else cs.(send := SendUnregistering)
    case SendWrite(ok) =>
      if ok then
        cs.(send := SendIdle, emitted := cs.emitted + [BodyFrame(cs.ident, cs.send.body)],
            sendAnswers := cs.sendAnswers + [Sent(cs.send.body)])
      else cs.(send := SendUnregistering)
    case SendUnregister => cs.(send := SendCancelling)
    case SendCancel =>
      cs.(send := SendIdle, ctxDone := true, sendAnswers := cs.sendAnswers + [SendFailed])
    case CloseSend(ok) => if ok then cs.(emitted := cs.emitted + [CloseSendFrame(cs.ident)]) else cs
    case Cancel => cs.(ctxDone := true)
  }

  /** A run of one client stream: the states it passes through. */
  ghost predicate IsRun(states: seq<ClientStream>, steps: seq<Step>) {
    && |states| == |steps| + 1
    && states[0] == Start(states[0].ident)
    && forall i :: 0 <= i < |steps| ==> Enabled(states[i], steps[i]) && states[i + 1] == Next(states[i], steps[i])
  }

  // ----- invariant

  /** The bodies that `RecvMsg` handed to the application. */
  function Received(answers: seq<RecvAnswer>): seq<Body> {
    if |answers| == 0 then []
    else
      var last := answers[|answers| - 1];
      Received(answers[..|answers| - 1]) + (if last.Message? then [last.body] else [])
  }

  /** The outcome with which the read loop is closing down; `stored` once it has stored it. */
  function Outcome(loop: LoopPc, stored: (Option<Error>, Option<Trailer>)): Option<(Option<Error>, Option<Trailer>)> {
    match loop
    case Ending(e, t) => Some((e, t))
    case ClosingReset(e, t, _) => Some((e, t))
    case ClosingUnregister(e, t) => Some((e, t))
    case ClosingCancel(e, t) => Some((e, t))
    case ClosingStore(e, t) => Some((e, t))
    case Finished => Some(stored)
    case _ => None
  }

  function OutcomeOf(cs: ClientStream): Option<(Option<Error>, Option<Trailer>)> {
    Outcome(cs.loop, (cs.rErr, cs.trailer))
  }

  /** Everything but the last frame: what was settled while the read loop is busy with that frame. */
  function Init(inbox: seq<Rpc>): seq<Rpc>
    requires |inbox| > 0
  {
    inbox[..|inbox| - 1]
  }

  function Last(inbox: seq<Rpc>): Rpc
    requires |inbox| > 0
  {
    inbox[|inbox| - 1]
  }

  /** All the frames got were settled: none carried a trailer and every body was received. */
  predicate AllReceived(inbox: seq<Rpc>, received: seq<Body>) {
    received == Bodies(inbox) && NoTrailer(inbox)
  }

  /** The frames got end with a trailer, and everything before it was settled. */
  predicate EndedByTrailer(inbox: seq<Rpc>, received: seq<Body>) {
    |inbox| > 0 && Last(inbox).trailer.Some? && AllReceived(Init(inbox), received)
  }

  predicate DeliveredAtEnd(outcome: (Option<Error>, Option<Trailer>), inbox: seq<Rpc>, received: seq<Body>) {
    && received <= Bodies(inbox)
    && if outcome.1.Some? then
         EndedByTrailer(inbox, received) && outcome.0 == ErrorIfDone(Last(inbox)) && outcome.1 == Last(inbox).trailer
       else outcome.0 != Some(EOF)
  }

  predicate Delivered(loop: LoopPc, stored: (Option<Error>, Option<Trailer>), inbox: seq<Rpc>, received: seq<Body>) {
    match loop
    case Reading => AllReceived(inbox, received)
    case Handling(rpc) => |inbox| > 0 && Last(inbox) == rpc && AllReceived(Init(inbox), received)
    case Offering(body) =>
      |inbox| > 0 && Last(inbox).body == Some(body) && Last(inbox).trailer.None? && AllReceived(Init(inbox), received)
    case _ => DeliveredAtEnd(Outcome(loop, stored).value, inbox, received)
  }

  predicate DeliveryInv(cs: ClientStream) {
    Delivered(cs.loop, (cs.rErr, cs.trailer), cs.inbox, Received(cs.recvAnswers))
  }

  /** Every answer of `RecvMsg` that reports the end reports the stored error. */
  predicate AnswersStored(answers: seq<RecvAnswer>, done: bool, rErr: Option<Error>) {
    forall i :: 0 <= i < |answers| && answers[i].Stored? ==> done && answers[i].err == rErr
  }

  predicate LifecycleInv(cs: ClientStream) {
    && !cs.panicked
    && (cs.rChClosed <==> Locked(cs) || cs.loop.Finished?)
    && (cs.done <==> cs.loop.Finished?)
    && (cs.recv.RecvSawClosed? ==> cs.rChClosed)
    && 0 <= cs.ready <= 1
    && (cs.header.None? && OutcomeOf(cs).None? ==> cs.ready == 1)
    && (cs.header.Some? ==> cs.ready == 0)
    && (cs.done || cs.loop.ClosingStore? ==> cs.ctxDone)
    && AnswersStored(cs.recvAnswers, cs.done, cs.rErr)
  }

  /** The only frames that a running client stream writes. */
  predicate Emittable(ident: Identity, rpc: Rpc) {
    || (rpc.body.Some? && rpc == BodyFrame(ident, rpc.body.value))
    || rpc == CloseSendFrame(ident)
    || rpc == ResetFrame(ident)
  }

  predicate AllEmittable(ident: Identity, emitted: seq<Rpc>) {
    forall i :: 0 <= i < |emitted| ==> Emittable(ident, emitted[i])
  }

  /** Resets: none before the close-down sends one, at most one after, none once a trailer was read. */
  predicate ResetsBounded(loop: LoopPc, outcome: Option<(Option<Error>, Option<Trailer>)>, resets: nat) {
    && resets <= 1
    && (outcome.None? || loop.Ending? || loop.ClosingReset? ==> resets == 0)
    && (outcome.Some? && outcome.value.1.Some? ==> resets == 0 && (loop.ClosingReset? ==> !loop.sendRst))
  }

  /** The bodies that `SendMsg` reported as sent. */
  function SentBodies(answers: seq<SendAnswer>): seq<Body> {
    if |answers| == 0 then []
    else
      var last := answers[|answers| - 1];
      SentBodies(answers[..|answers| - 1]) + (if last.Sent? then [last.body] else [])
  }

  lemma SentAppend(answers: seq<SendAnswer>, a: SendAnswer)
    ensures SentBodies(answers + [a]) == SentBodies(answers) + (if a.Sent? then [a.body] else [])
  {
    assert (answers + [a])[..|answers|] == answers;
  }

  /** What the stream wrote: its own frames, and as bodies exactly those that `SendMsg` reported as sent, in order. */
  predicate OwnFrames(ident: Identity, emitted: seq<Rpc>, answers: seq<SendAnswer>) {
    AllEmittable(ident, emitted) && Bodies(emitted) == SentBodies(answers)
  }

  predicate EmissionInv(cs: ClientStream) {
    && ResetsBounded(cs.loop, OutcomeOf(cs), ResetCount(cs.emitted))
    && OwnFrames(cs.ident, cs.emitted, cs.sendAnswers)
  }

  /** The header of a frame decodes. */
  predicate Decodes(rpc: Rpc) {
    MetadataCodec.Decode(HeaderOf(rpc)).Some?
  }

  /** The only frame got is one whose header does not decode: its trailer, if any, was not looked at. */
  predicate UndecodableEnd(inbox: seq<Rpc>) {
    |inbox| == 1 && !Decodes(inbox[0])
  }

  predicate HeaderKept(loop: LoopPc, hadHeader: bool, trailer: Option<Trailer>, inbox: seq<Rpc>) {
    && (loop.Reading? && !hadHeader ==> |inbox| == 0)
    && (loop.Handling? && !hadHeader ==> |inbox| == 1)
    && (loop.Offering? ==> hadHeader)
    && (loop.Reading? || loop.Offering? ==> NoTrailer(inbox))
    && (loop.Handling? ==> |inbox| > 0 && NoTrailer(Init(inbox)))
    && (Outcome(loop, (None, trailer)).Some? && Outcome(loop, (None, trailer)).value.1.None? ==>
          NoTrailer(inbox) || UndecodableEnd(inbox))
  }

  /** The header is what the first frame carried. */
  predicate HeaderFromFirst(header: Option<Metadata>, inbox: seq<Rpc>) {
    header.Some? ==> |inbox| > 0 && header == MetadataCodec.Decode(HeaderOf(inbox[0]))
  }

  predicate HeaderInv(cs: ClientStream) {
    HeaderKept(cs.loop, cs.header.Some?, cs.trailer, cs.inbox) && HeaderFromFirst(cs.header, cs.inbox)
  }

  predicate Inv(cs: ClientStream) {
    LifecycleInv(cs) && DeliveryInv(cs) && EmissionInv(cs) && HeaderInv(cs)
  }

  lemma ReceivedAppend(answers: seq<RecvAnswer>, a: RecvAnswer)
    ensures Received(answers + [a]) == Received(answers) + (if a.Message? then [a.body] else [])
  {
    assert (answers + [a])[..|answers|] == answers;
  }

  lemma HandleKeepsLifecycle(cs: ClientStream, rpc: Rpc, md: Option<Metadata>)
    requires Inv(cs) && cs.loop == Handling(rpc)
    ensures LifecycleInv(Handle(cs, rpc, md)) && EmissionInv(Handle(cs, rpc, md))
  {
  }

  lemma HandleKeepsDelivery(cs: ClientStream, rpc: Rpc, md: Option<Metadata>)
    requires DeliveryInv(cs) && cs.loop == Handling(rpc)
    ensures DeliveryInv(Handle(cs, rpc, md))
  {
    BodiesOfLast(cs);
    var received := Received(cs.recvAnswers);
    assert Delivered(LoopAfter(rpc, cs.header.Some?, md), (cs.rErr, cs.trailer), cs.inbox, received);
  }

  lemma HandleKeepsHeader(cs: ClientStream, rpc: Rpc, md: Option<Metadata>)
    requires HeaderInv(cs) && DeliveryInv(cs) && cs.loop == Handling(rpc)
    requires md == MetadataCodec.Decode(HeaderOf(rpc))
    ensures HeaderInv(Handle(cs, rpc, md))
  {
    hide MetadataCodec.Decode;
    assert HeaderKept(LoopAfter(rpc, cs.header.Some?, md), cs.header.Some? || md.Some?, cs.trailer, cs.inbox);
  }

  lemma HandleKeepsInv(cs: ClientStream, step: Step)
    requires Inv(cs) && Enabled(cs, step) && step.LoopHandle?
    ensures Inv(Next(cs, step))
  {
    hide LoopAfter, OnReady, DeliveryInv, HeaderInv, LifecycleInv, EmissionInv, MetadataCodec.Decode, Handle;
    var md := MetadataCodec.Decode(HeaderOf(cs.loop.rpc));
    HandleKeepsLifecycle(cs, cs.loop.rpc, md);
    HandleKeepsDelivery(cs, cs.loop.rpc, md);
    HandleKeepsHeader(cs, cs.loop.rpc, md);
  }

  lemma BodiesOfLast(cs: ClientStream)
    requires |cs.inbox| > 0
    ensures Bodies(cs.inbox) ==
            Bodies(Init(cs.inbox)) + (if Last(cs.inbox).body.Some? then [Last(cs.inbox).body.value] else [])
    ensures NoTrailer(cs.inbox) <==> NoTrailer(Init(cs.inbox)) && Last(cs.inbox).trailer.None?
  {
    assert cs.inbox == Init(cs.inbox) + [Last(cs.inbox)];
    BodiesAppend(Init(cs.inbox), Last(cs.inbox));
  }

  lemma ReadKeepsDelivery(cs: ClientStream, rpc: Rpc)
    requires DeliveryInv(cs) && HeaderInv(cs) && cs.loop.Reading?
    ensures var cs' := cs.(loop := Handling(rpc), inbox := cs.inbox + [rpc]); DeliveryInv(cs') && HeaderInv(cs')
  {
    hide MetadataCodec.Decode, Received, Bodies;
    assert Init(cs.inbox + [rpc]) == cs.inbox && Last(cs.inbox + [rpc]) == rpc;
  }

  lemma ReadKeepsInv(cs: ClientStream, step: Step)
    requires Inv(cs) && Enabled(cs, step) && step.LoopRead?
    ensures Inv(Next(cs, step))
  {
    hide MetadataCodec.Decode, Handle, OnReady, ToStatusError, DeliveryInv, HeaderInv, BodyFrame, CloseSendFrame, ResetFrame, OwnFrames;
    ReadKeepsDelivery(cs, step.rpc);
  }

  lemma ReadErrorKeepsInv(cs: ClientStream, step: Step)
    requires Inv(cs) && Enabled(cs, step) && step.LoopReadError?
    ensures Inv(Next(cs, step))
  {
    hide MetadataCodec.Decode, Handle, ToStatusError, BodyFrame, CloseSendFrame, ResetFrame, OwnFrames;
  }

  lemma AbortKeepsInv(cs: ClientStream, step: Step)
    requires Inv(cs) && Enabled(cs, step) && step.LoopAbort?
    ensures Inv(Next(cs, step))
  {
    hide MetadataCodec.Decode, Handle, OnReady, OwnFrames, DeliveryInv, HeaderInv, BodyFrame, CloseSendFrame, ResetFrame;
    AbortKeepsDelivery(cs, step);
  }

  lemma AbortKeepsDelivery(cs: ClientStream, step: Step)
    requires DeliveryInv(cs) && HeaderInv(cs) && Enabled(cs, step) && step.LoopAbort?
    ensures DeliveryInv(Next(cs, step)) && HeaderInv(Next(cs, step))
  {
    hide MetadataCodec.Decode, Handle, OnReady, Received, BodyFrame, CloseSendFrame, ResetFrame;
    BodiesOfLast(cs);
  }

  predicate IsCloseStep(step: Step) {
    step.LoopClose? || step.LoopUnregister? || step.LoopCancel? || step.LoopStore?
  }

  lemma CloseKeepsLifecycle(cs: ClientStream, step: Step)
    requires LifecycleInv(cs) && Enabled(cs, step) && IsCloseStep(step)
    ensures LifecycleInv(Next(cs, step))
  {
    hide MetadataCodec.Decode, Handle, OnReady, ToStatusError;
  }

  lemma CloseKeepsDelivery(cs: ClientStream, step: Step)
    requires DeliveryInv(cs) && HeaderInv(cs) && Enabled(cs, step) && IsCloseStep(step)
    ensures DeliveryInv(Next(cs, step)) && HeaderInv(Next(cs, step))
  {
    hide MetadataCodec.Decode, Handle, OnReady, ToStatusError, DeliveredAtEnd, NoTrailer, UndecodableEnd, HeaderFromFirst;
  }

  lemma CloseKeepsEmission(cs: ClientStream, step: Step)
    requires EmissionInv(cs) && Enabled(cs, step) && IsCloseStep(step)
    ensures EmissionInv(Next(cs, step))
  {
    hide MetadataCodec.Decode, Handle, OnReady, ToStatusError, OwnFrames;
  }

  lemma CloseKeepsInv(cs: ClientStream, step: Step)
    requires Inv(cs) && Enabled(cs, step) && IsCloseStep(step)
    ensures Inv(Next(cs, step))
  {
    hide Enabled, Next, LifecycleInv, DeliveryInv, EmissionInv, HeaderInv;
    CloseKeepsLifecycle(cs, step);
    CloseKeepsDelivery(cs, step);
    CloseKeepsEmission(cs, step);
  }

  /** Delivery and header do not look at what the sending side changes. */
  lemma SameReading(a: ClientStream, b: ClientStream)
    requires b.loop == a.loop && b.rErr == a.rErr && b.trailer == a.trailer && b.inbox == a.inbox
    requires b.recvAnswers == a.recvAnswers && b.header == a.header
    ensures DeliveryInv(a) ==> DeliveryInv(b)
    ensures HeaderInv(a) ==> HeaderInv(b)
  {
    hide MetadataCodec.Decode;
  }

  /** One more frame, with the answer of the `SendMsg` that wrote it, if it was one. */
  lemma EmitOne(cs: ClientStream, rpc: Rpc, answers: seq<SendAnswer>)
    requires OwnFrames(cs.ident, cs.emitted, cs.sendAnswers) && Emittable(cs.ident, rpc)
    requires answers == if rpc.body.Some? then cs.sendAnswers + [Sent(rpc.body.value)] else cs.sendAnswers
    ensures OwnFrames(cs.ident, cs.emitted + [rpc], answers)
    ensures ResetCount(cs.emitted + [rpc]) == ResetCount(cs.emitted) + (if IsReset(rpc) then 1 else 0)
  {
    hide Emittable;
    ResetCountAppend(cs.emitted, rpc);
    BodiesAppend(cs.emitted, rpc);
    if rpc.body.Some? {
      SentAppend(cs.sendAnswers, Sent(rpc.body.value));
    }
  }

  lemma ResetKeepsInv(cs: ClientStream, step: Step)
    requires Inv(cs) && Enabled(cs, step) && step.LoopReset?
    ensures Inv(Next(cs, step))
  {
    hide MetadataCodec.Decode, Handle, OnReady, ToStatusError, OwnFrames, NoTrailer, HeaderFromFirst, DeliveredAtEnd;
    EmitOne(cs, ResetFrame(cs.ident), cs.sendAnswers);
  }

  lemma SendWriteKeepsInv(cs: ClientStream, step: Step)
    requires Inv(cs) && Enabled(cs, step) && step.SendWrite?
    ensures Inv(Next(cs, step))
  {
    hide MetadataCodec.Decode, Handle, OnReady, ToStatusError, OwnFrames, DeliveryInv, HeaderInv;
    EmitOne(cs, BodyFrame(cs.ident, cs.send.body), cs.sendAnswers + [Sent(cs.send.body)]);
    SameReading(cs, Next(cs, step));
  }

  lemma CloseSendKeepsInv(cs: ClientStream, step: Step)
    requires Inv(cs) && Enabled(cs, step) && step.CloseSend?
    ensures Inv(Next(cs, step))
  {
    hide MetadataCodec.Decode, Handle, OnReady, ToStatusError, OwnFrames, DeliveryInv, HeaderInv;
    EmitOne(cs, CloseSendFrame(cs.ident), cs.sendAnswers);
    SameReading(cs, Next(cs, step));
  }

  /** An answer of `SendMsg` that reports no message sent. */
  lemma AnswerUnsent(cs: ClientStream, a: SendAnswer)
    requires OwnFrames(cs.ident, cs.emitted, cs.sendAnswers) && !a.Sent?
    ensures OwnFrames(cs.ident, cs.emitted, cs.sendAnswers + [a])
  {
    hide Emittable;
    SentAppend(cs.sendAnswers, a);
  }

  lemma SendCallKeepsInv(cs: ClientStream, step: Step)
    requires Inv(cs) && Enabled(cs, step) && step.SendCall?
    ensures Inv(Next(cs, step))
  {
    hide MetadataCodec.Decode, Handle, OnReady, ToStatusError, OwnFrames, DeliveryInv, HeaderInv;
    AnswerUnsent(cs, SendStored(cs.rErr));
    SameReading(cs, Next(cs, step));
  }

  lemma CancelKeepsInv(cs: ClientStream, step: Step)
    requires Inv(cs) && Enabled(cs, step) && step.Cancel?
    ensures Inv(Next(cs, step))
  {
    hide MetadataCodec.Decode, Handle, OnReady, ToStatusError, OwnFrames, DeliveryInv, HeaderInv;
    SameReading(cs, Next(cs, step));
  }

  lemma SendTeardownKeepsInv(cs: ClientStream, step: Step)
    requires Inv(cs) && Enabled(cs, step) && (step.SendUnregister? || step.SendCancel?)
    ensures Inv(Next(cs, step))
  {
    hide MetadataCodec.Decode, Handle, OnReady, ToStatusError, OwnFrames, DeliveryInv, HeaderInv;
    AnswerUnsent(cs, SendFailed);
    SameReading(cs, Next(cs, step));
  }

  lemma RecvTakeKeepsInv(cs: ClientStream, step: Step)
    requires Inv(cs) && Enabled(cs, step) && step.RecvTake?
    ensures Inv(Next(cs, step))
  {
    hide MetadataCodec.Decode, Handle, OnReady, ToStatusError, OwnFrames;
    ReceivedAppend(cs.recvAnswers, Message(cs.loop.body, step.decodes));
    BodiesOfLast(cs);
  }

  lemma RecvStoredKeepsInv(cs: ClientStream, step: Step)
    requires Inv(cs) && Enabled(cs, step) && (step.RecvCall? || step.RecvAfterClosed?)
    ensures Inv(Next(cs, step))
  {
    hide MetadataCodec.Decode, Handle, OnReady, ToStatusError, DeliveryInv, EmissionInv, HeaderInv, Received;
    SameWriting(cs, Next(cs, step));
    assert Received(cs.recvAnswers) + [] == Received(cs.recvAnswers);
    ReceivedAppend(cs.recvAnswers, Stored(cs.rErr));
  }

  /** Emission does not look at what the receiving side changes. */
  lemma SameWriting(a: ClientStream, b: ClientStream)
    requires b.loop == a.loop && b.rErr == a.rErr && b.trailer == a.trailer && b.ident == a.ident
    requires b.emitted == a.emitted && b.sendAnswers == a.sendAnswers && b.inbox == a.inbox && b.header == a.header
    ensures EmissionInv(a) ==> EmissionInv(b)
    ensures HeaderInv(a) ==> HeaderInv(b)
    ensures DeliveryInv(a) && Received(b.recvAnswers) == Received(a.recvAnswers) ==> DeliveryInv(b)
  {
    hide MetadataCodec.Decode, OwnFrames, Received;
  }

  lemma RecvOtherKeepsInv(cs: ClientStream, step: Step)
    requires Inv(cs) && Enabled(cs, step) && (step.RecvContextDone? || step.RecvClosed?)
    ensures Inv(Next(cs, step))
  {
    hide MetadataCodec.Decode, Handle, OnReady, ToStatusError, DeliveryInv, EmissionInv, HeaderInv, Received;
    SameWriting(cs, Next(cs, step));
    assert Received(cs.recvAnswers) + [] == Received(cs.recvAnswers);
    if step.RecvContextDone? {
      ReceivedAppend(cs.recvAnswers, ContextError(ToStatusError(step.cause)));
    }
  }

  lemma StepKeepsInv(cs: ClientStream, step: Step)
    requires Inv(cs) && Enabled(cs, step)
    ensures Inv(Next(cs, step))
  {
    hide Inv, Enabled, Next;
    match step
    case LoopRead(_) => ReadKeepsInv(cs, step);
    case LoopReadError(_) => ReadErrorKeepsInv(cs, step);
    case LoopHandle => HandleKeepsInv(cs, step);
    case LoopAbort(_) => AbortKeepsInv(cs, step);
    case LoopReset(_) => ResetKeepsInv(cs, step);
    case RecvCall => RecvStoredKeepsInv(cs, step);
    case RecvContextDone(_) => RecvOtherKeepsInv(cs, step);
    case RecvTake(_) => RecvTakeKeepsInv(cs, step);
    case RecvClosed => RecvOtherKeepsInv(cs, step);
    case RecvAfterClosed => RecvStoredKeepsInv(cs, step);
    case SendCall(_, _) => SendCallKeepsInv(cs, step);
    case SendWrite(_) => SendWriteKeepsInv(cs, step);
    case SendUnregister => SendTeardownKeepsInv(cs, step);
    case SendCancel => SendTeardownKeepsInv(cs, step);
    case CloseSend(_) => CloseSendKeepsInv(cs, step);
    case Cancel => CancelKeepsInv(cs, step);
    case _ => CloseKeepsInv(cs, step);
  }

  /** The histories only grow: the inbox by the frame read, the frames written by the stream's own. */
  lemma StepShape(cs: ClientStream, step: Step)
    requires Enabled(cs, step)
    ensures var cs' := Next(cs, step);
            && cs'.ident == cs.ident
            && cs.emitted <= cs'.emitted
            && (forall i :: |cs.emitted| <= i < |cs'.emitted| ==> cs'.emitted[i].id == cs.ident.id)
            && cs'.inbox == (if step.LoopRead? then cs.inbox + [step.rpc] else cs.inbox)
  {
    hide MetadataCodec.Decode, Handle, OnReady, ToStatusError, FrameHeader, Locked, BodyFrame, CloseSendFrame, ResetFrame;
    FramesAreOwn(cs.ident);
    ReadyKeepsHistories(cs);
    if step.LoopHandle? {
      HandleKeepsHistories(cs, cs.loop.rpc, MetadataCodec.Decode(HeaderOf(cs.loop.rpc)));
    }
  }

  lemma FramesAreOwn(ident: Identity)
    ensures forall body :: BodyFrame(ident, body).id == ident.id
    ensures CloseSendFrame(ident).id == ident.id && ResetFrame(ident).id == ident.id
  {
  }

  predicate SameHistories(a: ClientStream, b: ClientStream) {
    && b.ident == a.ident && b.emitted == a.emitted && b.inbox == a.inbox
    && b.recvAnswers == a.recvAnswers && b.sendAnswers == a.sendAnswers && b.recv == a.recv
  }

  lemma ReadyKeepsHistories(cs: ClientStream)
    ensures forall err, md :: SameHistories(cs, OnReady(cs, err, md))
  {
  }

  lemma HandleKeepsHistories(cs: ClientStream, rpc: Rpc, md: Option<Metadata>)
    ensures SameHistories(cs, Handle(cs, rpc, md))
  {
  }

  lemma {:induction false} InvAlongRun(states: seq<ClientStream>, steps: seq<Step>, i: nat)
    requires IsRun(states, steps) && i < |states|
    ensures Inv(states[i])
  {
    if i > 0 {
      InvAlongRun(states, steps, i - 1);
      StepKeepsInv(states[i - 1], steps[i - 1]);
    }
  }

  // ----- what the runs promise

  /** The stream is closed for good in `b`, with the outcome it had in `a`. */
  predicate ClosedAlike(a: ClientStream, b: ClientStream) {
    a.done ==>
      && b.done && b.rErr == a.rErr && b.trailer == a.trailer
      && Received(b.recvAnswers) == Received(a.recvAnswers)
      && a.recvAnswers <= b.recvAnswers && a.sendAnswers <= b.sendAnswers
  }

  lemma StepClosedAlike(cs: ClientStream, step: Step)
    requires Inv(cs) && Enabled(cs, step)
    ensures ClosedAlike(cs, Next(cs, step))
  {
    hide Inv, Enabled, Next, Received;
    if cs.done {
      DoneFacts(cs);
      StepWhenDone(cs, step);
      var cs' := Next(cs, step);
      if cs'.recvAnswers != cs.recvAnswers {
        ReceivedAppend(cs.recvAnswers, cs'.recvAnswers[|cs.recvAnswers|]);
        assert Received(cs.recvAnswers) + [] == Received(cs.recvAnswers);
      }
    }
  }

  lemma DoneFacts(cs: ClientStream)
    requires Inv(cs) && cs.done
    ensures cs.loop.Finished?
  {
    hide DeliveryInv, EmissionInv, HeaderInv;
  }

  /** A step of a finished stream answers, if anything, with something that is not a message. */
  lemma StepWhenDone(cs: ClientStream, step: Step)
    requires cs.done && cs.loop.Finished? && Enabled(cs, step)
    ensures var cs' := Next(cs, step);
            && cs'.done && cs'.rErr == cs.rErr && cs'.trailer == cs.trailer && cs.sendAnswers <= cs'.sendAnswers
            && (cs'.recvAnswers == cs.recvAnswers ||
                exists a: RecvAnswer :: !a.Message? && cs'.recvAnswers == cs.recvAnswers + [a])
  {
    hide MetadataCodec.Decode, Handle, OnReady, ToStatusError, BodyFrame, CloseSendFrame, ResetFrame;
  }

  lemma {:induction false} ClosedForGood(states: seq<ClientStream>, steps: seq<Step>, i: nat, j: nat)
    requires IsRun(states, steps) && i <= j < |states|
    ensures ClosedAlike(states[i], states[j])
    decreases j - i
  {
    hide Enabled, Next, Inv, ClosedAlike;
    if i == j {
      ClosedAlikeReflexive(states[i]);
    } else {
      ClosedForGood(states, steps, i, j - 1);
      InvAlongRun(states, steps, j - 1);
      StepClosedAlike(states[j - 1], steps[j - 1]);
      ClosedAlikeTransitive(states[i], states[j - 1], states[j]);
    }
  }

  lemma ClosedAlikeReflexive(a: ClientStream)
    ensures ClosedAlike(a, a)
  {
  }

  lemma ClosedAlikeTransitive(a: ClientStream, b: ClientStream, c: ClientStream)
    requires ClosedAlike(a, b) && ClosedAlike(b, c)
    ensures ClosedAlike(a, c)
  {
  }

  /**
    Close-down, in every interleaving: neither panic is reachable, `Header()` is released at most
    once, the stored error and trailer never change once the stream is done, no message is handed
    out after that, and every end that `RecvMsg` reports is the stored error.
   */
  lemma CloseDown(states: seq<ClientStream>, steps: seq<Step>, i: nat, j: nat)
    requires IsRun(states, steps) && i <= j < |states|
    ensures !states[j].panicked && 0 <= states[j].ready <= 1
    ensures states[j].done ==> states[j].ctxDone
    ensures AnswersStored(states[j].recvAnswers, states[j].done, states[j].rErr)
    ensures ClosedAlike(states[i], states[j])
  {
    InvAlongRun(states, steps, j);
    ClosedForGood(states, steps, i, j);
  }

  /**
    A call made on a finished stream answers the stored error at once and changes nothing else.
   */
  lemma LaterCallsAnswerStored(cs: ClientStream, body: Body, marshals: bool)
    requires Inv(cs) && cs.done
    ensures cs.recv.RecvIdle? ==>
              Enabled(cs, RecvCall) &&
              Next(cs, RecvCall) == cs.(recvAnswers := cs.recvAnswers + [Stored(cs.rErr)])
    ensures cs.send.SendIdle? ==>
              Enabled(cs, SendCall(body, marshals)) &&
              Next(cs, SendCall(body, marshals)) == cs.(sendAnswers := cs.sendAnswers + [SendStored(cs.rErr)])
  {
  }

  /** When `RecvMsg` may give an answer: each arm of its `select`, and the stored error. */
  predicate AnswerFits(cs: ClientStream, a: RecvAnswer) {
    match a
    case Message(body, _) => cs.recv.RecvSelecting? && cs.loop == Offering(body)
    case ContextError(err) =>
      && cs.recv.RecvSelecting? && cs.ctxDone && err.Some? && err.value.WithStatus?
      && (err.value.status.code == 1 || err.value.status.code == 4)
    case Stored(err) => cs.done && err == cs.rErr
  }

  /**
    Every answer of `RecvMsg`, in every run: it reports the context only when the context is done,
    and only if it was called before the stream was done; a call on a stream that is done answers
    the stored error.
   */
  lemma RecvAnswersWhen(states: seq<ClientStream>, steps: seq<Step>, i: nat)
    requires IsRun(states, steps) && i < |steps|
    ensures var cs, cs' := states[i], states[i + 1];
            && (cs'.recvAnswers == cs.recvAnswers ||
                exists a :: AnswerFits(cs, a) && cs'.recvAnswers == cs.recvAnswers + [a])
            && (steps[i].RecvCall? && cs.done ==> cs'.recvAnswers == cs.recvAnswers + [Stored(cs.rErr)])
            && (cs'.recv.RecvSelecting? && !cs.recv.RecvSelecting? ==> steps[i].RecvCall? && !cs.done)
  {
    hide Inv, Enabled, Next;
    InvAlongRun(states, steps, i);
    NoPanic(states[i]);
    AnswerOfStep(states[i], steps[i]);
  }

  lemma NoPanic(cs: ClientStream)
    requires Inv(cs)
    ensures cs.recv.RecvSawClosed? && !Locked(cs) ==> cs.done
  {
    hide DeliveryInv, EmissionInv, HeaderInv;
  }

  lemma AnswerOfStep(cs: ClientStream, step: Step)
    requires Enabled(cs, step) && (cs.recv.RecvSawClosed? && !Locked(cs) ==> cs.done)
    ensures var cs' := Next(cs, step);
            && (cs'.recvAnswers == cs.recvAnswers ||
                exists a :: AnswerFits(cs, a) && cs'.recvAnswers == cs.recvAnswers + [a])
            && (step.RecvCall? && cs.done ==> cs'.recvAnswers == cs.recvAnswers + [Stored(cs.rErr)])
            && (cs'.recv.RecvSelecting? && !cs.recv.RecvSelecting? ==> step.RecvCall? && !cs.done)
  {
    hide MetadataCodec.Decode, Handle, OnReady, BodyFrame, CloseSendFrame, ResetFrame;
    if step.LoopHandle? {
      HandleKeepsHistories(cs, cs.loop.rpc, MetadataCodec.Decode(HeaderOf(cs.loop.rpc)));
    } else if step.LoopReadError? {
      ReadyKeepsHistories(cs);
    }
  }

  /** Some run gets to this state. */
  ghost predicate Reached(cs: ClientStream) {
    exists states, steps :: IsRun(states, steps) && states[|steps|] == cs
  }

  lemma StartReached(ident: Identity)
    ensures Reached(Start(ident))
  {
    hide Enabled, Next;
    var steps: seq<Step> := [];
    assert IsRun([Start(ident)], steps) && [Start(ident)][|steps|] == Start(ident);
  }

  lemma StepReached(cs: ClientStream, step: Step, cs': ClientStream)
    requires Reached(cs) && Enabled(cs, step) && cs' == Next(cs, step)
    ensures Reached(cs')
  {
    hide Enabled, Next;
    var states, steps :| IsRun(states, steps) && states[|steps|] == cs;
    var states', steps' := states + [cs'], steps + [step];
    assert forall i :: 0 <= i < |states| ==> states'[i] == states[i];
    assert forall i :: 0 <= i < |steps| ==> steps'[i] == steps[i];
    assert IsRun(states', steps') && states'[|steps'|] == cs';
  }

  /** A stream that read one frame, an OK trailer, and is closing down or done, while a `RecvMsg` waits. */
  function EndingOk(ident: Identity, rpc: Rpc, md: Metadata, loop: LoopPc): ClientStream {
    Start(ident).(recv := RecvSelecting, inbox := [rpc], header := Some(md), ready := 0, loop := loop,
                  rChClosed := !loop.Ending?, ctxDone := loop.ClosingStore? || loop.Finished?,
                  done := loop.Finished?, rErr := if loop.Finished? then Some(EOF) else None,
                  trailer := if loop.Finished? then rpc.trailer else None)
  }

  lemma EndingOkReached(ident: Identity, rpc: Rpc)
    requires Decodes(rpc) && ErrorIfDone(rpc) == Some(EOF)
    ensures Reached(EndingOk(ident, rpc, MetadataCodec.Decode(HeaderOf(rpc)).value, Ending(Some(EOF), rpc.trailer)))
  {
    hide MetadataCodec.Decode, Reached, ErrorIfDone, BodyFrame, CloseSendFrame, ResetFrame, ToStatusError;
    var md := MetadataCodec.Decode(HeaderOf(rpc)).value;
    var s1 := Start(ident).(recv := RecvSelecting);
    var s2 := s1.(loop := Handling(rpc), inbox := [rpc]);
    StartReached(ident);
    StepReached(Start(ident), RecvCall, s1);
    assert [] + [rpc] == [rpc];
    StepReached(s1, LoopRead(rpc), s2);
    StepReached(s2, LoopHandle, EndingOk(ident, rpc, md, Ending(Some(EOF), rpc.trailer)));
  }

  lemma EndedOkReached(ident: Identity, rpc: Rpc, md: Metadata)
    requires rpc.trailer.Some? && Reached(EndingOk(ident, rpc, md, Ending(Some(EOF), rpc.trailer)))
    ensures Reached(EndingOk(ident, rpc, md, Finished))
  {
    hide MetadataCodec.Decode, Reached, Handle, OnReady, BodyFrame, CloseSendFrame, ResetFrame, ToStatusError;
    var e, t := Some(EOF), rpc.trailer;
    StepReached(EndingOk(ident, rpc, md, Ending(e, t)), LoopClose, EndingOk(ident, rpc, md, ClosingReset(e, t, false)));
    StepReached(EndingOk(ident, rpc, md, ClosingReset(e, t, false)), LoopReset(false), EndingOk(ident, rpc, md, ClosingUnregister(e, t)));
    StepReached(EndingOk(ident, rpc, md, ClosingUnregister(e, t)), LoopUnregister, EndingOk(ident, rpc, md, ClosingCancel(e, t)));
    StepReached(EndingOk(ident, rpc, md, ClosingCancel(e, t)), LoopCancel, EndingOk(ident, rpc, md, ClosingStore(e, t)));
    StepReached(EndingOk(ident, rpc, md, ClosingStore(e, t)), LoopStore, EndingOk(ident, rpc, md, Finished));
  }

  /**
    The context's error can stand in for the end: for every OK trailer that decodes, some run ends
    with io.EOF stored while the `RecvMsg` that waited for it answered the context's error.
   */
  lemma EndMayAnswerContext(ident: Identity, rpc: Rpc) returns (cs: ClientStream)
    requires Decodes(rpc) && ErrorIfDone(rpc) == Some(EOF)
    ensures Reached(cs) && cs.inbox == [rpc] && cs.done && cs.rErr == Some(EOF)
    ensures cs.recvAnswers == [ContextError(ToStatusError(Canceled))]
  {
    hide MetadataCodec.Decode, Reached, Handle, OnReady, BodyFrame, CloseSendFrame, ResetFrame, ToStatusError;
    var md := MetadataCodec.Decode(HeaderOf(rpc)).value;
    EndingOkReached(ident, rpc);
    EndedOkReached(ident, rpc, md);
    var ended := EndingOk(ident, rpc, md, Finished);
    cs := ended.(recv := RecvIdle, recvAnswers := [ContextError(ToStatusError(Canceled))]);
    assert [] + [ContextError(ToStatusError(Canceled))] == [ContextError(ToStatusError(Canceled))];
    StepReached(ended, RecvContextDone(Canceled), cs);
  }

  /** The stream has read a trailer. */
  predicate ReadTrailer(cs: ClientStream) {
    !NoTrailer(cs.inbox)
  }

  /**
    Reset discipline: over its whole life a stream writes at most one RST_STREAM, and none once it
    has read a trailer, however often failed sends tear it down as well. The one exception is a
    first frame whose header does not decode: see `ResetAfterUndecodableTrailer`.
   */
  lemma ResetDiscipline(states: seq<ClientStream>, steps: seq<Step>, i: nat)
    requires IsRun(states, steps) && i < |states|
    ensures ResetCount(states[i].emitted) <= 1
    ensures ReadTrailer(states[i]) && Decodes(states[i].inbox[0]) ==> ResetCount(states[i].emitted) == 0
  {
    InvAlongRun(states, steps, i);
  }

  /** A stream that read one frame, whose header does not decode, and was cancelled, as it closes down. */
  function EndingNil(ident: Identity, rpc: Rpc, loop: LoopPc): ClientStream {
    Start(ident).(inbox := [rpc], loop := loop, ctxDone := true, rChClosed := !loop.Ending?, done := loop.Finished?,
                  emitted := if loop.Ending? || loop.ClosingReset? then [] else [ResetFrame(ident)])
  }

  lemma EndingNilReached(ident: Identity, rpc: Rpc)
    requires !Decodes(rpc)
    ensures Reached(EndingNil(ident, rpc, Ending(None, None)))
  {
    hide MetadataCodec.Decode, Reached, ErrorIfDone, BodyFrame, CloseSendFrame, ResetFrame, ToStatusError;
    var s1 := Start(ident).(loop := Handling(rpc), inbox := [rpc]);
    var s2 := s1.(loop := Ending(None, None));
    StartReached(ident);
    assert [] + [rpc] == [rpc];
    StepReached(Start(ident), LoopRead(rpc), s1);
    StepReached(s1, LoopHandle, s2);
    StepReached(s2, Cancel, EndingNil(ident, rpc, Ending(None, None)));
  }

  lemma ClosingNilReached(ident: Identity, rpc: Rpc)
    requires Reached(EndingNil(ident, rpc, Ending(None, None)))
    ensures Reached(EndingNil(ident, rpc, ClosingUnregister(None, None)))
  {
    hide MetadataCodec.Decode, Reached, Handle, OnReady, BodyFrame, CloseSendFrame, ResetFrame, ToStatusError;
    assert [] + [ResetFrame(ident)] == [ResetFrame(ident)];
    StepReached(EndingNil(ident, rpc, Ending(None, None)), LoopClose, EndingNil(ident, rpc, ClosingReset(None, None, true)));
    StepReached(EndingNil(ident, rpc, ClosingReset(None, None, true)), LoopReset(true), EndingNil(ident, rpc, ClosingUnregister(None, None)));
  }

  lemma EndedNilReached(ident: Identity, rpc: Rpc)
    requires Reached(EndingNil(ident, rpc, ClosingUnregister(None, None)))
    ensures Reached(EndingNil(ident, rpc, Finished))
  {
    hide MetadataCodec.Decode, Reached, Handle, OnReady, BodyFrame, CloseSendFrame, ResetFrame, ToStatusError;
    StepReached(EndingNil(ident, rpc, ClosingUnregister(None, None)), LoopUnregister, EndingNil(ident, rpc, ClosingCancel(None, None)));
    StepReached(EndingNil(ident, rpc, ClosingCancel(None, None)), LoopCancel, EndingNil(ident, rpc, ClosingStore(None, None)));
    StepReached(EndingNil(ident, rpc, ClosingStore(None, None)), LoopStore, EndingNil(ident, rpc, Finished));
  }

  /**
    The exception is real: for every first frame whose header does not decode, with or without a
    trailer, a stream cancelled before it closes down writes a reset after reading that frame, and
    `RecvMsg` then answers nil while `Header()` stays blocked.
   */
  lemma ResetAfterUndecodableTrailer(ident: Identity, rpc: Rpc) returns (cs: ClientStream)
    requires !Decodes(rpc)
    ensures Reached(cs) && cs.inbox == [rpc] && ResetCount(cs.emitted) == 1
    ensures cs.done && cs.recvAnswers == [Stored(None)] && cs.ready == 1
  {
    hide MetadataCodec.Decode, Reached, Handle, OnReady, BodyFrame, CloseSendFrame, ToStatusError;
    EndingNilReached(ident, rpc);
    ClosingNilReached(ident, rpc);
    EndedNilReached(ident, rpc);
    var ended := EndingNil(ident, rpc, Finished);
    cs := ended.(recvAnswers := [Stored(None)]);
    assert [] + [Stored(None)] == [Stored(None)];
    StepReached(ended, RecvCall, cs);
    ResetCountAppend([], ResetFrame(ident));
    assert [] + [ResetFrame(ident)] == [ResetFrame(ident)];
  }

  // An end without an error: `RecvMsg` answers nil and hands out no message.

  /** The read fails with a status whose code is OK. */
  predicate OkReadError(step: Step) {
    step.LoopReadError? && step.err.WithStatus? && step.err.status.code == CODE_OK
  }

  /** A read failed with a status of code OK in the first `i` steps. */
  predicate OkReadBefore(steps: seq<Step>, i: nat)
    requires i <= |steps|
  {
    exists t :: 0 <= t < i && OkReadError(steps[t])
  }

  predicate NilEnd(outcome: Option<(Option<Error>, Option<Trailer>)>, inbox: seq<Rpc>, ready: int, okRead: bool) {
    if outcome.None? then !okRead
    else
      && (outcome.value.0.None? <==> UndecodableEnd(inbox) || okRead)
      && (ready == 1 <==> UndecodableEnd(inbox))
  }

  /** While the loop reads or offers, a first frame has decoded. */
  lemma ReadingDecoded(cs: ClientStream)
    requires HeaderInv(cs) && (cs.loop.Reading? || cs.loop.Offering?)
    ensures !UndecodableEnd(cs.inbox)
  {
    hide MetadataCodec.Decode;
  }

  lemma HandleNilEnd(cs: ClientStream, rpc: Rpc, md: Option<Metadata>)
    requires Inv(cs) && cs.loop == Handling(rpc) && md == MetadataCodec.Decode(HeaderOf(rpc))
    ensures NilEnd(OutcomeOf(Handle(cs, rpc, md)), cs.inbox, Handle(cs, rpc, md).ready, false)
  {
    hide MetadataCodec.Decode, EmissionInv;
  }

  /** A step of the read loop before its close-down. */
  predicate IsReadStep(step: Step) {
    step.LoopRead? || step.LoopReadError? || step.LoopHandle? || step.LoopAbort?
  }

  /** Every other step leaves the outcome alone. */
  lemma OutcomeKept(cs: ClientStream, step: Step)
    requires Enabled(cs, step) && !IsReadStep(step)
    ensures var cs' := Next(cs, step);
            OutcomeOf(cs') == OutcomeOf(cs) && cs'.inbox == cs.inbox && cs'.ready == cs.ready
  {
    hide MetadataCodec.Decode, Handle, OnReady, ToStatusError, BodyFrame, CloseSendFrame, ResetFrame, Locked;
  }

  lemma ReadNilEnd(cs: ClientStream, step: Step)
    requires Inv(cs) && Enabled(cs, step) && IsReadStep(step) && !step.LoopHandle?
    ensures var cs' := Next(cs, step); NilEnd(OutcomeOf(cs'), cs'.inbox, cs'.ready, OkReadError(step))
  {
    hide MetadataCodec.Decode, Handle, Inv, UndecodableEnd, BodyFrame, CloseSendFrame, ResetFrame, Locked;
    EndFacts(cs);
  }

  lemma StepNilEnd(cs: ClientStream, step: Step, okRead: bool)
    requires Inv(cs) && Enabled(cs, step) && NilEnd(OutcomeOf(cs), cs.inbox, cs.ready, okRead)
    ensures var cs' := Next(cs, step); NilEnd(OutcomeOf(cs'), cs'.inbox, cs'.ready, okRead || OkReadError(step))
  {
    hide Inv, Next, NilEnd, MetadataCodec.Decode, Handle;
    if !IsReadStep(step) {
      OutcomeKept(cs, step);
    } else {
      NotEndedYet(cs, step, okRead);
      if step.LoopHandle? {
        var rpc := cs.loop.rpc;
        HandleIs(cs, step);
        HandleNilEnd(cs, rpc, MetadataCodec.Decode(HeaderOf(rpc)));
        HandleKeepsHistories(cs, rpc, MetadataCodec.Decode(HeaderOf(rpc)));
      } else {
        ReadNilEnd(cs, step);
      }
    }
  }

  lemma NotEndedYet(cs: ClientStream, step: Step, okRead: bool)
    requires Enabled(cs, step) && IsReadStep(step) && NilEnd(OutcomeOf(cs), cs.inbox, cs.ready, okRead)
    ensures !okRead
  {
  }

  lemma HandleIs(cs: ClientStream, step: Step)
    requires Enabled(cs, step) && step.LoopHandle?
    ensures Next(cs, step) == Handle(cs, cs.loop.rpc, MetadataCodec.Decode(HeaderOf(cs.loop.rpc)))
  {
    hide MetadataCodec.Decode, Handle, OnReady, BodyFrame, CloseSendFrame, ResetFrame;
  }

  lemma EndFacts(cs: ClientStream)
    requires Inv(cs)
    ensures cs.loop.Reading? || cs.loop.Offering? ==> !UndecodableEnd(cs.inbox)
    ensures cs.loop.Reading? && cs.header.None? ==> cs.ready == 1
    ensures cs.header.Some? ==> cs.ready == 0
    ensures cs.loop.Offering? ==> cs.header.Some?
  {
    hide MetadataCodec.Decode, DeliveryInv, EmissionInv, UndecodableEnd, HeaderFromFirst;
    if cs.loop.Reading? || cs.loop.Offering? {
      ReadingDecoded(cs);
    }
  }

  lemma {:induction false} NilEndAlongRun(states: seq<ClientStream>, steps: seq<Step>, i: nat)
    requires IsRun(states, steps) && i < |states|
    ensures NilEnd(OutcomeOf(states[i]), states[i].inbox, states[i].ready, OkReadBefore(steps, i))
  {
    hide Enabled, Next, Inv, NilEnd, OkReadError;
    if i == 0 {
      StartNilEnd(states[0].ident);
    } else {
      NilEndAlongRun(states, steps, i - 1);
      InvAlongRun(states, steps, i - 1);
      StepNilEnd(states[i - 1], steps[i - 1], OkReadBefore(steps, i - 1));
    }
  }

  lemma StartNilEnd(ident: Identity)
    ensures NilEnd(OutcomeOf(Start(ident)), Start(ident).inbox, Start(ident).ready, false)
  {
  }

  /**
    A finished stream stores no error, so that `RecvMsg` answers nil without a message, exactly when
    its only frame's header did not decode or a read failed with a status of code OK; and `Header()`
    is blocked for good exactly in the first case.
   */
  lemma NilEndExactly(states: seq<ClientStream>, steps: seq<Step>, i: nat)
    requires IsRun(states, steps) && i < |states| && states[i].done
    ensures states[i].rErr.None? <==> UndecodableEnd(states[i].inbox) || OkReadBefore(steps, i)
    ensures states[i].ready == 1 <==> UndecodableEnd(states[i].inbox)
  {
    hide Enabled, Next, UndecodableEnd, OkReadBefore;
    NilEndAlongRun(states, steps, i);
    InvAlongRun(states, steps, i);
  }

  // The cause of an end, the answer of `Header()`, the reset of a close-down, and the teardown of a failed send.

  /** The step ends the read loop with this outcome: a failed read, a context that is done, a header that does not decode, or a trailer. */
  predicate EndCause(cs: ClientStream, step: Step, outcome: (Option<Error>, Option<Trailer>)) {
    match step
    case LoopReadError(err) => outcome == (ToStatusError(err), None)
    case LoopAbort(err) => cs.ctxDone && outcome == (ToStatusError(err), None)
    case LoopHandle =>
      && cs.loop.Handling?
      && var rpc := cs.loop.rpc;
         if cs.header.None? && MetadataCodec.Decode(HeaderOf(rpc)).None? then outcome == (None, None)
         else
           && rpc.trailer.Some? && outcome.1 == rpc.trailer
           && outcome.0 == Some(if rpc.status.None? || rpc.status.value.code == CODE_OK then EOF else WithStatus(rpc.status.value))
    case _ => false
  }

  lemma HandleCause(cs: ClientStream, step: Step)
    requires Enabled(cs, step) && step.LoopHandle?
    ensures OutcomeOf(cs).None?
    ensures OutcomeOf(Next(cs, step)).Some? ==> EndCause(cs, step, OutcomeOf(Next(cs, step)).value)
  {
    hide MetadataCodec.Decode, OnReady, BodyFrame, CloseSendFrame, ResetFrame;
  }

  lemma ReadCause(cs: ClientStream, step: Step)
    requires Enabled(cs, step) && IsReadStep(step) && !step.LoopHandle?
    ensures OutcomeOf(cs).None?
    ensures OutcomeOf(Next(cs, step)).Some? ==> EndCause(cs, step, OutcomeOf(Next(cs, step)).value)
  {
    hide MetadataCodec.Decode, Handle, OnReady, ToStatusError, BodyFrame, CloseSendFrame, ResetFrame;
    ReadyKeepsLoop(cs);
  }

  lemma ReadyKeepsLoop(cs: ClientStream)
    ensures forall err, md :: OnReady(cs, err, md).loop == cs.loop && OnReady(cs, err, md).rErr == cs.rErr
  {
  }

  /** What a stream stores when it is done is what ended its read loop. */
  lemma {:induction false} EndHasCause(states: seq<ClientStream>, steps: seq<Step>, i: nat)
    requires IsRun(states, steps) && i < |states|
    ensures OutcomeOf(states[i]).Some? ==> exists t :: 0 <= t < i && EndCause(states[t], steps[t], OutcomeOf(states[i]).value)
    ensures states[i].done ==> OutcomeOf(states[i]) == Some((states[i].rErr, states[i].trailer))
  {
    hide Enabled, Next, Inv, EndCause;
    InvAlongRun(states, steps, i);
    if states[i].done {
      DoneFacts(states[i]);
    }
    if i > 0 {
      EndHasCause(states, steps, i - 1);
      if !IsReadStep(steps[i - 1]) {
        OutcomeKept(states[i - 1], steps[i - 1]);
      } else if steps[i - 1].LoopHandle? {
        HandleCause(states[i - 1], steps[i - 1]);
      } else {
        ReadCause(states[i - 1], steps[i - 1]);
      }
    }
  }

  /** What `Header()` can answer: blocked, the header, or the error of the read that failed before any frame. */
  ghost predicate HeaderAnswer(states: seq<ClientStream>, steps: seq<Step>, i: nat)
    requires i < |states| && |states| == |steps| + 1
  {
    var cs := states[i];
    || (cs.ready == 1 && cs.header.None? && cs.headerErr.None?)
    || (cs.ready == 0 && cs.header.Some? && cs.headerErr.None?)
    || (cs.ready == 0 && cs.header.None? && exists t :: 0 <= t < i && ReadFailedFirst(states[t], steps[t], cs.headerErr))
  }

  predicate ReadFailedFirst(cs: ClientStream, step: Step, err: Option<Error>) {
    step.LoopReadError? && cs.inbox == [] && err == ToStatusError(step.err)
  }

  lemma HeaderKeptBy(cs: ClientStream, step: Step)
    requires Enabled(cs, step) && !step.LoopHandle? && !step.LoopReadError?
    ensures var cs' := Next(cs, step); cs'.ready == cs.ready && cs'.header == cs.header && cs'.headerErr == cs.headerErr
  {
    hide MetadataCodec.Decode, Handle, OnReady, ToStatusError, BodyFrame, CloseSendFrame, ResetFrame, Locked;
  }

  lemma HeaderSetBy(cs: ClientStream, step: Step)
    requires Inv(cs) && Enabled(cs, step) && (step.LoopHandle? || step.LoopReadError?)
    requires cs.header.Some? ==> cs.headerErr.None?
    requires cs.header.None? && cs.ready == 1 ==> cs.headerErr.None?
    ensures var cs' := Next(cs, step);
            || (cs'.ready == cs.ready && cs'.header == cs.header && cs'.headerErr == cs.headerErr)
            || (cs'.ready == 0 && cs'.header.Some? && cs'.headerErr.None?)
            || (cs'.ready == 0 && cs'.header.None? && ReadFailedFirst(cs, step, cs'.headerErr))
  {
    hide MetadataCodec.Decode, DeliveryInv, EmissionInv, ToStatusError, HeaderFromFirst, BodyFrame, CloseSendFrame, ResetFrame;
  }

  /** `Header()` in every run. */
  lemma {:induction false} HeaderAnswers(states: seq<ClientStream>, steps: seq<Step>, i: nat)
    requires IsRun(states, steps) && i < |states|
    ensures HeaderAnswer(states, steps, i)
  {
    hide Enabled, Next, Inv, ReadFailedFirst;
    if i > 0 {
      HeaderAnswers(states, steps, i - 1);
      InvAlongRun(states, steps, i - 1);
      var cs, step := states[i - 1], steps[i - 1];
      if step.LoopHandle? || step.LoopReadError? {
        HeaderSetBy(cs, step);
      } else {
        HeaderKeptBy(cs, step);
      }
    }
  }

  lemma ClosingKept(cs: ClientStream, step: Step)
    requires Enabled(cs, step) && cs.loop.ClosingReset? && !step.LoopReset?
    ensures Next(cs, step).loop == cs.loop
  {
    hide MetadataCodec.Decode, Handle, OnReady, ToStatusError, BodyFrame, CloseSendFrame, ResetFrame;
  }

  lemma {:induction false} ClosingKeptUntil(states: seq<ClientStream>, steps: seq<Step>, i: nat, j: nat)
    requires IsRun(states, steps) && i <= j < |states| && states[i].loop.ClosingReset?
    requires forall t :: i <= t < j ==> !steps[t].LoopReset?
    ensures states[j].loop == states[i].loop
    decreases j - i
  {
    hide Enabled, Next;
    if i < j {
      ClosingKeptUntil(states, steps, i, j - 1);
      ClosingKept(states[j - 1], steps[j - 1]);
    }
  }

  /**
    When a close-down sends a reset: exactly when no trailer ended the stream, its context was done
    when the close-down began, and the write succeeds; and that reset is for the stream's own id.
   */
  lemma ResetSentExactly(states: seq<ClientStream>, steps: seq<Step>, i: nat, j: nat)
    requires IsRun(states, steps) && i < j < |steps| && steps[i].LoopClose? && steps[j].LoopReset?
    requires forall t :: i < t < j ==> !steps[t].LoopReset?
    ensures states[i].loop.Ending?
    ensures var before, after := states[j].emitted, states[j + 1].emitted;
            if states[i].loop.trailer.None? && states[i].ctxDone && steps[j].ok then
              |after| == |before| + 1 && after[..|before|] == before && IsReset(after[|before|]) && after[|before|].id == states[j].ident.id
            else after == before
  {
    CloseBegins(states[i], steps[i]);
    ClosingKeptUntil(states, steps, i + 1, j);
    ResetOfClosing(states[j], steps[j]);
  }

  lemma CloseBegins(cs: ClientStream, step: Step)
    requires Enabled(cs, step) && step.LoopClose?
    ensures cs.loop.Ending?
    ensures Next(cs, step).loop == ClosingReset(cs.loop.err, cs.loop.trailer, cs.loop.trailer.None? && cs.ctxDone)
  {
  }

  lemma ResetOfClosing(cs: ClientStream, step: Step)
    requires Enabled(cs, step) && step.LoopReset?
    ensures cs.loop.ClosingReset?
    ensures Next(cs, step).emitted == if cs.loop.sendRst && step.ok then cs.emitted + [ResetFrame(cs.ident)] else cs.emitted
    ensures IsReset(ResetFrame(cs.ident)) && ResetFrame(cs.ident).id == cs.ident.id
  {
  }

  /** A context that is done stays done, and a failed `SendMsg` has cancelled it. */
  predicate FailedCancels(cs: ClientStream) {
    SendFailed in cs.sendAnswers ==> cs.ctxDone
  }

  lemma StepFailedCancels(cs: ClientStream, step: Step)
    requires Enabled(cs, step) && FailedCancels(cs)
    ensures FailedCancels(Next(cs, step)) && (cs.ctxDone ==> Next(cs, step).ctxDone)
  {
    hide MetadataCodec.Decode, Handle, OnReady, ToStatusError, BodyFrame, CloseSendFrame, ResetFrame;
    if step.LoopHandle? {
      HandleKeepsContext(cs, cs.loop.rpc, MetadataCodec.Decode(HeaderOf(cs.loop.rpc)));
    } else if step.LoopReadError? {
      ReadyKeepsContext(cs);
    }
  }

  lemma HandleKeepsContext(cs: ClientStream, rpc: Rpc, md: Option<Metadata>)
    ensures Handle(cs, rpc, md).ctxDone == cs.ctxDone && Handle(cs, rpc, md).sendAnswers == cs.sendAnswers
  {
  }

  lemma ReadyKeepsContext(cs: ClientStream)
    ensures forall err, md :: OnReady(cs, err, md).ctxDone == cs.ctxDone && OnReady(cs, err, md).sendAnswers == cs.sendAnswers
  {
  }

  /** A `SendMsg` that failed has torn the stream's context down, in every run. */
  lemma {:induction false} FailedSendCancels(states: seq<ClientStream>, steps: seq<Step>, i: nat)
    requires IsRun(states, steps) && i < |states|
    ensures FailedCancels(states[i])
  {
    hide Enabled, Next, FailedCancels;
    if i == 0 {
      StartCancels(states[0].ident);
    } else {
      FailedSendCancels(states, steps, i - 1);
      StepFailedCancels(states[i - 1], steps[i - 1]);
    }
  }

  lemma StartCancels(ident: Identity)
    ensures FailedCancels(Start(ident))
  {
  }

  // What `SendMsg` writes.

  /** The message being written at `i` is that of the last `SendMsg` called, by step `u`. */
  predicate CalledBy(states: seq<ClientStream>, steps: seq<Step>, i: nat, u: nat)
    requires i < |states| && |states| == |steps| + 1
  {
    && u < i && states[i].send.SendWriting? && steps[u] == SendCall(states[i].send.body, true)
    && (forall v :: u < v < i ==> !steps[v].SendCall?)
  }

  lemma SendSet(cs: ClientStream, step: Step)
    requires Enabled(cs, step) && Next(cs, step).send.SendWriting?
    ensures step.SendCall? ==> step == SendCall(Next(cs, step).send.body, true)
    ensures !step.SendCall? ==> Next(cs, step).send == cs.send
  {
    hide MetadataCodec.Decode, Handle, OnReady, ToStatusError, BodyFrame, CloseSendFrame, ResetFrame;
    if step.LoopHandle? {
      HandleKeepsSend(cs, cs.loop.rpc, MetadataCodec.Decode(HeaderOf(cs.loop.rpc)));
    } else if step.LoopReadError? {
      ReadyKeepsSend(cs);
    }
  }

  lemma HandleKeepsSend(cs: ClientStream, rpc: Rpc, md: Option<Metadata>)
    ensures Handle(cs, rpc, md).send == cs.send
  {
  }

  lemma ReadyKeepsSend(cs: ClientStream)
    ensures forall err, md :: OnReady(cs, err, md).send == cs.send
  {
  }

  /** The message being written is the one that `SendMsg` was called with. */
  lemma {:induction false} SendingIsCalled(states: seq<ClientStream>, steps: seq<Step>, i: nat) returns (u: nat)
    requires IsRun(states, steps) && i < |states| && states[i].send.SendWriting?
    ensures CalledBy(states, steps, i, u)
  {
    hide Enabled, Next;
    if i > 0 {
      SendSet(states[i - 1], steps[i - 1]);
      if steps[i - 1].SendCall? {
        u := i - 1;
      } else {
        u := SendingIsCalled(states, steps, i - 1);
      }
    }
  }

  /**
    Each message that `SendMsg` writes, in every run: a write that succeeds adds one frame, whose body
    is that of the last `SendMsg` called, and the call answers that it was sent.
   */
  lemma WritesWhatWasCalled(states: seq<ClientStream>, steps: seq<Step>, i: nat) returns (u: nat)
    requires IsRun(states, steps) && i < |steps| && steps[i] == SendWrite(true)
    ensures u < i && steps[u].SendCall? && forall v :: u < v < i ==> !steps[v].SendCall?
    ensures var before, after := states[i].emitted, states[i + 1].emitted;
            |after| == |before| + 1 && after[..|before|] == before
            && after[|before|].body == Some(steps[u].body) && after[|before|].id == states[i].ident.id
    ensures states[i + 1].sendAnswers == states[i].sendAnswers + [Sent(steps[u].body)]
  {
    u := SendingIsCalled(states, steps, i);
  }

  // A body next to a trailer.

  /** A stream that ended by a trailer has received every body it got, exactly when there was none next to the trailer. */
  lemma BodyNextToTrailer(states: seq<ClientStream>, steps: seq<Step>, i: nat)
    requires IsRun(states, steps) && i < |states| && states[i].done && states[i].trailer.Some?
    ensures |states[i].inbox| > 0
    ensures Received(states[i].recvAnswers) == Bodies(states[i].inbox) <==> Last(states[i].inbox).body.None?
  {
    hide Enabled, Next, LifecycleInv, EmissionInv, HeaderInv;
    InvAlongRun(states, steps, i);
    DoneFacts(states[i]);
    BodiesOfLast(states[i]);
    assert Bodies(Init(states[i].inbox)) + [] == Bodies(Init(states[i].inbox));
  }

  /** The body is dropped: for every such frame that decodes, some run reports io.EOF and never hands the body out. */
  lemma BodyNextToTrailerDropped(ident: Identity, rpc: Rpc) returns (cs: ClientStream)
    requires Decodes(rpc) && ErrorIfDone(rpc) == Some(EOF) && rpc.body.Some?
    ensures Reached(cs) && cs.inbox == [rpc] && Bodies(cs.inbox) == [rpc.body.value]
    ensures cs.recvAnswers == [Stored(Some(EOF))] && Received(cs.recvAnswers) == []
  {
    hide MetadataCodec.Decode, Reached, Handle, OnReady, BodyFrame, CloseSendFrame, ResetFrame, ToStatusError;
    var md := MetadataCodec.Decode(HeaderOf(rpc)).value;
    EndingOkReached(ident, rpc);
    EndedOkReached(ident, rpc, md);
    var ended := EndingOk(ident, rpc, md, Finished);
    cs := ended.(recv := RecvIdle, recvAnswers := [Stored(Some(EOF))]);
    assert [] + [Stored(Some(EOF))] == [Stored(Some(EOF))];
    StepReached(ended, RecvClosed, ended.(recv := RecvSawClosed));
    StepReached(ended.(recv := RecvSawClosed), RecvAfterClosed, cs);
    BodiesAppend([], rpc);
    assert [] + [rpc] == [rpc];
    ReceivedAppend([], Stored(Some(EOF)));
  }

  // Trailer metadata.

  /** `Trailer()` on a stream that is done; `None` is its panic. */
  function TrailerOf(cs: ClientStream): Option<Metadata> {
    if cs.trailer.None? then Some(map[]) else MetadataCodec.Decode(cs.trailer.value.metadata)
  }

  /**
    For every peer: `Trailer()` panics exactly when the last frame got is a trailer frame whose
    trailer does not decode, and it was looked at.
   */
  lemma TrailerPanicsExactly(states: seq<ClientStream>, steps: seq<Step>, i: nat)
    requires IsRun(states, steps) && i < |states| && states[i].done
    ensures var inbox := states[i].inbox;
            TrailerOf(states[i]).None? <==>
            && |inbox| > 0 && Last(inbox).trailer.Some? && !UndecodableEnd(inbox)
            && MetadataCodec.Decode(Last(inbox).trailer.value.metadata).None?
  {
    hide Enabled, Next, LifecycleInv, EmissionInv, UndecodableEnd, HeaderFromFirst, MetadataCodec.Decode, OkReadBefore;
    InvAlongRun(states, steps, i);
    NilEndAlongRun(states, steps, i);
    DoneFacts(states[i]);
  }

  /**
    Delivery, for an arbitrary peer: the application has received a prefix of the bodies of the
    frames got so far, and when `RecvMsg` has reported io.EOF it has received exactly the bodies of
    the frames before the first trailer, and that trailer says OK.
   */
  lemma Delivery(states: seq<ClientStream>, steps: seq<Step>, i: nat)
    requires IsRun(states, steps) && i < |states|
    ensures Received(states[i].recvAnswers) <= Bodies(states[i].inbox)
    ensures Stored(Some(EOF)) in states[i].recvAnswers ==>
              var inbox := states[i].inbox;
              && EndedByTrailer(inbox, Received(states[i].recvAnswers))
              && StatusCode(Last(inbox)) == CODE_OK
              && Received(states[i].recvAnswers) == Bodies(BeforeTrailer(inbox))
  {
    InvAlongRun(states, steps, i);
    DeliveryFromInv(states[i]);
  }

  lemma DeliveryFromInv(cs: ClientStream)
    requires Inv(cs)
    ensures Received(cs.recvAnswers) <= Bodies(cs.inbox)
    ensures Stored(Some(EOF)) in cs.recvAnswers ==>
              && EndedByTrailer(cs.inbox, Received(cs.recvAnswers))
              && StatusCode(Last(cs.inbox)) == CODE_OK
              && Received(cs.recvAnswers) == Bodies(BeforeTrailer(cs.inbox))
  {
    if |cs.inbox| > 0 {
      BodiesOfLast(cs);
    }
    if Stored(Some(EOF)) in cs.recvAnswers {
      BeforeTrailerUnique(cs.inbox, Init(cs.inbox));
    }
  }
}
