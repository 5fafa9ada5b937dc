/**
  One side of a connection: a client connection (client.go) with its multiplexer, any number of
  unary calls (`CallUnaryMethod`) and any number of client streams, against an arbitrary peer.
 */
module Clients {
  import opened Frames
  import opened Logs
  import Mux = Multiplexers
  import Streams = ClientStreams

  /** What `CallUnaryMethod` returns; `Reply(None)` is a nil body with a nil error. */
  datatype UnaryResult = Reply(body: Option<Body>) | Failed(err: Error)

  datatype UnaryPc =
    | UnaryNew
    | UnaryRegistered
    | UnaryWaiting
    | UnaryLeaving(result: UnaryResult)
    | UnaryReturned(result: UnaryResult)

  /** A unary call; `answer` is the response frame it took. */
  datatype UnaryCall = UnaryCall(request: Rpc, pc: UnaryPc, written: bool, answer: Option<Rpc>)

  datatype StreamPc = StreamNew | StreamRegistered | StreamOpen | StreamNotOpened

  datatype StreamCall = StreamCall(opening: Rpc, pc: StreamPc, cs: Streams.ClientStream)

  datatype Client = Client(
    mux: Mux.Multiplexer,
    unary: map<nat, UnaryCall>,
    streams: map<nat, StreamCall>,
    outLog: seq<Rpc>)                // frames written to the transport

  datatype Step =
    | NewUnary(chan: nat, header: RequestHeader, body: Body)
    | NewStream(chan: nat, header: RequestHeader)
    | RegisterUnary(id: nat)
    | RegisterStream(id: nat)
    | WriteRequest(id: nat, ok: bool)
    | TakeResponse(id: nat)
    | AbandonCall(id: nat, err: Error)
    | LeaveCall(id: nat)
    | WriteOpening(id: nat, ok: bool)
    | OnStream(id: nat, step: Streams.Step)
    | Read(rpc: Rpc)
    | Push
    | CloseError(cause: Option<Error>)

  const Fresh := Client(Mux.Fresh, map[], map[], [])

  /** `CallUnaryMethod` on a response frame: a status, even next to a body, decides. */
  function Answer(resp: Rpc): UnaryResult {
    if resp.status.Some? then
      if resp.status.value.code == CODE_OK then Reply(None) else Failed(WithStatus(resp.status.value))
    else if resp.body.Some? then Reply(resp.body)
    else Failed(Plain("malformed response: no body or status"))
  }

  function IdentityOf(id: nat, header: RequestHeader): Streams.Identity {
    Streams.Identity(id, header.fullMethod, header.source, header.destination)
  }

  /** The multiplexer step that a step of a client stream makes along with its own, if any. */
  function MuxPart(id: nat, step: Streams.Step): Option<Mux.Step> {
    match step
    case LoopRead(_) => Some(Mux.Take(id))
    case LoopUnregister => Some(Mux.Unregister(id))
    case SendUnregister => Some(Mux.Unregister(id))
    case _ => None
  }

  /** What a step of a client stream needs from the multiplexer. */
  predicate MuxAllows(m: Mux.Multiplexer, id: nat, cs: Streams.ClientStream, step: Streams.Step) {
    && id in m.owner && m.owner[id] in m.chans
    && var ch := m.chans[m.owner[id]];
       && (step.LoopRead? ==> Mux.HasItem(ch) && step.rpc == ch.sent[ch.taken])
       && (step.LoopReadError? ==> cs.ctxDone || (ch.closed && !Mux.HasItem(ch)))
       && (MuxPart(id, step).Some? ==> Mux.Enabled(m, MuxPart(id, step).value))
  }

  predicate Enabled(c: Client, step: Step) {
    match step
    case NewUnary(chan, _, _) => Mux.Enabled(c.mux, Mux.Allocate(chan))
    case NewStream(chan, _) => Mux.Enabled(c.mux, Mux.Allocate(chan))
    case RegisterUnary(id) => id in c.unary && c.unary[id].pc.UnaryNew? && Mux.Enabled(c.mux, Mux.Register(id))
    case RegisterStream(id) => id in c.streams && c.streams[id].pc.StreamNew? && Mux.Enabled(c.mux, Mux.Register(id))
    case WriteRequest(id, _) => id in c.unary && c.unary[id].pc.UnaryRegistered?
    case TakeResponse(id) => id in c.unary && c.unary[id].pc.UnaryWaiting? && Mux.Enabled(c.mux, Mux.Take(id))
    case AbandonCall(id, _) => id in c.unary && c.unary[id].pc.UnaryWaiting?
    case LeaveCall(id) => id in c.unary && c.unary[id].pc.UnaryLeaving? && Mux.Enabled(c.mux, Mux.Unregister(id))
    case WriteOpening(id, _) => id in c.streams && c.streams[id].pc.StreamRegistered?
    case OnStream(id, step) =>
      && id in c.streams && c.streams[id].pc.StreamOpen?
      && Streams.Enabled(c.streams[id].cs, step) && MuxAllows(c.mux, id, c.streams[id].cs, step)
    case Read(rpc) => Mux.Enabled(c.mux, Mux.Deliver(rpc))
    case Push => Mux.Enabled(c.mux, Mux.Push)
    case CloseError(err) => Mux.Enabled(c.mux, Mux.CloseError(err))
  }

  /** The frames that a step of a client stream writes. */
  function Emits(cs: Streams.ClientStream, step: Streams.Step): seq<Rpc>
    requires Streams.Enabled(cs, step)
  {
    var cs' := Streams.Next(cs, step);
    if |cs.emitted| <= |cs'.emitted| then cs'.emitted[|cs.emitted|..] else []
  }

  /** `c` with one unary call changed, the multiplexer at `m`, and some frames written. */
  function PutUnary(c: Client, m: Mux.Multiplexer, id: nat, uc: UnaryCall, frames: seq<Rpc>): Client {
    c.(mux := m, unary := c.unary[id := uc], outLog := c.outLog + frames)
  }

  function PutStream(c: Client, m: Mux.Multiplexer, id: nat, sc: StreamCall, frames: seq<Rpc>): Client {
    c.(mux := m, streams := c.streams[id := sc], outLog := c.outLog + frames)
  }

  function Request(id: nat, header: RequestHeader, body: Body): Rpc {
    Rpc(id, Some(header), None, Some(body), None, None)
  }

  function Opening(id: nat, header: RequestHeader): Rpc {
    Rpc(id, Some(header), None, None, None, None)
  }

  function StartUnary(id: nat, header: RequestHeader, body: Body): UnaryCall {
    UnaryCall(Request(id, header, body), UnaryNew, false, None)
  }

  function StartStream(id: nat, header: RequestHeader): StreamCall {
    StreamCall(Opening(id, header), StreamNew, Streams.Start(IdentityOf(id, header)))
  }

  /** A unary call after its request was written, or could not be. */
  function Requested(uc: UnaryCall, ok: bool): UnaryCall {
    if ok then uc.(pc := UnaryWaiting, written := true)
    else uc.(pc := UnaryLeaving(Failed(Plain("write error"))))
  }

  function Answered(uc: UnaryCall, resp: Rpc): UnaryCall {
    uc.(pc := UnaryLeaving(Answer(resp)), answer := Some(resp))
  }

  function StepStream(c: Client, id: nat, step: Streams.Step): Client
    requires Enabled(c, OnStream(id, step))
  {
    var sc := c.streams[id];
    var part := MuxPart(id, step);
    PutStream(c, if part.Some? then Mux.Next(c.mux, part.value) else c.mux, id,
              sc.(cs := Streams.Next(sc.cs, step)), Emits(sc.cs, step))
  }

  function Next(c: Client, step: Step): Client
    requires Enabled(c, step)
  {
    match step
    case NewUnary(chan, header, body) =>
      var id := c.mux.streamCounter + 1;
      PutUnary(c, Mux.Next(c.mux, Mux.Allocate(chan)), id, StartUnary(id, header, body), [])
    case NewStream(chan, header) =>
      var id := c.mux.streamCounter + 1;
      PutStream(c, Mux.Next(c.mux, Mux.Allocate(chan)), id, StartStream(id, header), [])
    case RegisterUnary(id) =>
      PutUnary(c, Mux.Next(c.mux, Mux.Register(id)), id, c.unary[id].(pc := UnaryRegistered), [])
    case RegisterStream(id) =>
      PutStream(c, Mux.Next(c.mux, Mux.Register(id)), id, c.streams[id].(pc := StreamRegistered), [])
    case WriteRequest(id, ok) =>
      PutUnary(c, c.mux, id, Requested(c.unary[id], ok), if ok then [c.unary[id].request] else [])
    case TakeResponse(id) =>
      var ch := c.mux.chans[c.mux.owner[id]];
      PutUnary(c, Mux.Next(c.mux, Mux.Take(id)), id, Answered(c.unary[id], ch.sent[ch.taken]), [])
    case AbandonCall(id, err) => PutUnary(c, c.mux, id, c.unary[id].(pc := UnaryLeaving(Failed(err))), [])
    case LeaveCall(id) =>
      PutUnary(c, Mux.Next(c.mux, Mux.Unregister(id)), id, c.unary[id].(pc := UnaryReturned(c.unary[id].pc.result)), [])
    case WriteOpening(id, ok) =>
      PutStream(c, c.mux, id, c.streams[id].(pc := if ok then StreamOpen else StreamNotOpened),
                if ok then [c.streams[id].opening] else [])
    case OnStream(id, step) => StepStream(c, id, step)
    case Read(rpc) => c.(mux := Mux.Next(c.mux, Mux.Deliver(rpc)))
    case Push => c.(mux := Mux.Next(c.mux, Mux.Push))
    case CloseError(err) => c.(mux := Mux.Next(c.mux, Mux.CloseError(err)))
  }

  // ----- invariant

  /** What a stream call has written so far. */
  function StreamWrites(sc: StreamCall): seq<Rpc> {
    if sc.pc.StreamOpen? then [sc.opening] + sc.cs.emitted else []
  }

  /** What the call with this id has written so far. */
  function WrittenBy(c: Client, id: nat): seq<Rpc> {
    if id in c.streams then StreamWrites(c.streams[id])
    else if id in c.unary then
      UnaryWritten(c.unary[id])
    else []
  }

  /** The transport log, projected on an id, is what the call with that id wrote. */
  ghost predicate WriteInv(c: Client) {
    forall id: nat :: On(id, c.outLog) == WrittenBy(c, id)
  }

  predicate KeysInv(c: Client) {
    && c.streams.Keys !! c.unary.Keys
    && c.streams.Keys + c.unary.Keys == c.mux.owner.Keys
  }

  predicate OpeningOk(opening: Rpc, id: nat, ident: Streams.Identity) {
    && opening.header.Some?
    && opening == Rpc(id, opening.header, None, None, None, None)
    && ident == IdentityOf(id, opening.header.value)
  }

  predicate RequestOk(request: Rpc, id: nat) {
    request.header.Some? && request.body.Some? && request == Rpc(id, request.header, None, request.body, None, None)
  }

  /** The state of a stream call against its response channel. */
  predicate StreamOk(sc: StreamCall, id: nat, ch: Mux.Chan, registered: bool) {
    && OpeningOk(sc.opening, id, sc.cs.ident)
    && Streams.Inv(sc.cs)
    && ch.taken <= |ch.sent|
    && sc.cs.inbox == ch.sent[..ch.taken]
    && (sc.pc.StreamNew? <==> !registered)
    && (!sc.pc.StreamOpen? ==> sc.cs.emitted == [])
  }

  predicate UnaryOk(uc: UnaryCall, id: nat, ch: Mux.Chan, registered: bool) {
    && RequestOk(uc.request, id)
    && (uc.pc.UnaryNew? <==> !registered)
    && (uc.pc.UnaryNew? || uc.pc.UnaryRegistered? ==> !uc.written)
    && (uc.pc.UnaryWaiting? ==> uc.written && uc.answer.None?)
    && (uc.pc.UnaryWaiting? || uc.pc.UnaryNew? || uc.pc.UnaryRegistered? ==> ch.taken == 0)
    && (uc.answer.Some? ==>
          && uc.written && |ch.sent| > 0 && uc.answer.value == ch.sent[0]
          && (uc.pc.UnaryLeaving? || uc.pc.UnaryReturned?) && uc.pc.result == Answer(uc.answer.value))
    && (uc.answer.None? && (uc.pc.UnaryLeaving? || uc.pc.UnaryReturned?) ==> uc.pc.result.Failed?)
  }

  predicate CallsInv(c: Client)
    requires KeysInv(c) && Mux.Owned(c.mux)
  {
    && (forall id :: id in c.streams ==> StreamOk(c.streams[id], id, Mux.ChanOf(c.mux, id), id in c.mux.registered))
    && (forall id :: id in c.unary ==> UnaryOk(c.unary[id], id, Mux.ChanOf(c.mux, id), id in c.mux.registered))
  }

  ghost predicate Inv(c: Client) {
    && Mux.Inv(c.mux) && Mux.FeedInv(c.mux)
    && KeysInv(c) && CallsInv(c) && WriteInv(c)
  }

  lemma FreshInv()
    ensures Inv(Fresh)
  {
  }

  // ----- the steps keep it

  lemma StreamOkGrows(sc: StreamCall, id: nat, a: Mux.Chan, b: Mux.Chan, registered: bool)
    requires StreamOk(sc, id, a, registered) && Mux.ChanGrows(a, b)
    ensures StreamOk(sc, id, b, registered)
  {
    hide Streams.Inv;
    assert a.sent[..a.taken] == b.sent[..b.taken];
  }

  lemma UnaryOkGrows(uc: UnaryCall, id: nat, a: Mux.Chan, b: Mux.Chan, registered: bool)
    requires UnaryOk(uc, id, a, registered) && Mux.ChanGrows(a, b)
    ensures UnaryOk(uc, id, b, registered)
  {
    hide Answer;
  }

  /** The calls other than `id` are as before. */
  predicate OthersSame(c: Client, c': Client, id: nat) {
    && (forall k :: k in c'.streams && k != id ==> k in c.streams && c'.streams[k] == c.streams[k])
    && (forall k :: k in c'.unary && k != id ==> k in c.unary && c'.unary[k] == c.unary[k])
  }

  /** The call `id`, if there is one, is well-formed. */
  predicate CallOk(c: Client, id: nat)
    requires KeysInv(c) && Mux.Owned(c.mux)
  {
    && (id in c.streams ==> StreamOk(c.streams[id], id, Mux.ChanOf(c.mux, id), id in c.mux.registered))
    && (id in c.unary ==> UnaryOk(c.unary[id], id, Mux.ChanOf(c.mux, id), id in c.mux.registered))
  }

  lemma CallsKept(c: Client, c': Client, id: nat)
    requires KeysInv(c) && Mux.Owned(c.mux) && KeysInv(c') && Mux.Owned(c'.mux)
    requires CallsInv(c) && OthersSame(c, c', id) && Mux.OthersGrow(c.mux, c'.mux, id)
    requires CallOk(c', id)
    ensures CallsInv(c')
  {
    hide StreamOk, UnaryOk;
    forall k | k in c'.streams && k != id
      ensures StreamOk(c'.streams[k], k, Mux.ChanOf(c'.mux, k), k in c'.mux.registered)
    {
      StreamOkGrows(c.streams[k], k, Mux.ChanOf(c.mux, k), Mux.ChanOf(c'.mux, k), k in c.mux.registered);
    }
    forall k | k in c'.unary && k != id
      ensures UnaryOk(c'.unary[k], k, Mux.ChanOf(c'.mux, k), k in c'.mux.registered)
    {
      UnaryOkGrows(c.unary[k], k, Mux.ChanOf(c.mux, k), Mux.ChanOf(c'.mux, k), k in c.mux.registered);
    }
  }

  /** One call wrote some frames of its own. */
  lemma {:induction false} Wrote(c: Client, c': Client, id: nat, frames: seq<Rpc>)
    requires WriteInv(c) && OthersSame(c, c', id) && OthersSame(c', c, id)
    requires c'.outLog == c.outLog + frames
    requires forall i :: 0 <= i < |frames| ==> frames[i].id == id
    requires WrittenBy(c', id) == WrittenBy(c, id) + frames
    ensures WriteInv(c')
  {
    hide On, WrittenBy;
    forall k: nat
      ensures On(k, c'.outLog) == WrittenBy(c', k)
    {
      OnConcat(k, c.outLog, frames);
      OnAll(k, frames);
      if k != id {
        WrittenBySame(c, c', id, k);
        assert WrittenBy(c, k) + [] == WrittenBy(c, k);
      }
    }
  }

  lemma WrittenBySame(c: Client, c': Client, id: nat, k: nat)
    requires OthersSame(c, c', id) && OthersSame(c', c, id) && k != id
    ensures WrittenBy(c', k) == WrittenBy(c, k)
  {
    hide StreamWrites, UnaryWritten;
  }

  lemma {:induction false} OnAll(id: nat, frames: seq<Rpc>)
    ensures (forall i :: 0 <= i < |frames| ==> frames[i].id == id) ==> On(id, frames) == frames
    ensures (forall i :: 0 <= i < |frames| ==> frames[i].id != id) ==> On(id, frames) == []
  {
    if |frames| > 0 {
      OnAll(id, frames[..|frames| - 1]);
    }
  }

  /** The multiplexer's part of a step. */
  lemma MuxPartKept(c: Client, step: Mux.Step)
    requires Inv(c) && Mux.Enabled(c.mux, step)
    ensures Mux.Owned(c.mux)
    ensures var m' := Mux.Next(c.mux, step);
            && Mux.Inv(m') && Mux.Owned(m') && Mux.FeedInv(m') && Mux.OthersGrow(c.mux, m', Mux.Target(c.mux, step))
            && m'.owner.Keys == c.mux.owner.Keys + (if step.Allocate? then {c.mux.streamCounter + 1} else {})
  {
    Mux.StepKeepsFeed(c.mux, step);
    Mux.StepOnOthers(c.mux, step);
  }

  /** Everything a step has to show, given what it does to the call `id`. */
  lemma StepKept(c: Client, c': Client, id: nat, frames: seq<Rpc>)
    requires Inv(c) && Mux.Inv(c'.mux) && Mux.FeedInv(c'.mux) && KeysInv(c')
    requires OthersSame(c, c', id) && OthersSame(c', c, id) && Mux.OthersGrow(c.mux, c'.mux, id)
    requires CallOk(c', id)
    requires c'.outLog == c.outLog + frames
    requires forall i :: 0 <= i < |frames| ==> frames[i].id == id
    requires WrittenBy(c', id) == WrittenBy(c, id) + frames
    ensures Inv(c')
  {
    hide WriteInv, Mux.FeedInv, CallsInv, CallOk;
    CallsKept(c, c', id);
    Wrote(c, c', id, frames);
  }

  /** The invariant, as far as it is about one call. */
  lemma Facts(c: Client, id: nat)
    requires Inv(c)
    ensures Mux.Inv(c.mux) && Mux.Owned(c.mux) && Mux.FeedInv(c.mux) && KeysInv(c) && CallOk(c, id)
  {
  }

  lemma MuxUntouched(m: Mux.Multiplexer, id: nat)
    requires Mux.Inv(m)
    ensures Mux.OthersGrow(m, m, id)
  {
  }

  lemma ChanOfIs(m: Mux.Multiplexer, id: nat)
    requires Mux.Owned(m) && id in m.owner
    ensures Mux.ChanOf(m, id) == m.chans[m.owner[id]]
  {
  }

  lemma NoZero(m: Mux.Multiplexer)
    requires Mux.Inv(m)
    ensures 0 !in m.owner
  {
  }

  lemma UnregisterGrows(m: Mux.Multiplexer, m': Mux.Multiplexer, id: nat)
    requires Mux.Inv(m) && Mux.Enabled(m, Mux.Unregister(id)) && m' == Mux.Next(m, Mux.Unregister(id)) && Mux.Inv(m')
    requires Mux.OthersGrow(m, m', 0)
    ensures Mux.OthersGrow(m, m', id)
    ensures id in m'.owner && id in m.owner && Mux.ChanGrows(Mux.ChanOf(m, id), Mux.ChanOf(m', id))
    ensures id in m'.registered && id in m.registered
  {
    NoZero(m);
  }

  // What each step makes of the one call it is about.

  lemma StartUnaryOk(id: nat, header: RequestHeader, body: Body)
    ensures UnaryOk(StartUnary(id, header, body), id, Mux.Chan([], 0, false), false)
  {
  }

  lemma StartStreamOk(id: nat, header: RequestHeader)
    ensures StreamOk(StartStream(id, header), id, Mux.Chan([], 0, false), false)
  {
  }

  lemma UnaryRegisters(uc: UnaryCall, id: nat, ch: Mux.Chan)
    requires UnaryOk(uc, id, ch, false) && uc.pc.UnaryNew?
    ensures UnaryOk(uc.(pc := UnaryRegistered), id, ch, true)
  {
  }

  lemma StreamRegisters(sc: StreamCall, id: nat, ch: Mux.Chan)
    requires StreamOk(sc, id, ch, false) && sc.pc.StreamNew?
    ensures StreamOk(sc.(pc := StreamRegistered), id, ch, true)
  {
    hide Streams.Inv;
  }

  lemma UnaryWrites(uc: UnaryCall, id: nat, ch: Mux.Chan, registered: bool, ok: bool)
    requires UnaryOk(uc, id, ch, registered) && uc.pc.UnaryRegistered?
    ensures UnaryOk(Requested(uc, ok), id, ch, registered)
    ensures !uc.written && uc.request.id == id
  {
  }

  lemma StreamOpens(sc: StreamCall, id: nat, ch: Mux.Chan, registered: bool, ok: bool)
    requires StreamOk(sc, id, ch, registered) && sc.pc.StreamRegistered?
    ensures StreamOk(sc.(pc := if ok then StreamOpen else StreamNotOpened), id, ch, registered)
    ensures sc.opening.id == id && sc.cs.emitted == []
  {
    hide Streams.Inv;
  }

  lemma UnaryTakes(uc: UnaryCall, id: nat, ch: Mux.Chan, registered: bool)
    requires UnaryOk(uc, id, ch, registered) && uc.pc.UnaryWaiting? && Mux.HasItem(ch)
    ensures UnaryOk(Answered(uc, ch.sent[ch.taken]), id, ch.(taken := ch.taken + 1), registered)
  {
    hide Answer;
  }

  lemma UnaryAbandons(uc: UnaryCall, id: nat, ch: Mux.Chan, registered: bool, err: Error)
    requires UnaryOk(uc, id, ch, registered) && uc.pc.UnaryWaiting?
    ensures UnaryOk(uc.(pc := UnaryLeaving(Failed(err))), id, ch, registered)
  {
  }

  lemma UnaryReturns(uc: UnaryCall, id: nat, ch: Mux.Chan)
    requires UnaryOk(uc, id, ch, true) && uc.pc.UnaryLeaving?
    ensures UnaryOk(uc.(pc := UnaryReturned(uc.pc.result)), id, ch, true)
  {
    hide Answer;
  }

  // The three shapes of a step: on one unary call, on one stream call, on the multiplexer alone.

  function UnaryWritten(uc: UnaryCall): seq<Rpc> {
    if uc.written then [uc.request] else []
  }

  lemma UnaryStepKept(c: Client, m: Mux.Multiplexer, id: nat, uc: UnaryCall, frames: seq<Rpc>)
    requires Inv(c) && id !in c.streams
    requires Mux.Inv(m) && Mux.Owned(m) && Mux.FeedInv(m) && Mux.OthersGrow(c.mux, m, id)
    requires m.owner.Keys == c.mux.owner.Keys + {id}
    requires UnaryOk(uc, id, Mux.ChanOf(m, id), id in m.registered)
    requires forall i :: 0 <= i < |frames| ==> frames[i].id == id
    requires UnaryWritten(uc) == (if id in c.unary then UnaryWritten(c.unary[id]) else []) + frames
    ensures Inv(PutUnary(c, m, id, uc, frames))
  {
    hide Inv, CallsInv, StreamOk, UnaryOk, WriteInv, Mux.Inv, Mux.FeedInv, Mux.OthersGrow, Mux.Owned, Mux.ChanOf;
    Facts(c, id);
    StepKept(c, PutUnary(c, m, id, uc, frames), id, frames);
  }

  lemma StreamStepKept(c: Client, m: Mux.Multiplexer, id: nat, sc: StreamCall, frames: seq<Rpc>)
    requires Inv(c) && id !in c.unary
    requires Mux.Inv(m) && Mux.Owned(m) && Mux.FeedInv(m) && Mux.OthersGrow(c.mux, m, id)
    requires m.owner.Keys == c.mux.owner.Keys + {id}
    requires StreamOk(sc, id, Mux.ChanOf(m, id), id in m.registered)
    requires forall i :: 0 <= i < |frames| ==> frames[i].id == id
    requires StreamWrites(sc) == (if id in c.streams then StreamWrites(c.streams[id]) else []) + frames
    ensures Inv(PutStream(c, m, id, sc, frames))
  {
    hide Inv, CallsInv, StreamOk, UnaryOk, WriteInv, Mux.Inv, Mux.FeedInv, Mux.OthersGrow, Mux.Owned, Mux.ChanOf;
    Facts(c, id);
    StepKept(c, PutStream(c, m, id, sc, frames), id, frames);
  }

  lemma MuxStepKept(c: Client, m: Mux.Multiplexer)
    requires Inv(c)
    requires Mux.Inv(m) && Mux.Owned(m) && Mux.FeedInv(m) && Mux.OthersGrow(c.mux, m, 0)
    requires m.owner.Keys == c.mux.owner.Keys
    ensures Inv(c.(mux := m))
  {
    hide Inv, CallsInv, StreamOk, UnaryOk, WriteInv, Mux.Inv, Mux.FeedInv, Mux.OthersGrow, Mux.Owned, Mux.ChanOf;
    Facts(c, 0);
    NoZero(c.mux);
    StepKept(c, c.(mux := m), 0, []);
  }

  lemma NewUnaryKeepsInv(c: Client, step: Step)
    requires Inv(c) && Enabled(c, step) && step.NewUnary?
    ensures Inv(Next(c, step))
  {
    hide Inv, CallsInv, StreamOk, UnaryOk, WriteInv, Answer, PutUnary, PutStream, Mux.Inv, Mux.FeedInv, Mux.Next, Mux.Enabled, Mux.OthersGrow, Mux.Owned, Mux.ChanOf, Streams.Inv, Streams.Start;
    Facts(c, c.mux.streamCounter + 1);
    var id := c.mux.streamCounter + 1;
    MuxPartKept(c, Mux.Allocate(step.chan));
    Mux.AllocateEffect(c.mux, step.chan);
    StartUnaryOk(id, step.header, step.body);
    UnaryStepKept(c, Mux.Next(c.mux, Mux.Allocate(step.chan)), id, StartUnary(id, step.header, step.body), []);
  }

  lemma NewStreamKeepsInv(c: Client, step: Step)
    requires Inv(c) && Enabled(c, step) && step.NewStream?
    ensures Inv(Next(c, step))
  {
    hide Inv, CallsInv, StreamOk, UnaryOk, WriteInv, Answer, PutUnary, PutStream, Mux.Inv, Mux.FeedInv, Mux.Next, Mux.Enabled, Mux.OthersGrow, Mux.Owned, Mux.ChanOf, Streams.Inv, Streams.Start;
    Facts(c, c.mux.streamCounter + 1);
    var id := c.mux.streamCounter + 1;
    MuxPartKept(c, Mux.Allocate(step.chan));
    Mux.AllocateEffect(c.mux, step.chan);
    StartStreamOk(id, step.header);
    StreamStepKept(c, Mux.Next(c.mux, Mux.Allocate(step.chan)), id, StartStream(id, step.header), []);
  }

  lemma RegisterUnaryKeepsInv(c: Client, step: Step)
    requires Inv(c) && Enabled(c, step) && step.RegisterUnary?
    ensures Inv(Next(c, step))
  {
    hide Inv, CallsInv, StreamOk, UnaryOk, WriteInv, Answer, PutUnary, PutStream, Mux.Inv, Mux.FeedInv, Mux.Next, Mux.Enabled, Mux.OthersGrow, Mux.Owned, Mux.ChanOf, Streams.Inv, Streams.Start;
    Facts(c, step.id);
    var uc := c.unary[step.id];
    MuxPartKept(c, Mux.Register(step.id));
    Mux.RegisterEffect(c.mux, step.id);
    UnaryRegisters(uc, step.id, Mux.ChanOf(c.mux, step.id));
    UnaryStepKept(c, Mux.Next(c.mux, Mux.Register(step.id)), step.id, uc.(pc := UnaryRegistered), []);
  }

  lemma RegisterStreamKeepsInv(c: Client, step: Step)
    requires Inv(c) && Enabled(c, step) && step.RegisterStream?
    ensures Inv(Next(c, step))
  {
    hide Inv, CallsInv, StreamOk, UnaryOk, WriteInv, Answer, PutUnary, PutStream, Mux.Inv, Mux.FeedInv, Mux.Next, Mux.Enabled, Mux.OthersGrow, Mux.Owned, Mux.ChanOf, Streams.Inv, Streams.Start;
    Facts(c, step.id);
    var sc := c.streams[step.id];
    MuxPartKept(c, Mux.Register(step.id));
    Mux.RegisterEffect(c.mux, step.id);
    StreamRegisters(sc, step.id, Mux.ChanOf(c.mux, step.id));
    StreamStepKept(c, Mux.Next(c.mux, Mux.Register(step.id)), step.id, sc.(pc := StreamRegistered), []);
  }

  lemma WriteRequestKeepsInv(c: Client, step: Step)
    requires Inv(c) && Enabled(c, step) && step.WriteRequest?
    ensures Inv(Next(c, step))
  {
    hide Inv, CallsInv, StreamOk, UnaryOk, WriteInv, Answer, PutUnary, PutStream, Mux.Inv, Mux.FeedInv, Mux.Next, Mux.Enabled, Mux.OthersGrow, Mux.Owned, Mux.ChanOf, Streams.Inv, Streams.Start;
    Facts(c, step.id);
    var uc := c.unary[step.id];
    MuxUntouched(c.mux, step.id);
    UnaryWrites(uc, step.id, Mux.ChanOf(c.mux, step.id), step.id in c.mux.registered, step.ok);
    UnaryStepKept(c, c.mux, step.id, Requested(uc, step.ok), if step.ok then [uc.request] else []);
  }

  lemma WriteOpeningKeepsInv(c: Client, step: Step)
    requires Inv(c) && Enabled(c, step) && step.WriteOpening?
    ensures Inv(Next(c, step))
  {
    hide Inv, CallsInv, StreamOk, UnaryOk, WriteInv, Answer, PutUnary, PutStream, Mux.Inv, Mux.FeedInv, Mux.Next, Mux.Enabled, Mux.OthersGrow, Mux.Owned, Mux.ChanOf, Streams.Inv, Streams.Start;
    Facts(c, step.id);
    var sc := c.streams[step.id];
    MuxUntouched(c.mux, step.id);
    StreamOpens(sc, step.id, Mux.ChanOf(c.mux, step.id), step.id in c.mux.registered, step.ok);
    StreamStepKept(c, c.mux, step.id, sc.(pc := if step.ok then StreamOpen else StreamNotOpened),
                   if step.ok then [sc.opening] else []);
  }

  lemma TakeResponseKeepsInv(c: Client, step: Step)
    requires Inv(c) && Enabled(c, step) && step.TakeResponse?
    ensures Inv(Next(c, step))
  {
    hide Inv, CallsInv, StreamOk, UnaryOk, WriteInv, Answer, PutUnary, PutStream, Mux.Inv, Mux.FeedInv, Mux.Next, Mux.Enabled, Mux.OthersGrow, Mux.Owned, Mux.ChanOf, Streams.Inv, Streams.Start;
    Facts(c, step.id);
    var uc, ch := c.unary[step.id], c.mux.chans[c.mux.owner[step.id]];
    MuxPartKept(c, Mux.Take(step.id));
    Mux.TakeEffect(c.mux, step.id);
    ChanOfIs(c.mux, step.id);
    UnaryTakes(uc, step.id, ch, step.id in c.mux.registered);
    UnaryStepKept(c, Mux.Next(c.mux, Mux.Take(step.id)), step.id, Answered(uc, ch.sent[ch.taken]), []);
  }

  lemma AbandonCallKeepsInv(c: Client, step: Step)
    requires Inv(c) && Enabled(c, step) && step.AbandonCall?
    ensures Inv(Next(c, step))
  {
    hide Inv, CallsInv, StreamOk, UnaryOk, WriteInv, Answer, PutUnary, PutStream, Mux.Inv, Mux.FeedInv, Mux.Next, Mux.Enabled, Mux.OthersGrow, Mux.Owned, Mux.ChanOf, Streams.Inv, Streams.Start;
    Facts(c, step.id);
    var uc := c.unary[step.id];
    MuxUntouched(c.mux, step.id);
    UnaryAbandons(uc, step.id, Mux.ChanOf(c.mux, step.id), step.id in c.mux.registered, step.err);
    UnaryStepKept(c, c.mux, step.id, uc.(pc := UnaryLeaving(Failed(step.err))), []);
  }

  lemma LeaveCallKeepsInv(c: Client, step: Step)
    requires Inv(c) && Enabled(c, step) && step.LeaveCall?
    ensures Inv(Next(c, step))
  {
    hide Inv, CallsInv, StreamOk, UnaryOk, WriteInv, Answer, PutUnary, PutStream, Mux.Inv, Mux.FeedInv, Mux.Next, Mux.Enabled, Mux.OthersGrow, Mux.Owned, Mux.ChanOf, Streams.Inv, Streams.Start;
    Facts(c, step.id);
    var uc, m := c.unary[step.id], Mux.Next(c.mux, Mux.Unregister(step.id));
    MuxPartKept(c, Mux.Unregister(step.id));
    UnregisterGrows(c.mux, m, step.id);
    UnaryReturns(uc, step.id, Mux.ChanOf(c.mux, step.id));
    var left := uc.(pc := UnaryReturned(uc.pc.result));
    UnaryOkGrows(left, step.id, Mux.ChanOf(c.mux, step.id), Mux.ChanOf(m, step.id), true);
    UnaryStepKept(c, m, step.id, left, []);
  }

  lemma ReadKeepsInv(c: Client, step: Step)
    requires Inv(c) && Enabled(c, step) && step.Read?
    ensures Inv(Next(c, step))
  {
    hide Inv, CallsInv, StreamOk, UnaryOk, WriteInv, Answer, PutUnary, PutStream, Mux.Inv, Mux.FeedInv, Mux.Next, Mux.Enabled, Mux.OthersGrow, Mux.Owned, Mux.ChanOf, Streams.Inv, Streams.Start;
    Facts(c, 0);
    MuxPartKept(c, Mux.Deliver(step.rpc));
    MuxStepKept(c, Mux.Next(c.mux, Mux.Deliver(step.rpc)));
  }

  lemma PushKeepsInv(c: Client, step: Step)
    requires Inv(c) && Enabled(c, step) && step.Push?
    ensures Inv(Next(c, step))
  {
    hide Inv, CallsInv, StreamOk, UnaryOk, WriteInv, Answer, PutUnary, PutStream, Mux.Inv, Mux.FeedInv, Mux.Next, Mux.Enabled, Mux.OthersGrow, Mux.Owned, Mux.ChanOf, Streams.Inv, Streams.Start;
    Facts(c, 0);
    MuxPartKept(c, Mux.Push);
    MuxStepKept(c, Mux.Next(c.mux, Mux.Push));
  }

  lemma CloseErrorKeepsInv(c: Client, step: Step)
    requires Inv(c) && Enabled(c, step) && step.CloseError?
    ensures Inv(Next(c, step))
  {
    hide Inv, CallsInv, StreamOk, UnaryOk, WriteInv, Answer, PutUnary, PutStream, Mux.Inv, Mux.FeedInv, Mux.Next, Mux.Enabled, Mux.OthersGrow, Mux.Owned, Mux.ChanOf, Streams.Inv, Streams.Start;
    Facts(c, 0);
    MuxPartKept(c, Mux.CloseError(step.cause));
    MuxStepKept(c, Mux.Next(c.mux, Mux.CloseError(step.cause)));
  }

  /** A step of an open client stream, given what its channel becomes. */
  lemma OpenStreamSteps(sc: StreamCall, id: nat, a: Mux.Chan, b: Mux.Chan, step: Streams.Step)
    requires StreamOk(sc, id, a, true) && sc.pc.StreamOpen? && Streams.Enabled(sc.cs, step)
    requires step.LoopRead? ==> Mux.HasItem(a) && step.rpc == a.sent[a.taken] && b == a.(taken := a.taken + 1)
    requires !step.LoopRead? ==> Mux.ChanGrows(a, b)
    ensures StreamOk(sc.(cs := Streams.Next(sc.cs, step)), id, b, true)
    ensures StreamWrites(sc.(cs := Streams.Next(sc.cs, step))) == StreamWrites(sc) + Emits(sc.cs, step)
    ensures forall i :: 0 <= i < |Emits(sc.cs, step)| ==> Emits(sc.cs, step)[i].id == id
  {
    hide Streams.Inv, Streams.Next, Streams.Enabled;
    Streams.StepKeepsInv(sc.cs, step);
    Streams.StepShape(sc.cs, step);
    var cs' := Streams.Next(sc.cs, step);
    assert cs'.emitted == sc.cs.emitted + Emits(sc.cs, step);
    assert b.sent[..b.taken] == cs'.inbox;
  }

  lemma OnStreamKeepsInv(c: Client, step: Step)
    requires Inv(c) && Enabled(c, step) && step.OnStream?
    ensures Inv(Next(c, step))
  {
    hide Inv, CallsInv, StreamOk, UnaryOk, WriteInv, Answer, PutUnary, PutStream, Mux.Inv, Mux.FeedInv, Mux.Next, Mux.Enabled, Mux.OthersGrow, Mux.Owned, Mux.ChanOf, Streams.Inv, Streams.Start, Streams.Next, Streams.Enabled, Emits, StreamWrites;
    Facts(c, step.id);
    var sc, part := c.streams[step.id], MuxPart(step.id, step.step);
    var m := if part.Some? then Mux.Next(c.mux, part.value) else c.mux;
    StreamMuxPart(c, step.id, step.step, m);
    ChanOfIs(c.mux, step.id);
    OpenStreamSteps(sc, step.id, Mux.ChanOf(c.mux, step.id), Mux.ChanOf(m, step.id), step.step);
    StreamStepKept(c, m, step.id, sc.(cs := Streams.Next(sc.cs, step.step)), Emits(sc.cs, step.step));
  }

  /** The multiplexer's part in a step of a client stream. */
  lemma StreamMuxPart(c: Client, id: nat, step: Streams.Step, m: Mux.Multiplexer)
    requires Inv(c) && id in c.streams && c.streams[id].pc.StreamOpen?
    requires MuxAllows(c.mux, id, c.streams[id].cs, step)
    requires m == if MuxPart(id, step).Some? then Mux.Next(c.mux, MuxPart(id, step).value) else c.mux
    ensures Mux.Owned(c.mux) && id in c.mux.owner && id in c.mux.registered
    ensures Mux.Inv(m) && Mux.Owned(m) && Mux.FeedInv(m) && Mux.OthersGrow(c.mux, m, id)
    ensures m.owner.Keys == c.mux.owner.Keys && id in m.owner && id in m.registered
    ensures if step.LoopRead? then
              Mux.ChanOf(m, id) == Mux.ChanOf(c.mux, id).(taken := Mux.ChanOf(c.mux, id).taken + 1)
            else Mux.ChanGrows(Mux.ChanOf(c.mux, id), Mux.ChanOf(m, id))
  {
    hide Inv, CallsInv, UnaryOk, WriteInv, Mux.Inv, Mux.FeedInv, Mux.Next, Mux.Enabled, Mux.OthersGrow, Mux.Owned, Mux.ChanOf, Streams.Inv, Streams.Enabled;
    Facts(c, id);
    if MuxPart(id, step).None? {
      MuxUntouched(c.mux, id);
      ChanReflexive(c.mux, id);
    } else {
      MuxPartKept(c, MuxPart(id, step).value);
      if step.LoopRead? {
        Mux.TakeEffect(c.mux, id);
      } else {
        UnregisterGrows(c.mux, m, id);
      }
    }
  }

  lemma ChanReflexive(m: Mux.Multiplexer, id: nat)
    requires Mux.Inv(m) && id in m.owner
    ensures Mux.ChanGrows(Mux.ChanOf(m, id), Mux.ChanOf(m, id))
  {
  }

  lemma StepKeepsInv(c: Client, step: Step)
    requires Inv(c) && Enabled(c, step)
    ensures Inv(Next(c, step))
  {
    hide Inv, Enabled, Next;
    match step
    case NewUnary(_, _, _) => NewUnaryKeepsInv(c, step);
    case NewStream(_, _) => NewStreamKeepsInv(c, step);
    case RegisterUnary(_) => RegisterUnaryKeepsInv(c, step);
    case RegisterStream(_) => RegisterStreamKeepsInv(c, step);
    case WriteRequest(_, _) => WriteRequestKeepsInv(c, step);
    case TakeResponse(_) => TakeResponseKeepsInv(c, step);
    case AbandonCall(_, _) => AbandonCallKeepsInv(c, step);
    case LeaveCall(_) => LeaveCallKeepsInv(c, step);
    case WriteOpening(_, _) => WriteOpeningKeepsInv(c, step);
    case OnStream(_, _) => OnStreamKeepsInv(c, step);
    case Read(_) => ReadKeepsInv(c, step);
    case Push => PushKeepsInv(c, step);
    case CloseError(_) => CloseErrorKeepsInv(c, step);
  }
}
