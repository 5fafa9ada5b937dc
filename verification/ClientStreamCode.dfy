/**
  `clientStream` (internal/client/stream.go) in its own form: the methods that change its fields,
  each against the steps of the machine that it performs. Where the source blocks, a method ends
  and another one goes on.
 */
module ClientStreamCode {
  import opened Frames
  import opened ClientStreams
  import MetadataCodec

  /** The steps can be taken one after the other. */
  predicate CanRun(cs: ClientStreams.ClientStream, steps: seq<Step>)
    decreases |steps|
  {
    |steps| == 0 || (Enabled(cs, steps[0]) && CanRun(Next(cs, steps[0]), steps[1..]))
  }

  function RunAll(cs: ClientStreams.ClientStream, steps: seq<Step>): ClientStreams.ClientStream
    requires CanRun(cs, steps)
    decreases |steps|
  {
    if |steps| == 0 then cs else RunAll(Next(cs, steps[0]), steps[1..])
  }

  /** `to` is what the steps lead to. */
  predicate Leads(cs: ClientStreams.ClientStream, steps: seq<Step>, to: ClientStreams.ClientStream) {
    CanRun(cs, steps) && RunAll(cs, steps) == to
  }

  lemma LeadsNowhere(cs: ClientStreams.ClientStream)
    ensures Leads(cs, [], cs)
  {
  }

  lemma LeadsFirst(cs: ClientStreams.ClientStream, step: Step, rest: seq<Step>, to: ClientStreams.ClientStream)
    requires Enabled(cs, step) && Leads(Next(cs, step), rest, to)
    ensures Leads(cs, [step] + rest, to)
  {
    hide Enabled, Next;
    assert ([step] + rest)[1..] == rest;
  }

  class ClientStream {
    const ident: Identity
    var ctxDone: bool
    var header: Option<Metadata>
    var headerErr: Option<Error>
    var ready: int
    var done: bool
    var rErr: Option<Error>
    var trailer: Option<Trailer>
    var rChClosed: bool
    var panicked: bool
    ghost var loop: LoopPc
    ghost var recv: RecvPc
    ghost var send: SendPc
    ghost var inbox: seq<Rpc>
    ghost var emitted: seq<Rpc>
    ghost var recvAnswers: seq<RecvAnswer>
    ghost var sendAnswers: seq<SendAnswer>

    ghost function State(): ClientStreams.ClientStream
      reads this
    {
      ClientStreams.ClientStream(ident, ctxDone, header, headerErr, ready, done, rErr, trailer, rChClosed,
                                 loop, recv, send, panicked, inbox, emitted, recvAnswers, sendAnswers)
    }

    constructor (ident: Identity)
      ensures State() == Start(ident)
    {
      this.ident := ident;
      ctxDone, header, headerErr, ready, done, rErr, trailer := false, None, None, 1, false, None, None;
      rChClosed, panicked := false, false;
      loop, recv, send, inbox, emitted, recvAnswers, sendAnswers := Reading, RecvIdle, SendIdle, [], [], [], [];
    }

    /** `onReady`; a negative wait group panics. */
    method SetReady(err: Option<Error>, headers: Option<Metadata>)
      modifies this`header, this`headerErr, this`ready, this`panicked
      ensures State() == OnReady(old(State()), err, headers)
    {
      if header.None? {
        headerErr := err;
        header := headers;
        panicked := panicked || ready <= 0;
        ready := ready - 1;
      }
    }

    /** One turn of `readLoop` on a frame: `ended` is the end that the loop stops with, if it does. */
    method HandleFrame(rpc: Rpc) returns (ended: bool, err: Option<Error>, tr: Option<Trailer>)
      requires Enabled(State(), LoopRead(rpc))
      modifies this
      ensures State() == Next(Next(old(State()), LoopRead(rpc)), LoopHandle)
      ensures ended <==> State().loop == Ending(err, tr)
    {
      hide MetadataCodec.Decode;
      inbox := inbox + [rpc];
      ended, err, tr := true, None, None;
      ghost var hadHeader := header.Some?;
      if header.None? {
        var md := MetadataCodec.ToMetadata(HeaderOf(rpc));
        if md.None? {
          loop := Ending(None, None);
          return;
        }
        SetReady(None, md);
      }
      var end := ErrorIfDone(rpc);
      if end.Some? {
        err, tr := end, rpc.trailer;
        loop := Ending(err, tr);
        return;
      }
      ended := false;
      loop := if rpc.body.None? then Reading else Offering(rpc.body.value);
    }

    /** `readLoop` when the read fails. */
    method ReadFailed(readErr: Error) returns (err: Option<Error>)
      requires Enabled(State(), LoopReadError(readErr))
      modifies this
      ensures State() == Next(old(State()), LoopReadError(readErr)) && loop == Ending(err, None)
    {
      err := ToStatusError(readErr);
      SetReady(err, None);
      loop := Ending(err, None);
    }

    /** The teardown of a stream: the reset, if there is one, then the multiplexer, then the context. */
    method Teardown(sendRst: bool, writeOk: bool)
      modifies this`emitted, this`ctxDone
      ensures ctxDone
      ensures emitted == if sendRst && writeOk then old(emitted) + [ResetFrame(ident)] else old(emitted)
    {
      if sendRst && writeOk {
        emitted := emitted + [ResetFrame(ident)];
      }
      ctxDone := true;
    }

    /** The deferred close-down of `readLoop`, with what it ended with: the machine's five steps in a row. */
    method CloseDown(err: Option<Error>, tr: Option<Trailer>, writeOk: bool)
      requires !panicked && loop == Ending(err, tr) && !rChClosed
      modifies this
      ensures Leads(old(State()), [LoopClose, LoopReset(writeOk), LoopUnregister, LoopCancel, LoopStore], State())
      ensures done && rErr == err && trailer == tr && ctxDone && rChClosed
    {
      hide Leads, ResetFrame;
      CloseDownLeads(State(), writeOk);
      rChClosed := true;
      var sendRst := tr.None? && ctxDone;
      Teardown(sendRst, writeOk);
      done, rErr, trailer := true, err, tr;
      loop := Finished;
    }

    /** The state after the close-down. */
    static function ClosedDown(cs: ClientStreams.ClientStream, writeOk: bool): ClientStreams.ClientStream
      requires cs.loop.Ending?
    {
      cs.(rChClosed := true, ctxDone := true, done := true, rErr := cs.loop.err, trailer := cs.loop.trailer, loop := Finished,
          emitted := if cs.loop.trailer.None? && cs.ctxDone && writeOk then cs.emitted + [ResetFrame(cs.ident)] else cs.emitted)
    }

    static lemma CloseDownLeads(cs: ClientStreams.ClientStream, writeOk: bool)
      requires !cs.panicked && cs.loop.Ending? && !cs.rChClosed
      ensures Leads(cs, [LoopClose, LoopReset(writeOk), LoopUnregister, LoopCancel, LoopStore], ClosedDown(cs, writeOk))
    {
      hide Leads, ResetFrame, Handle, OnReady, ToStatusError, HeaderOf, MetadataCodec.Decode, BodyFrame, CloseSendFrame, Locked;
      var (err, tr) := (cs.loop.err, cs.loop.trailer);
      var s1 := cs.(loop := ClosingReset(err, tr, tr.None? && cs.ctxDone), rChClosed := true);
      var s2 := s1.(loop := ClosingUnregister(err, tr), emitted := ClosedDown(cs, writeOk).emitted);
      var s3 := s2.(loop := ClosingCancel(err, tr));
      var s4 := s3.(loop := ClosingStore(err, tr), ctxDone := true);
      var s5 := ClosedDown(cs, writeOk);
      assert Next(s4, LoopStore) == s5;
      LeadsNowhere(s5);
      LeadsFirst(s4, LoopStore, [], s5);
      LeadsFirst(s3, LoopCancel, [LoopStore] + [], s5);
      LeadsFirst(s2, LoopUnregister, [LoopCancel] + ([LoopStore] + []), s5);
      LeadsFirst(s1, LoopReset(writeOk), [LoopUnregister] + ([LoopCancel] + ([LoopStore] + [])), s5);
      LeadsFirst(cs, LoopClose, [LoopReset(writeOk)] + ([LoopUnregister] + ([LoopCancel] + ([LoopStore] + []))), s5);
      assert [LoopClose] + ([LoopReset(writeOk)] + ([LoopUnregister] + ([LoopCancel] + ([LoopStore] + [])))) ==
             [LoopClose, LoopReset(writeOk), LoopUnregister, LoopCancel, LoopStore];
    }

    /** `RecvMsg` up to the `select`: answered at once when the stream is done. */
    method BeginRecv() returns (answer: Option<RecvAnswer>)
      requires Enabled(State(), RecvCall)
      modifies this
      ensures State() == Next(old(State()), RecvCall)
      ensures answer == if done then Some(Stored(rErr)) else None
    {
      if done {
        answer := Some(Stored(rErr));
        recvAnswers := recvAnswers + [Stored(rErr)];
        return;
      }
      answer := None;
      recv := RecvSelecting;
    }

    /** The `select` of `RecvMsg` when it sees the context done. */
    method RecvCancelled(cause: Error) returns (answer: RecvAnswer)
      requires Enabled(State(), RecvContextDone(cause))
      modifies this`recv, this`recvAnswers
      ensures State() == Next(old(State()), RecvContextDone(cause)) && recvAnswers == old(recvAnswers) + [answer]
      ensures answer.ContextError? && answer.err.Some? && answer.err.value.WithStatus?
      ensures answer.err.value.status.code == if cause.Canceled? then 1 else 4
    {
      answer := ContextError(ToStatusError(cause));
      recv, recvAnswers := RecvIdle, recvAnswers + [answer];
    }

    /** The `select` of `RecvMsg` when it gets a body from the read loop, and whether the body unmarshals. */
    method RecvBody(body: Body, decodes: bool) returns (answer: RecvAnswer)
      requires Enabled(State(), RecvTake(decodes)) && loop == Offering(body)
      modifies this`recv, this`recvAnswers, this`loop
      ensures State() == Next(old(State()), RecvTake(decodes)) && recvAnswers == old(recvAnswers) + [answer]
    {
      answer := Message(body, decodes);
      recv, recvAnswers, loop := RecvIdle, recvAnswers + [answer], Reading;
    }

    /** The `select` of `RecvMsg` when the channel is closed; `None` is the panic of a stream that is not done. */
    method RecvEnd() returns (answer: Option<RecvAnswer>)
      requires Enabled(State(), RecvClosed) && !Locked(State())
      modifies this`recv, this`recvAnswers, this`panicked
      ensures State() == Next(Next(old(State()), RecvClosed), RecvAfterClosed)
      ensures if answer.Some? then recvAnswers == old(recvAnswers) + [answer.value] else panicked
    {
      hide Handle, OnReady, ToStatusError, HeaderOf, MetadataCodec.Decode, BodyFrame, ResetFrame, CloseSendFrame;
      recv := RecvSawClosed;
      if !done {
        panicked, answer := true, None;
        return;
      }
      answer := Some(Stored(rErr));
      recv, recvAnswers := RecvIdle, recvAnswers + [Stored(rErr)];
    }

    /** In every state that a run reaches, the panic in `RecvEnd` cannot happen. */
    lemma ChannelClosedMeansDone()
      requires Inv(State()) && Enabled(State(), RecvClosed) && !Locked(State())
      ensures done
    {
      hide DeliveryInv, EmissionInv, HeaderInv;
    }

    /** `SendMsg` run to its end, with the outcome of marshalling and of the write. */
    method SendMsg(body: Body, marshals: bool, writeOk: bool) returns (answer: SendAnswer)
      requires Enabled(State(), SendCall(body, marshals))
      modifies this
      ensures Leads(old(State()), SendSteps(old(done), body, marshals, writeOk), State())
      ensures answer == if old(done) then SendStored(old(rErr)) else if marshals && writeOk then Sent(body) else SendFailed
      ensures answer.Sent? ==>
                |emitted| == |old(emitted)| + 1 && emitted[..|old(emitted)|] == old(emitted) && emitted[|old(emitted)|].body == Some(body)
      ensures !answer.Sent? ==> emitted == old(emitted)
    {
      hide Leads, SendSteps;
      SendLeads(State(), body, marshals, writeOk);
      if done {
        answer := SendStored(rErr);
      } else if !marshals {
        Teardown(false, false);
        answer := SendFailed;
      } else if !writeOk {
        Teardown(false, false);
        answer := SendFailed;
      } else {
        emitted := emitted + [BodyFrame(ident, body)];
        answer := Sent(body);
      }
      sendAnswers := sendAnswers + [answer];
    }

    /** The steps of one `SendMsg`. */
    static function SendSteps(done: bool, body: Body, marshals: bool, writeOk: bool): seq<Step> {
      if done then [SendCall(body, marshals)]
      else if !marshals then [SendCall(body, false), SendUnregister, SendCancel]
      else if writeOk then [SendCall(body, true), SendWrite(true)]
      else [SendCall(body, true), SendWrite(false), SendUnregister, SendCancel]
    }

    /** The state after one `SendMsg`. */
    static function AfterSend(cs: ClientStreams.ClientStream, body: Body, marshals: bool, writeOk: bool): ClientStreams.ClientStream {
      if cs.done then cs.(sendAnswers := cs.sendAnswers + [SendStored(cs.rErr)])
      else if marshals && writeOk then
        cs.(emitted := cs.emitted + [BodyFrame(cs.ident, body)], sendAnswers := cs.sendAnswers + [Sent(body)])
      else cs.(ctxDone := true, sendAnswers := cs.sendAnswers + [SendFailed])
    }

    static lemma SendLeads(cs: ClientStreams.ClientStream, body: Body, marshals: bool, writeOk: bool)
      requires Enabled(cs, SendCall(body, marshals))
      ensures Leads(cs, SendSteps(cs.done, body, marshals, writeOk), AfterSend(cs, body, marshals, writeOk))
    {
      hide Leads, BodyFrame, Handle, OnReady, ToStatusError, HeaderOf, MetadataCodec.Decode, ResetFrame, CloseSendFrame;
      var to := AfterSend(cs, body, marshals, writeOk);
      LeadsNowhere(to);
      var called := Next(cs, SendCall(body, marshals));
      if cs.done {
        LeadsFirst(cs, SendCall(body, marshals), [], to);
        assert [SendCall(body, marshals)] + [] == SendSteps(true, body, marshals, writeOk);
      } else if marshals && writeOk {
        LeadsFirst(called, SendWrite(true), [], to);
        LeadsFirst(cs, SendCall(body, true), [SendWrite(true)] + [], to);
        assert [SendCall(body, true)] + ([SendWrite(true)] + []) == SendSteps(false, body, true, true);
      } else {
        TeardownLeads(cs.(send := SendUnregistering), to);
        var rest := [SendUnregister, SendCancel];
        if marshals {
          LeadsFirst(called, SendWrite(false), rest, to);
          LeadsFirst(cs, SendCall(body, true), [SendWrite(false)] + rest, to);
          assert [SendCall(body, true)] + ([SendWrite(false)] + rest) == SendSteps(false, body, true, false);
        } else {
          LeadsFirst(cs, SendCall(body, false), rest, to);
          assert [SendCall(body, false)] + rest == SendSteps(false, body, false, writeOk);
        }
      }
    }

    static lemma TeardownLeads(cs: ClientStreams.ClientStream, to: ClientStreams.ClientStream)
      requires !cs.panicked && cs.send.SendUnregistering?
      requires to == cs.(send := SendIdle, ctxDone := true, sendAnswers := cs.sendAnswers + [SendFailed])
      ensures Leads(cs, [SendUnregister, SendCancel], to)
    {
      hide Leads, BodyFrame, Handle, OnReady, ToStatusError, HeaderOf, MetadataCodec.Decode, ResetFrame, CloseSendFrame;
      LeadsNowhere(to);
      LeadsFirst(cs.(send := SendCancelling), SendCancel, [], to);
      LeadsFirst(cs, SendUnregister, [SendCancel] + [], to);
      assert [SendUnregister] + ([SendCancel] + []) == [SendUnregister, SendCancel];
    }

    /** `CloseSend`, with the outcome of its write. */
    method CloseSend(writeOk: bool) returns (ok: bool)
      requires Enabled(State(), ClientStreams.CloseSend(writeOk))
      modifies this`emitted
      ensures State() == Next(old(State()), ClientStreams.CloseSend(writeOk)) && ok == writeOk
    {
      if writeOk {
        emitted := emitted + [CloseSendFrame(ident)];
      }
      ok := writeOk;
    }
  }
}
