/**
  The server stream (internal/server/stream.go): header metadata collected until the first frame
  and sent with it, one trailer, and the status of the handler's result.
 */
module ServerStreams {
  import opened Frames
  import opened Logs
  import MetadataCodec
  import ClientStreams

  datatype State = State(
    id: nat,
    fullMethod: string,
    src: string,
    dst: string,
    headers: seq<Metadata>,
    headersSent: bool,
    trailers: seq<Metadata>,
    trailersSent: bool,
    written: seq<Rpc>)          // history: frames whose write succeeded

  /**
    A call on the stream. `kvs` is the list that `ToKeyValue` makes of the collected headers, in
    whatever order it meets the keys. `result` is the status of the handler's error, if it failed.
   */
  datatype Call =
    | SetHeader(md: Metadata)
    | SendHeader(md: Metadata, kvs: seq<KeyValue>)
    | SendMsg(body: Body, kvs: seq<KeyValue>)
    | SetTrailer(md: Metadata)
    | SendTrailer(result: Option<Status>, kvs: seq<KeyValue>, trailerKvs: seq<KeyValue>)

  function Fresh(id: nat, fullMethod: string, src: string, dst: string): State {
    State(id, fullMethod, src, dst, [], false, [], false, [])
  }

  /** The call gets as far as writing a frame. */
  predicate Writes(s: State, call: Call) {
    match call
    case SendHeader(_, _) => !s.headersSent
    case SendMsg(_, _) => true
    case SendTrailer(_, _, _) => !s.trailersSent
    case _ => false
  }

  /** The lists in the call, as far as they are used, are what `ToKeyValue` may return at this point. */
  ghost predicate Legal(s: State, call: Call) {
    match call
    case SendHeader(md, kvs) => s.headersSent || MetadataCodec.Encodes(kvs, s.headers + [md])
    case SendMsg(_, kvs) => s.headersSent || MetadataCodec.Encodes(kvs, s.headers)
    case SendTrailer(_, kvs, trailerKvs) =>
      s.trailersSent || ((s.headersSent || MetadataCodec.Encodes(kvs, s.headers)) && MetadataCodec.Encodes(trailerKvs, s.trailers))
    case _ => true
  }

  /** The status in the trailer: OK for a nil result; an error whose code is OK becomes Internal. */
  function TrailerStatus(result: Option<Status>): Status {
    if result.None? then Status(CODE_OK, "OK", [])
    else if result.value.code == CODE_OK then result.value.(code := CODE_INTERNAL)
    else result.value
  }

  function FrameHeader(s: State, kvs: seq<KeyValue>): RequestHeader {
    RequestHeader(s.fullMethod, kvs, s.src, s.dst, [], None)
  }

  /** The frame that a writing call writes. */
  function Frame(s: State, call: Call): Rpc
    requires Writes(s, call)
  {
    match call
    case SendHeader(_, kvs) => Rpc(s.id, Some(FrameHeader(s, kvs)), None, None, None, None)
    case SendMsg(body, kvs) =>
      Rpc(s.id, Some(FrameHeader(s, if s.headersSent then [] else kvs)), None, Some(body), None, None)
    case SendTrailer(result, kvs, trailerKvs) =>
      Rpc(s.id, Some(FrameHeader(s, if s.headersSent then [] else kvs)), Some(TrailerStatus(result)), None,
          Some(Trailer(trailerKvs)), None)
  }

  /** The state after a call whose write, if it gets that far, succeeds or fails. */
  function Apply(s: State, call: Call, ok: bool): State {
    var written := if Writes(s, call) && ok then s.written + [Frame(s, call)] else s.written;
    match call
    case SetHeader(md) => if s.headersSent then s else s.(headers := s.headers + [md])
    case SendHeader(md, _) =>
      if s.headersSent then s else s.(headers := s.headers + [md], headersSent := ok, written := written)
    case SendMsg(_, _) => s.(headersSent := true, written := written)
    case SetTrailer(md) => if s.trailersSent then s else s.(trailers := s.trailers + [md])
    case SendTrailer(_, _, _) =>
      if s.trailersSent then s else s.(headersSent := true, trailersSent := true, written := written)
  }

  /** The call returns no error. */
  predicate Accepted(s: State, call: Call, ok: bool) {
    match call
    case SetHeader(_) => !s.headersSent
    case SendHeader(_, _) => !s.headersSent && ok
    case SendMsg(_, _) => ok
    case SetTrailer(_) => true
    case SendTrailer(_, _, _) => !s.trailersSent && ok
  }

  // ----- runs

  datatype Event = Event(call: Call, ok: bool)

  function Run(s: State, events: seq<Event>): State
    decreases |events|
  {
    if |events| == 0 then s else Run(Apply(s, events[0].call, events[0].ok), events[1..])
  }

  ghost predicate LegalRun(s: State, events: seq<Event>)
    decreases |events|
  {
    |events| == 0 ||
    (Legal(s, events[0].call) && LegalRun(Apply(s, events[0].call, events[0].ok), events[1..]))
  }

  /** The header metadata offered up to the call that sends the headers, in call order. */
  function Offered(events: seq<Event>): seq<Metadata> {
    if |events| == 0 then []
    else
      match events[0].call
      case SetHeader(md) => [md] + Offered(events[1..])
      case SendHeader(md, _) => if events[0].ok then [md] else [md] + Offered(events[1..])
      case SetTrailer(_) => Offered(events[1..])
      case _ => []
  }

  /** The call that should send the headers is a message or a trailer whose write fails. */
  predicate LosesHeaders(events: seq<Event>) {
    |events| > 0 &&
    match events[0].call
    case SendHeader(_, _) => !events[0].ok && LosesHeaders(events[1..])
    case SendMsg(_, _) => !events[0].ok
    case SendTrailer(_, _, _) => !events[0].ok
    case _ => LosesHeaders(events[1..])
  }

  function HeadersOf(rpc: Rpc): seq<KeyValue> {
    if rpc.header.Some? then rpc.header.value.headers else []
  }

  /** The frames of `log` from `from` on carry no header metadata. */
  predicate NoHeaders(log: seq<Rpc>, from: nat) {
    forall i :: from <= i < |log| ==> HeadersOf(log[i]) == []
  }

  lemma {:induction false} NothingAfterSent(s: State, events: seq<Event>)
    requires s.headersSent
    ensures s.written <= Run(s, events).written && NoHeaders(Run(s, events).written, |s.written|)
    decreases |events|
  {
    if |events| > 0 {
      NothingAfterSent(Apply(s, events[0].call, events[0].ok), events[1..]);
    }
  }

  /** What the first frame must carry, for headers collected before `events`. */
  ghost predicate FirstCarries(written: seq<Rpc>, before: seq<Metadata>, events: seq<Event>) {
    |written| > 0 ==>
      if LosesHeaders(events) then HeadersOf(written[0]) == []
      else MetadataCodec.Encodes(HeadersOf(written[0]), before + Offered(events))
  }

  /** The first call sends the headers, or loses them. */
  lemma FirstCallSends(s: State, events: seq<Event>)
    requires !s.headersSent && s.written == [] && !s.trailersSent
    requires |events| > 0 && Legal(s, events[0].call) && Apply(s, events[0].call, events[0].ok).headersSent
    ensures NoHeaders(Run(s, events).written, 1)
    ensures FirstCarries(Run(s, events).written, s.headers, events)
  {
    hide MetadataCodec.Encodes, TrailerStatus;
    NothingAfterSent(Apply(s, events[0].call, events[0].ok), events[1..]);
    assert s.headers + [] == s.headers;
  }

  /** The first call leaves the headers to a later one. */
  lemma FirstCallWaits(s: State, events: seq<Event>)
    requires !s.headersSent && s.written == [] && !s.trailersSent
    requires |events| > 0 && !Apply(s, events[0].call, events[0].ok).headersSent
    ensures var s' := Apply(s, events[0].call, events[0].ok);
            && s'.written == [] && !s'.trailersSent
            && LosesHeaders(events) == LosesHeaders(events[1..])
            && s.headers + Offered(events) == s'.headers + Offered(events[1..])
  {
    hide Frame, Apply, Offered, LosesHeaders;
    WaitingCall(s, events[0].call, events[0].ok);
    WaitingEvent(events);
    if !events[0].call.SetTrailer? {
      AppendAssociates(s.headers, events[0].call.md, Offered(events[1..]));
    }
  }

  /** A call that does not send the headers: it sets headers or trailers, or its `SendHeader` fails. */
  predicate Waits(call: Call, ok: bool) {
    call.SetHeader? || call.SetTrailer? || (call.SendHeader? && !ok)
  }

  lemma WaitingCall(s: State, call: Call, ok: bool)
    requires !s.headersSent && s.written == [] && !s.trailersSent && !Apply(s, call, ok).headersSent
    ensures Waits(call, ok) && Apply(s, call, ok).written == [] && !Apply(s, call, ok).trailersSent
    ensures Apply(s, call, ok).headers == if call.SetTrailer? then s.headers else s.headers + [call.md]
  {
    hide Frame;
  }

  lemma WaitingEvent(events: seq<Event>)
    requires |events| > 0 && Waits(events[0].call, events[0].ok)
    ensures LosesHeaders(events) == LosesHeaders(events[1..])
    ensures Offered(events) == if events[0].call.SetTrailer? then Offered(events[1..]) else [events[0].call.md] + Offered(events[1..])
  {
  }

  lemma AppendAssociates(a: seq<Metadata>, md: Metadata, b: seq<Metadata>)
    ensures (a + [md]) + b == a + ([md] + b)
  {
  }

  lemma {:induction false} FirstFrame(s: State, events: seq<Event>)
    requires !s.headersSent && s.written == [] && !s.trailersSent && LegalRun(s, events)
    ensures NoHeaders(Run(s, events).written, 1)
    ensures FirstCarries(Run(s, events).written, s.headers, events)
    decreases |events|
  {
    hide MetadataCodec.Encodes, Apply, Legal, LosesHeaders, Offered;
    if |events| > 0 {
      var s' := Apply(s, events[0].call, events[0].ok);
      if s'.headersSent {
        FirstCallSends(s, events);
      } else {
        FirstCallWaits(s, events);
        FirstFrame(s', events[1..]);
      }
    }
  }

  /**
    Headers exactly once, for every sequence of calls and write outcomes: no frame but the first
    carries header metadata, and the first carries exactly the merge, in call order, of what was
    offered up to the call that sends it; unless that call is a message or trailer whose write
    failed, and then the metadata is lost and no frame carries any.
   */
  lemma HeadersOnce(id: nat, fullMethod: string, src: string, dst: string, events: seq<Event>)
    requires LegalRun(Fresh(id, fullMethod, src, dst), events)
    ensures var written := Run(Fresh(id, fullMethod, src, dst), events).written;
            && NoHeaders(written, 1)
            && (|written| > 0 ==>
                  if LosesHeaders(events) then HeadersOf(written[0]) == []
                  else MetadataCodec.Encodes(HeadersOf(written[0]), Offered(events)))
  {
    FirstFrame(Fresh(id, fullMethod, src, dst), events);
    assert [] + Offered(events) == Offered(events);
  }

  /** The client's `Header()` is the merge of what the handler offered, under lower-case keys. */
  lemma HeaderReachesClient(id: nat, fullMethod: string, src: string, dst: string, events: seq<Event>)
    requires LegalRun(Fresh(id, fullMethod, src, dst), events)
    requires !LosesHeaders(events) && Run(Fresh(id, fullMethod, src, dst), events).written != []
    ensures var first := Run(Fresh(id, fullMethod, src, dst), events).written[0];
            var header := MetadataCodec.Decode(ClientStreams.HeaderOf(first));
            var offered := MetadataCodec.Join(Offered(events));
            && header.Some?
            && (MetadataCodec.LowerApart(offered) ==> MetadataCodec.Carries(header.value, offered, offered.Keys))
            && (MetadataCodec.Canonical(offered) ==> header.value == offered)
  {
    HeadersOnce(id, fullMethod, src, dst, events);
    var first := Run(Fresh(id, fullMethod, src, dst), events).written[0];
    var kvs, mds := HeadersOf(first), Offered(events);
    MetadataCodec.EncodedAlwaysDecodes(kvs, mds);
    if MetadataCodec.LowerApart(MetadataCodec.Join(mds)) {
      MetadataCodec.RoundTripLowered(kvs, mds);
      if MetadataCodec.Canonical(MetadataCodec.Join(mds)) {
        MetadataCodec.CarriesCanonical(MetadataCodec.Decode(kvs).value, MetadataCodec.Join(mds));
      }
    }
  }

  // ----- status and trailer

  /** The result of the handler, as the client reads it off the trailer frame. */
  lemma StatusSurvives(s: State, result: Option<Status>, kvs: seq<KeyValue>, trailerKvs: seq<KeyValue>)
    requires !s.trailersSent
    ensures var end := ClientStreams.ErrorIfDone(Frame(s, SendTrailer(result, kvs, trailerKvs)));
            && (end == Some(EOF) <==> result.None?)
            && (result.Some? && result.value.code != 0 ==> end == Some(WithStatus(result.value)))
            && (result.Some? && result.value.code == 0 ==>
                  end == Some(WithStatus(Status(13, result.value.message, result.value.details))))
  {
  }

  /** How many frames carry a trailer. */
  function TrailerCount(log: seq<Rpc>): nat {
    if |log| == 0 then 0
    else TrailerCount(log[..|log| - 1]) + (if log[|log| - 1].trailer.Some? then 1 else 0)
  }

  lemma {:induction false} TrailerOnceFrom(s: State, events: seq<Event>)
    requires TrailerCount(s.written) <= if s.trailersSent then 1 else 0
    ensures TrailerCount(Run(s, events).written) <= 1
    decreases |events|
  {
    if |events| > 0 {
      var s' := Apply(s, events[0].call, events[0].ok);
      if s'.written != s.written {
        assert s'.written[..|s.written|] == s.written;
      }
      TrailerOnceFrom(s', events[1..]);
    }
  }

  /** At most one trailer frame is ever written, whatever is called. */
  lemma TrailerOnce(id: nat, fullMethod: string, src: string, dst: string, events: seq<Event>)
    ensures TrailerCount(Run(Fresh(id, fullMethod, src, dst), events).written) <= 1
  {
    TrailerOnceFrom(Fresh(id, fullMethod, src, dst), events);
  }

  /** Every frame a call writes carries the stream's id, no reset, and a trailer only from `SendTrailer`. */
  lemma FrameShape(s: State, call: Call)
    requires Writes(s, call)
    ensures Frame(s, call).id == s.id && Frame(s, call).reset.None? && Frame(s, call).header.Some?
    ensures Frame(s, call).trailer.Some? <==> call.SendTrailer?
    ensures Frame(s, call).body == (if call.SendMsg? then Some(call.body) else None)
  {
  }

  /** What reading a frame gives the handler: `RecvMsg`. */
  datatype Received = Message(data: Option<Body>) | EndOfStream | Aborted(status: Status)

  function Receive(rpc: Rpc): Received {
    if rpc.trailer.Some? then
      if StatusCode(rpc) == CODE_OK then EndOfStream else Aborted(rpc.status.value)
    else Message(rpc.body)
  }

  /** The bodies that `RecvMsg` hands to the handler for these frames. */
  function HandedOut(log: seq<Rpc>): seq<Body> {
    if |log| == 0 then []
    else
      var answer := Receive(log[|log| - 1]);
      HandedOut(log[..|log| - 1]) + (if answer.Message? && answer.data.Some? then [answer.data.value] else [])
  }

  /** No frame has both a body and a trailer. */
  predicate Separate(log: seq<Rpc>) {
    forall i :: 0 <= i < |log| ==> log[i].body.None? || log[i].trailer.None?
  }

  lemma SeparateAppend(log: seq<Rpc>, f: Rpc)
    ensures Separate(log + [f]) <==> Separate(log) && (f.body.None? || f.trailer.None?)
  {
    if Separate(log + [f]) {
      assert forall i :: 0 <= i < |log| ==> (log + [f])[i] == log[i];
      assert (log + [f])[|log|] == f;
    }
  }

  /** The handler gets every body of the frames it reads, exactly when none stands next to a trailer. */
  lemma {:induction false} HandedOutExactly(log: seq<Rpc>)
    ensures |HandedOut(log)| <= |Bodies(log)|
    ensures HandedOut(log) == Bodies(log) <==> Separate(log)
  {
    hide Separate;
    if |log| == 0 {
      EmptySeparate(log);
    } else {
      var init, last := log[..|log| - 1], log[|log| - 1];
      HandedOutExactly(init);
      SeparateAppend(init, last);
      assert log == init + [last];
      var h, b := HandedOut(init), Bodies(init);
      if last.body.None? {
        assert HandedOut(log) == h && Bodies(log) == b;
      } else if last.trailer.None? {
        assert HandedOut(log) == h + [last.body.value] && Bodies(log) == b + [last.body.value];
        assert HandedOut(log)[..|h|] == h && Bodies(log)[..|b|] == b;
      } else {
        assert HandedOut(log) == h && |Bodies(log)| == |b| + 1;
      }
    }
  }

  lemma EmptySeparate(log: seq<Rpc>)
    requires |log| == 0
    ensures Separate(log)
  {
  }

  /** Both ends read a trailer frame alike: as the end of the stream, or as the status that it carries. */
  lemma BothEndsReadAlike(rpc: Rpc)
    ensures Receive(rpc).EndOfStream? <==> ClientStreams.ErrorIfDone(rpc) == Some(EOF)
    ensures forall st :: Receive(rpc) == Aborted(st) <==> ClientStreams.ErrorIfDone(rpc) == Some(WithStatus(st))
    ensures Receive(rpc).Message? <==> rpc.trailer.None?
    ensures rpc.trailer.None? ==> Receive(rpc).data == rpc.body
  {
  }

  /** The metadata and status of a call that returns no error took effect; of one that returns an error, nothing was sent. */
  lemma AcceptedMeans(s: State, call: Call, ok: bool)
    ensures var s' := Apply(s, call, ok);
            && (call.SetHeader? ==> (Accepted(s, call, ok) <==> s'.headers == s.headers + [call.md]))
            && (call.SendHeader? || call.SendMsg? || call.SendTrailer? ==>
                  (Accepted(s, call, ok) <==> |s'.written| == |s.written| + 1))
            && (!Accepted(s, call, ok) ==> s'.written == s.written)
  {
    hide Frame;
  }

  lemma Refused(s: State, call: Call, ok: bool)
    ensures s.headersSent && (call.SetHeader? || call.SendHeader?) ==> !Accepted(s, call, ok)
    ensures s.trailersSent && call.SendTrailer? ==> !Accepted(s, call, ok)
  {
  }

  lemma {:induction false} SentForGood(s: State, events: seq<Event>)
    ensures s.headersSent ==> Run(s, events).headersSent
    ensures s.trailersSent ==> Run(s, events).trailersSent
    decreases |events|
  {
    hide Frame;
    if |events| > 0 {
      SentForGood(Apply(s, events[0].call, events[0].ok), events[1..]);
    }
  }

  /** Once headers were sent, no call can set or send more; once a trailer was sent, none can send another. */
  lemma RefusedForGood(s: State, events: seq<Event>, call: Call, ok: bool)
    ensures s.headersSent && (call.SetHeader? || call.SendHeader?) ==> !Accepted(Run(s, events), call, ok)
    ensures s.trailersSent && call.SendTrailer? ==> !Accepted(Run(s, events), call, ok)
  {
    SentForGood(s, events);
    Refused(Run(s, events), call, ok);
  }
}
