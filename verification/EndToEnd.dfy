/**
  What holds between the two ends of a connection, in every run: one handler per stream, order and
  completeness in both directions, and the matching of unary replies to their requests.
 */
module EndToEnd {
  import opened Frames
  import opened Logs
  import opened Methods
  import opened Systems
  import MetadataCodec
  import Mux = Multiplexers
  import CS = ClientStreams
  import SS = ServerStreams
  import C = Clients
  import S = Servers
  import SI = ServerInvariants

  // ----- what the client writes on one id

  /** A call of either kind writes nothing but its own frames. */
  lemma ClientWrites(c: C.Client, id: nat)
    requires C.Inv(c)
    ensures On(id, c.outLog) == C.WrittenBy(c, id)
    ensures id in c.streams ==>
              && id !in c.unary && C.OpeningOk(c.streams[id].opening, id, c.streams[id].cs.ident)
              && CS.AllEmittable(c.streams[id].cs.ident, c.streams[id].cs.emitted)
              && Bodies(c.streams[id].cs.emitted) == CS.SentBodies(c.streams[id].cs.sendAnswers)
    ensures id in c.unary ==> C.RequestOk(c.unary[id].request, id)
  {
    hide On, CS.DeliveryInv, CS.LifecycleInv, CS.HeaderInv, CS.ResetsBounded, Mux.FeedInv, CS.AllEmittable;
  }

  /** Only the first frame of an id can open a stream. */
  lemma LaterFramesDoNotOpen(c: C.Client, id: nat, b: nat)
    requires C.Inv(c) && 1 <= b < |On(id, c.outLog)|
    ensures !IsOpening(On(id, c.outLog)[b])
  {
    hide On, C.Inv;
    ClientWrites(c, id);
    if id in c.streams {
      assert CS.Emittable(c.streams[id].cs.ident, c.streams[id].cs.emitted[b - 1]);
    }
  }

  /** Every frame on the id of a stream is routed like the frame that opened it. */
  lemma StreamFramesRouteAlike(cfg: Config, c: C.Client, id: nat, f: Rpc)
    requires C.Inv(c) && id in c.streams && f in On(id, c.outLog)
    ensures f.header.Some? && RouteOf(cfg, f) == RouteOf(cfg, c.streams[id].opening)
  {
    hide On, C.Inv, RouteHeader;
    ClientWrites(c, id);
    var sc := c.streams[id];
    if f != sc.opening {
      assert f in sc.cs.emitted;
      assert CS.Emittable(sc.cs.ident, f);
    }
    RouteByMethod(cfg, f.header.value, sc.opening.header.value);
  }

  /** A frame written on an id is one of the frames of that id. */
  lemma OnHas(id: nat, log: seq<Rpc>, p: nat)
    requires p < |log| && log[p].id == id
    ensures log[p] in On(id, log)
  {
    hide On;
    OnMembers(id, log);
  }

  /** An opening frame on the transport is that of an open stream, and everything else of it comes after. */
  lemma OpeningIsFirst(c: C.Client, id: nat, p: nat)
    requires C.Inv(c) && p < |c.outLog| && c.outLog[p].id == id && IsOpening(c.outLog[p])
    ensures id in c.streams && c.streams[id].pc.StreamOpen? && c.streams[id].opening == c.outLog[p]
    ensures On(id, c.outLog[..p]) == [] && On(id, c.outLog[p + 1..]) == c.streams[id].cs.emitted
  {
    hide On, C.Inv, CS.AllEmittable;
    SplitOn(id, c.outLog, p);
    var b := |On(id, c.outLog[..p])|;
    assert On(id, c.outLog)[b] == c.outLog[p];
    if b >= 1 {
      LaterFramesDoNotOpen(c, id, b);
    }
    ClientWrites(c, id);
    var written := On(id, c.outLog);
    assert written == [c.outLog[p]] + On(id, c.outLog[p + 1..]);
    assert written[1..] == On(id, c.outLog[p + 1..]);
  }

  // ----- one handler per id

  lemma StreamStart(cfg: Config, s: System, n: nat)
    requires Inv(cfg, s) && n < |s.server.all|
    ensures var st := s.server.all[n];
            && st.startAt < |s.server.inLog| <= |s.client.outLog|
            && s.client.outLog[st.startAt] == s.server.inLog[st.startAt]
            && S.Opens(cfg, s.client.outLog[st.startAt]) && s.client.outLog[st.startAt].id == st.id
            && S.WrittenOk(st) && st.ch.taken <= |st.ch.sent|
  {
    hide C.Inv, S.Opens, S.WrittenOk, S.TableOk, S.FeedOk, S.OutsOk, S.WriterOk, S.WritesOk, S.AnswersOk, S.UnaryOk, S.LoopOk;
    assert S.StreamOk(cfg, s.server.inLog, s.server.all[n]);
  }

  lemma StartsDiffer(cfg: Config, s: S.Server, n: nat, m: nat)
    requires S.Inv(cfg, s) && n < m < |s.all|
    ensures s.all[n].startAt < s.all[m].startAt
  {
    hide S.StreamsOk, S.TableOk, S.FeedOk, S.OutsOk, S.WriterOk, S.WritesOk, S.AnswersOk, S.UnaryOk, S.LoopOk;
  }

  lemma HandlersDiffer(cfg: Config, s: System, n: nat, m: nat)
    requires Inv(cfg, s) && n < m < |s.server.all|
    ensures s.server.all[n].id != s.server.all[m].id
  {
    hide On, C.Inv, S.Inv, S.WrittenOk, RouteOf;
    StreamStart(cfg, s, n);
    StreamStart(cfg, s, m);
    StartsDiffer(cfg, s.server, n, m);
    var p, q := s.server.all[n].startAt, s.server.all[m].startAt;
    OpeningIsFirst(s.client, s.server.all[m].id, q);
    if s.client.outLog[p].id == s.server.all[m].id {
      assert s.client.outLog[..q][p] == s.client.outLog[p];
      OnHas(s.server.all[m].id, s.client.outLog[..q], p);
    }
  }

  /**
    Each stream id starts at most one server handler in a whole run, and what started it is the
    opening frame of the client's stream with that id.
   */
  lemma OneHandlerPerId(cfg: Config, states: seq<System>, steps: seq<Step>, i: nat, n: nat)
    requires IsRun(cfg, states, steps) && i < |states| && n < |states[i].server.all|
    ensures forall m :: 0 <= m < |states[i].server.all| && m != n ==>
                          states[i].server.all[m].id != states[i].server.all[n].id
    ensures var st, c := states[i].server.all[n], states[i].client;
            && st.id in c.streams && c.streams[st.id].pc.StreamOpen?
            && st.startAt < |states[i].server.inLog|
            && states[i].server.inLog[st.startAt] == c.streams[st.id].opening
  {
    hide Inv, Enabled, Next;
    InvAlongRun(cfg, states, steps, i);
    HandlerOfStream(cfg, states[i], n);
  }

  lemma HandlerOfStream(cfg: Config, s: System, n: nat)
    requires Inv(cfg, s) && n < |s.server.all|
    ensures forall m :: 0 <= m < |s.server.all| && m != n ==> s.server.all[m].id != s.server.all[n].id
    ensures var st, c := s.server.all[n], s.client;
            && st.id in c.streams && c.streams[st.id].pc.StreamOpen?
            && st.startAt < |s.server.inLog| <= |c.outLog| && s.server.inLog[st.startAt] == c.outLog[st.startAt]
            && s.server.inLog[st.startAt] == c.streams[st.id].opening
            && RouteOf(cfg, c.streams[st.id].opening).StreamMethod?
            && On(st.id, c.outLog[..st.startAt]) == [] && On(st.id, c.outLog[st.startAt + 1..]) == c.streams[st.id].cs.emitted
  {
    hide On, C.Inv, S.Inv, S.WrittenOk, RouteOf;
    forall m | 0 <= m < |s.server.all| && m != n
      ensures s.server.all[m].id != s.server.all[n].id
    {
      if m < n {
        HandlersDiffer(cfg, s, m, n);
      } else {
        HandlersDiffer(cfg, s, n, m);
      }
    }
    StreamStart(cfg, s, n);
    OpeningIsFirst(s.client, s.server.all[n].id, s.server.all[n].startAt);
  }

  // ----- what a call sends is what its caller passed

  /** The step gives out this id to a new call. */
  predicate GivesOut(s: System, step: Step, id: nat) {
    step.ClientStep? && (step.cstep.NewUnary? || step.cstep.NewStream?) && id == s.client.mux.streamCounter + 1
  }

  /** The request of a unary call has the header and the body that its caller passed, and nothing else. */
  predicate RequestFor(request: Rpc, id: nat, header: RequestHeader, body: Body) {
    && request.id == id && request.header == Some(header) && request.body == Some(body)
    && request.status.None? && request.trailer.None? && request.reset.None?
  }

  /** The opening frame of a stream has the header that its caller passed, and nothing else. */
  predicate OpeningFor(opening: Rpc, id: nat, header: RequestHeader) {
    && opening.id == id && opening.header == Some(header)
    && opening.status.None? && opening.body.None? && opening.trailer.None? && opening.reset.None?
  }

  lemma MuxCounter(m: Mux.Multiplexer, step: Mux.Step)
    requires Mux.Enabled(m, step)
    ensures Mux.Next(m, step).streamCounter == m.streamCounter + (if step.Allocate? then 1 else 0)
  {
    hide Mux.CloseAll;
    CloseAllCounter(m);
  }

  lemma CloseAllCounter(m: Mux.Multiplexer)
    ensures Mux.CloseAll(m).streamCounter == m.streamCounter
  {
  }

  lemma ClientCounter(c: C.Client, step: C.Step)
    requires C.Enabled(c, step)
    ensures C.Next(c, step).mux.streamCounter == c.mux.streamCounter + (if step.NewUnary? || step.NewStream? then 1 else 0)
  {
    hide Mux.Enabled, Mux.Next, C.Enabled, C.Next;
    MuxStepIs(c, step);
    var part := MuxStepOf(c, step);
    if part.Some? {
      MuxCounter(c.mux, part.value);
    }
    AllocatesFor(c, step);
  }

  lemma AllocatesFor(c: C.Client, step: C.Step)
    ensures (MuxStepOf(c, step).Some? && MuxStepOf(c, step).value.Allocate?) <==> step.NewUnary? || step.NewStream?
  {
  }

  /** A step keeps every request and opening frame; a new one is what was passed. */
  lemma ClientKeepsCalls(c: C.Client, step: C.Step, id: nat)
    requires C.Enabled(c, step)
    ensures var c' := C.Next(c, step);
            && (id in c'.unary ==>
                  || (id in c.unary && c'.unary[id].request == c.unary[id].request)
                  || (step.NewUnary? && id == c.mux.streamCounter + 1 && RequestFor(c'.unary[id].request, id, step.header, step.body)))
            && (id in c'.streams ==>
                  || (id in c.streams && c'.streams[id].opening == c.streams[id].opening)
                  || (step.NewStream? && id == c.mux.streamCounter + 1 && OpeningFor(c'.streams[id].opening, id, step.header)))
  {
    hide Mux.Enabled, Mux.Next, CS.Enabled, CS.Next, C.Answer, CS.Start, C.Emits, C.MuxAllows;
  }

  /** The call with this id was made by step `t`, with what the step passed. */
  predicate MadeBy(s: System, states: seq<System>, steps: seq<Step>, id: nat, t: nat) {
    && t < |states| && t < |steps| && GivesOut(states[t], steps[t], id)
    && (id in s.client.unary ==>
          steps[t].cstep.NewUnary? && RequestFor(s.client.unary[id].request, id, steps[t].cstep.header, steps[t].cstep.body))
    && (id in s.client.streams ==>
          steps[t].cstep.NewStream? && OpeningFor(s.client.streams[id].opening, id, steps[t].cstep.header))
  }

  /** Calls of the two kinds have different ids. */
  lemma KindsDiffer(cfg: Config, s: System, id: nat)
    requires Inv(cfg, s)
    ensures !(id in s.client.unary && id in s.client.streams)
  {
    hide C.CallsInv, C.WriteInv, S.Inv, Mux.Inv, Mux.FeedInv;
  }

  lemma SystemKeepsCalls(cfg: Config, s: System, step: Step, id: nat)
    requires Enabled(cfg, s, step)
    ensures var c, c' := s.client, Next(cfg, s, step).client;
            && (id in c'.unary ==>
                  || (id in c.unary && c'.unary[id].request == c.unary[id].request)
                  || (GivesOut(s, step, id) && step.cstep.NewUnary? && RequestFor(c'.unary[id].request, id, step.cstep.header, step.cstep.body)))
            && (id in c'.streams ==>
                  || (id in c.streams && c'.streams[id].opening == c.streams[id].opening)
                  || (GivesOut(s, step, id) && step.cstep.NewStream? && OpeningFor(c'.streams[id].opening, id, step.cstep.header)))
            && c.mux.streamCounter <= c'.mux.streamCounter && (GivesOut(s, step, id) ==> c'.mux.streamCounter == id)
  {
    hide S.Enabled, S.Next, C.Enabled, C.Next;
    if step.ClientStep? || step.ClientReads? {
      var cstep := if step.ClientStep? then step.cstep else C.Read(NextDown(s));
      ClientKeepsCalls(s.client, cstep, id);
      ClientCounter(s.client, cstep);
    }
  }

  lemma {:induction false} CounterGrows(cfg: Config, states: seq<System>, steps: seq<Step>, i: nat, j: nat)
    requires IsRun(cfg, states, steps) && i <= j < |states|
    ensures states[i].client.mux.streamCounter <= states[j].client.mux.streamCounter
    decreases j - i
  {
    hide Enabled, Next;
    if i < j {
      CounterGrows(cfg, states, steps, i, j - 1);
      SystemKeepsCalls(cfg, states[j - 1], steps[j - 1], 0);
    }
  }

  /** No id is given out twice. */
  lemma GivenOutOnce(cfg: Config, states: seq<System>, steps: seq<Step>, t: nat, u: nat, id: nat)
    requires IsRun(cfg, states, steps) && t < |steps| && u < |steps|
    requires GivesOut(states[t], steps[t], id) && GivesOut(states[u], steps[u], id)
    ensures t == u
  {
    hide Enabled, Next;
    SystemKeepsCalls(cfg, states[t], steps[t], id);
    SystemKeepsCalls(cfg, states[u], steps[u], id);
    if t < u {
      CounterGrows(cfg, states, steps, t + 1, u);
    } else if u < t {
      CounterGrows(cfg, states, steps, u + 1, t);
    }
  }

  lemma {:induction false} CallWasMade(cfg: Config, states: seq<System>, steps: seq<Step>, i: nat, id: nat) returns (t: nat)
    requires IsRun(cfg, states, steps) && i < |states|
    requires id in states[i].client.unary || id in states[i].client.streams
    ensures t < i && MadeBy(states[i], states, steps, id, t)
  {
    hide Enabled, Next, Inv, GivesOut, RequestFor, OpeningFor;
    if i > 0 {
      var s, s', step := states[i - 1], states[i], steps[i - 1];
      InvAlongRun(cfg, states, steps, i - 1);
      InvAlongRun(cfg, states, steps, i);
      KindsDiffer(cfg, s, id);
      KindsDiffer(cfg, s', id);
      SystemKeepsCalls(cfg, s, step, id);
      if id in s'.client.unary {
        if id in s.client.unary && s'.client.unary[id].request == s.client.unary[id].request {
          t := CallWasMade(cfg, states, steps, i - 1, id);
        } else {
          t := i - 1;
        }
      } else {
        if id in s.client.streams && s'.client.streams[id].opening == s.client.streams[id].opening {
          t := CallWasMade(cfg, states, steps, i - 1, id);
        } else {
          t := i - 1;
        }
      }
    }
  }

  /**
    What a call sends, in every run: exactly one step gave out its id. For a unary call that step
    passed the header and the body of its request; for a stream, the header of its opening frame.
   */
  lemma CallSendsWhatWasPassed(cfg: Config, states: seq<System>, steps: seq<Step>, i: nat, id: nat) returns (t: nat)
    requires IsRun(cfg, states, steps) && i < |states|
    requires id in states[i].client.unary || id in states[i].client.streams
    ensures t < i && MadeBy(states[i], states, steps, id, t)
    ensures forall u :: 0 <= u < |steps| && GivesOut(states[u], steps[u], id) ==> u == t
  {
    hide Enabled, Next, Inv, GivesOut, RequestFor, OpeningFor;
    t := CallWasMade(cfg, states, steps, i, id);
    forall u | 0 <= u < |steps| && GivesOut(states[u], steps[u], id)
      ensures u == t
    {
      GivenOutOnce(cfg, states, steps, t, u, id);
    }
  }

  /** Every frame of a stream names the method and the addresses of its opening frame; only that one has metadata. */
  lemma StreamFramesLikeOpening(cfg: Config, s: System, id: nat, f: Rpc)
    requires Inv(cfg, s) && id in s.client.streams && f in On(id, s.client.outLog)
    ensures s.client.streams[id].opening.header.Some? && f.header.Some?
    ensures var h := s.client.streams[id].opening.header.value;
            && f.header.value.fullMethod == h.fullMethod && f.header.value.source == h.source
            && f.header.value.destination == h.destination
            && (f == s.client.streams[id].opening || f.header.value.headers == [])
  {
    hide On, C.Inv, S.Inv;
    ClientWrites(s.client, id);
    var sc := s.client.streams[id];
    if f != sc.opening {
      assert f in sc.cs.emitted;
      assert CS.Emittable(sc.cs.ident, f);
    }
  }

  /** Every `CloseSend` that succeeds, in any run, puts one frame of its stream on the wire, which the server reads as the end. */
  lemma CloseSendWritesEnd(cfg: Config, states: seq<System>, steps: seq<Step>, t: nat, id: nat)
    requires IsRun(cfg, states, steps) && t < |steps| && steps[t] == ClientStep(C.OnStream(id, CS.CloseSend(true)))
    ensures exists f :: states[t + 1].client.outLog == states[t].client.outLog + [f]
                        && f.id == id && SS.Receive(f).EndOfStream? && f.body.None? && !IsReset(f)
  {
    hide Inv;
    InvAlongRun(cfg, states, steps, t);
    var s := states[t];
    StreamHasItsId(cfg, s, id);
    var cs := s.client.streams[id].cs;
    var f := CS.CloseSendFrame(cs.ident);
    assert C.Emits(cs, CS.CloseSend(true)) == [f];
    assert states[t + 1].client.outLog == s.client.outLog + [f];
  }

  lemma StreamHasItsId(cfg: Config, s: System, id: nat)
    requires Inv(cfg, s) && id in s.client.streams
    ensures s.client.streams[id].cs.ident.id == id
  {
    hide C.Inv, S.Inv;
    ClientWrites(s.client, id);
  }

  // ----- client to server

  /** Passing on is dropping the resets, when every frame of the id is routed to a stream. */
  lemma {:induction false} PassedIsNonReset(cfg: Config, id: nat, log: seq<Rpc>)
    requires forall f :: f in log && f.id == id ==> RouteOf(cfg, f).StreamMethod?
    ensures S.Passed(cfg, id, log) == NonReset(On(id, log))
  {
    hide RouteOf;
    if |log| > 0 {
      var init, last := log[..|log| - 1], log[|log| - 1];
      assert last in log;
      PassedIsNonReset(cfg, id, init);
      assert S.Passed(cfg, id, init) + [] == S.Passed(cfg, id, init) && On(id, init) + [] == On(id, init);
      if last.id == id {
        NonResetAppend(On(id, init), last);
      }
    }
  }

  /** What a stream's channel was sent is a prefix of what the serve loop passes on after its opening frame. */
  lemma FedPrefix(cfg: Config, s: S.Server, n: nat)
    requires S.Inv(cfg, s) && n < |s.all|
    ensures var st, upto := s.all[n], S.Dispatched(s.inLog, s.loop);
            st.startAt < upto <= |s.inLog| && st.ch.sent <= S.Passed(cfg, st.id, s.inLog[st.startAt + 1..upto])
  {
    hide S.StreamsOk, S.TableOk, S.OutsOk, S.WriterOk, S.WritesOk, S.AnswersOk, S.UnaryOk, S.LoopOk, S.Passed, S.StartsOk;
    assert S.Fed(cfg, s.inLog, s.loop, n, s.all[n]);
  }

  /** What a server stream's channel was sent is a prefix of what its client stream wrote, without resets. */
  lemma SentToHandler(cfg: Config, s: System, n: nat)
    requires Inv(cfg, s) && n < |s.server.all|
    ensures s.server.all[n].id in s.client.streams
    ensures s.server.all[n].ch.sent <= NonReset(s.client.streams[s.server.all[n].id].cs.emitted)
  {
    hide On, NonReset, C.Inv, S.Inv, RouteOf, S.Passed;
    var c, st, upto := s.client, s.server.all[n], S.Dispatched(s.server.inLog, s.server.loop);
    HandlerOfStream(cfg, s, n);
    FedPrefix(cfg, s.server, n);
    var segment, rest := s.server.inLog[st.startAt + 1..upto], c.outLog[st.startAt + 1..];
    assert segment <= rest;
    forall f | f in segment && f.id == st.id
      ensures RouteOf(cfg, f).StreamMethod?
    {
      OnMembers(st.id, c.outLog);
      assert f in c.outLog;
      StreamFramesRouteAlike(cfg, c, st.id, f);
    }
    PassedIsNonReset(cfg, st.id, segment);
    PrefixKept(st.id, segment, rest);
    PrefixKept(st.id, On(st.id, segment), c.streams[st.id].cs.emitted);
  }

  /** The frames that the handler's `RecvMsg` has taken. */
  function Taken(st: S.Stream): seq<Rpc>
    requires st.ch.taken <= |st.ch.sent|
  {
    st.ch.sent[..st.ch.taken]
  }

  /** Resets carry no body. */
  lemma {:induction false} BodiesWithoutResets(ident: CS.Identity, log: seq<Rpc>)
    requires CS.AllEmittable(ident, log)
    ensures Bodies(NonReset(log)) == Bodies(log)
  {
    if |log| > 0 {
      var init, last := log[..|log| - 1], log[|log| - 1];
      assert CS.Emittable(ident, last);
      BodiesWithoutResets(ident, init);
      assert NonReset(init) + [] == NonReset(init) && Bodies(init) + [] == Bodies(init);
      if !IsReset(last) {
        BodiesAppend(NonReset(init), last);
      }
    }
  }

  /**
    What the handler reads against what the application wrote: each frame read is a body frame or
    the frame of a `CloseSend`, the bodies are a prefix of those sent, and an end of stream comes
    after exactly the bodies sent before some `CloseSend`.
   */
  ghost predicate ReadsInOrder(got: seq<Rpc>, ident: CS.Identity, emitted: seq<Rpc>) {
    && Bodies(got) <= Bodies(emitted)
    && (forall j :: 0 <= j < |got| ==>
          match SS.Receive(got[j])
          case Message(data) => data.Some?
          case EndOfStream => ClosedAfter(ident, emitted, Bodies(got[..j]))
          case Aborted(_) => false)
  }

  /** `CloseSend` was called when exactly these bodies had been sent. */
  ghost predicate ClosedAfter(ident: CS.Identity, emitted: seq<Rpc>, bodies: seq<Body>) {
    exists p :: 0 <= p < |emitted| && emitted[p] == CS.CloseSendFrame(ident) && Bodies(emitted[..p]) == bodies
  }

  lemma ReadsAreEmitted(got: seq<Rpc>, ident: CS.Identity, emitted: seq<Rpc>)
    requires CS.AllEmittable(ident, emitted) && got <= NonReset(emitted)
    ensures ReadsInOrder(got, ident, emitted)
  {
    hide Bodies, NonReset;
    BodiesWithoutResets(ident, emitted);
    PrefixKept(0, got, NonReset(emitted));
    forall j | 0 <= j < |got|
      ensures match SS.Receive(got[j])
              case Message(data) => data.Some?
              case EndOfStream => ClosedAfter(ident, emitted, Bodies(got[..j]))
              case Aborted(_) => false
    {
      ReadIsEmitted(got, ident, emitted, j);
    }
  }

  lemma ReadIsEmitted(got: seq<Rpc>, ident: CS.Identity, emitted: seq<Rpc>, j: nat)
    requires CS.AllEmittable(ident, emitted) && got <= NonReset(emitted) && j < |got|
    ensures match SS.Receive(got[j])
            case Message(data) => data.Some?
            case EndOfStream => ClosedAfter(ident, emitted, Bodies(got[..j]))
            case Aborted(_) => false
  {
    hide Bodies, NonReset;
    NonResetPlace(emitted, j);
    var p :| 0 <= p < |emitted| && emitted[p] == NonReset(emitted)[j] && NonReset(emitted[..p]) == NonReset(emitted)[..j];
    assert CS.Emittable(ident, emitted[p]);
    KeptIsNoReset(emitted, j);
    assert got[..j] == NonReset(emitted)[..j];
    BodiesWithoutResets(ident, emitted[..p]);
  }

  lemma {:induction false} KeptIsNoReset(log: seq<Rpc>, j: nat)
    requires j < |NonReset(log)|
    ensures !IsReset(NonReset(log)[j])
  {
    if j < |NonReset(log[..|log| - 1])| {
      KeptIsNoReset(log[..|log| - 1], j);
    }
  }

  /**
    Client to server, in every run: the frames that the handler of a stream has read are body
    frames and `CloseSend` frames of the client stream with the same id; their bodies are a prefix
    of the bodies that its `SendMsg` reported as sent, in order; and end of stream is read only after the client called
    `CloseSend` and after every body sent before that call.
   */
  lemma ClientToServer(cfg: Config, states: seq<System>, steps: seq<Step>, i: nat, n: nat)
    requires IsRun(cfg, states, steps) && i < |states| && n < |states[i].server.all|
    ensures var st, c := states[i].server.all[n], states[i].client;
            && st.ch.taken <= |st.ch.sent| && st.id in c.streams
            && ReadsInOrder(Taken(st), c.streams[st.id].cs.ident, c.streams[st.id].cs.emitted)
            && Bodies(c.streams[st.id].cs.emitted) == CS.SentBodies(c.streams[st.id].cs.sendAnswers)
  {
    hide Inv, Enabled, Next, ReadsInOrder, NonReset;
    InvAlongRun(cfg, states, steps, i);
    HandlerReads(cfg, states[i], n);
  }

  lemma HandlerReads(cfg: Config, s: System, n: nat)
    requires Inv(cfg, s) && n < |s.server.all|
    ensures var st, c := s.server.all[n], s.client;
            && st.ch.taken <= |st.ch.sent| && st.id in c.streams
            && ReadsInOrder(Taken(st), c.streams[st.id].cs.ident, c.streams[st.id].cs.emitted)
            && Bodies(c.streams[st.id].cs.emitted) == CS.SentBodies(c.streams[st.id].cs.sendAnswers)
  {
    hide C.Inv, S.Inv, ReadsInOrder, NonReset, On, S.Opens, S.WrittenOk, CS.AllEmittable;
    var st, c := s.server.all[n], s.client;
    StreamStart(cfg, s, n);
    SentToHandler(cfg, s, n);
    ClientWrites(c, st.id);
    ReadsAreEmitted(Taken(st), c.streams[st.id].cs.ident, c.streams[st.id].cs.emitted);
  }

  // ----- server to client

  /** What a registered call's channel was sent is a prefix of what was read for its id. */
  lemma ChannelIsFed(cfg: Config, s: System, id: nat)
    requires Inv(cfg, s) && id in s.client.mux.registered
    ensures id in s.client.mux.owner && Mux.Owned(s.client.mux)
    ensures Mux.ChanOf(s.client.mux, id).sent <= On(id, s.client.mux.inLog)
  {
    hide On, S.Inv, C.CallsInv, C.WriteInv, UpWire, DownWire;
    var m := s.client.mux;
    assert Mux.Fed(m, id);
    var reg := m.registered[id];
    assert m.inLog == m.inLog[..reg] + m.inLog[reg..];
    OnConcat(id, m.inLog[..reg], m.inLog[reg..]);
  }

  /** The frames read for a call are a prefix of those that the server has written on its id. */
  lemma ReadIsWritten(cfg: Config, s: System, id: nat)
    requires Inv(cfg, s) && id in s.client.mux.registered
    ensures id in s.client.mux.owner && Mux.Owned(s.client.mux)
    ensures Mux.ChanOf(s.client.mux, id).sent <= On(id, Rpcs(s.server.outLog))
  {
    hide On, S.Inv, C.Inv, Rpcs, Mux.ChanOf;
    ChannelIsFed(cfg, s, id);
    PrefixKept(id, s.client.mux.inLog, Rpcs(s.server.outLog));
  }

  /** No reset frame was written for this id. */
  predicate NoServerReset(s: S.Server, id: nat) {
    forall j :: 0 <= j < |s.outLog| && s.outLog[j].rpc.id == id ==> !s.outLog[j].origin.FromReset?
  }

  /** Every frame with this id that is not a reset was written by this stream, and the other way round. */
  predicate OnlyFrom(log: seq<S.Out>, id: nat, n: nat) {
    forall j :: 0 <= j < |log| ==>
                  (log[j].rpc.id == id && !IsReset(log[j].rpc) <==> log[j].origin == S.FromStream(n))
  }

  lemma {:induction false} OnIsFrom(log: seq<S.Out>, id: nat, n: nat)
    requires OnlyFrom(log, id, n)
    ensures NonReset(On(id, Rpcs(log))) == S.From(n, log)
  {
    if |log| > 0 {
      var init, last := log[..|log| - 1], log[|log| - 1];
      OnIsFrom(init, id, n);
      assert Rpcs(log) == Rpcs(init) + [last.rpc];
      OnAppend(id, Rpcs(init), last.rpc);
      assert On(id, Rpcs(init)) + [] == On(id, Rpcs(init)) && S.From(n, init) + [] == S.From(n, init);
      if last.rpc.id == id {
        NonResetAppend(On(id, Rpcs(init)), last.rpc);
      }
    }
  }

  /** What its server stream wrote was written to the transport or lost, in order, but for the frame at the writer. */
  lemma StreamAccounted(cfg: Config, s: S.Server, n: nat)
    requires S.Inv(cfg, s) && n < |s.all|
    ensures Accounted(s.all[n].ss.written, S.From(n, S.Held(s.writer)), S.From(n, s.outLog), S.From(n, s.lost))
  {
    hide S.StreamsOk, S.TableOk, S.OutsOk, S.FeedOk, S.AnswersOk, S.UnaryOk, S.LoopOk, S.StartsOk, S.From, S.OutOk, Accounted;
  }

  /** What an account says about the frames on the transport. */
  lemma AccountFacts(written: seq<Rpc>, held: seq<Rpc>, carried: seq<Rpc>, lost: seq<Rpc>)
    requires Accounted(written, held, carried, lost)
    ensures forall f :: f in carried ==> f in written
    ensures lost == [] ==> carried <= written
    ensures Bodies(lost) == [] ==> Bodies(carried) <= Bodies(written)
  {
    hide IsMerge, Bodies;
    var went :| written == went + held && IsMerge(carried, lost, went);
    forall f | f in carried
      ensures f in written
    {
      MergeMembers(carried, lost, went, f);
    }
    if lost == [] {
      MergeNothing(carried, went);
    }
    MergeBodies(carried, lost, went);
    PrefixKept(0, went, written);
  }

  /** An outgoing frame on an id that carries a stream comes from a stream with that id. */
  lemma StreamOrigin(cfg: Config, s: System, id: nat, j: nat)
    requires Inv(cfg, s) && id in s.client.streams && RouteOf(cfg, s.client.streams[id].opening).StreamMethod?
    requires j < |s.server.outLog| && s.server.outLog[j].rpc.id == id && !s.server.outLog[j].origin.FromReset?
    ensures s.server.outLog[j].origin.FromStream?
    ensures s.server.outLog[j].origin.n < |s.server.all| && s.server.all[s.server.outLog[j].origin.n].id == id
  {
    hide On, RouteOf, C.Inv, S.Inv;
    OriginFacts(cfg, s.server, j);
    var o := s.server.outLog[j];
    if o.origin.FromUnary? {
      assert s.client.outLog[o.origin.r] == s.server.inLog[o.origin.r];
      OnHas(id, s.client.outLog, o.origin.r);
      StreamFramesRouteAlike(cfg, s.client, id, s.client.outLog[o.origin.r]);
    }
  }

  lemma OriginFacts(cfg: Config, s: S.Server, j: nat)
    requires S.Inv(cfg, s) && j < |s.outLog|
    ensures S.OutOk(cfg, s.inLog, s.all, s.outLog[j])
  {
    hide S.StreamsOk, S.TableOk, S.FeedOk, S.AnswersOk, S.UnaryOk, S.LoopOk, S.StartsOk, S.WritesOk, S.WriterOk, S.OutOk;
  }

  /** Every frame of a stream on the transport carries its id. */
  lemma StreamFrameId(cfg: Config, s: S.Server, j: nat)
    requires S.Inv(cfg, s) && j < |s.outLog| && s.outLog[j].origin.FromStream?
    ensures s.outLog[j].origin.n < |s.all| && s.outLog[j].rpc.id == s.all[s.outLog[j].origin.n].id
  {
    hide S.Inv, RouteOf;
    OriginFacts(cfg, s, j);
  }

  /** The resets on the transport are the frames that `resetStream` wrote, and each carries a trailer. */
  lemma ResetOrigin(cfg: Config, s: S.Server, j: nat)
    requires S.Inv(cfg, s) && j < |s.outLog|
    ensures IsReset(s.outLog[j].rpc) <==> s.outLog[j].origin.FromReset?
    ensures IsReset(s.outLog[j].rpc) ==> s.outLog[j].rpc.trailer.Some? && s.outLog[j].rpc.body.None? && s.outLog[j].rpc.status.None?
  {
    hide S.Inv, RouteOf, S.CausesReset, S.ReplyMethod, S.ReplyRoute;
    OriginFacts(cfg, s, j);
  }

  lemma OnlyFromHandler(cfg: Config, s: System, id: nat, n: nat)
    requires Inv(cfg, s) && id in s.client.streams && RouteOf(cfg, s.client.streams[id].opening).StreamMethod?
    requires n < |s.server.all| && s.server.all[n].id == id
    ensures OnlyFrom(s.server.outLog, id, n)
  {
    hide On, RouteOf, C.Inv, S.Inv, IsReset;
    HandlerOfStream(cfg, s, n);
    forall j | 0 <= j < |s.server.outLog|
      ensures s.server.outLog[j].rpc.id == id && !IsReset(s.server.outLog[j].rpc) <==> s.server.outLog[j].origin == S.FromStream(n)
    {
      ResetOrigin(cfg, s.server, j);
      if s.server.outLog[j].rpc.id == id && !IsReset(s.server.outLog[j].rpc) {
        StreamOrigin(cfg, s, id, j);
      } else if s.server.outLog[j].origin == S.FromStream(n) {
        StreamFrameId(cfg, s.server, j);
      }
    }
  }

  /** What `RecvMsg` finally reports for a handler's result. */
  function EndOf(result: Option<Status>): Option<Error> {
    if result.None? then Some(EOF) else Some(WithStatus(SS.TrailerStatus(result)))
  }

  /** The bodies received are exactly those before the trailer, of the frames that were carried. */
  predicate CompleteFrom(cs: CS.ClientStream, carried: seq<Rpc>) {
    && CS.Received(cs.recvAnswers) == Bodies(BeforeTrailer(carried))
    && BeforeTrailer(carried) < carried
  }

  /** The client stream stored an end that it read off a trailer. */
  predicate EndedProperly(cs: CS.ClientStream) {
    cs.done && cs.trailer.Some?
  }

  /** The last frame that the client stream got is a reset of the server. */
  predicate EndedByReset(cs: CS.ClientStream) {
    |cs.inbox| > 0 && IsReset(CS.Last(cs.inbox))
  }

  /** What the client stream got from the handler: everything but a reset at the end. */
  function FromHandler(cs: CS.ClientStream): seq<Rpc> {
    if EndedByReset(cs) then CS.Init(cs.inbox) else cs.inbox
  }

  /** What a client stream promises about the frames it got. */
  lemma ClientSide(cs: CS.ClientStream)
    requires CS.Inv(cs)
    ensures CS.Received(cs.recvAnswers) <= Bodies(cs.inbox)
    ensures |cs.inbox| > 0 ==> NoTrailer(CS.Init(cs.inbox))
    ensures EndedProperly(cs) ==>
              && CS.EndedByTrailer(cs.inbox, CS.Received(cs.recvAnswers)) && cs.rErr == CS.ErrorIfDone(CS.Last(cs.inbox))
              && cs.trailer == CS.Last(cs.inbox).trailer
    ensures CS.Stored(Some(EOF)) in cs.recvAnswers ==> EndedProperly(cs) && cs.rErr == Some(EOF)
  {
    hide CS.EmissionInv, CS.Decodes, CS.HeaderFromFirst;
    CS.DeliveryFromInv(cs);
  }

  /** A reset cut the stream short: everything got before it was received, and the client reports success. */
  predicate CutShort(cs: CS.ClientStream, carried: seq<Rpc>) {
    && FromHandler(cs) <= carried && CS.Received(cs.recvAnswers) == Bodies(FromHandler(cs))
    && cs.rErr == Some(EOF)
  }

  /** The end that the client stored is the handler's own result. */
  predicate TrueEnd(cs: CS.ClientStream, st: S.Stream) {
    st.result.Some? && cs.rErr == EndOf(st.result.value)
  }

  /**
    What the client of a stream has, against what its handler did, where `carried` are the stream's
    frames on the transport and `lost` those whose write failed.
   */
  predicate DeliveredFrom(cs: CS.ClientStream, st: S.Stream, carried: seq<Rpc>, lost: seq<Rpc>) {
    && CS.Received(cs.recvAnswers) <= Bodies(carried)
    && (Bodies(lost) == [] ==> CS.Received(cs.recvAnswers) <= Bodies(st.ss.written))
    && (EndedProperly(cs) ==>
          && (if EndedByReset(cs) then CutShort(cs, carried) else CompleteFrom(cs, carried))
          && (TrueEnd(cs, st) <==> !EndedByReset(cs) || st.result == Some(None)))
  }

  /** A reset of the server, as a client stream reads it. */
  predicate PlainReset(rpc: Rpc) {
    IsReset(rpc) ==> rpc.trailer.Some? && rpc.body.None? && rpc.status.None?
  }

  /** The bodies are those of the handler's frames. */
  lemma ReceivedFromHandler(cs: CS.ClientStream)
    requires CS.Inv(cs) && (EndedByReset(cs) ==> PlainReset(CS.Last(cs.inbox)))
    ensures CS.Received(cs.recvAnswers) <= Bodies(FromHandler(cs))
    ensures EndedProperly(cs) && EndedByReset(cs) ==>
              CS.Received(cs.recvAnswers) == Bodies(FromHandler(cs)) && cs.rErr == Some(EOF)
  {
    hide CS.Inv;
    ClientSide(cs);
    if EndedByReset(cs) {
      CS.BodiesOfLast(cs);
      assert Bodies(CS.Init(cs.inbox)) + [] == Bodies(CS.Init(cs.inbox));
    }
  }

  /** A client stream whose frames, but for a reset, are a prefix of what was carried of a server stream's. */
  lemma EndsMeet(cs: CS.ClientStream, st: S.Stream, held: seq<Rpc>, carried: seq<Rpc>, lost: seq<Rpc>)
    requires CS.Inv(cs) && S.WrittenOk(st) && FromHandler(cs) <= carried
    requires Accounted(st.ss.written, held, carried, lost)
    requires EndedByReset(cs) ==> PlainReset(CS.Last(cs.inbox))
    ensures DeliveredFrom(cs, st, carried, lost)
  {
    hide CS.Inv, Bodies, Accounted;
    ClientSide(cs);
    ReceivedFromHandler(cs);
    AccountFacts(st.ss.written, held, carried, lost);
    PrefixKept(0, FromHandler(cs), carried);
    if EndedProperly(cs) && !EndedByReset(cs) {
      var last := |cs.inbox| - 1;
      assert carried[last] == cs.inbox[last];
      assert carried[last] in st.ss.written;
      BeforeTrailerUnique(carried, CS.Init(cs.inbox));
    }
  }

  /** The frames that an open stream got, as its channel has them. */
  lemma InboxIsTaken(c: C.Client, id: nat)
    requires C.Inv(c) && id in c.streams && c.streams[id].pc.StreamOpen?
    ensures CS.Inv(c.streams[id].cs) && id in c.mux.registered && Mux.Owned(c.mux) && id in c.mux.owner
    ensures c.streams[id].cs.inbox <= Mux.ChanOf(c.mux, id).sent
  {
    hide CS.Inv, Mux.FeedInv, C.WriteInv, On;
    assert C.StreamOk(c.streams[id], id, Mux.ChanOf(c.mux, id), id in c.mux.registered);
  }

  /** The stream with this id is open, and its method is a stream of the server's. */
  predicate OpenStream(cfg: Config, s: System, id: nat) {
    && id in s.client.streams && s.client.streams[id].pc.StreamOpen?
    && RouteOf(cfg, s.client.streams[id].opening).StreamMethod?
  }

  /** Every frame that a stream got is on the transport, under its id. */
  lemma InboxWasWritten(cfg: Config, s: System, id: nat, i: nat) returns (j: nat)
    requires Inv(cfg, s) && id in s.client.streams && s.client.streams[id].pc.StreamOpen?
    requires i < |s.client.streams[id].cs.inbox|
    ensures j < |s.server.outLog| && s.server.outLog[j].rpc == s.client.streams[id].cs.inbox[i]
    ensures s.server.outLog[j].rpc.id == id
  {
    hide C.Inv, S.Inv, On, CS.Inv, Mux.ChanOf, Mux.Owned;
    InboxIsTaken(s.client, id);
    ReadIsWritten(cfg, s, id);
    var f := s.client.streams[id].cs.inbox[i];
    assert f == On(id, Rpcs(s.server.outLog))[i];
    OnMembers(id, Rpcs(s.server.outLog));
    j :| 0 <= j < |s.server.outLog| && Rpcs(s.server.outLog)[j] == f;
  }

  lemma InboxResetsPlain(cfg: Config, s: System, id: nat, i: nat)
    requires Inv(cfg, s) && id in s.client.streams && s.client.streams[id].pc.StreamOpen?
    requires i < |s.client.streams[id].cs.inbox|
    ensures PlainReset(s.client.streams[id].cs.inbox[i])
  {
    hide C.Inv, S.Inv, CS.Inv, IsReset;
    var j := InboxWasWritten(cfg, s, id, i);
    ResetOrigin(cfg, s.server, j);
  }

  /** Only the last frame that a stream got can be a reset. */
  lemma NoResetInside(cfg: Config, s: System, id: nat)
    requires Inv(cfg, s) && id in s.client.streams && s.client.streams[id].pc.StreamOpen?
    ensures var cs := s.client.streams[id].cs;
            NonReset(FromHandler(cs)) == FromHandler(cs) && (EndedByReset(cs) ==> PlainReset(CS.Last(cs.inbox)))
  {
    hide C.Inv, S.Inv, CS.Inv, IsReset, NonReset;
    var cs := s.client.streams[id].cs;
    InboxIsTaken(s.client, id);
    ClientSide(cs);
    forall i | 0 <= i < |FromHandler(cs)|
      ensures !IsReset(FromHandler(cs)[i])
    {
      InboxResetsPlain(cfg, s, id, i);
    }
    AllKept(FromHandler(cs));
    if EndedByReset(cs) {
      InboxResetsPlain(cfg, s, id, |cs.inbox| - 1);
    }
  }

  lemma {:induction false} AllKept(log: seq<Rpc>)
    requires forall i :: 0 <= i < |log| ==> !IsReset(log[i])
    ensures NonReset(log) == log
  {
    if |log| > 0 {
      AllKept(log[..|log| - 1]);
    }
  }

  /** The frames that the client stream got, but for a reset, are a prefix of its server stream's frames on the transport. */
  lemma InboxIsCarried(cfg: Config, s: System, id: nat, n: nat)
    requires Inv(cfg, s) && OpenStream(cfg, s, id)
    requires n < |s.server.all| && s.server.all[n].id == id
    ensures var cs := s.client.streams[id].cs;
            && CS.Inv(cs) && FromHandler(cs) <= S.From(n, s.server.outLog)
            && (EndedByReset(cs) ==> PlainReset(CS.Last(cs.inbox)))
  {
    hide C.Inv, S.Inv, RouteOf, On, NonReset, CS.Inv, S.From, OnlyFrom, Mux.ChanOf, Mux.Owned, IsReset, PlainReset;
    var cs, log := s.client.streams[id].cs, On(id, Rpcs(s.server.outLog));
    InboxIsTaken(s.client, id);
    ReadIsWritten(cfg, s, id);
    NoResetInside(cfg, s, id);
    assert FromHandler(cs) <= log;
    PrefixKept(id, FromHandler(cs), log);
    OnlyFromHandler(cfg, s, id, n);
    OnIsFrom(s.server.outLog, id, n);
  }

  lemma StreamEndsMeet(cfg: Config, s: System, id: nat, n: nat)
    requires Inv(cfg, s) && OpenStream(cfg, s, id)
    requires n < |s.server.all| && s.server.all[n].id == id
    ensures DeliveredFrom(s.client.streams[id].cs, s.server.all[n], S.From(n, s.server.outLog), S.From(n, s.server.lost))
  {
    hide C.Inv, S.Inv, RouteOf, CS.Inv, S.Opens, S.WrittenOk, DeliveredFrom, FromHandler, PlainReset, S.From, Accounted;
    InboxIsCarried(cfg, s, id, n);
    ServerPart(cfg, s);
    StreamAccounted(cfg, s.server, n);
    StreamStart(cfg, s, n);
    EndsMeet(s.client.streams[id].cs, s.server.all[n], S.From(n, S.Held(s.server.writer)),
             S.From(n, s.server.outLog), S.From(n, s.server.lost));
  }

  /** Something other than a reset was read for a stream only if a handler was started for it. */
  lemma HeardFromHandler(cfg: Config, s: System, id: nat) returns (n: nat)
    requires Inv(cfg, s) && OpenStream(cfg, s, id) && FromHandler(s.client.streams[id].cs) != []
    ensures n < |s.server.all| && s.server.all[n].id == id
  {
    hide C.Inv, S.Inv, RouteOf, CS.Inv, NonReset, IsReset;
    var cs := s.client.streams[id].cs;
    NoResetInside(cfg, s, id);
    FirstKept(FromHandler(cs));
    var j := InboxWasWritten(cfg, s, id, 0);
    ResetOrigin(cfg, s.server, j);
    StreamOrigin(cfg, s, id, j);
    n := s.server.outLog[j].origin.n;
  }

  lemma FirstKept(log: seq<Rpc>)
    requires NonReset(log) == log != []
    ensures !IsReset(log[0])
  {
    hide NonReset;
    KeptIsNoReset(log, 0);
  }

  /**
    Server to client, in every run, with resets and failed writes or without: the client has received
    a prefix of the bodies that its stream's handler got onto the transport; of those that the
    handler wrote, unless a body was lost on the way. Once it has stored an end read off a trailer,
    either a reset cut the stream short, or it has received exactly the bodies carried before the
    trailer; and the end is the handler's own result (io.EOF for nil, the handler's status
    otherwise) if and only if the last frame it got is not a reset, or the handler succeeded.
   */
  lemma ServerToClient(cfg: Config, states: seq<System>, steps: seq<Step>, i: nat, id: nat)
    requires IsRun(cfg, states, steps) && i < |states| && OpenStream(cfg, states[i], id)
    ensures var cs, s := states[i].client.streams[id].cs, states[i].server;
            && (forall n :: 0 <= n < |s.all| && s.all[n].id == id ==>
                              DeliveredFrom(cs, s.all[n], S.From(n, s.outLog), S.From(n, s.lost)))
            && (CS.Received(cs.recvAnswers) != [] || (EndedProperly(cs) && !EndedByReset(cs)) ==>
                  exists n :: 0 <= n < |s.all| && s.all[n].id == id)
            && (CS.Stored(Some(EOF)) in cs.recvAnswers ==> EndedProperly(cs) && cs.rErr == Some(EOF))
  {
    hide Inv, Enabled, Next, OpenStream, DeliveredFrom, EndedByReset, S.From;
    InvAlongRun(cfg, states, steps, i);
    BothEnds(cfg, states[i], id);
  }

  lemma BothEnds(cfg: Config, s: System, id: nat)
    requires Inv(cfg, s) && OpenStream(cfg, s, id)
    ensures var cs, v := s.client.streams[id].cs, s.server;
            && (forall n :: 0 <= n < |v.all| && v.all[n].id == id ==>
                              DeliveredFrom(cs, v.all[n], S.From(n, v.outLog), S.From(n, v.lost)))
            && (CS.Received(cs.recvAnswers) != [] || (EndedProperly(cs) && !EndedByReset(cs)) ==>
                  exists n :: 0 <= n < |v.all| && v.all[n].id == id)
            && (CS.Stored(Some(EOF)) in cs.recvAnswers ==> EndedProperly(cs) && cs.rErr == Some(EOF))
  {
    hide C.Inv, S.Inv, DeliveredFrom, RouteOf, CS.Inv, Mux.ChanOf, Mux.Owned, IsReset, NonReset, S.From;
    var cs, v := s.client.streams[id].cs, s.server;
    InboxIsTaken(s.client, id);
    ClientSide(cs);
    NoResetInside(cfg, s, id);
    ReceivedFromHandler(cs);
    forall n | 0 <= n < |v.all| && v.all[n].id == id
      ensures DeliveredFrom(cs, v.all[n], S.From(n, v.outLog), S.From(n, v.lost))
    {
      StreamEndsMeet(cfg, s, id, n);
    }
    if FromHandler(cs) != [] {
      var n := HeardFromHandler(cfg, s, id);
    }
  }

  // ----- what follows the trailer

  /** No body was written after the first trailer. */
  predicate NoBodyAfterTrailer(log: seq<Rpc>) {
    forall i :: |BeforeTrailer(log)| <= i < |log| ==> log[i].body.None?
  }

  /** The bodies before the trailer are all the bodies, exactly when none follows it. */
  lemma NothingAfterTrailer(log: seq<Rpc>)
    ensures Bodies(BeforeTrailer(log)) == Bodies(log) <==> NoBodyAfterTrailer(log)
  {
    var r := BeforeTrailer(log);
    var rest := log[|r|..];
    assert log == r + rest;
    hide Bodies, BeforeTrailer;
    BodiesConcat(r, rest);
    NoBodies(rest);
    if NoBodyAfterTrailer(log) {
      assert forall i :: 0 <= i < |rest| ==> rest[i].body.None?;
      assert Bodies(r) + [] == Bodies(r);
    } else {
      var i :| |r| <= i < |log| && log[i].body.Some?;
      assert rest[i - |r|].body.Some?;
      assert Bodies(rest) != [];
    }
  }

  lemma {:induction false} NoBodies(log: seq<Rpc>)
    ensures Bodies(log) == [] <==> forall i :: 0 <= i < |log| ==> log[i].body.None?
  {
    if |log| > 0 {
      NoBodies(log[..|log| - 1]);
    }
  }

  // ----- resets

  /** A client stream reads every reset frame of the server as a successful end. */
  lemma ResetReadAsEnd(req: Rpc)
    requires req.header.Some?
    ensures CS.ErrorIfDone(S.ResetReply(req)) == Some(EOF)
  {
  }

  /**
    What a server reset is about: a frame of the same id that the client wrote, with a body; or the
    opening frame of the stream, when its metadata does not decode.
   */
  lemma ResetsHaveACause(cfg: Config, states: seq<System>, steps: seq<Step>, i: nat, j: nat)
    requires IsRun(cfg, states, steps) && i < |states| && j < |states[i].server.outLog|
    requires states[i].server.outLog[j].origin.FromReset?
    ensures var s := states[i];
            var o := s.server.outLog[j];
            && o.origin.r < |s.server.inLog| && s.server.inLog[o.origin.r] in On(o.rpc.id, s.client.outLog)
            && S.CausesReset(s.server.inLog[o.origin.r])
  {
    hide Inv, Enabled, Next, S.CausesReset, On;
    InvAlongRun(cfg, states, steps, i);
    CauseWasWritten(cfg, states[i], j);
  }

  lemma CauseWasWritten(cfg: Config, s: System, j: nat)
    requires Inv(cfg, s) && j < |s.server.outLog| && s.server.outLog[j].origin.FromReset?
    ensures var o := s.server.outLog[j];
            && o.origin.r < |s.server.inLog| && s.server.inLog[o.origin.r] in On(o.rpc.id, s.client.outLog)
            && S.CausesReset(s.server.inLog[o.origin.r])
  {
    hide C.Inv, S.Inv, S.CausesReset, On, RouteOf;
    OriginFacts(cfg, s.server, j);
    var r := s.server.outLog[j].origin.r;
    assert s.client.outLog[r] == s.server.inLog[r];
    OnHas(s.server.outLog[j].rpc.id, s.client.outLog, r);
  }

  /**
    A stream whose opening frame decodes, and whose `SendMsg` reported no message as sent, is never
    reset by the server.
   */
  lemma NeverReset(cfg: Config, states: seq<System>, steps: seq<Step>, i: nat, id: nat)
    requires IsRun(cfg, states, steps) && i < |states| && id in states[i].client.streams
    requires CS.Decodes(states[i].client.streams[id].opening)
    requires CS.SentBodies(states[i].client.streams[id].cs.sendAnswers) == []
    ensures NoServerReset(states[i].server, id)
    ensures states[i].client.streams[id].pc.StreamOpen? ==> !EndedByReset(states[i].client.streams[id].cs)
  {
    hide Inv, Enabled, Next, CS.Decodes, CS.SentBodies, NoServerReset, EndedByReset;
    InvAlongRun(cfg, states, steps, i);
    SilentNotReset(cfg, states[i], id);
  }

  lemma SilentNotReset(cfg: Config, s: System, id: nat)
    requires Inv(cfg, s) && id in s.client.streams && CS.Decodes(s.client.streams[id].opening)
    requires CS.SentBodies(s.client.streams[id].cs.sendAnswers) == []
    ensures NoServerReset(s.server, id)
    ensures s.client.streams[id].pc.StreamOpen? ==> !EndedByReset(s.client.streams[id].cs)
  {
    hide C.Inv, S.Inv, CS.Inv, On, CS.SentBodies, CS.Decodes, S.CausesReset, IsReset;
    forall j | 0 <= j < |s.server.outLog| && s.server.outLog[j].rpc.id == id
      ensures !s.server.outLog[j].origin.FromReset?
    {
      if s.server.outLog[j].origin.FromReset? {
        CauseWasWritten(cfg, s, j);
        SilentCausesNone(s.client, id, s.server.inLog[s.server.outLog[j].origin.r]);
      }
    }
    var cs := s.client.streams[id].cs;
    if s.client.streams[id].pc.StreamOpen? && EndedByReset(cs) {
      var j := InboxWasWritten(cfg, s, id, |cs.inbox| - 1);
      ResetOrigin(cfg, s.server, j);
    }
  }

  lemma SilentCausesNone(c: C.Client, id: nat, f: Rpc)
    requires C.Inv(c) && id in c.streams && CS.Decodes(c.streams[id].opening) && f in On(id, c.outLog)
    requires CS.SentBodies(c.streams[id].cs.sendAnswers) == []
    ensures !S.CausesReset(f)
  {
    hide C.Inv, On, CS.SentBodies, MetadataCodec.Decode;
    ClientWrites(c, id);
    var sc := c.streams[id];
    NoBodies(sc.cs.emitted);
    if f != sc.opening {
      assert f in sc.cs.emitted;
      assert CS.Emittable(sc.cs.ident, f);
    }
  }

  // ----- unary calls

  /** What the caller of a unary method gets when its handler returned `outcome`. */
  function ResultFor(outcome: S.UnaryOutcome): C.UnaryResult {
    if outcome.error.Some? && outcome.error.value.code != CODE_OK then C.Failed(WithStatus(outcome.error.value))
    else if outcome.error.Some? then C.Reply(None)
    else if outcome.response.Some? then C.Reply(outcome.response)
    else C.Failed(Plain("malformed response: no body or status"))
  }

  /** A finished unary call and the frame of the server that finished it. */
  predicate Matched(s: S.Server, uc: C.UnaryCall, result: C.UnaryResult, j: nat)
    requires uc.answer.Some?
  {
    && j < |s.outLog| && s.outLog[j].rpc == uc.answer.value
    && match s.outLog[j].origin
       case FromStream(_) => false
       case FromUnary(r, outcome) => r < |s.inLog| && s.inLog[r] == uc.request && result == ResultFor(outcome)
       case FromReset(r) => r < |s.inLog| && s.inLog[r] == uc.request && result.Failed?
  }

  /** The answer of a unary call is a frame that the server wrote on its id. */
  lemma AnswerWasWritten(cfg: Config, s: System, id: nat) returns (j: nat)
    requires Inv(cfg, s) && id in s.client.unary && s.client.unary[id].answer.Some?
    ensures j < |s.server.outLog| && s.server.outLog[j].rpc == s.client.unary[id].answer.value
    ensures s.server.outLog[j].rpc.id == id
  {
    hide C.Inv, S.Inv, On, C.UnaryOk;
    AnswerWasRead(s.client, id);
    ReadIsWritten(cfg, s, id);
    OnMembers(id, Rpcs(s.server.outLog));
    var f := s.client.unary[id].answer.value;
    assert f == On(id, Rpcs(s.server.outLog))[0];
    j :| 0 <= j < |s.server.outLog| && Rpcs(s.server.outLog)[j] == f;
  }

  lemma AnswerWasRead(c: C.Client, id: nat)
    requires C.Inv(c) && id in c.unary && c.unary[id].answer.Some?
    ensures id in c.mux.registered && Mux.Owned(c.mux) && id in c.mux.owner
    ensures |Mux.ChanOf(c.mux, id).sent| > 0 && c.unary[id].answer.value == Mux.ChanOf(c.mux, id).sent[0]
    ensures var pc := c.unary[id].pc;
            (pc.UnaryLeaving? || pc.UnaryReturned?) && pc.result == C.Answer(c.unary[id].answer.value)
    ensures c.unary[id].written && C.RequestOk(c.unary[id].request, id)
  {
    hide C.StreamOk, Mux.FeedInv, C.WriteInv, On, C.Answer;
    assert C.UnaryOk(c.unary[id], id, Mux.ChanOf(c.mux, id), id in c.mux.registered);
  }

  /** The only frame that the server reads on the id of a unary call is its request. */
  lemma OnlyRequestRead(cfg: Config, s: System, id: nat, r: nat)
    requires Inv(cfg, s) && id in s.client.unary && r < |s.server.inLog| && s.server.inLog[r].id == id
    ensures s.server.inLog[r] == s.client.unary[id].request
  {
    hide C.Inv, S.Inv, On;
    ClientWrites(s.client, id);
    assert s.server.inLog[r] == s.client.outLog[r];
    OnHas(id, s.client.outLog, r);
    if id in s.client.streams {
      assert false;
    }
  }

  /** No stream is ever started for a unary call. */
  lemma UnaryIdNotStarted(cfg: Config, s: System, id: nat, n: nat)
    requires Inv(cfg, s) && id in s.client.unary && n < |s.server.all|
    ensures s.server.all[n].id != id
  {
    hide C.Inv, S.Inv, On, RouteOf;
    HandlerOfStream(cfg, s, n);
    ClientWrites(s.client, s.server.all[n].id);
  }

  lemma UnaryIsMatched(cfg: Config, s: System, id: nat) returns (j: nat)
    requires Inv(cfg, s) && id in s.client.unary && s.client.unary[id].answer.Some?
    ensures var uc := s.client.unary[id];
            && (uc.pc.UnaryLeaving? || uc.pc.UnaryReturned?)
            && Matched(s.server, uc, uc.pc.result, j)
  {
    hide C.Inv, S.Inv, On, RouteOf, S.ReplyMethod, S.ReplyRoute, Mux.ChanOf, Mux.Owned;
    AnswerWasRead(s.client, id);
    j := AnswerWasWritten(cfg, s, id);
    OriginFacts(cfg, s.server, j);
    match s.server.outLog[j].origin
    case FromStream(n) => UnaryIdNotStarted(cfg, s, id, n);
    case FromUnary(r, _) => OnlyRequestRead(cfg, s, id, r);
    case FromReset(r) => OnlyRequestRead(cfg, s, id, r);
  }

  /** The handler of the request at position `c.0` returned `c.1` in one of the first `i` steps. */
  ghost predicate ComputedIn(states: seq<System>, steps: seq<Step>, i: nat, c: SI.Computation)
    requires |states| == |steps| + 1
  {
    exists t :: 0 <= t < i && t < |steps| && steps[t].ServerStep? && SI.Computes(states[t].server, steps[t].sstep, c)
  }

  ghost function ComputedBy(states: seq<System>, steps: seq<Step>, i: nat): iset<SI.Computation>
    requires |states| == |steps| + 1
  {
    iset c | ComputedIn(states, steps, i, c)
  }

  lemma SystemStepOutcomes(cfg: Config, s: System, step: Step, known: iset<SI.Computation>, known': iset<SI.Computation>)
    requires Enabled(cfg, s, step) && SI.OutcomesFrom(s.server, known) && known <= known'
    requires forall c :: step.ServerStep? && SI.Computes(s.server, step.sstep, c) ==> c in known'
    ensures SI.OutcomesFrom(Next(cfg, s, step).server, known')
  {
    hide S.Enabled, S.Next, C.Enabled, C.Next;
    match step
    case ServerStep(sstep) => SI.StepOutcomes(cfg, s.server, sstep, known, known');
    case ServerReads => SI.StepOutcomes(cfg, s.server, S.Read(NextUp(s)), known, known');
    case _ =>
  }

  lemma {:induction false} OutcomesAlongRun(cfg: Config, states: seq<System>, steps: seq<Step>, i: nat)
    requires IsRun(cfg, states, steps) && i < |states|
    ensures SI.OutcomesFrom(states[i].server, ComputedBy(states, steps, i))
  {
    hide Enabled, Next, SI.Computes;
    if i > 0 {
      OutcomesAlongRun(cfg, states, steps, i - 1);
      SystemStepOutcomes(cfg, states[i - 1], steps[i - 1], ComputedBy(states, steps, i - 1), ComputedBy(states, steps, i));
    }
  }

  /** The outcome in a frame that answers a unary request was computed for that request. */
  ghost predicate ComputedFor(states: seq<System>, steps: seq<Step>, i: nat, o: S.Out)
    requires |states| == |steps| + 1
  {
    o.origin.FromUnary? ==> ComputedIn(states, steps, i, (o.origin.r, o.origin.outcome))
  }

  lemma WrittenWasComputed(cfg: Config, states: seq<System>, steps: seq<Step>, i: nat, j: nat)
    requires IsRun(cfg, states, steps) && i < |states| && j < |states[i].server.outLog|
    ensures ComputedFor(states, steps, i, states[i].server.outLog[j])
  {
    hide Inv, Enabled, Next, SI.Computes;
    InvAlongRun(cfg, states, steps, i);
    OutcomesAlongRun(cfg, states, steps, i);
    if states[i].server.outLog[j].origin.FromUnary? {
      ServerPart(cfg, states[i]);
      SI.AnswerFacts(cfg, states[i].server, j);
    }
  }

  lemma ServerPart(cfg: Config, s: System)
    requires Inv(cfg, s)
    ensures S.Inv(cfg, s.server)
  {
    hide C.Inv, S.Inv;
  }

  /**
    Unary matching, for every schedule of the workers and any set of concurrent calls: a unary call
    that took an answer got the reply for its own request, with an outcome that the handler of that
    very request returned, and its result is the one that this outcome calls for; a status that is
    not OK wins over a body. An answer that is a reset makes the call fail. A call without an answer
    fails too. And that request, the only frame that the server reads on the call's id, has the header
    and the body that the caller passed, in the one step that made the call.
   */
  lemma UnaryMatching(cfg: Config, states: seq<System>, steps: seq<Step>, i: nat, id: nat)
    requires IsRun(cfg, states, steps) && i < |states| && id in states[i].client.unary
    ensures var uc := states[i].client.unary[id];
            uc.pc.UnaryReturned? ==>
              if uc.answer.Some? then
                exists j: nat :: Matched(states[i].server, uc, uc.pc.result, j) && ComputedFor(states, steps, i, states[i].server.outLog[j])
              else uc.pc.result.Failed?
    ensures exists t :: 0 <= t < i && MadeBy(states[i], states, steps, id, t)
                        && (forall u :: 0 <= u < |steps| && GivesOut(states[u], steps[u], id) ==> u == t)
                        && (forall r :: 0 <= r < |states[i].server.inLog| && states[i].server.inLog[r].id == id ==>
                              RequestFor(states[i].server.inLog[r], id, steps[t].cstep.header, steps[t].cstep.body))
  {
    hide Inv, Enabled, Next, ComputedFor, ResultFor, GivesOut, RequestFor, OpeningFor;
    InvAlongRun(cfg, states, steps, i);
    var t := CallSendsWhatWasPassed(cfg, states, steps, i, id);
    forall r | 0 <= r < |states[i].server.inLog| && states[i].server.inLog[r].id == id
      ensures states[i].server.inLog[r] == states[i].client.unary[id].request
    {
      OnlyRequestRead(cfg, states[i], id, r);
    }
    var uc := states[i].client.unary[id];
    if uc.answer.Some? {
      var j := UnaryIsMatched(cfg, states[i], id);
      WrittenWasComputed(cfg, states, steps, i, j);
    } else {
      UnansweredFails(cfg, states[i], id);
    }
  }

  /**
    What `invoke` makes of the result of `CallUnaryMethod`: it reads the body behind a nil error,
    and panics when there is none.
   */
  datatype Invoked = Returned(body: Body) | Refused(err: Error) | Panicked

  function Invoke(result: C.UnaryResult): Invoked {
    match result
    case Failed(err) => Refused(err)
    case Reply(body) => if body.Some? then Returned(body.value) else Panicked
  }

  /** The caller of a unary method panics exactly when its handler failed with a status of code OK. */
  lemma InvokePanicsExactly(outcome: S.UnaryOutcome)
    ensures Invoke(ResultFor(outcome)).Panicked? <==> outcome.error.Some? && outcome.error.value.code == CODE_OK
  {
  }

  lemma UnansweredFails(cfg: Config, s: System, id: nat)
    requires Inv(cfg, s) && id in s.client.unary && s.client.unary[id].answer.None?
    ensures s.client.unary[id].pc.UnaryReturned? ==> s.client.unary[id].pc.result.Failed?
  {
    hide C.StreamOk, S.Inv, Mux.FeedInv, C.WriteInv, On, C.Answer, UpWire, DownWire, NothingEarly;
    assert C.UnaryOk(s.client.unary[id], id, Mux.ChanOf(s.client.mux, id), id in s.client.mux.registered);
  }
}
