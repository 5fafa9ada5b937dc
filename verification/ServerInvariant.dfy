/** Every step of the server side keeps its invariant. */
module ServerInvariants {
  import opened Frames
  import opened Logs
  import opened Methods
  import MetadataCodec
  import opened Servers
  import SS = ServerStreams

  // ----- a step inside one stream

  /** `b` is `a` as far as everything outside the stream can tell. */
  predicate Alike(a: Stream, b: Stream) {
    && b.id == a.id && b.startAt == a.startAt && b.ch.sent == a.ch.sent && b.ss.written == a.ss.written
    && (b.pc.Gone? <==> a.pc.Gone?) && (b.pc.Unregistering? <==> a.pc.Unregistering?)
  }

  lemma AlikeTable(table: map<nat, nat>, all: seq<Stream>, lock: Lock, loop: LoopPc, n: nat, st: Stream)
    requires n < |all| && Alike(all[n], st) && TableOk(table, all, lock, loop)
    ensures TableOk(table, all[n := st], lock, loop)
  {
  }

  lemma AlikeStarts(all: seq<Stream>, upto: nat, n: nat, st: Stream)
    requires n < |all| && Alike(all[n], st) && StartsOk(all, upto)
    ensures StartsOk(all[n := st], upto)
  {
  }

  lemma AlikeFeed(cfg: Config, inLog: seq<Rpc>, loop: LoopPc, all: seq<Stream>, n: nat, st: Stream)
    requires n < |all| && Alike(all[n], st) && FeedOk(cfg, inLog, loop, all)
    ensures FeedOk(cfg, inLog, loop, all[n := st])
  {
    hide Passed, FedWith, PushingTo;
    assert Fed(cfg, inLog, loop, n, all[n]);
  }

  lemma AlikeOuts(cfg: Config, inLog: seq<Rpc>, all: seq<Stream>, log: seq<Out>, n: nat, st: Stream)
    requires n < |all| && st.id == all[n].id && OutsOk(cfg, inLog, all, log)
    ensures OutsOk(cfg, inLog, all[n := st], log)
  {
    hide RouteOf, UnaryReply, ResetReply;
  }

  lemma AlikeOut(cfg: Config, inLog: seq<Rpc>, all: seq<Stream>, o: Out, n: nat, st: Stream)
    requires n < |all| && st.id == all[n].id && OutOk(cfg, inLog, all, o)
    ensures OutOk(cfg, inLog, all[n := st], o)
  {
    hide RouteOf, UnaryReply, ResetReply;
  }

  /** A step that changes one stream, and nothing that the rest can see of it. */
  lemma LocalStep(cfg: Config, s: Server, n: nat, st: Stream)
    requires Inv(cfg, s) && n < |s.all| && Alike(s.all[n], st) && StreamOk(cfg, s.inLog, st)
    ensures Inv(cfg, Put(s, n, st))
  {
    hide StreamOk, TableOk, StartsOk, FeedOk, OutsOk, OutOk, WriterOk, AnswersOk, UnaryOk, RouteOf, From;
    AlikeTable(s.table, s.all, s.lock, s.loop, n, st);
    AlikeStarts(s.all, Dispatched(s.inLog, s.loop), n, st);
    AlikeFeed(cfg, s.inLog, s.loop, s.all, n, st);
    AlikeOuts(cfg, s.inLog, s.all, s.handed, n, st);
    AlikeOuts(cfg, s.inLog, s.all, s.outLog, n, st);
    if s.writer.Some? {
      AlikeOut(cfg, s.inLog, s.all, s.writer.value, n, st);
    }
  }

  // ----- the steps of a stream's goroutines

  lemma CallKeepsInv(cfg: Config, s: Server, step: Step)
    requires Inv(cfg, s) && Enabled(cfg, s, step) && step.Call?
    ensures Inv(cfg, Next(cfg, s, step))
  {
    hide Inv, TableOk, Opens, RouteOf, SS.Legal;
    StreamFacts(cfg, s, step.n);
    LocalStep(cfg, s, step.n, s.all[step.n].(busy := Some(step.call)));
  }

  lemma ReturnKeepsInv(cfg: Config, s: Server, step: Step)
    requires Inv(cfg, s) && Enabled(cfg, s, step) && step.Return?
    ensures Inv(cfg, Next(cfg, s, step))
  {
    hide Inv, TableOk, Opens, RouteOf;
    StreamFacts(cfg, s, step.n);
    LocalStep(cfg, s, step.n, s.all[step.n].(pc := Returned, result := Some(step.result)));
  }

  lemma TrailKeepsInv(cfg: Config, s: Server, step: Step)
    requires Inv(cfg, s) && Enabled(cfg, s, step) && step.Trail?
    ensures Inv(cfg, Next(cfg, s, step))
  {
    hide Inv, TableOk, Opens, RouteOf, SS.Legal;
    StreamFacts(cfg, s, step.n);
    var call := SS.SendTrailer(s.all[step.n].result.value, step.kvs, step.trailerKvs);
    LocalStep(cfg, s, step.n, s.all[step.n].(pc := Trailing, busy := Some(call)));
  }

  lemma CompleteKeepsInv(cfg: Config, s: Server, step: Step)
    requires Inv(cfg, s) && Enabled(cfg, s, step) && step.Complete?
    ensures Inv(cfg, Next(cfg, s, step))
  {
    hide Inv, TableOk, Opens, RouteOf, SS.Frame, SS.Apply;
    StreamFacts(cfg, s, step.n);
    var st := s.all[step.n];
    var ok := !SS.Writes(st.ss, st.busy.value);
    ApplyWithoutWrite(st.ss, st.busy.value, ok);
    LocalStep(cfg, s, step.n, Completed(st, ok));
  }

  lemma ApplyWithoutWrite(ss: SS.State, call: SS.Call, ok: bool)
    requires SS.Writes(ss, call) ==> !ok
    ensures SS.Apply(ss, call, ok).id == ss.id && SS.Apply(ss, call, ok).written == ss.written
  {
  }

  lemma ReceiveKeepsInv(cfg: Config, s: Server, step: Step)
    requires Inv(cfg, s) && Enabled(cfg, s, step) && step.Receive?
    ensures Inv(cfg, Next(cfg, s, step))
  {
    hide Inv, TableOk, Opens, RouteOf;
    StreamFacts(cfg, s, step.n);
    var st := s.all[step.n];
    LocalStep(cfg, s, step.n, st.(ch := st.ch.(taken := st.ch.taken + 1)));
  }

  lemma CancelStreamKeepsInv(cfg: Config, s: Server, step: Step)
    requires Inv(cfg, s) && Enabled(cfg, s, step) && step.CancelStream?
    ensures Inv(cfg, Next(cfg, s, step))
  {
    hide Inv, TableOk, Opens, RouteOf;
    StreamFacts(cfg, s, step.n);
    LocalStep(cfg, s, step.n, s.all[step.n].(cancelled := true));
  }

  lemma LeaveKeepsInv(cfg: Config, s: Server, step: Step)
    requires Inv(cfg, s) && Enabled(cfg, s, step) && step.Leave?
    ensures Inv(cfg, Next(cfg, s, step))
  {
    hide Inv, TableOk, Opens, RouteOf;
    StreamFacts(cfg, s, step.n);
    LocalStep(cfg, s, step.n, s.all[step.n].(pc := Leaving, cancelled := true));
  }

  /** The invariant, as far as it is about one stream. */
  lemma StreamFacts(cfg: Config, s: Server, n: nat)
    requires Inv(cfg, s) && n < |s.all|
    ensures StreamOk(cfg, s.inLog, s.all[n])
    ensures Fed(cfg, s.inLog, s.loop, n, s.all[n])
    ensures From(n, s.handed) == s.all[n].ss.written
    ensures !s.all[n].pc.Gone? ==> s.all[n].id in s.table && s.table[s.all[n].id] == n
    ensures s.all[n].pc.Unregistering? <==> s.lock == HeldByUnregister(n)
  {
    hide StreamOk, Fed, From, OutsOk, LoopOk, StartsOk, WriterOk, AnswersOk, UnaryOk;
  }

  // ----- handing a stream's frame to the writer

  lemma FromAppend(n: nat, log: seq<Out>, o: Out)
    ensures From(n, log + [o]) == From(n, log) + (if o.origin == FromStream(n) then [o.rpc] else [])
  {
    assert (log + [o])[..|log|] == log;
  }

  lemma FromNothing(n: nat)
    ensures From(n, Held(None)) == []
  {
  }

  lemma FromHeld(n: nat, o: Out)
    ensures From(n, Held(Some(o))) == if o.origin == FromStream(n) then [o.rpc] else []
  {
    FromAppend(n, [], o);
    assert [] + [o] == [o];
  }

  lemma HandOverWriter(handed: seq<Out>, outLog: seq<Out>, lost: seq<Out>, o: Out)
    requires WriterOk(handed, None, outLog, lost) && !o.origin.FromReset?
    ensures WriterOk(handed + [o], Some(o), outLog, lost)
  {
    hide From, Held, Accounted;
    forall n: nat
      ensures Accounted(From(n, handed + [o]), From(n, Held(Some(o))), From(n, outLog), From(n, lost))
    {
      FromNothing(n);
      FromHeld(n, o);
      FromAppend(n, handed, o);
      AccountHanded(From(n, handed), From(n, outLog), From(n, lost), From(n, Held(Some(o))));
    }
  }

  /** The writer takes a frame whose request, if any, was not answered before. */
  lemma HandOverAnswers(handed: seq<Out>, outLog: seq<Out>, o: Out)
    requires AnswersOk(handed, None, outLog)
    requires o.origin.FromUnary? ==> forall k :: 0 <= k < |handed| ==> !Answers(handed[k], o.origin.r)
    ensures AnswersOk(handed + [o], Some(o), outLog)
  {
  }

  lemma WriteAnswers(handed: seq<Out>, o: Out, outLog: seq<Out>)
    requires AnswersOk(handed, Some(o), outLog)
    ensures AnswersOk(handed, None, outLog + [o])
    ensures AnswersOk(handed, None, outLog)
  {
  }

  lemma UnaryFresh(cfg: Config, inLog: seq<Rpc>, loop: LoopPc, workers: seq<Worker>, handed: seq<Out>, i: nat)
    requires UnaryOk(cfg, inLog, loop, workers, handed) && i < |workers| && !workers[i].Idle?
    ensures forall k :: 0 <= k < |handed| ==> !Answers(handed[k], workers[i].r)
  {
    hide RouteOf;
  }

  lemma HandOverOuts(cfg: Config, inLog: seq<Rpc>, all: seq<Stream>, handed: seq<Out>, o: Out)
    requires OutsOk(cfg, inLog, all, handed) && OutOk(cfg, inLog, all, o)
    ensures OutsOk(cfg, inLog, all, handed + [o])
  {
    hide OutOk;
  }

  lemma HandOverUnary(cfg: Config, inLog: seq<Rpc>, loop: LoopPc, workers: seq<Worker>, handed: seq<Out>, o: Out)
    requires UnaryOk(cfg, inLog, loop, workers, handed) && !o.origin.FromUnary?
    ensures UnaryOk(cfg, inLog, loop, workers, handed + [o])
  {
    hide RouteOf;
  }

  /** The stream after its frame was taken by the writer. */
  lemma HandedStreamOk(cfg: Config, inLog: seq<Rpc>, st: Stream)
    requires StreamOk(cfg, inLog, st) && st.busy.Some? && SS.Writes(st.ss, st.busy.value)
    ensures var st' := Completed(st, true);
            && StreamOk(cfg, inLog, st')
            && st'.ss.written == st.ss.written + [SS.Frame(st.ss, st.busy.value)]
            && st'.id == st.id && st'.startAt == st.startAt && st'.ch == st.ch
            && (st'.pc.Gone? <==> st.pc.Gone?) && (st'.pc.Unregistering? <==> st.pc.Unregistering?)
            && SS.Frame(st.ss, st.busy.value).id == st.id && SS.Frame(st.ss, st.busy.value).reset.None?
  {
    hide Opens, RouteOf;
  }

  lemma HandedWrites(handed: seq<Out>, all: seq<Stream>, n: nat, st: Stream, rpc: Rpc)
    requires WritesOk(handed, all) && n < |all| && st.ss.written == all[n].ss.written + [rpc]
    ensures WritesOk(handed + [Out(FromStream(n), rpc)], all[n := st])
  {
    hide From;
    forall k | 0 <= k < |all|
      ensures From(k, handed + [Out(FromStream(n), rpc)]) == all[n := st][k].ss.written
    {
      FromAppend(k, handed, Out(FromStream(n), rpc));
      assert all[k].ss.written + [] == all[k].ss.written;
    }
  }

  lemma HandFrameKeepsInv(cfg: Config, s: Server, step: Step)
    requires Inv(cfg, s) && Enabled(cfg, s, step) && step.HandFrame?
    ensures Inv(cfg, Next(cfg, s, step))
  {
    hide StreamOk, TableOk, StartsOk, FeedOk, OutsOk, WriterOk, AnswersOk, WritesOk, UnaryOk, RouteOf, From, Completed, SS.Frame, SS.Writes, LoopOk;
    var n := step.n;
    var st := s.all[n];
    var st' := Completed(st, true);
    var o := Out(FromStream(n), SS.Frame(st.ss, st.busy.value));
    HandedStreamOk(cfg, s.inLog, st);
    RestAlike(cfg, s, n, st');
    var all := s.all[n := st'];
    HandOverWriter(s.handed, s.outLog, s.lost, o);
    HandOverOuts(cfg, s.inLog, all, s.handed, o);
    HandOverUnary(cfg, s.inLog, s.loop, s.workers, s.handed, o);
    HandedWrites(s.handed, s.all, n, st', o.rpc);
    HandOverAnswers(s.handed, s.outLog, o);
  }

  /** Everything but the frames written, when one stream changes. */
  lemma RestAlike(cfg: Config, s: Server, n: nat, st: Stream)
    requires Inv(cfg, s) && n < |s.all| && Alike(s.all[n], st.(ss := s.all[n].ss))
    ensures TableOk(s.table, s.all[n := st], s.lock, s.loop)
    ensures StartsOk(s.all[n := st], Dispatched(s.inLog, s.loop))
    ensures LoopOk(cfg, s.inLog, s.all[n := st], s.loop)
    ensures FeedOk(cfg, s.inLog, s.loop, s.all[n := st])
    ensures OutsOk(cfg, s.inLog, s.all[n := st], s.handed) && OutsOk(cfg, s.inLog, s.all[n := st], s.outLog)
    ensures s.writer.Some? ==> OutOk(cfg, s.inLog, s.all[n := st], s.writer.value)
  {
    hide StreamOk, StreamsOk, OutsOk, OutOk, WriterOk, AnswersOk, WritesOk, UnaryOk, RouteOf, From, Passed, FedWith, PushingTo;
    AlikeOuts(cfg, s.inLog, s.all, s.handed, n, st);
    AlikeOuts(cfg, s.inLog, s.all, s.outLog, n, st);
    if s.writer.Some? {
      AlikeOut(cfg, s.inLog, s.all, s.writer.value, n, st);
    }
    assert Fed(cfg, s.inLog, s.loop, n, s.all[n]);
  }

  // ----- the writer and the workers

  lemma WriteWriter(handed: seq<Out>, o: Out, outLog: seq<Out>, lost: seq<Out>)
    requires WriterOk(handed, Some(o), outLog, lost)
    ensures WriterOk(handed, None, outLog + [o], lost) && WriterOk(handed, None, outLog, lost + [o])
  {
    hide From, Held, Accounted;
    forall n: nat
      ensures Accounted(From(n, handed), From(n, Held(None)), From(n, outLog + [o]), From(n, lost))
      ensures Accounted(From(n, handed), From(n, Held(None)), From(n, outLog), From(n, lost + [o]))
    {
      FromNothing(n);
      FromHeld(n, o);
      FromAppend(n, outLog, o);
      FromAppend(n, lost, o);
      AccountGone(From(n, handed), From(n, Held(Some(o))), From(n, outLog), From(n, lost));
    }
  }

  lemma WriteKeepsInv(cfg: Config, s: Server, step: Step)
    requires Inv(cfg, s) && Enabled(cfg, s, step) && step.Write?
    ensures Inv(cfg, Next(cfg, s, step))
  {
    hide StreamsOk, TableOk, StartsOk, LoopOk, FeedOk, OutsOk, OutOk, WriterOk, AnswersOk, WritesOk, UnaryOk, RouteOf;
    WriteWriter(s.handed, s.writer.value, s.outLog, s.lost);
    WriteAnswers(s.handed, s.writer.value, s.outLog);
    HandOverOuts(cfg, s.inLog, s.all, s.outLog, s.writer.value);
  }

  lemma ComputeKeepsInv(cfg: Config, s: Server, step: Step)
    requires Inv(cfg, s) && Enabled(cfg, s, step) && step.Compute?
    ensures Inv(cfg, Next(cfg, s, step))
  {
    hide StreamsOk, TableOk, StartsOk, LoopOk, FeedOk, OutsOk, OutOk, WriterOk, AnswersOk, WritesOk, UnaryOk, RouteOf;
    ComputeUnary(cfg, s.inLog, s.loop, s.workers, s.handed, step.i, step.outcome);
  }

  lemma ComputeUnary(cfg: Config, inLog: seq<Rpc>, loop: LoopPc, workers: seq<Worker>, handed: seq<Out>,
                     i: nat, outcome: UnaryOutcome)
    requires UnaryOk(cfg, inLog, loop, workers, handed) && i < |workers| && workers[i].Busy?
    ensures UnaryOk(cfg, inLog, loop, workers[i := Replying(workers[i].r, outcome)], handed)
  {
    hide RouteOf;
  }

  lemma ReplyUnary(cfg: Config, inLog: seq<Rpc>, loop: LoopPc, workers: seq<Worker>, handed: seq<Out>, i: nat, o: Out)
    requires UnaryOk(cfg, inLog, loop, workers, handed) && i < |workers| && workers[i].Replying?
    requires o.origin == FromUnary(workers[i].r, workers[i].outcome)
    ensures UnaryOk(cfg, inLog, loop, workers[i := Idle], handed + [o])
  {
    hide RouteOf;
  }

  lemma ReplyWrites(handed: seq<Out>, all: seq<Stream>, o: Out)
    requires WritesOk(handed, all) && !o.origin.FromStream?
    ensures WritesOk(handed + [o], all)
  {
    hide From;
    forall n | 0 <= n < |all|
      ensures From(n, handed + [o]) == all[n].ss.written
    {
      FromAppend(n, handed, o);
      assert all[n].ss.written + [] == all[n].ss.written;
    }
  }

  lemma HandReplyKeepsInv(cfg: Config, s: Server, step: Step)
    requires Inv(cfg, s) && Enabled(cfg, s, step) && step.HandReply?
    ensures Inv(cfg, Next(cfg, s, step))
  {
    hide StreamsOk, TableOk, StartsOk, LoopOk, FeedOk, OutsOk, WriterOk, AnswersOk, WritesOk, UnaryOk, RouteOf, UnaryReply;
    var w := s.workers[step.i];
    var o := Out(FromUnary(w.r, w.outcome), UnaryReply(s.inLog[w.r], w.outcome));
    HandOverWriter(s.handed, s.outLog, s.lost, o);
    HandOverOuts(cfg, s.inLog, s.all, s.handed, o);
    ReplyUnary(cfg, s.inLog, s.loop, s.workers, s.handed, step.i, o);
    ReplyWrites(s.handed, s.all, o);
    UnaryFresh(cfg, s.inLog, s.loop, s.workers, s.handed, step.i);
    HandOverAnswers(s.handed, s.outLog, o);
  }

  // ----- the serve loop

  /** A change of the loop's place that neither reads nor dispatches. */
  lemma LoopMoves(cfg: Config, inLog: seq<Rpc>, all: seq<Stream>, a: LoopPc, b: LoopPc)
    requires FeedOk(cfg, inLog, a, all) && Dispatched(inLog, b) == Dispatched(inLog, a)
    requires !b.Pushing? && (a.Pushing? ==> !Serving(b)) && (Serving(b) ==> Serving(a))
    ensures FeedOk(cfg, inLog, b, all)
  {
    hide Passed;
    forall n | 0 <= n < |all|
      ensures Fed(cfg, inLog, b, n, all[n])
    {
      assert Fed(cfg, inLog, a, n, all[n]);
      assert all[n].ch.sent + [] == all[n].ch.sent;
    }
  }

  lemma HandUnaryOk(cfg: Config, inLog: seq<Rpc>, loop: LoopPc, workers: seq<Worker>, handed: seq<Out>, i: nat)
    requires UnaryOk(cfg, inLog, loop, workers, handed) && loop.HandingUnary? && i < |workers| && workers[i].Idle?
    requires loop.r < |inLog| && inLog[loop.r].header.Some? && RouteOf(cfg, inLog[loop.r]).UnaryMethod?
    ensures UnaryOk(cfg, inLog, Reading, workers[i := Busy(loop.r)], handed)
  {
    hide RouteOf;
  }

  lemma HandKeepsInv(cfg: Config, s: Server, step: Step)
    requires Inv(cfg, s) && Enabled(cfg, s, step) && step.Hand?
    ensures Inv(cfg, Next(cfg, s, step))
  {
    hide StreamsOk, StartsOk, FeedOk, OutsOk, OutOk, WriterOk, AnswersOk, WritesOk, UnaryOk, RouteOf;
    LoopMoves(cfg, s.inLog, s.all, s.loop, Reading);
    HandUnaryOk(cfg, s.inLog, s.loop, s.workers, s.handed, step.i);
  }

  lemma StopServingKeepsInv(cfg: Config, s: Server, step: Step)
    requires Inv(cfg, s) && Enabled(cfg, s, step) && step.StopServing?
    ensures Inv(cfg, Next(cfg, s, step))
  {
    hide StreamsOk, StartsOk, FeedOk, OutsOk, OutOk, WriterOk, AnswersOk, WritesOk, RouteOf;
    LoopMoves(cfg, s.inLog, s.all, s.loop, Stopped);
  }

  // ----- reading a frame

  lemma StreamsRead(cfg: Config, inLog: seq<Rpc>, all: seq<Stream>, rpc: Rpc)
    requires StreamsOk(cfg, inLog, all)
    ensures StreamsOk(cfg, inLog + [rpc], all)
  {
    hide RouteOf, WrittenOk;
    forall n | 0 <= n < |all|
      ensures StreamOk(cfg, inLog + [rpc], all[n])
    {
      assert StreamOk(cfg, inLog, all[n]);
    }
  }

  lemma OutRead(cfg: Config, inLog: seq<Rpc>, all: seq<Stream>, o: Out, rpc: Rpc)
    requires OutOk(cfg, inLog, all, o)
    ensures OutOk(cfg, inLog + [rpc], all, o)
  {
    hide RouteOf, UnaryReply, ResetReply;
  }

  lemma OutsRead(cfg: Config, inLog: seq<Rpc>, all: seq<Stream>, log: seq<Out>, rpc: Rpc)
    requires OutsOk(cfg, inLog, all, log)
    ensures OutsOk(cfg, inLog + [rpc], all, log)
  {
    hide OutOk;
    forall i | 0 <= i < |log|
      ensures OutOk(cfg, inLog + [rpc], all, log[i])
    {
      OutRead(cfg, inLog, all, log[i], rpc);
    }
  }

  lemma UnaryRead(cfg: Config, inLog: seq<Rpc>, workers: seq<Worker>, handed: seq<Out>, rpc: Rpc, loop: LoopPc)
    requires UnaryOk(cfg, inLog, Reading, workers, handed)
    requires loop.HandingUnary? ==> loop.r == |inLog|
    ensures UnaryOk(cfg, inLog + [rpc], loop, workers, handed)
  {
    hide RouteOf;
  }

  lemma PassedAppend(cfg: Config, id: nat, log: seq<Rpc>, rpc: Rpc)
    ensures Passed(cfg, id, log + [rpc]) ==
            Passed(cfg, id, log)
            + (if rpc.id == id && RouteOf(cfg, rpc).StreamMethod? && !IsReset(rpc) then [rpc] else [])
  {
    assert (log + [rpc])[..|log|] == log;
  }

  lemma FedRead(cfg: Config, inLog: seq<Rpc>, n: nat, st: Stream, rpc: Rpc)
    requires Fed(cfg, inLog, Reading, n, st)
    ensures Fed(cfg, inLog + [rpc], AfterRead(cfg, rpc, |inLog|), n, st)
  {
    hide Passed, RouteOf;
    var all := inLog + [rpc];
    assert all[st.startAt + 1..|inLog|] == inLog[st.startAt + 1..];
    assert all[st.startAt + 1..|all|] == inLog[st.startAt + 1..] + [rpc];
    PassedAppend(cfg, st.id, inLog[st.startAt + 1..], rpc);
    assert inLog[st.startAt + 1..|inLog|] == inLog[st.startAt + 1..];
    assert Passed(cfg, st.id, inLog[st.startAt + 1..]) + [] == Passed(cfg, st.id, inLog[st.startAt + 1..]);
  }

  lemma RoutedHasHeader(cfg: Config, rpc: Rpc)
    requires !RouteOf(cfg, rpc).Ignored?
    ensures rpc.header.Some?
  {
  }

  lemma ReadKeepsInv(cfg: Config, s: Server, step: Step)
    requires Inv(cfg, s) && Enabled(cfg, s, step) && step.Read?
    ensures Inv(cfg, Next(cfg, s, step))
  {
    hide StreamsOk, OutsOk, OutOk, WriterOk, AnswersOk, WritesOk, UnaryOk, RouteOf, Fed;
    var rpc, loop := step.rpc, AfterRead(cfg, step.rpc, |s.inLog|);
    if !RouteOf(cfg, rpc).Ignored? {
      RoutedHasHeader(cfg, rpc);
    }
    StreamsRead(cfg, s.inLog, s.all, rpc);
    OutsRead(cfg, s.inLog, s.all, s.handed, rpc);
    OutsRead(cfg, s.inLog, s.all, s.outLog, rpc);
    if s.writer.Some? {
      OutRead(cfg, s.inLog, s.all, s.writer.value, rpc);
    }
    UnaryRead(cfg, s.inLog, s.workers, s.handed, rpc, loop);
    forall n | 0 <= n < |s.all|
      ensures Fed(cfg, s.inLog + [rpc], loop, n, s.all[n])
    {
      FedRead(cfg, s.inLog, n, s.all[n], rpc);
    }
  }

  // ----- dispatching a stream frame

  /** The last frame read is dispatched and does not go to stream `n`. */
  lemma FedPast(cfg: Config, inLog: seq<Rpc>, r: nat, n: nat, st: Stream)
    requires Fed(cfg, inLog, Routing(r), n, st) && |inLog| > 0 && r == |inLog| - 1
    requires !st.pc.Gone? ==> inLog[r].id != st.id || IsReset(inLog[r])
    ensures Fed(cfg, inLog, Reading, n, st)
  {
    hide RouteOf, Passed;
    DispatchLast(cfg, inLog, st);
    var passed := Passed(cfg, st.id, inLog[st.startAt + 1..|inLog| - 1]);
    assert passed + [] == passed;
    assert inLog[st.startAt + 1..|inLog|] == inLog[st.startAt + 1..];
  }

  lemma DispatchLast(cfg: Config, inLog: seq<Rpc>, st: Stream)
    requires st.startAt < |inLog| - 1
    ensures var last := inLog[|inLog| - 1];
            Passed(cfg, st.id, inLog[st.startAt + 1..]) ==
            Passed(cfg, st.id, inLog[st.startAt + 1..|inLog| - 1])
            + (if last.id == st.id && RouteOf(cfg, last).StreamMethod? && !IsReset(last) then [last] else [])
  {
    hide RouteOf, Passed;
    assert inLog[st.startAt + 1..] == inLog[st.startAt + 1..|inLog| - 1] + [inLog[|inLog| - 1]];
    PassedAppend(cfg, st.id, inLog[st.startAt + 1..|inLog| - 1], inLog[|inLog| - 1]);
  }

  /** The last frame read is dispatched to stream `n`. */
  lemma FedPushing(cfg: Config, inLog: seq<Rpc>, r: nat, n: nat, m: nat, st: Stream)
    requires Fed(cfg, inLog, Routing(r), n, st) && |inLog| > 0 && r == |inLog| - 1
    requires RouteOf(cfg, inLog[r]).StreamMethod? && !IsReset(inLog[r])
    requires !st.pc.Gone? ==> (inLog[r].id == st.id <==> n == m)
    ensures Fed(cfg, inLog, Pushing(m, r), n, st)
  {
    hide RouteOf, Passed;
    DispatchLast(cfg, inLog, st);
    var passed := Passed(cfg, st.id, inLog[st.startAt + 1..|inLog| - 1]);
    assert passed + [] == passed;
    assert inLog[st.startAt + 1..|inLog|] == inLog[st.startAt + 1..];
  }

  /** A route step that leaves the table alone and lets the loop read on, or stop. */
  lemma RouteQuiet(cfg: Config, s: Server, loop: LoopPc)
    requires Inv(cfg, s) && s.loop.Routing? && s.lock.Free? && (loop.Reading? || loop.Stopped?)
    requires s.inLog[s.loop.r].id in s.table ==> IsReset(s.inLog[s.loop.r])
    ensures Inv(cfg, s.(loop := loop))
  {
    hide StreamsOk, OutsOk, OutOk, WriterOk, AnswersOk, WritesOk, RouteOf, Fed;
    forall n | 0 <= n < |s.all|
      ensures Fed(cfg, s.inLog, Reading, n, s.all[n])
    {
      assert Fed(cfg, s.inLog, s.loop, n, s.all[n]);
      FedPast(cfg, s.inLog, s.loop.r, n, s.all[n]);
    }
    assert FeedOk(cfg, s.inLog, Reading, s.all);
    LoopMoves(cfg, s.inLog, s.all, Reading, loop);
  }

  lemma RouteCancel(cfg: Config, s: Server, ok: bool)
    requires Inv(cfg, s) && Enabled(cfg, s, RouteFrame(ok))
    requires ActionFor(s.inLog[s.loop.r].id in s.table, s.inLog[s.loop.r]).CancelIt?
    ensures Inv(cfg, RouteNext(cfg, s, ok))
  {
    hide Inv, Opens, RouteOf, TableOk;
    var n := s.table[s.inLog[s.loop.r].id];
    RouteQuiet(cfg, s, Reading);
    var s' := s.(loop := Reading);
    StreamFacts(cfg, s', n);
    LocalStep(cfg, s', n, s.all[n].(cancelled := true));
  }

  lemma RoutePush(cfg: Config, s: Server, ok: bool)
    requires Inv(cfg, s) && Enabled(cfg, s, RouteFrame(ok))
    requires ActionFor(s.inLog[s.loop.r].id in s.table, s.inLog[s.loop.r]).PushIt?
    ensures Inv(cfg, RouteNext(cfg, s, ok))
  {
    hide StreamsOk, OutsOk, OutOk, WriterOk, AnswersOk, WritesOk, RouteOf, Fed;
    var r := s.loop.r;
    var m := s.table[s.inLog[r].id];
    forall n | 0 <= n < |s.all|
      ensures Fed(cfg, s.inLog, Pushing(m, r), n, s.all[n])
    {
      assert Fed(cfg, s.inLog, s.loop, n, s.all[n]);
      FedPushing(cfg, s.inLog, r, n, m, s.all[n]);
    }
  }

  lemma ResetWriter(handed: seq<Out>, writer: Option<Out>, outLog: seq<Out>, lost: seq<Out>, o: Out)
    requires WriterOk(handed, writer, outLog, lost) && o.origin.FromReset?
    ensures WriterOk(handed, writer, outLog + [o], lost)
  {
    hide From, Held, Accounted;
    forall n: nat
      ensures Accounted(From(n, handed), From(n, Held(writer)), From(n, outLog + [o]), From(n, lost))
    {
      FromAppend(n, outLog, o);
      assert From(n, outLog) + [] == From(n, outLog);
    }
  }

  lemma ResetAnswers(handed: seq<Out>, writer: Option<Out>, outLog: seq<Out>, o: Out)
    requires AnswersOk(handed, writer, outLog) && o.origin.FromReset?
    ensures AnswersOk(handed, writer, outLog + [o])
  {
  }

  lemma RouteReset(cfg: Config, s: Server, ok: bool)
    requires Inv(cfg, s) && Enabled(cfg, s, RouteFrame(ok))
    requires ActionFor(s.inLog[s.loop.r].id in s.table, s.inLog[s.loop.r]).ResetIt?
    ensures Inv(cfg, RouteNext(cfg, s, ok))
  {
    hide StreamsOk, TableOk, StartsOk, LoopOk, FeedOk, OutsOk, WriterOk, AnswersOk, WritesOk, UnaryOk, RouteOf, ResetReply, MetadataCodec.Decode;
    RouteQuiet(cfg, s, if ok then Reading else Stopped);
    var o := Out(FromReset(s.loop.r), ResetReply(s.inLog[s.loop.r]));
    ResetWriter(s.handed, s.writer, s.outLog, s.lost, o);
    ResetAnswers(s.handed, s.writer, s.outLog, o);
    HandOverOuts(cfg, s.inLog, s.all, s.outLog, o);
  }

  lemma OutsStart(cfg: Config, inLog: seq<Rpc>, all: seq<Stream>, log: seq<Out>, st: Stream)
    requires OutsOk(cfg, inLog, all, log)
    ensures OutsOk(cfg, inLog, all + [st], log)
  {
    hide RouteOf, UnaryReply, ResetReply;
  }

  lemma OutStart(cfg: Config, inLog: seq<Rpc>, all: seq<Stream>, o: Out, st: Stream)
    requires OutOk(cfg, inLog, all, o)
    ensures OutOk(cfg, inLog, all + [st], o)
  {
    hide RouteOf, UnaryReply, ResetReply;
  }

  /** A stream that does not exist yet has handed nothing over. */
  lemma {:induction false} NothingFrom(cfg: Config, inLog: seq<Rpc>, all: seq<Stream>, log: seq<Out>, n: nat)
    requires OutsOk(cfg, inLog, all, log) && n >= |all|
    ensures From(n, log) == []
  {
    hide RouteOf, UnaryReply, ResetReply;
    if |log| > 0 {
      var init := log[..|log| - 1];
      assert OutsOk(cfg, inLog, all, init);
      NothingFrom(cfg, inLog, all, init, n);
      assert OutOk(cfg, inLog, all, log[|log| - 1]);
    }
  }

  lemma StartedStreamOk(cfg: Config, inLog: seq<Rpc>, r: nat)
    requires r == |inLog| - 1 && Opens(cfg, inLog[r])
    ensures StreamOk(cfg, inLog, StartStream(inLog[r], r))
    ensures StartStream(inLog[r], r).ss.written == []
  {
    hide RouteOf, ReplyMethod;
  }

  lemma StartFed(cfg: Config, inLog: seq<Rpc>, r: nat, n: nat)
    requires |inLog| > 0 && r == |inLog| - 1 && inLog[r].header.Some?
    ensures Fed(cfg, inLog, Reading, n, StartStream(inLog[r], r))
  {
    hide RouteOf, ReplyMethod;
    assert inLog[r + 1..|inLog|] == [];
  }

  lemma StartTable(table: map<nat, nat>, all: seq<Stream>, loop: LoopPc, st: Stream)
    requires TableOk(table, all, Free, loop) && loop.Routing? && st.id !in table && st.pc.Running?
    ensures TableOk(table[st.id := |all|], all + [st], Free, Reading)
  {
  }

  lemma RouteStart(cfg: Config, s: Server, ok: bool)
    requires Inv(cfg, s) && Enabled(cfg, s, RouteFrame(ok))
    requires ActionFor(s.inLog[s.loop.r].id in s.table, s.inLog[s.loop.r]).StartIt?
    ensures Inv(cfg, RouteNext(cfg, s, ok))
  {
    hide StreamOk, TableOk, OutsOk, OutOk, WriterOk, AnswersOk, UnaryOk, RouteOf, Fed, From, StartStream;
    var r := s.loop.r;
    var st := StartStream(s.inLog[r], r);
    RouteQuiet(cfg, s, Reading);
    StartedStreamOk(cfg, s.inLog, r);
    StartFed(cfg, s.inLog, r, |s.all|);
    StartShape(s.inLog[r], r);
    StartTable(s.table, s.all, s.loop, st);
    OutsStart(cfg, s.inLog, s.all, s.handed, st);
    OutsStart(cfg, s.inLog, s.all, s.outLog, st);
    if s.writer.Some? {
      OutStart(cfg, s.inLog, s.all, s.writer.value, st);
    }
    NothingFrom(cfg, s.inLog, s.all, s.handed, |s.all|);
  }

  lemma StartShape(rpc: Rpc, r: nat)
    requires rpc.header.Some?
    ensures StartStream(rpc, r).id == rpc.id && StartStream(rpc, r).startAt == r && StartStream(rpc, r).pc.Running?
  {
  }

  lemma RouteFrameKeepsInv(cfg: Config, s: Server, step: Step)
    requires Inv(cfg, s) && Enabled(cfg, s, step) && step.RouteFrame?
    ensures Inv(cfg, Next(cfg, s, step))
  {
    hide Inv, Enabled, ActionFor;
    EnabledRoute(cfg, s, step.ok);
    var rpc := s.inLog[s.loop.r];
    match ActionFor(rpc.id in s.table, rpc)
    case CancelIt => RouteCancel(cfg, s, step.ok);
    case PushIt => RoutePush(cfg, s, step.ok);
    case IgnoreIt => IgnoredIsQuiet(cfg, s, step.ok); RouteQuiet(cfg, s, Reading);
    case ResetIt => RouteReset(cfg, s, step.ok);
    case StartIt => RouteStart(cfg, s, step.ok);
  }

  lemma EnabledRoute(cfg: Config, s: Server, ok: bool)
    requires Enabled(cfg, s, RouteFrame(ok))
    ensures s.loop.Routing? && s.lock.Free? && s.loop.r < |s.inLog|
  {
  }

  lemma IgnoredIsQuiet(cfg: Config, s: Server, ok: bool)
    requires Enabled(cfg, s, RouteFrame(ok))
    requires ActionFor(s.inLog[s.loop.r].id in s.table, s.inLog[s.loop.r]).IgnoreIt?
    ensures s.inLog[s.loop.r].id !in s.table
    ensures RouteNext(cfg, s, ok) == s.(loop := Reading)
  {
  }

  // ----- pushing into a stream's channel

  lemma FedPushed(cfg: Config, inLog: seq<Rpc>, loop: LoopPc, n: nat, st: Stream)
    requires loop.Pushing? && loop.r < |inLog| && Fed(cfg, inLog, loop, n, st)
    requires loop.n == n ==> !st.pc.Gone?
    ensures var st' := if loop.n == n then st.(ch := st.ch.(sent := st.ch.sent + [inLog[loop.r]])) else st;
            Fed(cfg, inLog, Reading, n, st')
  {
    hide Passed;
    assert st.ch.sent + [] == st.ch.sent;
    assert st.ch.sent + [inLog[loop.r]] + [] == st.ch.sent + [inLog[loop.r]];
  }

  lemma PushTable(table: map<nat, nat>, all: seq<Stream>, loop: LoopPc, n: nat, st: Stream)
    requires TableOk(table, all, HeldByServe, loop) && n < |all| && Alike(all[n], st.(ch := all[n].ch))
    ensures TableOk(table, all[n := st], Free, Reading)
  {
  }

  lemma PushInKeepsInv(cfg: Config, s: Server, step: Step)
    requires Inv(cfg, s) && Enabled(cfg, s, step) && step.PushIn?
    ensures Inv(cfg, Next(cfg, s, step))
  {
    hide StreamOk, OutsOk, OutOk, WriterOk, AnswersOk, UnaryOk, RouteOf, Fed, From, RouteNext, Completed, HandOver, AfterRead, UnaryReply, Signalled, SS.Frame;
    var n, rpc := s.loop.n, s.inLog[s.loop.r];
    var st := s.all[n];
    var st' := st.(ch := st.ch.(sent := st.ch.sent + [rpc]));
    PushedStreamOk(cfg, s.inLog, st, rpc);
    PushTable(s.table, s.all, s.loop, n, st');
    AlikeOuts(cfg, s.inLog, s.all, s.handed, n, st');
    AlikeOuts(cfg, s.inLog, s.all, s.outLog, n, st');
    if s.writer.Some? {
      AlikeOut(cfg, s.inLog, s.all, s.writer.value, n, st');
    }
    var all := s.all[n := st'];
    forall k | 0 <= k < |all|
      ensures Fed(cfg, s.inLog, Reading, k, all[k])
    {
      FedPushed(cfg, s.inLog, s.loop, k, s.all[k]);
    }
    PushUnary(cfg, s.inLog, s.loop, s.workers, s.handed);
  }

  lemma PushUnary(cfg: Config, inLog: seq<Rpc>, loop: LoopPc, workers: seq<Worker>, handed: seq<Out>)
    requires UnaryOk(cfg, inLog, loop, workers, handed)
    ensures UnaryOk(cfg, inLog, Reading, workers, handed)
  {
    hide RouteOf;
  }

  lemma PushedStreamOk(cfg: Config, inLog: seq<Rpc>, st: Stream, rpc: Rpc)
    requires StreamOk(cfg, inLog, st)
    ensures StreamOk(cfg, inLog, st.(ch := st.ch.(sent := st.ch.sent + [rpc])))
  {
    hide Opens;
  }

  // ----- unregistering, and the wait at the end

  lemma UnregisterTable(table: map<nat, nat>, all: seq<Stream>, loop: LoopPc, n: nat, st: Stream)
    requires TableOk(table, all, Free, loop) && n < |all|
    requires st.id == all[n].id && st.pc.Unregistering? && !all[n].pc.Gone?
    ensures TableOk(table, all[n := st], HeldByUnregister(n), loop)
  {
  }

  lemma UnregisterKeepsInv(cfg: Config, s: Server, step: Step)
    requires Inv(cfg, s) && Enabled(cfg, s, step) && step.Unregister?
    ensures Inv(cfg, Next(cfg, s, step))
  {
    hide StreamOk, TableOk, OutsOk, OutOk, WriterOk, AnswersOk, UnaryOk, RouteOf, From, Passed, FedWith, PushingTo;
    var n := step.n;
    StreamFacts(cfg, s, n);
    var st := s.all[n];
    var st' := st.(cancelled := true, tokens := st.tokens + 1, tokensSent := st.tokensSent + 1, pc := Unregistering);
    assert Next(cfg, s, step) == s.(lock := HeldByUnregister(n), all := s.all[n := st']);
    LeftStreamOk(cfg, s.inLog, st);
    UnregisterTable(s.table, s.all, s.loop, n, st');
    AlikeOuts(cfg, s.inLog, s.all, s.handed, n, st');
    AlikeOuts(cfg, s.inLog, s.all, s.outLog, n, st');
    if s.writer.Some? {
      AlikeOut(cfg, s.inLog, s.all, s.writer.value, n, st');
    }
  }

  lemma LeftStreamOk(cfg: Config, inLog: seq<Rpc>, st: Stream)
    requires StreamOk(cfg, inLog, st) && st.pc.Leaving?
    ensures StreamOk(cfg, inLog, st.(cancelled := true, tokens := st.tokens + 1, tokensSent := st.tokensSent + 1,
                                     pc := Unregistering))
  {
    hide Opens;
  }

  lemma DeleteTable(table: map<nat, nat>, all: seq<Stream>, loop: LoopPc, n: nat, st: Stream)
    requires TableOk(table, all, HeldByUnregister(n), loop) && n < |all|
    requires st.id == all[n].id && st.pc.Gone?
    ensures TableOk(table - {st.id}, all[n := st], Free, loop)
  {
  }

  lemma FedGone(cfg: Config, inLog: seq<Rpc>, loop: LoopPc, n: nat, st: Stream)
    requires Fed(cfg, inLog, loop, n, st)
    ensures Fed(cfg, inLog, loop, n, st.(pc := Gone))
  {
    hide Passed;
  }

  lemma GoneStreamOk(cfg: Config, inLog: seq<Rpc>, st: Stream)
    requires StreamOk(cfg, inLog, st) && st.pc.Unregistering?
    ensures StreamOk(cfg, inLog, st.(pc := Gone))
  {
    hide Opens;
  }

  lemma DeleteKeepsInv(cfg: Config, s: Server, step: Step)
    requires Inv(cfg, s) && Enabled(cfg, s, step) && step.Delete?
    ensures Inv(cfg, Next(cfg, s, step))
  {
    hide StreamOk, TableOk, OutsOk, OutOk, WriterOk, AnswersOk, UnaryOk, RouteOf, From, Fed;
    var n := step.n;
    StreamFacts(cfg, s, n);
    var st' := s.all[n].(pc := Gone);
    GoneStreamOk(cfg, s.inLog, s.all[n]);
    DeleteTable(s.table, s.all, s.loop, n, st');
    FedGone(cfg, s.inLog, s.loop, n, s.all[n]);
    AlikeOuts(cfg, s.inLog, s.all, s.handed, n, st');
    AlikeOuts(cfg, s.inLog, s.all, s.outLog, n, st');
    if s.writer.Some? {
      AlikeOut(cfg, s.inLog, s.all, s.writer.value, n, st');
    }
  }

  /** The loop moves between the states after serving. */
  lemma AfterServing(cfg: Config, s: Server, loop: LoopPc)
    requires Inv(cfg, s) && (s.loop.Stopped? || s.loop.Waiting?)
    requires loop.Stopped? || loop.AllDone? || (loop.Waiting? && loop.n < |s.all|)
    ensures Inv(cfg, s.(loop := loop))
  {
    hide StreamsOk, StartsOk, FeedOk, OutsOk, OutOk, WriterOk, AnswersOk, WritesOk, RouteOf;
    LoopMoves(cfg, s.inLog, s.all, s.loop, loop);
  }

  lemma PickKeepsInv(cfg: Config, s: Server, step: Step)
    requires Inv(cfg, s) && Enabled(cfg, s, step) && step.Pick?
    ensures Inv(cfg, Next(cfg, s, step))
  {
    hide Inv, Opens;
    StreamFacts(cfg, s, step.n);
    LocalStep(cfg, s, step.n, s.all[step.n].(cancelled := true));
    AfterServing(cfg, Put(s, step.n, s.all[step.n].(cancelled := true)), Waiting(step.n));
  }

  lemma TakeTokenKeepsInv(cfg: Config, s: Server, step: Step)
    requires Inv(cfg, s) && Enabled(cfg, s, step) && step.TakeToken?
    ensures Inv(cfg, Next(cfg, s, step))
  {
    hide Inv, Opens;
    var n := s.loop.n;
    StreamFacts(cfg, s, n);
    var st' := s.all[n].(tokens := s.all[n].tokens - 1);
    LocalStep(cfg, s, n, st');
    AfterServing(cfg, Put(s, n, st'), Stopped);
  }

  lemma FinishKeepsInv(cfg: Config, s: Server, step: Step)
    requires Inv(cfg, s) && Enabled(cfg, s, step) && step.Finish?
    ensures Inv(cfg, Next(cfg, s, step))
  {
    hide Inv;
    AfterServing(cfg, s, AllDone);
  }

  lemma StepKeepsInv(cfg: Config, s: Server, step: Step)
    requires Inv(cfg, s) && Enabled(cfg, s, step)
    ensures Inv(cfg, Next(cfg, s, step))
  {
    hide Inv, Enabled, Next;
    match step
    case Read(_) => ReadKeepsInv(cfg, s, step);
    case Hand(_) => HandKeepsInv(cfg, s, step);
    case RouteFrame(_) => RouteFrameKeepsInv(cfg, s, step);
    case PushIn => PushInKeepsInv(cfg, s, step);
    case StopServing => StopServingKeepsInv(cfg, s, step);
    case Compute(_, _) => ComputeKeepsInv(cfg, s, step);
    case HandReply(_) => HandReplyKeepsInv(cfg, s, step);
    case Write(_) => WriteKeepsInv(cfg, s, step);
    case Call(_, _) => CallKeepsInv(cfg, s, step);
    case Return(_, _) => ReturnKeepsInv(cfg, s, step);
    case Trail(_, _, _) => TrailKeepsInv(cfg, s, step);
    case HandFrame(_) => HandFrameKeepsInv(cfg, s, step);
    case Complete(_) => CompleteKeepsInv(cfg, s, step);
    case Receive(_) => ReceiveKeepsInv(cfg, s, step);
    case CancelStream(_) => CancelStreamKeepsInv(cfg, s, step);
    case Leave(_) => LeaveKeepsInv(cfg, s, step);
    case Unregister(_) => UnregisterKeepsInv(cfg, s, step);
    case Delete(_) => DeleteKeepsInv(cfg, s, step);
    case Pick(_) => PickKeepsInv(cfg, s, step);
    case TakeToken => TakeTokenKeepsInv(cfg, s, step);
    case Finish => FinishKeepsInv(cfg, s, step);
  }

  // ----- runs

  ghost predicate IsRun(cfg: Config, states: seq<Server>, steps: seq<Step>) {
    && |states| == |steps| + 1
    && states[0] == Fresh()
    && forall i :: 0 <= i < |steps| ==>
                     Enabled(cfg, states[i], steps[i]) && states[i + 1] == Next(cfg, states[i], steps[i])
  }

  lemma {:induction false} InvAlongRun(cfg: Config, states: seq<Server>, steps: seq<Step>, i: nat)
    requires IsRun(cfg, states, steps) && i < |states|
    ensures Inv(cfg, states[i])
  {
    hide Inv, Enabled, Next;
    if i == 0 {
      FreshInv(cfg);
    } else {
      InvAlongRun(cfg, states, steps, i - 1);
      StepKeepsInv(cfg, states[i - 1], steps[i - 1]);
    }
  }

  // ----- shutdown

  lemma LeavingFacts(cfg: Config, s: Server, n: nat)
    requires Inv(cfg, s) && n < |s.all| && s.all[n].pc.Leaving? && s.lock.Free?
    ensures s.all[n].id in s.table && s.table[s.all[n].id] == n && s.all[n].tokens == 0
    ensures Enabled(cfg, s, Unregister(n))
  {
    hide Inv, Opens, RouteOf, WrittenOk, Fed;
    StreamFacts(cfg, s, n);
  }

  /**
    The entry for the id of a leaving stream is that stream, and its done channel is empty: the
    send of the token under the mutex never blocks.
   */
  lemma UnregisterNeverBlocks(cfg: Config, states: seq<Server>, steps: seq<Step>, i: nat, n: nat)
    requires IsRun(cfg, states, steps) && i < |states| && n < |states[i].all|
    requires states[i].all[n].pc.Leaving? && states[i].lock.Free?
    ensures var s := states[i];
            && s.all[n].id in s.table && s.table[s.all[n].id] == n && s.all[n].tokens == 0
            && Enabled(cfg, s, Unregister(n))
  {
    hide Inv, Enabled, Next;
    InvAlongRun(cfg, states, steps, i);
    LeavingFacts(cfg, states[i], n);
  }

  /**
    In every state of every run the entry for an id is the one live stream with that id, every live
    stream has an entry, and no stream has sent more than one done token.
   */
  lemma TableIsLiveStreams(cfg: Config, states: seq<Server>, steps: seq<Step>, i: nat)
    requires IsRun(cfg, states, steps) && i < |states|
    ensures var s := states[i];
            && (forall id :: id in s.table ==> s.table[id] < |s.all| && s.all[s.table[id]].id == id && !s.all[s.table[id]].pc.Gone?)
            && (forall n :: 0 <= n < |s.all| && !s.all[n].pc.Gone? ==> s.all[n].id in s.table && s.table[s.all[n].id] == n)
            && (forall n :: 0 <= n < |s.all| ==> s.all[n].tokens <= s.all[n].tokensSent <= 1)
  {
    hide Enabled, Next, Inv;
    InvAlongRun(cfg, states, steps, i);
    LiveFacts(cfg, states[i]);
  }

  lemma LiveFacts(cfg: Config, s: Server)
    requires Inv(cfg, s)
    ensures forall id :: id in s.table ==> s.table[id] < |s.all| && s.all[s.table[id]].id == id && !s.all[s.table[id]].pc.Gone?
    ensures forall n :: 0 <= n < |s.all| && !s.all[n].pc.Gone? ==> s.all[n].id in s.table && s.table[s.all[n].id] == n
    ensures forall n :: 0 <= n < |s.all| ==> s.all[n].tokens <= s.all[n].tokensSent <= 1
  {
    hide Opens, WrittenOk, FeedOk, OutsOk, LoopOk, StartsOk, WriterOk, WritesOk, AnswersOk, UnaryOk;
    forall n | 0 <= n < |s.all|
      ensures s.all[n].tokens <= s.all[n].tokensSent <= 1
    {
      assert StreamOk(cfg, s.inLog, s.all[n]);
    }
  }

  predicate Over(loop: LoopPc) {
    loop.Stopped? || loop.Waiting? || loop.AllDone?
  }

  /** After serving the table only loses entries, and no stream is started. */
  predicate Shrinks(a: Server, b: Server) {
    && Over(b.loop)
    && (forall id :: id in b.table ==> id in a.table && b.table[id] == a.table[id])
  }

  /** No stream takes back a done token that it sent. */
  predicate TokensKept(a: Server, b: Server) {
    |a.all| <= |b.all| && forall n :: 0 <= n < |a.all| ==> a.all[n].tokensSent <= b.all[n].tokensSent
  }

  lemma StepShrinks(cfg: Config, s: Server, step: Step)
    requires Enabled(cfg, s, step) && Over(s.loop)
    ensures Shrinks(s, Next(cfg, s, step))
  {
    hide RouteOf, SS.Frame, SS.Apply, SS.Writes, SS.Legal, UnaryReply, RouteNext, AfterRead, Signalled, Completed;
  }

  lemma StepKeepsTokens(cfg: Config, s: Server, step: Step)
    requires Enabled(cfg, s, step)
    ensures TokensKept(s, Next(cfg, s, step))
  {
    hide RouteOf, SS.Frame, SS.Apply, SS.Writes, SS.Legal, UnaryReply, ResetReply, AfterRead, RouteNext;
    if step.RouteFrame? {
      RouteKeepsTokens(cfg, s, step.ok);
    }
  }

  lemma RouteKeepsTokens(cfg: Config, s: Server, ok: bool)
    requires Enabled(cfg, s, RouteFrame(ok))
    ensures TokensKept(s, RouteNext(cfg, s, ok))
  {
    hide RouteOf, ResetReply, StartStream, MetadataCodec.Decode;
  }

  lemma {:induction false} ShrinksAlongRun(cfg: Config, states: seq<Server>, steps: seq<Step>, i: nat, j: nat)
    requires IsRun(cfg, states, steps) && i <= j < |states|
    ensures TokensKept(states[i], states[j])
    ensures Over(states[i].loop) ==> Shrinks(states[i], states[j])
    decreases j - i
  {
    hide Enabled, Next;
    if i < j {
      ShrinksAlongRun(cfg, states, steps, i, j - 1);
      StepKeepsTokens(cfg, states[j - 1], steps[j - 1]);
      if Over(states[i].loop) {
        StepShrinks(cfg, states[j - 1], steps[j - 1]);
      }
    }
  }

  /**
    One turn of `cancelAndWaitForStreams`: from picking a stream to the next time the mutex is free
    after its done token was taken, the table strictly shrinks.
   */
  lemma ShutdownTurn(cfg: Config, states: seq<Server>, steps: seq<Step>, i: nat, t: nat, j: nat)
    requires IsRun(cfg, states, steps) && i < t < j < |states|
    requires steps[i].Pick? && steps[t].TakeToken? && states[t].loop == Waiting(steps[i].n)
    requires states[j].lock.Free?
    ensures states[j].table.Keys < states[i].table.Keys
  {
    var n := steps[i].n;
    InvAlongRun(cfg, states, steps, i);
    InvAlongRun(cfg, states, steps, t);
    InvAlongRun(cfg, states, steps, j);
    ShrinksAlongRun(cfg, states, steps, i, j);
    ShrinksAlongRun(cfg, states, steps, t, j);
    PickedIsLive(cfg, states[i], n);
    TokenTaken(cfg, states[t], states[j], n);
  }

  /** How often `cancelAndWaitForStreams` picks a stream in the steps from `i` to `j`. */
  function Picks(steps: seq<Step>, i: nat, j: nat): nat
    requires i <= j <= |steps|
    decreases j - i
  {
    if i == j then 0 else (if steps[i].Pick? then 1 else 0) + Picks(steps, i + 1, j)
  }

  /** The wait goes on until the token is taken. */
  lemma WaitEnds(cfg: Config, states: seq<Server>, steps: seq<Step>, i: nat, j: nat, n: nat) returns (t: nat)
    requires IsRun(cfg, states, steps) && i <= j < |states|
    requires states[i].loop == Waiting(n) && states[j].loop != Waiting(n)
    ensures i <= t < j && states[t].loop == Waiting(n) && steps[t].TakeToken?
    decreases j - i
  {
    hide Enabled, Next;
    if steps[i].TakeToken? {
      t := i;
    } else {
      StepWaits(cfg, states[i], steps[i], n);
      t := WaitEnds(cfg, states, steps, i + 1, j, n);
    }
  }

  lemma StepWaits(cfg: Config, s: Server, step: Step, n: nat)
    requires Enabled(cfg, s, step) && s.loop == Waiting(n) && !step.TakeToken?
    ensures Next(cfg, s, step).loop == Waiting(n)
  {
    hide RouteOf, SS.Frame, SS.Apply, SS.Writes, SS.Legal, UnaryReply, ResetReply, AfterRead, StartStream, Signalled, RouteNext, Completed;
  }

  /** From one pick to a later one the table strictly shrinks. */
  lemma PickToPick(cfg: Config, states: seq<Server>, steps: seq<Step>, i: nat, j: nat)
    requires IsRun(cfg, states, steps) && i < j < |steps| && steps[i].Pick? && steps[j].Pick?
    ensures states[j].table.Keys < states[i].table.Keys
  {
    hide Next;
    PickWaits(cfg, states[i], steps[i]);
    var t := WaitEnds(cfg, states, steps, i + 1, j, steps[i].n);
    ShutdownTurn(cfg, states, steps, i, t, j);
  }

  lemma PickWaits(cfg: Config, s: Server, step: Step)
    requires Enabled(cfg, s, step) && step.Pick?
    ensures Next(cfg, s, step).loop == Waiting(step.n) && |s.table| > 0
  {
    hide RouteOf, SS.Frame, SS.Apply, SS.Writes, SS.Legal, UnaryReply, ResetReply, AfterRead, StartStream, Signalled, RouteNext, Completed;
    var id :| id in s.table && s.table[id] == step.n;
  }

  lemma SmallerTable(a: map<nat, nat>, b: map<nat, nat>)
    requires a.Keys <= b.Keys
    ensures |a| <= |b| && (a.Keys < b.Keys ==> |a| < |b|)
  {
    var rest := b.Keys - a.Keys;
    assert b.Keys == a.Keys + rest;
    assert |a.Keys| == |a| && |b.Keys| == |b|;
    if a.Keys < b.Keys {
      var x :| x in b.Keys && x !in a.Keys;
      assert x in rest;
    }
  }

  /** After a pick, the picks still to come are fewer than the streams in the table. */
  lemma {:induction false} PicksAfterPick(cfg: Config, states: seq<Server>, steps: seq<Step>, p: nat, i: nat, j: nat)
    requires IsRun(cfg, states, steps) && p < i <= j <= |steps| && steps[p].Pick?
    ensures Picks(steps, i, j) < |states[p].table|
    decreases j - i
  {
    hide Enabled, Next;
    PickWaits(cfg, states[p], steps[p]);
    if i < j {
      if steps[i].Pick? {
        PickToPick(cfg, states, steps, p, i);
        SmallerTable(states[i].table, states[p].table);
        PicksAfterPick(cfg, states, steps, i, i + 1, j);
      } else {
        PicksAfterPick(cfg, states, steps, p, i + 1, j);
      }
    }
  }

  /**
    The wait at the end of a connection takes at most as many turns as there are live streams when
    it begins, whatever else happens in between.
   */
  lemma {:induction false} ShutdownBound(cfg: Config, states: seq<Server>, steps: seq<Step>, i: nat, j: nat)
    requires IsRun(cfg, states, steps) && i <= j <= |steps| && Over(states[i].loop)
    ensures Picks(steps, i, j) <= |states[i].table|
    decreases j - i
  {
    hide Enabled, Next;
    if i < j {
      if steps[i].Pick? {
        PicksAfterPick(cfg, states, steps, i, i + 1, j);
      } else {
        StepShrinks(cfg, states[i], steps[i]);
        SmallerTable(states[i + 1].table, states[i].table);
        ShutdownBound(cfg, states, steps, i + 1, j);
      }
    }
  }

  lemma PickedIsLive(cfg: Config, s: Server, n: nat)
    requires Inv(cfg, s) && Enabled(cfg, s, Pick(n))
    ensures Over(s.loop) && n < |s.all| && exists id :: id in s.table && s.table[id] == n
  {
  }

  lemma TokenTaken(cfg: Config, s: Server, s': Server, n: nat)
    requires Inv(cfg, s) && Inv(cfg, s') && TokensKept(s, s')
    requires s.loop == Waiting(n) && Enabled(cfg, s, TakeToken) && s'.lock.Free?
    ensures forall id :: id in s'.table ==> s'.table[id] != n
  {
    hide Inv, Opens, RouteOf, WrittenOk, Fed;
    StreamFacts(cfg, s, n);
    StreamFacts(cfg, s', n);
    TableFacts(cfg, s');
  }

  lemma TableFacts(cfg: Config, s: Server)
    requires Inv(cfg, s)
    ensures forall id :: id in s.table ==> s.table[id] < |s.all| && !s.all[s.table[id]].pc.Gone?
  {
  }

  /** Once the wait is over the table is empty, and stays empty. */
  lemma ShutdownEnds(cfg: Config, states: seq<Server>, steps: seq<Step>, i: nat, j: nat)
    requires IsRun(cfg, states, steps) && i < j < |states| && steps[i].Finish?
    ensures states[j].table == map[] && states[j].loop.AllDone?
  {
    ShrinksAlongRun(cfg, states, steps, i, j);
    DoneStays(cfg, states, steps, i + 1, j);
    assert |states[i].table| == 0;
  }

  lemma {:induction false} DoneStays(cfg: Config, states: seq<Server>, steps: seq<Step>, i: nat, j: nat)
    requires IsRun(cfg, states, steps) && i <= j < |states| && states[i].loop.AllDone?
    ensures states[j].loop.AllDone?
    decreases j - i
  {
    hide Enabled, Next;
    if i < j {
      DoneStays(cfg, states, steps, i, j - 1);
      StaysDone(cfg, states[j - 1], steps[j - 1]);
    }
  }

  lemma StaysDone(cfg: Config, s: Server, step: Step)
    requires Enabled(cfg, s, step) && s.loop.AllDone?
    ensures Next(cfg, s, step).loop.AllDone?
  {
    hide RouteOf, SS.Frame, SS.Apply, SS.Writes, SS.Legal, UnaryReply, ResetReply, AfterRead, StartStream, Signalled, RouteNext, Completed;
  }

  // ----- unary answers

  /** A request, by its position in the frames read, and what its handler returned. */
  type Computation = (nat, UnaryOutcome)

  /** Every outcome on its way to the caller was computed, as far as `known` knows, for the request it answers. */
  ghost predicate OutcomesFrom(s: Server, known: iset<Computation>) {
    && (forall w :: 0 <= w < |s.workers| && s.workers[w].Replying? ==> (s.workers[w].r, s.workers[w].outcome) in known)
    && (forall k :: 0 <= k < |s.handed| && s.handed[k].origin.FromUnary? ==>
                      (s.handed[k].origin.r, s.handed[k].origin.outcome) in known)
  }

  /** What a step computes: the handler of the request that a worker is busy with returns. */
  ghost predicate Computes(s: Server, step: Step, c: Computation) {
    step.Compute? && step.i < |s.workers| && s.workers[step.i] == Busy(c.0) && step.outcome == c.1
  }

  lemma StepOutcomes(cfg: Config, s: Server, step: Step, known: iset<Computation>, known': iset<Computation>)
    requires Enabled(cfg, s, step) && OutcomesFrom(s, known) && known <= known'
    requires forall c :: Computes(s, step, c) ==> c in known'
    ensures OutcomesFrom(Next(cfg, s, step), known')
  {
    hide RouteOf, SS.Frame, SS.Apply, SS.Writes, SS.Legal, UnaryReply, ResetReply, AfterRead, StartStream, Signalled, RouteNext, Completed;
    if step.RouteFrame? {
      RouteKeepsUnary(cfg, s, step.ok);
    } else if step.Compute? {
      assert Computes(s, step, (s.workers[step.i].r, step.outcome));
    }
  }

  lemma RouteKeepsUnary(cfg: Config, s: Server, ok: bool)
    requires Enabled(cfg, s, RouteFrame(ok))
    ensures RouteNext(cfg, s, ok).workers == s.workers && RouteNext(cfg, s, ok).handed == s.handed
  {
    hide RouteOf, ResetReply, StartStream, MetadataCodec.Decode;
  }

  /** The handler of request `c.0` returned `c.1` in one of the first `i` steps. */
  ghost predicate Computed(states: seq<Server>, steps: seq<Step>, i: nat, c: Computation)
    requires |states| == |steps| + 1
  {
    exists t :: 0 <= t < i && t < |steps| && Computes(states[t], steps[t], c)
  }

  ghost function ComputedBy(states: seq<Server>, steps: seq<Step>, i: nat): iset<Computation>
    requires |states| == |steps| + 1
  {
    iset c | Computed(states, steps, i, c)
  }

  lemma {:induction false} OutcomesAlongRun(cfg: Config, states: seq<Server>, steps: seq<Step>, i: nat)
    requires IsRun(cfg, states, steps) && i < |states|
    ensures OutcomesFrom(states[i], ComputedBy(states, steps, i))
  {
    hide Enabled, Next, Computes;
    if i > 0 {
      OutcomesAlongRun(cfg, states, steps, i - 1);
      StepOutcomes(cfg, states[i - 1], steps[i - 1], ComputedBy(states, steps, i - 1), ComputedBy(states, steps, i));
    }
  }

  /**
    Whatever the schedule of the workers, each unary request is answered at most once, and each
    answer is the reply for its request and for an outcome that the handler of that very request
    returned.
   */
  lemma AnsweredOnce(cfg: Config, states: seq<Server>, steps: seq<Step>, i: nat, k: nat)
    requires IsRun(cfg, states, steps) && i < |states|
    requires k < |states[i].outLog| && states[i].outLog[k].origin.FromUnary?
    ensures var o := states[i].outLog[k];
            && (forall l :: 0 <= l < |states[i].outLog| && l != k ==> !Answers(states[i].outLog[l], o.origin.r))
            && o.origin.r < |states[i].inLog| && states[i].inLog[o.origin.r].header.Some?
            && o.rpc == UnaryReply(states[i].inLog[o.origin.r], o.origin.outcome)
            && Computed(states, steps, i, (o.origin.r, o.origin.outcome))
  {
    hide Enabled, Next, Inv, Computes;
    InvAlongRun(cfg, states, steps, i);
    OutcomesAlongRun(cfg, states, steps, i);
    AnswerFacts(cfg, states[i], k);
  }

  lemma AnswerFacts(cfg: Config, s: Server, k: nat)
    requires Inv(cfg, s) && k < |s.outLog| && s.outLog[k].origin.FromUnary?
    ensures var o := s.outLog[k];
            && (forall l :: 0 <= l < |s.outLog| && l != k ==> !Answers(s.outLog[l], o.origin.r))
            && o.origin.r < |s.inLog| && s.inLog[o.origin.r].header.Some?
            && o.rpc == UnaryReply(s.inLog[o.origin.r], o.origin.outcome)
            && o in s.handed
  {
    hide StreamsOk, TableOk, StartsOk, LoopOk, FeedOk, WriterOk, WritesOk, UnaryOk, RouteOf, UnaryReply, ResetReply;
    assert OutOk(cfg, s.inLog, s.all, s.outLog[k]);
    assert forall l :: 0 <= l < k && s.outLog[l].origin.FromUnary? ==> !Answers(s.outLog[k], s.outLog[l].origin.r);
  }
}
