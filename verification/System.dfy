/**
  A whole connection: a GOAT client and a GOAT server joined by two reliable FIFO wires. Each wire
  is the sender's log of frames written; what the receiver has read is a prefix of it.
 */
module Systems {
  import opened Frames
  import opened Logs
  import opened Methods
  import Mux = Multiplexers
  import CS = ClientStreams
  import SS = ServerStreams
  import C = Clients
  import S = Servers
  import SI = ServerInvariants

  datatype System = System(client: C.Client, server: S.Server)

  datatype Step =
    | ClientStep(cstep: C.Step)
    | ServerStep(sstep: S.Step)
    | ClientReads
    | ServerReads

  function Fresh(): System {
    System(C.Fresh, S.Fresh())
  }

  /** The frame that the client side reads next. */
  function NextDown(s: System): Rpc
    requires |s.client.mux.inLog| < |s.server.outLog|
  {
    s.server.outLog[|s.client.mux.inLog|].rpc
  }

  /** The frame that the server side reads next. */
  function NextUp(s: System): Rpc
    requires |s.server.inLog| < |s.client.outLog|
  {
    s.client.outLog[|s.server.inLog|]
  }

  ghost predicate Enabled(cfg: Config, s: System, step: Step) {
    match step
    case ClientStep(cstep) => !cstep.Read? && C.Enabled(s.client, cstep)
    case ServerStep(sstep) => !sstep.Read? && S.Enabled(cfg, s.server, sstep)
    case ClientReads => |s.client.mux.inLog| < |s.server.outLog| && C.Enabled(s.client, C.Read(NextDown(s)))
    case ServerReads => |s.server.inLog| < |s.client.outLog| && S.Enabled(cfg, s.server, S.Read(NextUp(s)))
  }

  function Next(cfg: Config, s: System, step: Step): System
    requires Enabled(cfg, s, step)
  {
    match step
    case ClientStep(cstep) => s.(client := C.Next(s.client, cstep))
    case ServerStep(sstep) => s.(server := S.Next(cfg, s.server, sstep))
    case ClientReads => s.(client := C.Next(s.client, C.Read(NextDown(s))))
    case ServerReads => s.(server := S.Next(cfg, s.server, S.Read(NextUp(s))))
  }

  ghost predicate IsRun(cfg: Config, states: seq<System>, steps: seq<Step>) {
    && |states| == |steps| + 1
    && states[0] == Fresh()
    && forall i :: 0 <= i < |steps| ==>
                     Enabled(cfg, states[i], steps[i]) && states[i + 1] == Next(cfg, states[i], steps[i])
  }

  // ----- invariant

  /** What the server has read is a prefix of what the client has written. */
  predicate UpWire(c: C.Client, s: S.Server) {
    s.inLog <= c.outLog
  }

  function Rpcs(log: seq<S.Out>): seq<Rpc> {
    seq(|log|, i requires 0 <= i < |log| => log[i].rpc)
  }

  /** What the client has read is a prefix of what the server has written. */
  predicate DownWire(c: C.Client, s: S.Server) {
    c.mux.inLog <= Rpcs(s.outLog)
  }

  /** No frame of a call was read before the call was registered. */
  predicate NothingEarly(m: Mux.Multiplexer) {
    forall id :: id in m.registered ==> m.registered[id] <= |m.inLog| && On(id, m.inLog[..m.registered[id]]) == []
  }

  ghost predicate Inv(cfg: Config, s: System) {
    && C.Inv(s.client) && S.Inv(cfg, s.server)
    && UpWire(s.client, s.server) && DownWire(s.client, s.server)
    && NothingEarly(s.client.mux)
  }

  /** The logs of the client side only grow, and a call is registered at the current end of what was read. */
  predicate ClientGrows(c: C.Client, c': C.Client, read: seq<Rpc>) {
    && c.outLog <= c'.outLog
    && c'.mux.inLog == c.mux.inLog + read
    && (forall id :: id in c'.mux.registered ==>
                       if id in c.mux.registered then c'.mux.registered[id] == c.mux.registered[id]
                       else c'.mux.registered[id] == |c.mux.inLog|)
  }

  lemma MuxGrows(m: Mux.Multiplexer, step: Mux.Step)
    requires Mux.Enabled(m, step)
    ensures var m' := Mux.Next(m, step);
            && m'.inLog == m.inLog + (if step.Deliver? then [step.rpc] else [])
            && (forall id :: id in m'.registered ==>
                               if id in m.registered then m'.registered[id] == m.registered[id]
                               else m'.registered[id] == |m.inLog| && step == Mux.Register(id))
  {
    hide Mux.CloseAll;
    assert m.inLog + [] == m.inLog;
    CloseAllKeeps(m);
  }

  lemma CloseAllKeeps(m: Mux.Multiplexer)
    ensures Mux.CloseAll(m).inLog == m.inLog && Mux.CloseAll(m).registered == m.registered
  {
  }

  /** The multiplexer step within a step of the client side, if any. */
  function MuxStepOf(c: C.Client, step: C.Step): Option<Mux.Step> {
    match step
    case NewUnary(chan, _, _) => Some(Mux.Allocate(chan))
    case NewStream(chan, _) => Some(Mux.Allocate(chan))
    case RegisterUnary(id) => Some(Mux.Register(id))
    case RegisterStream(id) => Some(Mux.Register(id))
    case TakeResponse(id) => Some(Mux.Take(id))
    case LeaveCall(id) => Some(Mux.Unregister(id))
    case OnStream(id, st) => C.MuxPart(id, st)
    case Read(rpc) => Some(Mux.Deliver(rpc))
    case Push => Some(Mux.Push)
    case CloseError(err) => Some(Mux.CloseError(err))
    case _ => None
  }

  lemma MuxStepIs(c: C.Client, step: C.Step)
    requires C.Enabled(c, step)
    ensures var part := MuxStepOf(c, step);
            if part.Some? then Mux.Enabled(c.mux, part.value) && C.Next(c, step).mux == Mux.Next(c.mux, part.value)
            else C.Next(c, step).mux == c.mux
    ensures c.outLog <= C.Next(c, step).outLog
  {
    hide Mux.Enabled, Mux.Next, CS.Enabled, CS.Next, C.Answer, CS.Start, C.Emits;
  }

  lemma ClientStepGrows(c: C.Client, step: C.Step)
    requires C.Enabled(c, step)
    ensures ClientGrows(c, C.Next(c, step), if step.Read? then [step.rpc] else [])
  {
    hide Mux.Enabled, Mux.Next, C.Enabled, C.Next;
    MuxStepIs(c, step);
    var part := MuxStepOf(c, step);
    if part.Some? {
      MuxGrows(c.mux, part.value);
      PartReads(step, c);
    } else {
      assert c.mux.inLog + [] == c.mux.inLog;
    }
  }

  lemma PartReads(step: C.Step, c: C.Client)
    requires MuxStepOf(c, step).Some?
    ensures MuxStepOf(c, step).value.Deliver? <==> step.Read?
    ensures step.Read? ==> MuxStepOf(c, step).value.rpc == step.rpc
  {
  }

  lemma ServerStepGrows(cfg: Config, s: S.Server, step: S.Step)
    requires S.Enabled(cfg, s, step)
    ensures s.outLog <= S.Next(cfg, s, step).outLog
    ensures S.Next(cfg, s, step).inLog == s.inLog + (if step.Read? then [step.rpc] else [])
  {
    hide RouteOf, SS.Frame, SS.Apply, SS.Writes, SS.Legal, S.UnaryReply, S.ResetReply, S.AfterRead, S.StartStream;
    assert s.inLog + [] == s.inLog;
  }

  lemma RpcsGrow(a: seq<S.Out>, b: seq<S.Out>)
    requires a <= b
    ensures Rpcs(a) <= Rpcs(b)
  {
  }

  /** Every frame that the server writes carries the id of a frame that it has read. */
  lemma WrittenIdsWereRead(cfg: Config, s: S.Server, i: nat)
    requires S.Inv(cfg, s) && i < |s.outLog|
    ensures exists r :: 0 <= r < |s.inLog| && s.inLog[r].id == s.outLog[i].rpc.id
  {
    hide RouteOf, S.TableOk, S.FeedOk, S.WriterOk, S.WritesOk, S.UnaryOk, S.AnswersOk, S.StartsOk, S.LoopOk, S.WrittenOk;
    var o := s.outLog[i];
    assert S.OutOk(cfg, s.inLog, s.all, o);
    match o.origin
    case FromStream(n) =>
      assert S.StreamOk(cfg, s.inLog, s.all[n]);
      assert s.inLog[s.all[n].startAt].id == o.rpc.id;
    case FromUnary(r, _) => assert s.inLog[r].id == o.rpc.id;
    case FromReset(r) => assert s.inLog[r].id == o.rpc.id;
  }

  /** A call for which something was read has written something. */
  lemma HeardHasWritten(cfg: Config, s: System, id: nat)
    requires S.Inv(cfg, s.server) && UpWire(s.client, s.server) && DownWire(s.client, s.server)
    requires On(id, s.client.mux.inLog) != []
    ensures On(id, s.client.outLog) != []
  {
    hide S.Inv, On;
    OnMembers(id, s.client.outLog);
    OnMembers(id, s.client.mux.inLog);
    var f := On(id, s.client.mux.inLog)[0];
    assert f in s.client.mux.inLog && f.id == id;
    var i :| 0 <= i < |s.client.mux.inLog| && s.client.mux.inLog[i] == f;
    assert s.server.outLog[i].rpc == f;
    WrittenIdsWereRead(cfg, s.server, i);
    var r :| 0 <= r < |s.server.inLog| && s.server.inLog[r].id == id;
    assert s.client.outLog[r].id == id;
    assert s.client.outLog[r] in On(id, s.client.outLog);
  }

  lemma UnregisteredIsSilent(c: C.Client, id: nat)
    requires C.Inv(c) && id !in c.mux.registered
    ensures On(id, c.outLog) == []
  {
    hide On, C.CallsInv, C.StreamOk, C.UnaryOk, Mux.Inv, Mux.FeedInv, C.Inv;
    SilentFacts(c, id);
  }

  lemma SilentFacts(c: C.Client, id: nat)
    requires C.Inv(c) && id !in c.mux.registered
    ensures C.WriteInv(c) && C.WrittenBy(c, id) == []
  {
    hide On, CS.Inv, Mux.FeedInv;
  }

  lemma ClientStepKeepsNothingEarly(cfg: Config, s: System, step: C.Step)
    requires Inv(cfg, s) && C.Enabled(s.client, step)
    ensures NothingEarly(C.Next(s.client, step).mux)
  {
    hide C.Inv, S.Inv, C.Enabled, C.Next, On;
    ClientStepGrows(s.client, step);
    var m, m' := s.client.mux, C.Next(s.client, step).mux;
    forall id | id in m'.registered
      ensures m'.registered[id] <= |m'.inLog| && On(id, m'.inLog[..m'.registered[id]]) == []
    {
      assert m'.inLog[..m'.registered[id]] == m.inLog[..m'.registered[id]];
      if id !in m.registered {
        UnregisteredIsSilent(s.client, id);
        if On(id, m.inLog) != [] {
          HeardHasWritten(cfg, s, id);
        }
        assert m.inLog[..|m.inLog|] == m.inLog;
      }
    }
  }

  lemma ClientStepKeepsInv(cfg: Config, s: System, step: Step)
    requires Inv(cfg, s) && Enabled(cfg, s, step) && (step.ClientStep? || step.ClientReads?)
    ensures Inv(cfg, Next(cfg, s, step))
  {
    hide C.Inv, S.Inv, C.Enabled, C.Next, NothingEarly, On;
    var cstep := if step.ClientStep? then step.cstep else C.Read(NextDown(s));
    C.StepKeepsInv(s.client, cstep);
    ClientStepGrows(s.client, cstep);
    ClientStepKeepsNothingEarly(cfg, s, cstep);
    assert s.client.mux.inLog + [] == s.client.mux.inLog;
  }

  lemma ServerStepKeepsInv(cfg: Config, s: System, step: Step)
    requires Inv(cfg, s) && Enabled(cfg, s, step) && (step.ServerStep? || step.ServerReads?)
    ensures Inv(cfg, Next(cfg, s, step))
  {
    hide C.Inv, S.Inv, S.Enabled, S.Next, NothingEarly, On, Rpcs;
    var sstep := if step.ServerStep? then step.sstep else S.Read(NextUp(s));
    SI.StepKeepsInv(cfg, s.server, sstep);
    ServerStepGrows(cfg, s.server, sstep);
    RpcsGrow(s.server.outLog, S.Next(cfg, s.server, sstep).outLog);
    assert s.server.inLog + [] == s.server.inLog;
  }

  lemma FreshInv(cfg: Config)
    ensures Inv(cfg, Fresh())
  {
    hide C.Inv, S.Inv;
    C.FreshInv();
    S.FreshInv(cfg);
  }

  lemma {:induction false} InvAlongRun(cfg: Config, states: seq<System>, steps: seq<Step>, i: nat)
    requires IsRun(cfg, states, steps) && i < |states|
    ensures Inv(cfg, states[i])
  {
    hide Inv, Enabled, Next;
    if i == 0 {
      FreshInv(cfg);
    } else {
      InvAlongRun(cfg, states, steps, i - 1);
      StepKeepsInv(cfg, states[i - 1], steps[i - 1]);
    }
  }

  lemma StepKeepsInv(cfg: Config, s: System, step: Step)
    requires Inv(cfg, s) && Enabled(cfg, s, step)
    ensures Inv(cfg, Next(cfg, s, step))
  {
    hide Inv, Enabled, Next;
    match step
    case ClientStep(_) => ClientStepKeepsInv(cfg, s, step);
    case ServerStep(_) => ServerStepKeepsInv(cfg, s, step);
    case ClientReads => ClientStepKeepsInv(cfg, s, step);
    case ServerReads => ServerStepKeepsInv(cfg, s, step);
  }
}
