/**
  When a client stream that its handler's trailer ended has received every body that the handler
  wrote: exactly when no body of the stream was lost and none was written after the trailer.
 */
module Completeness {
  import opened Frames
  import opened Logs
  import opened Methods
  import opened Systems
  import EndToEnd
  import HeaderTrips
  import CS = ClientStreams
  import SS = ServerStreams
  import S = Servers
  import C = Clients

  /** A log with at most one trailer is cut at any trailer it has. */
  lemma {:induction false} TrailersAdd(log: seq<Rpc>, i: nat, j: nat)
    requires i < |log| && j < |log| && log[i].trailer.Some? && log[j].trailer.Some?
    ensures SS.TrailerCount(log) >= if i == j then 1 else 2
  {
    var n := |log| - 1;
    if i < n && j < n {
      TrailersAdd(log[..n], i, j);
    } else if i < n {
      TrailersAdd(log[..n], i, i);
    } else if j < n {
      TrailersAdd(log[..n], j, j);
    }
  }

  lemma CutAtTrailer(log: seq<Rpc>, j: nat)
    requires j < |log| && log[j].trailer.Some? && SS.TrailerCount(log) <= 1
    ensures BeforeTrailer(log) == log[..j]
  {
    hide SS.TrailerCount;
    forall i | 0 <= i < j
      ensures log[i].trailer.None?
    {
      if log[i].trailer.Some? {
        TrailersAdd(log, i, j);
      }
    }
    BeforeTrailerUnique(log, log[..j]);
  }

  /** The bodies of a log, around one of its frames that has none. */
  lemma BodiesAround(log: seq<Rpc>, j: nat)
    requires j < |log| && log[j].body.None?
    ensures Bodies(log) == Bodies(log[..j]) + Bodies(log[j + 1..])
  {
    hide Bodies;
    assert log == (log[..j] + [log[j]]) + log[j + 1..];
    BodiesConcat(log[..j] + [log[j]], log[j + 1..]);
    BodiesAppend(log[..j], log[j]);
    assert Bodies(log[..j]) + [] == Bodies(log[..j]);
  }

  /**
    A merge cut at a trailer: the bodies before the trailer in one part are all the bodies of the
    whole, exactly when the other part has none and none follows the trailer.
   */
  lemma MergeComplete(carried: seq<Rpc>, lost: seq<Rpc>, went: seq<Rpc>, held: seq<Rpc>, k: nat)
    requires IsMerge(carried, lost, went) && k < |carried| && carried[k].trailer.Some? && carried[k].body.None?
    requires SS.TrailerCount(went + held) <= 1
    ensures Bodies(carried[..k]) == Bodies(went + held) <==>
            Bodies(lost) == [] && EndToEnd.NoBodyAfterTrailer(went + held)
  {
    hide Bodies, IsMerge, SS.TrailerCount, EndToEnd.NoBodyAfterTrailer, BeforeTrailer;
    var j, m := MergeSplit(carried, lost, went, k);
    var written := went + held;
    assert written[j] == went[j] && written[..j] == went[..j] && written[j + 1..] == went[j + 1..] + held;
    CutAtTrailer(written, j);
    EndToEnd.NothingAfterTrailer(written);
    BodiesAround(written, j);
    MergeBodies(carried[..k], lost[..m], went[..j]);
    MergeBodies(carried[k + 1..], lost[m..], went[j + 1..]);
    BodiesConcat(went[j + 1..], held);
    assert lost == lost[..m] + lost[m..];
    BodiesConcat(lost[..m], lost[m..]);
    Counted(Bodies(carried[..k]), Bodies(written), Bodies(written[..j]), Bodies(written[j + 1..]),
            Bodies(lost[..m]), Bodies(lost[m..]));
  }

  /** The counting behind `MergeComplete`: `a` before the trailer, `p` and `q` lost before and after it. */
  lemma Counted(a: seq<Body>, all: seq<Body>, before: seq<Body>, after: seq<Body>, p: seq<Body>, q: seq<Body>)
    requires all == before + after && |before| == |a| + |p| && |after| >= |q| && (p == [] ==> before == a)
    ensures a == all <==> p + q == [] && before == all
  {
    if a == all {
      assert |p| == 0 && |after| == 0;
    }
  }

  /** The stream's last frame is its trailer, among the frames carried. */
  lemma EndIsCarried(cfg: Config, s: System, id: nat, n: nat)
    requires Inv(cfg, s) && EndToEnd.OpenStream(cfg, s, id) && n < |s.server.all| && s.server.all[n].id == id
    requires EndToEnd.EndedProperly(s.client.streams[id].cs) && !EndToEnd.EndedByReset(s.client.streams[id].cs)
    ensures var cs, carried := s.client.streams[id].cs, S.From(n, s.server.outLog);
            && 0 < |cs.inbox| <= |carried| && carried[|cs.inbox| - 1].trailer.Some?
            && CS.Received(cs.recvAnswers) == Bodies(carried[..|cs.inbox| - 1])
  {
    hide C.Inv, S.Inv, RouteOf, CS.Inv, EndToEnd.PlainReset, S.From, Bodies;
    var cs, carried := s.client.streams[id].cs, S.From(n, s.server.outLog);
    EndToEnd.InboxIsCarried(cfg, s, id, n);
    EndToEnd.ClientSide(cs);
    assert carried[..|cs.inbox| - 1] == CS.Init(cs.inbox);
  }

  /**
    In every run, with failed calls, failed writes and resets or without: a stream that its handler's
    trailer ended has received every body that the handler's stream wrote, if and only if no body of
    the stream was lost in a failed write and none was written after the trailer.
   */
  lemma NothingMissedExactly(cfg: Config, states: seq<System>, steps: seq<Step>, i: nat, id: nat, n: nat)
    requires IsRun(cfg, states, steps) && i < |states| && EndToEnd.OpenStream(cfg, states[i], id)
    requires n < |states[i].server.all| && states[i].server.all[n].id == id
    requires EndToEnd.EndedProperly(states[i].client.streams[id].cs) && !EndToEnd.EndedByReset(states[i].client.streams[id].cs)
    ensures var cs, s := states[i].client.streams[id].cs, states[i].server;
            CS.Received(cs.recvAnswers) == Bodies(s.all[n].ss.written) <==>
            Bodies(S.From(n, s.lost)) == [] && EndToEnd.NoBodyAfterTrailer(s.all[n].ss.written)
  {
    hide Inv, Enabled, Next, RouteOf, EndToEnd.NoBodyAfterTrailer, Bodies, S.From, IsMerge, HeaderTrips.StreamTrails;
    InvAlongRun(cfg, states, steps, i);
    HeaderTrips.TrailsAlongRun(cfg, states, steps, i, n);
    var s, cs := states[i].server, states[i].client.streams[id].cs;
    var carried, lost, held := S.From(n, s.outLog), S.From(n, s.lost), S.From(n, S.Held(s.writer));
    EndIsCarried(cfg, states[i], id, n);
    EndToEnd.ServerPart(cfg, states[i]);
    EndToEnd.StreamAccounted(cfg, s, n);
    EndToEnd.AccountFacts(s.all[n].ss.written, held, carried, lost);
    var went :| s.all[n].ss.written == went + held && IsMerge(carried, lost, went);
    OneTrailer(s.all[n], carried[|cs.inbox| - 1]);
    MergeComplete(carried, lost, went, held, |cs.inbox| - 1);
  }

  lemma OneTrailer(st: S.Stream, f: Rpc)
    requires HeaderTrips.StreamTrails(st) && f in st.ss.written && f.trailer.Some?
    ensures SS.TrailerCount(st.ss.written) <= 1 && f.body.None?
  {
    hide SS.TrailerCount, SS.Legal;
  }
}
