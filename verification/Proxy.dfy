/**
  The proxy (proxy.go): the route that a frame records on its way out and pops on its way back, and
  the bounded queue of each client.
 */
module Proxies {
  import opened Frames
  import S = Servers

  const CLIENT_BUFFER_SIZE := 16

  /** The interceptor: the header it leaves, or `None` for an error. */
  type Intercepter = RequestHeader -> Option<RequestHeader>

  /** What `forwardRpc` does with a frame: it panics, drops it, or offers a frame to a client. */
  datatype Forwarding = Panics | Dropped | To(destination: string, rpc: Rpc)

  /** `forwardRpc`, up to the choice of the client. */
  function Forward(id: string, intercept: Intercepter, source: string, rpc: Rpc): Forwarding {
    if rpc.header.None? || rpc.header.value.source != source then Panics
    else
      var h := intercept(rpc.header.value);
      if h.None? then Dropped else Route(rpc, Record(h.value, id))
  }

  /** The proxy marks the route. */
  function Record(h: RequestHeader, id: string): RequestHeader {
    h.(proxyRecord := h.proxyRecord + [id])
  }

  /** A route to follow comes before the destination; an empty route that is not nil has no last element. */
  function Route(rpc: Rpc, h: RequestHeader): Forwarding {
    if h.proxyNext.None? then To(h.destination, rpc.(header := Some(h)))
    else
      var next := h.proxyNext.value;
      if |next| == 0 then Panics
      else To(next[|next| - 1], rpc.(header := Some(h.(proxyNext := Some(next[..|next| - 1])))))
  }

  /**
    When `forwardRpc` panics, drops the frame and forwards it: it panics on a frame without a header,
    on one from another source, and on an empty route that is not nil; it drops a frame exactly when
    the interceptor returns an error; and what it forwards goes to the last proxy of the route, or to
    the destination when there is none.
   */
  lemma ForwardMeans(id: string, intercept: Intercepter, source: string, rpc: Rpc)
    ensures var f, own := Forward(id, intercept, source, rpc), rpc.header.Some? && rpc.header.value.source == source;
            && (f.Dropped? <==> own && intercept(rpc.header.value).None?)
            && (f.Panics? <==> !own || (intercept(rpc.header.value).Some? && intercept(rpc.header.value).value.proxyNext == Some([])))
            && (f.To? ==>
                  var h := intercept(rpc.header.value).value;
                  f.destination == if h.proxyNext.None? then h.destination else h.proxyNext.value[|h.proxyNext.value| - 1])
  {
  }

  /** The same but for the route fields. */
  predicate SameButRoute(a: RequestHeader, b: RequestHeader) {
    b.fullMethod == a.fullMethod && b.headers == a.headers && b.source == a.source && b.destination == a.destination
  }

  /** The same content: everything but the header. */
  predicate SameContent(a: Rpc, b: Rpc) {
    b.id == a.id && b.status == a.status && b.body == a.body && b.trailer == a.trailer && b.reset == a.reset
  }

  /** A frame that is forwarded keeps its content, and of its header what the interceptor left, but for the route. */
  lemma ForwardKeeps(id: string, intercept: Intercepter, source: string, rpc: Rpc)
    requires Forward(id, intercept, source, rpc).To?
    ensures var out := Forward(id, intercept, source, rpc).rpc;
            && SameContent(rpc, out) && rpc.header.Some? && out.header.Some? && intercept(rpc.header.value).Some?
            && SameButRoute(intercept(rpc.header.value).value, out.header.value)
            && out.header.value.proxyRecord == intercept(rpc.header.value).value.proxyRecord + [id]
  {
  }

  /** What a frame becomes when it is serialised: an empty repeated field arrives as nil. */
  function Wire(rpc: Rpc): Rpc {
    if rpc.header.Some? && rpc.header.value.proxyNext == Some([]) then
      rpc.(header := Some(rpc.header.value.(proxyNext := None)))
    else rpc
  }

  // ----- routes over several proxies

  /** A proxy on the way: its id, its interceptor, and the id of the client that the frame comes in on. */
  datatype Hop = Hop(id: string, intercept: Intercepter, source: string)

  /** A frame that passed all its hops, and the destinations chosen on the way. */
  datatype Trip = Trip(rpc: Rpc, destinations: seq<string>)

  /** A frame through a chain of proxies; `serialised` says whether the hops in between serialise it. */
  function Travel(hops: seq<Hop>, rpc: Rpc, serialised: bool): Option<Trip> {
    if |hops| == 0 then Some(Trip(rpc, []))
    else
      match Forward(hops[0].id, hops[0].intercept, hops[0].source, rpc)
      case Panics => None
      case Dropped => None
      case To(destination, out) =>
        var rest := Travel(hops[1..], if serialised then Wire(out) else out, serialised);
        if rest.None? then None else Some(Trip(rest.value.rpc, [destination] + rest.value.destinations))
  }

  function Ids(hops: seq<Hop>): seq<string> {
    seq(|hops|, i requires 0 <= i < |hops| => hops[i].id)
  }

  /** The interceptor leaves the route fields alone; it may translate addresses, or drop the frame. */
  ghost predicate KeepsRoute(hop: Hop) {
    forall h :: hop.intercept(h).Some? ==>
                  && hop.intercept(h).value.proxyRecord == h.proxyRecord
                  && hop.intercept(h).value.proxyNext == h.proxyNext
  }

  /** The interceptor leaves addresses and route alone. */
  ghost predicate Silent(hop: Hop) {
    forall h :: hop.intercept(h).Some? && SameRoute(h, hop.intercept(h).value)
  }

  /** The interceptor is silent, and the frame comes in on its own source. */
  ghost predicate Transparent(hop: Hop, source: string) {
    hop.source == source && Silent(hop)
  }

  predicate SameRoute(a: RequestHeader, b: RequestHeader) {
    b.source == a.source && b.destination == a.destination && b.proxyRecord == a.proxyRecord && b.proxyNext == a.proxyNext
  }

  /** A frame without a route to follow records every proxy that it passes, in order. */
  lemma {:induction false} TravelRecords(hops: seq<Hop>, rpc: Rpc, serialised: bool)
    requires rpc.header.Some? && rpc.header.value.proxyNext.None?
    requires forall i :: 0 <= i < |hops| ==> KeepsRoute(hops[i])
    requires Travel(hops, rpc, serialised).Some?
    ensures var out := Travel(hops, rpc, serialised).value.rpc;
            && out.header.Some? && out.header.value.proxyNext.None?
            && out.header.value.proxyRecord == rpc.header.value.proxyRecord + Ids(hops)
    decreases |hops|
  {
    if |hops| == 0 {
      assert Ids(hops) == [];
    } else {
      assert KeepsRoute(hops[0]);
      var out := Forward(hops[0].id, hops[0].intercept, hops[0].source, rpc).rpc;
      TravelRecords(hops[1..], if serialised then Wire(out) else out, serialised);
      assert Ids(hops) == [hops[0].id] + Ids(hops[1..]);
    }
  }

  /** The interceptor does nothing. */
  ghost predicate Idle(hop: Hop) {
    forall h :: hop.intercept(h) == Some(h)
  }

  /**
    Whatever the interceptors do, a frame that gets through a chain of proxies, serialised on the way
    or not, arrives with its content; and with its method, metadata and addresses, when they do nothing.
   */
  lemma {:induction false} TravelKeeps(hops: seq<Hop>, rpc: Rpc, serialised: bool)
    requires Travel(hops, rpc, serialised).Some?
    ensures var out := Travel(hops, rpc, serialised).value.rpc;
            && SameContent(rpc, out)
            && ((forall i :: 0 <= i < |hops| ==> Idle(hops[i])) && rpc.header.Some? ==>
                  out.header.Some? && SameButRoute(rpc.header.value, out.header.value))
    decreases |hops|
  {
    hide Idle;
    if |hops| > 0 {
      ForwardKeeps(hops[0].id, hops[0].intercept, hops[0].source, rpc);
      var out := Forward(hops[0].id, hops[0].intercept, hops[0].source, rpc).rpc;
      TravelKeeps(hops[1..], if serialised then Wire(out) else out, serialised);
      assert forall i :: 0 <= i < |hops[1..]| ==> hops[1..][i] == hops[i + 1];
      if Idle(hops[0]) {
        IdleKeeps(hops[0], rpc.header.value);
      }
    }
  }

  lemma IdleKeeps(hop: Hop, h: RequestHeader)
    requires Idle(hop)
    ensures hop.intercept(h) == Some(h)
  {
  }

  function Reverse(s: seq<string>): seq<string> {
    if |s| == 0 then [] else [s[|s| - 1]] + Reverse(s[..|s| - 1])
  }

  /** The route still to follow, nil when it is used up. */
  function NextOf(route: seq<string>): Option<seq<string>> {
    if route == [] then None else Some(route)
  }

  /** One transparent hop: it pops the route, or goes to the destination when there is none. */
  lemma OneHopBack(hop: Hop, rpc: Rpc, route: seq<string>)
    requires rpc.header.Some? && rpc.header.value.proxyNext == NextOf(route)
    requires Transparent(hop, rpc.header.value.source)
    ensures var f := Forward(hop.id, hop.intercept, hop.source, rpc);
            && f.To? && f.destination == (if route == [] then rpc.header.value.destination else route[|route| - 1])
            && var out := Wire(f.rpc);
               && out.header.Some? && out.header.value.source == rpc.header.value.source
               && out.header.value.destination == rpc.header.value.destination
               && out.header.value.proxyNext == NextOf(if route == [] then [] else route[..|route| - 1])
  {
    assert SameRoute(rpc.header.value, hop.intercept(rpc.header.value).value);
  }

  /** Following a route pops it from the end, and goes to the destination after that. */
  lemma {:induction false} TravelFollows(hops: seq<Hop>, rpc: Rpc, route: seq<string>)
    requires rpc.header.Some? && |hops| == |route| + 1
    requires rpc.header.value.proxyNext == NextOf(route)
    requires forall i :: 0 <= i < |hops| ==> Transparent(hops[i], rpc.header.value.source)
    ensures var trip := Travel(hops, rpc, true);
            && trip.Some? && trip.value.destinations == Reverse(route) + [rpc.header.value.destination]
            && trip.value.rpc.header.Some? && trip.value.rpc.header.value.proxyNext.None?
    decreases |hops|
  {
    OneHopBack(hops[0], rpc, route);
    var out := Wire(Forward(hops[0].id, hops[0].intercept, hops[0].source, rpc).rpc);
    if route != [] {
      TravelFollows(hops[1..], out, route[..|route| - 1]);
    } else {
      assert hops[1..] == [] && Travel(hops[1..], out, true) == Some(Trip(out, []));
    }
  }

  /** A frame comes in on its own source at every hop. */
  predicate SourcesMatch(hops: seq<Hop>, source: string) {
    forall i :: 0 <= i < |hops| ==> hops[i].source == source
  }

  /**
    Over silent proxies a frame gets through its route exactly when it comes in on its own source at
    every hop; the first proxy where it does not panics.
   */
  lemma {:induction false} TravelNeedsSources(hops: seq<Hop>, rpc: Rpc, route: seq<string>)
    requires rpc.header.Some? && |hops| == |route| + 1
    requires rpc.header.value.proxyNext == NextOf(route)
    requires forall i :: 0 <= i < |hops| ==> Silent(hops[i])
    ensures Travel(hops, rpc, true).Some? <==> SourcesMatch(hops, rpc.header.value.source)
    decreases |hops|
  {
    hide Silent;
    var source := rpc.header.value.source;
    if hops[0].source == source {
      OneHopBack(hops[0], rpc, route);
      var out := Wire(Forward(hops[0].id, hops[0].intercept, hops[0].source, rpc).rpc);
      if route != [] {
        TravelNeedsSources(hops[1..], out, route[..|route| - 1]);
        assert hops == [hops[0]] + hops[1..];
      } else {
        assert hops[1..] == [] && Travel(hops[1..], out, true) == Some(Trip(out, []));
      }
    }
  }

  /** The addresses and the route of a reply: those of `UnaryReply` and `ResetReply`. */
  predicate RepliesTo(reply: Rpc, req: Rpc) {
    && req.header.Some? && reply.header.Some?
    && reply.header.value.destination == req.header.value.source
    && reply.header.value.source == req.header.value.destination
    && reply.header.value.proxyNext == S.ReplyRoute(req.header.value.proxyRecord)
  }

  lemma ServerReplies(req: Rpc, outcome: S.UnaryOutcome)
    requires req.header.Some?
    ensures RepliesTo(S.UnaryReply(req, outcome), req) && RepliesTo(S.ResetReply(req), req)
  {
  }

  /** The way back of a request that came through these proxies: the proxies before the last, last first, then its source. */
  function WayBack(hops: seq<Hop>, source: string): seq<string>
    requires |hops| > 0
  {
    Reverse(Ids(hops[..|hops| - 1])) + [source]
  }

  /**
    Route reversal, for every chain of n >= 1 proxies p1..pn over serialising hops, whose
    interceptors leave the route alone: the reply to a request that came through p1..pn, or a reset,
    sent to pn, is forwarded to p(n-1), ..., p1 and then to the source that the server saw; no hop
    indexes an empty route, and the route is used up at the end.
   */
  lemma RouteReversal(hops: seq<Hop>, req: Rpc, back: seq<Hop>, reply: Rpc)
    requires |hops| >= 1 && req.header.Some?
    requires req.header.value.proxyRecord == [] && req.header.value.proxyNext.None?
    requires forall i :: 0 <= i < |hops| ==> KeepsRoute(hops[i])
    requires Travel(hops, req, true).Some? && RepliesTo(reply, Travel(hops, req, true).value.rpc)
    requires |back| == |hops| && forall i :: 0 <= i < |back| ==> Transparent(back[i], reply.header.value.source)
    ensures Travel(back, reply, true).Some?
    ensures Travel(back, reply, true).value.destinations ==
            WayBack(hops, Travel(hops, req, true).value.rpc.header.value.source)
    ensures Travel(back, reply, true).value.rpc.header.Some?
    ensures Travel(back, reply, true).value.rpc.header.value.proxyNext.None?
  {
    hide Travel, KeepsRoute, Transparent, Reverse;
    TravelRecords(hops, req, true);
    var record := Travel(hops, req, true).value.rpc.header.value.proxyRecord;
    assert record == Ids(hops);
    assert record[..|record| - 1] == Ids(hops[..|hops| - 1]);
    TravelFollows(back, reply, record[..|record| - 1]);
  }

  /**
    The way back needs every proxy to know the connection that the reply comes in on by the reply's
    source, which is the server's address: over silent proxies the reply gets through if and only if
    they all do.
   */
  lemma WayBackNeedsSources(hops: seq<Hop>, req: Rpc, back: seq<Hop>, reply: Rpc)
    requires |hops| >= 1 && req.header.Some?
    requires req.header.value.proxyRecord == [] && req.header.value.proxyNext.None?
    requires forall i :: 0 <= i < |hops| ==> KeepsRoute(hops[i])
    requires Travel(hops, req, true).Some? && RepliesTo(reply, Travel(hops, req, true).value.rpc)
    requires |back| == |hops| && forall i :: 0 <= i < |back| ==> Silent(back[i])
    ensures Travel(back, reply, true).Some? <==>
            SourcesMatch(back, Travel(hops, req, true).value.rpc.header.value.destination)
  {
    hide Travel, KeepsRoute, Silent, SourcesMatch;
    TravelRecords(hops, req, true);
    var record := Travel(hops, req, true).value.rpc.header.value.proxyRecord;
    assert record == Ids(hops);
    TravelNeedsSources(back, reply, record[..|record| - 1]);
  }

  /**
    Without serialising hops the way back works exactly for one proxy: with two or more, the last
    hop gets an empty route that is not nil, and panics.
   */
  lemma UnserialisedWayBack(back: seq<Hop>, req: Rpc, reply: Rpc)
    requires RepliesTo(reply, req) && |back| == |req.header.value.proxyRecord| >= 1
    requires forall i :: 0 <= i < |back| ==> Transparent(back[i], reply.header.value.source)
    ensures Travel(back, reply, false).Some? <==> |back| == 1
  {
    hide Transparent, Forward;
    if |back| == 1 {
      OneHopRaw(back[0], reply);
      assert back[1..] == [];
    } else {
      UnserialisedPanics(back, reply);
    }
  }

  /** A transparent hop on a frame as it is, without a wire behind it. */
  lemma OneHopRaw(hop: Hop, rpc: Rpc)
    requires rpc.header.Some? && Transparent(hop, rpc.header.value.source)
    ensures var f, next := Forward(hop.id, hop.intercept, hop.source, rpc), rpc.header.value.proxyNext;
            && (f.Panics? <==> next == Some([])) && !f.Dropped?
            && (f.To? ==> f.rpc.header.Some? && f.rpc.header.value.source == rpc.header.value.source)
            && (f.To? && next.Some? ==> f.rpc.header.value.proxyNext == Some(next.value[..|next.value| - 1]))
  {
    assert SameRoute(rpc.header.value, hop.intercept(rpc.header.value).value);
  }

  /** A route with fewer proxies than there are hops runs out. */
  lemma {:induction false} UnserialisedPanics(hops: seq<Hop>, rpc: Rpc)
    requires rpc.header.Some? && rpc.header.value.proxyNext.Some? && |hops| > |rpc.header.value.proxyNext.value|
    requires forall i :: 0 <= i < |hops| ==> Transparent(hops[i], rpc.header.value.source)
    ensures Travel(hops, rpc, false).None?
    decreases |hops|
  {
    hide Transparent, Forward;
    OneHopRaw(hops[0], rpc);
    if rpc.header.value.proxyNext.value != [] {
      UnserialisedPanics(hops[1..], Forward(hops[0].id, hops[0].intercept, hops[0].source, rpc).rpc);
    }
  }

  // ----- the queue of one client

  /** A frame offered to a client, how many frames were queued then, and whether it was dropped. */
  datatype Offer = Offer(rpc: Rpc, queued: nat, dropped: bool)

  /** The frames offered, without the drops. */
  function Kept(offers: seq<Offer>): seq<Rpc> {
    if |offers| == 0 then []
    else
      var last := offers[|offers| - 1];
      Kept(offers[..|offers| - 1]) + (if last.dropped then [] else [last.rpc])
  }

  lemma KeptAppend(offers: seq<Offer>, o: Offer)
    ensures Kept(offers + [o]) == Kept(offers) + (if o.dropped then [] else [o.rpc])
  {
    assert (offers + [o])[..|offers|] == offers;
  }

  function Writing(writing: Option<Rpc>): seq<Rpc> {
    if writing.Some? then [writing.value] else []
  }

  /** `proxyClient`, with its buffered channel and its write loop. */
  class ProxyClient {
    const id: string
    var fromServer: seq<Rpc>
    var writing: Option<Rpc>         // the frame that the write loop is writing
    var stopped: bool                // a write failed, and the write loop is over
    ghost var offered: seq<Offer>
    ghost var written: seq<Rpc>

    /**
      Nothing is lost or reordered but by the drops: the frames kept are those written, the one
      being written, and those queued; the queue is bounded; and a drop happens exactly when the
      queue is full.
     */
    ghost predicate Valid()
      reads this
    {
      && |fromServer| <= CLIENT_BUFFER_SIZE
      && Kept(offered) == written + Writing(writing) + fromServer
      && (forall i :: 0 <= i < |offered| ==> (offered[i].dropped <==> offered[i].queued == CLIENT_BUFFER_SIZE))
      && (stopped ==> writing.Some?)
    }

    constructor (id: string)
      ensures Valid() && this.id == id
      ensures offered == [] && written == [] && writing.None? && fromServer == [] && !stopped
    {
      this.id, fromServer, writing, stopped := id, [], None, false;
      offered, written := [], [];
    }

    /** The `select` with a default: queued when there is room, dropped otherwise; it never waits. */
    method Send(rpc: Rpc) returns (sent: bool)
      requires Valid()
      modifies this
      ensures Valid()
      ensures sent <==> old(|fromServer|) < 16
      ensures offered == old(offered) + [Offer(rpc, old(|fromServer|), !sent)]
      ensures fromServer == if sent then old(fromServer) + [rpc] else old(fromServer)
      ensures written == old(written) && writing == old(writing) && stopped == old(stopped)
    {
      sent := |fromServer| < CLIENT_BUFFER_SIZE;
      KeptAppend(offered, Offer(rpc, |fromServer|, !sent));
      offered := offered + [Offer(rpc, |fromServer|, !sent)];
      if sent {
        fromServer := fromServer + [rpc];
      }
    }

    /** The write loop takes the frame at the head of the queue. */
    method Take()
      requires Valid() && writing.None? && |fromServer| > 0
      modifies this
      ensures Valid()
      ensures writing == Some(old(fromServer)[0]) && fromServer == old(fromServer)[1..]
      ensures written == old(written) && offered == old(offered) && stopped == old(stopped)
    {
      writing, fromServer := Some(fromServer[0]), fromServer[1..];
    }

    /** The write of the frame taken succeeds, or fails and ends the write loop. */
    method FinishWrite(ok: bool)
      requires Valid() && writing.Some? && !stopped
      modifies this
      ensures Valid()
      ensures written == if ok then old(written) + [old(writing).value] else old(written)
      ensures writing == if ok then None else old(writing)
      ensures stopped <==> !ok
      ensures fromServer == old(fromServer) && offered == old(offered)
    {
      if ok {
        written := written + [writing.value];
        writing := None;
      } else {
        stopped := true;
      }
    }
  }

  /** `Proxy`: its table of clients, each under its own id. */
  class Proxy {
    const id: string
    const intercept: Intercepter
    var clients: map<string, ProxyClient>

    ghost predicate Valid()
      reads this, clients.Values
    {
      forall k :: k in clients ==> clients[k].id == k && clients[k].Valid()
    }

    constructor (id: string, intercept: Intercepter)
      ensures Valid() && this.id == id && this.intercept == intercept && clients == map[]
    {
      this.id, this.intercept, clients := id, intercept, map[];
    }

    /** `AddClient`: a new client with an empty queue replaces whatever the id stood for. */
    method AddClient(name: string)
      requires Valid()
      modifies this
      ensures Valid()
      ensures clients.Keys == old(clients.Keys) + {name} && fresh(clients[name])
      ensures clients[name].offered == [] && clients[name].written == []
      ensures forall k :: k in old(clients) && k != name ==> clients[k] == old(clients[k])
    {
      var c := new ProxyClient(name);
      clients := clients[name := c];
    }

    /** `serveClients` on an error from a client: it is forgotten with its queue, and the others keep theirs. */
    method Disconnect(name: string)
      requires Valid()
      modifies this
      ensures Valid()
      ensures name !in clients && clients.Keys == old(clients.Keys) - {name}
      ensures forall k :: k in clients ==> clients[k] == old(clients[k]) && unchanged(clients[k])
    {
      clients := clients - {name};
    }

    /** The route fields rewritten, and the destination chosen. */
    method ChooseDestination(source: string, rpc: Rpc) returns (f: Forwarding)
      ensures f == Forward(id, intercept, source, rpc)
      ensures f.To? ==> SameContent(rpc, f.rpc) && f.rpc.header.Some?
      ensures rpc.header.Some? && rpc.header.value.source == source && intercept(rpc.header.value).None? ==> f.Dropped?
    {
      if rpc.header.None? || rpc.header.value.source != source {
        return Panics;
      }
      var intercepted := intercept(rpc.header.value);
      if intercepted.None? {
        return Dropped;
      }
      var h := intercepted.value;
      var destination := h.destination;
      h := h.(proxyRecord := h.proxyRecord + [id]);
      if h.proxyNext.Some? {
        var next := h.proxyNext.value;
        if |next| == 0 {
          return Panics;
        }
        destination := next[|next| - 1];
        h := h.(proxyNext := Some(next[..|next| - 1]));
      }
      f := To(destination, rpc.(header := Some(h)));
    }

    /** The client with this id, connected first if it is not known. */
    method ClientFor(destination: string) returns (c: ProxyClient)
      requires Valid()
      modifies this
      ensures Valid()
      ensures clients == old(clients)[destination := c]
      ensures if destination in old(clients) then c == old(clients[destination])
              else fresh(c) && c.offered == [] && c.written == [] && c.fromServer == []
    {
      if destination !in clients {
        c := new ProxyClient(destination);
        clients := clients[destination := c];
      } else {
        c := clients[destination];
      }
    }

    /** The clients have different ids, so that what changes one leaves the others alone. */
    lemma OneChanges(name: string)
      requires Valid() && name in clients
      ensures forall k :: k in clients && k != name ==> clients[k] != clients[name]
    {
    }

    /**
      `forwardRpc`: the frame that the route calls for is offered to the one client it calls for,
      which is connected first if it is not known; no other client is touched or waited for.
     */
    method ForwardRpc(source: string, rpc: Rpc) returns (f: Forwarding)
      requires Valid()
      modifies this, clients.Values
      ensures Valid()
      ensures f == Forward(id, intercept, source, rpc)
      ensures f.To? ==> SameContent(rpc, f.rpc)
      ensures rpc.header.Some? && rpc.header.value.source == source && intercept(rpc.header.value).None? ==> f.Dropped?
      ensures forall k :: k in old(clients) && !(f.To? && f.destination == k) ==>
                            k in clients && clients[k] == old(clients[k]) && unchanged(clients[k])
      ensures clients.Keys == old(clients.Keys) + (if f.To? then {f.destination} else {})
      ensures f.To? && f.destination in old(clients) ==>
                var c := clients[f.destination];
                && c == old(clients[f.destination])
                && c.offered == old(clients[f.destination].offered)
                                + [Offer(f.rpc, old(|clients[f.destination].fromServer|),
                                         old(|clients[f.destination].fromServer|) == CLIENT_BUFFER_SIZE)]
                && c.written == old(clients[f.destination].written)
      ensures f.To? && f.destination !in old(clients) ==>
                var c := clients[f.destination];
                fresh(c) && c.offered == [Offer(f.rpc, 0, false)] && c.written == []
    {
      hide Forward, Kept, SameContent;
      f := ChooseDestination(source, rpc);
      if f.To? {
        SendTo(f.destination, f.rpc);
      }
    }

    /** The second half: the destination is connected when it is not, and the frame offered to it. */
    method SendTo(destination: string, rpc: Rpc)
      requires Valid()
      modifies this, clients.Values
      ensures Valid()
      ensures clients.Keys == old(clients.Keys) + {destination}
      ensures forall k :: k in old(clients) && k != destination ==>
                            clients[k] == old(clients[k]) && unchanged(clients[k])
      ensures destination in old(clients) ==>
                var c := clients[destination];
                && c == old(clients[destination])
                && c.offered == old(clients[destination].offered)
                                + [Offer(rpc, old(|clients[destination].fromServer|),
                                         old(|clients[destination].fromServer|) == CLIENT_BUFFER_SIZE)]
                && c.written == old(clients[destination].written)
      ensures destination !in old(clients) ==>
                var c := clients[destination];
                fresh(c) && c.offered == [Offer(rpc, 0, false)] && c.written == []
    {
      hide Forward, Kept, SameContent;
      var c := ClientFor(destination);
      OneChanges(destination);
      var sent := c.Send(rpc);
    }
  }
}
