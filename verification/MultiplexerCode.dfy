/**
  `RpcMultiplexer` (internal/client/multiplexer.go) in its own form: the methods that change its
  fields under the mutex, each against the step of the machine that it performs.
 */
module MultiplexerCode {
  import opened Frames
  import opened Multiplexers

  class RpcMultiplexer {
    var handlers: map<nat, nat>
    var streamCounter: nat                // 64 bits
    var rErr: Option<Error>
    var chans: map<nat, Chan>             // the channels made so far
    var delivering: Option<Delivery>      // a delivery in progress holds the mutex
    var panicked: bool
    ghost var owner: map<nat, nat>
    ghost var inLog: seq<Rpc>
    ghost var registered: map<nat, nat>

    ghost function State(): Multiplexer
      reads this
    {
      Multiplexer(streamCounter, handlers, chans, rErr, delivering, panicked, owner, inLog, registered)
    }

    ghost predicate Valid()
      reads this
    {
      Inv(State()) && FeedInv(State())
    }

    /** The channels of the table exist, are open, and are different for different ids. */
    lemma TableFacts()
      requires Valid()
      ensures !panicked
      ensures forall id :: id in handlers ==> handlers[id] in chans && !chans[handlers[id]].closed
      ensures forall a, b :: a in handlers && b in handlers && handlers[a] == handlers[b] ==> a == b
    {
      assert forall id :: id in handlers ==> id in owner && handlers[id] == owner[id];
    }

    constructor ()
      ensures State() == Fresh && Valid()
    {
      handlers, streamCounter, rErr, chans, delivering, panicked := map[], 0, None, map[], None, false;
      owner, inLog, registered := map[], [], map[];
      new;
      FreshInv();
    }

    /** An id off the atomic 64-bit counter, which wraps, for a channel just made. */
    method NewId(chan: nat) returns (id: nat)
      requires Valid() && chan !in chans && streamCounter < TWO_TO_THE_64
      modifies this
      ensures id == (old(streamCounter) + 1) % TWO_TO_THE_64 && streamCounter == id
      ensures chans == old(chans)[chan := Chan([], 0, false)] && owner == old(owner)[id := chan]
      ensures handlers == old(handlers)
      ensures old(streamCounter) + 1 < TWO_TO_THE_64 ==>
                && id !in old(owner) && State() == Next(old(State()), Allocate(chan)) && Valid()
    {
      hide Inv, FeedInv;
      NotYetOwned();
      if streamCounter + 1 < TWO_TO_THE_64 {
        StepKeepsFeed(State(), Allocate(chan));
      }
      id := (streamCounter + 1) % TWO_TO_THE_64;
      streamCounter := id;
      chans := chans[chan := Chan([], 0, false)];
      owner := owner[id := chan];
    }

    /** Ids are handed out in order. */
    lemma NotYetOwned()
      requires Valid()
      ensures !panicked && streamCounter + 1 !in owner && forall id :: id in owner ==> id <= streamCounter
    {
    }

    method RegisterHandler(id: nat, c: nat)
      requires Valid() && Enabled(State(), Register(id)) && owner[id] == c
      modifies this
      ensures State() == Next(old(State()), Register(id)) && Valid()
    {
      hide Inv, FeedInv;
      StepKeepsFeed(State(), Register(id));
      handlers := handlers[id := c];
      registered := registered[id := |inLog|];
    }

    /** The built-in `close`: closing a closed channel panics. */
    method CloseChan(c: nat)
      requires c in chans
      modifies this`chans, this`panicked
      ensures chans == old(chans)[c := old(chans)[c].(closed := true)]
      ensures panicked == (old(panicked) || old(chans)[c].closed)
    {
      panicked := panicked || chans[c].closed;
      chans := chans[c := chans[c].(closed := true)];
    }

    method UnregisterHandler(id: nat)
      requires Valid() && Enabled(State(), Unregister(id))
      modifies this
      ensures State() == Next(old(State()), Unregister(id)) && Valid()
    {
      hide Inv, FeedInv;
      StepKeepsFeed(State(), Unregister(id));
      TableFacts();
      if id in handlers {
        CloseChan(handlers[id]);
      }
      handlers := handlers - {id};
    }

    /** `handleResponse`, up to the channel send. */
    method HandleResponse(rpc: Rpc)
      requires Valid() && Enabled(State(), Deliver(rpc))
      modifies this
      ensures State() == Next(old(State()), Deliver(rpc)) && Valid()
    {
      hide Inv, FeedInv;
      StepKeepsFeed(State(), Deliver(rpc));
      inLog := inLog + [rpc];
      if rpc.id in handlers {
        delivering := Some(Delivery(handlers[rpc.id], rpc));
      } else {
        delivering := None;
      }
    }

    static lemma Unpanicked(m: Multiplexer)
      requires Inv(m)
      ensures !m.panicked
    {
    }

    /** The channel send of `handleResponse`, once there is room; a send on a closed channel panics. */
    method SendResponse()
      requires Enabled(State(), Push)
      modifies this
      ensures State() == Next(old(State()), Push)
      ensures old(Valid()) ==> Valid() && !panicked
    {
      hide Inv, FeedInv;
      if Valid() {
        StepKeepsFeed(State(), Push);
        Unpanicked(Next(State(), Push));
      }
      var d := delivering.value;
      var ch := chans[d.chan];
      if ch.closed {
        panicked := true;
      } else {
        chans, delivering := chans[d.chan := ch.(sent := ch.sent + [d.rpc])], None;
      }
    }

    /** The loop of `closeError` over the table; the table is emptied as it goes. */
    method CloseError(err: Option<Error>)
      requires Valid() && Enabled(State(), Multiplexers.CloseError(err))
      modifies this
      ensures State() == Next(old(State()), Multiplexers.CloseError(err)) && Valid()
    {
      hide Inv, FeedInv, HalfClosed, CloseAll;
      StepKeepsFeed(State(), Multiplexers.CloseError(err));
      TableFacts();
      if err.Some? {
        rErr := err;
        ghost var m := old(State());
        NoneClosed(m);
        while handlers != map[]
          invariant HalfClosed(m, handlers, chans)
          invariant State() == m.(rErr := err, handlers := handlers, chans := chans)
          decreases handlers.Keys
        {
          var id :| id in handlers;
          CloseOne(m, handlers, chans, id);
          CloseChan(handlers[id]);
          handlers := handlers - {id};
        }
        AllClosed(m, chans);
      }
    }

    /** `c` is the channel of an entry that is gone from the table. */
    static ghost predicate ClosedBy(table: map<nat, nat>, left: map<nat, nat>, c: nat) {
      exists id :: id in table && id !in left && table[id] == c
    }

    /** The loop of `closeError` has closed exactly the channels of the entries that are gone. */
    static ghost predicate HalfClosed(m: Multiplexer, left: map<nat, nat>, now: map<nat, Chan>) {
      && !m.panicked
      && (forall k :: k in m.handlers ==> m.handlers[k] in m.chans && !m.chans[m.handlers[k]].closed)
      && (forall a, b :: a in m.handlers && b in m.handlers && m.handlers[a] == m.handlers[b] ==> a == b)
      && left.Keys <= m.handlers.Keys && (forall k :: k in left ==> left[k] == m.handlers[k])
      && now.Keys == m.chans.Keys
      && (forall c :: c in now ==>
                        now[c] == if ClosedBy(m.handlers, left, c) then m.chans[c].(closed := true) else m.chans[c])
    }

    static lemma NoneClosed(m: Multiplexer)
      requires !m.panicked
      requires forall k :: k in m.handlers ==> m.handlers[k] in m.chans && !m.chans[m.handlers[k]].closed
      requires forall a, b :: a in m.handlers && b in m.handlers && m.handlers[a] == m.handlers[b] ==> a == b
      ensures HalfClosed(m, m.handlers, m.chans)
    {
    }

    /** Closing the channel of one more entry. */
    static lemma CloseOne(m: Multiplexer, left: map<nat, nat>, now: map<nat, Chan>, id: nat)
      requires HalfClosed(m, left, now) && id in left
      ensures left[id] in now && !now[left[id]].closed
      ensures HalfClosed(m, left - {id}, now[left[id] := now[left[id]].(closed := true)])
    {
      assert !ClosedBy(m.handlers, left, left[id]);
      assert ClosedBy(m.handlers, left - {id}, left[id]);
      assert forall c :: c in now && c != left[id] ==> (ClosedBy(m.handlers, left - {id}, c) <==> ClosedBy(m.handlers, left, c));
    }

    static lemma AllClosed(m: Multiplexer, now: map<nat, Chan>)
      requires HalfClosed(m, map[], now)
      ensures CloseAll(m) == m.(handlers := map[], chans := now)
    {
      assert CloseAll(m).chans == now;
    }
  }
}
