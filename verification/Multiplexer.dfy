/**
  The client multiplexer (internal/client/multiplexer.go): allocation of ids, the table of
  response channels, delivery and close-down. Steps are the sections that run under the mutex;
  delivery takes two, because the mutex is held across a channel send that may block.
 */
module Multiplexers {
  import opened Frames
  import opened Logs

  /** A channel of capacity 1: everything ever sent, how much was received, and whether it is closed. */
  datatype Chan = Chan(sent: seq<Rpc>, taken: nat, closed: bool)

  predicate HasRoom(ch: Chan) {
    |ch.sent| <= ch.taken
  }

  predicate HasItem(ch: Chan) {
    ch.taken < |ch.sent|
  }

  /** A delivery that holds the mutex and waits for room in its channel. */
  datatype Delivery = Delivery(chan: nat, rpc: Rpc)

  datatype Multiplexer = Multiplexer(
    streamCounter: nat,
    handlers: map<nat, nat>,         // id -> channel
    chans: map<nat, Chan>,           // channel -> its state
    rErr: Option<Error>,
    delivering: Option<Delivery>,
    panicked: bool,
    // histories
    owner: map<nat, nat>,            // id -> the channel its caller made
    inLog: seq<Rpc>,                 // frames read from the transport
    registered: map<nat, nat>)       // id -> how many frames had been read when it was registered

  datatype Step =
    | Allocate(chan: nat)
    | Register(id: nat)
    | Unregister(id: nat)
    | Deliver(rpc: Rpc)
    | Push
    | CloseError(err: Option<Error>)
    | Take(id: nat)

  const Fresh := Multiplexer(0, map[], map[], None, None, false, map[], [], map[])

  predicate MutexFree(m: Multiplexer) {
    m.delivering.None?
  }

  predicate Enabled(m: Multiplexer, step: Step) {
    !m.panicked &&
    match step
    case Allocate(chan) => chan !in m.chans && m.streamCounter + 1 < TWO_TO_THE_64
    case Register(id) => MutexFree(m) && id in m.owner && id !in m.registered
    case Unregister(id) => MutexFree(m) && id in m.registered
    case Deliver(_) => MutexFree(m)
    case Push =>
      && m.delivering.Some? && m.delivering.value.chan in m.chans
      && (HasRoom(m.chans[m.delivering.value.chan]) || m.chans[m.delivering.value.chan].closed)
    case CloseError(_) => MutexFree(m)
    case Take(id) => id in m.owner && m.owner[id] in m.chans && HasItem(m.chans[m.owner[id]])
  }

  /** The table with the channel of `id` closed and its entry gone. */
  function Close(m: Multiplexer, id: nat): Multiplexer
    requires id in m.handlers && m.handlers[id] in m.chans
  {
    var c := m.handlers[id];
    m.(handlers := m.handlers - {id}, chans := m.chans[c := m.chans[c].(closed := true)],
       panicked := m.panicked || m.chans[c].closed)
  }

  /** Every channel of the table closed, and the table empty. */
  function CloseAll(m: Multiplexer): Multiplexer {
    var closing := set id | id in m.handlers :: m.handlers[id];
    m.(handlers := map[],
       chans := map c | c in m.chans :: if c in closing then m.chans[c].(closed := true) else m.chans[c],
       panicked := m.panicked || exists id :: id in m.handlers && m.handlers[id] in m.chans && m.chans[m.handlers[id]].closed)
  }

  function Next(m: Multiplexer, step: Step): Multiplexer
    requires Enabled(m, step)
  {
    match step
    case Allocate(chan) =>
      var id := m.streamCounter + 1;
      m.(streamCounter := id, chans := m.chans[chan := Chan([], 0, false)], owner := m.owner[id := chan])
    case Register(id) =>
      m.(handlers := m.handlers[id := m.owner[id]], registered := m.registered[id := |m.inLog|])
    case Unregister(id) =>
      if id in m.handlers && m.handlers[id] in m.chans then Close(m, id) else m
    case Deliver(rpc) =>
      m.(inLog := m.inLog + [rpc],
         delivering := if rpc.id in m.handlers then Some(Delivery(m.handlers[rpc.id], rpc)) else None)
    case Push =>
      var d := m.delivering.value;
      if m.chans[d.chan].closed then m.(panicked := true)
      else
        m.(delivering := None, chans := m.chans[d.chan := m.chans[d.chan].(sent := m.chans[d.chan].sent + [d.rpc])])
    case CloseError(err) =>
      if err.None? then m else CloseAll(m).(rErr := err)
    case Take(id) =>
      var c := m.owner[id];
      m.(chans := m.chans[c := m.chans[c].(taken := m.chans[c].taken + 1)])
  }

  /** The channel that the caller of `id` made. */
  function ChanOf(m: Multiplexer, id: nat): Chan
    requires Owned(m) && id in m.owner
  {
    m.chans[m.owner[id]]
  }

  predicate Owned(m: Multiplexer) {
    forall id :: id in m.owner ==> m.owner[id] in m.chans
  }

  /** Ids are allocated in order, and no channel has two owners. */
  ghost predicate OwnersInv(m: Multiplexer)
    requires Owned(m)
  {
    && (forall id :: id in m.owner <==> 1 <= id <= m.streamCounter)
    && (forall a, b :: a in m.owner && b in m.owner && m.owner[a] == m.owner[b] ==> a == b)
    && (forall id :: id in m.owner ==> ChanOk(m.chans[m.owner[id]]))
  }

  /** An id is in the table, with its caller's own channel, exactly when it was registered and its channel is still open. */
  predicate TableInv(m: Multiplexer)
    requires Owned(m)
  {
    && (forall id :: id in m.registered ==> id in m.owner)
    && (forall id :: id in m.owner && id !in m.registered ==> m.chans[m.owner[id]] == Chan([], 0, false))
    && (forall id :: id in m.handlers ==> id in m.registered && m.handlers[id] == m.owner[id])
    && (forall id :: id in m.registered ==> (id in m.handlers <==> !m.chans[m.owner[id]].closed))
  }

  /** Channel discipline. */
  ghost predicate Inv(m: Multiplexer) {
    && !m.panicked
    && Owned(m) && OwnersInv(m) && TableInv(m)
    && (m.delivering.Some? ==> InTable(m, m.delivering.value))
  }

  /** The frame of `id` that is being delivered, if any. */
  function Delivering(m: Multiplexer, id: nat): seq<Rpc> {
    if m.delivering.Some? && m.delivering.value.rpc.id == id then [m.delivering.value.rpc] else []
  }

  /** The frames of `id` read since it was registered. */
  function ReadSince(inLog: seq<Rpc>, from: nat, id: nat): seq<Rpc>
    requires from <= |inLog|
  {
    On(id, inLog[from..])
  }

  /**
    What a response channel was sent, against what was read for its id since it was registered: all
    of it, but for the frame being delivered, while it is in the table; a prefix of it afterwards.
   */
  predicate Fed(m: Multiplexer, id: nat)
    requires Owned(m) && id in m.registered && id in m.owner
  {
    && m.registered[id] <= |m.inLog|
    && FedWith(ChanOf(m, id).sent, id in m.handlers, Delivering(m, id), ReadSince(m.inLog, m.registered[id], id))
  }

  predicate FedWith(sent: seq<Rpc>, inTable: bool, delivering: seq<Rpc>, all: seq<Rpc>) {
    if inTable then sent + delivering == all else sent <= all
  }

  predicate FeedInv(m: Multiplexer)
    requires Owned(m)
  {
    forall id :: id in m.registered ==> id in m.owner && Fed(m, id)
  }

  predicate ChanOk(ch: Chan) {
    ch.taken <= |ch.sent| <= ch.taken + 1
  }

  /** The frame being delivered goes to the open channel that the table has for its id. */
  predicate InTable(m: Multiplexer, d: Delivery) {
    d.rpc.id in m.handlers && m.handlers[d.rpc.id] == d.chan
  }

  lemma FreshInv()
    ensures Inv(Fresh)
  {
  }

  lemma AllocateKeepsOwners(m: Multiplexer, chan: nat)
    requires Owned(m) && OwnersInv(m) && Enabled(m, Allocate(chan))
    ensures Owned(Next(m, Allocate(chan))) && OwnersInv(Next(m, Allocate(chan)))
  {
    hide CloseAll, Close;
  }

  lemma AllocateKeepsTable(m: Multiplexer, chan: nat)
    requires Owned(m) && OwnersInv(m) && TableInv(m) && Enabled(m, Allocate(chan))
    ensures Owned(Next(m, Allocate(chan))) && TableInv(Next(m, Allocate(chan)))
  {
    hide CloseAll, Close, ChanOk;
    assert m.streamCounter + 1 !in m.owner;
  }

  lemma AllocateKeepsInv(m: Multiplexer, step: Step)
    requires Inv(m) && Enabled(m, step) && step.Allocate?
    ensures Inv(Next(m, step))
  {
    hide CloseAll, Close, OwnersInv, TableInv;
    AllocateKeepsOwners(m, step.chan);
    AllocateKeepsTable(m, step.chan);
  }

  lemma RegisterKeepsInv(m: Multiplexer, step: Step)
    requires Inv(m) && Enabled(m, step) && step.Register?
    ensures Inv(Next(m, step))
    ensures step.id !in m.handlers
  {
    hide CloseAll, Close;
  }

  lemma UnregisterKeepsInv(m: Multiplexer, step: Step)
    requires Inv(m) && Enabled(m, step) && step.Unregister?
    ensures Inv(Next(m, step))
  {
    hide CloseAll;
  }

  lemma DeliverKeepsInv(m: Multiplexer, step: Step)
    requires Inv(m) && Enabled(m, step) && step.Deliver?
    ensures Inv(Next(m, step))
  {
    hide CloseAll, Close;
  }

  lemma PushKeepsInv(m: Multiplexer, step: Step)
    requires Inv(m) && Enabled(m, step) && step.Push?
    ensures Inv(Next(m, step))
  {
    hide CloseAll, Close;
  }

  lemma CloseErrorKeepsInv(m: Multiplexer, step: Step)
    requires Inv(m) && Enabled(m, step) && step.CloseError?
    ensures Inv(Next(m, step))
  {
    hide Close;
  }

  lemma TakeKeepsInv(m: Multiplexer, step: Step)
    requires Inv(m) && Enabled(m, step) && step.Take?
    ensures Inv(Next(m, step))
  {
    hide CloseAll, Close;
  }

  lemma StepKeepsInv(m: Multiplexer, step: Step)
    requires Inv(m) && Enabled(m, step)
    ensures Inv(Next(m, step))
  {
    hide Inv, Enabled, Next;
    match step
    case Allocate(_) => AllocateKeepsInv(m, step);
    case Register(_) => RegisterKeepsInv(m, step);
    case Unregister(_) => UnregisterKeepsInv(m, step);
    case Deliver(_) => DeliverKeepsInv(m, step);
    case Push => PushKeepsInv(m, step);
    case CloseError(_) => CloseErrorKeepsInv(m, step);
    case Take(_) => TakeKeepsInv(m, step);
  }

  lemma ReadOne(m: Multiplexer, rpc: Rpc, id: nat)
    requires id in m.registered && m.registered[id] <= |m.inLog|
    ensures ReadSince(m.inLog + [rpc], m.registered[id], id) ==
            ReadSince(m.inLog, m.registered[id], id) + (if rpc.id == id then [rpc] else [])
  {
    assert (m.inLog + [rpc])[m.registered[id]..] == m.inLog[m.registered[id]..] + [rpc];
    OnAppend(id, m.inLog[m.registered[id]..], rpc);
  }

  lemma RegisterKeepsFeed(m: Multiplexer, step: Step)
    requires Inv(m) && FeedInv(m) && Enabled(m, step) && step.Register?
    requires Inv(Next(m, step))
    ensures FeedInv(Next(m, step))
  {
    assert m.inLog[|m.inLog|..] == [];
  }

  lemma DeliverKeepsFed(m: Multiplexer, rpc: Rpc, id: nat)
    requires Owned(m) && id in m.registered && id in m.owner && Fed(m, id) && Enabled(m, Deliver(rpc))
    ensures Fed(Next(m, Deliver(rpc)), id)
  {
    hide CloseAll, Close, On;
    ReadOne(m, rpc, id);
    assert ChanOf(m, id).sent + [] == ChanOf(m, id).sent;
  }

  lemma DeliverKeepsFeed(m: Multiplexer, step: Step)
    requires Inv(m) && FeedInv(m) && Enabled(m, step) && step.Deliver?
    requires Inv(Next(m, step))
    ensures FeedInv(Next(m, step))
  {
    hide CloseAll, Close, OwnersInv, Fed;
    forall id | id in m.registered
      ensures Fed(Next(m, step), id)
    {
      DeliverKeepsFed(m, step.rpc, id);
    }
  }

  lemma PushKeepsFed(m: Multiplexer, m': Multiplexer, id: nat)
    requires Inv(m) && Enabled(m, Push) && m' == Next(m, Push) && Inv(m')
    requires id in m.registered && Fed(m, id)
    ensures Fed(m', id)
  {
    hide CloseAll, Close;
    assert ChanOf(m, id).sent + [] == ChanOf(m, id).sent;
  }

  lemma PushKeepsFeed(m: Multiplexer, step: Step)
    requires Inv(m) && FeedInv(m) && Enabled(m, step) && step.Push?
    requires Inv(Next(m, step))
    ensures FeedInv(Next(m, step))
  {
    forall id | id in m.registered
      ensures Fed(Next(m, step), id)
    {
      PushKeepsFed(m, Next(m, step), id);
    }
  }

  /** A step that leaves the reader's state alone and closes channels at most. */
  lemma QuietKeepsFed(m: Multiplexer, m': Multiplexer, id: nat)
    requires Inv(m) && Inv(m') && id in m.registered && Fed(m, id)
    requires m'.inLog == m.inLog && m'.registered == m.registered && m'.delivering == m.delivering
    requires id in m'.owner && ChanOf(m', id).sent == ChanOf(m, id).sent
    requires id in m'.handlers ==> id in m.handlers
    ensures Fed(m', id)
  {
  }

  lemma AllocateKeepsFeed(m: Multiplexer, step: Step)
    requires Inv(m) && FeedInv(m) && Enabled(m, step) && step.Allocate?
    requires Inv(Next(m, step))
    ensures FeedInv(Next(m, step))
  {
    forall id | id in m.registered
      ensures Fed(Next(m, step), id)
    {
      QuietKeepsFed(m, Next(m, step), id);
    }
  }

  lemma UnregisterKeepsFeed(m: Multiplexer, step: Step)
    requires Inv(m) && FeedInv(m) && Enabled(m, step) && step.Unregister?
    requires Inv(Next(m, step))
    ensures FeedInv(Next(m, step))
  {
    hide CloseAll, Fed;
    forall id | id in m.registered
      ensures Fed(Next(m, step), id)
    {
      QuietKeepsFed(m, Next(m, step), id);
    }
  }

  lemma TakeKeepsFeed(m: Multiplexer, step: Step)
    requires Inv(m) && FeedInv(m) && Enabled(m, step) && step.Take?
    requires Inv(Next(m, step))
    ensures FeedInv(Next(m, step))
  {
    hide CloseAll, Close, Fed;
    forall id | id in m.registered
      ensures Fed(Next(m, step), id)
    {
      QuietKeepsFed(m, Next(m, step), id);
    }
  }

  lemma CloseErrorKeepsFed(m: Multiplexer, m': Multiplexer, err: Option<Error>, id: nat)
    requires Inv(m) && Enabled(m, CloseError(err)) && m' == Next(m, CloseError(err)) && Inv(m')
    requires id in m.registered && Fed(m, id)
    ensures Fed(m', id)
  {
    assert m'.owner == m.owner && m'.chans.Keys == m.chans.Keys;
    assert m'.chans[m.owner[id]].sent == m.chans[m.owner[id]].sent;
    QuietKeepsFed(m, m', id);
  }

  lemma CloseErrorKeepsFeed(m: Multiplexer, step: Step)
    requires Inv(m) && FeedInv(m) && Enabled(m, step) && step.CloseError?
    requires Inv(Next(m, step))
    ensures FeedInv(Next(m, step))
  {
    var m' := Next(m, step);
    forall id | id in m.registered
      ensures Fed(m', id)
    {
      CloseErrorKeepsFed(m, m', step.err, id);
    }
  }

  lemma StepKeepsFeed(m: Multiplexer, step: Step)
    requires Inv(m) && FeedInv(m) && Enabled(m, step)
    ensures Inv(Next(m, step)) && FeedInv(Next(m, step))
  {
    StepKeepsInv(m, step);
    hide Inv, Enabled, Next, FeedInv;
    match step
    case Allocate(_) => AllocateKeepsFeed(m, step);
    case Register(_) => RegisterKeepsFeed(m, step);
    case Unregister(_) => UnregisterKeepsFeed(m, step);
    case Deliver(_) => DeliverKeepsFeed(m, step);
    case Push => PushKeepsFeed(m, step);
    case CloseError(_) => CloseErrorKeepsFeed(m, step);
    case Take(_) => TakeKeepsFeed(m, step);
  }

  // ----- what a step does to the channels

  /** `b` is `a` with at most more sent and perhaps closed. */
  predicate ChanGrows(a: Chan, b: Chan) {
    a.sent <= b.sent && b.taken == a.taken && b.taken <= |b.sent|
  }

  /** The id that a step is about, as far as its caller's own channel or registration goes. */
  function Target(m: Multiplexer, step: Step): nat {
    match step
    case Allocate(_) => m.streamCounter + 1
    case Register(id) => id
    case Take(id) => id
    case _ => 0
  }

  /** The channels and registrations of all ids but `id` are as before, but for growth. */
  predicate OthersGrow(m: Multiplexer, m': Multiplexer, id: nat)
    requires Owned(m) && Owned(m')
  {
    forall k :: k in m.owner && k != id ==>
                  && k in m'.owner && ChanGrows(ChanOf(m, k), ChanOf(m', k))
                  && (k in m.registered <==> k in m'.registered)
  }

  /** What the invariant says about the callers' channels. */
  lemma OwnerFacts(m: Multiplexer)
    requires Inv(m)
    ensures Owned(m) && !m.panicked
    ensures forall id :: id in m.owner ==> id <= m.streamCounter && ChanOk(ChanOf(m, id))
    ensures forall a, b :: a in m.owner && b in m.owner && m.owner[a] == m.owner[b] ==> a == b
  {
  }

  lemma CallerStepOnOthers(m: Multiplexer, step: Step)
    requires step.Allocate? || step.Register? || step.Take?
    requires Inv(m) && Enabled(m, step)
    requires Inv(Next(m, step))
    ensures OthersGrow(m, Next(m, step), Target(m, step))
    ensures Next(m, step).owner.Keys == m.owner.Keys + (if step.Allocate? then {m.streamCounter + 1} else {})
  {
    hide Inv, CloseAll, Close;
    OwnerFacts(m);
    OwnerFacts(Next(m, step));
  }

  lemma ReaderStepOnOthers(m: Multiplexer, step: Step)
    requires step.Deliver? || step.Push?
    requires Inv(m) && Enabled(m, step)
    requires Inv(Next(m, step))
    ensures OthersGrow(m, Next(m, step), Target(m, step))
    ensures Next(m, step).owner.Keys == m.owner.Keys + (if step.Allocate? then {m.streamCounter + 1} else {})
  {
    hide Inv, CloseAll, Close;
    OwnerFacts(m);
    OwnerFacts(Next(m, step));
  }

  lemma UnregisterOnOthers(m: Multiplexer, step: Step)
    requires step.Unregister?
    requires Inv(m) && Enabled(m, step)
    requires Inv(Next(m, step))
    ensures OthersGrow(m, Next(m, step), Target(m, step))
    ensures Next(m, step).owner.Keys == m.owner.Keys + (if step.Allocate? then {m.streamCounter + 1} else {})
  {
    hide Inv, CloseAll;
    OwnerFacts(m);
    OwnerFacts(Next(m, step));
  }

  lemma CloseErrorOnOthers(m: Multiplexer, step: Step)
    requires step.CloseError?
    requires Inv(m) && Enabled(m, step)
    requires Inv(Next(m, step))
    ensures OthersGrow(m, Next(m, step), Target(m, step))
    ensures Next(m, step).owner.Keys == m.owner.Keys + (if step.Allocate? then {m.streamCounter + 1} else {})
  {
    hide Inv, Close;
    OwnerFacts(m);
    OwnerFacts(Next(m, step));
  }

  lemma StepOnOthers(m: Multiplexer, step: Step)
    requires Inv(m) && Enabled(m, step)
    requires Inv(Next(m, step))
    ensures OthersGrow(m, Next(m, step), Target(m, step))
    ensures Next(m, step).owner.Keys == m.owner.Keys + (if step.Allocate? then {m.streamCounter + 1} else {})
  {
    hide Inv, Enabled, Next, OthersGrow;
    match step
    case Unregister(_) => UnregisterOnOthers(m, step);
    case CloseError(_) => CloseErrorOnOthers(m, step);
    case Deliver(_) => ReaderStepOnOthers(m, step);
    case Push => ReaderStepOnOthers(m, step);
    case _ => CallerStepOnOthers(m, step);
  }

  lemma AllocateEffect(m: Multiplexer, chan: nat)
    requires Inv(m) && Enabled(m, Allocate(chan))
    requires Inv(Next(m, Allocate(chan)))
    ensures var id, m' := m.streamCounter + 1, Next(m, Allocate(chan));
            && id !in m.owner && id !in m.registered && id in m'.owner && id !in m'.registered
            && ChanOf(m', id) == Chan([], 0, false)
  {
    hide CloseAll, Close;
  }

  lemma RegisterEffect(m: Multiplexer, id: nat)
    requires Inv(m) && Enabled(m, Register(id))
    requires Inv(Next(m, Register(id)))
    ensures var m' := Next(m, Register(id));
            && id in m'.owner && id !in m.registered && id in m'.registered
            && ChanOf(m', id) == ChanOf(m, id)
  {
  }

  lemma TakeEffect(m: Multiplexer, id: nat)
    requires Inv(m) && Enabled(m, Take(id))
    requires Inv(Next(m, Take(id)))
    ensures var m' := Next(m, Take(id));
            && id in m'.owner && m'.registered == m.registered
            && HasItem(ChanOf(m, id))
            && ChanOf(m', id) == ChanOf(m, id).(taken := ChanOf(m, id).taken + 1)
  {
  }

  /** A run of the multiplexer, under any interleaving of its callers and its reader. */
  ghost predicate IsRun(states: seq<Multiplexer>, steps: seq<Step>) {
    && |states| == |steps| + 1
    && states[0] == Fresh
    && forall i :: 0 <= i < |steps| ==> Enabled(states[i], steps[i]) && states[i + 1] == Next(states[i], steps[i])
  }

  /**
    In every run of fewer than 2^64 calls: no send hits a closed channel and none is closed twice
    (either would panic); an id is in the table exactly when it was registered and its channel is
    open; the entry is the caller's own channel; no registration overwrites an entry; and a channel
    in the table was sent exactly the frames read for its id since it was registered, in order, but
    for the one being delivered.
   */
  lemma {:induction false} ChannelDiscipline(states: seq<Multiplexer>, steps: seq<Step>, i: nat)
    requires IsRun(states, steps) && i < |states|
    ensures Inv(states[i]) && FeedInv(states[i])
    ensures i < |steps| && steps[i].Register? ==> steps[i].id !in states[i].handlers
  {
    if i > 0 {
      ChannelDiscipline(states, steps, i - 1);
      StepKeepsFeed(states[i - 1], steps[i - 1]);
    }
    if i < |steps| && steps[i].Register? {
      RegisterKeepsInv(states[i], steps[i]);
    }
  }

  /** `Close`, which is `closeError` without an error, leaves the table and its channels alone. */
  lemma CloseWithoutErrorKeeps(m: Multiplexer)
    requires Enabled(m, CloseError(None))
    ensures Next(m, CloseError(None)) == m
  {
  }

  /** After `closeError` with an error has run, every channel registered so far is closed. */
  lemma CloseErrorClosesAll(m: Multiplexer, err: Error)
    requires Inv(m) && Enabled(m, CloseError(Some(err)))
    ensures var m' := Next(m, CloseError(Some(err)));
            && m'.handlers == map[] && m'.rErr == Some(err)
            && forall id :: id in m.registered ==> id in m'.owner && m'.owner[id] in m'.chans && m'.chans[m'.owner[id]].closed
  {
    CloseErrorKeepsInv(m, CloseError(Some(err)));
  }
}
