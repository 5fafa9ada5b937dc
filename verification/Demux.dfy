/**
  The demultiplexer (demux.go): one connection per key, without `Cancel`.
 */
module Demuxes {
  import opened Frames

  /** Which connection a frame belongs to. */
  type DemuxOn = Rpc -> string

  /** The frames of `log` with this key, in order. */
  function WithKey(demuxOn: DemuxOn, key: string, log: seq<Rpc>): seq<Rpc> {
    if |log| == 0 then []
    else
      var last := log[|log| - 1];
      WithKey(demuxOn, key, log[..|log| - 1]) + (if demuxOn(last) == key then [last] else [])
  }

  /** The keys of `log`, each at its first appearance. */
  function FirstAppearances(demuxOn: DemuxOn, log: seq<Rpc>): seq<string> {
    if |log| == 0 then []
    else
      var before, key := FirstAppearances(demuxOn, log[..|log| - 1]), demuxOn(log[|log| - 1]);
      if key in before then before else before + [key]
  }

  lemma WithKeyAppend(demuxOn: DemuxOn, key: string, log: seq<Rpc>, rpc: Rpc)
    ensures WithKey(demuxOn, key, log + [rpc]) == WithKey(demuxOn, key, log) + (if demuxOn(rpc) == key then [rpc] else [])
  {
    assert (log + [rpc])[..|log|] == log;
  }

  lemma FirstAppearancesAppend(demuxOn: DemuxOn, log: seq<Rpc>, rpc: Rpc)
    ensures var before := FirstAppearances(demuxOn, log);
            FirstAppearances(demuxOn, log + [rpc]) ==
            if demuxOn(rpc) in before then before else before + [demuxOn(rpc)]
  {
    assert (log + [rpc])[..|log|] == log;
  }

  /** A key is first seen at position `p`. */
  predicate FirstAt(demuxOn: DemuxOn, log: seq<Rpc>, key: string, p: nat) {
    p < |log| && demuxOn(log[p]) == key && forall q :: 0 <= q < p ==> demuxOn(log[q]) != key
  }

  /** `FirstAppearances` lists exactly the keys of the log, without repetition. */
  lemma {:induction false} FirstAppearancesListsKeys(demuxOn: DemuxOn, log: seq<Rpc>)
    ensures var keys := FirstAppearances(demuxOn, log);
            && (forall i, j :: 0 <= i < j < |keys| ==> keys[i] != keys[j])
            && (forall p :: 0 <= p < |log| ==> demuxOn(log[p]) in keys)
            && (forall k :: k in keys ==> exists p :: 0 <= p < |log| && demuxOn(log[p]) == k)
  {
    if |log| > 0 {
      var init, keys := log[..|log| - 1], FirstAppearances(demuxOn, log);
      FirstAppearancesListsKeys(demuxOn, init);
      forall k | k in keys
        ensures exists p :: 0 <= p < |log| && demuxOn(log[p]) == k
      {
        if k in FirstAppearances(demuxOn, init) {
          var p :| 0 <= p < |init| && demuxOn(init[p]) == k;
          assert demuxOn(log[p]) == k;
        } else {
          assert demuxOn(log[|log| - 1]) == k;
        }
      }
    }
  }

  /** Its order is that of the positions at which the keys are first seen. */
  lemma {:induction false} FirstAppearancesInOrder(demuxOn: DemuxOn, log: seq<Rpc>, i: nat, j: nat, p: nat, q: nat)
    requires i < j < |FirstAppearances(demuxOn, log)|
    requires FirstAt(demuxOn, log, FirstAppearances(demuxOn, log)[i], p)
    requires FirstAt(demuxOn, log, FirstAppearances(demuxOn, log)[j], q)
    ensures p < q
  {
    var init := log[..|log| - 1];
    var before := FirstAppearances(demuxOn, init);
    SeenBefore(demuxOn, log, before[i], p);
    if j < |before| {
      SeenBefore(demuxOn, log, before[j], q);
      FirstAppearancesInOrder(demuxOn, init, i, j, p, q);
    } else {
      FirstAppearancesListsKeys(demuxOn, init);
      assert forall x :: 0 <= x < |init| ==> demuxOn(log[x]) == demuxOn(init[x]) && demuxOn(init[x]) in before;
    }
  }

  /** A key that was seen before the last frame is first seen there. */
  lemma SeenBefore(demuxOn: DemuxOn, log: seq<Rpc>, key: string, p: nat)
    requires |log| > 0 && FirstAt(demuxOn, log, key, p)
    requires key in FirstAppearances(demuxOn, log[..|log| - 1])
    ensures FirstAt(demuxOn, log[..|log| - 1], key, p)
  {
    var init := log[..|log| - 1];
    FirstAppearancesListsKeys(demuxOn, init);
    var q :| 0 <= q < |init| && demuxOn(init[q]) == key;
    assert demuxOn(log[q]) == key;
  }

  /** `demuxConn`: a logical connection, with the frames that its reader was given. */
  class DemuxConn {
    const key: string
    ghost var delivered: seq<Rpc>

    constructor (key: string)
      ensures this.key == key && delivered == []
    {
      this.key, delivered := key, [];
    }
  }

  class Demux {
    const demuxOn: DemuxOn
    var conns: map<string, DemuxConn>
    var pending: Option<Rpc>         // read, and waiting to be taken by the reader of its connection
    ghost var taken: seq<Rpc>        // history: frames read from the transport
    ghost var created: seq<string>   // history: keys of the connections created

    /** The frame of this key that waits, if any. */
    ghost function Pending(key: string): seq<Rpc>
      reads this
    {
      if pending.Some? && demuxOn(pending.value) == key then [pending.value] else []
    }

    ghost function Delivered(key: string): seq<Rpc>
      reads this, conns.Values
    {
      if key in conns then conns[key].delivered else []
    }

    /**
      Each connection was given exactly the frames of its key, in order, but for the one that
      waits; connections were created once per key, in the order of first appearance.
     */
    ghost predicate Valid()
      reads this, conns.Values
    {
      && (forall k :: k in conns ==> conns[k].key == k)
      && (forall k :: k in conns <==> k in created)
      && created == FirstAppearances(demuxOn, taken)
      && (pending.Some? ==> demuxOn(pending.value) in conns)
      && (forall k :: Delivered(k) + Pending(k) == WithKey(demuxOn, k, taken))
    }

    constructor (demuxOn: DemuxOn)
      ensures Valid() && this.demuxOn == demuxOn && conns == map[] && pending.None? && taken == [] && created == []
    {
      this.demuxOn, conns, pending := demuxOn, map[], None;
      taken, created := [], [];
    }

    /** `newConnLocked`: a connection is made for a key that has none. */
    method NewConn(id: string) returns (c: DemuxConn)
      requires id !in conns
      modifies this`conns, this`created
      ensures fresh(c) && c.key == id && c.delivered == []
      ensures conns == old(conns)[id := c] && created == old(created) + [id]
    {
      c := new DemuxConn(id);
      conns, created := conns[id := c], created + [id];
    }

    /** The first half of the loop, under the lock: a frame is read and its connection found or made. */
    method Accept(rpc: Rpc)
      requires Valid() && pending.None?
      modifies this
      ensures Valid()
      ensures taken == old(taken) + [rpc] && pending == Some(rpc)
      ensures forall k :: k in old(conns) ==> k in conns && conns[k] == old(conns[k])
      ensures forall k :: k in conns && k !in old(conns) ==> fresh(conns[k]) && k == demuxOn(rpc)
    {
      hide WithKey, FirstAppearances;
      var id := demuxOn(rpc);
      FirstAppearancesAppend(demuxOn, taken, rpc);
      if id !in conns {
        var c := NewConn(id);
      }
      assert forall k :: Delivered(k) == old(Delivered(k)) && old(Pending(k)) == [];
      forall k
        ensures Delivered(k) + (if id == k then [rpc] else []) == WithKey(demuxOn, k, taken + [rpc])
      {
        WithKeyAppend(demuxOn, k, taken, rpc);
        assert Delivered(k) + [] == Delivered(k);
      }
      taken, pending := taken + [rpc], Some(rpc);
    }

    /** The second half, outside the lock: the reader of the connection takes the frame. */
    method Deliver()
      requires Valid() && pending.Some?
      modifies this`pending, conns.Values
      ensures Valid() && pending.None?
      ensures taken == old(taken) && created == old(created) && conns == old(conns)
    {
      var c := conns[demuxOn(pending.value)];
      c.delivered := c.delivered + [pending.value];
      pending := None;
      assert forall k :: Delivered(k) == old(Delivered(k)) + old(Pending(k));
    }

    /** `Run`: the frames that can be read before reading fails. */
    method Run(input: seq<Rpc>)
      requires Valid() && pending.None? && taken == []
      modifies this, conns.Values
      ensures Valid() && pending.None? && taken == input
      ensures created == FirstAppearances(demuxOn, input)
      ensures forall k :: Delivered(k) == WithKey(demuxOn, k, input)
    {
      for i := 0 to |input|
        invariant Valid() && pending.None? && taken == input[..i]
        invariant forall k :: k in conns ==> (k in old(conns) && conns[k] == old(conns[k])) || fresh(conns[k])
      {
        Accept(input[i]);
        Deliver();
      }
      assert forall k :: Pending(k) == [];
    }
  }
}
