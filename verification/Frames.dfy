/**
  The frames of the GOAT protocol, with the presence of each optional part explicit:
  body, trailer and reset are what the protocol decides on.
 */
module Frames {

  datatype Option<+T> = None | Some(value: T)

  /** One byte of a Go string. */
  type GoChar = c: char | c as int < 256 witness 'a'

  /** A Go string: an arbitrary sequence of bytes. */
  type GoString = seq<GoChar>

  /** gRPC metadata: each key holds a list of values. */
  type Metadata = map<GoString, seq<GoString>>

  datatype KeyValue = KeyValue(key: GoString, value: GoString)

  datatype Body = Body(data: seq<bv8>)

  datatype Trailer = Trailer(metadata: seq<KeyValue>)

  datatype Status = Status(code: int, message: string, details: seq<string>)

  /** The `type` of a reset: the string "RST_STREAM", or any other string. */
  datatype Reset = RstStream | OtherReset(kind: string)

  /**
    A request header. `proxyNext` is `None` for a nil slice and `Some([])` for an empty
    slice that is not nil: the proxy tells the two apart.
   */
  datatype RequestHeader = RequestHeader(
    fullMethod: string,
    headers: seq<KeyValue>,
    source: string,
    destination: string,
    proxyRecord: seq<string>,
    proxyNext: Option<seq<string>>)

  datatype Rpc = Rpc(
    id: nat,
    header: Option<RequestHeader>,
    status: Option<Status>,
    body: Option<Body>,
    trailer: Option<Trailer>,
    reset: Option<Reset>)

  const CODE_OK := 0
  const CODE_CANCELLED := 1
  const CODE_UNKNOWN := 2
  const CODE_DEADLINE_EXCEEDED := 4
  const CODE_INTERNAL := 13

  const TWO_TO_THE_64 := 0x1_0000_0000_0000_0000

  /** The Go errors the protocol tells apart. */
  datatype Error =
    | EOF
    | Canceled
    | DeadlineExceeded
    | WithStatus(status: Status)
    | Plain(message: string)

  function PlainHeader(fullMethod: string, source: string, destination: string): RequestHeader {
    RequestHeader(fullMethod, [], source, destination, [], None)
  }

  predicate IsReset(rpc: Rpc) {
    rpc.reset == Some(RstStream)
  }

  /** A frame that opens a stream: no body, no trailer, no reset. */
  predicate IsOpening(rpc: Rpc) {
    rpc.body.None? && rpc.trailer.None? && !IsReset(rpc)
  }

  /** The status code, 0 when there is no status (the generated getter on nil). */
  function StatusCode(rpc: Rpc): int {
    if rpc.status.Some? then rpc.status.value.code else CODE_OK
  }
}

/** Sequences of frames: projection on one stream, the bodies in them, prefixes. */
module Logs {
  import opened Frames

  /** The frames of `log` that carry `id`, in order. */
  function On(id: nat, log: seq<Rpc>): seq<Rpc> {
    if |log| == 0 then []
    else
      var last := log[|log| - 1];
      On(id, log[..|log| - 1]) + (if last.id == id then [last] else [])
  }

  /** The frames of `log` that are not resets, in order. */
  function NonReset(log: seq<Rpc>): seq<Rpc> {
    if |log| == 0 then []
    else
      var last := log[|log| - 1];
      NonReset(log[..|log| - 1]) + (if IsReset(last) then [] else [last])
  }

  /** The bodies of the frames of `log`, in order. */
  function Bodies(log: seq<Rpc>): seq<Body> {
    if |log| == 0 then []
    else
      var last := log[|log| - 1];
      Bodies(log[..|log| - 1]) + (if last.body.Some? then [last.body.value] else [])
  }

  /** The number of resets in `log`. */
  function ResetCount(log: seq<Rpc>): nat {
    if |log| == 0 then 0
    else ResetCount(log[..|log| - 1]) + (if IsReset(log[|log| - 1]) then 1 else 0)
  }

  predicate NoTrailer(log: seq<Rpc>) {
    forall i :: 0 <= i < |log| ==> log[i].trailer.None?
  }

  /** `log` up to, and without, its first frame that carries a trailer. */
  function BeforeTrailer(log: seq<Rpc>): (r: seq<Rpc>)
    ensures r <= log
    ensures NoTrailer(r)
    ensures |r| < |log| ==> log[|r|].trailer.Some?
  {
    if |log| == 0 || log[0].trailer.Some? then []
    else [log[0]] + BeforeTrailer(log[1..])
  }

  lemma {:induction false} BeforeTrailerUnique(log: seq<Rpc>, r: seq<Rpc>)
    requires r < log && NoTrailer(r) && log[|r|].trailer.Some?
    ensures BeforeTrailer(log) == r
  {
    var b := BeforeTrailer(log);
    assert |b| == |r|;
  }

  lemma OnAppend(id: nat, log: seq<Rpc>, rpc: Rpc)
    ensures On(id, log + [rpc]) == On(id, log) + (if rpc.id == id then [rpc] else [])
  {
    assert (log + [rpc])[..|log|] == log;
  }

  lemma NonResetAppend(log: seq<Rpc>, rpc: Rpc)
    ensures NonReset(log + [rpc]) == NonReset(log) + (if IsReset(rpc) then [] else [rpc])
  {
    assert (log + [rpc])[..|log|] == log;
  }

  lemma BodiesAppend(log: seq<Rpc>, rpc: Rpc)
    ensures Bodies(log + [rpc]) == Bodies(log) + (if rpc.body.Some? then [rpc.body.value] else [])
  {
    assert (log + [rpc])[..|log|] == log;
  }

  lemma ResetCountAppend(log: seq<Rpc>, rpc: Rpc)
    ensures ResetCount(log + [rpc]) == ResetCount(log) + (if IsReset(rpc) then 1 else 0)
  {
    assert (log + [rpc])[..|log|] == log;
  }

  lemma {:induction false} OnConcat(id: nat, a: seq<Rpc>, b: seq<Rpc>)
    ensures On(id, a + b) == On(id, a) + On(id, b)
    decreases |b|
  {
    if |b| == 0 {
      assert a + b == a;
    } else {
      var b0 := b[..|b| - 1];
      assert a + b == (a + b0) + [b[|b| - 1]];
      assert b == b0 + [b[|b| - 1]];
      OnConcat(id, a, b0);
      OnAppend(id, a + b0, b[|b| - 1]);
      OnAppend(id, b0, b[|b| - 1]);
    }
  }

  lemma {:induction false} BodiesConcat(a: seq<Rpc>, b: seq<Rpc>)
    ensures Bodies(a + b) == Bodies(a) + Bodies(b)
    decreases |b|
  {
    if |b| == 0 {
      assert a + b == a;
    } else {
      var b0 := b[..|b| - 1];
      assert a + b == (a + b0) + [b[|b| - 1]];
      assert b == b0 + [b[|b| - 1]];
      BodiesConcat(a, b0);
      BodiesAppend(a + b0, b[|b| - 1]);
      BodiesAppend(b0, b[|b| - 1]);
    }
  }

  lemma {:induction false} NonResetConcat(a: seq<Rpc>, b: seq<Rpc>)
    ensures NonReset(a + b) == NonReset(a) + NonReset(b)
    decreases |b|
  {
    if |b| == 0 {
      assert a + b == a;
    } else {
      var b0 := b[..|b| - 1];
      assert a + b == (a + b0) + [b[|b| - 1]];
      assert b == b0 + [b[|b| - 1]];
      NonResetConcat(a, b0);
      NonResetAppend(a + b0, b[|b| - 1]);
      NonResetAppend(b0, b[|b| - 1]);
    }
  }

  /** Projection, bodies and reset removal all keep prefixes. */
  lemma PrefixKept(id: nat, a: seq<Rpc>, b: seq<Rpc>)
    requires a <= b
    ensures On(id, a) <= On(id, b)
    ensures Bodies(a) <= Bodies(b)
    ensures NonReset(a) <= NonReset(b)
  {
    assert b == a + b[|a|..];
    OnConcat(id, a, b[|a|..]);
    BodiesConcat(a, b[|a|..]);
    NonResetConcat(a, b[|a|..]);
  }

  /** Every element of a projection is an element of the log with that id. */
  lemma {:induction false} OnMembers(id: nat, log: seq<Rpc>)
    ensures forall f :: f in On(id, log) <==> f in log && f.id == id
  {
    if |log| > 0 {
      OnMembers(id, log[..|log| - 1]);
      assert log == log[..|log| - 1] + [log[|log| - 1]];
    }
  }

  /** The first frame of an id, when nothing of that id comes before position `p`. */
  lemma SplitOn(id: nat, log: seq<Rpc>, p: nat)
    requires p < |log| && log[p].id == id
    ensures On(id, log) == On(id, log[..p]) + [log[p]] + On(id, log[p + 1..])
  {
    hide On;
    assert log == (log[..p] + [log[p]]) + log[p + 1..];
    OnConcat(id, log[..p] + [log[p]], log[p + 1..]);
    OnAppend(id, log[..p], log[p]);
  }

  /** Each frame kept by `NonReset` has a place in the log, with the frames kept before it. */
  lemma {:induction false} NonResetPlace(log: seq<Rpc>, i: nat)
    requires i < |NonReset(log)|
    ensures exists p :: 0 <= p < |log| && log[p] == NonReset(log)[i] && NonReset(log[..p]) == NonReset(log)[..i]
  {
    var init, last := log[..|log| - 1], log[|log| - 1];
    var kept := NonReset(init);
    if i < |kept| {
      NonResetPlace(init, i);
      var p :| 0 <= p < |init| && init[p] == kept[i] && NonReset(init[..p]) == kept[..i];
      assert log[..p] == init[..p] && log[p] == init[p];
      assert NonReset(log)[..i] == kept[..i];
    } else {
      assert NonReset(log)[..i] == kept;
      assert log[|log| - 1] == NonReset(log)[i];
    }
  }

  // ----- merges

  /** `c` is made of `a` and `b`, each in its own order. */
  predicate IsMerge(a: seq<Rpc>, b: seq<Rpc>, c: seq<Rpc>)
    decreases |c|
  {
    if |c| == 0 then a == [] && b == []
    else
      var init, last := c[..|c| - 1], c[|c| - 1];
      || (|a| > 0 && a[|a| - 1] == last && IsMerge(a[..|a| - 1], b, init))
      || (|b| > 0 && b[|b| - 1] == last && IsMerge(a, b[..|b| - 1], init))
  }

  lemma MergeAppend(a: seq<Rpc>, b: seq<Rpc>, c: seq<Rpc>, f: Rpc)
    requires IsMerge(a, b, c)
    ensures IsMerge(a + [f], b, c + [f]) && IsMerge(a, b + [f], c + [f])
  {
    assert (a + [f])[..|a|] == a && (b + [f])[..|b|] == b && (c + [f])[..|c|] == c;
  }

  /** Nothing merged in. */
  lemma {:induction false} MergeNothing(a: seq<Rpc>, c: seq<Rpc>)
    requires IsMerge(a, [], c)
    ensures a == c
    decreases |c|
  {
    if |c| > 0 {
      MergeNothing(a[..|a| - 1], c[..|c| - 1]);
      assert a == a[..|a| - 1] + [a[|a| - 1]] && c == c[..|c| - 1] + [c[|c| - 1]];
    }
  }

  lemma {:induction false} MergeMembers(a: seq<Rpc>, b: seq<Rpc>, c: seq<Rpc>, f: Rpc)
    requires IsMerge(a, b, c) && f in a
    ensures f in c
    decreases |c|
  {
    var init := c[..|c| - 1];
    if |a| > 0 && a[|a| - 1] == c[|c| - 1] && IsMerge(a[..|a| - 1], b, init) {
      if f != c[|c| - 1] {
        assert a == a[..|a| - 1] + [a[|a| - 1]];
        MergeMembers(a[..|a| - 1], b, init, f);
      }
    } else {
      MergeMembers(a, b[..|b| - 1], init, f);
    }
  }

  /** The bodies of a merge: as many as of its parts, and those of one part when the other has none. */
  lemma {:induction false} MergeBodies(a: seq<Rpc>, b: seq<Rpc>, c: seq<Rpc>)
    requires IsMerge(a, b, c)
    ensures |Bodies(c)| == |Bodies(a)| + |Bodies(b)|
    ensures Bodies(b) == [] ==> Bodies(c) == Bodies(a)
    decreases |c|
  {
    if |c| > 0 {
      var init := c[..|c| - 1];
      if |a| > 0 && a[|a| - 1] == c[|c| - 1] && IsMerge(a[..|a| - 1], b, init) {
        MergeBodies(a[..|a| - 1], b, init);
      } else {
        MergeBodies(a, b[..|b| - 1], init);
        assert Bodies(init) + [] == Bodies(init);
      }
    }
  }

  /** A merge splits at each frame of its first part. */
  ghost predicate SplitsAt(a: seq<Rpc>, b: seq<Rpc>, c: seq<Rpc>, k: nat, j: nat, m: nat)
    requires k < |a|
  {
    && j < |c| && m <= |b| && c[j] == a[k]
    && IsMerge(a[..k], b[..m], c[..j]) && IsMerge(a[k + 1..], b[m..], c[j + 1..])
  }

  lemma SplitGrowsFirst(a: seq<Rpc>, b: seq<Rpc>, c: seq<Rpc>, f: Rpc, k: nat, j: nat, m: nat)
    requires k < |a| && SplitsAt(a, b, c, k, j, m)
    ensures SplitsAt(a + [f], b, c + [f], k, j, m)
  {
    hide IsMerge;
    assert (a + [f])[..k] == a[..k] && (c + [f])[..j] == c[..j];
    assert (a + [f])[k + 1..] == a[k + 1..] + [f] && (c + [f])[j + 1..] == c[j + 1..] + [f];
    MergeAppend(a[k + 1..], b[m..], c[j + 1..], f);
  }

  lemma SplitGrowsSecond(a: seq<Rpc>, b: seq<Rpc>, c: seq<Rpc>, f: Rpc, k: nat, j: nat, m: nat)
    requires k < |a| && SplitsAt(a, b, c, k, j, m)
    ensures SplitsAt(a, b + [f], c + [f], k, j, m)
  {
    hide IsMerge;
    assert (b + [f])[..m] == b[..m] && (c + [f])[..j] == c[..j];
    assert (b + [f])[m..] == b[m..] + [f] && (c + [f])[j + 1..] == c[j + 1..] + [f];
    MergeAppend(a[k + 1..], b[m..], c[j + 1..], f);
  }

  lemma SplitAtEnd(a: seq<Rpc>, b: seq<Rpc>, c: seq<Rpc>)
    requires |a| > 0 && |c| > 0 && a[|a| - 1] == c[|c| - 1] && IsMerge(a[..|a| - 1], b, c[..|c| - 1])
    ensures SplitsAt(a, b, c, |a| - 1, |c| - 1, |b|)
  {
    assert b[..|b|] == b && b[|b|..] == [] && a[|a|..] == [] && c[|c|..] == [];
  }

  lemma {:induction false} MergeSplit(a: seq<Rpc>, b: seq<Rpc>, c: seq<Rpc>, k: nat) returns (j: nat, m: nat)
    requires IsMerge(a, b, c) && k < |a|
    ensures SplitsAt(a, b, c, k, j, m)
    decreases |c|
  {
    hide SplitsAt;
    var init, last := c[..|c| - 1], c[|c| - 1];
    assert c == init + [last];
    if |a| > 0 && a[|a| - 1] == last && IsMerge(a[..|a| - 1], b, init) {
      if k == |a| - 1 {
        SplitAtEnd(a, b, c);
        j, m := |c| - 1, |b|;
      } else {
        j, m := MergeSplit(a[..|a| - 1], b, init, k);
        SplitGrowsFirst(a[..|a| - 1], b, init, last, k, j, m);
        assert a == a[..|a| - 1] + [last];
      }
    } else {
      j, m := MergeSplit(a, b[..|b| - 1], init, k);
      SplitGrowsSecond(a, b[..|b| - 1], init, last, k, j, m);
      assert b == b[..|b| - 1] + [last];
    }
  }

  /** What was handed over, but for what is held, went one of two ways, in order. */
  ghost predicate Accounted(handed: seq<Rpc>, held: seq<Rpc>, out: seq<Rpc>, lost: seq<Rpc>) {
    exists went :: handed == went + held && IsMerge(out, lost, went)
  }

  lemma AccountHanded(handed: seq<Rpc>, out: seq<Rpc>, lost: seq<Rpc>, more: seq<Rpc>)
    requires Accounted(handed, [], out, lost)
    ensures Accounted(handed + more, more, out, lost)
  {
    hide IsMerge;
    var went :| handed == went + [] && IsMerge(out, lost, went);
    assert went + [] == went;
  }

  /** The frame held goes one way or the other. */
  lemma AccountGone(handed: seq<Rpc>, held: seq<Rpc>, out: seq<Rpc>, lost: seq<Rpc>)
    requires Accounted(handed, held, out, lost) && |held| <= 1
    ensures Accounted(handed, [], out + held, lost) && Accounted(handed, [], out, lost + held)
  {
    hide IsMerge;
    var went :| handed == went + held && IsMerge(out, lost, went);
    assert handed + [] == handed && out + [] == out && lost + [] == lost && went + [] == went;
    if held != [] {
      MergeAppend(out, lost, went, held[0]);
      assert held == [held[0]];
    }
  }
}
