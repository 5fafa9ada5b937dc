/**
  Chained interceptors (chained.go). Unary and stream interceptors are chained by the same code; a
  request stands for the context and the request, or for the service and the stream.
 */
module Chains {
  import opened Frames

  /** What happened during a call, as the interceptors and the handler tell it. */
  datatype Event = Enter(name: string) | Exit(name: string) | Refuse(name: string) | Handle(what: string)

  datatype Outcome<A> = Outcome(trace: seq<Event>, answer: A)

  type Handler<!R, A> = R -> Outcome<A>

  type Interceptor<!R, !A> = (R, Handler<R, A>) -> Outcome<A>

  /** The closure around one interceptor. */
  function Wrap<R, A>(i: Interceptor<R, A>, next: Handler<R, A>): Handler<R, A> {
    req => i(req, next)
  }

  /** `getChainUnaryHandler`, `getChainStreamHandler`: the handler that the interceptor at `curr` is given. */
  function GetChainHandler<R, A>(interceptors: seq<Interceptor<R, A>>, curr: nat, finalHandler: Handler<R, A>): Handler<R, A>
    requires curr < |interceptors|
    decreases |interceptors| - curr
  {
    if curr == |interceptors| - 1 then finalHandler
    else Wrap(interceptors[curr + 1], GetChainHandler(interceptors, curr + 1, finalHandler))
  }

  /** The interceptor that `ChainUnaryInterceptor` installs, on a request; an empty list has no first element. */
  function Chained<R, A>(interceptors: seq<Interceptor<R, A>>, req: R, handler: Handler<R, A>): Option<Outcome<A>> {
    if |interceptors| == 0 then None
    else Some(interceptors[0](req, GetChainHandler(interceptors, 0, handler)))
  }

  /** The right fold of the interceptors over the final handler. */
  function Fold<R, A>(interceptors: seq<Interceptor<R, A>>, finalHandler: Handler<R, A>): Handler<R, A> {
    if |interceptors| == 0 then finalHandler
    else Wrap(interceptors[0], Fold(interceptors[1..], finalHandler))
  }

  /** The recursion on an index is the fold of the rest. */
  lemma {:induction false} ChainIsFold<R, A>(interceptors: seq<Interceptor<R, A>>, curr: nat, finalHandler: Handler<R, A>)
    requires curr < |interceptors|
    ensures GetChainHandler(interceptors, curr, finalHandler) == Fold(interceptors[curr + 1..], finalHandler)
    decreases |interceptors| - curr
  {
    if curr < |interceptors| - 1 {
      ChainIsFold(interceptors, curr + 1, finalHandler);
      assert interceptors[curr + 1..][1..] == interceptors[curr + 2..];
    }
  }

  /** The chain of a non-empty list, on every request, is the fold. */
  lemma ChainedIsFold<R, A>(interceptors: seq<Interceptor<R, A>>, req: R, handler: Handler<R, A>)
    ensures Chained(interceptors, req, handler).Some? <==> |interceptors| > 0
    ensures |interceptors| > 0 ==> Chained(interceptors, req, handler) == Some(Fold(interceptors, handler)(req))
  {
    if |interceptors| > 0 {
      ChainIsFold(interceptors, 0, handler);
    }
  }

  /** The interceptor calls the rest of the chain once, with the same request, and passes its answer on. */
  ghost predicate PassesThrough<R(!new), A(!new)>(i: Interceptor<R, A>, name: string) {
    forall req: R, next: Handler<R, A> ::
      i(req, next) == Outcome([Enter(name)] + next(req).trace + [Exit(name)], next(req).answer)
  }

  /** The interceptor answers by itself and does not call the rest of the chain. */
  ghost predicate Refuses<R(!new), A(!new)>(i: Interceptor<R, A>, name: string, answer: A) {
    forall req: R, next: Handler<R, A> :: i(req, next) == Outcome([Refuse(name)], answer)
  }

  function Enters(names: seq<string>): seq<Event> {
    seq(|names|, i requires 0 <= i < |names| => Enter(names[i]))
  }

  function Exits(names: seq<string>): seq<Event> {
    seq(|names|, i requires 0 <= i < |names| => Exit(names[|names| - 1 - i]))
  }

  lemma ExitsStep(names: seq<string>)
    requires |names| > 0
    ensures Exits(names) == Exits(names[1..]) + [Exit(names[0])]
    ensures Enters(names) == [Enter(names[0])] + Enters(names[1..])
  {
  }

  /** Interceptors that pass through leave the answer alone and nest around what the rest does. */
  lemma {:induction false} FoldNests<R(!new), A(!new)>(
    interceptors: seq<Interceptor<R, A>>, names: seq<string>, rest: Handler<R, A>, req: R)
    requires |names| == |interceptors|
    requires forall i :: 0 <= i < |interceptors| ==> PassesThrough(interceptors[i], names[i])
    ensures Fold(interceptors, rest)(req) == Outcome(Enters(names) + rest(req).trace + Exits(names), rest(req).answer)
  {
    if |interceptors| > 0 {
      FoldNests(interceptors[1..], names[1..], rest, req);
      ExitsStep(names);
      assert PassesThrough(interceptors[0], names[0]);
      var inner := Fold(interceptors[1..], rest);
      assert [Enter(names[0])] + inner(req).trace + [Exit(names[0])] ==
             Enters(names) + rest(req).trace + Exits(names);
    } else {
      assert Enters(names) + rest(req).trace + Exits(names) == rest(req).trace;
    }
  }

  /**
    For every non-empty list of interceptors that pass through: each runs exactly once, they are
    entered in list order before the handler and left in the opposite order after it, and the
    answer is the handler's.
   */
  lemma EachRunsOnceInOrder<R(!new), A(!new)>(
    interceptors: seq<Interceptor<R, A>>, names: seq<string>, req: R, handler: Handler<R, A>)
    requires |names| == |interceptors| > 0
    requires forall i :: 0 <= i < |interceptors| ==> PassesThrough(interceptors[i], names[i])
    ensures Chained(interceptors, req, handler) ==
            Some(Outcome(Enters(names) + handler(req).trace + Exits(names), handler(req).answer))
  {
    ChainedIsFold(interceptors, req, handler);
    FoldNests(interceptors, names, handler, req);
  }

  /** The fold of a list is the fold of its front over the fold of its back. */
  lemma {:induction false} FoldSplits<R, A>(a: seq<Interceptor<R, A>>, b: seq<Interceptor<R, A>>, handler: Handler<R, A>)
    ensures Fold(a + b, handler) == Fold(a, Fold(b, handler))
  {
    if |a| == 0 {
      assert a + b == b;
    } else {
      assert (a + b)[1..] == a[1..] + b;
      FoldSplits(a[1..], b, handler);
    }
  }

  /** An interceptor that refuses cuts off every later interceptor and the handler, whatever they are. */
  lemma RefusalCutsOff<R(!new), A(!new)>(
    interceptors: seq<Interceptor<R, A>>, names: seq<string>, j: nat, answer: A, req: R, handler: Handler<R, A>)
    requires |names| == |interceptors| && j < |interceptors|
    requires forall i :: 0 <= i < j ==> PassesThrough(interceptors[i], names[i])
    requires Refuses(interceptors[j], names[j], answer)
    ensures Chained(interceptors, req, handler) ==
            Some(Outcome(Enters(names[..j]) + [Refuse(names[j])] + Exits(names[..j]), answer))
  {
    ChainedIsFold(interceptors, req, handler);
    assert interceptors == interceptors[..j] + interceptors[j..];
    FoldSplits(interceptors[..j], interceptors[j..], handler);
    FoldNests(interceptors[..j], names[..j], Fold(interceptors[j..], handler), req);
  }
}
