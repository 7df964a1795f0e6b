/**
 * The stock interceptors. `InterceptorBase` has two virtual hooks that complete at once and
 * touch nothing. The pre- and post-execution interceptors override one hook each: it awaits a
 * list of auxiliary middlewares in array order, each called with the hook's value and a null
 * continuation, discards their results, and then awaits the base hook.
 */
module Interceptors {
  import opened Wrappers
  import opened Decorators

  /** `InterceptorBase<P, R>`: both hooks return a completed task and leave the world as it was. */
  function Base<W(!new), P(!new), R(!new)>(): (x: Interceptor<W, P, R>)
    ensures forall w: W, p: P :: x.beforeRun(w, p) == Completed(w)
    ensures forall w: W, r: R :: x.afterRun(w, r) == Completed(w)
  {
    Interceptor((w, p) => Completed(w), (w, r) => Completed(w))
  }

  /** An interceptor whose hooks both complete at once in the world they were called in. */
  ghost predicate Inert<W(!new), P(!new), R(!new)>(x: Interceptor<W, P, R>) {
    && (forall w: W, p: P :: x.beforeRun(w, p) == Completed(w))
    && (forall w: W, r: R :: x.afterRun(w, r) == Completed(w))
  }

  /** How far a list of auxiliary middlewares got: how the hook's loop ended, and how many calls it started. */
  datatype Sweep<W> = Sweep(completion: Completion<W>, ran: nat)

  /** One call `ms[index].Run(value, null)` made by a hook's loop. */
  datatype AuxCall<P> = AuxCall(index: nat, value: P)

  /** The first `n` calls of a hook's loop over the same value, index 0 first. */
  function AuxCalls<P>(n: nat, value: P): seq<AuxCall<P>> {
    seq(n, k requires 0 <= k => AuxCall(k, value))
  }

  /**
   * The hook's loop from index `i` on: each middleware is awaited with `value` and a null
   * continuation, its result is discarded, and the first throw ends the hook.
   */
  function RunEach<W, P, R>(ms: seq<Middleware<W, P, R>>, i: nat, w: W, value: P): Sweep<W>
    requires i <= |ms|
    decreases |ms| - i
  {
    if i == |ms| then Sweep(Completed(w), i)
    else
      match ms[i].run(w, value, None)
      case Threw(w', f) => Sweep(Faulted(w', f), i + 1)
      case Returned(w', _) => RunEach(ms, i + 1, w', value)
  }

  /** A loop that completes has started every middleware; one that throws has started at least one. */
  lemma {:induction false} RunEachShape<W, P, R>(ms: seq<Middleware<W, P, R>>, i: nat, w: W, value: P)
    requires i <= |ms|
    ensures i <= RunEach(ms, i, w, value).ran <= |ms|
    ensures RunEach(ms, i, w, value).completion.Completed? ==> RunEach(ms, i, w, value).ran == |ms|
    ensures RunEach(ms, i, w, value).completion.Faulted? ==> i < RunEach(ms, i, w, value).ran
    decreases |ms| - i
  {
    if i < |ms| && ms[i].run(w, value, None).Returned? {
      RunEachShape(ms, i + 1, ms[i].run(w, value, None).world, value);
    }
  }

  /**
   * `foreach (m in ms) await m.Run(value, null)`: every middleware is called once, in array
   * order, with the same value, until one throws.
   */
  method AwaitEach<W, P, R>(ms: seq<Middleware<W, P, R>>, w: W, value: P)
    returns (completion: Completion<W>, calls: seq<AuxCall<P>>)
    ensures completion == RunEach(ms, 0, w, value).completion
    ensures calls == AuxCalls(RunEach(ms, 0, w, value).ran, value)
    ensures completion.Completed? ==> calls == AuxCalls(|ms|, value)
    ensures completion.Faulted? ==> 0 < |calls| <= |ms|
  {
    RunEachShape(ms, 0, w, value);
    var world := w;
    var i := 0;
    calls := [];
    while i < |ms|
      invariant 0 <= i <= |ms|
      invariant RunEach(ms, i, world, value) == RunEach(ms, 0, w, value)
      invariant calls == AuxCalls(i, value)
    {
      calls := calls + [AuxCall(i, value)];
      assert calls == AuxCalls(i + 1, value);
      var returned := ms[i].run(world, value, None);
      if returned.Threw? {
        completion := Faulted(returned.world, returned.fault);
        return;
      }
      world := returned.world;
      i := i + 1;
    }
    completion := Completed(world);
  }

  /** The loop over the auxiliary middlewares, then `await base.Hook(value)`. */
  function ThenBase<W>(c: Completion<W>, baseHook: W -> Completion<W>): Completion<W> {
    match c
    case Faulted(w', f) => Faulted(w', f)
    case Completed(w') => baseHook(w')
  }

  /**
   * `PreExecutionMiddlewareInterceptor<P, R>(inner, pre)`: the before hook runs `pre`, the
   * after hook stays the base no-op, and `inner` is never called.
   */
  function PreExecution<W(!new), P(!new), R(!new)>(inner: Middleware<W, P, R>, pre: seq<Middleware<W, P, R>>): (x: Interceptor<W, P, R>)
    ensures forall w: W, p: P :: x.beforeRun(w, p) == RunEach(pre, 0, w, p).completion
    ensures forall w: W, r: R :: x.afterRun(w, r) == Completed(w)
    ensures pre == [] ==> Inert(x)
  {
    Interceptor((w, p) => ThenBase(RunEach(pre, 0, w, p).completion, w' => Base<W, P, R>().beforeRun(w', p)),
                Base<W, P, R>().afterRun)
  }

  /**
   * `PostExecutionMiddlewareInterceptor<P, R>(inner, post)`: an `InterceptorBase<P, P>`, so the
   * after hook takes a `P`; it runs `post`, the before hook stays the base no-op, and `inner`
   * is never called. The source types `inner` as PipelineNet's one-type `IAsyncMiddleware<P>`,
   * whose `Run` returns no value; since it is never called, it is given the two-type shape
   * `Middleware<W, P, P>` here, and only this parameter's type differs from the source.
   */
  function PostExecution<W(!new), P(!new)>(inner: Middleware<W, P, P>, post: seq<Middleware<W, P, P>>): (x: Interceptor<W, P, P>)
    ensures forall w: W, p: P :: x.beforeRun(w, p) == Completed(w)
    ensures forall w: W, r: P :: x.afterRun(w, r) == RunEach(post, 0, w, r).completion
    ensures post == [] ==> Inert(x)
  {
    Interceptor(Base<W, P, P>().beforeRun,
                (w, r) => ThenBase(RunEach(post, 0, w, r).completion, w' => Base<W, P, P>().afterRun(w', r)))
  }

  /** Hooks that do nothing let a hook loop run through in the world it started in. */
  lemma {:induction false} InertHooksKeepWorld<W(!new), P(!new), R(!new)>(xs: seq<Interceptor<W, P, R>>, i: nat, w: W, stage: Stage<P, R>)
    requires i <= |xs|
    requires forall k :: 0 <= k < |xs| ==> Inert(xs[k])
    ensures RunHooks(xs, i, w, stage) == Phase(w, |xs|, None)
    decreases |xs| - i
  {
    if i < |xs| {
      assert Inert(xs[i]);
      assert Fire(xs[i], w, stage) == Completed(w);
      InertHooksKeepWorld(xs, i + 1, w, stage);
    }
  }

  /**
   * Decorating with interceptors whose hooks are the base no-ops leaves the inner call and its
   * outcome unchanged: the inner middleware runs in the caller's world, and `Run` ends exactly
   * as the inner middleware does.
   */
  lemma InertDecoratorIsTransparent<W(!new), P(!new), R(!new)>(d: Decorator<W, P, R>, w: W, parameter: P, next: Next<W, P, R>)
    requires forall k :: 0 <= k < |d.interceptors| ==> Inert(d.interceptors[k])
    ensures RunSpec(d, w, parameter, next).result == d.inner.run(w, parameter, next)
    ensures var n := |d.interceptors|;
            var inner := d.inner.run(w, parameter, next);
            inner.Returned? ==>
              RunSpec(d, w, parameter, next).trace
                == HookEvents(n, Before(parameter)) + [InnerRun(parameter)] + HookEvents(n, After(inner.value))
  {
    InertHooksKeepWorld(d.interceptors, 0, w, Before(parameter));
    var inner := d.inner.run(w, parameter, next);
    if inner.Returned? {
      InertHooksKeepWorld(d.interceptors, 0, inner.world, After(inner.value));
    }
  }

  /** `InterceptorBase` itself is inert, so a decorator of base interceptors is transparent. */
  lemma BaseIsInert<W(!new), P(!new), R(!new)>()
    ensures Inert(Base<W, P, R>())
  {
  }

  /**
   * A decorator with one pre-execution interceptor: the pre-middlewares all run, in order,
   * before the inner middleware, which then runs in the world they left; if one throws, the
   * inner middleware is not called.
   */
  lemma PreExecutionRunsFirst<W(!new), P(!new), R(!new)>(inner: Middleware<W, P, R>, pre: seq<Middleware<W, P, R>>,
                                       w: W, parameter: P, next: Next<W, P, R>)
    ensures var d := Decorator(inner, [PreExecution(inner, pre)]);
            var sweep := RunEach(pre, 0, w, parameter);
            var o := RunSpec(d, w, parameter, next);
            && (sweep.completion.Faulted? ==> o.trace == [Hook(0, Before(parameter))] && o.result.Threw?)
            && (sweep.completion.Completed? ==>
                  2 <= |o.trace| && o.trace[..2] == [Hook(0, Before(parameter)), InnerRun(parameter)] &&
                  o.result == inner.run(sweep.completion.world, parameter, next))
  {
    var x := PreExecution(inner, pre);
    var d := Decorator(inner, [x]);
    var sweep := RunEach(pre, 0, w, parameter);
    assert RunHooks(d.interceptors, 1, sweep.completion.world, Before(parameter)) == Phase(sweep.completion.world, 1, None);
    var returned := inner.run(sweep.completion.world, parameter, next);
    if sweep.completion.Completed? && returned.Returned? {
      assert Fire(x, returned.world, After(returned.value)) == Completed(returned.world);
      assert RunHooks(d.interceptors, 1, returned.world, After(returned.value)) == Phase(returned.world, 1, None);
    }
  }
}
