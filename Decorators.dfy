/**
 * The interceptor decorator. Its `Run` awaits every interceptor's before hook in order,
 * then the inner middleware, then every after hook in the same order, and returns the
 * inner middleware's result. Nothing is caught: a failing hook ends the run.
 *
 * Hooks and middlewares act on a world `W` (the heap they touch); an awaited call either
 * completes in a new world or throws a fault in the world it left behind.
 */
module Decorators {
  import opened Wrappers
  import opened Types

  /** An exception raised by a hook, a middleware or a continuation. */
  datatype Fault = NullReference | Raised(code: nat)

  /** How an awaited `Task` ends. */
  datatype Completion<W> = Completed(world: W) | Faulted(world: W, fault: Fault)

  /** How an awaited `Task<R>` ends. */
  datatype Returning<W, R> = Returned(world: W, value: R) | Threw(world: W, fault: Fault)

  /** The continuation `next` handed to a middleware; `None` is a null delegate. */
  type Next<!W, !P, R> = Option<(W, P) -> Returning<W, R>>

  /** An `IAsyncMiddleware<P, R>`: its `Run(parameter, next)`. */
  datatype Middleware<!W, !P, !R> = Middleware(run: (W, P, Next<W, P, R>) -> Returning<W, R>)

  /** An `IInterceptorMiddlewareDecorator<P, R>`: its `BeforeRunAsync` and `AfterRunAsync` hooks. */
  datatype Interceptor<!W, !P, !R> = Interceptor(beforeRun: (W, P) -> Completion<W>, afterRun: (W, R) -> Completion<W>)

  /** Which hook is called, with the value it is called with. */
  datatype Stage<P, R> = Before(parameter: P) | After(value: R)

  /** One awaited call made by `Run`: the hook of the interceptor at `index`, or the inner middleware. */
  datatype Event<P, R> = Hook(index: nat, stage: Stage<P, R>) | InnerRun(parameter: P)

  /** Where a hook loop stopped: the world, how many hooks were started, and the fault that ended it, if any. */
  datatype Phase<W> = Phase(world: W, ran: nat, fault: Option<Fault>)

  /** `InterceptorMiddlewareDecorator<P, R>`: the inner middleware and its interceptors, in order. */
  datatype Decorator<!W, !P, !R> = Decorator(inner: Middleware<W, P, R>, interceptors: seq<Interceptor<W, P, R>>)

  /** `InterceptorMiddlewareDecorator<P>`: the two-type decorator with the return type equal to the parameter type. */
  type SameTypeDecorator<!W, !P> = Decorator<W, P, P>

  /** The calls one `Run` made, and how it ended. */
  datatype Outcome<W, P, R> = Outcome(trace: seq<Event<P, R>>, result: Returning<W, R>)

  /** The constructor's guards: a null inner middleware or a null interceptor array is rejected, in that order. */
  function NewDecorator<W, P, R>(inner: Option<Middleware<W, P, R>>, interceptors: Option<seq<Interceptor<W, P, R>>>)
    : (r: Result<Decorator<W, P, R>, Error>)
    ensures r.Success? <==> inner.Some? && interceptors.Some?
    ensures inner.None? ==> r == Failure(NullArgument("inner"))
    ensures inner.Some? && interceptors.None? ==> r == Failure(NullArgument("interceptors"))
    ensures r.Success? ==> r.value.inner == inner.value && r.value.interceptors == interceptors.value
  {
    if inner.None? then Failure(NullArgument("inner"))
    else if interceptors.None? then Failure(NullArgument("interceptors"))
    else Success(Decorator(inner.value, interceptors.value))
  }

  /** Calls the hook `stage` names on one interceptor. */
  function Fire<W, P, R>(x: Interceptor<W, P, R>, w: W, stage: Stage<P, R>): Completion<W> {
    match stage
    case Before(p) => x.beforeRun(w, p)
    case After(r) => x.afterRun(w, r)
  }

  /** The hooks of `xs` from index `i` on, awaited in order until one faults. */
  function RunHooks<W, P, R>(xs: seq<Interceptor<W, P, R>>, i: nat, w: W, stage: Stage<P, R>): Phase<W>
    requires i <= |xs|
    decreases |xs| - i
  {
    if i == |xs| then Phase(w, i, None)
    else
      match Fire(xs[i], w, stage)
      case Faulted(w', f) => Phase(w', i + 1, Some(f))
      case Completed(w') => RunHooks(xs, i + 1, w', stage)
  }

  /** The first `n` hook calls of one stage, interceptor 0 first. */
  function HookEvents<P, R>(n: nat, stage: Stage<P, R>): seq<Event<P, R>> {
    seq(n, k requires 0 <= k => Hook(k, stage))
  }

  /** What `Run` does, as a function of the starting world. */
  function RunSpec<W, P, R>(d: Decorator<W, P, R>, w: W, parameter: P, next: Next<W, P, R>): Outcome<W, P, R> {
    var before := RunHooks(d.interceptors, 0, w, Before(parameter));
    if before.fault.Some? then
      Outcome(HookEvents(before.ran, Before(parameter)), Threw(before.world, before.fault.value))
    else
      var befores := HookEvents(before.ran, Before(parameter)) + [InnerRun(parameter)];
      match d.inner.run(before.world, parameter, next)
      case Threw(w', f) => Outcome(befores, Threw(w', f))
      case Returned(w', r) =>
        var after := RunHooks(d.interceptors, 0, w', After(r));
        Outcome(befores + HookEvents(after.ran, After(r)),
                if after.fault.Some? then Threw(after.world, after.fault.value) else Returned(after.world, r))
  }

  /** A hook loop starts at least one hook when it faults, and runs them all when it does not. */
  lemma {:induction false} RunHooksShape<W, P, R>(xs: seq<Interceptor<W, P, R>>, i: nat, w: W, stage: Stage<P, R>)
    requires i <= |xs|
    ensures i <= RunHooks(xs, i, w, stage).ran <= |xs|
    ensures RunHooks(xs, i, w, stage).fault.None? ==> RunHooks(xs, i, w, stage).ran == |xs|
    ensures RunHooks(xs, i, w, stage).fault.Some? ==> i < RunHooks(xs, i, w, stage).ran
    decreases |xs| - i
  {
    if i < |xs| && Fire(xs[i], w, stage).Completed? {
      RunHooksShape(xs, i + 1, Fire(xs[i], w, stage).world, stage);
    }
  }

  /** The hook loop of `Run`: awaits `stage`'s hook of every interceptor in order, stopping at the first fault. */
  method FireHooks<W, P, R>(xs: seq<Interceptor<W, P, R>>, w: W, stage: Stage<P, R>)
    returns (phase: Phase<W>, events: seq<Event<P, R>>)
    ensures phase == RunHooks(xs, 0, w, stage)
    ensures events == HookEvents(phase.ran, stage)
  {
    var world := w;
    var i := 0;
    events := [];
    while i < |xs|
      invariant 0 <= i <= |xs|
      invariant RunHooks(xs, i, world, stage) == RunHooks(xs, 0, w, stage)
      invariant events == HookEvents(i, stage)
    {
      events := events + [Hook(i, stage)];
      assert events == HookEvents(i + 1, stage);
      match Fire(xs[i], world, stage) {
        case Faulted(w', f) =>
          phase := Phase(w', i + 1, Some(f));
          return;
        case Completed(w') =>
          world := w';
      }
      i := i + 1;
    }
    phase := Phase(world, i, None);
  }

  /** `Run(parameter, next)`: the before hooks, the inner middleware, the after hooks, and the inner result. */
  method Run<W, P, R>(d: Decorator<W, P, R>, w: W, parameter: P, next: Next<W, P, R>)
    returns (trace: seq<Event<P, R>>, result: Returning<W, R>)
    ensures Outcome(trace, result) == RunSpec(d, w, parameter, next)
  {
    var before, beforeEvents := FireHooks(d.interceptors, w, Before(parameter));
    trace := beforeEvents;
    if before.fault.Some? {
      result := Threw(before.world, before.fault.value);
      return;
    }
    trace := trace + [InnerRun(parameter)];
    var returned := d.inner.run(before.world, parameter, next);
    if returned.Threw? {
      result := returned;
      return;
    }
    var after, afterEvents := FireHooks(d.interceptors, returned.world, After(returned.value));
    trace := trace + afterEvents;
    if after.fault.Some? {
      result := Threw(after.world, after.fault.value);
    } else {
      result := Returned(after.world, returned.value);
    }
  }

  /**
   * When `Run` returns, it made exactly the calls before 0..n-1, inner, after 0..n-1 (after hooks
   * in the same order as before hooks, not reversed), and it returns exactly what the inner
   * middleware returned when called with the caller's parameter and continuation.
   */
  lemma RunOrder<W, P, R>(d: Decorator<W, P, R>, w: W, parameter: P, next: Next<W, P, R>)
    ensures var o := RunSpec(d, w, parameter, next);
            var n := |d.interceptors|;
            o.result.Returned? ==>
              && o.trace == HookEvents(n, Before(parameter)) + [InnerRun(parameter)] + HookEvents(n, After(o.result.value))
              && |o.trace| == 2 * n + 1
              && var inner := d.inner.run(RunHooks(d.interceptors, 0, w, Before(parameter)).world, parameter, next);
                 inner.Returned? && inner.value == o.result.value
  {
    var o := RunSpec(d, w, parameter, next);
    RunHooksShape(d.interceptors, 0, w, Before(parameter));
    var before := RunHooks(d.interceptors, 0, w, Before(parameter));
    if before.fault.None? {
      var inner := d.inner.run(before.world, parameter, next);
      if inner.Returned? {
        RunHooksShape(d.interceptors, 0, inner.world, After(inner.value));
      }
    }
  }

  /**
   * Fail-fast: the inner middleware runs iff every before hook completed; a failing before hook is
   * the last call (later before hooks, the inner call and every after hook are skipped); and a
   * failing after hook is the last call, so later after hooks are skipped. Either way `Run` throws;
   * and an inner call that throws ends the run after every before hook, with no after hook.
   */
  lemma FailFast<W, P, R>(d: Decorator<W, P, R>, w: W, parameter: P, next: Next<W, P, R>)
    ensures var o := RunSpec(d, w, parameter, next);
            var before := RunHooks(d.interceptors, 0, w, Before(parameter));
            && (InnerRun(parameter) in o.trace <==> before.fault.None?)
            && (before.fault.Some? ==>
                  o.result.Threw? && o.result.fault == before.fault.value &&
                  1 <= before.ran && o.trace == HookEvents(before.ran, Before(parameter)) &&
                  o.trace[|o.trace| - 1] == Hook(before.ran - 1, Before(parameter)))
            && (before.fault.None? && d.inner.run(before.world, parameter, next).Returned? ==>
                  var inner := d.inner.run(before.world, parameter, next);
                  var after := RunHooks(d.interceptors, 0, inner.world, After(inner.value));
                  after.fault.Some? ==>
                    o.result.Threw? && o.result.fault == after.fault.value && 1 <= after.ran &&
                    o.trace[|o.trace| - 1] == Hook(after.ran - 1, After(inner.value)) &&
                    |o.trace| == |d.interceptors| + 1 + after.ran)
            && (before.fault.None? && d.inner.run(before.world, parameter, next).Threw? ==>
                  o.result == d.inner.run(before.world, parameter, next) &&
                  o.trace == HookEvents(|d.interceptors|, Before(parameter)) + [InnerRun(parameter)])
  {
    var o := RunSpec(d, w, parameter, next);
    var before := RunHooks(d.interceptors, 0, w, Before(parameter));
    RunHooksShape(d.interceptors, 0, w, Before(parameter));
    if before.fault.Some? {
      assert forall k :: 0 <= k < |o.trace| ==> o.trace[k].Hook?;
    } else {
      assert o.trace[before.ran] == InnerRun(parameter);
      var inner := d.inner.run(before.world, parameter, next);
      if inner.Returned? {
        RunHooksShape(d.interceptors, 0, inner.world, After(inner.value));
      }
    }
  }

  /**
   * Every before hook sees the caller's parameter, every after hook sees the inner result,
   * and the inner middleware is called at most once, with the caller's parameter.
   */
  lemma HooksSeeSameValues<W, P, R>(d: Decorator<W, P, R>, w: W, parameter: P, next: Next<W, P, R>, k: nat)
    requires k < |RunSpec(d, w, parameter, next).trace|
    ensures var o := RunSpec(d, w, parameter, next);
            var before := RunHooks(d.interceptors, 0, w, Before(parameter));
            && (o.trace[k].Hook? && o.trace[k].stage.Before? ==> o.trace[k].stage.parameter == parameter)
            && (o.trace[k].InnerRun? ==> o.trace[k].parameter == parameter && k == before.ran)
            && (o.trace[k].Hook? && o.trace[k].stage.After? ==>
                  var inner := d.inner.run(before.world, parameter, next);
                  inner.Returned? && o.trace[k].stage.value == inner.value)
  {
  }

  /** With no interceptors, `Run` is exactly the inner middleware's `Run`. */
  lemma EmptyDecoratorIsInner<W, P, R>(inner: Middleware<W, P, R>, w: W, parameter: P, next: Next<W, P, R>)
    ensures RunSpec(Decorator(inner, []), w, parameter, next).result == inner.run(w, parameter, next)
    ensures RunSpec(Decorator(inner, []), w, parameter, next).trace == [InnerRun(parameter)]
  {
  }
}
