/**
 * The unit-test fixtures: `InterceptorCounter`, the interception contexts, `CountingInterceptor`
 * and `TestMiddleware`, as objects updated in place; the same effects as transformers of the
 * fixture's state, so that a decorated run can be followed through the decorator; and the
 * resolver set-up of the tests.
 */
module Fixtures {
  import opened Wrappers
  import opened Types
  import opened MiddlewareHelpers
  import opened MiddlewareConfiguration
  import opened Registry
  import opened Decorators
  import opened Resolver

  const IncomingType: Type := Type("IncomingInterceptionContext", false, None, false, [], [])
  const OutcomingType: Type := Type("OutcomingInterceptionContext", false, None, false, [], [])

  /** `typeof(CountingInterceptor)`: an `InterceptorBase<Incoming, Outcoming>`. */
  const CountingInterceptorType: Type :=
    Type("CountingInterceptor", false, None, false, [],
         [DecoratorInterfaceOf(IncomingType, OutcomingType), InterceptorOf(IncomingType, OutcomingType)])

  /** `typeof(TestMiddleware)`: an `IAsyncMiddleware<Incoming, Outcoming>`. */
  const TestMiddlewareType: Type :=
    Type("TestMiddleware", false, None, false, [], [AsyncMiddlewareOf(IncomingType, OutcomingType)])

  /** The two lists of an `IncomingInterceptionContext`. */
  datatype ContextState = ContextState(executedInterceptors: seq<Type>, executedMiddlewares: seq<Type>)

  /** What `CountingInterceptor.AfterRunAsync` does to the source context: its own type appended to the interceptors. */
  function RecordInterceptor(s: ContextState): ContextState {
    s.(executedInterceptors := s.executedInterceptors + [CountingInterceptorType])
  }

  /** What `TestMiddleware.Run` does to its parameter: its own type appended to the middlewares. */
  function RecordMiddleware(s: ContextState): ContextState {
    s.(executedMiddlewares := s.executedMiddlewares + [TestMiddlewareType])
  }

  /** `InterceptorCounter`: both counts start at 0. */
  class InterceptorCounter {
    var beforeRunCalled: int
    var afterRunCalled: int

    constructor ()
      ensures beforeRunCalled == 0 && afterRunCalled == 0
    {
      beforeRunCalled := 0;
      afterRunCalled := 0;
    }
  }

  /** `IncomingInterceptionContext`: two lists, both empty at first. */
  class IncomingInterceptionContext {
    var executedInterceptors: seq<Type>
    var executedMiddlewares: seq<Type>

    constructor ()
      ensures State() == ContextState([], [])
    {
      executedInterceptors := [];
      executedMiddlewares := [];
    }

    function State(): ContextState
      reads this
    {
      ContextState(executedInterceptors, executedMiddlewares)
    }
  }

  /** `OutcomingInterceptionContext`: the context it was produced from, null at first. */
  class OutcomingInterceptionContext {
    var sourceContext: IncomingInterceptionContext?

    constructor ()
      ensures sourceContext == null
    {
      sourceContext := null;
    }
  }

  /** `CountingInterceptor(interceptorCounter)`. */
  class CountingInterceptor {
    const counter: InterceptorCounter

    constructor (counter: InterceptorCounter)
      ensures this.counter == counter
    {
      this.counter := counter;
    }

    /** `BeforeRunAsync`: one more before call counted; the other count and the parameter are untouched. */
    method BeforeRunAsync(parameter: IncomingInterceptionContext?)
      modifies counter
      ensures counter.beforeRunCalled == old(counter.beforeRunCalled) + 1
      ensures counter.afterRunCalled == old(counter.afterRunCalled)
    {
      counter.beforeRunCalled := counter.beforeRunCalled + 1;
    }

    /**
     * `AfterRunAsync`: its own type appended once to the source context's interceptors, then one
     * more after call counted. A null parameter or source context throws before anything changes.
     */
    method AfterRunAsync(parameter: OutcomingInterceptionContext?) returns (fault: Option<Fault>)
      modifies counter, if parameter != null && parameter.sourceContext != null then {parameter.sourceContext} else {}
      ensures parameter == null || parameter.sourceContext == null ==>
                fault == Some(NullReference) && unchanged(counter)
      ensures parameter != null && parameter.sourceContext != null ==>
                && fault.None?
                && parameter.sourceContext.State() == RecordInterceptor(old(parameter.sourceContext.State()))
                && counter.afterRunCalled == old(counter.afterRunCalled) + 1
                && counter.beforeRunCalled == old(counter.beforeRunCalled)
    {
      if parameter == null || parameter.sourceContext == null {
        return Some(NullReference);
      }
      parameter.sourceContext.executedInterceptors := parameter.sourceContext.executedInterceptors + [CountingInterceptorType];
      counter.afterRunCalled := counter.afterRunCalled + 1;
      return None;
    }
  }

  /** `TestMiddleware(loggerFactory)`; the logger is not modelled. */
  class TestMiddleware {
    constructor ()
    {
    }

    /**
     * `Run(parameter, next)`: records itself in the parameter, awaits `next` once with the same
     * parameter and drops its result, and returns a new outgoing context whose source is the
     * parameter. `next` is given as whether its task throws; `nextCalls` lists its arguments.
     */
    method Run(parameter: IncomingInterceptionContext?, next: Option<IncomingInterceptionContext -> Option<Fault>>)
      returns (r: Result<OutcomingInterceptionContext, Fault>, nextCalls: seq<IncomingInterceptionContext>)
      modifies parameter
      ensures parameter == null ==> r == Failure(NullReference) && nextCalls == []
      ensures parameter != null ==> parameter.State() == RecordMiddleware(old(parameter.State()))
      ensures parameter != null && next.None? ==> r == Failure(NullReference) && nextCalls == []
      ensures parameter != null && next.Some? ==>
                && nextCalls == [parameter]
                && (next.value(parameter).Some? ==> r == Failure(next.value(parameter).value))
                && (next.value(parameter).None? ==> r.Success? && fresh(r.value) && r.value.sourceContext == parameter)
    {
      if parameter == null {
        return Failure(NullReference), [];
      }
      parameter.executedMiddlewares := parameter.executedMiddlewares + [TestMiddlewareType];
      if next.None? {
        return Failure(NullReference), [];
      }
      nextCalls := [parameter];
      var fault := next.value(parameter);
      if fault.Some? {
        return Failure(fault.value), nextCalls;
      }
      var outcoming := new OutcomingInterceptionContext();
      outcoming.sourceContext := parameter;
      r := Success(outcoming);
    }
  }

  /*
   * The same fixtures as transformers of the state the tests observe, for following a run
   * through the decorator: the shared counter and the one incoming context.
   */

  /** The counter's two counts and the incoming context's lists. */
  datatype World = World(beforeRunCalled: int, afterRunCalled: int, context: ContextState)

  /** The incoming context passed to `Run`; its lists live in the `World`. */
  datatype Incoming = Incoming

  /** An outgoing context: whether `SourceContext` is the incoming context or null. */
  datatype Outcoming = Outcoming(sourceContext: Option<Incoming>)

  /** A fresh counter and a fresh incoming context. */
  const Initial: World := World(0, 0, ContextState([], []))

  /** `CountingInterceptor`'s hooks on the world. */
  function Counting(): Interceptor<World, Incoming, Outcoming> {
    Decorators.Interceptor(
      (w: World, p: Incoming) => Completed(w.(beforeRunCalled := w.beforeRunCalled + 1)),
      (w: World, o: Outcoming) =>
        if o.sourceContext.None? then Faulted(w, NullReference)
        else Completed(w.(context := RecordInterceptor(w.context), afterRunCalled := w.afterRunCalled + 1)))
  }

  /** `TestMiddleware.Run` on the world. */
  function Testing(): Middleware<World, Incoming, Outcoming> {
    Decorators.Middleware((w: World, p: Incoming, next: Next<World, Incoming, Outcoming>) =>
      var recorded := w.(context := RecordMiddleware(w.context));
      if next.None? then Threw(recorded, NullReference)
      else
        match next.value(recorded, p)
        case Threw(w', f) => Threw(w', f)
        case Returned(w', _) => Returned(w', Outcoming(Some(p))))
  }

  /** The tests' continuation: a completed task with a new outgoing context whose source is null. */
  function Terminal(): Next<World, Incoming, Outcoming> {
    Some((w: World, p: Incoming) => Returned(w, Outcoming(None)))
  }

  /** The before hooks of `n` counting interceptors count `n` calls and change nothing else. */
  lemma {:induction false} CountingBeforeHooks(xs: seq<Interceptor<World, Incoming, Outcoming>>, i: nat, w: World)
    requires i <= |xs|
    requires forall k :: 0 <= k < |xs| ==> xs[k] == Counting()
    ensures RunHooks(xs, i, w, Before(Incoming)) == Phase(w.(beforeRunCalled := w.beforeRunCalled + |xs| - i), |xs|, None)
    decreases |xs| - i
  {
    if i < |xs| {
      CountingBeforeHooks(xs, i + 1, w.(beforeRunCalled := w.beforeRunCalled + 1));
    }
  }

  /** The after hooks of `n` counting interceptors each record once and count once. */
  lemma {:induction false} CountingAfterHooks(xs: seq<Interceptor<World, Incoming, Outcoming>>, i: nat, w: World)
    requires i <= |xs|
    requires forall k :: 0 <= k < |xs| ==> xs[k] == Counting()
    ensures var ph := RunHooks(xs, i, w, After(Outcoming(Some(Incoming))));
            && ph.ran == |xs| && ph.fault.None?
            && ph.world.beforeRunCalled == w.beforeRunCalled
            && ph.world.afterRunCalled == w.afterRunCalled + |xs| - i
            && ph.world.context.executedMiddlewares == w.context.executedMiddlewares
            && ph.world.context.executedInterceptors
               == w.context.executedInterceptors + seq(|xs| - i, _ => CountingInterceptorType)
    decreases |xs| - i
  {
    if i == |xs| {
      assert w.context.executedInterceptors + seq(0, _ => CountingInterceptorType) == w.context.executedInterceptors;
    } else {
      var w' := w.(context := RecordInterceptor(w.context), afterRunCalled := w.afterRunCalled + 1);
      CountingAfterHooks(xs, i + 1, w');
      assert [CountingInterceptorType] + seq(|xs| - (i + 1), _ => CountingInterceptorType)
             == seq(|xs| - i, _ => CountingInterceptorType);
    }
  }

  /**
   * `TestMiddleware` decorated with `n` counting interceptors, run once from a fresh state: each
   * hook counted once per interceptor, the middleware recorded once, and the result's source
   * is the incoming context.
   */
  lemma CountingDecoratorRun(n: nat)
    ensures var o := RunSpec(Decorator(Testing(), seq(n, _ => Counting())), Initial, Incoming, Terminal());
            && o.result.Returned?
            && o.result.value == Outcoming(Some(Incoming))
            && o.result.world.beforeRunCalled == n
            && o.result.world.afterRunCalled == n
            && o.result.world.context.executedInterceptors == seq(n, _ => CountingInterceptorType)
            && o.result.world.context.executedMiddlewares == [TestMiddlewareType]
  {
    var xs := seq(n, _ => Counting());
    CountingBeforeHooks(xs, 0, Initial);
    var afterBefore := Initial.(beforeRunCalled := n);
    var returned := Testing().run(afterBefore, Incoming, Terminal());
    assert returned == Returned(afterBefore.(context := RecordMiddleware(afterBefore.context)), Outcoming(Some(Incoming)));
    CountingAfterHooks(xs, 0, returned.world);
    assert [] + seq(n, _ => CountingInterceptorType) == seq(n, _ => CountingInterceptorType);
  }

  /**
   * The tests' scenario, one counting interceptor: `BeforeRunCalled`, `ExecutedInterceptors.Count`
   * and `ExecutedMiddlewares.Count` are all 1, in the order before hook, middleware, after hook.
   */
  lemma ShouldIntercept()
    ensures var o := RunSpec(Decorator(Testing(), [Counting()]), Initial, Incoming, Terminal());
            && o.result.Returned?
            && o.result.world.beforeRunCalled == 1
            && |o.result.world.context.executedInterceptors| == 1
            && |o.result.world.context.executedMiddlewares| == 1
            && o.trace == [Hook(0, Before(Incoming)), InnerRun(Incoming), Hook(0, After(Outcoming(Some(Incoming))))]
  {
    CountingDecoratorRun(1);
    assert seq(1, _ => Counting()) == [Counting()];
    RunOrder(Decorator(Testing(), [Counting()]), Initial, Incoming, Terminal());
  }

  /** The registered test middleware and counting interceptor instances. */
  const TestInstance: Instance := Instance(TestMiddlewareType)
  const CountingInstance: Instance := Instance(CountingInterceptorType)

  /**
   * The tests' container: the middleware as itself and as its interface, the interceptor as
   * itself and as its `IInterceptor<,>` interface (the only interfaces the assembly scan registers it under).
   */
  const TestProvider: Provider :=
    Provider(map[TestMiddlewareType := TestInstance,
                 AsyncMiddlewareOf(IncomingType, OutcomingType) := TestInstance,
                 CountingInterceptorType := CountingInstance,
                 InterceptorOf(IncomingType, OutcomingType) := CountingInstance],
             map[])

  /** The tests' single global configuration: every interceptor found in the test assembly, for `object`. */
  const TestConfigurations: seq<Configuration> := [Configuration(ObjectType, [CountingInterceptorType])]

  /** Both requested types pass the shape test and take their generic arguments from `IAsyncMiddleware<Incoming, Outcoming>`. */
  lemma TestMiddlewareShapes()
    ensures var io := AsyncMiddlewareOf(IncomingType, OutcomingType);
            && ImplementsMiddlewareInterface(TestMiddlewareType) && IsMiddlewareType(io)
            && DecorationCondition(TestMiddlewareType) == Success(true) && DecorationCondition(io) == Success(true)
            && GenericArguments(TestMiddlewareType) == Success([IncomingType, OutcomingType])
            && GenericArguments(io) == Success([IncomingType, OutcomingType])
  {
    var io := AsyncMiddlewareOf(IncomingType, OutcomingType);
    assert TestMiddlewareType.interfaces[0] == io;
    assert IsAsyncMiddleware2(io);
  }

  /** Under the global configuration every middleware type gets the counting interceptor. */
  lemma TestInterceptorTypes(registry: InterceptorRegistry, m: Type)
    requires registry.Valid() && registry.configurations == TestConfigurations && m != ObjectType
    ensures registry.GetInterceptorsForMiddleware(m) == [CountingInterceptorType]
  {
    assert Collected(TestConfigurations, ObjectType) == [CountingInterceptorType];
    assert Collected(TestConfigurations, m) == [];
  }

  /** The counting interceptor is resolved as its registered instance. */
  lemma TestInterceptorsResolved()
    ensures ResolvedInterceptors(TestProvider, [CountingInterceptorType], IncomingType, OutcomingType) == Success([CountingInstance])
  {
    assert [CountingInterceptorType][..0] == [];
    assert [] + Kept(Some(CountingInstance)) == [CountingInstance];
  }

  /**
   * Resolving the concrete test middleware and resolving its closed interface both give the
   * test middleware decorated with the counting interceptor, not to be disposed.
   */
  method ShouldResolveDecorated() returns (fromClass: Result<ResolverResult, Error>, fromInterface: Result<ResolverResult, Error>)
    ensures fromClass == Success(ResolverResult(Decorated(TestInstance, [CountingInstance], IncomingType, OutcomingType), false))
    ensures fromInterface == fromClass
  {
    var registry := new InterceptorRegistry(TestConfigurations);
    var io := AsyncMiddlewareOf(IncomingType, OutcomingType);
    TestMiddlewareShapes();
    TestInterceptorTypes(registry, TestMiddlewareType);
    TestInterceptorTypes(registry, io);
    TestInterceptorsResolved();
    fromClass := Resolve(TestProvider, registry, Some(TestMiddlewareType));
    fromInterface := Resolve(TestProvider, registry, Some(io));
  }

  /**
   * The decorator a resolved fixture middleware stands for: the test middleware instance behaves
   * as `Testing()`, each counting interceptor instance as `Counting()`; anything else has no
   * behaviour here.
   */
  function Behaviour(x: Resolved): (d: Option<Decorator<World, Incoming, Outcoming>>)
    ensures x.Decorated? && d.Some? ==> d.value == Decorator(Testing(), seq(|x.interceptors|, _ => Counting()))
    ensures x.Undecorated? && d.Some? ==> d.value == Decorator(Testing(), [])
    ensures d.Some? <==>
              (x.Undecorated? && x.instance == TestInstance) ||
              (x.Decorated? && x.inner == TestInstance &&
               forall k :: 0 <= k < |x.interceptors| ==> x.interceptors[k] == CountingInstance)
  {
    match x
    case Undecorated(i) => if i == TestInstance then Some(Decorator(Testing(), [])) else None
    case Decorated(i, xs, _, _) =>
      if i == TestInstance && forall k :: 0 <= k < |xs| ==> xs[k] == CountingInstance
      then Some(Decorator(Testing(), seq(|xs|, _ => Counting())))
      else None
  }

  /**
   * `ShouldInterceptBefore` end to end: the middleware `Resolve` returns for the test class, run
   * with a fresh incoming context and the tests' continuation, records one interceptor and one
   * middleware and counts one before call.
   */
  method ShouldInterceptBefore() returns (trace: seq<Event<Incoming, Outcoming>>, result: Returning<World, Outcoming>)
    ensures result.Returned?
    ensures result.value.sourceContext == Some(Incoming)
    ensures |result.world.context.executedInterceptors| == 1
    ensures |result.world.context.executedMiddlewares| == 1
    ensures result.world.beforeRunCalled == 1
    ensures trace == [Hook(0, Before(Incoming)), InnerRun(Incoming), Hook(0, After(Outcoming(Some(Incoming))))]
  {
    var resolved, _ := ShouldResolveDecorated();
    var decorator := Behaviour(resolved.value.middleware);
    assert seq(1, _ => Counting()) == [Counting()];
    trace, result := Run(decorator.value, Initial, Incoming, Terminal());
    CountingDecoratorRun(1);
    ShouldIntercept();
  }
}
