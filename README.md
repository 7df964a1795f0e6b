# PipelineNet interceptors — a Dafny model

This project models the interceptor machinery of the PipelineNet interceptors sample. The machinery does four things:

- It records which interceptor types apply to which middleware type. These are the configurations, the options builder and the registry.
- It chooses and orders the interceptors for a requested middleware. The resolver does this, and so does the alternative factory.
- It wraps the middleware in a decorator whose `Run` awaits the interceptors' before hooks, then the middleware, then the after hooks.
- It ships stock interceptors (the base no-op, pre-execution and post-execution) and `ActionMiddleware`.

The unit-test fixtures, `CountingInterceptor` and `TestMiddleware`, are modelled too. With them the end-to-end scenario the tests assert is proved. `Fixtures.Behaviour` maps each fixture instance to the behaviour it stands for. `Fixtures.ShouldInterceptBefore` then runs the middleware that `Resolve` returns, and the run counts one before call, one interceptor and one middleware.

Modelling choices:

- **Reflection.** A `Type` datatype stands in for it. A type carries:
  - its name;
  - whether it is an interface;
  - its generic definition, as a family and an arity;
  - whether it is the open definition;
  - its generic arguments;
  - the interfaces it implements.

  `MakeGenericType` closes an open definition and throws unless the definition takes two arguments.
- **The service provider.** It is a value with two partial maps. One answers `GetService`. The other holds the types `ActivatorUtilities.CreateInstance` can build.
- **Exceptions.** An exception is a `Failure` carrying an `Error` that names its cause.
- **Hooks and middlewares.** These are functions over a world `W`, standing for the heap they touch. An awaited call either completes in a new world or throws in the world it leaves.
- **The decorator.** `Decorators.Run` is a method with the two `foreach` loops. It records the calls it makes as a trace, and its result is proved equal to the function `RunSpec`.
- **Classes whose fields change.** The registry, the options builder, the counter, the interception contexts and the fixtures are Dafny classes. Their methods state the new state.

Modules:

- `Wrappers`, `Types`: option/result wrappers, first-match search, type descriptors and errors.
- `MiddlewareHelpers`: the type-shape predicates.
- `MiddlewareConfiguration`: the configuration record and the per-key collection of interceptor types.
- `Registry`: `InterceptorRegistry`.
- `OptionsBuilder`: `MiddlewareInterceptorOptionsBuilder`.
- `Decorators`: `InterceptorMiddlewareDecorator`.
- `Interceptors`: `InterceptorBase` and the pre-/post-execution interceptors.
- `ActionMiddlewares`: `ActionMiddleware`.
- `Resolver`: `InterceptorAwareMiddlewareResolver`.
- `Factory`: `MiddlewareFactory`.
- `Fixtures`: the unit-test fixtures and scenarios.

For an open generic interceptor type, the resolver looks up `IInterceptorMiddlewareDecorator<P, R>` rather than the type itself. The code's own comment expects the `AddInterceptor` methods to register every `InterceptorBase` implementation under all its interfaces, which include that one. This holds for `AddInterceptor` (MiddlewareServiceCollectionExtensions.cs:55-60), which registers every implemented interface. It does not hold for `AddInterceptorsFromAssemblies` (MiddlewareServiceCollectionExtensions.cs:271-276), which the tests use: that scan registers an interceptor only as itself and as its `IInterceptor<,>` interfaces. When the decorator interface is unregistered, the closed interceptor type is constructed instead. `Resolver.ResolveOne` states both cases as written.

## Model

Source paths are abbreviated below:

- `PipelineNet.InterceptorsFeatureSample/Middlewares` is the library.
- `PipelineNet.InterceptorsFeatureSample.UnitTests` is the tests.

The `source` column writes them out in full.

| member | source | states |
|---|---|---|
| Types.MakeGenericType | PipelineNet.InterceptorsFeatureSample/Middlewares/InterceptorMiddlewareResolver.cs:152-154 | Closing an open generic definition over `(p, r)` succeeds iff the definition takes exactly two type parameters. The closed type keeps the definition and name, has arguments `[p, r]` and is no longer open. |
| MiddlewareHelpers.NotNull | PipelineNet.InterceptorsFeatureSample/Middlewares/MiddlewareHelpers.cs:33 | The null guard fails iff the type is null, with an argument-null error for `type`; otherwise it passes the type through unchanged. |
| MiddlewareHelpers.IsMiddlewareType | PipelineNet.InterceptorsFeatureSample/Middlewares/MiddlewareHelpers.cs:31-40 | False for every non-interface or non-generic type. For a generic interface, true iff its definition is one of the nine pipeline shapes; these are described independently of the table as the middleware families of arity one or two plus the finally families of arity two. |
| MiddlewareHelpers.IsInterceptorType | PipelineNet.InterceptorsFeatureSample/Middlewares/MiddlewareHelpers.cs:45-54 | True iff the type is an interface whose generic definition is `IInterceptor<,>`; such a type is never a middleware type. |
| MiddlewareHelpers.ImplementsMiddlewareInterface | PipelineNet.InterceptorsFeatureSample/Middlewares/MiddlewareHelpers.cs:59-64 | True iff some interface of the type satisfies `IsMiddlewareType`. |
| MiddlewareHelpers.ImplementsInterceptor | PipelineNet.InterceptorsFeatureSample/Middlewares/MiddlewareHelpers.cs:69-74 | True iff some interface of the type satisfies `IsInterceptorType`. |
| MiddlewareConfiguration.NewConfiguration | PipelineNet.InterceptorsFeatureSample/Middlewares/MiddlewareConfiguration.cs:10-11 | The middleware type is kept unchanged and the given list is kept in order. A null list becomes the empty list, so the interceptor list is never null. |
| MiddlewareConfiguration.CollectedAppend | PipelineNet.InterceptorsFeatureSample/Middlewares/InterceptorRegistry.cs:24-36 | For any key, the interceptor types collected from two consecutive runs of configurations are the first run's list followed by the second's. |
| MiddlewareConfiguration.CollectedNonEmpty | PipelineNet.InterceptorsFeatureSample/Middlewares/InterceptorRegistry.cs:57-60 | The collected list for a key is non-empty iff some configuration naming that key has a non-empty list. |
| MiddlewareConfiguration.CollectedUnnamed | PipelineNet.InterceptorsFeatureSample/Middlewares/InterceptorRegistry.cs:42-45 | A key that no configuration names collects the empty list. |
| Registry.LookupGrouped | PipelineNet.InterceptorsFeatureSample/Middlewares/InterceptorRegistry.cs:24-36 | After the grouping loop, each key maps to the concatenation, in enumeration order, of the interceptor lists of every configuration naming it. A missing key reads as the empty list. |
| Registry.GroupedKeys | PipelineNet.InterceptorsFeatureSample/Middlewares/InterceptorRegistry.cs:24-36 | A key is in the dictionary iff at least one configuration names it. |
| Registry.RepeatedKeyAppends | PipelineNet.InterceptorsFeatureSample/Middlewares/InterceptorRegistry.cs:26-30 | A configuration for a key already present appends its list to the old one, keeping duplicates, and leaves every other key unchanged. |
| Registry.InterceptorRegistry.constructor | PipelineNet.InterceptorsFeatureSample/Middlewares/InterceptorRegistry.cs:15-37 | The grouping loop builds exactly the grouped dictionary of the configurations. The dictionary is a constant field, so queries never change it. |
| Registry.InterceptorRegistry.GetInterceptorsForMiddleware | PipelineNet.InterceptorsFeatureSample/Middlewares/InterceptorRegistry.cs:39-55 | Returns the global list (key `object`) followed by the middleware's own list, and its length is the sum of the two. A type no configuration names gets just the global list, never an error. Querying `object` itself returns the global list twice. |
| Registry.InterceptorRegistry.HasInterceptors | PipelineNet.InterceptorsFeatureSample/Middlewares/InterceptorRegistry.cs:57-60 | True iff the query result is non-empty, which holds iff some global or own configuration lists an interceptor. |
| Decorators.NewDecorator | PipelineNet.InterceptorsFeatureSample/Middlewares/Decorators/InterceptorMiddlewareDecorator.cs:35-44 | A null inner middleware is rejected first, then a null interceptor array. Otherwise the decorator holds both unchanged. |
| Decorators.RunHooksShape | PipelineNet.InterceptorsFeatureSample/Middlewares/Decorators/InterceptorMiddlewareDecorator.cs:50-56 | A hook loop that completes has started every hook; one that faults has started at least one and stopped at the faulting hook. |
| Decorators.FireHooks | PipelineNet.InterceptorsFeatureSample/Middlewares/Decorators/InterceptorMiddlewareDecorator.cs:50-51 | The awaited loop over the interceptors ends exactly as the hook-loop specification does. It records the calls to hooks 0, 1, … in interceptor order. |
| Decorators.Run | PipelineNet.InterceptorsFeatureSample/Middlewares/Decorators/InterceptorMiddlewareDecorator.cs:48-59 | The calls made and the result of `Run` are those of the decorator specification `RunSpec`, for every world, parameter and continuation. |
| Decorators.RunOrder | PipelineNet.InterceptorsFeatureSample/Middlewares/Decorators/InterceptorMiddlewareDecorator.cs:50-58 | When `Run` returns, it made exactly: before hooks 0..n-1, the inner call, then after hooks 0..n-1 in the same order, not reversed. That is 2n+1 calls. It returns exactly the value the inner middleware returned. |
| Decorators.FailFast | PipelineNet.InterceptorsFeatureSample/Middlewares/Decorators/InterceptorMiddlewareDecorator.cs:48-59 | The inner middleware runs iff every before hook completed. A failing before hook is the last call: later before hooks, the inner call and all after hooks are skipped. A failing after hook is the last call. Either way `Run` throws that fault. An inner call that throws ends the run: the trace is every before hook then the inner call, no after hook runs, and `Run` throws the inner fault. |
| Decorators.HooksSeeSameValues | PipelineNet.InterceptorsFeatureSample/Middlewares/Decorators/InterceptorMiddlewareDecorator.cs:50-56 | Every before hook receives the caller's parameter, and every after hook receives the inner middleware's result. The inner middleware is called once, with the caller's parameter, right after the last before hook. |
| Decorators.EmptyDecoratorIsInner | PipelineNet.InterceptorsFeatureSample/Middlewares/Decorators/InterceptorMiddlewareDecorator.cs:50-58 | With no interceptors, `Run` ends exactly as `inner.Run(parameter, next)` and makes only that call. |
| Interceptors.Base | PipelineNet.InterceptorsFeatureSample/Middlewares/Interceptors/InterceptorBase.cs:11-18 | Both base hooks complete at once and leave the world as it was. |
| Interceptors.BaseIsInert | PipelineNet.InterceptorsFeatureSample/Middlewares/Interceptors/InterceptorBase.cs:11-18 | The base interceptor is inert: both hooks are no-ops for every world and value. |
| Interceptors.InertHooksKeepWorld | PipelineNet.InterceptorsFeatureSample/Middlewares/Decorators/InterceptorMiddlewareDecorator.cs:50-56 | A hook loop over inert interceptors runs every hook and ends in the world it started in. |
| Interceptors.InertDecoratorIsTransparent | PipelineNet.InterceptorsFeatureSample/Middlewares/Decorators/InterceptorMiddlewareDecorator.cs:48-59 | Decorating with base-only interceptors leaves the inner call and its result unchanged: `Run` ends exactly as the inner middleware called in the caller's world. |
| Interceptors.RunEachShape | PipelineNet.InterceptorsFeatureSample/Middlewares/Interceptors/PreExecutionMiddlewareInterceptor.cs:21-22 | The auxiliary-middleware loop has started every middleware when it completes, and stopped at the first one that throws otherwise. |
| Interceptors.AwaitEach | PipelineNet.InterceptorsFeatureSample/Middlewares/Interceptors/PreExecutionMiddlewareInterceptor.cs:21-22 | Each auxiliary middleware is called once, in array order, with the hook's value and a null continuation. All of them are called when the loop completes; the calls stop after the first throw. |
| Interceptors.PreExecution | PipelineNet.InterceptorsFeatureSample/Middlewares/Interceptors/PreExecutionMiddlewareInterceptor.cs:14-25 | The before hook runs the pre-middlewares, discards their results and ends with the base no-op. The after hook stays the base no-op. The constructor's `inner` is never called. An empty array makes the interceptor inert. |
| Interceptors.PostExecution | PipelineNet.InterceptorsFeatureSample/Middlewares/Interceptors/PostExecutionMiddlewareInterceptor.cs:14-26 | The after hook, which takes a `TParameter`, runs the post-middlewares, discards their results and ends with the base no-op. The before hook stays the base no-op. `inner` is never called. An empty array makes the interceptor inert. |
| Interceptors.PreExecutionRunsFirst | PipelineNet.InterceptorsFeatureSample/Middlewares/Interceptors/PreExecutionMiddlewareInterceptor.cs:19-23 | In a decorator with one pre-execution interceptor, the pre-middlewares all run before the inner middleware, which runs in the world they left. If one throws, the inner middleware is not called. |
| ActionMiddlewares.Calls | PipelineNet.InterceptorsFeatureSample/Middlewares/ActionMiddleware.cs:19-23 | The action is invoked first. `next` follows exactly once, with the same parameter, iff the action returned. |
| ActionMiddlewares.RunAction | PipelineNet.InterceptorsFeatureSample/Middlewares/ActionMiddleware.cs:19-23 | The action runs exactly once, before `next`. `next` is called once with the same parameter, in the world the action left. A throwing action skips `next`, and a null `next` throws a null reference. |
| ActionMiddlewares.RunFunc | PipelineNet.InterceptorsFeatureSample/Middlewares/ActionMiddleware.cs:42-46 | Makes the same two calls, and the result is exactly `next`'s result. A throwing action's fault propagates. |
| ActionMiddlewares.ActionValueDiscarded | PipelineNet.InterceptorsFeatureSample/Middlewares/ActionMiddleware.cs:42-46 | The action's return value never reaches the caller: two actions that end in the same world give identical runs. |
| ActionMiddlewares.CreateAction | PipelineNet.InterceptorsFeatureSample/Middlewares/ActionMiddleware.cs:25 | `Create(action)` gives the middleware constructed with that action, so it runs identically. |
| ActionMiddlewares.CreateFunc | PipelineNet.InterceptorsFeatureSample/Middlewares/ActionMiddleware.cs:48-49 | `Create(action)` gives the middleware constructed with that action, so it runs identically. |
| OptionsBuilder.Rejection | PipelineNet.InterceptorsFeatureSample/Middlewares/MiddlewareServiceCollectionExtensions.cs:48-50 | A rejected type raises an argument-null error iff it is null (from the helper's guard), and "not a valid interceptor" iff it is non-null and implements no interceptor interface. |
| OptionsBuilder.Added | PipelineNet.InterceptorsFeatureSample/Middlewares/MiddlewareInterceptorOptionsBuilder.cs:23-26 | An accepted type ends up in the list. It is appended iff it was absent, nothing else enters, and a duplicate-free list stays duplicate-free. |
| OptionsBuilder.AddedAllExtends | PipelineNet.InterceptorsFeatureSample/Middlewares/MiddlewareInterceptorOptionsBuilder.cs:52-60 | Adding types in order keeps the old list as a prefix, grows it by at most one per type, and never introduces a duplicate. |
| OptionsBuilder.AddedAllContents | PipelineNet.InterceptorsFeatureSample/Middlewares/MiddlewareInterceptorOptionsBuilder.cs:52-60 | A type is in the resulting list iff it was there already or is one of the accepted types added. |
| OptionsBuilder.AddedAllPresent | PipelineNet.InterceptorsFeatureSample/Middlewares/MiddlewareInterceptorOptionsBuilder.cs:23 | Re-adding types that are all present already leaves the list unchanged. |
| OptionsBuilder.AddedAllIdempotent | PipelineNet.InterceptorsFeatureSample/Middlewares/MiddlewareInterceptorOptionsBuilder.cs:52-60 | Adding the same types a second time gives the same list as adding them once. |
| OptionsBuilder.MiddlewareInterceptorOptionsBuilder.constructor | PipelineNet.InterceptorsFeatureSample/Middlewares/MiddlewareInterceptorOptionsBuilder.cs:10-13 | A new builder holds its middleware type and an empty, valid list. |
| OptionsBuilder.MiddlewareInterceptorOptionsBuilder.AddInterceptor | PipelineNet.InterceptorsFeatureSample/Middlewares/MiddlewareInterceptorOptionsBuilder.cs:18-29 | A null or non-interceptor type is rejected with its error before the list changes. Otherwise the type is appended iff absent and the same builder is returned. The list stays a duplicate-free list of interceptors. |
| OptionsBuilder.MiddlewareInterceptorOptionsBuilder.AddInterceptors | PipelineNet.InterceptorsFeatureSample/Middlewares/MiddlewareInterceptorOptionsBuilder.cs:52-60 | Applies `AddInterceptor` to each type in array order and returns the same builder. The first rejected type ends the call with its error, keeping exactly the types added before it. |
| OptionsBuilder.MiddlewareInterceptorOptionsBuilder.AddLogging | PipelineNet.InterceptorsFeatureSample/Middlewares/MiddlewareInterceptorOptionsBuilder.cs:65-68 | Adds the open generic logging interceptor, which is always accepted, and returns the same builder. |
| OptionsBuilder.MiddlewareInterceptorOptionsBuilder.GetInterceptors | PipelineNet.InterceptorsFeatureSample/Middlewares/MiddlewareInterceptorOptionsBuilder.cs:73 | Returns the current list, which is duplicate-free. |
| OptionsBuilder.MiddlewareInterceptorOptionsBuilder.BuildConfiguration | PipelineNet.InterceptorsFeatureSample/Middlewares/MiddlewareInterceptorOptionsBuilder.cs:75-76 | Pairs the builder's middleware type with the list `GetInterceptors` returns, which is duplicate-free. |
| Resolver.DecorationCondition | PipelineNet.InterceptorsFeatureSample/Middlewares/InterceptorMiddlewareResolver.cs:72-82 | An interface or generic type passes iff its definition is `IAsyncMiddleware<,>`; a non-generic interface makes the check throw. A plain class passes iff it implements a middleware interface and an `IAsyncMiddleware<,>`. |
| Resolver.GenericArguments | PipelineNet.InterceptorsFeatureSample/Middlewares/InterceptorMiddlewareResolver.cs:121-126 | An interface gives its own generic arguments. A class gives those of the first `IAsyncMiddleware<,>` it implements, and throws iff it implements none. |
| Resolver.BaseMiddleware | PipelineNet.InterceptorsFeatureSample/Middlewares/InterceptorMiddlewareResolver.cs:128-137 | Returns the provider's instance iff one is registered; otherwise it raises an error rather than yielding null. |
| Resolver.ResolveOne | PipelineNet.InterceptorsFeatureSample/Middlewares/InterceptorMiddlewareResolver.cs:149-183 | An open generic throws iff it does not take two type arguments; otherwise it is looked up as `IInterceptorMiddlewareDecorator<P, R>`, and when that interface is unregistered the result is the construction of the closed type. A closed type is looked up as itself. Construction is the fallback, and a failed construction is skipped. |
| Resolver.ResolvedFailure | PipelineNet.InterceptorsFeatureSample/Middlewares/InterceptorMiddlewareResolver.cs:152-154 | The interceptor loop throws iff some type is an open generic that does not take two type arguments, and the error is the arity mismatch. |
| Resolver.ResolvedLength | PipelineNet.InterceptorsFeatureSample/Middlewares/InterceptorMiddlewareResolver.cs:145-186 | The loop never returns more instances than types. |
| Resolver.ResolvedSkipsUnresolvable | PipelineNet.InterceptorsFeatureSample/Middlewares/InterceptorMiddlewareResolver.cs:171-182 | A closed type that is neither provided nor constructible is skipped silently: inserting it anywhere leaves the result unchanged. |
| Resolver.ResolvedAllProvided | PipelineNet.InterceptorsFeatureSample/Middlewares/InterceptorMiddlewareResolver.cs:164-169 | When every type is closed and provided, the result lists their provided instances one for one, in input order. |
| Resolver.ResolveInterceptors | PipelineNet.InterceptorsFeatureSample/Middlewares/InterceptorMiddlewareResolver.cs:139-187 | The loop returns exactly the interceptor-list specification, whose order, length, skipping and failure properties are the lemmas above. |
| Resolver.Decoration | PipelineNet.InterceptorsFeatureSample/Middlewares/InterceptorMiddlewareResolver.cs:70-119 | Rejects a wrong shape, then a missing base instance, then a missing registry, each with its own error. Without interceptors for the requested type, the result is the undecorated base instance. With interceptors: a failed argument search, a count other than two, or a failed interceptor resolution is passed on as the error; otherwise the base instance is wrapped with the resolved interceptors, in order, over the two generic arguments. Every success arises this way. |
| Resolver.Decorate | PipelineNet.InterceptorsFeatureSample/Middlewares/InterceptorMiddlewareResolver.cs:70-119 | The method returns exactly `Decoration`. |
| Resolver.Resolution | PipelineNet.InterceptorsFeatureSample/Middlewares/InterceptorMiddlewareResolver.cs:41-66 | Fails with the argument-null error for `type` iff the type is null or is neither a middleware interface nor implements one. Otherwise it succeeds iff decoration does, with `Dispose = false` and the decorated middleware, and a failed decoration's own error is the one returned. |
| Resolver.Resolve | PipelineNet.InterceptorsFeatureSample/Middlewares/InterceptorMiddlewareResolver.cs:22-33 | The method returns exactly `Resolution`. |
| Factory.AsyncMiddlewareInterface | PipelineNet.InterceptorsFeatureSample/Middlewares/MiddlewareFactory.cs:53-54 | Finds nothing iff no interface is an `IAsyncMiddleware<,>`; otherwise it returns the first one. |
| Factory.ConcreteInterceptorType | PipelineNet.InterceptorsFeatureSample/Middlewares/MiddlewareFactory.cs:71-73 | Throws iff the type is an open generic that does not take two type arguments. A closed type is itself, and an open one is closed. |
| Factory.AsWrittenIgnoresInterceptorType | PipelineNet.InterceptorsFeatureSample/Middlewares/MiddlewareFactory.cs:68-85 | As written, the list is empty when the decorator interface is unregistered. Otherwise it is the decorator-interface instance repeated once per interceptor type. |
| Factory.AsWrittenCounterexample | PipelineNet.InterceptorsFeatureSample/Middlewares/MiddlewareFactory.cs:71-79 | Two registered interceptors A and B, with B also registered as the decorator interface: as written B's instance appears twice; looking each type up gives A's then B's. |
| Factory.AsWrittenFailure | PipelineNet.InterceptorsFeatureSample/Middlewares/MiddlewareFactory.cs:68-85 | As written, the loop throws iff some type is an open generic that does not take two type arguments. |
| Factory.GatheredFailure | PipelineNet.InterceptorsFeatureSample/Middlewares/MiddlewareFactory.cs:71-73 | The loop throws iff some type is an open generic that does not take two type arguments. |
| Factory.GatheredMatchesTypes | PipelineNet.InterceptorsFeatureSample/Middlewares/MiddlewareFactory.cs:68-85 | Only non-null lookups are kept, so the list is no longer than the types. When every type is registered, the k-th instance is the one registered for the k-th type. |
| Factory.Wrapping | PipelineNet.InterceptorsFeatureSample/Middlewares/MiddlewareFactory.cs:50-102 | Without an `IAsyncMiddleware<,>` interface, the base instance is returned unwrapped; fewer than two generic arguments give an index error. Otherwise a throwing loop passes its error on, and an empty list returns the base instance unwrapped. A non-empty list makes the decorator's construction from an `object[]` throw. So a success is always the unwrapped base instance. Each error has its own iff. The construction error occurs iff the interface has two arguments, the types are non-empty and all close, and the decorator interface is registered. |
| Factory.WrapWithInterceptors | PipelineNet.InterceptorsFeatureSample/Middlewares/MiddlewareFactory.cs:50-102 | The method returns exactly `Wrapping`. |
| Factory.Creation | PipelineNet.InterceptorsFeatureSample/Middlewares/MiddlewareFactory.cs:23-48 | Fails with the not-registered error iff the provider has no base instance. With no collected types, the base instance is returned unwrapped; otherwise the result is the as-written wrapping over the collected types. As written, a success is always the unwrapped base instance. |
| Factory.CreateIgnoresGlobal | PipelineNet.InterceptorsFeatureSample/Middlewares/MiddlewareFactory.cs:29-31 | Only configurations naming the requested type are merged: adding a global (`object`) configuration changes nothing. |
| Factory.Create | PipelineNet.InterceptorsFeatureSample/Middlewares/MiddlewareFactory.cs:23-48 | The method, whose loop merges the configurations, returns exactly `Creation`. |
| Factory.WrappingIntended | PipelineNet.InterceptorsFeatureSample/Middlewares/MiddlewareFactory.cs:50-102 | The corrected wrapping: the same decision over the corrected loop, with the decorator built from a typed interceptor array. A decorator gets the base instance and a non-empty list no longer than the types; when every type is registered, the k-th interceptor is the one registered for the k-th type. |
| Factory.ConstructionCounterexample | PipelineNet.InterceptorsFeatureSample/Middlewares/MiddlewareFactory.cs:92-99 | A middleware configured with one registered interceptor, with the decorator interface registered: as written `Create` fails with the constructor error, while the intended factory wraps it with that interceptor. |
| Factory.CreationIntended | PipelineNet.InterceptorsFeatureSample/Middlewares/MiddlewareFactory.cs:23-48 | The corrected creation: the same merge and errors, then the corrected wrapping. A decorator's list is non-empty and no longer than the collected types. |
| Fixtures.InterceptorCounter.constructor | PipelineNet.InterceptorsFeatureSample.UnitTests/Interceptors/CountingInterceptor.cs:6-11 | Both counts start at 0. |
| Fixtures.IncomingInterceptionContext.constructor | PipelineNet.InterceptorsFeatureSample.UnitTests/Interceptors/IncomingInterceptionContext.cs:6-11 | Both lists start empty. |
| Fixtures.OutcomingInterceptionContext.constructor | PipelineNet.InterceptorsFeatureSample.UnitTests/Middlewares/TestMiddleware.cs:26 | A new outgoing context has no source context until one is assigned. |
| Fixtures.CountingInterceptor.constructor | PipelineNet.InterceptorsFeatureSample.UnitTests/Interceptors/CountingInterceptor.cs:13-16 | Holds the counter it is given. |
| Fixtures.CountingInterceptor.BeforeRunAsync | PipelineNet.InterceptorsFeatureSample.UnitTests/Interceptors/CountingInterceptor.cs:18-22 | Increments the before count by exactly 1 and leaves the after count and the parameter unchanged. |
| Fixtures.CountingInterceptor.AfterRunAsync | PipelineNet.InterceptorsFeatureSample.UnitTests/Interceptors/CountingInterceptor.cs:24-29 | Appends exactly one entry, its own type, to the source context's interceptors. It increments the after count by 1 and leaves the before count unchanged. A null parameter or source context throws before anything changes. |
| Fixtures.TestMiddleware.Run | PipelineNet.InterceptorsFeatureSample.UnitTests/Middlewares/TestMiddleware.cs:18-27 | Appends exactly one entry, its own type, to the parameter's middlewares. It calls `next` once with the same parameter and discards its result, propagating its fault. It returns a fresh outgoing context whose source is the parameter. |
| Fixtures.CountingBeforeHooks | PipelineNet.InterceptorsFeatureSample.UnitTests/Interceptors/CountingInterceptor.cs:18-22 | The before hooks of n counting interceptors all complete, add n to the before count and change nothing else. |
| Fixtures.CountingAfterHooks | PipelineNet.InterceptorsFeatureSample.UnitTests/Interceptors/CountingInterceptor.cs:24-29 | The after hooks of n counting interceptors, on a result with a source, all complete. They append n copies of the interceptor type and add n to the after count. |
| Fixtures.CountingDecoratorRun | PipelineNet.InterceptorsFeatureSample.UnitTests/Middlewares/InterceptorAwareMiddlewareResolverTest.cs:39-47 | One run of the test middleware decorated with n counting interceptors, from fresh state: both counts are n, the interceptor type is recorded n times, the middleware once, and the result's source is the incoming context. |
| Fixtures.ShouldIntercept | PipelineNet.InterceptorsFeatureSample.UnitTests/Middlewares/InterceptorAwareMiddlewareResolverTest.cs:31-48 | The tests' scenario with one counting interceptor: the before count, interceptor count and middleware count are all 1. The calls are before hook, middleware, after hook. |
| Fixtures.TestMiddlewareShapes | PipelineNet.InterceptorsFeatureSample.UnitTests/Middlewares/InterceptorAwareMiddlewareResolverTest.cs:69-77 | Both the test middleware class and its closed `IAsyncMiddleware<Incoming, Outcoming>` interface pass the shape test. Both give the generic arguments `(Incoming, Outcoming)`. |
| Fixtures.TestInterceptorTypes | PipelineNet.InterceptorsFeatureSample/Middlewares/MiddlewareServiceCollectionExtensions.cs:255-267 | Under the tests' single global configuration, every middleware type gets exactly the counting interceptor. |
| Fixtures.TestInterceptorsResolved | PipelineNet.InterceptorsFeatureSample/Middlewares/InterceptorMiddlewareResolver.cs:164-169 | The counting interceptor resolves to its registered instance. |
| Fixtures.Behaviour | PipelineNet.InterceptorsFeatureSample.UnitTests/Middlewares/InterceptorAwareMiddlewareResolverTest.cs:33-41 | A resolved fixture middleware stands for a decorator iff its inner instance is the test middleware and every interceptor instance is the counting one. That decorator is `TestMiddleware` over one counting interceptor per instance. |
| Fixtures.ShouldInterceptBefore | PipelineNet.InterceptorsFeatureSample.UnitTests/Middlewares/InterceptorAwareMiddlewareResolverTest.cs:31-48 | The middleware resolved for the test class, run with a fresh context and the tests' continuation, returns a context sourced on the incoming one. It records one interceptor and one middleware, counts one before call, and calls before hook, middleware, after hook in that order. |
| Fixtures.ShouldResolveDecorated | PipelineNet.InterceptorsFeatureSample.UnitTests/Middlewares/InterceptorAwareMiddlewareResolverTest.cs:69-77 | Resolving the concrete test middleware and resolving its closed interface both give the test middleware decorated with the counting instance, with `Dispose = false`. |

## Findings

| source | as written | input that shows it | evidently intended | confidence | as-written member | corrected member |
|---|---|---|---|---|---|---|
| PipelineNet.InterceptorsFeatureSample/Middlewares/MiddlewareFactory.cs:71-79 | `concreteInterceptorType` is computed but never used. Every iteration looks up `IInterceptorMiddlewareDecorator<P, R>`, so each interceptor type contributes the same instance. | Types A and B are both registered, and the decorator interface is registered to B's instance. For a configuration listing [A, B], the loop gathers [B, B]. As written, `Create` then fails at the decorator's construction (next row), so [B, B] never reaches a decorator. | Each interceptor is looked up under its own concrete type, giving [A, B]. | not executed | Factory.AsWrittenCounterexample | Factory.WrappingIntended |
| PipelineNet.InterceptorsFeatureSample/Middlewares/MiddlewareFactory.cs:92-99 | The decorator is built with `Activator.CreateInstance(decoratorType, middleware, interceptors.ToArray())`. `interceptors` is a `List<object>`, so the argument is an `object[]`. The decorator's only two-type constructor takes `params IInterceptorMiddlewareDecorator<P, R>[]`, so no constructor matches and the call throws `MissingMethodException`. | A middleware `M` implementing `IAsyncMiddleware<Input, Output>`, configured with one interceptor `A`, with the decorator interface registered: `Create(M)` throws. | `M` wrapped in a decorator over the found interceptors, passed as a typed array. | not executed | Factory.ConstructionCounterexample | Factory.CreationIntended |

`Factory.GatheredAsWritten` is the as-written loop, and `Factory.AsWrittenIgnoresInterceptorType` proves the general form of the finding. `Factory.Wrapping`, `Factory.WrapWithInterceptors`, `Factory.Creation` and `Factory.Create` model the factory as written, including the failing construction: as written, the factory never returns a decorator. `Factory.Gathered` is the corrected loop, and `Factory.GatheredMatchesTypes` proves it looks each type up under its own concrete type. `Factory.WrappingIntended` and `Factory.CreationIntended` are the corrected factory built on it, which also builds the decorator from a typed array.

## Left out

- Dependency-injection registration and assembly scanning are not modelled. Configurations, the provider and the registry are given as inputs. Only two parts are kept:
  - the interceptor check that `AddInterceptor` forwards to, in `OptionsBuilder.Rejection`;
  - the global configuration the tests register, in `Fixtures.TestConfigurations`.
- Service scopes (`CreateScope`) and service lifetimes are container concerns and are not modelled.
- Logging, the logging interceptor's `Stopwatch`, and the unawaited `Task.Delay` in `TestMiddleware` are left out. They are I/O or timing with no effect on the modelled state. Only the logging interceptor's type is used, by `AddLogging`.
- Tasks are modelled as sequential awaited steps. There is no concurrency, and `ConfigureAwait`/scheduling are not modelled.
- `IInterceptorMiddlewareDecorator<P, R>` and `IAsyncMiddleware<P, R>` are datatypes holding their hook or `Run` functions, not interfaces. Dispatch on a runtime type is therefore not modelled.
- `MakeGenericType` does not substitute the type arguments into the interfaces of the closed type, and generic constraints are not checked.
- The resolver's typed array copy (`Array.Copy` into `IInterceptorMiddlewareDecorator<P, R>[]`) and `Activator.CreateInstance` of the decorator are not modelled. Resolved instances are not checked against the interface, so the cast exception the copy can raise is not modelled.
- The `middleware == null` branch of `TryResolveInternal` is not modelled: `Decorate` never returns null in the model.
- Null inputs that the program's own callers never pass are not modelled: null before or after interceptor arrays for the decorator, a null action in `ActionMiddleware`'s factory methods, a null `MiddlewareType` or null interceptor element in a configuration, and a null `middlewareType` given to `MiddlewareFactory.Create`. The model's sequences and types cannot be null.
- The resolver's constructor guard against a null service provider is not modelled. The provider is a value that cannot be null.
- The generic overloads `AddInterceptor<TInterceptor>()` and `AddInterceptor<TInterceptor, TParameter, TReturn>()` are exactly `AddInterceptor(typeof(TInterceptor))`, and have no member of their own. C# generic type parameters have no counterpart here.
- `MiddlewareFactory.Create<T>()` has no member of its own. It is `Create(typeof(T))` followed by a cast to `T`, and the cast is not modelled.
- A null `params` array passed to `AddInterceptors` is not modelled; the sequence of types is never null. Null elements are modelled.
- OutcomingInterceptionContext's own source file is not part of this model. Its single `SourceContext` property is taken from how `TestMiddleware` and `CountingInterceptor` use it.
- Fixtures.TestMiddleware.Run: `next` is modelled as a function from the context to an optional fault. The outgoing context it would return is discarded by the source, and its allocation is not modelled.
- `TestMiddleware`'s logger factory and `CountingInterceptor`'s registration in the container are not modelled.
- `InterceptorMiddlewareDecorator<TParameter>`, the one-type variant, is the type synonym `Decorators.SameTypeDecorator`. It has no behaviour of its own.
