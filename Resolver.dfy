/**
 * `InterceptorAwareMiddlewareResolver`: classifies the requested type, takes the base instance
 * from the service provider, asks the registry for the interceptor types bound to the requested
 * type, resolves each interceptor (provider first, construction as the fallback, silently
 * skipped when both fail) and wraps the base instance in a decorator over them.
 */
module Resolver {
  import opened Wrappers
  import opened Types
  import opened MiddlewareHelpers
  import opened Registry

  /** An object handed out by the provider; `implementation` is its runtime type. */
  datatype Instance = Instance(implementation: Type)

  /**
   * The scoped service provider: `services` answers `GetService`, and `constructible` holds the
   * types `ActivatorUtilities.CreateInstance` can build (any other type makes it throw).
   */
  datatype Provider = Provider(services: map<Type, Instance>, constructible: map<Type, Instance>)

  /** What `Decorate` returns: the base instance itself, or an `InterceptorMiddlewareDecorator<P, R>` over it. */
  datatype Resolved =
    | Undecorated(instance: Instance)
    | Decorated(inner: Instance, interceptors: seq<Instance>, parameterType: Type, returnType: Type)

  /** `MiddlewareResolverResult`: the middleware and whether the pipeline must dispose of it. */
  datatype ResolverResult = ResolverResult(middleware: Resolved, dispose: bool)

  /** `sp.GetService(t)`: null when nothing is registered for `t`. */
  function GetService(sp: Provider, t: Type): Option<Instance> {
    if t in sp.services then Some(sp.services[t]) else None
  }

  /** `ActivatorUtilities.CreateInstance(sp, t)`, with `None` for the exception it throws. */
  function CreateInstance(sp: Provider, t: Type): Option<Instance> {
    if t in sp.constructible then Some(sp.constructible[t]) else None
  }

  /**
   * The shape test of `Decorate`. An interface or generic type must be a constructed or open
   * `IAsyncMiddleware<,>` (asking a non-generic interface for its generic definition throws);
   * a plain class must implement a middleware interface and an `IAsyncMiddleware<,>`.
   */
  function DecorationCondition(t: Type): (r: Result<bool, Error>)
    ensures r.Failure? <==> t.isInterface && !t.IsGenericType()
    ensures r.Failure? ==> r.error == NotGenericType
    ensures (t.isInterface || t.IsGenericType()) && r.Success? ==> (r.value <==> IsAsyncMiddleware2(t))
    ensures !t.isInterface && !t.IsGenericType() ==>
              (r == Success(true) <==>
                 && (exists k :: 0 <= k < |t.interfaces| && IsMiddlewareType(t.interfaces[k]))
                 && (exists k :: 0 <= k < |t.interfaces| && IsAsyncMiddleware2(t.interfaces[k])))
  {
    if t.isInterface || t.IsGenericType() || t.IsGenericTypeDefinition() then
      if !t.IsGenericType() then Failure(NotGenericType)
      else Success(t.definition.value == AsyncMiddleware2)
    else
      Success(ImplementsMiddlewareInterface(t) && Any(t.interfaces, IsAsyncMiddleware2))
  }

  /**
   * `TryGetGenericArguments`: an interface's own generic arguments, otherwise those of the
   * first `IAsyncMiddleware<,>` the type implements (`First` throws when there is none).
   */
  function GenericArguments(t: Type): (r: Result<seq<Type>, Error>)
    ensures t.isInterface ==> r == Success(t.arguments)
    ensures !t.isInterface ==>
              (r.Success? <==> exists k :: 0 <= k < |t.interfaces| && IsAsyncMiddleware2(t.interfaces[k]))
    ensures !t.isInterface && r.Success? ==>
              exists k :: 0 <= k < |t.interfaces| && IsAsyncMiddleware2(t.interfaces[k]) &&
                          r.value == t.interfaces[k].arguments &&
                          forall j :: 0 <= j < k ==> !IsAsyncMiddleware2(t.interfaces[j])
    ensures r.Failure? ==> r.error == NoMatchingElement
  {
    if t.isInterface then Success(t.arguments)
    else
      match FirstIndex(t.interfaces, IsAsyncMiddleware2)
      case None => Failure(NoMatchingElement)
      case Some(k) => Success(t.interfaces[k].arguments)
  }

  /** `TryResolveMiddlewareFromProvider`: the registered instance, or an error instead of null. */
  function BaseMiddleware(sp: Provider, t: Type): (r: Result<Instance, Error>)
    ensures r.Success? <==> t in sp.services
    ensures r.Success? ==> r.value == sp.services[t]
    ensures r.Failure? ==> r.error == MiddlewareNotProvided
  {
    match GetService(sp, t)
    case None => Failure(MiddlewareNotProvided)
    case Some(x) => Success(x)
  }

  /** The instances a resolved-or-skipped interceptor contributes. */
  function Kept(x: Option<Instance>): seq<Instance> {
    if x.Some? then [x.value] else []
  }

  /**
   * One iteration of `ResolveInterceptors`. An open generic type is closed over `(p, r)` (which
   * throws unless it takes two type arguments) and looked up as the decorator interface
   * `IInterceptorMiddlewareDecorator<p, r>`; any other type is looked up as itself. When the
   * lookup finds nothing, the closed type is constructed, and a failed construction is skipped.
   */
  function ResolveOne(sp: Provider, t: Type, p: Type, r: Type): (x: Result<Option<Instance>, Error>)
    ensures x.Failure? <==> t.IsGenericTypeDefinition() && t.definition.value.arity != 2
    ensures x.Failure? ==> x.error == GenericArityMismatch
    ensures t.IsGenericTypeDefinition() && x.Success? && DecoratorInterfaceOf(p, r) in sp.services ==>
              x.value == Some(sp.services[DecoratorInterfaceOf(p, r)])
    ensures t.IsGenericTypeDefinition() && x.Success? && DecoratorInterfaceOf(p, r) !in sp.services ==>
              x.value == CreateInstance(sp, MakeGenericType(t, p, r).value)
    ensures !t.IsGenericTypeDefinition() && t in sp.services ==> x.value == Some(sp.services[t])
    ensures !t.IsGenericTypeDefinition() && t !in sp.services ==>
              x.value == (if t in sp.constructible then Some(sp.constructible[t]) else None)
  {
    if t.IsGenericTypeDefinition() then
      var concrete :- MakeGenericType(t, p, r);
      var found := GetService(sp, DecoratorInterfaceOf(p, r));
      Success(if found.Some? then found else CreateInstance(sp, concrete))
    else
      var found := GetService(sp, t);
      Success(if found.Some? then found else CreateInstance(sp, t))
  }

  /** The list `ResolveInterceptors` has built after the types `ts`, or the exception that ended it. */
  function ResolvedInterceptors(sp: Provider, ts: seq<Type>, p: Type, r: Type): Result<seq<Instance>, Error> {
    if ts == [] then Success([])
    else
      match ResolvedInterceptors(sp, ts[..|ts| - 1], p, r)
      case Failure(e) => Failure(e)
      case Success(done) =>
        match ResolveOne(sp, ts[|ts| - 1], p, r)
        case Failure(e) => Failure(e)
        case Success(one) => Success(done + Kept(one))
  }

  /** Two runs one after the other: the first exception wins, otherwise the lists are concatenated. */
  function Concat(x: Result<seq<Instance>, Error>, y: Result<seq<Instance>, Error>): Result<seq<Instance>, Error> {
    if x.Failure? then x
    else if y.Failure? then Failure(y.error)
    else Success(x.value + y.value)
  }

  /** The list one iteration contributes, or its exception. */
  function Single(x: Result<Option<Instance>, Error>): Result<seq<Instance>, Error> {
    match x
    case Failure(e) => Failure(e)
    case Success(o) => Success(Kept(o))
  }

  /** One more type: the loop so far, then that type's iteration. */
  lemma ResolvedSnoc(sp: Provider, ts: seq<Type>, t: Type, p: Type, r: Type)
    ensures ResolvedInterceptors(sp, ts + [t], p, r) == Concat(ResolvedInterceptors(sp, ts, p, r), Single(ResolveOne(sp, t, p, r)))
  {
    var s := ts + [t];
    assert s[..|s| - 1] == ts;
    assert s[|s| - 1] == t;
  }

  /** The loop throws exactly when some type is an open generic that does not take two type arguments. */
  lemma {:induction false} ResolvedFailure(sp: Provider, ts: seq<Type>, p: Type, r: Type)
    ensures ResolvedInterceptors(sp, ts, p, r).Failure? <==>
            exists k :: 0 <= k < |ts| && ts[k].IsGenericTypeDefinition() && ts[k].definition.value.arity != 2
    ensures ResolvedInterceptors(sp, ts, p, r).Failure? ==>
            ResolvedInterceptors(sp, ts, p, r).error == GenericArityMismatch
  {
    if ts != [] {
      var init := ts[..|ts| - 1];
      ResolvedFailure(sp, init, p, r);
      if exists k :: 0 <= k < |init| && init[k].IsGenericTypeDefinition() && init[k].definition.value.arity != 2 {
        var k :| 0 <= k < |init| && init[k].IsGenericTypeDefinition() && init[k].definition.value.arity != 2;
        assert ts[k] == init[k];
      }
      if exists k :: 0 <= k < |ts| && ts[k].IsGenericTypeDefinition() && ts[k].definition.value.arity != 2 {
        var k :| 0 <= k < |ts| && ts[k].IsGenericTypeDefinition() && ts[k].definition.value.arity != 2;
        if k < |ts| - 1 {
          assert init[k] == ts[k];
        }
      }
    }
  }

  /** Never more instances than types. */
  lemma {:induction false} ResolvedLength(sp: Provider, ts: seq<Type>, p: Type, r: Type)
    ensures ResolvedInterceptors(sp, ts, p, r).Success? ==> |ResolvedInterceptors(sp, ts, p, r).value| <= |ts|
  {
    if ts != [] {
      ResolvedLength(sp, ts[..|ts| - 1], p, r);
    }
  }

  /** A closed type that is neither provided nor constructible is skipped without a trace. */
  lemma {:induction false} ResolvedSkipsUnresolvable(sp: Provider, a: seq<Type>, t: Type, b: seq<Type>, p: Type, r: Type)
    requires !t.IsGenericTypeDefinition() && t !in sp.services && t !in sp.constructible
    ensures ResolvedInterceptors(sp, a + [t] + b, p, r) == ResolvedInterceptors(sp, a + b, p, r)
  {
    if b == [] {
      assert a + [t] + b == a + [t];
      assert a + b == a;
      ResolvedSnoc(sp, a, t, p, r);
      if ResolvedInterceptors(sp, a, p, r).Success? {
        assert ResolvedInterceptors(sp, a, p, r).value + [] == ResolvedInterceptors(sp, a, p, r).value;
      }
    } else {
      var init, last := b[..|b| - 1], b[|b| - 1];
      ResolvedSkipsUnresolvable(sp, a, t, init, p, r);
      assert a + [t] + b == (a + [t] + init) + [last];
      assert a + b == (a + init) + [last];
      ResolvedSnoc(sp, a + [t] + init, last, p, r);
      ResolvedSnoc(sp, a + init, last, p, r);
    }
  }

  /** When every type is closed and provided, the result lists their services one for one, in input order. */
  lemma {:induction false} ResolvedAllProvided(sp: Provider, ts: seq<Type>, p: Type, r: Type)
    requires forall k :: 0 <= k < |ts| ==> !ts[k].IsGenericTypeDefinition() && ts[k] in sp.services
    ensures ResolvedInterceptors(sp, ts, p, r).Success?
    ensures |ResolvedInterceptors(sp, ts, p, r).value| == |ts|
    ensures forall k :: 0 <= k < |ts| ==> ResolvedInterceptors(sp, ts, p, r).value[k] == sp.services[ts[k]]
  {
    if ts != [] {
      var init, last := ts[..|ts| - 1], ts[|ts| - 1];
      ResolvedAllProvided(sp, init, p, r);
      ResolvedSnoc(sp, init, last, p, r);
      assert init + [last] == ts;
      var done := ResolvedInterceptors(sp, init, p, r).value;
      assert ResolvedInterceptors(sp, ts, p, r).value == done + [sp.services[last]];
      forall k | 0 <= k < |ts|
        ensures ResolvedInterceptors(sp, ts, p, r).value[k] == sp.services[ts[k]]
      {
        if k < |init| {
          assert init[k] == ts[k];
        }
      }
    }
  }

  /** `ResolveInterceptors`: the loop over the interceptor types, adding each instance found, in order. */
  method ResolveInterceptors(sp: Provider, ts: seq<Type>, p: Type, r: Type) returns (result: Result<seq<Instance>, Error>)
    ensures result == ResolvedInterceptors(sp, ts, p, r)
  {
    var interceptors: seq<Instance> := [];
    var i := 0;
    while i < |ts|
      invariant 0 <= i <= |ts|
      invariant ResolvedInterceptors(sp, ts[..i], p, r) == Success(interceptors)
    {
      var t := ts[i];
      var concrete := t;
      var interceptor: Option<Instance>;
      if t.IsGenericTypeDefinition() {
        var made := MakeGenericType(t, p, r);
        if made.Failure? {
          ResolvedFailure(sp, ts, p, r);
          return Failure(made.error);
        }
        concrete := made.value;
        interceptor := GetService(sp, DecoratorInterfaceOf(p, r));
      } else {
        interceptor := GetService(sp, concrete);
      }
      var before := interceptors;
      var kept: Option<Instance> := interceptor;
      if interceptor.Some? {
        interceptors := interceptors + [interceptor.value];
      } else {
        var created := CreateInstance(sp, concrete);
        kept := created;
        if created.Some? {
          interceptors := interceptors + [created.value];
        }
      }
      assert ResolveOne(sp, t, p, r) == Success(kept);
      assert interceptors == before + Kept(kept);
      ResolvedSnoc(sp, ts[..i], t, p, r);
      assert ts[..i] + [t] == ts[..i + 1];
      i := i + 1;
    }
    assert ts[..i] == ts;
    return Success(interceptors);
  }

  /** What `Decorate` returns for the requested type, as a function of the provider and the registry. */
  function Decoration(sp: Provider, registry: InterceptorRegistry?, m: Type): (r: Result<Resolved, Error>)
    requires registry != null ==> registry.Valid()
    ensures r.Success? ==> DecorationCondition(m) == Success(true) && m in sp.services && registry != null
    ensures r.Success? ==> (r.value.Undecorated? <==> !registry.HasInterceptors(m))
    ensures r.Success? && r.value.Undecorated? ==> r.value.instance == sp.services[m]
    ensures r.Success? && r.value.Decorated? ==>
              && r.value.inner == sp.services[m]
              && GenericArguments(m) == Success([r.value.parameterType, r.value.returnType])
              && |r.value.interceptors| <= |registry.GetInterceptorsForMiddleware(m)|
              && ResolvedInterceptors(sp, registry.GetInterceptorsForMiddleware(m), r.value.parameterType, r.value.returnType)
                 == Success(r.value.interceptors)
    ensures DecorationCondition(m).Failure? ==> r == Failure(NotGenericType)
    ensures DecorationCondition(m) == Success(false) ==> r == Failure(UnsupportedMiddlewareShape)
    ensures DecorationCondition(m) == Success(true) && m !in sp.services ==> r == Failure(MiddlewareNotProvided)
    ensures DecorationCondition(m) == Success(true) && m in sp.services && registry == null ==>
              r == Failure(MissingRegistry)
    ensures DecorationCondition(m) == Success(true) && m in sp.services && registry != null &&
            !registry.HasInterceptors(m) ==>
              r == Success(Undecorated(sp.services[m]))
    ensures DecorationCondition(m) == Success(true) && m in sp.services && registry != null &&
            registry.HasInterceptors(m) && GenericArguments(m).Failure? ==>
              r == Failure(GenericArguments(m).error)
    ensures DecorationCondition(m) == Success(true) && m in sp.services && registry != null &&
            registry.HasInterceptors(m) && GenericArguments(m).Success? && |GenericArguments(m).value| != 2 ==>
              r == Failure(UnexpectedGenericArity)
    ensures DecorationCondition(m) == Success(true) && m in sp.services && registry != null &&
            registry.HasInterceptors(m) && GenericArguments(m).Success? && |GenericArguments(m).value| == 2 ==>
              var args := GenericArguments(m).value;
              var resolved := ResolvedInterceptors(sp, registry.GetInterceptorsForMiddleware(m), args[0], args[1]);
              && (resolved.Failure? ==> r == Failure(resolved.error))
              && (resolved.Success? ==> r == Success(Decorated(sp.services[m], resolved.value, args[0], args[1])))
    ensures r.Failure? ==> !r.error.NullArgument?
  {
    var accepted :- DecorationCondition(m);
    if !accepted then Failure(UnsupportedMiddlewareShape)
    else
      var middleware :- BaseMiddleware(sp, m);
      if registry == null then Failure(MissingRegistry)
      else if !registry.HasInterceptors(m) then Success(Undecorated(middleware))
      else
        var interceptorTypes := registry.GetInterceptorsForMiddleware(m);
        var args :- GenericArguments(m);
        if |args| != 2 then Failure(UnexpectedGenericArity)
        else
          assert args == [args[0], args[1]];
          ResolvedLength(sp, interceptorTypes, args[0], args[1]);
          ResolvedFailure(sp, interceptorTypes, args[0], args[1]);
          var resolved :- ResolvedInterceptors(sp, interceptorTypes, args[0], args[1]);
          Success(Decorated(middleware, resolved, args[0], args[1]))
  }

  /** `Decorate(sp, middlewareType)`: the shape guard, the base instance, the registry check, then the decorator. */
  method Decorate(sp: Provider, registry: InterceptorRegistry?, m: Type) returns (r: Result<Resolved, Error>)
    requires registry != null ==> registry.Valid()
    ensures r == Decoration(sp, registry, m)
  {
    var accepted := DecorationCondition(m);
    if accepted.Failure? {
      return Failure(accepted.error);
    }
    if !accepted.value {
      return Failure(UnsupportedMiddlewareShape);
    }
    var middleware := BaseMiddleware(sp, m);
    if middleware.Failure? {
      return Failure(middleware.error);
    }
    if registry == null {
      return Failure(MissingRegistry);
    }
    if !registry.HasInterceptors(m) {
      return Success(Undecorated(middleware.value));
    }
    var interceptorTypes := registry.GetInterceptorsForMiddleware(m);
    var args := GenericArguments(m);
    if args.Failure? {
      return Failure(args.error);
    }
    if |args.value| != 2 {
      return Failure(UnexpectedGenericArity);
    }
    var inputType, returnType := args.value[0], args.value[1];
    var resolved := ResolveInterceptors(sp, interceptorTypes, inputType, returnType);
    if resolved.Failure? {
      return Failure(resolved.error);
    }
    return Success(Decorated(middleware.value, resolved.value, inputType, returnType));
  }

  /** What `Resolve` returns for the requested type. */
  function Resolution(sp: Provider, registry: InterceptorRegistry?, t: Option<Type>): (r: Result<ResolverResult, Error>)
    requires registry != null ==> registry.Valid()
    ensures r == Failure(NullArgument("type")) <==>
            t.None? || (!IsMiddlewareType(t.value) && !ImplementsMiddlewareInterface(t.value))
    ensures r.Success? ==> !r.value.dispose && Decoration(sp, registry, t.value) == Success(r.value.middleware)
    ensures t.Some? && (IsMiddlewareType(t.value) || ImplementsMiddlewareInterface(t.value)) ==>
              (r.Success? <==> Decoration(sp, registry, t.value).Success?)
    ensures t.Some? && (IsMiddlewareType(t.value) || ImplementsMiddlewareInterface(t.value)) &&
            Decoration(sp, registry, t.value).Failure? ==>
              r == Failure(Decoration(sp, registry, t.value).error)
  {
    var checked :- NotNull(t);
    if !IsMiddlewareType(checked) && !ImplementsMiddlewareInterface(checked) then Failure(NullArgument("type"))
    else
      var middleware :- Decoration(sp, registry, checked);
      Success(ResolverResult(middleware, false))
  }

  /**
   * `Resolve(type)`: a type that is neither a middleware interface nor implements one leaves the
   * result null, which the final null guard rejects; otherwise the decorated middleware, not to be disposed.
   */
  method Resolve(sp: Provider, registry: InterceptorRegistry?, t: Option<Type>) returns (r: Result<ResolverResult, Error>)
    requires registry != null ==> registry.Valid()
    ensures r == Resolution(sp, registry, t)
  {
    if t.None? {
      return Failure(NullArgument("type"));
    }
    if !IsMiddlewareType(t.value) && !ImplementsMiddlewareInterface(t.value) {
      return Failure(NullArgument("type"));
    }
    var middleware := Decorate(sp, registry, t.value);
    if middleware.Failure? {
      return Failure(middleware.error);
    }
    return Success(ResolverResult(middleware.value, false));
  }
}
