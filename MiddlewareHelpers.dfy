/**
 * The type-shape predicates: which types are middleware interfaces, which are interceptor
 * interfaces, and which types implement one of them.
 */
module MiddlewareHelpers {
  import opened Wrappers
  import opened Types

  /** The nine middleware interface shapes the pipeline library declares. */
  const MiddlewareTypes: seq<GenericDefinition> := [
    GenericDefinition(Middleware, 1),
    GenericDefinition(AsyncMiddleware, 1),
    GenericDefinition(CancellableAsyncMiddleware, 1),
    GenericDefinition(Middleware, 2),
    GenericDefinition(AsyncMiddleware, 2),
    GenericDefinition(CancellableAsyncMiddleware, 2),
    GenericDefinition(Finally, 2),
    GenericDefinition(AsyncFinally, 2),
    GenericDefinition(CancellableAsyncFinally, 2)
  ]

  /** The interceptor interface shapes: only `IInterceptor<,>`. */
  const InterceptorTypes: seq<GenericDefinition> := [Interceptor2]

  /** A middleware shape, described without the table: a middleware family of arity one or two, or a finally family of arity two. */
  predicate IsPipelineShape(d: GenericDefinition) {
    match d.family
    case Middleware | AsyncMiddleware | CancellableAsyncMiddleware => d.arity == 1 || d.arity == 2
    case Finally | AsyncFinally | CancellableAsyncFinally => d.arity == 2
    case _ => false
  }

  /** The null guard every predicate starts with (`Guard.Against.Null(type, nameof(type))`). */
  function NotNull(t: Option<Type>): (r: Result<Type, Error>)
    ensures t.None? <==> r.Failure?
    ensures r.Failure? ==> r.error == NullArgument("type")
    ensures r.Success? ==> r.value == t.value
  {
    if t.None? then Failure(NullArgument("type")) else Success(t.value)
  }

  /** `IsMiddlewareType`: a generic interface whose definition is in the middleware table. */
  function IsMiddlewareType(t: Type): (b: bool)
    ensures !t.isInterface || !t.IsGenericType() ==> !b
    ensures b <==> t.isInterface && t.IsGenericType() && IsPipelineShape(t.definition.value)
  {
    if !t.isInterface || !t.IsGenericType() then false
    else t.definition.value in MiddlewareTypes
  }

  /** `IsInterceptorType`: the same test against the interceptor table. */
  function IsInterceptorType(t: Type): (b: bool)
    ensures b <==> t.isInterface && t.definition == Some(Interceptor2)
    ensures b ==> !IsMiddlewareType(t)
  {
    if !t.isInterface || !t.IsGenericType() then false
    else t.definition.value in InterceptorTypes
  }

  /** `ImplementsMiddlewareInterface`: some interface of `t` is a middleware interface. */
  function ImplementsMiddlewareInterface(t: Type): (b: bool)
    ensures b <==> exists k :: 0 <= k < |t.interfaces| && IsMiddlewareType(t.interfaces[k])
  {
    Any(t.interfaces, IsMiddlewareType)
  }

  /** `ImplementsInterceptor`: some interface of `t` is an interceptor interface. */
  function ImplementsInterceptor(t: Type): (b: bool)
    ensures b <==> exists k :: 0 <= k < |t.interfaces| && IsInterceptorType(t.interfaces[k])
  {
    Any(t.interfaces, IsInterceptorType)
  }
}
