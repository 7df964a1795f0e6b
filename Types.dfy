/**
 * Runtime types as the interceptor machinery sees them through reflection,
 * and the exceptions the machinery throws.
 */
module Types {
  import opened Wrappers

  /** The generic interface families that matter to the machinery; every other generic type is `Other`. */
  datatype Family =
    | Middleware                      // IMiddleware<> / IMiddleware<,>
    | AsyncMiddleware                 // IAsyncMiddleware<> / IAsyncMiddleware<,>
    | CancellableAsyncMiddleware      // ICancellableAsyncMiddleware<> / <,>
    | Finally                         // IFinally<,>
    | AsyncFinally                    // IAsyncFinally<,>
    | CancellableAsyncFinally         // ICancellableAsyncFinally<,>
    | Interceptor                     // IInterceptor<,>
    | InterceptorMiddlewareDecorator  // IInterceptorMiddlewareDecorator<,>
    | Other(name: string)

  /** A generic type definition (what `GetGenericTypeDefinition` returns): its family and arity. */
  datatype GenericDefinition = GenericDefinition(family: Family, arity: nat)

  /**
   * A type descriptor. `definition` is present exactly for generic types (`IsGenericType`);
   * `open` marks the generic type definition itself; `arguments` is `GetGenericArguments`
   * and `interfaces` is `GetInterfaces` (the interfaces a type implements, never itself).
   */
  datatype Type = Type(
    name: string,
    isInterface: bool,
    definition: Option<GenericDefinition>,
    open: bool,
    arguments: seq<Type>,
    interfaces: seq<Type>)
  {
    predicate IsGenericType() { definition.Some? }

    predicate IsGenericTypeDefinition() { definition.Some? && open }
  }

  /** The exceptions the machinery throws, by cause. */
  datatype Error =
    | NullArgument(parameter: string)   // ArgumentNullException from Guard.Against.Null
    | NotGenericType                    // InvalidOperationException from GetGenericTypeDefinition
    | NoMatchingElement                 // InvalidOperationException from Enumerable.First
    | GenericArityMismatch              // ArgumentException from MakeGenericType
    | IndexOutOfRange                   // IndexOutOfRangeException on a generic-argument array
    | UnsupportedMiddlewareShape        // ArgumentException: not an IAsyncMiddleware<,>
    | MiddlewareNotProvided             // ArgumentException: provider has no such middleware
    | UnexpectedGenericArity            // ArgumentException: not exactly two generic arguments
    | ServiceNotRegistered              // InvalidOperationException from GetRequiredService
    | NotAnInterceptor                  // ArgumentException: type is not a valid interceptor
    | MissingRegistry                   // NullReferenceException: no IInterceptorRegistry service
    | DecoratorConstructorNotFound      // MissingMethodException from Activator.CreateInstance

  const AsyncMiddleware2 := GenericDefinition(AsyncMiddleware, 2)
  const Interceptor2 := GenericDefinition(Interceptor, 2)
  const InterceptorMiddlewareDecorator2 := GenericDefinition(InterceptorMiddlewareDecorator, 2)

  /** `typeof(object)`, the key under which global interceptors are bound. */
  const ObjectType := Type("Object", false, None, false, [], [])

  /** `typeof(IInterceptor<p, r>)`. */
  function InterceptorOf(p: Type, r: Type): Type {
    Type("IInterceptor", true, Some(Interceptor2), false, [p, r], [])
  }

  /** `typeof(IInterceptorMiddlewareDecorator<p, r>)`, which extends `IInterceptor<p, r>`. */
  function DecoratorInterfaceOf(p: Type, r: Type): Type {
    Type("IInterceptorMiddlewareDecorator", true, Some(InterceptorMiddlewareDecorator2), false,
         [p, r], [InterceptorOf(p, r)])
  }

  /** `typeof(IAsyncMiddleware<p, r>)`. */
  function AsyncMiddlewareOf(p: Type, r: Type): Type {
    Type("IAsyncMiddleware", true, Some(AsyncMiddleware2), false, [p, r], [])
  }

  /** Is `t` a constructed or open `IAsyncMiddleware<,>`? */
  predicate IsAsyncMiddleware2(t: Type) {
    t.IsGenericType() && t.definition.value == AsyncMiddleware2
  }

  /**
   * `MakeGenericType(p, r)` on a generic type definition: it throws unless the definition
   * takes exactly two type parameters. The interfaces are kept as declared.
   */
  function MakeGenericType(t: Type, p: Type, r: Type): (c: Result<Type, Error>)
    requires t.IsGenericTypeDefinition()
    ensures c.Success? <==> t.definition.value.arity == 2
    ensures c.Success? ==> c.value.definition == t.definition && !c.value.IsGenericTypeDefinition()
    ensures c.Success? ==> c.value.arguments == [p, r] && c.value.name == t.name
  {
    if t.definition.value.arity != 2 then Failure(GenericArityMismatch)
    else Success(t.(open := false, arguments := [p, r]))
  }
}
