/**
 * `MiddlewareFactory`: an alternative to the resolver. It takes the base instance with
 * `GetRequiredService`, merges the interceptor types of the configurations bound to exactly the
 * requested type (global configurations are not merged in), and wraps the instance in a
 * decorator over the interceptors it finds in the provider.
 */
module Factory {
  import opened Wrappers
  import opened Types
  import opened MiddlewareConfiguration
  import opened Resolver

  /** `GetInterfaces().FirstOrDefault(IsGenericType && definition == IAsyncMiddleware<,>)`. */
  function AsyncMiddlewareInterface(t: Type): (r: Option<Type>)
    ensures r.None? <==> forall k :: 0 <= k < |t.interfaces| ==> !IsAsyncMiddleware2(t.interfaces[k])
    ensures r.Some? ==> exists k :: 0 <= k < |t.interfaces| && t.interfaces[k] == r.value &&
                                    IsAsyncMiddleware2(r.value) &&
                                    forall j :: 0 <= j < k ==> !IsAsyncMiddleware2(t.interfaces[j])
  {
    match FirstIndex(t.interfaces, IsAsyncMiddleware2)
    case None => None
    case Some(k) => Some(t.interfaces[k])
  }

  /** `concreteInterceptorType`: an open generic closed over `(p, r)` (which throws unless it takes two type arguments), any other type itself. */
  function ConcreteInterceptorType(t: Type, p: Type, r: Type): (c: Result<Type, Error>)
    ensures c.Failure? <==> t.IsGenericTypeDefinition() && t.definition.value.arity != 2
    ensures c.Failure? ==> c.error == GenericArityMismatch
    ensures !t.IsGenericTypeDefinition() ==> c == Success(t)
    ensures c.Success? ==> !c.value.IsGenericTypeDefinition() || !t.IsGenericTypeDefinition()
  {
    if t.IsGenericTypeDefinition() then MakeGenericType(t, p, r) else Success(t)
  }

  /**
   * The interceptor list of `WrapWithInterceptors` as written: every iteration computes the
   * concrete type and then looks up `IInterceptorMiddlewareDecorator<p, r>`, whatever the
   * interceptor type was; only non-null lookups are kept.
   */
  function GatheredAsWritten(sp: Provider, ts: seq<Type>, p: Type, r: Type): Result<seq<Instance>, Error> {
    if ts == [] then Success([])
    else
      match GatheredAsWritten(sp, ts[..|ts| - 1], p, r)
      case Failure(e) => Failure(e)
      case Success(done) =>
        match ConcreteInterceptorType(ts[|ts| - 1], p, r)
        case Failure(e) => Failure(e)
        case Success(_) => Success(done + Kept(GetService(sp, DecoratorInterfaceOf(p, r))))
  }

  /** The interceptor list with each interceptor looked up under its own concrete type. */
  function Gathered(sp: Provider, ts: seq<Type>, p: Type, r: Type): Result<seq<Instance>, Error> {
    if ts == [] then Success([])
    else
      match Gathered(sp, ts[..|ts| - 1], p, r)
      case Failure(e) => Failure(e)
      case Success(done) =>
        match ConcreteInterceptorType(ts[|ts| - 1], p, r)
        case Failure(e) => Failure(e)
        case Success(concrete) => Success(done + Kept(GetService(sp, concrete)))
  }

  /**
   * As written, the lookup key does not depend on the interceptor type: the list is either empty
   * or one and the same instance repeated once per interceptor type.
   */
  lemma {:induction false} AsWrittenIgnoresInterceptorType(sp: Provider, ts: seq<Type>, p: Type, r: Type)
    requires GatheredAsWritten(sp, ts, p, r).Success?
    ensures var xs := GatheredAsWritten(sp, ts, p, r).value;
            && (DecoratorInterfaceOf(p, r) !in sp.services ==> xs == [])
            && (DecoratorInterfaceOf(p, r) in sp.services ==>
                  |xs| == |ts| && forall k :: 0 <= k < |xs| ==> xs[k] == sp.services[DecoratorInterfaceOf(p, r)])
  {
    if ts != [] {
      AsWrittenIgnoresInterceptorType(sp, ts[..|ts| - 1], p, r);
    }
  }

  /**
   * Two distinct registered interceptor types `A` and `B` with the decorator interface also
   * registered: as written the middleware gets the decorator-interface instance twice, and
   * neither `A`'s nor `B`'s own instance.
   */
  lemma AsWrittenCounterexample()
    ensures var p := Type("Input", false, None, false, [], []);
            var r := Type("Output", false, None, false, [], []);
            var a := Type("A", false, None, false, [], [DecoratorInterfaceOf(p, r)]);
            var b := Type("B", false, None, false, [], [DecoratorInterfaceOf(p, r)]);
            var sp := Provider(map[a := Instance(a), b := Instance(b), DecoratorInterfaceOf(p, r) := Instance(b)], map[]);
            && GatheredAsWritten(sp, [a, b], p, r) == Success([Instance(b), Instance(b)])
            && Gathered(sp, [a, b], p, r) == Success([Instance(a), Instance(b)])
  {
    var p := Type("Input", false, None, false, [], []);
    var r := Type("Output", false, None, false, [], []);
    var a := Type("A", false, None, false, [], [DecoratorInterfaceOf(p, r)]);
    var b := Type("B", false, None, false, [], [DecoratorInterfaceOf(p, r)]);
    var sp := Provider(map[a := Instance(a), b := Instance(b), DecoratorInterfaceOf(p, r) := Instance(b)], map[]);
    assert [a, b][..1] == [a];
    assert [a][..0] == [];
    assert GetService(sp, DecoratorInterfaceOf(p, r)) == Some(Instance(b));
    assert GetService(sp, a) == Some(Instance(a));
    assert [] + Kept(Some(Instance(b))) == [Instance(b)];
    assert [] + Kept(Some(Instance(a))) == [Instance(a)];
    assert [Instance(b)] + Kept(Some(Instance(b))) == [Instance(b), Instance(b)];
    assert [Instance(a)] + Kept(GetService(sp, b)) == [Instance(a), Instance(b)];
    assert GatheredAsWritten(sp, [a], p, r) == Success([Instance(b)]);
    assert Gathered(sp, [a], p, r) == Success([Instance(a)]);
  }

  /** As written, the loop throws exactly when some type is an open generic that does not take two type arguments. */
  lemma {:induction false} AsWrittenFailure(sp: Provider, ts: seq<Type>, p: Type, r: Type)
    ensures GatheredAsWritten(sp, ts, p, r).Failure? <==>
            exists k :: 0 <= k < |ts| && ts[k].IsGenericTypeDefinition() && ts[k].definition.value.arity != 2
    ensures GatheredAsWritten(sp, ts, p, r).Failure? ==> GatheredAsWritten(sp, ts, p, r).error == GenericArityMismatch
  {
    if ts != [] {
      var init := ts[..|ts| - 1];
      AsWrittenFailure(sp, init, p, r);
      if exists k :: 0 <= k < |init| && init[k].IsGenericTypeDefinition() && init[k].definition.value.arity != 2 {
        var k :| 0 <= k < |init| && init[k].IsGenericTypeDefinition() && init[k].definition.value.arity != 2;
        assert ts[k] == init[k];
      }
      if exists k :: 0 <= k < |ts| && ts[k].IsGenericTypeDefinition() && ts[k].definition.value.arity != 2 {
        var k :| 0 <= k < |ts| && ts[k].IsGenericTypeDefinition() && ts[k].definition.value.arity != 2;
        if k < |ts| - 1 {
          assert init[k] == ts[k];
        }
      }
    }
  }

  /** One more interceptor type, as written: the loop so far, then the decorator-interface lookup. */
  lemma AsWrittenSnoc(sp: Provider, ts: seq<Type>, t: Type, p: Type, r: Type)
    requires GatheredAsWritten(sp, ts, p, r).Success? && ConcreteInterceptorType(t, p, r).Success?
    ensures GatheredAsWritten(sp, ts + [t], p, r)
            == Success(GatheredAsWritten(sp, ts, p, r).value + Kept(GetService(sp, DecoratorInterfaceOf(p, r))))
  {
    var s := ts + [t];
    assert s[..|s| - 1] == ts;
    assert s[|s| - 1] == t;
  }

  /**
   * What `WrapWithInterceptors` does. With no `IAsyncMiddleware<,>` interface, or when no
   * interceptor was found, it returns the base instance itself. Otherwise it asks
   * `Activator.CreateInstance` for the decorator, passing the found interceptors as an untyped
   * `object[]`; the decorator's only constructor takes them as `IInterceptorMiddlewareDecorator<P, R>[]`,
   * so no constructor matches and the call throws.
   */
  function Wrapping(sp: Provider, middleware: Instance, m: Type, ts: seq<Type>): (w: Result<Resolved, Error>)
    ensures AsyncMiddlewareInterface(m).None? ==> w == Success(Undecorated(middleware))
    ensures AsyncMiddlewareInterface(m).Some? && |AsyncMiddlewareInterface(m).value.arguments| < 2 ==>
              w == Failure(IndexOutOfRange)
    ensures AsyncMiddlewareInterface(m).Some? && |AsyncMiddlewareInterface(m).value.arguments| >= 2 ==>
              var args := AsyncMiddlewareInterface(m).value.arguments;
              var found := GatheredAsWritten(sp, ts, args[0], args[1]);
              && (found.Failure? ==> w == Failure(found.error))
              && (found == Success([]) ==> w == Success(Undecorated(middleware)))
              && (found.Success? && found.value != [] ==> w == Failure(DecoratorConstructorNotFound))
    ensures w.Success? ==> w == Success(Undecorated(middleware))
    ensures w == Failure(IndexOutOfRange) <==>
              AsyncMiddlewareInterface(m).Some? && |AsyncMiddlewareInterface(m).value.arguments| < 2
    ensures w == Failure(GenericArityMismatch) <==>
              AsyncMiddlewareInterface(m).Some? && |AsyncMiddlewareInterface(m).value.arguments| >= 2 &&
              exists k :: 0 <= k < |ts| && ts[k].IsGenericTypeDefinition() && ts[k].definition.value.arity != 2
    ensures w == Failure(DecoratorConstructorNotFound) <==>
              AsyncMiddlewareInterface(m).Some? && |AsyncMiddlewareInterface(m).value.arguments| >= 2 &&
              ts != [] &&
              DecoratorInterfaceOf(AsyncMiddlewareInterface(m).value.arguments[0],
                                   AsyncMiddlewareInterface(m).value.arguments[1]) in sp.services &&
              forall k :: 0 <= k < |ts| ==> !(ts[k].IsGenericTypeDefinition() && ts[k].definition.value.arity != 2)
    ensures w.Failure? ==>
              w.error == IndexOutOfRange || w.error == GenericArityMismatch || w.error == DecoratorConstructorNotFound
  {
    match AsyncMiddlewareInterface(m)
    case None => Success(Undecorated(middleware))
    case Some(iface) =>
      if |iface.arguments| < 2 then Failure(IndexOutOfRange)
      else
        var p, r := iface.arguments[0], iface.arguments[1];
        AsWrittenFailure(sp, ts, p, r);
        match GatheredAsWritten(sp, ts, p, r)
        case Failure(e) => Failure(e)
        case Success(xs) =>
          AsWrittenIgnoresInterceptorType(sp, ts, p, r);
          if xs == [] then Success(Undecorated(middleware)) else Failure(DecoratorConstructorNotFound)
  }

  /**
   * `WrapWithInterceptors`: find the `IAsyncMiddleware<,>` interface, then for each interceptor type
   * compute its concrete type and look up `IInterceptorMiddlewareDecorator<P, R>`; when any was
   * found, the decorator's construction from an `object[]` throws.
   */
  method WrapWithInterceptors(sp: Provider, middleware: Instance, m: Type, ts: seq<Type>) returns (w: Result<Resolved, Error>)
    ensures w == Wrapping(sp, middleware, m, ts)
  {
    var iface := AsyncMiddlewareInterface(m);
    if iface.None? {
      return Success(Undecorated(middleware));
    }
    var args := iface.value.arguments;
    if |args| < 2 {
      return Failure(IndexOutOfRange);
    }
    var p, r := args[0], args[1];
    var interceptors: seq<Instance> := [];
    var i := 0;
    while i < |ts|
      invariant 0 <= i <= |ts|
      invariant GatheredAsWritten(sp, ts[..i], p, r) == Success(interceptors)
    {
      var concrete := ConcreteInterceptorType(ts[i], p, r);
      if concrete.Failure? {
        AsWrittenFailure(sp, ts, p, r);
        return Failure(concrete.error);
      }
      var interceptor := GetService(sp, DecoratorInterfaceOf(p, r));
      AsWrittenSnoc(sp, ts[..i], ts[i], p, r);
      assert ts[..i] + [ts[i]] == ts[..i + 1];
      if interceptor.Some? {
        interceptors := interceptors + [interceptor.value];
      } else {
        assert interceptors + [] == interceptors;
      }
      i := i + 1;
    }
    assert ts[..i] == ts;
    if interceptors == [] {
      return Success(Undecorated(middleware));
    }
    return Failure(DecoratorConstructorNotFound);
  }

  /** What `Create(middlewareType)` returns, given the registered configurations in enumeration order. */
  function Creation(sp: Provider, cs: seq<Configuration>, m: Type): (c: Result<Resolved, Error>)
    ensures c == Failure(ServiceNotRegistered) <==> m !in sp.services
    ensures m in sp.services && Collected(cs, m) == [] ==> c == Success(Undecorated(sp.services[m]))
    ensures m in sp.services && Collected(cs, m) != [] ==> c == Wrapping(sp, sp.services[m], m, Collected(cs, m))
    ensures c.Success? ==> c == Success(Undecorated(sp.services[m]))
  {
    if m !in sp.services then Failure(ServiceNotRegistered)
    else
      var all := Collected(cs, m);
      if all == [] then Success(Undecorated(sp.services[m]))
      else Wrapping(sp, sp.services[m], m, all)
  }

  /** Global configurations (bound to `object`) are not merged in: adding one changes nothing for another type. */
  lemma CreateIgnoresGlobal(sp: Provider, cs: seq<Configuration>, global: seq<Type>, m: Type)
    requires m != ObjectType
    ensures Creation(sp, cs + [Configuration(ObjectType, global)], m) == Creation(sp, cs, m)
  {
    CollectedAppend(cs, [Configuration(ObjectType, global)], m);
    assert Collected(cs, m) + [] == Collected(cs, m);
  }

  /** `Create(middlewareType)`: the required base instance, the merged interceptor types, then the wrapping. */
  method Create(sp: Provider, cs: seq<Configuration>, m: Type) returns (c: Result<Resolved, Error>)
    ensures c == Creation(sp, cs, m)
  {
    if m !in sp.services {
      return Failure(ServiceNotRegistered);
    }
    var middleware := sp.services[m];
    var all: seq<Type> := [];
    var i := 0;
    while i < |cs|
      invariant 0 <= i <= |cs|
      invariant all == Collected(cs[..i], m)
    {
      CollectedAppend(cs[..i], [cs[i]], m);
      assert cs[..i] + [cs[i]] == cs[..i + 1];
      if cs[i].middlewareType == m {
        all := all + cs[i].interceptorTypes;
      } else {
        assert all + [] == all;
      }
      i := i + 1;
    }
    assert cs[..i] == cs;
    if all == [] {
      return Success(Undecorated(middleware));
    }
    c := WrapWithInterceptors(sp, middleware, m, all);
  }

  /*
   * The evidently intended factory: each interceptor looked up under its own concrete type.
   */

  /** The corrected loop throws exactly when some type is an open generic that does not take two type arguments. */
  lemma {:induction false} GatheredFailure(sp: Provider, ts: seq<Type>, p: Type, r: Type)
    ensures Gathered(sp, ts, p, r).Failure? <==>
            exists k :: 0 <= k < |ts| && ts[k].IsGenericTypeDefinition() && ts[k].definition.value.arity != 2
    ensures Gathered(sp, ts, p, r).Failure? ==> Gathered(sp, ts, p, r).error == GenericArityMismatch
  {
    if ts != [] {
      var init := ts[..|ts| - 1];
      GatheredFailure(sp, init, p, r);
      if exists k :: 0 <= k < |init| && init[k].IsGenericTypeDefinition() && init[k].definition.value.arity != 2 {
        var k :| 0 <= k < |init| && init[k].IsGenericTypeDefinition() && init[k].definition.value.arity != 2;
        assert ts[k] == init[k];
      }
      if exists k :: 0 <= k < |ts| && ts[k].IsGenericTypeDefinition() && ts[k].definition.value.arity != 2 {
        var k :| 0 <= k < |ts| && ts[k].IsGenericTypeDefinition() && ts[k].definition.value.arity != 2;
        if k < |ts| - 1 {
          assert init[k] == ts[k];
        }
      }
    }
  }

  /** The instance one corrected iteration keeps: the service registered for the concrete type, if the type closes. */
  function Lookup(sp: Provider, t: Type, p: Type, r: Type): Option<Instance> {
    match ConcreteInterceptorType(t, p, r)
    case Failure(_) => None
    case Success(concrete) => GetService(sp, concrete)
  }

  /**
   * Each kept instance is the service registered for its own interceptor's concrete type, in
   * the order of the interceptor types, and a type with no registration is dropped.
   */
  lemma {:induction false} GatheredMatchesTypes(sp: Provider, ts: seq<Type>, p: Type, r: Type)
    requires Gathered(sp, ts, p, r).Success?
    ensures |Gathered(sp, ts, p, r).value| <= |ts|
    ensures (forall k :: 0 <= k < |ts| ==> Lookup(sp, ts[k], p, r).Some?) ==>
              |Gathered(sp, ts, p, r).value| == |ts| &&
              forall k :: 0 <= k < |ts| ==> Some(Gathered(sp, ts, p, r).value[k]) == Lookup(sp, ts[k], p, r)
  {
    if ts != [] {
      var init, last := ts[..|ts| - 1], ts[|ts| - 1];
      GatheredMatchesTypes(sp, init, p, r);
      var done := Gathered(sp, init, p, r).value;
      if forall k :: 0 <= k < |ts| ==> Lookup(sp, ts[k], p, r).Some? {
        assert forall k :: 0 <= k < |init| ==> init[k] == ts[k];
        assert Gathered(sp, ts, p, r).value == done + [Lookup(sp, last, p, r).value];
      }
    }
  }

  /**
   * The intended `WrapWithInterceptors`: the same decision over the corrected loop, with the
   * decorator built from the found interceptors as a typed `IInterceptorMiddlewareDecorator<P, R>[]`.
   */
  function WrappingIntended(sp: Provider, middleware: Instance, m: Type, ts: seq<Type>): (w: Result<Resolved, Error>)
    ensures AsyncMiddlewareInterface(m).None? ==> w == Success(Undecorated(middleware))
    ensures AsyncMiddlewareInterface(m).Some? && |AsyncMiddlewareInterface(m).value.arguments| < 2 ==>
              w == Failure(IndexOutOfRange)
    ensures AsyncMiddlewareInterface(m).Some? && |AsyncMiddlewareInterface(m).value.arguments| >= 2 ==>
              var args := AsyncMiddlewareInterface(m).value.arguments;
              var found := Gathered(sp, ts, args[0], args[1]);
              && (found.Failure? ==> w == Failure(found.error))
              && (found == Success([]) ==> w == Success(Undecorated(middleware)))
              && (found.Success? && found.value != [] ==> w == Success(Decorated(middleware, found.value, args[0], args[1])))
    ensures w.Success? && w.value.Decorated? ==>
              && w.value.inner == middleware
              && 0 < |w.value.interceptors| <= |ts|
              && ((forall k :: 0 <= k < |ts| ==> Lookup(sp, ts[k], w.value.parameterType, w.value.returnType).Some?) ==>
                    |w.value.interceptors| == |ts| &&
                    forall k :: 0 <= k < |ts| ==>
                      Some(w.value.interceptors[k]) == Lookup(sp, ts[k], w.value.parameterType, w.value.returnType))
    ensures w.Success? && w.value.Undecorated? ==> w.value.instance == middleware
    ensures w.Failure? ==> w.error == IndexOutOfRange || w.error == GenericArityMismatch
  {
    match AsyncMiddlewareInterface(m)
    case None => Success(Undecorated(middleware))
    case Some(iface) =>
      if |iface.arguments| < 2 then Failure(IndexOutOfRange)
      else
        var p, r := iface.arguments[0], iface.arguments[1];
        GatheredFailure(sp, ts, p, r);
        match Gathered(sp, ts, p, r)
        case Failure(e) => Failure(e)
        case Success(xs) =>
          GatheredMatchesTypes(sp, ts, p, r);
          if xs == [] then Success(Undecorated(middleware)) else Success(Decorated(middleware, xs, p, r))
  }

  /** The intended `Create(middlewareType)`: the same merge, then the corrected wrapping. */
  function CreationIntended(sp: Provider, cs: seq<Configuration>, m: Type): (c: Result<Resolved, Error>)
    ensures c == Failure(ServiceNotRegistered) <==> m !in sp.services
    ensures m in sp.services && Collected(cs, m) == [] ==> c == Success(Undecorated(sp.services[m]))
    ensures m in sp.services && Collected(cs, m) != [] ==> c == WrappingIntended(sp, sp.services[m], m, Collected(cs, m))
    ensures c.Success? && c.value.Decorated? ==>
              c.value.inner == sp.services[m] && 0 < |c.value.interceptors| <= |Collected(cs, m)|
  {
    if m !in sp.services then Failure(ServiceNotRegistered)
    else
      var all := Collected(cs, m);
      if all == [] then Success(Undecorated(sp.services[m]))
      else WrappingIntended(sp, sp.services[m], m, all)
  }

  /**
   * A middleware `M` implementing `IAsyncMiddleware<Input, Output>`, configured with one registered
   * interceptor `A`: as written `Create` throws when it constructs the decorator, while the
   * intended factory wraps `M` with `A`.
   */
  lemma ConstructionCounterexample()
    ensures var p := Type("Input", false, None, false, [], []);
            var r := Type("Output", false, None, false, [], []);
            var a := Type("A", false, None, false, [], [DecoratorInterfaceOf(p, r)]);
            var mt := Type("M", false, None, false, [], [AsyncMiddlewareOf(p, r)]);
            var sp := Provider(map[mt := Instance(mt), a := Instance(a), DecoratorInterfaceOf(p, r) := Instance(a)], map[]);
            var cs := [Configuration(mt, [a])];
            && Creation(sp, cs, mt) == Failure(DecoratorConstructorNotFound)
            && CreationIntended(sp, cs, mt) == Success(Decorated(Instance(mt), [Instance(a)], p, r))
  {
    var p := Type("Input", false, None, false, [], []);
    var r := Type("Output", false, None, false, [], []);
    var a := Type("A", false, None, false, [], [DecoratorInterfaceOf(p, r)]);
    var mt := Type("M", false, None, false, [], [AsyncMiddlewareOf(p, r)]);
    var sp := Provider(map[mt := Instance(mt), a := Instance(a), DecoratorInterfaceOf(p, r) := Instance(a)], map[]);
    var cs := [Configuration(mt, [a])];
    assert Collected(cs, mt) == [a] by {
      assert cs[1..] == [];
      assert [a] + [] == [a];
    }
    assert IsAsyncMiddleware2(mt.interfaces[0]);
    assert AsyncMiddlewareInterface(mt) == Some(AsyncMiddlewareOf(p, r));
    assert [a][..0] == [];
    assert [] + Kept(Some(Instance(a))) == [Instance(a)];
    assert GatheredAsWritten(sp, [a], p, r) == Success([Instance(a)]);
    assert Gathered(sp, [a], p, r) == Success([Instance(a)]);
  }
}
