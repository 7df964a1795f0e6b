/**
 * The per-middleware options builder: collects interceptor types for one middleware type,
 * each at most once and in first-insertion order, and turns them into a configuration.
 */
module OptionsBuilder {
  import opened Wrappers
  import opened Types
  import opened MiddlewareHelpers
  import opened MiddlewareConfiguration

  /** A generic type parameter such as `TParameter`. */
  function GenericParameter(name: string): Type {
    Type(name, false, None, false, [], [])
  }

  /**
   * `typeof(LoggingMiddlewareInterceptor<,>)`: an open generic class deriving from
   * `InterceptorBase<TParameter, TReturn>`, so it implements the decorator interface and,
   * through it, `IInterceptor<TParameter, TReturn>`.
   */
  const LoggingInterceptorType: Type :=
    var p, r := GenericParameter("TParameter"), GenericParameter("TReturn");
    Type("LoggingMiddlewareInterceptor", false, Some(GenericDefinition(Other("LoggingMiddlewareInterceptor"), 2)), true,
         [p, r], [DecoratorInterfaceOf(p, r), InterceptorOf(p, r)])

  /** The interceptor check the builder forwards to: the type is non-null and implements an interceptor interface. */
  predicate Accepts(t: Option<Type>) {
    t.Some? && ImplementsInterceptor(t.value)
  }

  /** The negation of `Accepts`, as the stopping test of `AddInterceptors`. */
  predicate Rejects(t: Option<Type>) {
    !Accepts(t)
  }

  /** The exception for a rejected type: a null type first, otherwise "not a valid interceptor". */
  function Rejection(t: Option<Type>): (e: Error)
    requires Rejects(t)
    ensures e == NullArgument("type") <==> t.None?
    ensures e == NotAnInterceptor <==> t.Some? && !ImplementsInterceptor(t.value)
  {
    if t.None? then NullArgument("type") else NotAnInterceptor
  }

  /** The list after one accepted type: appended when absent, unchanged when already present. */
  function Added(xs: seq<Type>, t: Type): (ys: seq<Type>)
    ensures t in ys
    ensures forall u :: u in ys ==> u in xs || u == t
    ensures t in xs ==> ys == xs
    ensures t !in xs ==> ys == xs + [t]
    ensures NoDuplicates(xs) ==> NoDuplicates(ys)
  {
    if t in xs then xs else xs + [t]
  }

  /** The list after `ts` has gone through `AddInterceptor` one by one; a rejected type changes nothing. */
  function AddedAll(xs: seq<Type>, ts: seq<Option<Type>>): seq<Type> {
    if ts == [] then xs
    else
      var ys := AddedAll(xs, ts[..|ts| - 1]);
      var t := ts[|ts| - 1];
      if Accepts(t) then Added(ys, t.value) else ys
  }

  /** One more type through `AddInterceptor`: added when accepted, nothing otherwise. */
  lemma AddedAllStep(xs: seq<Type>, ts: seq<Option<Type>>, i: nat)
    requires i < |ts|
    ensures AddedAll(xs, ts[..i + 1]) == if Accepts(ts[i]) then Added(AddedAll(xs, ts[..i]), ts[i].value) else AddedAll(xs, ts[..i])
  {
    assert ts[..i + 1][..i] == ts[..i];
  }

  /** A rejected type with no rejected type before it is where `AddInterceptors` stops. */
  lemma FirstRejectedAt(ts: seq<Option<Type>>, i: nat)
    requires i < |ts| && Rejects(ts[i])
    requires FirstIndex(ts, Rejects).Some? ==> i <= FirstIndex(ts, Rejects).value
    ensures FirstIndex(ts, Rejects) == Some(i)
  {
  }

  /** Past an accepted type, the first rejected type, if any, is further on. */
  lemma FirstRejectedLater(ts: seq<Option<Type>>, i: nat)
    requires i < |ts| && Accepts(ts[i])
    requires FirstIndex(ts, Rejects).Some? ==> i <= FirstIndex(ts, Rejects).value
    ensures FirstIndex(ts, Rejects).Some? ==> i + 1 <= FirstIndex(ts, Rejects).value
  {
  }

  /** Adding keeps the old list as a prefix and never introduces a duplicate. */
  lemma {:induction false} AddedAllExtends(xs: seq<Type>, ts: seq<Option<Type>>)
    ensures |xs| <= |AddedAll(xs, ts)| <= |xs| + |ts|
    ensures AddedAll(xs, ts)[..|xs|] == xs
    ensures NoDuplicates(xs) ==> NoDuplicates(AddedAll(xs, ts))
  {
    if ts != [] {
      AddedAllExtends(xs, ts[..|ts| - 1]);
    }
  }

  /** The list holds exactly the old types and the accepted types of `ts`. */
  lemma {:induction false} AddedAllContents(xs: seq<Type>, ts: seq<Option<Type>>, u: Type)
    ensures u in AddedAll(xs, ts) <==> u in xs || exists k :: 0 <= k < |ts| && ts[k] == Some(u) && Accepts(ts[k])
  {
    if ts != [] {
      var init := ts[..|ts| - 1];
      AddedAllContents(xs, init, u);
      if exists k :: 0 <= k < |init| && init[k] == Some(u) && Accepts(init[k]) {
        var k :| 0 <= k < |init| && init[k] == Some(u) && Accepts(init[k]);
        assert ts[k] == init[k];
      }
      if exists k :: 0 <= k < |ts| && ts[k] == Some(u) && Accepts(ts[k]) {
        var k :| 0 <= k < |ts| && ts[k] == Some(u) && Accepts(ts[k]);
        if k < |ts| - 1 {
          assert init[k] == ts[k];
        }
      }
    }
  }

  /** Re-adding types that are all present already leaves the list unchanged. */
  lemma {:induction false} AddedAllPresent(xs: seq<Type>, ts: seq<Option<Type>>)
    requires forall k :: 0 <= k < |ts| && Accepts(ts[k]) ==> ts[k].value in xs
    ensures AddedAll(xs, ts) == xs
  {
    if ts != [] {
      AddedAllPresent(xs, ts[..|ts| - 1]);
      assert Accepts(ts[|ts| - 1]) ==> ts[|ts| - 1].value in xs;
    }
  }

  /** Adding the same types twice gives the list adding them once gives. */
  lemma AddedAllIdempotent(xs: seq<Type>, ts: seq<Option<Type>>)
    ensures AddedAll(AddedAll(xs, ts), ts) == AddedAll(xs, ts)
  {
    var ys := AddedAll(xs, ts);
    forall k | 0 <= k < |ts| && Accepts(ts[k])
      ensures ts[k].value in ys
    {
      AddedAllContents(xs, ts, ts[k].value);
    }
    AddedAllPresent(ys, ts);
  }

  /** `MiddlewareInterceptorOptionsBuilder(services, middlewareType)`. */
  class MiddlewareInterceptorOptionsBuilder {
    const middlewareType: Type
    var interceptors: seq<Type>

    /** Each listed type is an interceptor, and none is listed twice. */
    ghost predicate Valid()
      reads this
    {
      && NoDuplicates(interceptors)
      && forall k :: 0 <= k < |interceptors| ==> ImplementsInterceptor(interceptors[k])
    }

    constructor (middlewareType: Type)
      ensures this.middlewareType == middlewareType
      ensures interceptors == []
      ensures Valid()
    {
      this.middlewareType := middlewareType;
      interceptors := [];
    }

    /**
     * `AddInterceptor(type)`: the forwarded registration rejects a null type or a type that is
     * not an interceptor before the list changes; otherwise the type is appended if absent,
     * and the same builder is returned.
     */
    method AddInterceptor(t: Option<Type>) returns (r: Result<MiddlewareInterceptorOptionsBuilder, Error>)
      requires Valid()
      modifies this
      ensures Valid()
      ensures Accepts(t) ==> r == Success(this) && interceptors == Added(old(interceptors), t.value)
      ensures Rejects(t) ==> r == Failure(Rejection(t)) && interceptors == old(interceptors)
    {
      var checked := NotNull(t);
      if checked.Failure? {
        return Failure(checked.error);
      }
      if !ImplementsInterceptor(checked.value) {
        return Failure(NotAnInterceptor);
      }
      if checked.value !in interceptors {
        interceptors := interceptors + [checked.value];
      }
      return Success(this);
    }

    /**
     * `AddInterceptors(types)`: `AddInterceptor` on each type in array order. The first
     * rejected type ends the call with its exception, keeping the types added before it.
     */
    method AddInterceptors(ts: seq<Option<Type>>) returns (r: Result<MiddlewareInterceptorOptionsBuilder, Error>)
      requires Valid()
      modifies this
      ensures Valid()
      ensures var stop := FirstIndex(ts, Rejects);
              && (stop.None? ==> r == Success(this) && interceptors == AddedAll(old(interceptors), ts))
              && (stop.Some? ==> r == Failure(Rejection(ts[stop.value])) &&
                                 interceptors == AddedAll(old(interceptors), ts[..stop.value]))
    {
      ghost var stop := FirstIndex(ts, Rejects);
      ghost var start := interceptors;
      var i := 0;
      while i < |ts|
        invariant 0 <= i <= |ts|
        invariant Valid()
        invariant stop.Some? ==> i <= stop.value
        invariant interceptors == AddedAll(start, ts[..i])
      {
        AddedAllStep(start, ts, i);
        var added := AddInterceptor(ts[i]);
        if added.Failure? {
          FirstRejectedAt(ts, i);
          return added;
        }
        FirstRejectedLater(ts, i);
        i := i + 1;
      }
      assert ts[..i] == ts;
      return Success(this);
    }

    /** `AddLogging()`: adds the open generic logging interceptor, which is always accepted. */
    method AddLogging() returns (r: Result<MiddlewareInterceptorOptionsBuilder, Error>)
      requires Valid()
      modifies this
      ensures Valid()
      ensures r == Success(this)
      ensures interceptors == Added(old(interceptors), LoggingInterceptorType)
    {
      assert LoggingInterceptorType.interfaces[1] == InterceptorOf(GenericParameter("TParameter"), GenericParameter("TReturn"));
      r := AddInterceptor(Some(LoggingInterceptorType));
    }

    /** `GetInterceptors()`: the current list, duplicate-free. */
    function GetInterceptors(): (ts: seq<Type>)
      reads this
      ensures ts == interceptors
      ensures Valid() ==> NoDuplicates(ts)
    {
      interceptors
    }

    /** `BuildConfiguration()`: the builder's middleware type paired with the current list. */
    function BuildConfiguration(): (c: Configuration)
      reads this
      ensures c.middlewareType == middlewareType
      ensures c.interceptorTypes == GetInterceptors()
      ensures Valid() ==> NoDuplicates(c.interceptorTypes)
    {
      NewConfiguration(middlewareType, Some(interceptors))
    }
  }
}
