/**
 * The interceptor registry: built once from the configurations, then only queried.
 * A key maps to the concatenation of the interceptor lists of every configuration naming it;
 * a query returns the global list (key `object`) followed by the middleware's own list.
 */
module Registry {
  import opened Wrappers
  import opened Types
  import opened MiddlewareConfiguration

  /** `TryGetValue(key, out v) ? v : Empty`. */
  function Lookup(index: map<Type, seq<Type>>, key: Type): seq<Type> {
    if key in index then index[key] else []
  }

  /** The dictionary after the grouping loop has consumed `cs`, in enumeration order. */
  function Grouped(cs: seq<Configuration>): map<Type, seq<Type>> {
    if cs == [] then map[]
    else
      var index := Grouped(cs[..|cs| - 1]);
      var config := cs[|cs| - 1];
      if config.middlewareType in index
      then index[config.middlewareType := index[config.middlewareType] + config.interceptorTypes]
      else index[config.middlewareType := config.interceptorTypes]
  }

  /** Each key holds exactly the collected lists of the configurations naming it. */
  lemma {:induction false} LookupGrouped(cs: seq<Configuration>, key: Type)
    ensures Lookup(Grouped(cs), key) == Collected(cs, key)
  {
    if cs != [] {
      var init, last := cs[..|cs| - 1], cs[|cs| - 1];
      LookupGrouped(init, key);
      assert cs == init + [last];
      CollectedAppend(init, [last], key);
      assert [last][1..] == [];
    }
  }

  /** A key exists exactly when at least one configuration names it. */
  lemma {:induction false} GroupedKeys(cs: seq<Configuration>, key: Type)
    ensures key in Grouped(cs) <==> exists i :: 0 <= i < |cs| && cs[i].middlewareType == key
  {
    if cs != [] {
      var init := cs[..|cs| - 1];
      GroupedKeys(init, key);
      if key in Grouped(init) {
        var i :| 0 <= i < |init| && init[i].middlewareType == key;
        assert cs[i] == init[i];
      }
      if exists i :: 0 <= i < |cs| && cs[i].middlewareType == key {
        var i :| 0 <= i < |cs| && cs[i].middlewareType == key;
        if i < |cs| - 1 {
          assert init[i] == cs[i];
        }
      }
    }
  }

  /** A repeated key appends rather than replaces: duplicates are kept and nothing else moves. */
  lemma RepeatedKeyAppends(cs: seq<Configuration>, config: Configuration, other: Type)
    requires other != config.middlewareType
    ensures Lookup(Grouped(cs + [config]), config.middlewareType)
            == Lookup(Grouped(cs), config.middlewareType) + config.interceptorTypes
    ensures Lookup(Grouped(cs + [config]), other) == Lookup(Grouped(cs), other)
  {
    assert (cs + [config])[..|cs|] == cs;
  }

  /** `InterceptorRegistry`: the dictionary never changes after construction. */
  class InterceptorRegistry {
    const middlewareInterceptors: map<Type, seq<Type>>
    /** The configurations the registry was built from, in enumeration order. */
    ghost const configurations: seq<Configuration>

    ghost predicate Valid() {
      middlewareInterceptors == Grouped(configurations)
    }

    /** Groups the configurations by middleware type, appending when a key repeats. */
    constructor (configurations: seq<Configuration>)
      ensures this.configurations == configurations
      ensures Valid()
    {
      var index: map<Type, seq<Type>> := map[];
      var i := 0;
      while i < |configurations|
        invariant 0 <= i <= |configurations|
        invariant index == Grouped(configurations[..i])
      {
        var config := configurations[i];
        assert configurations[..i + 1][..i] == configurations[..i];
        if config.middlewareType in index {
          index := index[config.middlewareType := index[config.middlewareType] + config.interceptorTypes];
        } else {
          index := index[config.middlewareType := config.interceptorTypes];
        }
        i := i + 1;
      }
      assert configurations[..i] == configurations;
      this.middlewareInterceptors := index;
      this.configurations := configurations;
    }

    /** The global interceptors followed by the middleware's own, duplicates kept. */
    function GetInterceptorsForMiddleware(middlewareType: Type): (r: seq<Type>)
      requires Valid()
      ensures r == Collected(configurations, ObjectType) + Collected(configurations, middlewareType)
      ensures |r| == |Collected(configurations, ObjectType)| + |Collected(configurations, middlewareType)|
      ensures middlewareType == ObjectType ==>
                r == Collected(configurations, ObjectType) + Collected(configurations, ObjectType)
      ensures (forall i :: 0 <= i < |configurations| ==> configurations[i].middlewareType != middlewareType)
              ==> r == Collected(configurations, ObjectType)
    {
      LookupGrouped(configurations, middlewareType);
      LookupGrouped(configurations, ObjectType);
      CollectedUnnamed(configurations, middlewareType);
      var specific := Lookup(middlewareInterceptors, middlewareType);
      var global := Lookup(middlewareInterceptors, ObjectType);
      global + specific
    }

    /** True iff the query returns something, i.e. iff a global or own configuration lists an interceptor. */
    function HasInterceptors(middlewareType: Type): (b: bool)
      requires Valid()
      ensures b <==> GetInterceptorsForMiddleware(middlewareType) != []
      ensures b <==> exists i :: 0 <= i < |configurations| && configurations[i].interceptorTypes != [] &&
                       (configurations[i].middlewareType == ObjectType ||
                        configurations[i].middlewareType == middlewareType)
    {
      CollectedNonEmpty(configurations, ObjectType);
      CollectedNonEmpty(configurations, middlewareType);
      |GetInterceptorsForMiddleware(middlewareType)| > 0
    }
  }
}
