/** The immutable binding record: a middleware type (or `object` for global) and its interceptor types. */
module MiddlewareConfiguration {
  import opened Wrappers
  import opened Types

  /** `MiddlewareInterceptorConfiguration`: two get-only properties, so a value never changes once built. */
  datatype Configuration = Configuration(middlewareType: Type, interceptorTypes: seq<Type>)

  /** The record's constructor: a null interceptor list becomes the empty list. */
  function NewConfiguration(middlewareType: Type, interceptorTypes: Option<seq<Type>>): (c: Configuration)
    ensures c.middlewareType == middlewareType
    ensures interceptorTypes.Some? ==> c.interceptorTypes == interceptorTypes.value
    ensures interceptorTypes.None? ==> c.interceptorTypes == []
  {
    Configuration(middlewareType, if interceptorTypes.Some? then interceptorTypes.value else [])
  }

  /**
   * The interceptor types bound to `key`: the concatenation, in enumeration order, of the
   * interceptor lists of every configuration whose middleware type is `key`.
   */
  function Collected(cs: seq<Configuration>, key: Type): seq<Type> {
    if cs == [] then []
    else (if cs[0].middlewareType == key then cs[0].interceptorTypes else []) + Collected(cs[1..], key)
  }

  lemma {:induction false} CollectedAppend(a: seq<Configuration>, b: seq<Configuration>, key: Type)
    ensures Collected(a + b, key) == Collected(a, key) + Collected(b, key)
  {
    if a == [] {
      assert a + b == b;
    } else {
      assert (a + b)[1..] == a[1..] + b;
      CollectedAppend(a[1..], b, key);
    }
  }

  /** The collected list is non-empty exactly when some configuration for `key` has a non-empty list. */
  lemma {:induction false} CollectedNonEmpty(cs: seq<Configuration>, key: Type)
    ensures Collected(cs, key) != [] <==>
            exists i :: 0 <= i < |cs| && cs[i].middlewareType == key && cs[i].interceptorTypes != []
  {
    if cs != [] {
      CollectedNonEmpty(cs[1..], key);
      if Collected(cs[1..], key) != [] {
        var i :| 0 <= i < |cs[1..]| && cs[1..][i].middlewareType == key && cs[1..][i].interceptorTypes != [];
        assert cs[i + 1] == cs[1..][i];
      }
      if exists i :: 0 <= i < |cs| && cs[i].middlewareType == key && cs[i].interceptorTypes != [] {
        var i :| 0 <= i < |cs| && cs[i].middlewareType == key && cs[i].interceptorTypes != [];
        if i > 0 {
          assert cs[1..][i - 1] == cs[i];
        }
      }
    }
  }

  /** Configurations that do not name `key` contribute nothing to it. */
  lemma {:induction false} CollectedUnnamed(cs: seq<Configuration>, key: Type)
    ensures (forall i :: 0 <= i < |cs| ==> cs[i].middlewareType != key) ==> Collected(cs, key) == []
  {
    if cs != [] {
      CollectedUnnamed(cs[1..], key);
      if forall i :: 0 <= i < |cs| ==> cs[i].middlewareType != key {
        forall i | 0 <= i < |cs[1..]| ensures cs[1..][i].middlewareType != key {
          assert cs[1..][i] == cs[i + 1];
        }
      }
    }
  }
}
