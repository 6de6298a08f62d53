/** The `cached(key_name)` decorator: one dictionary per decorated method, keyed by the
    method's single argument, filled on the first call with each key and never emptied. */
module Cached {
  import opened Wrappers

  /** The dictionary a decorated method closes over. Every store that calls the method sees
      the same object, so the caller hands the same `MethodCache` to each store it builds. */
  class MethodCache<K(==), V> {
    var entries: map<K, V>

    constructor ()
      ensures entries == map[]
    {
      entries := map[];
    }

    /** `key in method_cache` followed by `method_cache.get(key)`. */
    method Lookup(key: K) returns (hit: Option<V>)
      ensures hit.Some? <==> key in entries
      ensures hit.Some? ==> hit.value == entries[key]
    {
      hit := Get(entries, key);
    }

    /** `method_cache[key] = value`: only the entry for `key` changes. */
    method Remember(key: K, value: V)
      modifies this
      ensures entries == old(entries)[key := value]
      ensures forall k :: k in old(entries) && k != key ==> k in entries && entries[k] == old(entries)[k]
    {
      entries := entries[key := value];
    }
  }

  /** The key the wrapper computes from a call: with a key name, the first positional argument,
      overridden by the keyword argument of that name; without one (or with an empty name),
      `None`, so every call shares one entry. */
  function KeyOf<T(==)>(keyName: Option<string>, args: seq<Option<T>>, kwargs: map<string, Option<T>>): (k: Option<T>)
    ensures keyName.None? || keyName.value == "" ==> k == None
    ensures k.Some? ==> k in kwargs.Values || (|args| > 0 && k == args[0])
  {
    if keyName.None? || keyName.value == "" then None
    else
      var positional := if |args| > 0 then args[0] else None;
      if keyName.value in kwargs then kwargs[keyName.value] else positional
  }

  /** For the three ways the store's accessors are called, no argument, one positional argument
      or the argument by name, the key is the value the parameter is bound to. */
  lemma KeyIsBoundParameter<T>(name: string, x: Option<T>)
    requires name != ""
    ensures KeyOf<T>(Some(name), [], map[]) == None
    ensures KeyOf(Some(name), [x], map[]) == x
    ensures KeyOf(Some(name), [], map[name := x]) == x
  {
  }

  /** A keyword argument takes precedence over a positional one; further positional arguments
      and other keywords are ignored. */
  lemma KeywordOverridesPositional<T>(name: string, args: seq<Option<T>>, kwargs: map<string, Option<T>>)
    requires name != "" && name in kwargs
    ensures KeyOf(Some(name), args, kwargs) == kwargs[name]
  {
  }
}
