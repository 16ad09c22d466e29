/** Optional values and an optional-with-default lookup, used wherever the
    source returns `undefined`, `null`, or throws a recoverable error. */
module Wrappers {

  datatype Option<+T> = None | Some(value: T) {

    /** The contained value, or `default` when there is none (JavaScript's `??`). */
    function GetOr(default: T): T
    {
      match this
      case Some(v) => v
      case None => default
    }
  }

  /** `m.get(k) ?? 0` for a JavaScript `Map<string, number>`. */
  function GetOrZero<K>(m: map<K, int>, k: K): int
  {
    if k in m then m[k] else 0
  }

  /** Concatenation regroups freely; stated once so that proofs in large
      contexts need not rediscover it. */
  lemma AppendAssoc<T>(a: seq<T>, b: seq<T>, c: seq<T>)
    ensures a + (b + c) == (a + b) + c
  {
  }
}
