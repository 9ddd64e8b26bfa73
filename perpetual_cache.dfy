/**
 * PerpetualCache: the innermost cache, a plain hash map from keys to
 * values with an identifier that alone decides equality and hash code.
 */
module PerpetualCache {
  import opened Wrappers
  import JavaInt

  /** CacheException("Cache instances require an ID.") */
  datatype CacheException = MissingId

  /**
   * The argument of equals: null, this very cache, another Cache (any
   * implementation, a decorator included) reporting `otherId` from
   * getId(), or an object that is not a Cache.
   */
  datatype CacheArgument = NullArgument | SameCache | OtherCache(otherId: Option<string>) | NotACache

  /** HashMap.get: the stored value, or null (None) when the key is absent. */
  function Lookup<K, V>(m: map<K, V>, k: K): (r: Option<V>)
    ensures r.Some? <==> k in m
    ensures r.Some? ==> r.value == m[k]
  {
    if k in m then Some(m[k]) else None
  }

  /** A put adds one to the size exactly when the key was absent. */
  lemma PutSize<K, V>(m: map<K, V>, k: K, v: V)
    ensures |m[k := v]| == if k in m then |m| else |m| + 1
  {
    if k in m {
      assert m[k := v].Keys == m.Keys;
    } else {
      assert m[k := v].Keys == m.Keys + {k};
    }
  }

  /** A remove takes one off the size exactly when the key was present. */
  lemma RemoveSize<K, V>(m: map<K, V>, k: K)
    ensures |m - {k}| == if k in m then |m| - 1 else |m|
  {
    if k in m {
      assert (m - {k}).Keys == m.Keys - {k};
    } else {
      assert (m - {k}).Keys == m.Keys;
    }
  }

  class PerpetualCache<K(==), V> {
    const id: Option<string>
    var cache: map<K, V>

    constructor (id: Option<string>)
      ensures this.id == id && cache == map[]
    {
      this.id := id;
      cache := map[];
    }

    /** The identifier given at construction. */
    function GetId(): (r: Option<string>)
      ensures r == id
    {
      id
    }

    /** The number of distinct keys stored. */
    function GetSize(): (n: nat)
      reads this
      ensures n == |cache.Keys|
    {
      |cache|
    }

    method PutObject(key: K, value: V)
      modifies this
      ensures cache == old(cache)[key := value]
    {
      cache := cache[key := value];
    }

    function GetObject(key: K): (r: Option<V>)
      reads this
      ensures r == Lookup(cache, key)
    {
      Lookup(cache, key)
    }

    /** Removes the key and returns the value it had (null when absent). */
    method RemoveObject(key: K) returns (previous: Option<V>)
      modifies this
      ensures previous == Lookup(old(cache), key)
      ensures cache == old(cache) - {key} && key !in cache
    {
      previous := Lookup(cache, key);
      cache := cache - {key};
    }

    method Clear()
      modifies this
      ensures cache == map[] && GetSize() == 0
    {
      cache := map[];
    }

    /**
     * equals: throws when this cache has no id; otherwise true for the same
     * object and for any other cache (a decorator included) whose getId()
     * equals this id, and false for null and for anything that is not a
     * cache.
     */
    function Equals(other: CacheArgument): (r: Result<bool, CacheException>)
      ensures r.Err? <==> id.None?
      ensures r.Ok? ==> (r.value <==> other.SameCache? || (other.OtherCache? && other.otherId == id))
      ensures r.Ok? && (other.NullArgument? || other.NotACache?) ==> !r.value
    {
      if id.None? then Err(MissingId)
      else match other
        case SameCache => Ok(true)
        case NullArgument => Ok(false)
        case NotACache => Ok(false)
        case OtherCache(otherId) => Ok(otherId == id)
    }

    /** hashCode: throws when there is no id, otherwise the id's String.hashCode. */
    function HashCode(): (r: Result<JavaInt.Int32, CacheException>)
      ensures r.Err? <==> id.None?
      ensures r.Ok? ==> r.value == JavaInt.StringHashCode(id.value)
    {
      if id.None? then Err(MissingId) else Ok(JavaInt.StringHashCode(id.value))
    }
  }

  /** Caches that are equal have equal hash codes, and both depend on the id alone. */
  lemma EqualCachesHashAlike<K, V>(a: PerpetualCache<K, V>, b: PerpetualCache<K, V>)
    requires a.Equals(OtherCache(b.id)) == Ok(true)
    ensures a.HashCode() == b.HashCode() && a.HashCode().Ok?
    ensures b.Equals(OtherCache(a.id)) == Ok(true)
  {
  }
}
