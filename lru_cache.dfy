/**
 * LruCache: a decorator that records its keys in an access-ordered
 * LinkedHashMap of bounded size and, when that map drops its eldest key,
 * evicts the same key from the delegate cache.
 *
 * The LinkedHashMap is modelled by the sequence of its keys, least
 * recently accessed first.
 */
module LruCache {
  import opened Wrappers
  import opened PerpetualCache
  import opened Collections

  /** The key sequence with every occurrence of `k` taken out. */
  function Without<T(==)>(s: seq<T>, k: T): (r: seq<T>)
    ensures forall x | x in r :: x in s && x != k
    ensures forall x | x in s && x != k :: x in r
  {
    if s == [] then []
    else if s[0] == k then Without(s[1..], k)
    else [s[0]] + Without(s[1..], k)
  }

  lemma {:induction false} WithoutDistinct<T>(s: seq<T>, k: T)
    requires Distinct(s)
    ensures Distinct(Without(s, k))
    ensures |Without(s, k)| == if k in s then |s| - 1 else |s|
  {
    if s != [] {
      assert Distinct(s[1..]);
      WithoutDistinct(s[1..], k);
      if s[0] == k {
        assert k !in s[1..];
      } else {
        var w := Without(s[1..], k);
        assert s[0] !in w;
        assert k in s <==> k in s[1..];
      }
    }
  }

  /** Taking out a key that is not there changes nothing. */
  lemma {:induction false} WithoutAbsent<T>(s: seq<T>, k: T)
    requires k !in s
    ensures Without(s, k) == s
  {
    if s != [] {
      WithoutAbsent(s[1..], k);
      assert [s[0]] + s[1..] == s;
    }
  }

  /**
   * Taking a key out of a duplicate-free order splices it out: the keys
   * before it and the keys after it stay where they were, in order.
   */
  lemma {:induction false} WithoutSplices<T>(s: seq<T>, k: T, i: nat)
    requires Distinct(s) && i < |s| && s[i] == k
    ensures Without(s, k) == s[..i] + s[i + 1..]
  {
    var t := s[1..];
    if i == 0 {
      assert k !in t by {
        forall j | 0 <= j < |t| ensures t[j] != k { assert t[j] == s[j + 1]; }
      }
      WithoutAbsent(t, k);
    } else {
      assert s[0] != k;
      assert Distinct(t) by {
        forall a, b | 0 <= a < b < |t| ensures t[a] != t[b] { assert t[a] == s[a + 1] && t[b] == s[b + 1]; }
      }
      assert t[i - 1] == k;
      WithoutSplices(t, k, i - 1);
      assert [s[0]] + t[..i - 1] == s[..i];
      assert t[i..] == s[i + 1..];
    }
  }

  /**
   * LinkedHashMap.get in access order: a present key moves to the most
   * recently used end; an absent key changes nothing.
   */
  function Touch<T(==)>(keys: seq<T>, k: T): seq<T>
  {
    if k in keys then Without(keys, k) + [k] else keys
  }

  /** IllegalArgumentException("Illegal initial capacity") from the LinkedHashMap constructor. */
  datatype IllegalArgumentException = IllegalCapacity(size: int)

  /** The result of keyMap.put(key, key), with removeEldestEntry deciding eviction. */
  datatype KeyMapPut<T> = KeyMapPut(keys: seq<T>, eldest: Option<T>)

  /**
   * keyMap.put(k, k): a present key is an access (moved to the end, nothing
   * evicted); a new key is appended, and if the map then holds more than
   * `size` keys its eldest entry is removed and reported.
   */
  function PutKey<T(==)>(keys: seq<T>, k: T, size: int): KeyMapPut<T>
  {
    if k in keys then KeyMapPut(Without(keys, k) + [k], None)
    else
      var grown := keys + [k];
      if |grown| > size then KeyMapPut(grown[1..], Some(grown[0]))
      else KeyMapPut(grown, None)
  }

  /** An access keeps the keys distinct, keeps the same keys and puts `k` last. */
  lemma TouchKeepsKeys<T>(keys: seq<T>, k: T)
    requires Distinct(keys)
    ensures Distinct(Touch(keys, k)) && |Touch(keys, k)| == |keys|
    ensures forall x :: x in Touch(keys, k) <==> x in keys
    ensures k in keys ==> Touch(keys, k)[|keys| - 1] == k
    ensures k !in keys ==> Touch(keys, k) == keys
    ensures forall i | 0 <= i < |keys| && keys[i] == k :: Touch(keys, k) == keys[..i] + keys[i + 1..] + [k]
  {
    WithoutDistinct(keys, k);
    forall i | 0 <= i < |keys| && keys[i] == k
      ensures Touch(keys, k) == keys[..i] + keys[i + 1..] + [k]
    {
      WithoutSplices(keys, k, i);
    }
    if k in keys {
      var w := Without(keys, k);
      assert k !in w;
      assert Distinct(w + [k]);
    }
  }

  /**
   * removeEldestEntry fires exactly when a new key takes the map past
   * `size`; the key it reports is the least recently used one, which is no
   * longer present; the map stays distinct and within `size` keys.
   */
  lemma PutKeyBounded<T>(keys: seq<T>, k: T, size: int)
    requires Distinct(keys) && |keys| <= size
    ensures var p := PutKey(keys, k, size);
      && Distinct(p.keys)
      && |p.keys| <= size
      && (p.eldest.Some? <==> k !in keys && |keys| + 1 > size)
      && (p.eldest.Some? ==> p.eldest.value == (keys + [k])[0] && p.eldest.value !in p.keys)
      && (forall x :: x in p.keys ==> x in keys || x == k)
      && (k in p.keys || p.eldest == Some(k))
      && (p.eldest.None? ==> k in p.keys && |p.keys| - |keys| == (if k in keys then 0 else 1))
      && (forall i | 0 <= i < |keys| && keys[i] == k :: p.keys == keys[..i] + keys[i + 1..] + [k])
      && (k !in keys ==> p.keys == (keys + [k])[|keys| + 1 - |p.keys|..])
  {
    var p := PutKey(keys, k, size);
    if k in keys {
      TouchKeepsKeys(keys, k);
      assert p.keys == Touch(keys, k);
    } else {
      var grown := keys + [k];
      assert Distinct(grown);
      if |grown| > size {
        assert grown[0] !in grown[1..];
        assert forall x :: x in grown[1..] ==> x in grown;
        if keys != [] { assert grown[1..][|keys| - 1] == k; } else { assert grown[0] == k; }
      }
    }
  }

  /**
   * The keys cycleKeyList removes from the delegate. The eldest key is kept
   * in a field that is null when there is none, so an eldest key that is
   * itself null (`nullKey`, when K has a null) reads as none and stays in
   * the delegate.
   */
  function Evicted<T>(eldest: Option<T>, nullKey: Option<T>): (r: set<T>)
    ensures forall x | x in r :: eldest == Some(x)
    ensures r == {} <==> eldest.None? || eldest == nullKey
  {
    if eldest.Some? && eldest != nullKey then {eldest.value} else {}
  }

  /**
   * With a bound of 1, putting the null key and then another key evicts
   * the null key from the key map while the delegate keeps it: the delegate
   * ends with two entries against a bound of one.
   */
  lemma NullEldestStays<T>(nk: T, k: T)
    requires nk != k
    ensures var first := PutKey([], nk, 1);
      var second := PutKey(first.keys, k, 1);
      && first.keys == [nk] && first.eldest.None?
      && second.keys == [k] && second.eldest == Some(nk)
      && Evicted(second.eldest, Some(nk)) == {}
      && Evicted(second.eldest, None) == {nk}
  {
  }

  class LruCache<K(==), V> {
    const delegate: PerpetualCache<K, V>
    /** The key standing for Java's null, or None when K has no null. */
    const nullKey: Option<K>
    /** keyMap's keys, least recently accessed first. */
    var keyList: seq<K>
    /** The `size` captured by keyMap's removeEldestEntry. */
    var size: int
    var eldestKey: Option<K>

    ghost predicate Valid()
      reads this
    {
      Distinct(keyList) && 0 <= size && |keyList| <= size && eldestKey.None?
    }

    /** The constructor sizes the key map at 1024. */
    constructor (delegate: PerpetualCache<K, V>, nullKey: Option<K>)
      ensures Valid() && this.delegate == delegate && this.nullKey == nullKey
      ensures keyList == [] && size == 1024
    {
      this.delegate := delegate;
      this.nullKey := nullKey;
      keyList := [];
      size := 1024;
      eldestKey := None;
    }

    /** getId delegates: a decorator has its delegate's identifier. */
    function GetId(): (r: Option<string>)
      ensures r == delegate.GetId()
    {
      delegate.id
    }

    /** getSize delegates: the number of keys the delegate stores, not the key map's. */
    function GetSize(): (n: nat)
      reads delegate
      ensures n == |delegate.cache.Keys|
    {
      delegate.GetSize()
    }

    /**
     * setSize replaces the key map by an empty one of the new capacity; the
     * delegate keeps its entries. A negative capacity makes the
     * LinkedHashMap constructor throw before anything is replaced.
     */
    method SetSize(size: int) returns (error: Option<IllegalArgumentException>)
      requires Valid()
      modifies this
      ensures Valid()
      ensures error.Some? <==> size < 0
      ensures error.Some? ==>
        && error.value == IllegalCapacity(size)
        && keyList == old(keyList) && this.size == old(this.size)
      ensures error.None? ==> keyList == [] && this.size == size
    {
      if size < 0 {
        return Some(IllegalCapacity(size));
      }
      keyList := [];
      this.size := size;
      eldestKey := None;
      return None;
    }

    /** putObject stores the pair in the delegate first, then records the key. */
    method PutObject(key: K, value: V)
      requires Valid()
      modifies this, delegate
      ensures Valid() && size == old(size)
      ensures var p := PutKey(old(keyList), key, size);
        && keyList == p.keys
        && delegate.cache == old(delegate.cache)[key := value] - Evicted(p.eldest, nullKey)
        && (p.eldest.Some? && p.eldest == nullKey ==> delegate.cache == old(delegate.cache)[key := value])
    {
      delegate.PutObject(key, value);
      CycleKeyList(key);
    }

    /** keyMap.put(key, key); removeEldestEntry remembers the eldest key when it fires. */
    method KeyMapPut(key: K)
      requires Valid()
      modifies this
      ensures var p := PutKey(old(keyList), key, size);
        keyList == p.keys && eldestKey == p.eldest && size == old(size)
      ensures Distinct(keyList) && |keyList| <= size
    {
      PutKeyBounded(keyList, key, size);
      var p := PutKey(keyList, key, size);
      keyList := p.keys;
      eldestKey := p.eldest;
    }

    /**
     * Records the key; an eldest key dropped from the key map is removed
     * from the delegate unless it is the null key, and is then forgotten.
     */
    method CycleKeyList(key: K)
      requires Valid()
      modifies this, delegate
      ensures Valid() && size == old(size)
      ensures var p := PutKey(old(keyList), key, size);
        && keyList == p.keys
        && delegate.cache == old(delegate.cache) - Evicted(p.eldest, nullKey)
        && (p.eldest.Some? && p.eldest == nullKey ==> delegate.cache == old(delegate.cache))
    {
      KeyMapPut(key);
      if eldestKey.Some? && eldestKey != nullKey {
        var _ := delegate.RemoveObject(eldestKey.value);
      }
      eldestKey := None;
    }

    /** getObject touches the key in the key map, then reads the delegate. */
    method GetObject(key: K) returns (r: Option<V>)
      requires Valid()
      modifies this
      ensures Valid() && size == old(size)
      ensures keyList == Touch(old(keyList), key)
      ensures r == Lookup(delegate.cache, key)
    {
      TouchKeepsKeys(keyList, key);
      keyList := Touch(keyList, key);
      r := delegate.GetObject(key);
    }

    /** removeObject changes the delegate only, not the key map. */
    method RemoveObject(key: K) returns (previous: Option<V>)
      requires Valid()
      modifies delegate
      ensures Valid()
      ensures previous == Lookup(old(delegate.cache), key)
      ensures delegate.cache == old(delegate.cache) - {key}
    {
      previous := delegate.RemoveObject(key);
    }

    method Clear()
      requires Valid()
      modifies this, delegate
      ensures Valid() && size == old(size)
      ensures delegate.cache == map[] && keyList == []
    {
      delegate.Clear();
      keyList := [];
    }
  }
}
