/**
 * WeakCache: a decorator that stores each value behind a weak reference
 * and keeps the most recently read values strongly reachable in a bounded
 * deque of hard links.
 *
 * The garbage collector is not modelled: whether a reference has been
 * cleared, and which entries the reference queue yields, are inputs.
 */
module WeakCache {
  import opened Wrappers
  import opened Collections
  import opened PerpetualCache
  import opened ReferenceCache

  /** WeakEntry: the key, held strongly, and the value the weak reference points to. */
  datatype WeakEntry<K, V> = WeakEntry(key: K, value: V)

  class WeakCache<K(==), V(==)> {
    const delegate: PerpetualCache<K, WeakEntry<K, V>>
    /** hardLinksToAvoidGarbageCollection, front first. */
    var hardLinks: seq<V>
    var numberOfHardLinks: int
    /** The value standing for Java's null, or None when V has no null. */
    const nullValue: Option<V>

    /** The constructor keeps 256 hard links and starts with an empty deque. */
    constructor (delegate: PerpetualCache<K, WeakEntry<K, V>>, nullValue: Option<V>)
      ensures this.delegate == delegate && this.nullValue == nullValue
      ensures numberOfHardLinks == 256 && hardLinks == []
    {
      this.delegate := delegate;
      this.nullValue := nullValue;
      numberOfHardLinks := 256;
      hardLinks := [];
    }

    /** getId delegates: a decorator has its delegate's identifier. */
    function GetId(): (r: Option<string>)
      ensures r == delegate.GetId()
    {
      delegate.id
    }

    /** setSize changes only the number of hard links. */
    method SetSize(size: int)
      modifies this
      ensures numberOfHardLinks == size && hardLinks == old(hardLinks)
    {
      numberOfHardLinks := size;
    }

    /** Polls the reference queue until it is empty, removing each queued entry's key. */
    method RemoveGarbageCollectedItems(collected: seq<K>)
      modifies delegate
      ensures delegate.cache == RemoveKeys(old(delegate.cache), collected)
    {
      var i := 0;
      while i < |collected|
        invariant 0 <= i <= |collected|
        invariant delegate.cache == RemoveKeys(old(delegate.cache), collected[..i])
      {
        RemoveKeysStep(old(delegate.cache), collected, i);
        var _ := delegate.RemoveObject(collected[i]);
        i := i + 1;
      }
      assert collected[..i] == collected;
    }

    /** getSize drains the queue first, then reports the delegate's size. */
    method GetSize(collected: seq<K>) returns (n: nat)
      modifies delegate
      ensures delegate.cache == RemoveKeys(old(delegate.cache), collected)
      ensures n == |delegate.cache|
    {
      RemoveGarbageCollectedItems(collected);
      n := delegate.GetSize();
    }

    /** putObject drains the queue, then stores a WeakEntry under the key. */
    method PutObject(key: K, value: V, collected: seq<K>)
      modifies delegate
      ensures delegate.cache == RemoveKeys(old(delegate.cache), collected)[key := WeakEntry(key, value)]
    {
      RemoveGarbageCollectedItems(collected);
      delegate.PutObject(key, WeakEntry(key, value));
    }

    /**
     * getObject: an absent key gives null and changes nothing. The
     * reference reads null when the collector has cleared it (`cleared`)
     * or when the stored value was null; either way null is returned and
     * the key removed. Any other value is returned and pushed onto the
     * hard-link deque.
     */
    method GetObject(key: K, cleared: bool) returns (r: Option<V>)
      modifies this, delegate
      ensures numberOfHardLinks == old(numberOfHardLinks)
      ensures r.Some? ==> Some(r.value) != nullValue
      ensures key !in old(delegate.cache) ==>
        r.None? && delegate.cache == old(delegate.cache) && hardLinks == old(hardLinks)
      ensures key in old(delegate.cache) && (cleared || Some(old(delegate.cache)[key].value) == nullValue) ==>
        r.None? && delegate.cache == old(delegate.cache) - {key} && hardLinks == old(hardLinks)
      ensures key in old(delegate.cache) && !cleared && Some(old(delegate.cache)[key].value) != nullValue ==>
        && r == Some(old(delegate.cache)[key].value)
        && delegate.cache == old(delegate.cache)
        && hardLinks == PushHardLink(old(hardLinks), r.value, numberOfHardLinks)
    {
      r := None;
      var weakReference := delegate.GetObject(key);
      if weakReference.Some? {
        var referent := if cleared then None else Some(weakReference.value.value);
        if referent.None? || referent == nullValue {
          var _ := delegate.RemoveObject(key);
        } else {
          r := referent;
          hardLinks := [r.value] + hardLinks;
          if |hardLinks| > numberOfHardLinks {
            hardLinks := hardLinks[..|hardLinks| - 1];
          }
        }
      }
    }

    /** removeObject drains the queue, then removes the key and returns its entry. */
    method RemoveObject(key: K, collected: seq<K>) returns (previous: Option<WeakEntry<K, V>>)
      modifies delegate
      ensures previous == Lookup(RemoveKeys(old(delegate.cache), collected), key)
      ensures delegate.cache == RemoveKeys(old(delegate.cache), collected) - {key}
    {
      RemoveGarbageCollectedItems(collected);
      previous := delegate.RemoveObject(key);
    }

    /** clear empties the hard-link deque and the delegate. */
    method Clear(collected: seq<K>)
      modifies this, delegate
      ensures hardLinks == [] && delegate.cache == map[]
      ensures numberOfHardLinks == old(numberOfHardLinks)
    {
      hardLinks := [];
      RemoveGarbageCollectedItems(collected);
      delegate.Clear();
    }
  }
}
