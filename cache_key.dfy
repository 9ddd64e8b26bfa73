/**
 * CacheKey: the key of a cache entry, built up incrementally from the
 * objects that determine a query (statement id, row bounds, SQL text,
 * parameter values). It keeps a running hash code, a checksum, a count
 * and the ordered list of the objects themselves.
 */
module CacheKey {
  import opened JavaInt

  /**
   * The objects handed to update. ArrayUtil is not part of this model; for
   * these values ArrayUtil.hashCode and ArrayUtil.equals are the objects'
   * own hashCode and equals, written out below.
   */
  datatype Item = Null | Str(s: string) | Integer(i: Int32) | Boolean(b: bool)

  /** The largest number of elements a Java ArrayList can hold. */
  const MAX_LIST_SIZE: int := 0x7fff_ffff

  const DEFAULT_MULTIPLYER: Int32 := 37
  const DEFAULT_HASHCODE: Int32 := 17

  /**
   * ArrayUtil.hashCode of a non-null object, which for these values is the
   * object's own hashCode: String's polynomial over its UTF-16 units, an
   * Integer's value, 1231 or 1237 for a Boolean.
   */
  function ObjectHash(o: Item): Int32
    requires !o.Null?
  {
    match o
    case Str(s) => StringHashCode(s)
    case Integer(i) => i
    case Boolean(b) => if b then 1231 else 1237
  }

  /** The base hash update uses: 1 for null, otherwise the object's hash. */
  function BaseHash(o: Item): Int32
  {
    if o.Null? then 1 else ObjectHash(o)
  }

  /**
   * The hash code after updating a fresh key with `items` in order: each
   * step multiplies by 37 and adds the item's base hash times its (1-based)
   * position, all in `int` arithmetic. The position is a count of list
   * elements, so it is itself an `int` and never wraps.
   */
  function HashAfter(items: seq<Item>): Int32
    requires |items| <= MAX_LIST_SIZE
  {
    if items == [] then DEFAULT_HASHCODE
    else
      var n := |items|;
      Wrap32(DEFAULT_MULTIPLYER * HashAfter(items[..n - 1]) + Wrap32(BaseHash(items[n - 1]) * n))
  }

  /** The checksum after updating a fresh key with `items`: the sum of their base hashes, as a `long`. */
  function ChecksumAfter(items: seq<Item>): Int64
  {
    if items == [] then 0
    else Wrap64(ChecksumAfter(items[..|items| - 1]) + BaseHash(items[|items| - 1]))
  }

  /** Appending one object advances the hash code by one step of update. */
  lemma AppendStepHash(items: seq<Item>, obj: Item)
    requires |items| < MAX_LIST_SIZE
    ensures HashAfter(items + [obj])
         == Wrap32(DEFAULT_MULTIPLYER * HashAfter(items) + Wrap32(BaseHash(obj) * (|items| + 1)))
  {
    var s := items + [obj];
    assert s[..|s| - 1] == items && s[|s| - 1] == obj;
  }

  /** Appending one object adds its base hash to the checksum. */
  lemma AppendStepChecksum(items: seq<Item>, obj: Item)
    ensures ChecksumAfter(items + [obj]) == Wrap64(ChecksumAfter(items) + BaseHash(obj))
  {
    var s := items + [obj];
    assert s[..|s| - 1] == items && s[|s| - 1] == obj;
  }

  /** The checksum of a key is the sum of its base hashes, wrapped once. */
  lemma {:induction false} ChecksumIsWrappedSum(items: seq<Item>)
    ensures ChecksumAfter(items) == Wrap64(SumOfBaseHashes(items))
  {
    if items != [] {
      var p := items[..|items| - 1];
      var b := BaseHash(items[|items| - 1]);
      ChecksumIsWrappedSum(p);
      var c, q := ChecksumAfter(p), SumOfBaseHashes(p);
      assert (q - c) % TWO_64 == 0;
      assert (q + b) - (c + b) == q - c;
      Wrap64Unique(c + b, q + b);
    }
  }

  function SumOfBaseHashes(items: seq<Item>): int
  {
    if items == [] then 0 else SumOfBaseHashes(items[..|items| - 1]) + BaseHash(items[|items| - 1])
  }

  /**
   * The argument of equals, an Object: a CacheKey, or anything else
   * (null included), which `instanceof CacheKey` rejects.
   */
  datatype KeyArgument = NotACacheKey | AKey(key: CacheKey)

  class CacheKey {
    const multiplier: Int32
    var hashcode: Int32
    var checksum: Int64
    var count: Int32
    var updateList: seq<Item>

    /** hashcode, checksum and count are always those of updateList. */
    ghost predicate Valid()
      reads this
    {
      && multiplier == DEFAULT_MULTIPLYER
      && |updateList| <= MAX_LIST_SIZE
      && count == |updateList|
      && hashcode == HashAfter(updateList)
      && checksum == ChecksumAfter(updateList)
    }

    /** A fresh key: hash code 17, count 0, checksum 0, no objects. */
    constructor ()
      ensures Valid() && updateList == []
      ensures hashcode == 17 && count == 0 && checksum == 0
    {
      hashcode := DEFAULT_HASHCODE;
      multiplier := DEFAULT_MULTIPLYER;
      count := 0;
      checksum := 0;
      updateList := [];
    }

    /** CacheKey(Object[]): a fresh key updated with every object in order. */
    constructor FromObjects(objects: seq<Item>)
      requires |objects| <= MAX_LIST_SIZE
      ensures Valid() && updateList == objects
    {
      hashcode := DEFAULT_HASHCODE;
      multiplier := DEFAULT_MULTIPLYER;
      count := 0;
      checksum := 0;
      updateList := [];
      new;
      UpdateAll(objects);
    }

    /** The number of objects the key was updated with, which is always `count`. */
    function GetUpdateCount(): (n: nat)
      reads this
      requires Valid()
      ensures n == count && n == |updateList|
    {
      |updateList|
    }

    /**
     * update: count goes up by one, the checksum by the base hash, the hash
     * code becomes 37 * hashcode + base * count (wrapping), and the object
     * is appended.
     */
    method Update(obj: Item)
      requires Valid() && |updateList| < MAX_LIST_SIZE
      modifies this
      ensures Valid() && updateList == old(updateList) + [obj]
      ensures count == old(count) + 1
      ensures checksum == Wrap64(old(checksum) + BaseHash(obj))
      ensures hashcode == Wrap32(37 * old(hashcode) + Wrap32(BaseHash(obj) * count))
    {
      AppendStepHash(updateList, obj);
      AppendStepChecksum(updateList, obj);
      var baseHashCode := BaseHash(obj);
      count := count + 1;
      checksum := Wrap64(checksum + baseHashCode);
      baseHashCode := Wrap32(baseHashCode * count);
      hashcode := Wrap32(multiplier * hashcode + baseHashCode);
      updateList := updateList + [obj];
    }

    /** updateAll: the same as updating with each object in order. */
    method UpdateAll(objects: seq<Item>)
      requires Valid() && |updateList| + |objects| <= MAX_LIST_SIZE
      modifies this
      ensures Valid() && updateList == old(updateList) + objects
    {
      var i := 0;
      while i < |objects|
        invariant 0 <= i <= |objects|
        invariant Valid() && updateList == old(updateList) + objects[..i]
      {
        Update(objects[i]);
        assert objects[..i + 1] == objects[..i] + [objects[i]];
        i := i + 1;
      }
      assert objects[..i] == objects;
    }

    /**
     * equals: the same object is equal; null and anything that is not a
     * CacheKey are unequal; otherwise hash code, checksum and count must
     * agree and then the objects, position by position.
     */
    method Equals(argument: KeyArgument) returns (r: bool)
      requires Valid() && (argument.AKey? ==> argument.key.Valid())
      ensures argument == AKey(this) ==> r
      ensures argument.NotACacheKey? ==> !r
      ensures r <==> argument.AKey? && updateList == argument.key.updateList
      ensures r ==> var other := argument.key;
        hashcode == other.hashcode && checksum == other.checksum && count == other.count
    {
      if argument == AKey(this) {
        return true;
      }
      if argument.NotACacheKey? {
        return false;
      }
      var other := argument.key;
      if hashcode != other.hashcode {
        return false;
      }
      if checksum != other.checksum {
        return false;
      }
      if count != other.count {
        return false;
      }
      var i := 0;
      while i < |updateList|
        invariant 0 <= i <= |updateList| == |other.updateList|
        invariant updateList[..i] == other.updateList[..i]
      {
        if updateList[i] != other.updateList[i] {
          return false;
        }
        assert updateList[..i + 1] == updateList[..i] + [updateList[i]];
        assert other.updateList[..i + 1] == other.updateList[..i] + [other.updateList[i]];
        i := i + 1;
      }
      assert updateList == updateList[..i];
      assert other.updateList == other.updateList[..i];
      return true;
    }

    /** hashCode: the running hash, which is that of the ordered objects. */
    function HashCode(): (h: Int32)
      reads this
      requires Valid()
      ensures h == HashAfter(updateList)
    {
      hashcode
    }

    /** clone: a new key with the same state and its own copy of the list. */
    method Clone() returns (c: CacheKey)
      requires Valid()
      ensures fresh(c) && c.Valid()
      ensures c.updateList == updateList && c.hashcode == hashcode
      ensures c.checksum == checksum && c.count == count
    {
      c := new CacheKey();
      c.hashcode := hashcode;
      c.checksum := checksum;
      c.count := count;
      c.updateList := updateList;
    }
  }

  /**
   * Updating a clone leaves the original key as it was. The list here is a
   * sequence value, so the two keys can never share it: this follows from
   * the value semantics and says nothing about the ArrayList copy that
   * clone makes to keep the lists apart.
   */
  method UpdateClone(original: CacheKey, obj: Item) returns (c: CacheKey)
    requires original.Valid() && |original.updateList| < MAX_LIST_SIZE
    ensures fresh(c) && c.Valid() && c.updateList == original.updateList + [obj]
    ensures original.updateList == old(original.updateList) && original.hashcode == old(original.hashcode)
  {
    c := original.Clone();
    c.Update(obj);
  }
}
