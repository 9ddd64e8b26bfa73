/**
 * The rules SoftCache and WeakCache share: the bounded deque of hard links
 * that keeps recently read values reachable, and the draining of the
 * reference queue, whose entries name keys to drop from the delegate.
 */
module ReferenceCache {
  import opened Collections

  /**
   * A read hit: the value goes to the front of the deque, and if the deque
   * is then longer than `numberOfHardLinks` one element leaves the back.
   */
  function PushHardLink<V>(links: seq<V>, value: V, numberOfHardLinks: int): seq<V>
  {
    var pushed := [value] + links;
    if |pushed| > numberOfHardLinks then pushed[..|pushed| - 1] else pushed
  }

  /**
   * The pushed value leads the deque whenever the bound admits one link,
   * the rest keeps the old order, at most one old link is dropped, and a
   * bound that held before still holds.
   */
  lemma {:induction false} PushHardLinkBounded<V>(links: seq<V>, value: V, numberOfHardLinks: int)
    ensures var r := PushHardLink(links, value, numberOfHardLinks);
      && r == ([value] + links)[..|r|]
      && |links| <= |r| <= |links| + 1
      && (|r| == |links| + 1 <==> |links| + 1 <= numberOfHardLinks)
      && (|links| <= Max0(numberOfHardLinks) ==> |r| <= Max0(numberOfHardLinks))
      && (numberOfHardLinks >= 1 ==> r[0] == value)
  {
    var pushed := [value] + links;
    assert pushed[..|pushed|] == pushed;
  }

  /** The delegate's entries left after the keys named by the reference queue are removed. */
  function RemoveKeys<K, V>(m: map<K, V>, collected: seq<K>): (r: map<K, V>)
    ensures r.Keys == m.Keys - set k | k in collected
    ensures forall k | k in r :: r[k] == m[k]
  {
    map k | k in m && k !in collected :: m[k]
  }

  /** Draining one more queued key removes it from what was left. */
  lemma RemoveKeysStep<K, V>(m: map<K, V>, collected: seq<K>, i: nat)
    requires i < |collected|
    ensures RemoveKeys(m, collected[..i + 1]) == RemoveKeys(m, collected[..i]) - {collected[i]}
  {
    assert collected[..i + 1] == collected[..i] + [collected[i]];
  }
}
