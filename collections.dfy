/** Small predicates over sequences and integers shared by the models. */
module Collections {

  /** No element occurs twice. */
  predicate Distinct<T(==)>(s: seq<T>)
  {
    forall i, j | 0 <= i < j < |s| :: s[i] != s[j]
  }

  /** A configured Java `int` bound read as a size: negative bounds admit nothing. */
  function Max0(n: int): nat
  {
    if n < 0 then 0 else n
  }
}
