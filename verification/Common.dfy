/** Small shared vocabulary of the Console V2 models. */
module Common {

  datatype Option<+T> = None | Some(value: T)

  function Max(left: int, right: int): int {
    if left > right then left else right
  }

  function Min(left: int, right: int): int {
    if left < right then left else right
  }

  /** Looks a key up; a missing row is None. */
  function Lookup<K, V>(table: map<K, V>, key: K): Option<V> {
    if key in table then Some(table[key]) else None
  }

  /** A subset is no larger than the set that contains it. */
  lemma {:induction false} SubsetSize<T>(small: set<T>, large: set<T>)
    requires small <= large
    ensures |small| <= |large|
    ensures |small| == |large| ==> small == large
  {
    assert large == small + (large - small);
    assert |large| == |small| + |large - small|;
    if |small| == |large| {
      assert large - small == {};
    }
  }
}
