/** Facts about sequences and maps used when a map of lists is filled in step by step. */
module Collections {
  /** The map `m` holds the non-empty list `expected` at `key`, and nothing at `key` when `expected` is empty. */
  ghost predicate HoldsListAt<K, V>(m: map<K, seq<V>>, key: K, expected: seq<V>)
  {
    (key in m <==> expected != []) && (key in m ==> m[key] == expected)
  }

  /**
   * One step of filling a map of lists: appending `x` to the list at `key`
   * (if `hasKey`) turns the expected list `earlier + mine` at `pos` into
   * `earlier + grown`, where `grown` is `mine` with `x` appended at the key.
   */
  lemma AppendToListAt<K, V>(before: map<K, seq<V>>, after: map<K, seq<V>>, hasKey: bool, key: K, x: V,
                            pos: K, earlier: seq<V>, mine: seq<V>, grown: seq<V>)
    requires HoldsListAt(before, pos, earlier + mine)
    requires after == if hasKey then before[key := (if key in before then before[key] else []) + [x]] else before
    requires grown == mine + (if hasKey && pos == key then [x] else [])
    ensures HoldsListAt(after, pos, earlier + grown)
  {
    if hasKey && pos == key {
      assert earlier + grown == (earlier + mine) + [x];
    } else {
      assert grown == mine;
    }
  }
}
