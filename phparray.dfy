/**
 * Ordered PHP arrays: a sequence of key/value pairs in iteration order, with
 * the semantics of the assignment `$array[$key] = $value`.
 */
module PhpArray {
  import opened Wrappers

  /** A PHP array key is an integer or a string. */
  datatype Key = IntKey(i: int) | StrKey(s: string)

  /** The keys of an array, in iteration order. */
  function Keys<V>(m: seq<(Key, V)>): seq<Key>
  {
    seq(|m|, i requires 0 <= i < |m| => m[i].0)
  }

  /** No key occurs twice. */
  predicate Unique(ks: seq<Key>)
  {
    forall i, j :: 0 <= i < j < |ks| ==> ks[i] != ks[j]
  }

  /** `$array[$key]`, or None when the key is absent. */
  function Lookup<V>(m: seq<(Key, V)>, k: Key): Option<V>
  {
    if m == [] then None
    else if m[0].0 == k then Some(m[0].1)
    else Lookup(m[1..], k)
  }

  /** The key order left by assigning to key `k`: kept if present, appended otherwise. */
  function AppendNew(ks: seq<Key>, k: Key): seq<Key>
  {
    if k in ks then ks else ks + [k]
  }

  /** The key order left by assigning to each key of `ns` in turn. */
  function AppendAll(ks: seq<Key>, ns: seq<Key>): seq<Key>
    decreases ns
  {
    if ns == [] then ks else AppendAll(AppendNew(ks, ns[0]), ns[1..])
  }

  /**
   * `$array[$key] = $value`: an existing key keeps its position and takes the
   * new value, a new key is appended at the end; no other entry changes.
   */
  function Put<V>(m: seq<(Key, V)>, k: Key, v: V): (r: seq<(Key, V)>)
    ensures Keys(r) == AppendNew(Keys(m), k)
    ensures Lookup(r, k) == Some(v)
    ensures forall k' :: k' != k ==> Lookup(r, k') == Lookup(m, k')
    ensures forall e :: e in r ==> e == (k, v) || e in m
  {
    if m == [] then [(k, v)]
    else if m[0].0 == k then
      var r := [(k, v)] + m[1..];
      assert Keys(r) == Keys(m) && Keys(m)[0] == k;
      r
    else
      var rest := Put(m[1..], k, v);
      assert Keys(m) == [m[0].0] + Keys(m[1..]);
      assert Keys([m[0]] + rest) == [m[0].0] + Keys(rest);
      [m[0]] + rest
  }

  /** Assigning to a key the array does not hold yet appends the entry at the end. */
  lemma {:induction false} PutAppends<V>(m: seq<(Key, V)>, k: Key, v: V)
    requires k !in Keys(m)
    ensures Put(m, k, v) == m + [(k, v)]
    decreases |m|
  {
    if m != [] {
      assert Keys(m)[0] == m[0].0;
      assert Keys(m[1..]) == Keys(m)[1..];
      assert Put(m, k, v) == [m[0]] + Put(m[1..], k, v);
      PutAppends(m[1..], k, v);
      assert m + [(k, v)] == [m[0]] + (m[1..] + [(k, v)]);
    }
  }

  /** Without its first key, a duplicate-free list stays duplicate-free and no longer holds that key. */
  lemma UniqueTail(ks: seq<Key>)
    requires Unique(ks) && ks != []
    ensures Unique(ks[1..]) && ks[0] !in ks[1..]
  {
    forall a, b | 0 <= a < b < |ks| - 1 ensures ks[1..][a] != ks[1..][b] {
      assert ks[a + 1] != ks[b + 1];
    }
    forall j | 0 <= j < |ks| - 1 ensures ks[1..][j] != ks[0] {
      assert ks[j + 1] != ks[0];
    }
  }

  lemma AppendNewKeepsUnique(ks: seq<Key>, k: Key)
    requires Unique(ks)
    ensures Unique(AppendNew(ks, k))
    ensures k in AppendNew(ks, k)
  {
  }

  /** Assigning keys one after another never creates a duplicate key. */
  lemma {:induction false} AppendAllKeepsUnique(ks: seq<Key>, ns: seq<Key>)
    requires Unique(ks)
    ensures Unique(AppendAll(ks, ns))
    ensures forall k :: k in AppendAll(ks, ns) <==> k in ks || k in ns
    decreases ns
  {
    if ns != [] {
      AppendNewKeepsUnique(ks, ns[0]);
      AppendAllKeepsUnique(AppendNew(ks, ns[0]), ns[1..]);
      assert ns == [ns[0]] + ns[1..];
    }
  }

  /** With no key assigned twice, the keys appear exactly in assignment order. */
  lemma {:induction false} AppendAllDistinct(ks: seq<Key>, ns: seq<Key>)
    requires Unique(ks + ns)
    ensures AppendAll(ks, ns) == ks + ns
    decreases ns
  {
    if ns != [] {
      assert ns[0] == (ks + ns)[|ks|];
      assert ns[0] !in ks by {
        forall i | 0 <= i < |ks| ensures ks[i] != ns[0] {
          assert ks[i] == (ks + ns)[i];
        }
      }
      assert ks + ns == (ks + [ns[0]]) + ns[1..];
      AppendAllDistinct(ks + [ns[0]], ns[1..]);
    }
  }
}
