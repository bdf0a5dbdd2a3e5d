/**
 * Python lists and dicts as the extractors use them: the order-preserving
 * `seen`-set de-duplication, and a dict that remembers insertion order.
 */
module Collections {

  predicate NoDup<T(==)>(s: seq<T>) {
    forall i, j :: 0 <= i < j < |s| ==> s[i] != s[j]
  }

  /** The position of the first occurrence of `x` in `s` (Python's `s.index(x)`). */
  function FirstIndex<T(==)>(s: seq<T>, x: T): (k: nat)
    requires x in s
    ensures k < |s| && s[k] == x
    ensures forall j :: 0 <= j < k ==> s[j] != x
  {
    if s[0] == x then 0 else 1 + FirstIndex(s[1..], x)
  }

  lemma FirstIndexOfPrefix<T>(s: seq<T>, x: T, y: T)
    requires y in s
    ensures FirstIndex(s + [x], y) == FirstIndex(s, y)
  {
    var b := FirstIndex(s, y);
    assert (s + [x])[b] == y;
  }

  /**
   * Order-preserving de-duplication: walk `s`, appending each element that
   * has not been seen yet. The result holds exactly the elements of `s`,
   * each once.
   */
  function Dedup<T(==,!new)>(s: seq<T>): (r: seq<T>)
    ensures NoDup(r)
    ensures forall x :: x in r <==> x in s
    ensures |r| <= |s|
  {
    if s == [] then []
    else
      var d := Dedup(s[..|s| - 1]);
      var x := s[|s| - 1];
      assert s == s[..|s| - 1] + [x];
      if x in d then d else d + [x]
  }

  /** Deduplicating one more element keeps the earlier result and adds the element when new. */
  lemma DedupSnoc<T(!new)>(s: seq<T>, x: T)
    ensures Dedup(s + [x]) == if x in Dedup(s) then Dedup(s) else Dedup(s) + [x]
  {
    assert (s + [x])[..|s|] == s;
  }

  /** Dedup keeps elements in the order of their first occurrence in `s`. */
  lemma {:induction false} DedupFirstSeenOrder<T(!new)>(s: seq<T>)
    ensures forall i, j :: 0 <= i < j < |Dedup(s)| ==>
      FirstIndex(s, Dedup(s)[i]) < FirstIndex(s, Dedup(s)[j])
  {
    if s != [] {
      var init, x := s[..|s| - 1], s[|s| - 1];
      assert s == init + [x];
      DedupFirstSeenOrder(init);
      var d := Dedup(init);
      forall y | y in d
        ensures FirstIndex(s, y) == FirstIndex(init, y)
      {
        FirstIndexOfPrefix(init, x, y);
      }
      if x !in d {
        assert FirstIndex(s, x) == |init|;
        forall i, j | 0 <= i < j < |Dedup(s)|
          ensures FirstIndex(s, Dedup(s)[i]) < FirstIndex(s, Dedup(s)[j])
        {
          assert Dedup(s) == d + [x];
          assert Dedup(s)[i] in d;
          if j == |d| {
            assert FirstIndex(init, Dedup(s)[i]) < |init|;
          } else {
            assert Dedup(s)[j] in d;
          }
        }
      }
    }
  }

  /**
   * A Python dict: its keys in insertion order and the key-to-value map.
   * Assigning to an existing key replaces the value and keeps the key's place.
   */
  datatype Dict<K(==,!new), V> = Dict(keys: seq<K>, entries: map<K, V>) {

    ghost predicate Valid() {
      NoDup(keys) && forall k :: k in entries <==> k in keys
    }

    /** `d[k] = v`. */
    function Put(k: K, v: V): (d: Dict<K, V>)
      ensures d.entries == entries[k := v]
      ensures Valid() ==> d.Valid()
      ensures Valid() ==> |d.keys| == |keys| + (if k in entries then 0 else 1)
      ensures |keys| <= |d.keys| && d.keys[..|keys|] == keys
    {
      if k in entries then Dict(keys, entries[k := v]) else Dict(keys + [k], entries[k := v])
    }
  }

  /** Two assignments to the same key leave the dict as the second one alone would. */
  lemma PutPut<K(!new), V>(d: Dict<K, V>, k: K, v1: V, v2: V)
    ensures d.Put(k, v1).Put(k, v2) == d.Put(k, v2)
  {
    assert d.entries[k := v1][k := v2] == d.entries[k := v2];
  }

  /** Assigning a key its current value changes nothing. */
  lemma PutSame<K(!new), V>(d: Dict<K, V>, k: K)
    requires k in d.entries
    ensures d.Put(k, d.entries[k]) == d
  {
    assert d.entries[k := d.entries[k]] == d.entries;
  }

  /** `{}`. */
  function NewDict<K(==,!new), V>(): (d: Dict<K, V>)
    ensures d.Valid() && d.keys == [] && d.entries == map[]
  {
    Dict([], map[])
  }
}
