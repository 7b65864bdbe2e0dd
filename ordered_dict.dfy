/**
  Python dictionaries as the scheduler uses them: lookups by key, and
  iteration in insertion order. A dictionary is a sequence of entries
  with pairwise distinct keys; assigning to an existing key replaces the
  value in place, assigning to a new key appends it, and `del` removes it.
*/
module OrderedDict {

  datatype Entry<K, V> = Entry(key: K, value: V)

  type Dict<K, V> = seq<Entry<K, V>>

  /** The keys in iteration order. */
  function Keys<K(==, !new), V(!new)>(d: Dict<K, V>): seq<K>
  {
    seq(|d|, i requires 0 <= i < |d| => d[i].key)
  }

  /** `k in d` */
  predicate Contains<K(==, !new), V(!new)>(d: Dict<K, V>, k: K)
  {
    k in Keys(d)
  }

  /** Python guarantees that a dictionary never holds a key twice. */
  predicate Valid<K(==, !new), V(!new)>(d: Dict<K, V>)
  {
    forall i, j :: 0 <= i < j < |d| ==> d[i].key != d[j].key
  }

  /** The position of `k` in iteration order. */
  function IndexOf<K(==, !new), V(!new)>(d: Dict<K, V>, k: K): (i: nat)
    requires Contains(d, k)
    ensures i < |d| && d[i].key == k
    ensures forall j :: 0 <= j < i ==> d[j].key != k
  {
    if d[0].key == k then 0
    else
      assert Keys(d) == [d[0].key] + Keys(d[1..]);
      1 + IndexOf(d[1..], k)
  }

  /** In a valid dictionary the entry holding `k` is the only one. */
  lemma IndexOfUnique<K(!new), V(!new)>(d: Dict<K, V>, i: nat)
    requires Valid(d) && i < |d|
    ensures Contains(d, d[i].key) && IndexOf(d, d[i].key) == i
  {
    assert Keys(d)[i] == d[i].key;
  }

  /** `d[k]`, which raises KeyError when `k` is absent. */
  function Get<K(==, !new), V(!new)>(d: Dict<K, V>, k: K): V
    requires Contains(d, k)
  {
    d[IndexOf(d, k)].value
  }

  /** `d[k] = v`: a present key keeps its position, a new key goes last. */
  function Put<K(==, !new), V(!new)>(d: Dict<K, V>, k: K, v: V): (r: Dict<K, V>)
    requires Valid(d)
    ensures Valid(r)
    ensures Contains(r, k) && Get(r, k) == v
    ensures forall k' :: k' != k ==> (Contains(r, k') <==> Contains(d, k'))
    ensures forall k' :: k' != k && Contains(d, k') ==> Get(r, k') == Get(d, k')
    ensures Contains(d, k) ==> Keys(r) == Keys(d)
    ensures !Contains(d, k) ==> Keys(r) == Keys(d) + [k] && r[|r| - 1] == Entry(k, v)
  {
    if Contains(d, k) then
      var i := IndexOf(d, k);
      var r := d[i := Entry(k, v)];
      assert Keys(r) == Keys(d);
      IndexOfUnique(r, i);
      forall k' | k' != k && Contains(d, k') ensures Get(r, k') == Get(d, k') {
        var j := IndexOf(d, k');
        IndexOfUnique(r, j);
      }
      r
    else
      var r := d + [Entry(k, v)];
      assert Keys(r) == Keys(d) + [k];
      assert forall j :: 0 <= j < |d| ==> Keys(d)[j] == d[j].key;
      IndexOfUnique(r, |d|);
      forall k' | k' != k && Contains(d, k') ensures Get(r, k') == Get(d, k') {
        var j := IndexOf(d, k');
        IndexOfUnique(r, j);
      }
      r
  }

  /** The dictionary with every key of `ks` deleted, the rest in their order. */
  function Without<K(==, !new), V(!new)>(d: Dict<K, V>, ks: set<K>): (r: Dict<K, V>)
    ensures forall e :: e in r <==> e in d && e.key !in ks
  {
    if |d| == 0 then []
    else (if d[0].key in ks then [] else [d[0]]) + Without(d[1..], ks)
  }

  lemma ContainsIffEntry<K(!new), V(!new)>(d: Dict<K, V>, k: K)
    ensures Contains(d, k) <==> exists e :: e in d && e.key == k
  {
    if Contains(d, k) {
      var i := IndexOf(d, k);
      assert d[i] in d;
    } else {
      forall e | e in d ensures e.key != k {
        var i :| 0 <= i < |d| && d[i] == e;
        assert Keys(d)[i] == e.key;
      }
    }
  }

  /** `del d[k]` for every `k` of `ks`: the other keys stay, with their values. */
  lemma {:induction false} WithoutKeys<K(!new), V(!new)>(d: Dict<K, V>, ks: set<K>)
    requires Valid(d)
    ensures Valid(Without(d, ks))
    ensures forall k :: Contains(Without(d, ks), k) <==> Contains(d, k) && k !in ks
    ensures forall k :: Contains(Without(d, ks), k) ==> Get(Without(d, ks), k) == Get(d, k)
  {
    var r := Without(d, ks);
    forall k ensures Contains(r, k) <==> Contains(d, k) && k !in ks {
      ContainsIffEntry(r, k);
      ContainsIffEntry(d, k);
    }
    if |d| > 0 {
      WithoutKeys(d[1..], ks);
      var rest := Without(d[1..], ks);
      assert Keys(d) == [d[0].key] + Keys(d[1..]);
      assert !Contains(rest, d[0].key);
      assert Valid(r) by {
        if d[0].key !in ks {
          forall j | 0 <= j < |rest| ensures rest[j].key != d[0].key {
            assert Keys(rest)[j] == rest[j].key;
          }
        }
      }
    }
    forall k | Contains(r, k) ensures Get(r, k) == Get(d, k) {
      var i := IndexOf(r, k);
      assert r[i] in d;
      var j :| 0 <= j < |d| && d[j] == r[i];
      IndexOfUnique(d, j);
    }
  }

  lemma {:induction false} WithoutConcat<K(!new), V(!new)>(a: Dict<K, V>, b: Dict<K, V>, ks: set<K>)
    ensures Without(a + b, ks) == Without(a, ks) + Without(b, ks)
  {
    if |a| > 0 {
      assert (a + b)[1..] == a[1..] + b;
      WithoutConcat(a[1..], b, ks);
    } else {
      assert a + b == b;
    }
  }

  lemma {:induction false} WithoutTwice<K(!new), V(!new)>(d: Dict<K, V>, ks: set<K>, ks': set<K>)
    ensures Without(Without(d, ks), ks') == Without(d, ks + ks')
  {
    if |d| > 0 {
      WithoutTwice(d[1..], ks, ks');
      var head := if d[0].key in ks then [] else [d[0]];
      WithoutConcat(head, Without(d[1..], ks), ks');
      assert Without(head, ks') == if d[0].key in ks + ks' then [] else [d[0]];
    }
  }

  /** Replacing an entry whose key is deleted anyway changes nothing. */
  lemma {:induction false} WithoutReplaced<K(!new), V(!new)>(d: Dict<K, V>, i: nat, e: Entry<K, V>, ks: set<K>)
    requires i < |d| && d[i].key in ks && e.key in ks
    ensures Without(d[i := e], ks) == Without(d, ks)
  {
    if i == 0 {
      assert d[i := e][1..] == d[1..];
    } else {
      assert d[i := e][1..] == d[1..][i - 1 := e];
      WithoutReplaced(d[1..], i - 1, e, ks);
    }
  }

  /** `d[k] = v` leaves every entry under another key where it was. */
  lemma PutWithout<K(!new), V(!new)>(d: Dict<K, V>, k: K, v: V)
    requires Valid(d)
    ensures Without(Put(d, k, v), {k}) == Without(d, {k})
  {
    if Contains(d, k) {
      WithoutReplaced(d, IndexOf(d, k), Entry(k, v), {k});
    } else {
      WithoutConcat(d, [Entry(k, v)], {k});
    }
  }
}
