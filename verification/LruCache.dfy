/** The cache object: a recency list, the keys present in it and a running byte count. */
module LruCaches {
  import opened Options
  import opened LruSpec

  class LruCache<K(==,!new), V> {
    const budget: nat
    var lru: seq<Entry<K, V>>   // front = most recent
    var keys: set<K>            // domain of the key index
    var bytesUsed: nat

    /** List, index and byte count tell the same story. */
    ghost predicate Valid()
      reads this
    {
      && DistinctKeys(lru)
      && (forall k :: k in keys <==> Has(lru, k))
      && bytesUsed == Bytes(lru)
    }

    constructor (budget: nat)
      ensures Valid() && lru == [] && this.budget == budget
    {
      this.budget := budget;
      lru, keys, bytesUsed := [], {}, 0;
    }

    method Contains(k: K) returns (r: bool)
      requires Valid()
      ensures r <==> Has(lru, k)
    {
      r := k in keys;
    }

    /** Follows the index to an entry. */
    method Locate(k: K) returns (i: nat)
      requires Valid() && k in keys
      ensures i < |lru| && i == Find(lru, k) && lru[i].key == k
    {
      i := 0;
      while lru[i].key != k
        invariant i < |lru|
        invariant forall j :: 0 <= j < i ==> lru[j].key != k
        decreases |lru| - i
      {
        assert Has(lru, k);
        i := i + 1;
      }
      FindAt(lru, i);
    }

    method Get(k: K) returns (r: Option<V>)
      requires Valid()
      modifies this
      ensures Valid() && lru == LruSpec.Get(old(lru), k)
      ensures var i := Find(old(lru), k); r == if i < |old(lru)| then Some(old(lru)[i].value) else None
    {
      if k !in keys {
        return None;
      }
      var i := Locate(k);
      MoveToFront(lru, i);
      lru := [lru[i]] + (lru[..i] + lru[i + 1..]);
      r := Some(lru[0].value);
    }

    method Pin(k: K)
      requires Valid()
      modifies this
      ensures Valid() && lru == LruSpec.Pin(old(lru), k)
    {
      if k in keys {
        var i := Locate(k);
        var e := lru[i].(pins := lru[i].pins + 1);
        RepinKeeps(lru, i, e);
        lru := lru[i := e];
      }
    }

    method Unpin(k: K)
      requires Valid()
      modifies this
      ensures Valid() && lru == LruSpec.Unpin(old(lru), k)
    {
      if k in keys {
        var i := Locate(k);
        if lru[i].pins > 0 {
          var e := lru[i].(pins := lru[i].pins - 1);
          RepinKeeps(lru, i, e);
          lru := lru[i := e];
        } else {
          assert lru == lru[i := lru[i]];
        }
      }
    }

    method Insert(k: K, value: V, bytes: nat, pins: nat) returns (r: Option<V>)
      requires Valid()
      modifies this
      ensures Valid() && lru == LruSpec.Insert(old(lru), budget, Entry(k, value, bytes, pins))
      ensures r == FrontOf(lru)
    {
      var e := Entry(k, value, bytes, pins);
      ghost var was := lru;
      if k in keys {
        var i := Locate(k);
        Unlink(i);
      }
      assert lru == Without(was, k);
      WithoutHas(was, k);
      LinkFront(e);
      EvictOld();
      r := if lru == [] then None else Some(lru[0].value);
    }

    method LinkFront(e: Entry<K, V>)
      requires Valid() && !Has(lru, e.key)
      modifies this
      ensures Valid() && lru == [e] + old(lru)
    {
      ghost var was := lru;
      lru := [e] + lru;
      keys := keys + {e.key};
      bytesUsed := bytesUsed + e.bytes;
      BytesCons(e, was);
      DistinctCons(was, e);
      forall k ensures k in keys <==> Has(lru, k) {
        HasCons(was, e, k);
      }
    }

    method Unlink(i: nat)
      requires Valid() && i < |lru|
      modifies this
      ensures Valid() && lru == RemoveAt(old(lru), i)
      ensures bytesUsed == old(bytesUsed) - old(lru)[i].bytes
    {
      BytesRemoved(lru, i);
      FindAt(lru, i);
      WithoutHas(lru, lru[i].key);
      forall k ensures Has(RemoveAt(lru, i), k) <==> k in keys - {lru[i].key} {
        HasRemoved(lru, i, k);
      }
      bytesUsed := bytesUsed - lru[i].bytes;
      keys := keys - {lru[i].key};
      lru := lru[..i] + lru[i + 1..];
    }

    /** Walks from the old end, skipping pinned entries, until the budget is met. */
    method EvictOld()
      requires Valid()
      modifies this
      ensures Valid() && lru == Evict(old(lru), budget)
    {
      ghost var l := lru;
      var it := |lru|;
      assert lru == Evicted(l, it);
      while bytesUsed > budget && it != 0
        invariant 0 <= it <= |lru| && it <= |l|
        invariant Valid() && lru == Evicted(l, it)
        invariant Cut(l, budget, it) == Cut(l, budget, |l|)
        decreases it
      {
        it := it - 1;
        EvictStep(l, it);
        if lru[it].pins == 0 {
          Unlink(it);
        }
      }
    }
  }

  lemma HasCons<K, V>(l: seq<Entry<K, V>>, e: Entry<K, V>, k: K)
    ensures Has([e] + l, k) <==> k == e.key || Has(l, k)
  {
    if k == e.key {
      assert ([e] + l)[0].key == k;
    } else if Has(l, k) {
      var i :| 0 <= i < |l| && l[i].key == k;
      assert ([e] + l)[i + 1].key == k;
    }
  }

  lemma HasRemoved<K, V>(l: seq<Entry<K, V>>, i: nat, k: K)
    requires DistinctKeys(l) && i < |l|
    ensures Has(RemoveAt(l, i), k) <==> Has(l, k) && k != l[i].key
  {
    if Has(l, k) && k != l[i].key {
      var j :| 0 <= j < |l| && l[j].key == k;
      assert RemoveAt(l, i)[if j < i then j else j - 1].key == k;
    }
    if Has(RemoveAt(l, i), k) {
      var j :| 0 <= j < |RemoveAt(l, i)| && RemoveAt(l, i)[j].key == k;
      assert l[if j < i then j else j + 1].key == k;
    }
  }

  lemma MoveToFront<K(!new), V>(l: seq<Entry<K, V>>, i: nat)
    requires DistinctKeys(l) && i < |l|
    ensures DistinctKeys([l[i]] + RemoveAt(l, i)) && Bytes([l[i]] + RemoveAt(l, i)) == Bytes(l)
    ensures forall k :: Has([l[i]] + RemoveAt(l, i), k) <==> Has(l, k)
  {
    hide RemoveAt, Bytes, Has, DistinctKeys;
    forall k ensures Has([l[i]] + RemoveAt(l, i), k) <==> Has(l, k) {
      HasCons(RemoveAt(l, i), l[i], k);
      HasRemoved(l, i, k);
      HasItem(l, i);
    }
    BytesRemoved(l, i);
    BytesCons(l[i], RemoveAt(l, i));
    HasRemoved(l, i, l[i].key);
    DistinctRemoved(l, i);
    DistinctCons(RemoveAt(l, i), l[i]);
  }

  lemma HasItem<K, V>(l: seq<Entry<K, V>>, i: nat)
    requires i < |l|
    ensures Has(l, l[i].key)
  {
  }

  lemma DistinctRemoved<K, V>(l: seq<Entry<K, V>>, i: nat)
    requires DistinctKeys(l) && i < |l|
    ensures DistinctKeys(RemoveAt(l, i))
  {
  }

  lemma DistinctCons<K, V>(l: seq<Entry<K, V>>, e: Entry<K, V>)
    requires DistinctKeys(l) && !Has(l, e.key)
    ensures DistinctKeys([e] + l)
  {
  }

  lemma RepinKeeps<K(!new), V>(l: seq<Entry<K, V>>, i: nat, e: Entry<K, V>)
    requires DistinctKeys(l) && i < |l| && e.key == l[i].key && e.bytes == l[i].bytes
    ensures DistinctKeys(l[i := e]) && Bytes(l[i := e]) == Bytes(l)
    ensures forall k :: Has(l[i := e], k) <==> Has(l, k)
  {
    BytesAt(l, i, e);
    forall k ensures Has(l[i := e], k) <==> Has(l, k) {
      if Has(l, k) {
        var j :| 0 <= j < |l| && l[j].key == k;
        assert l[i := e][j].key == k;
      }
      if Has(l[i := e], k) {
        var j :| 0 <= j < |l| && l[i := e][j].key == k;
        assert l[j].key == k;
      }
    }
  }

  /** One more step of the walk. */
  lemma EvictStep<K, V>(l: seq<Entry<K, V>>, it: nat)
    requires it < |l|
    ensures it < |Evicted(l, it + 1)| && Evicted(l, it + 1)[it] == l[it]
    ensures Evicted(l, it) == if l[it].pins > 0 then Evicted(l, it + 1) else RemoveAt(Evicted(l, it + 1), it)
  {
    assert l[it..] == [l[it]] + l[it + 1..];
    assert l[..it + 1] == l[..it] + [l[it]];
    var a, p := l[..it], OnlyPinned(l[it + 1..]);
    assert Evicted(l, it + 1) == a + [l[it]] + p;
    assert RemoveAt(Evicted(l, it + 1), it) == a + p;
  }
}
