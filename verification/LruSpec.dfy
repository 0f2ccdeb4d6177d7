/** What a byte-budgeted cache with pins does to its recency list (front = most recent). */
module LruSpec {
  import opened Options

  datatype Entry<K, V> = Entry(key: K, value: V, bytes: nat, pins: nat)

  ghost predicate Has<K, V>(l: seq<Entry<K, V>>, k: K) {
    exists i :: 0 <= i < |l| && l[i].key == k
  }

  ghost predicate DistinctKeys<K, V>(l: seq<Entry<K, V>>) {
    forall i, j :: 0 <= i < j < |l| ==> l[i].key != l[j].key
  }

  /** Position of key k, or the length of the list. */
  ghost function Find<K, V>(l: seq<Entry<K, V>>, k: K): (i: nat)
    ensures i <= |l|
    ensures i < |l| ==> l[i].key == k
    ensures i == |l| ==> !Has(l, k)
  {
    if l == [] then 0
    else if l[0].key == k then 0
    else
      var i := Find(l[1..], k);
      assert forall j :: 0 < j < |l| ==> l[j] == l[1..][j - 1];
      i + 1
  }

  lemma FindAt<K, V>(l: seq<Entry<K, V>>, i: nat)
    requires DistinctKeys(l) && i < |l|
    ensures Find(l, l[i].key) == i
  {
  }

  ghost function RemoveAt<T>(l: seq<T>, i: nat): seq<T>
    requires i < |l|
  {
    l[..i] + l[i + 1..]
  }

  ghost function Without<K, V>(l: seq<Entry<K, V>>, k: K): seq<Entry<K, V>> {
    var i := Find(l, k);
    if i < |l| then RemoveAt(l, i) else l
  }

  ghost function Bytes<K, V>(l: seq<Entry<K, V>>): nat {
    if l == [] then 0 else l[0].bytes + Bytes(l[1..])
  }

  lemma {:induction false} BytesAppend<K, V>(a: seq<Entry<K, V>>, b: seq<Entry<K, V>>)
    ensures Bytes(a + b) == Bytes(a) + Bytes(b)
  {
    if a == [] {
      assert a + b == b;
    } else {
      BytesAppend(a[1..], b);
      assert (a + b)[1..] == a[1..] + b;
    }
  }

  lemma BytesCons<K, V>(e: Entry<K, V>, l: seq<Entry<K, V>>)
    ensures Bytes([e] + l) == e.bytes + Bytes(l)
  {
    assert ([e] + l)[1..] == l;
  }

  lemma BytesFrom<K, V>(l: seq<Entry<K, V>>, i: nat)
    requires i < |l|
    ensures Bytes(l[i..]) == l[i].bytes + Bytes(l[i + 1..])
  {
    assert l[i..][1..] == l[i + 1..];
  }

  lemma BytesRemoved<K, V>(l: seq<Entry<K, V>>, i: nat)
    requires i < |l|
    ensures Bytes(l) == Bytes(RemoveAt(l, i)) + l[i].bytes
  {
    hide Bytes;
    assert l == l[..i] + l[i..];
    BytesAppend(l[..i], l[i..]);
    BytesFrom(l, i);
    BytesAppend(l[..i], l[i + 1..]);
  }

  lemma BytesAt<K, V>(l: seq<Entry<K, V>>, i: nat, e: Entry<K, V>)
    requires i < |l| && e.bytes == l[i].bytes
    ensures Bytes(l[i := e]) == Bytes(l)
  {
    BytesRemoved(l, i);
    BytesRemoved(l[i := e], i);
    assert RemoveAt(l[i := e], i) == RemoveAt(l, i);
  }

  // ---------- eviction ----------

  ghost function OnlyPinned<K, V>(l: seq<Entry<K, V>>): seq<Entry<K, V>> {
    if l == [] then [] else (if l[0].pins > 0 then [l[0]] else []) + OnlyPinned(l[1..])
  }

  /** The list once every unpinned entry from position j on, the oldest ones, is gone. */
  ghost function Evicted<K, V>(l: seq<Entry<K, V>>, j: nat): seq<Entry<K, V>>
    requires j <= |l|
  {
    l[..j] + OnlyPinned(l[j..])
  }

  /** How far the walk from the old end gets, starting at position i. */
  ghost function Cut<K, V>(l: seq<Entry<K, V>>, budget: nat, i: nat): (j: nat)
    requires i <= |l|
    ensures j <= i
    ensures Bytes(Evicted(l, j)) <= budget || j == 0
    ensures forall m :: j < m <= i ==> Bytes(Evicted(l, m)) > budget
  {
    if Bytes(Evicted(l, i)) <= budget || i == 0 then i else Cut(l, budget, i - 1)
  }

  ghost function Evict<K, V>(l: seq<Entry<K, V>>, budget: nat): seq<Entry<K, V>> {
    Evicted(l, Cut(l, budget, |l|))
  }

  /** The removed entries are the shortest run of unpinned ones, oldest first, that meets the budget. */
  lemma EvictIsShortest<K, V>(l: seq<Entry<K, V>>, budget: nat)
    ensures exists j: nat :: j <= |l|
              && Evict(l, budget) == Evicted(l, j)
              && (Bytes(Evicted(l, j)) <= budget || j == 0)
              && forall m :: j < m <= |l| ==> Bytes(Evicted(l, m)) > budget
  {
    var j := Cut(l, budget, |l|);
    assert Evict(l, budget) == Evicted(l, j);
  }

  lemma {:induction false} PinnedMember<K, V>(l: seq<Entry<K, V>>, e: Entry<K, V>)
    ensures e in OnlyPinned(l) <==> e in l && e.pins > 0
  {
    if l != [] {
      PinnedMember(l[1..], e);
      assert l == [l[0]] + l[1..];
    }
  }

  lemma EvictMember<K, V>(l: seq<Entry<K, V>>, budget: nat, e: Entry<K, V>)
    ensures e in l && e.pins > 0 ==> e in Evict(l, budget)
    ensures e in Evict(l, budget) ==> e in l
  {
    var j := Cut(l, budget, |l|);
    PinnedMember(l[j..], e);
    assert l == l[..j] + l[j..];
    assert e in Evict(l, budget) <==> e in l[..j] || e in OnlyPinned(l[j..]);
  }

  /** A pinned entry is never evicted, and nothing new appears. */
  lemma PinnedSurvive<K, V>(l: seq<Entry<K, V>>, budget: nat)
    ensures forall e | e in l && e.pins > 0 :: e in Evict(l, budget)
    ensures forall e | e in Evict(l, budget) :: e in l
  {
    forall e | e in l && e.pins > 0 ensures e in Evict(l, budget) {
      EvictMember(l, budget, e);
    }
    forall e | e in Evict(l, budget) ensures e in l {
      EvictMember(l, budget, e);
    }
  }

  /** Afterwards the budget is met or only pinned entries are left. */
  lemma BudgetOrPinned<K, V>(l: seq<Entry<K, V>>, budget: nat)
    ensures Bytes(Evict(l, budget)) <= budget || forall e | e in Evict(l, budget) :: e.pins > 0
  {
    if Cut(l, budget, |l|) == 0 {
      assert l[0..] == l;
      assert Evict(l, budget) == OnlyPinned(l);
      forall e | e in Evict(l, budget) ensures e.pins > 0 {
        PinnedMember(l, e);
      }
    }
  }

  lemma {:induction false} OnlyPinnedDistinct<K, V>(l: seq<Entry<K, V>>)
    requires DistinctKeys(l)
    ensures DistinctKeys(OnlyPinned(l))
  {
    if l != [] {
      var p := OnlyPinned(l[1..]);
      OnlyPinnedDistinct(l[1..]);
      forall i | 0 <= i < |p| ensures p[i].key != l[0].key {
        PinnedMember(l[1..], p[i]);
        var j :| 0 <= j < |l[1..]| && l[1..][j] == p[i];
        assert l[j + 1] == p[i];
      }
    }
  }

  lemma EvictDistinct<K, V>(l: seq<Entry<K, V>>, budget: nat)
    requires DistinctKeys(l)
    ensures DistinctKeys(Evict(l, budget))
  {
    var j := Cut(l, budget, |l|);
    OnlyPinnedDistinct(l[j..]);
    var p := OnlyPinned(l[j..]);
    forall a, b | 0 <= a < j && 0 <= b < |p| ensures l[a].key != p[b].key {
      PinnedMember(l[j..], p[b]);
      var c :| 0 <= c < |l[j..]| && l[j..][c] == p[b];
      assert l[j + c] == p[b];
    }
  }

  // ---------- the operations ----------

  /** A hit moves the entry to the front. */
  ghost function Get<K, V>(l: seq<Entry<K, V>>, k: K): seq<Entry<K, V>> {
    var i := Find(l, k);
    if i < |l| then [l[i]] + RemoveAt(l, i) else l
  }

  ghost function Insert<K, V>(l: seq<Entry<K, V>>, budget: nat, e: Entry<K, V>): seq<Entry<K, V>> {
    Evict([e] + Without(l, e.key), budget)
  }

  ghost function Repin<K, V>(l: seq<Entry<K, V>>, k: K, pins: nat -> nat): seq<Entry<K, V>> {
    var i := Find(l, k);
    if i < |l| then l[i := l[i].(pins := pins(l[i].pins))] else l
  }

  function More(pins: nat): nat {
    pins + 1
  }

  /** Dropping a pin that is not there is a no-op. */
  function Fewer(pins: nat): nat {
    if pins > 0 then pins - 1 else 0
  }

  ghost function Pin<K, V>(l: seq<Entry<K, V>>, k: K): seq<Entry<K, V>> {
    Repin(l, k, More)
  }

  ghost function Unpin<K, V>(l: seq<Entry<K, V>>, k: K): seq<Entry<K, V>> {
    Repin(l, k, Fewer)
  }

  /** The value `insert` hands back: whatever is at the front after evicting. */
  ghost function FrontOf<K, V>(l: seq<Entry<K, V>>): Option<V> {
    if l == [] then None else Some(l[0].value)
  }

  /** An insert keeps its own entry exactly when it is pinned or fits beside the pinned rest. */
  lemma InsertKeepsIff<K, V>(l: seq<Entry<K, V>>, budget: nat, e: Entry<K, V>)
    requires DistinctKeys(l)
    ensures var rest := Without(l, e.key);
            Has(Insert(l, budget, e), e.key) <==> e.pins > 0 || e.bytes + Bytes(OnlyPinned(rest)) <= budget
    ensures Has(Insert(l, budget, e), e.key) ==> Insert(l, budget, e)[0] == e
  {
    var rest := Without(l, e.key);
    var all := [e] + rest;
    WithoutHas(l, e.key);
    assert all[1..] == rest;
    assert Evicted(all, 1) == [e] + OnlyPinned(rest);
    var j := Cut(all, budget, |all|);
    if j >= 1 {
      assert Evict(all, budget)[0] == e;
      if e.pins == 0 && j > 1 {
        EvictedShrinks(all, 1, j);
      }
    } else {
      assert all[0..] == all;
      assert Evict(all, budget) == OnlyPinned(all);
      assert Bytes(Evicted(all, 1)) > budget;
      if e.pins == 0 && Has(OnlyPinned(all), e.key) {
        var i :| 0 <= i < |OnlyPinned(all)| && OnlyPinned(all)[i].key == e.key;
        PinnedMember(rest, OnlyPinned(all)[i]);
      }
    }
  }

  /** An unpinned entry larger than the budget is gone as soon as it is inserted, and what comes back is the value of
      a pinned entry, or of no entry at all. */
  lemma InsertLoses<K, V>(e: Entry<K, V>, pinned: Entry<K, V>, budget: nat)
    requires e.pins == 0 && e.bytes > budget && pinned.pins > 0 && pinned.key != e.key
    ensures Insert([], budget, e) == [] && FrontOf(Insert([], budget, e)) == None
    ensures Insert([pinned], budget, e) == [pinned] && FrontOf(Insert([pinned], budget, e)) == Some(pinned.value)
  {
    InsertGone([], budget, e);
    InsertGone([pinned], budget, e);
    assert [pinned][1..] == [];
    assert OnlyPinned([pinned]) == [pinned];
  }

  /** If an insert does not keep its own entry it keeps the pinned ones only. */
  lemma InsertGone<K, V>(l: seq<Entry<K, V>>, budget: nat, e: Entry<K, V>)
    requires DistinctKeys(l) && !Has(l, e.key) && e.pins == 0 && e.bytes + Bytes(OnlyPinned(l)) > budget
    ensures Insert(l, budget, e) == OnlyPinned(l)
  {
    assert Without(l, e.key) == l;
    var all := [e] + l;
    assert all[1..] == l && all[0..] == all;
    var j := Cut(all, budget, |all|);
    if j >= 1 {
      assert Evict(all, budget)[0] == e;
      assert Has(Insert(l, budget, e), e.key);
    }
    InsertKeepsIff(l, budget, e);
  }

  /** Cutting one position deeper frees that entry if it is unpinned. */
  lemma EvictedStep<K, V>(l: seq<Entry<K, V>>, i: nat)
    requires i < |l|
    ensures Bytes(Evicted(l, i + 1)) == Bytes(Evicted(l, i)) + if l[i].pins > 0 then 0 else l[i].bytes
  {
    var p := OnlyPinned(l[i + 1..]);
    assert l[i..][1..] == l[i + 1..];
    assert l[..i + 1] == l[..i] + [l[i]];
    BytesAppend(l[..i], OnlyPinned(l[i..]));
    BytesAppend(l[..i + 1], p);
    BytesAppend(l[..i], [l[i]]);
    assert Bytes([l[i]]) == l[i].bytes + Bytes([l[i]][1..]);
    if l[i].pins > 0 {
      BytesAppend([l[i]], p);
    } else {
      assert [] + p == p;
    }
  }

  /** Cutting deeper frees no less. */
  lemma {:induction false} EvictedShrinks<K, V>(l: seq<Entry<K, V>>, i: nat, j: nat)
    requires i <= j <= |l|
    ensures Bytes(Evicted(l, i)) <= Bytes(Evicted(l, j))
    decreases j - i
  {
    if i < j {
      EvictedShrinks(l, i + 1, j);
      EvictedStep(l, i);
    }
  }

  lemma WithoutHas<K, V>(l: seq<Entry<K, V>>, k: K)
    requires DistinctKeys(l)
    ensures !Has(Without(l, k), k) && DistinctKeys(Without(l, k))
    ensures forall e :: e in Without(l, k) <==> e in l && e.key != k
  {
    var i := Find(l, k);
    if i < |l| {
      var r := RemoveAt(l, i);
      forall e | e in l && e.key != k ensures e in r {
        var j :| 0 <= j < |l| && l[j] == e;
        assert e == r[if j < i then j else j - 1];
      }
    }
  }
}
