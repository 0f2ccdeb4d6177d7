/** What a cache holds after any sequence of calls, told from the calls alone: the order of last use, the values last
    inserted, the pins counted since, and what an insert may push out. */
module LruRuns {
  import opened LruSpec
  import opened Options

  datatype Event<K, V> = Gets(key: K) | Inserts(entry: Entry<K, V>) | Pins(key: K) | Unpins(key: K)

  ghost function Apply<K, V>(budget: nat, l: seq<Entry<K, V>>, ev: Event<K, V>): seq<Entry<K, V>> {
    match ev
    case Gets(k) => Get(l, k)
    case Inserts(e) => Insert(l, budget, e)
    case Pins(k) => Pin(l, k)
    case Unpins(k) => Unpin(l, k)
  }

  /** The list after a run of calls on a new cache. */
  ghost function After<K, V>(budget: nat, run: seq<Event<K, V>>): seq<Entry<K, V>> {
    if run == [] then [] else Apply(budget, After(budget, run[..|run| - 1]), run[|run| - 1])
  }

  // ---------- the story the calls tell ----------

  /** When key k was last looked up or inserted: the number of that call, from 1 on, or 0. */
  ghost function LastUse<K, V>(run: seq<Event<K, V>>, k: K): nat {
    if run == [] then 0
    else
      var ev := run[|run| - 1];
      if ev == Gets(k) || (ev.Inserts? && ev.entry.key == k) then |run| else LastUse(run[..|run| - 1], k)
  }

  /** What was last inserted under key k. */
  ghost function LastPut<K, V>(run: seq<Event<K, V>>, k: K): Option<Entry<K, V>> {
    if run == [] then None
    else
      var ev := run[|run| - 1];
      if ev.Inserts? && ev.entry.key == k then Some(ev.entry) else LastPut(run[..|run| - 1], k)
  }

  /** The pins of key k since it was last inserted. */
  ghost function PinCount<K, V>(run: seq<Event<K, V>>, k: K): nat {
    if run == [] then 0
    else
      var ev, before := run[|run| - 1], PinCount(run[..|run| - 1], k);
      if ev.Inserts? && ev.entry.key == k then ev.entry.pins
      else if ev == Pins(k) then before + 1
      else if ev == Unpins(k) && before >= 1 then before - 1
      else before
  }

  /** The entry is what the calls say of its key. */
  ghost predicate TrueTo<K, V>(run: seq<Event<K, V>>, e: Entry<K, V>) {
    && LastPut(run, e.key).Some?
    && e.value == LastPut(run, e.key).value.value && e.bytes == LastPut(run, e.key).value.bytes
    && e.pins == PinCount(run, e.key)
  }

  /** The list is in order of last use, and each entry is what the calls say. */
  ghost predicate Told<K, V>(run: seq<Event<K, V>>, l: seq<Entry<K, V>>) {
    && (forall i, j :: 0 <= i < j < |l| ==> LastUse(run, l[i].key) > LastUse(run, l[j].key))
    && (forall i :: 0 <= i < |l| ==> TrueTo(run, l[i]))
  }

  lemma {:induction false} UsedBefore<K, V>(run: seq<Event<K, V>>, k: K)
    ensures LastUse(run, k) <= |run|
  {
    if run != [] {
      UsedBefore(run[..|run| - 1], k);
    }
  }

  /** Leaving entries out leaves the rest in order. */
  ghost predicate Within<K, V>(m: seq<Entry<K, V>>, l: seq<Entry<K, V>>) {
    exists at: seq<nat> :: Picks(at, m, l)
  }

  ghost predicate Picks<K, V>(at: seq<nat>, m: seq<Entry<K, V>>, l: seq<Entry<K, V>>) {
    && |at| == |m| && (forall i :: 0 <= i < |at| ==> at[i] < |l| && l[at[i]] == m[i])
    && (forall i, j :: 0 <= i < j < |at| ==> at[i] < at[j])
  }

  lemma ToldWithin<K, V>(run: seq<Event<K, V>>, m: seq<Entry<K, V>>, l: seq<Entry<K, V>>)
    requires Told(run, l) && Within(m, l)
    ensures Told(run, m)
  {
    var at: seq<nat> :| Picks(at, m, l);
    forall i | 0 <= i < |m| ensures TrueTo(run, m[i]) {
      assert l[at[i]] == m[i];
    }
    forall i, j | 0 <= i < j < |m| ensures LastUse(run, m[i].key) > LastUse(run, m[j].key) {
      assert l[at[i]] == m[i] && l[at[j]] == m[j];
    }
  }

  function Later(at: seq<nat>): seq<nat> {
    seq(|at|, i requires 0 <= i < |at| => at[i] + 1)
  }

  lemma PicksLater<K, V>(at: seq<nat>, m: seq<Entry<K, V>>, l: seq<Entry<K, V>>)
    requires l != [] && Picks(at, m, l[1..])
    ensures Picks(Later(at), m, l) && Picks([0] + Later(at), [l[0]] + m, l)
  {
    assert forall i :: 0 <= i < |at| ==> l[1..][at[i]] == l[at[i] + 1];
  }

  lemma {:induction false} PinnedWithin<K, V>(l: seq<Entry<K, V>>) returns (at: seq<nat>)
    ensures Picks(at, OnlyPinned(l), l)
  {
    if l == [] {
      at := [];
    } else {
      var rest := PinnedWithin(l[1..]);
      PicksLater(rest, OnlyPinned(l[1..]), l);
      hide Picks;
      at := if l[0].pins > 0 then [0] + Later(rest) else Later(rest);
      assert [] + OnlyPinned(l[1..]) == OnlyPinned(l[1..]);
    }
  }

  lemma EvictWithin<K, V>(l: seq<Entry<K, V>>, budget: nat)
    ensures Within(Evict(l, budget), l)
  {
    var j := Cut(l, budget, |l|);
    var rest := PinnedWithin(l[j..]);
    var at := seq(j, i => i) + seq(|rest|, i requires 0 <= i < |rest| => rest[i] + j);
    hide Cut, OnlyPinned;
    var m := l[..j] + OnlyPinned(l[j..]);
    forall i | 0 <= i < |at| ensures at[i] < |l| && l[at[i]] == m[i] {
    }
    assert Picks(at, m, l);
  }

  lemma WithoutWithin<K, V>(l: seq<Entry<K, V>>, k: K)
    ensures Within(Without(l, k), l)
  {
    var i := Find(l, k);
    hide Find;
    var m := Without(l, k);
    var at := seq(|m|, j requires 0 <= j < |m| => if j < i then j else j + 1);
    if i == |l| {
      assert Picks(at, m, l);
    } else {
      assert m == RemoveAt(l, i);
      assert Picks(at, m, l);
    }
  }

  // ---------- each call keeps to the story ----------

  /** A call that has nothing to do with the entry leaves its story alone. */
  lemma StoryKept<K, V>(run: seq<Event<K, V>>, ev: Event<K, V>, e: Entry<K, V>)
    requires TrueTo(run, e) && (ev.Inserts? ==> ev.entry.key != e.key) && ev != Pins(e.key) && ev != Unpins(e.key)
    ensures TrueTo(run + [ev], e)
  {
    assert (run + [ev])[..|run|] == run;
  }

  lemma UseKept<K, V>(run: seq<Event<K, V>>, ev: Event<K, V>, k: K)
    ensures LastUse(run + [ev], k) ==
      if ev == Gets(k) || (ev.Inserts? && ev.entry.key == k) then |run| + 1 else LastUse(run, k)
  {
    assert (run + [ev])[..|run|] == run;
  }

  lemma OthersStory<K, V>(run: seq<Event<K, V>>, ev: Event<K, V>, k: K, e: Entry<K, V>)
    requires TrueTo(run, e) && e.key != k && (ev == Gets(k) || (ev.Inserts? && ev.entry.key == k))
    ensures TrueTo(run + [ev], e) && LastUse(run + [ev], e.key) == LastUse(run, e.key) <= |run|
  {
    StoryKept(run, ev, e);
    UseKept(run, ev, e.key);
    UsedBefore(run, e.key);
  }

  /** The rest of the list after key k was used: everything in it was used earlier. */
  lemma ToldWithout<K, V>(run: seq<Event<K, V>>, l: seq<Entry<K, V>>, ev: Event<K, V>, k: K)
    requires DistinctKeys(l) && Told(run, l) && (ev == Gets(k) || (ev.Inserts? && ev.entry.key == k))
    ensures Told(run + [ev], Without(l, k))
    ensures forall i :: 0 <= i < |Without(l, k)| ==> LastUse(run + [ev], Without(l, k)[i].key) <= |run|
  {
    hide LastUse, TrueTo, Without, DistinctKeys, Within;
    var m := Without(l, k);
    assert Told(run, m) by {
      WithoutWithin(l, k);
      ToldWithin(run, m, l);
    }
    assert forall e | e in m :: e.key != k by { WithoutHas(l, k); }
    forall i | 0 <= i < |m| ensures TrueTo(run + [ev], m[i]) && LastUse(run + [ev], m[i].key) == LastUse(run, m[i].key) <= |run| {
      assert m[i] in m;
      OthersStory(run, ev, k, m[i]);
    }
  }

  /** The used entry goes in front of the rest. */
  lemma ToldFront<K, V>(run: seq<Event<K, V>>, e: Entry<K, V>, rest: seq<Entry<K, V>>)
    requires Told(run, rest) && TrueTo(run, e) && LastUse(run, e.key) == |run|
    requires forall i :: 0 <= i < |rest| ==> LastUse(run, rest[i].key) < |run|
    ensures Told(run, [e] + rest)
  {
    hide LastUse, TrueTo;
    var m := [e] + rest;
    forall i | 0 <= i < |m| ensures TrueTo(run, m[i]) && (i > 0 ==> m[i] == rest[i - 1]) {
    }
  }

  lemma GetTold<K, V>(run: seq<Event<K, V>>, l: seq<Entry<K, V>>, k: K)
    requires DistinctKeys(l) && Told(run, l)
    ensures Told(run + [Gets(k)], Get(l, k)) && DistinctKeys(Get(l, k))
  {
    var i, ev := Find(l, k), Gets(k);
    WithoutHas(l, k);
    ToldWithout(run, l, ev, k);
    if i < |l| {
      StoryKept(run, ev, l[i]);
      UseKept(run, ev, k);
      ToldFront(run + [ev], l[i], Without(l, k));
      assert Get(l, k) == [l[i]] + Without(l, k);
      hide Without;
      forall j | 0 <= j < |Without(l, k)| ensures Without(l, k)[j].key != k {
      }
    }
  }

  lemma InsertTold<K, V>(run: seq<Event<K, V>>, l: seq<Entry<K, V>>, budget: nat, e: Entry<K, V>)
    requires DistinctKeys(l) && Told(run, l)
    ensures Told(run + [Inserts(e)], Insert(l, budget, e)) && DistinctKeys(Insert(l, budget, e))
  {
    var ev, rest := Inserts(e), Without(l, e.key);
    WithoutHas(l, e.key);
    ToldWithout(run, l, ev, e.key);
    assert TrueTo(run + [ev], e);
    UseKept(run, ev, e.key);
    hide Without;
    ToldFront(run + [ev], e, rest);
    EvictWithin([e] + rest, budget);
    EvictDistinct([e] + rest, budget);
    ToldWithin(run + [ev], Evict([e] + rest, budget), [e] + rest);
  }

  lemma RepinTold<K, V>(run: seq<Event<K, V>>, l: seq<Entry<K, V>>, k: K, ev: Event<K, V>)
    requires DistinctKeys(l) && Told(run, l) && (ev == Pins(k) || ev == Unpins(k))
    ensures Told(run + [ev], Apply(0, l, ev)) && DistinctKeys(Apply(0, l, ev))
  {
    var l' := Apply(0, l, ev);
    forall i | 0 <= i < |l'| ensures TrueTo(run + [ev], l'[i]) && LastUse(run + [ev], l'[i].key) == LastUse(run, l[i].key) {
      assert (run + [ev])[..|run|] == run;
      if l[i].key == k {
        FindAt(l, i);
      } else {
        StoryKept(run, ev, l[i]);
      }
      UseKept(run, ev, l[i].key);
    }
  }

  /** After any run of calls the list is in order of last use, and every entry has the value and bytes last inserted
      under its key and the pins counted since. */
  lemma {:induction false} EveryRunIsTold<K, V>(budget: nat, run: seq<Event<K, V>>)
    ensures Told(run, After(budget, run)) && DistinctKeys(After(budget, run))
  {
    if run != [] {
      var front, ev := run[..|run| - 1], run[|run| - 1];
      EveryRunIsTold(budget, front);
      var l := After(budget, front);
      assert run == front + [ev];
      match ev {
        case Gets(k) => GetTold(front, l, k);
        case Inserts(e) => InsertTold(front, l, budget, e);
        case Pins(k) => RepinTold(front, l, k, ev);
        case Unpins(k) => RepinTold(front, l, k, ev);
      }
    }
  }

  // ---------- what an insert pushes out ----------

  /** An unpinned entry only stays if everything in front of it does. */
  lemma OldestGoFirst<K, V>(l: seq<Entry<K, V>>, budget: nat, i: nat, j: nat)
    requires DistinctKeys(l) && i < j < |l| && l[j].pins == 0 && Has(Evict(l, budget), l[j].key)
    ensures Has(Evict(l, budget), l[i].key)
  {
    var c, m := Cut(l, budget, |l|), Evict(l, budget);
    var n :| 0 <= n < |m| && m[n].key == l[j].key;
    if n >= c {
      var p := OnlyPinned(l[c..]);
      assert m[n] == p[n - c];
      PinnedMember(l[c..], p[n - c]);
      assert false;
    }
    assert m[n] == l[n];
    assert m[i] == l[i];
  }

  /** Nothing is pushed out that need not be: some entry that is gone would not have fitted beside what is left. */
  lemma NoMoreThanNeeded<K, V>(l: seq<Entry<K, V>>, budget: nat)
    requires Evict(l, budget) != l
    ensures exists e :: e in l && e.pins == 0 && Bytes(Evict(l, budget)) + e.bytes > budget
  {
    var c := Cut(l, budget, |l|);
    assert l[..|l|] == l && Evicted(l, |l|) == l;
    EvictedStep(l, c);
    if l[c].pins > 0 {
      assert c == 0 && l[0..] == l;
      if forall e | e in l :: e.pins > 0 {
        AllPinnedStay(l);
        assert false;
      }
    }
  }

  lemma {:induction false} AllPinnedStay<K, V>(l: seq<Entry<K, V>>)
    requires forall e | e in l :: e.pins > 0
    ensures OnlyPinned(l) == l
  {
    if l != [] {
      AllPinnedStay(l[1..]);
    }
  }

  lemma HasAt<K, V>(l: seq<Entry<K, V>>, k: K) returns (i: nat)
    requires Has(l, k)
    ensures i < |l| && l[i].key == k
  {
    i :| i < |l| && l[i].key == k;
  }

  /** Whatever an insert pushes out was used less recently than every unpinned entry it leaves. */
  lemma LeastRecentGoes<K, V>(budget: nat, run: seq<Event<K, V>>, e: Entry<K, V>, a: K, b: K)
    requires Has(After(budget, run), a) || a == e.key
    requires var l := After(budget, run + [Inserts(e)]); !Has(l, a) && exists f :: f in l && f.key == b && f.pins == 0
    ensures LastUse(run + [Inserts(e)], a) < LastUse(run + [Inserts(e)], b)
  {
    var l, ev := After(budget, run), Inserts(e);
    assert (run + [ev])[..|run|] == run;
    EveryRunIsTold(budget, run);
    var rest := Without(l, e.key);
    var all := [e] + rest;
    WithoutHas(l, e.key);
    ToldWithout(run, l, ev, e.key);
    assert TrueTo(run + [ev], e);
    UseKept(run, ev, e.key);
    ToldFront(run + [ev], e, rest);
    assert DistinctKeys(all);
    assert Has(all, a) by { StillThere(l, e, a); }
    var f :| f in Evict(all, budget) && f.key == b && f.pins == 0;
    EvictMember(all, budget, f);
    hide Evict, After, Without, LastUse, LastPut, PinCount, TrueTo;
    var i := HasAt(all, a);
    var j :| 0 <= j < |all| && all[j] == f;
    assert Has(Evict(all, budget), f.key) by { MemberHas(Evict(all, budget), f); }
    if i < j {
      OldestGoFirst(all, budget, i, j);
    }
    assert i != j;
  }

  lemma MemberHas<K, V>(l: seq<Entry<K, V>>, e: Entry<K, V>)
    requires e in l
    ensures Has(l, e.key)
  {
  }

  lemma StillThere<K, V>(l: seq<Entry<K, V>>, e: Entry<K, V>, a: K)
    requires DistinctKeys(l) && (Has(l, a) || a == e.key)
    ensures Has([e] + Without(l, e.key), a)
  {
    WithoutHas(l, e.key);
    if a == e.key {
      assert ([e] + Without(l, e.key))[0].key == a;
    } else {
      var i := HasAt(l, a);
      assert l[i] in Without(l, e.key);
      MemberHas([e] + Without(l, e.key), l[i]);
    }
  }

  // ---------- which keys are there ----------

  lemma GetKeys<K, V>(l: seq<Entry<K, V>>, k: K, a: K)
    requires DistinctKeys(l)
    ensures Has(Get(l, k), a) <==> Has(l, a)
  {
    var i := Find(l, k);
    if i < |l| {
      WithoutHas(l, k);
      assert Get(l, k) == [l[i]] + Without(l, k);
      StillThereIff(l, l[i], a);
    }
  }

  lemma StillThereIff<K, V>(l: seq<Entry<K, V>>, e: Entry<K, V>, a: K)
    requires DistinctKeys(l)
    ensures Has([e] + Without(l, e.key), a) <==> Has(l, a) || a == e.key
  {
    if Has(l, a) || a == e.key {
      StillThere(l, e, a);
    }
    var m := [e] + Without(l, e.key);
    if Has(m, a) && a != e.key {
      var i := HasAt(m, a);
      WithoutHas(l, e.key);
      assert m[i] == Without(l, e.key)[i - 1] && m[i] in l;
      MemberHas(l, m[i]);
    }
  }

  lemma RepinKeys<K, V>(l: seq<Entry<K, V>>, k: K, pins: nat -> nat, a: K)
    ensures Has(Repin(l, k, pins), a) <==> Has(l, a)
  {
    var m := Repin(l, k, pins);
    if Has(l, a) {
      var i := HasAt(l, a);
      assert m[i].key == a;
    }
    if Has(m, a) {
      var i := HasAt(m, a);
      assert l[i].key == a;
    }
  }

  /** Only inserts change which keys are there, and an insert that leaves the budget kept adds its own and takes none. */
  lemma KeysKept<K, V>(budget: nat, run: seq<Event<K, V>>, ev: Event<K, V>, a: K)
    ensures var was, now := After(budget, run), After(budget, run + [ev]);
            if !ev.Inserts? then Has(now, a) <==> Has(was, a)
            else
              && (Has(now, a) ==> Has(was, a) || a == ev.entry.key)
              && (Bytes([ev.entry] + Without(was, ev.entry.key)) <= budget ==>
                    (Has(now, a) <==> Has(was, a) || a == ev.entry.key))
  {
    var was := After(budget, run);
    assert (run + [ev])[..|run|] == run;
    EveryRunIsTold(budget, run);
    hide Told;
    match ev {
      case Gets(k) => GetKeys(was, k, a);
      case Pins(k) => RepinKeys(was, k, More, a);
      case Unpins(k) => RepinKeys(was, k, Fewer, a);
      case Inserts(e) =>
        var all := [e] + Without(was, e.key);
        StillThereIff(was, e, a);
        if Has(Evict(all, budget), a) {
          var i := HasAt(Evict(all, budget), a);
          EvictMember(all, budget, Evict(all, budget)[i]);
          MemberHas(all, Evict(all, budget)[i]);
        }
        if Bytes(all) <= budget {
          assert all[..|all|] == all && Evicted(all, |all|) == all;
        }
    }
  }
}
