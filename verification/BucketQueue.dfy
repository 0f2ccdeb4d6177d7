/** The bucketed priority queue that orders the supervoxel flood. */
module BucketQueues {
  import opened Numbers

  datatype Element = Element(idx: nat, k: nat)

  const BUCKETS := 2048
  const SCALE := 128.0

  /** Conversion of a distance to a bucket number: scale, then drop the fraction. */
  function RawBucket(d: real): int {
    var s := d * SCALE;
    if s >= 0.0 then s.Floor else -(-s).Floor
  }

  /** A bucket is 1/128 wide, and conversion drops the fraction towards zero. */
  lemma BucketWidth(d: real)
    ensures d >= 0.0 ==> RawBucket(d) as real <= 128.0 * d < RawBucket(d) as real + 1.0
    ensures d <= 0.0 ==> RawBucket(d) as real - 1.0 < 128.0 * d <= RawBucket(d) as real
  {
  }

  lemma BucketRises(c: real, d: real)
    requires c <= d
    ensures RawBucket(c) <= RawBucket(d)
    ensures 0.0 <= c && c + 1.0 / 128.0 <= d ==> RawBucket(c) < RawBucket(d)
  {
    BucketWidth(c);
    BucketWidth(d);
    hide RawBucket;
  }

  /** Exactly the distances below 1/128 belong to bucket 0 or below. */
  lemma LowestBucket(d: real)
    ensures RawBucket(d) <= 0 <==> d < 1.0 / 128.0
  {
    BucketWidth(d);
    hide RawBucket;
  }

  // ---------- in which order the elements come out ----------

  /** A bucket, last in first out. */
  ghost function Reversed(b: seq<Element>): seq<Element> {
    if b == [] then [] else [b[|b| - 1]] + Reversed(b[..|b| - 1])
  }

  /** All elements in the order in which pops take them. */
  ghost function PopOrder(bs: seq<seq<Element>>): seq<Element> {
    if bs == [] then [] else Reversed(bs[0]) + PopOrder(bs[1..])
  }

  lemma {:induction false} OrderEmpty(bs: seq<seq<Element>>, n: nat)
    requires n <= |bs| && forall b :: 0 <= b < n ==> bs[b] == []
    ensures PopOrder(bs) == PopOrder(bs[n..])
  {
    if n == 0 {
      assert bs[0..] == bs;
    } else {
      assert bs[0] == [];
      OrderEmpty(bs[1..], n - 1);
      assert bs[1..][n - 1..] == bs[n..];
    }
  }

  lemma OrderFrom(bs: seq<seq<Element>>, n: nat)
    requires n < |bs|
    ensures PopOrder(bs[n..]) == Reversed(bs[n]) + PopOrder(bs[n + 1..])
  {
    assert bs[n..][1..] == bs[n + 1..];
  }

  lemma NewestFirst(b: seq<Element>, e: Element)
    ensures Reversed(b + [e]) == [e] + Reversed(b)
  {
    assert (b + [e])[..|b|] == b;
  }

  /** The newest element of the lowest bucket in use comes first, and taking it leaves the order of the others. */
  lemma OrderPop(bs: seq<seq<Element>>, n: nat, bs': seq<seq<Element>>, e: Element)
    requires n < |bs| && (forall b :: 0 <= b < n ==> bs[b] == []) && |bs'| == |bs|
    requires bs[n] == bs'[n] + [e] && bs' == bs[n := bs'[n]]
    ensures PopOrder(bs) == [e] + PopOrder(bs')
  {
    hide PopOrder, Reversed;
    OrderEmpty(bs, n);
    OrderFrom(bs, n);
    NewestFirst(bs'[n], e);
    var rest := PopOrder(bs[n + 1..]);
    assert PopOrder(bs) == [e] + (Reversed(bs'[n]) + rest);
    assert PopOrder(bs') == Reversed(bs'[n]) + rest by {
      OrderEmpty(bs', n);
      OrderFrom(bs', n);
      assert bs[n + 1..] == bs'[n + 1..];
    }
  }

  /** A new element comes after all that lies in lower buckets and before all else. */
  lemma {:induction false} OrderPush(bs: seq<seq<Element>>, b: nat, e: Element)
    requires b < |bs|
    ensures PopOrder(bs[b := bs[b] + [e]]) == PopOrder(bs[..b]) + [e] + PopOrder(bs[b..])
  {
    var bs' := bs[b := bs[b] + [e]];
    if b == 0 {
      assert bs'[1..] == bs[1..] && bs[0..] == bs;
      assert (bs[0] + [e])[..|bs[0]|] == bs[0];
    } else {
      OrderPush(bs[1..], b - 1, e);
      assert bs'[1..] == bs[1..][b - 1 := bs[b] + [e]];
      assert bs[..b][1..] == bs[1..][..b - 1] && bs[1..][b - 1..] == bs[b..];
    }
  }

  lemma {:induction false} OrderSplit(bs: seq<seq<Element>>, b: nat)
    requires b <= |bs|
    ensures PopOrder(bs) == PopOrder(bs[..b]) + PopOrder(bs[b..])
  {
    if b == 0 {
      assert bs[0..] == bs && bs[..0] == [];
    } else {
      OrderSplit(bs[1..], b - 1);
      assert bs[..b][1..] == bs[1..][..b - 1] && bs[1..][b - 1..] == bs[b..];
    }
  }

  /** All elements held in a run of buckets. */
  ghost function Union(bs: seq<seq<Element>>): multiset<Element> {
    if bs == [] then multiset{} else multiset(bs[0]) + Union(bs[1..])
  }

  lemma {:induction false} UnionAppend(bs: seq<seq<Element>>, b: nat, e: Element)
    requires b < |bs|
    ensures Union(bs[b := bs[b] + [e]]) == Union(bs) + multiset{e}
  {
    if b == 0 {
      assert bs[b := bs[b] + [e]][1..] == bs[1..];
    } else {
      UnionAppend(bs[1..], b - 1, e);
      assert bs[b := bs[b] + [e]][1..] == bs[1..][b - 1 := bs[b] + [e]];
    }
  }

  lemma {:induction false} UnionEmpty(bs: seq<seq<Element>>)
    requires forall i :: 0 <= i < |bs| ==> bs[i] == []
    ensures Union(bs) == multiset{}
  {
    if bs != [] {
      assert bs[0] == [];
      forall i | 0 <= i < |bs| - 1 ensures bs[1..][i] == [] {
        assert bs[i + 1] == [];
      }
      UnionEmpty(bs[1..]);
    }
  }

  // ---------- nearer elements come out first ----------

  datatype Pushed = Pushed(d: real, e: Element)

  /** The buckets of a new queue after some pushes. */
  ghost function PushAll(l: seq<Pushed>): (bs: seq<seq<Element>>)
    ensures |bs| == 2048
  {
    if l == [] then seq(2048, _ => [])
    else
      var bs, p := PushAll(l[..|l| - 1]), l[|l| - 1];
      var b := Clamp(RawBucket(p.d), 0, 2047);
      bs[b := bs[b] + [p.e]]
  }

  lemma PushOneMore(l: seq<Pushed>, d: real, e: Element)
    ensures var bs, b := PushAll(l), Clamp(RawBucket(d), 0, 2047);
            PushAll(l + [Pushed(d, e)]) == bs[b := bs[b] + [e]]
  {
    hide RawBucket;
    assert (l + [Pushed(d, e)])[..|l|] == l;
  }

  /** The elements pushed with a distance below t. */
  ghost function Nearer(l: seq<Pushed>, t: real): multiset<Element> {
    if l == [] then multiset{}
    else Nearer(l[..|l| - 1], t) + if l[|l| - 1].d < t then multiset{l[|l| - 1].e} else multiset{}
  }

  ghost function All(l: seq<Pushed>): multiset<Element> {
    if l == [] then multiset{} else All(l[..|l| - 1]) + multiset{l[|l| - 1].e}
  }

  lemma {:induction false} ReversedSame(b: seq<Element>)
    ensures multiset(Reversed(b)) == multiset(b)
  {
    if b != [] {
      ReversedSame(b[..|b| - 1]);
      assert b == b[..|b| - 1] + [b[|b| - 1]];
    }
  }

  lemma {:induction false} OrderHolds(bs: seq<seq<Element>>)
    ensures multiset(PopOrder(bs)) == Union(bs)
  {
    if bs != [] {
      OrderHolds(bs[1..]);
      ReversedSame(bs[0]);
    }
  }

  lemma BucketBelow(d: real, b: nat)
    requires 0.0 <= d && b <= 2047
    ensures Clamp(RawBucket(d), 0, 2047) < b <==> d < b as real / 128.0
  {
    BucketWidth(d);
    hide RawBucket;
  }

  /** The first b buckets hold the elements pushed with distances below b/128, all buckets hold everything pushed. */
  lemma {:induction false} BucketsHold(l: seq<Pushed>, b: nat)
    requires b <= 2047 && forall i :: 0 <= i < |l| ==> l[i].d >= 0.0
    ensures Union(PushAll(l)[..b]) == Nearer(l, b as real / 128.0) && Union(PushAll(l)) == All(l)
  {
    hide RawBucket, Union;
    if l == [] {
      UnionEmpty(PushAll(l)[..b]);
      UnionEmpty(PushAll(l));
    } else {
      var bs, p := PushAll(l[..|l| - 1]), l[|l| - 1];
      BucketsHold(l[..|l| - 1], b);
      BucketBelow(p.d, b);
      var c := Clamp(RawBucket(p.d), 0, 2047);
      UnionAppend(bs, c, p.e);
      if c < b {
        UnionAppend(bs[..b], c, p.e);
        assert bs[c := bs[c] + [p.e]][..b] == bs[..b][c := bs[c] + [p.e]];
      } else {
        assert bs[c := bs[c] + [p.e]][..b] == bs[..b];
      }
    }
  }

  /** Whatever is pushed before the first pop, all elements nearer than b/128 come out before all others. */
  lemma NearerFirst(l: seq<Pushed>, b: nat) returns (near: seq<Element>, far: seq<Element>)
    requires b <= 2047 && forall i :: 0 <= i < |l| ==> l[i].d >= 0.0
    ensures PopOrder(PushAll(l)) == near + far
    ensures multiset(near) == Nearer(l, b as real / 128.0) && multiset(far) == All(l) - Nearer(l, b as real / 128.0)
  {
    var bs := PushAll(l);
    near, far := PopOrder(bs[..b]), PopOrder(bs[b..]);
    BucketsHold(l, b);
    OrderSplit(bs, b);
    OrderHolds(bs[..b]);
    OrderHolds(bs);
    hide PopOrder, Union, PushAll;
    assert multiset(near + far) == multiset(near) + multiset(far);
  }

  lemma {:induction false} CountIn(l: seq<Pushed>, i: nat, t: real)
    requires i < |l|
    ensures l[i].e in All(l) && (l[i].d < t ==> l[i].e in Nearer(l, t))
  {
    if i < |l| - 1 {
      CountIn(l[..|l| - 1], i, t);
    }
  }

  lemma {:induction false} CountOut(l: seq<Pushed>, i: nat, t: real)
    requires i < |l| && l[i].d >= t && forall j :: 0 <= j < |l| && j != i ==> l[j].e != l[i].e
    ensures l[i].e !in Nearer(l, t)
  {
    if i < |l| - 1 {
      CountOut(l[..|l| - 1], i, t);
    } else {
      NotNearer(l[..i], l[i].e, t);
    }
  }

  lemma {:induction false} NotNearer(l: seq<Pushed>, e: Element, t: real)
    requires forall j :: 0 <= j < |l| ==> l[j].e != e
    ensures e !in Nearer(l, t)
  {
    if l != [] {
      NotNearer(l[..|l| - 1], e, t);
    }
  }

  /** Of two elements pushed before the first pop, at least 1/128 apart, the nearer comes out first. */
  lemma NearerBeforeFarther(l: seq<Pushed>, i: nat, j: nat, p: nat, q: nat)
    requires i < |l| && j < |l| && (forall m :: 0 <= m < |l| ==> l[m].d >= 0.0)
    requires l[i].d + 1.0 / 128.0 <= l[j].d < 2047.0 / 128.0
    requires forall m :: 0 <= m < |l| && m != j ==> l[m].e != l[j].e
    requires forall m :: 0 <= m < |l| && m != i ==> l[m].e != l[i].e
    requires var o := PopOrder(PushAll(l)); p < |o| && q < |o| && o[p] == l[i].e && o[q] == l[j].e
    ensures p < q
  {
    hide RawBucket, PopOrder, PushAll, Nearer, All;
    var b := BucketBetween(l[i].d, l[j].d);
    var t := b as real / 128.0;
    var near, far := NearerFirst(l, b);
    CountIn(l, i, t);
    CountOut(l, j, t);
    OnceOnly(l, i);
    assert l[i].e !in All(l) - Nearer(l, t);
    InFirst(near, far, p);
    InSecond(near, far, q);
  }

  lemma BucketBetween(c: real, d: real) returns (b: nat)
    requires 0.0 <= c && c + 1.0 / 128.0 <= d < 2047.0 / 128.0
    ensures b <= 2047 && c < b as real / 128.0 <= d
  {
    b := RawBucket(d);
    BucketWidth(d);
    BucketWidth(c);
    hide RawBucket;
  }

  lemma InFirst(near: seq<Element>, far: seq<Element>, p: nat)
    requires p < |near + far| && (near + far)[p] !in multiset(far)
    ensures p < |near|
  {
    assert forall m :: 0 <= m < |far| ==> far[m] in multiset(far);
  }

  lemma InSecond(near: seq<Element>, far: seq<Element>, q: nat)
    requires q < |near + far| && (near + far)[q] !in multiset(near)
    ensures q >= |near|
  {
    assert forall m :: 0 <= m < |near| ==> near[m] in multiset(near);
  }

  lemma {:induction false} OnceOnly(l: seq<Pushed>, i: nat)
    requires i < |l| && forall m :: 0 <= m < |l| && m != i ==> l[m].e != l[i].e
    ensures All(l)[l[i].e] == 1
  {
    if i < |l| - 1 {
      OnceOnly(l[..|l| - 1], i);
    } else {
      NoneOf(l[..i], l[i].e);
    }
  }

  lemma {:induction false} NoneOf(l: seq<Pushed>, e: Element)
    requires forall j :: 0 <= j < |l| ==> l[j].e != e
    ensures All(l)[e] == 0
  {
    if l != [] {
      NoneOf(l[..|l| - 1], e);
    }
  }

  /** Nothing lies above the lowest bucket. */
  ghost predicate OnlyLowest(bs: seq<seq<Element>>) {
    |bs| > 0 && forall b :: 0 < b < |bs| ==> bs[b] == []
  }

  lemma LowestHoldsAll(bs: seq<seq<Element>>)
    requires OnlyLowest(bs)
    ensures Union(bs) == multiset(bs[0])
  {
    UnionEmpty(bs[1..]);
  }

  class BucketQueue {
    var buckets: seq<seq<Element>>
    var cur: nat
    var size: nat

    ghost predicate Valid()
      reads this
    {
      && |buckets| == BUCKETS
      && cur < BUCKETS
      && (forall b :: 0 <= b < cur ==> buckets[b] == [])
      && size == |Contents()|
    }

    ghost function Contents(): multiset<Element>
      reads this
    {
      Union(buckets)
    }

    constructor ()
      ensures Valid()
      ensures Contents() == multiset{} && cur == 0 && buckets == PushAll([])
    {
      buckets := seq(BUCKETS, _ => []);
      cur, size := 0, 0;
      new;
      UnionEmpty(buckets);
    }

    /** A distance below the cursor lands in the cursor's bucket, one past the end in the last. */
    method Push(d: real, e: Element)
      requires Valid()
      modifies this
      ensures Valid() && cur == old(cur)
      ensures Contents() == old(Contents()) + multiset{e}
      ensures var b := Clamp(RawBucket(d), cur, BUCKETS - 1);
              && buckets == old(buckets)[b := old(buckets)[b] + [e]]
              && PopOrder(buckets) == PopOrder(old(buckets)[..b]) + [e] + PopOrder(old(buckets)[b..])
      ensures cur == 0 ==> forall l :: old(buckets) == PushAll(l) ==> buckets == PushAll(l + [Pushed(d, e)])
    {
      hide Union, RawBucket, PopOrder, PushAll;
      var b := Clamp(RawBucket(d), cur, BUCKETS - 1);
      UnionAppend(buckets, b, e);
      OrderPush(buckets, b, e);
      forall l | buckets == PushAll(l) && cur == 0 ensures buckets[b := buckets[b] + [e]] == PushAll(l + [Pushed(d, e)]) {
        PushOneMore(l, d, e);
      }
      buckets := buckets[b := buckets[b] + [e]];
      size := size + 1;
    }

    method IsEmpty() returns (r: bool)
      requires Valid()
      ensures r <==> Contents() == multiset{}
    {
      r := size == 0;
    }

    /** Takes the newest element of the lowest non-empty bucket; the cursor never moves back. */
    method Pop() returns (e: Element)
      requires Valid() && Contents() != multiset{}
      modifies this
      ensures Valid() && old(cur) <= cur
      ensures forall b :: 0 <= b < cur ==> old(buckets)[b] == []
      ensures old(buckets)[cur] == buckets[cur] + [e]
      ensures buckets == old(buckets)[cur := buckets[cur]]
      ensures old(Contents()) == Contents() + multiset{e}
      ensures PopOrder(old(buckets)) == [e] + PopOrder(buckets)
    {
      hide Union, PopOrder;
      while buckets[cur] == []
        invariant old(cur) <= cur < BUCKETS
        invariant buckets == old(buckets) && size == old(size)
        invariant forall b :: 0 <= b < cur ==> buckets[b] == []
        decreases BUCKETS - cur
      {
        if cur == BUCKETS - 1 {
          UnionEmpty(buckets);
        }
        cur := cur + 1;
      }
      var rest := buckets[cur][..|buckets[cur]| - 1];
      e := buckets[cur][|rest|];
      assert buckets[cur] == rest + [e];
      ghost var was := buckets;
      buckets := buckets[cur := rest];
      assert was == buckets[cur := buckets[cur] + [e]];
      UnionAppend(buckets, cur, e);
      OrderPop(was, cur, buckets, e);
      size := size - 1;
    }
  }
}
