/** Whether every cluster gets its own seed: a matter of the queue's lowest bucket, where the seeds' pairs wait. */
module SeedFairness {
  import opened Numbers
  import opened BucketQueues

  /** Seed k is its own cluster's, or waits in the lowest bucket, and no other cluster's pair for it waits there. */
  predicate Safe(low: seq<Element>, seeds: seq<nat>, labels: seq<int>, k: nat)
    requires k < |seeds|
  {
    && seeds[k] < |labels|
    && (labels[seeds[k]] == k || (labels[seeds[k]] < 0 && Element(seeds[k], k) in low))
    && forall e | e in low && e.idx == seeds[k] :: e.k == k
  }

  /** From position p of the bucket on, its newest part, there is no such pair. */
  predicate NoneFrom(low: seq<Element>, p: nat, e: Element) {
    forall r :: p <= r < |low| ==> low[r] != e
  }

  /** Seed k went to another cluster, or another cluster's pair for it comes out before its own. */
  ghost predicate Lost(low: seq<Element>, seeds: seq<nat>, labels: seq<int>, k: nat) {
    && k < |seeds| && seeds[k] < |labels|
    && if labels[seeds[k]] >= 0 then labels[seeds[k]] != k
       else exists p: nat :: p < |low| && low[p].idx == seeds[k] && NoneFrom(low, p, Element(seeds[k], k))
  }

  ghost predicate Fair(low: seq<Element>, seeds: seq<nat>, labels: seq<int>, crowded: bool) {
    if crowded then exists k: nat :: Lost(low, seeds, labels, k)
    else forall k: nat | k < |seeds| :: Safe(low, seeds, labels, k)
  }

  /** With every seed's own pair in the lowest bucket and nothing else there. */
  lemma FairStarts(low: seq<Element>, seeds: seq<nat>, labels: seq<int>)
    requires Distinct(seeds) && forall k :: 0 <= k < |seeds| ==> seeds[k] < |labels| && labels[seeds[k]] < 0
    requires forall e :: e in low <==> e.k < |seeds| && e.idx == seeds[e.k]
    ensures Fair(low, seeds, labels, false)
  {
  }

  /** Taking the newest pair of the lowest bucket, or one from elsewhere if that is empty, and labelling its voxel. */
  lemma FairPops(low: seq<Element>, low': seq<Element>, e: Element, seeds: seq<nat>, labels: seq<int>, crowded: bool)
    requires Fair(low, seeds, labels, crowded) && e.idx < |labels| && Distinct(seeds)
    requires low == low' + [e] || (low == [] && low' == [])
    ensures Fair(low', seeds, if labels[e.idx] >= 0 then labels else labels[e.idx := e.k], crowded)
  {
    var labels' := if labels[e.idx] >= 0 then labels else labels[e.idx := e.k];
    if crowded {
      var k: nat :| Lost(low, seeds, labels, k);
      LostPops(low, low', e, seeds, labels, k);
    } else {
      forall k: nat | k < |seeds| ensures Safe(low', seeds, labels', k) {
        assert Safe(low, seeds, labels, k);
        if low == low' + [e] {
          assert e in low;
          assert forall f | f in low' :: f in low;
          assert forall f | f in low && f != e :: f in low';
        }
      }
    }
  }

  lemma LostPops(low: seq<Element>, low': seq<Element>, e: Element, seeds: seq<nat>, labels: seq<int>, k: nat)
    requires Lost(low, seeds, labels, k) && e.idx < |labels|
    requires low == low' + [e] || (low == [] && low' == [])
    ensures Lost(low', seeds, if labels[e.idx] >= 0 then labels else labels[e.idx := e.k], k)
  {
    if labels[seeds[k]] < 0 {
      var p: nat :| p < |low| && low[p].idx == seeds[k] && NoneFrom(low, p, Element(seeds[k], k));
      assert low[|low'|] == e;
      if p < |low'| {
        forall r | p <= r < |low'| ensures low'[r] != Element(seeds[k], k) {
          assert low'[r] == low[r];
        }
        assert low'[p] == low[p];
      }
    }
  }

  /** Offering an open voxel to a cluster that owns its own seed: the seeds become crowded exactly if the voxel is a
      seed and the pair goes to the lowest bucket, which is where a near one goes unless that bucket is empty for good. */
  lemma FairPushes(low: seq<Element>, low': seq<Element>, e: Element, seeds: seq<nat>, labels: seq<int>, crowded: bool,
                   near: bool)
    requires Fair(low, seeds, labels, crowded) && e.idx < |labels| && labels[e.idx] < 0
    requires e.k < |seeds| && seeds[e.k] < |labels| && labels[seeds[e.k]] == e.k
    requires if near then low' == low + [e] || low == low' == [] else low' == low
    ensures Fair(low', seeds, labels, crowded || (near && e.idx in seeds))
  {
    if crowded {
      var k: nat :| Lost(low, seeds, labels, k);
      if labels[seeds[k]] < 0 {
        var p: nat :| p < |low| && low[p].idx == seeds[k] && NoneFrom(low, p, Element(seeds[k], k));
        assert low'[p] == low[p];
        assert NoneFrom(low', p, Element(seeds[k], k));
      }
      assert Lost(low', seeds, labels, k);
    } else if near && e.idx in seeds {
      var k: nat :| k < |seeds| && seeds[k] == e.idx;
      assert Safe(low, seeds, labels, k);
      assert low'[|low|] == e;
      assert NoneFrom(low', |low|, Element(seeds[k], k));
      assert Lost(low', seeds, labels, k);
    } else {
      forall k: nat | k < |seeds| ensures Safe(low', seeds, labels, k) {
        assert Safe(low, seeds, labels, k);
      }
    }
  }

  /** With nothing pending every seed is its own cluster's exactly if they never got crowded. */
  lemma FairEnds(seeds: seq<nat>, labels: seq<int>, crowded: bool)
    requires Fair([], seeds, labels, crowded) && forall k :: 0 <= k < |seeds| ==> seeds[k] < |labels|
    ensures (forall k: nat | k < |seeds| :: labels[seeds[k]] == k) <==> !crowded
  {
    if crowded {
      var k: nat :| Lost([], seeds, labels, k);
    } else {
      forall k: nat | k < |seeds| ensures labels[seeds[k]] == k {
        assert Safe([], seeds, labels, k);
      }
    }
  }
}
