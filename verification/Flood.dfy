/** The order-independent theory of the supervoxel flood: labels spreading over a graph from a
    list of seeds through a pool of pending (node, cluster) pairs, taken in any order. */
module Flood {
  import opened BucketQueues
  import opened Numbers

  /** The nodes are the voxels that take part; the edges join neighbours. */
  datatype Graph = Graph(nodes: set<nat>, edges: set<(nat, nat)>)

  predicate Edge(g: Graph, v: nat, w: nat) {
    (v, w) in g.edges
  }

  ghost predicate IsPath(g: Graph, p: seq<nat>) {
    && p != []
    && (forall i :: 0 <= i < |p| ==> p[i] in g.nodes)
    && (forall i :: 0 <= i < |p| - 1 ==> Edge(g, p[i], p[i + 1]))
  }

  function Last(p: seq<nat>): nat
    requires p != []
  {
    p[|p| - 1]
  }

  ghost predicate Reachable(g: Graph, seeds: seq<nat>, v: nat) {
    exists p :: IsPath(g, p) && p[0] in seeds && Last(p) == v
  }

  /** A path from the cluster's seed to v that stays inside the cluster. */
  ghost predicate JoinedBy(g: Graph, seeds: seq<nat>, labels: seq<int>, v: nat, p: seq<nat>) {
    && v < |labels| && 0 <= labels[v] < |seeds|
    && IsPath(g, p) && p[0] == seeds[labels[v]] && Last(p) == v
    && (forall i :: 0 <= i < |p| ==> p[i] < |labels| && labels[p[i]] == labels[v])
  }

  ghost predicate Joined(g: Graph, seeds: seq<nat>, labels: seq<int>, v: nat) {
    exists p :: JoinedBy(g, seeds, labels, v, p)
  }

  /** The fixed data of one run: the nodes index the labels and the seeds are distinct nodes. */
  ghost predicate Setting(g: Graph, seeds: seq<nat>, n: nat) {
    && (forall v :: v in g.nodes ==> v < n)
    && (forall k :: 0 <= k < |seeds| ==> seeds[k] in g.nodes)
    && Distinct(seeds)
  }

  ghost predicate NextTo(g: Graph, labels: seq<int>, w: nat, k: nat, v: nat) {
    w < |labels| && labels[w] == k && Edge(g, w, v)
  }

  /** A pending pair is a cluster's own seed or lies next to a voxel of that cluster. */
  ghost predicate Entitled(g: Graph, seeds: seq<nat>, labels: seq<int>, e: Element) {
    && e.k < |seeds| && e.idx in g.nodes
    && (e.idx == seeds[e.k] || exists w :: NextTo(g, labels, w, e.k, e.idx))
  }

  ghost predicate LabelsOk(g: Graph, seeds: seq<nat>, labels: seq<int>) {
    && (forall v :: 0 <= v < |labels| ==> -1 <= labels[v] < |seeds|)
    && (forall v :: 0 <= v < |labels| && labels[v] >= 0 ==> v in g.nodes && Joined(g, seeds, labels, v))
  }

  /** A node that has no label yet. */
  predicate Open(g: Graph, labels: seq<int>, w: nat) {
    w in g.nodes && w < |labels| && labels[w] < 0
  }

  /** Nothing that still has to be visited is missing from the pool. */
  ghost predicate FrontierOk(g: Graph, seeds: seq<nat>, labels: seq<int>, q: multiset<Element>) {
    && (forall e :: e in q ==> Entitled(g, seeds, labels, e))
    && (forall k :: 0 <= k < |seeds| && seeds[k] < |labels| && labels[seeds[k]] < 0 ==> Element(seeds[k], k) in q)
    && (forall v: nat, w: nat | Edge(g, v, w) && Open(g, labels, w) && v < |labels| && labels[v] >= 0
          :: Element(w, labels[v]) in q)
  }

  ghost predicate Inv(g: Graph, seeds: seq<nat>, labels: seq<int>, q: multiset<Element>) {
    && Setting(g, seeds, |labels|)
    && LabelsOk(g, seeds, labels)
    && FrontierOk(g, seeds, labels, q)
  }

  lemma Starts(g: Graph, seeds: seq<nat>, labels: seq<int>, q: multiset<Element>)
    requires Setting(g, seeds, |labels|)
    requires forall v :: 0 <= v < |labels| ==> labels[v] == -1
    requires forall e :: e in q <==> e.k < |seeds| && e.idx == seeds[e.k]
    ensures Inv(g, seeds, labels, q)
  {
  }

  /** A pair whose voxel was labelled meanwhile can be dropped. */
  lemma SkipKeeps(g: Graph, seeds: seq<nat>, labels: seq<int>, q: multiset<Element>, e: Element)
    requires Inv(g, seeds, labels, q) && e in q && labels[e.idx] >= 0
    ensures Inv(g, seeds, labels, q - multiset{e})
  {
  }

  /** What committing e may and must add to the pool q. */
  ghost predicate Offers(g: Graph, labels: seq<int>, q: multiset<Element>, q': multiset<Element>, e: Element) {
    && q <= q'
    && (forall f :: f in q' && f !in q ==> f.k == e.k && f.idx in g.nodes && Edge(g, e.idx, f.idx))
    && (forall w: nat | Edge(g, e.idx, w) && Open(g, labels, w) :: Element(w, e.k) in q')
  }

  lemma JoinedKept(g: Graph, seeds: seq<nat>, labels: seq<int>, e: Element, v: nat)
    requires Joined(g, seeds, labels, v)
    requires e.idx < |labels| && labels[e.idx] < 0
    ensures Joined(g, seeds, labels[e.idx := e.k], v)
  {
    var p :| JoinedBy(g, seeds, labels, v, p);
    assert JoinedBy(g, seeds, labels[e.idx := e.k], v, p);
  }

  lemma CommitJoins(g: Graph, seeds: seq<nat>, labels: seq<int>, e: Element)
    requires Setting(g, seeds, |labels|) && LabelsOk(g, seeds, labels)
    requires Entitled(g, seeds, labels, e) && labels[e.idx] < 0
    ensures Joined(g, seeds, labels[e.idx := e.k], e.idx)
  {
    var labels' := labels[e.idx := e.k];
    if e.idx == seeds[e.k] {
      assert JoinedBy(g, seeds, labels', e.idx, [e.idx]);
    } else {
      var w :| NextTo(g, labels, w, e.k, e.idx);
      var p :| JoinedBy(g, seeds, labels, w, p);
      assert JoinedBy(g, seeds, labels', e.idx, p + [e.idx]);
    }
  }

  lemma CommitKeepsLabels(g: Graph, seeds: seq<nat>, labels: seq<int>, e: Element)
    requires Setting(g, seeds, |labels|) && LabelsOk(g, seeds, labels)
    requires Entitled(g, seeds, labels, e) && labels[e.idx] < 0
    ensures LabelsOk(g, seeds, labels[e.idx := e.k])
  {
    var labels' := labels[e.idx := e.k];
    CommitJoins(g, seeds, labels, e);
    forall v | 0 <= v < |labels'| && labels'[v] >= 0 && v != e.idx ensures Joined(g, seeds, labels', v) {
      JoinedKept(g, seeds, labels, e, v);
    }
  }

  lemma EntitledKept(g: Graph, seeds: seq<nat>, labels: seq<int>, e: Element, f: Element)
    requires Entitled(g, seeds, labels, f)
    requires e.idx < |labels| && labels[e.idx] < 0
    ensures Entitled(g, seeds, labels[e.idx := e.k], f)
  {
    if f.idx != seeds[f.k] {
      var w :| NextTo(g, labels, w, f.k, f.idx);
      assert NextTo(g, labels[e.idx := e.k], w, f.k, f.idx);
    }
  }

  lemma CommitKeepsFrontier(g: Graph, seeds: seq<nat>, labels: seq<int>, q: multiset<Element>,
                            e: Element, q': multiset<Element>)
    requires Inv(g, seeds, labels, q) && e in q && labels[e.idx] < 0
    requires Offers(g, labels[e.idx := e.k], q - multiset{e}, q', e)
    ensures FrontierOk(g, seeds, labels[e.idx := e.k], q')
  {
    var labels' := labels[e.idx := e.k];
    forall f | f in q' ensures Entitled(g, seeds, labels', f) {
      if f in q - multiset{e} {
        EntitledKept(g, seeds, labels, e, f);
      } else {
        assert NextTo(g, labels', e.idx, f.k, f.idx);
      }
    }
    forall k | 0 <= k < |seeds| && labels'[seeds[k]] < 0 ensures Element(seeds[k], k) in q' {
      assert Element(seeds[k], k) in q - multiset{e};
    }
    forall v: nat, w: nat | Edge(g, v, w) && Open(g, labels', w) && v < |labels| && labels'[v] >= 0
      ensures Element(w, labels'[v]) in q'
    {
      if v != e.idx {
        assert Element(w, labels[v]) in q - multiset{e};
      }
    }
  }

  lemma CommitKeeps(g: Graph, seeds: seq<nat>, labels: seq<int>, q: multiset<Element>, e: Element, q': multiset<Element>)
    requires Inv(g, seeds, labels, q) && e in q && labels[e.idx] < 0
    requires Offers(g, labels[e.idx := e.k], q - multiset{e}, q', e)
    ensures Inv(g, seeds, labels[e.idx := e.k], q')
  {
    CommitKeepsLabels(g, seeds, labels, e);
    CommitKeepsFrontier(g, seeds, labels, q, e, q');
  }

  // ---------- closure ----------

  lemma {:induction false} PathLabelled(g: Graph, seeds: seq<nat>, labels: seq<int>, p: seq<nat>)
    requires Inv(g, seeds, labels, multiset{})
    requires IsPath(g, p) && p[0] in seeds
    ensures labels[Last(p)] >= 0
  {
    if |p| == 1 {
      var k :| 0 <= k < |seeds| && seeds[k] == p[0];
    } else {
      PathLabelled(g, seeds, labels, p[..|p| - 1]);
      assert Edge(g, p[|p| - 2], p[|p| - 2 + 1]);
    }
  }

  /** When the pool runs dry the labelled nodes are exactly the reachable ones. */
  lemma Closes(g: Graph, seeds: seq<nat>, labels: seq<int>)
    requires Inv(g, seeds, labels, multiset{})
    ensures forall v: nat :: v < |labels| ==> (labels[v] >= 0 <==> Reachable(g, seeds, v))
  {
    forall v: nat | v < |labels| ensures labels[v] >= 0 <==> Reachable(g, seeds, v) {
      if labels[v] >= 0 {
        var p :| JoinedBy(g, seeds, labels, v, p);
        assert p[0] in seeds;
      }
      if Reachable(g, seeds, v) {
        var p :| IsPath(g, p) && p[0] in seeds && Last(p) == v;
        PathLabelled(g, seeds, labels, p);
      }
    }
  }

  /** A cluster that owns any node owns its own seed. */
  lemma SeedOwnsItself(g: Graph, seeds: seq<nat>, labels: seq<int>, v: nat)
    requires Setting(g, seeds, |labels|) && LabelsOk(g, seeds, labels)
    requires v < |labels| && labels[v] >= 0
    ensures labels[seeds[labels[v]]] == labels[v]
  {
    var p :| JoinedBy(g, seeds, labels, v, p);
    assert labels[p[0]] == labels[v];
  }
}
