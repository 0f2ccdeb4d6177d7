/** Running cluster sums and the batch sums they stand for, in exact arithmetic. */
module Accumulators {
  import opened Grid
  import opened Numbers

  datatype Accum = Accum(z: nat, y: nat, x: nat, sum: real, n: nat) {
    /** One more voxel. */
    function Plus(c: Cell, v: byte): Accum {
      Accum(z + c.z, y + c.y, x + c.x, sum + Intensity(v), n + 1)
    }
  }

  const ZERO := Accum(0, 0, 0, 0.0, 0)

  function Intensity(v: byte): real {
    v as real / 255.0
  }

  /** The sums over the voxels below index m that carry label k, taken from scratch. */
  ghost function Batch(d: Dims, vox: seq<byte>, labels: seq<int>, k: nat, m: nat): Accum
    requires m <= d.Count() && |labels| <= |vox| && m <= |labels|
  {
    if m == 0 then ZERO
    else
      var rest := Batch(d, vox, labels, k, m - 1);
      PositiveFactors(d);
      var c := At(d, m - 1);
      if labels[m - 1] == k
      then Accum(rest.z + c.z, rest.y + c.y, rest.x + c.x, rest.sum + vox[m - 1] as real / 255.0, rest.n + 1)
      else rest
  }

  lemma {:induction false} BatchOfNone(d: Dims, vox: seq<byte>, labels: seq<int>, k: nat, m: nat)
    requires m <= d.Count() && |labels| <= |vox| && m <= |labels|
    requires forall v :: 0 <= v < |labels| ==> labels[v] == -1
    ensures Batch(d, vox, labels, k, m) == ZERO
  {
    if m > 0 {
      BatchOfNone(d, vox, labels, k, m - 1);
    }
  }

  /** Labelling one more voxel adds it to its own cluster's batch and to no other. */
  lemma {:induction false} BatchAdds(d: Dims, vox: seq<byte>, labels: seq<int>, i: nat, j: nat, k: nat, m: nat)
    requires m <= d.Count() && |labels| <= |vox| && m <= |labels|
    requires i < |labels| && labels[i] == -1 && d.Count() > 0
    ensures d.y > 0 && d.x > 0
    ensures var was := Batch(d, vox, labels, k, m);
            Batch(d, vox, labels[i := j], k, m) == if j == k && i < m then was.Plus(At(d, i), vox[i]) else was
  {
    PositiveFactors(d);
    if m > 0 {
      BatchAdds(d, vox, labels, i, j, k, m - 1);
    }
  }

  /** The sum of f(v) over the voxels v below index m with label k. */
  ghost function SumOver(labels: seq<int>, k: nat, m: nat, f: nat -> nat): nat
    requires m <= |labels|
  {
    if m == 0 then 0 else SumOver(labels, k, m - 1, f) + if labels[m - 1] == k then f(m - 1) else 0
  }

  function ZAt(d: Dims): nat -> nat
    requires d.y > 0 && d.x > 0
  {
    (i: nat) => At(d, i).z
  }

  function YAt(d: Dims): nat -> nat
    requires d.y > 0 && d.x > 0
  {
    (i: nat) => At(d, i).y
  }

  function XAt(d: Dims): nat -> nat
    requires d.y > 0 && d.x > 0
  {
    (i: nat) => At(d, i).x
  }

  function VoxelAt(vox: seq<byte>): nat -> nat {
    (i: nat) => if i < |vox| then vox[i] else 0
  }

  function OneAt(): nat -> nat {
    (i: nat) => 1
  }

  /** A batch is the coordinate sums, the intensity sum in units of 1/255, and the number of its voxels. */
  lemma {:induction false} BatchSums(d: Dims, vox: seq<byte>, labels: seq<int>, k: nat, m: nat)
    requires 0 < d.Count() && m <= d.Count() && |labels| <= |vox| && m <= |labels|
    ensures d.y > 0 && d.x > 0
    ensures var b := Batch(d, vox, labels, k, m);
            && b.z == SumOver(labels, k, m, ZAt(d)) && b.y == SumOver(labels, k, m, YAt(d))
            && b.x == SumOver(labels, k, m, XAt(d)) && b.sum * 255.0 == SumOver(labels, k, m, VoxelAt(vox)) as real
            && b.n == SumOver(labels, k, m, OneAt())
  {
    PositiveFactors(d);
    if m > 0 {
      BatchSums(d, vox, labels, k, m - 1);
      hide At;
    }
  }

  // ---------- counting ----------

  ghost function Labelled(labels: seq<int>): nat {
    if labels == [] then 0 else Labelled(labels[..|labels| - 1]) + if labels[|labels| - 1] >= 0 then 1 else 0
  }

  lemma {:induction false} LabelledBound(labels: seq<int>)
    ensures Labelled(labels) <= |labels|
  {
    if labels != [] {
      LabelledBound(labels[..|labels| - 1]);
    }
  }

  lemma {:induction false} LabelledNone(labels: seq<int>)
    requires forall v :: 0 <= v < |labels| ==> labels[v] == -1
    ensures Labelled(labels) == 0
  {
    if labels != [] {
      LabelledNone(labels[..|labels| - 1]);
    }
  }

  lemma {:induction false} LabelledAdds(labels: seq<int>, i: nat, k: nat)
    requires i < |labels| && labels[i] == -1
    ensures Labelled(labels[i := k]) == Labelled(labels) + 1
  {
    var last := |labels| - 1;
    if i == last {
      assert labels[i := k][..last] == labels[..last];
    } else {
      LabelledAdds(labels[..last], i, k);
      assert labels[i := k][..last] == labels[..last][i := k];
    }
  }

  ghost function Total(acc: seq<Accum>): nat {
    if acc == [] then 0 else Total(acc[..|acc| - 1]) + acc[|acc| - 1].n
  }

  lemma {:induction false} TotalZero(acc: seq<Accum>)
    requires forall k :: 0 <= k < |acc| ==> acc[k].n == 0
    ensures Total(acc) == 0
  {
    if acc != [] {
      TotalZero(acc[..|acc| - 1]);
    }
  }

  lemma {:induction false} TotalAdds(acc: seq<Accum>, k: nat, a: Accum)
    requires k < |acc| && a.n == acc[k].n + 1
    ensures Total(acc[k := a]) == Total(acc) + 1
  {
    var last := |acc| - 1;
    if k == last {
      assert acc[k := a][..last] == acc[..last];
    } else {
      TotalAdds(acc[..last], k, a);
      assert acc[k := a][..last] == acc[..last][k := a];
    }
  }

  // ---------- output ----------

  datatype Cluster = Cluster(z: real, y: real, x: real, mean: real, count: nat)

  function Centroid(a: Accum): Cluster
    requires a.n > 0
  {
    var n := a.n as real;
    Cluster(a.z as real / n, a.y as real / n, a.x as real / n, a.sum / n, a.n)
  }

  /** The non-empty clusters, in order. */
  function Output(acc: seq<Accum>): seq<Cluster> {
    if acc == [] then []
    else
      var front := Output(acc[..|acc| - 1]);
      var a := acc[|acc| - 1];
      if a.n == 0 then front else front + [Centroid(a)]
  }

  /** As many clusters come out as are not empty. */
  lemma {:induction false} OutputLength(acc: seq<Accum>)
    ensures |Output(acc)| <= |acc|
    ensures |Output(acc)| == |acc| <==> forall k :: 0 <= k < |acc| ==> acc[k].n > 0
  {
    if acc != [] {
      OutputLength(acc[..|acc| - 1]);
      assert forall k :: 0 <= k < |acc| - 1 ==> acc[..|acc| - 1][k] == acc[k];
    }
  }

  /** Output i is the centroid of sums at[i], and the sums listed are those that are not empty, in order. */
  ghost predicate Chosen(at: seq<nat>, acc: seq<Accum>, out: seq<Cluster>) {
    && |at| == |out| && (forall i, j :: 0 <= i < j < |at| ==> at[i] < at[j])
    && (forall i :: 0 <= i < |at| ==> at[i] < |acc| && acc[at[i]].n > 0 && out[i] == Centroid(acc[at[i]]))
    && (forall k: nat | k < |acc| && acc[k].n > 0 :: k in at)
  }

  lemma ChosenMore(at: seq<nat>, acc: seq<Accum>, out: seq<Cluster>, a: Accum)
    requires Chosen(at, acc, out)
    ensures a.n == 0 ==> Chosen(at, acc + [a], out)
    ensures a.n > 0 ==> Chosen(at + [|acc|], acc + [a], out + [Centroid(a)])
  {
    hide Centroid;
    forall k: nat | k < |acc + [a]| && (acc + [a])[k].n > 0 ensures k in at + [|acc|] && (k < |acc| ==> k in at) {
      if k == |acc| {
        assert (at + [|acc|])[|at|] == k;
      } else {
        assert acc[k] == (acc + [a])[k];
      }
    }
  }

  lemma {:induction false} OutputAt(acc: seq<Accum>) returns (at: seq<nat>)
    ensures Chosen(at, acc, Output(acc))
  {
    at := [];
    if acc != [] {
      var n := |acc| - 1;
      at := OutputAt(acc[..n]);
      ChosenMore(at, acc[..n], Output(acc[..n]), acc[n]);
      assert acc == acc[..n] + [acc[n]];
      hide Chosen, Centroid;
      if acc[n].n > 0 {
        at := at + [n];
      }
    }
  }

  /** A centroid times the count is the sum. */
  lemma CentroidTimes(a: Accum)
    requires a.n > 0
    ensures var c := Centroid(a);
            && c.count == a.n && c.z * a.n as real == a.z as real && c.y * a.n as real == a.y as real
            && c.x * a.n as real == a.x as real && c.mean * a.n as real == a.sum
  {
  }

  lemma CentroidIs(a: Accum, inv: real)
    requires a.n > 0 && inv == 1.0 / a.n as real
    ensures Centroid(a) == Cluster(a.z as real * inv, a.y as real * inv, a.x as real * inv, a.sum * inv, a.n)
  {
    var n := a.n as real;
    Reciprocal(a.z as real, n);
    Reciprocal(a.y as real, n);
    Reciprocal(a.x as real, n);
    Reciprocal(a.sum, n);
  }

  lemma Reciprocal(x: real, n: real)
    requires n > 0.0
    ensures x * (1.0 / n) == x / n
  {
  }

  method Emit(acc: seq<Accum>) returns (out: seq<Cluster>)
    ensures out == Output(acc)
  {
    out := [];
    for i := 0 to |acc|
      invariant out == Output(acc[..i])
    {
      assert acc[..i + 1][..i] == acc[..i];
      var a := acc[i];
      if a.n != 0 {
        var inv := 1.0 / a.n as real;
        CentroidIs(a, inv);
        out := out + [Cluster(a.z as real * inv, a.y as real * inv, a.x as real * inv, a.sum * inv, a.n)];
      }
    }
    assert acc[..|acc|] == acc;
  }

  ghost function Counted(out: seq<Cluster>): nat {
    if out == [] then 0 else Counted(out[..|out| - 1]) + out[|out| - 1].count
  }

  /** Leaving out the empty clusters leaves out no voxel. */
  lemma {:induction false} OutputCounts(acc: seq<Accum>)
    ensures Counted(Output(acc)) == Total(acc)
  {
    if acc != [] {
      OutputCounts(acc[..|acc| - 1]);
      var front := Output(acc[..|acc| - 1]);
      var a := acc[|acc| - 1];
      if a.n > 0 {
        assert (front + [Centroid(a)])[..|front|] == front;
      }
    }
  }
}
