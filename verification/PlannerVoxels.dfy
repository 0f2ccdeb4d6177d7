/** The planner's bricks and boxes in terms of the volume's voxels and the world cells they fill. */
module PlannerVoxels {
  import opened Grid
  import opened Numbers
  import opened BrickKeys
  import opened Planner

  /** Edge of a brick of the level, in voxels of the volume. */
  function Edge(s: Scene, level: nat): (e: nat)
    requires s.chunk >= 1
    ensures e >= 1
  {
    MulPositive(s.chunk, Pow2(level));
    s.chunk * Pow2(level)
  }

  /** Along one axis: voxel v of a row of `size` belongs to brick i. */
  predicate Along(e: nat, size: nat, i: nat, v: nat)
    requires e >= 1
  {
    v < size && v / e == i
  }

  /** Voxel (vz, vy, vx) of the volume belongs to brick n. */
  predicate VoxelOf(s: Scene, n: Coord, v: Cell)
    requires s.chunk >= 1
  {
    var e := Edge(s, n.level);
    Along(e, s.shape.z, n.z, v.z) && Along(e, s.shape.y, n.y, v.y) && Along(e, s.shape.x, n.x, v.x)
  }

  /** Where in the world voxel v of an axis begins. */
  function Mark(v: nat, spacing: real): real {
    v as real * spacing
  }

  /** The stretch of world that voxel v of an axis fills. */
  predicate Spans(spacing: real, v: nat, q: real) {
    Mark(v, spacing) <= q <= Mark(v + 1, spacing)
  }

  predicate InCell(s: Scene, v: Cell, q: Point) {
    Spans(s.spacing, v.z, q.z) && Spans(s.spacing, v.y, q.y) && Spans(s.spacing, v.x, q.x)
  }

  // ---------- one axis ----------

  lemma DivAtMost(v: nat, e: nat, i: nat)
    requires e >= 1
    ensures v / e == i <==> i * e <= v < (i + 1) * e
  {
    var q, r := v / e, v % e;
    assert v == q * e + r;
    if q < i {
      MulMonotone(q + 1, i, e);
      assert (q + 1) * e == q * e + e;
    }
    if q > i {
      MulMonotone(i + 1, q, e);
    }
    assert (i + 1) * e == i * e + e;
  }

  /** A brick has voxels along an axis exactly if it lies in the grid. */
  lemma AxisInGrid(size: nat, level: nat, chunk: nat, i: nat)
    requires chunk >= 1 && size >= 1
    ensures chunk * Pow2(level) >= 1
    ensures i < GridDim(size, level, chunk) <==> exists v: nat :: Along(chunk * Pow2(level), size, i, v)
  {
    var m := Pow2(level);
    var e, w := chunk * m, CeilDiv(size, m);
    MulPositive(chunk, m);
    CeilLe(size, m, 0);
    CeilLe(w, chunk, i);
    CeilLe(size, m, i * chunk);
    assert (i * chunk) * m == i * e;
    assert i < GridDim(size, level, chunk) <==> i * e < size;
    DivAtMost(i * e, e, i);
    MulMonotone(i, i + 1, e);
    assert (i + 1) * e == i * e + e;
    if i * e < size {
      assert Along(e, size, i, i * e);
    }
    if v: nat :| Along(e, size, i, v) {
      DivAtMost(v, e, i);
    }
  }

  lemma MarkRises(a: nat, b: nat, spacing: real)
    requires a <= b && spacing >= 0.0
    ensures Mark(a, spacing) <= Mark(b, spacing)
  {
    assert (b as real - a as real) * spacing >= 0.0;
  }

  lemma LowIs(e: nat, spacing: real, i: nat)
    ensures Planner.Low(Mark(e, spacing), i) == Mark(i * e, spacing)
  {
    assert (i * e) as real == i as real * e as real;
  }

  lemma HighIs(e: nat, size: nat, spacing: real, i: nat)
    requires spacing >= 0.0
    ensures High(Mark(e, spacing), i, size, spacing) == Mark(Min((i + 1) * e, size), spacing)
  {
    LowIs(e, spacing, i + 1);
    assert (i + 1) as real * Mark(e, spacing) == i as real * Mark(e, spacing) + Mark(e, spacing);
    if (i + 1) * e <= size {
      MarkRises((i + 1) * e, size, spacing);
    } else {
      MarkRises(size, (i + 1) * e, spacing);
    }
  }

  /** Every voxel of a brick fills a stretch inside the brick's side of the box. */
  lemma CellInSide(e: nat, size: nat, spacing: real, i: nat, v: nat, q: real)
    requires e >= 1 && spacing >= 0.0 && Along(e, size, i, v) && Spans(spacing, v, q)
    ensures Planner.Low(Mark(e, spacing), i) <= q <= High(Mark(e, spacing), i, size, spacing)
  {
    DivAtMost(v, e, i);
    LowIs(e, spacing, i);
    HighIs(e, size, spacing, i);
    hide Mark, Planner.Low, High;
    MarkRises(i * e, v, spacing);
    MarkRises(v + 1, Min((i + 1) * e, size), spacing);
  }

  /** Both ends of a brick's side of the box are ends of voxels that belong to the brick. */
  lemma SideEnds(e: nat, size: nat, spacing: real, i: nat) returns (first: nat, last: nat)
    requires e >= 1 && spacing >= 0.0 && exists v: nat :: Along(e, size, i, v)
    ensures Along(e, size, i, first) && Spans(spacing, first, Planner.Low(Mark(e, spacing), i))
    ensures Along(e, size, i, last) && Spans(spacing, last, High(Mark(e, spacing), i, size, spacing))
  {
    var v: nat :| Along(e, size, i, v);
    DivAtMost(v, e, i);
    LowIs(e, spacing, i);
    HighIs(e, size, spacing, i);
    hide Mark, Planner.Low, High;
    assert (i + 1) * e == i * e + e;
    first, last := i * e, Min((i + 1) * e, size) - 1;
    DivAtMost(first, e, i);
    DivAtMost(last, e, i);
    MarkRises(first, first + 1, spacing);
    MarkRises(last, last + 1, spacing);
  }

  // ---------- bricks ----------

  ghost predicate Solid(s: Scene) {
    s.shape.z >= 1 && s.shape.y >= 1 && s.shape.x >= 1
  }

  /** The grid of a level holds exactly the bricks that some voxel of the volume belongs to. */
  lemma InGridIff(s: Scene, n: Coord)
    requires s.chunk >= 1 && Solid(s)
    ensures InGrid(s, n) <==> exists v: Cell :: VoxelOf(s, n, v)
  {
    var e := Edge(s, n.level);
    AxisInGrid(s.shape.z, n.level, s.chunk, n.z);
    AxisInGrid(s.shape.y, n.level, s.chunk, n.y);
    AxisInGrid(s.shape.x, n.level, s.chunk, n.x);
    hide GridDim, Along;
    if InGrid(s, n) {
      var z: nat :| Along(e, s.shape.z, n.z, z);
      var y: nat :| Along(e, s.shape.y, n.y, y);
      var x: nat :| Along(e, s.shape.x, n.x, x);
      assert VoxelOf(s, n, Cell(z, y, x));
    }
    if v: Cell :| VoxelOf(s, n, v) {
      assert Along(e, s.shape.z, n.z, v.z);
    }
  }

  /** An axis without voxels still counts one brick, at every level. */
  lemma EmptyAxis(level: nat, chunk: nat)
    requires chunk >= 1
    ensures GridDim(0, level, chunk) == 1
  {
    CeilLe(0, Pow2(level), 0);
    CeilLe(1, chunk, 1);
    CeilLe(1, chunk, 0);
  }

  lemma SideIs(s: Scene, level: nat)
    requires s.Valid()
    ensures Side(s, level) == Mark(Edge(s, level), s.spacing)
  {
    var c, p := s.chunk as real, Pow2(level) as real;
    assert Edge(s, level) as real == c * p;
    assert c * s.spacing * p == c * p * s.spacing;
  }

  /** The box holds every point of the world cells of the brick's voxels. */
  lemma BoxHolds(s: Scene, n: Coord, v: Cell, q: Point)
    requires s.Valid() && VoxelOf(s, n, v) && InCell(s, v, q)
    ensures var b := BoxOf(s, n); b.lo.x <= q.x <= b.hi.x && b.lo.y <= q.y <= b.hi.y && b.lo.z <= q.z <= b.hi.z
  {
    SideIs(s, n.level);
    var e := Edge(s, n.level);
    hide Side, Edge, Along, Spans, High, Planner.Low, Mark;
    CellInSide(e, s.shape.x, s.spacing, n.x, v.x, q.x);
    CellInSide(e, s.shape.y, s.spacing, n.y, v.y, q.y);
    CellInSide(e, s.shape.z, s.spacing, n.z, v.z, q.z);
  }

  /** A brick is never culled while a point of one of its voxels' world cells lies inside all planes. */
  lemma NeverCullsVisible(s: Scene, n: Coord, v: Cell, q: Point)
    requires s.Valid() && VoxelOf(s, n, v) && InCell(s, v, q)
    requires forall i :: 0 <= i < |s.planes| ==> Distance(s.planes[i], q) >= 0.0
    ensures Intersects(s, n)
  {
    BoxHolds(s, n, v, q);
    hide BoxOf;
    BoxPasses(s, n, q);
  }

  /** The point of one axis that is farthest along p, and a voxel of the brick that it belongs to. */
  lemma FarthestAlong(e: nat, size: nat, spacing: real, i: nat, p: real) returns (v: nat, q: real)
    requires e >= 1 && spacing >= 0.0 && exists v: nat :: Along(e, size, i, v)
    ensures Along(e, size, i, v) && Spans(spacing, v, q)
    ensures p * q == Planner.Far(p, Planner.Low(Mark(e, spacing), i), High(Mark(e, spacing), i, size, spacing))
  {
    hide Along, Spans, Mark, High, Planner.Low;
    var first, last := SideEnds(e, size, spacing, i);
    if p >= 0.0 {
      v, q := last, High(Mark(e, spacing), i, size, spacing);
    } else {
      v, q := first, Planner.Low(Mark(e, spacing), i);
    }
  }

  /** The corner of the box that is farthest along a plane, and a voxel of the brick that it belongs to. */
  lemma FarthestCorner(s: Scene, n: Coord, p: Plane) returns (v: Cell, q: Point)
    requires s.Valid() && exists v: Cell :: VoxelOf(s, n, v)
    ensures VoxelOf(s, n, v) && InCell(s, v, q) && Distance(p, q) == Reach(p, BoxOf(s, n))
  {
    SideIs(s, n.level);
    var e := Edge(s, n.level);
    hide Edge, Side, Along, Spans, Mark, High, Planner.Low, Planner.Far;
    var w: Cell :| VoxelOf(s, n, w);
    var vz, z := FarthestAlong(e, s.shape.z, s.spacing, n.z, p.c);
    var vy, y := FarthestAlong(e, s.shape.y, s.spacing, n.y, p.b);
    var vx, x := FarthestAlong(e, s.shape.x, s.spacing, n.x, p.a);
    v, q := Cell(vz, vy, vx), Point(x, y, z);
  }

  /** Every point of every voxel of the brick lies behind the plane. */
  ghost predicate Behind(s: Scene, n: Coord, p: Plane)
    requires s.chunk >= 1
  {
    forall v: Cell, q: Point | VoxelOf(s, n, v) && InCell(s, v, q) :: Distance(p, q) < 0.0
  }

  lemma BehindIff(s: Scene, n: Coord, p: Plane)
    requires s.Valid() && exists v: Cell :: VoxelOf(s, n, v)
    ensures Reach(p, BoxOf(s, n)) < 0.0 <==> Behind(s, n, p)
  {
    hide BoxOf, Reach, Distance, VoxelOf, InCell;
    var v, q := FarthestCorner(s, n, p);
    if Reach(p, BoxOf(s, n)) < 0.0 {
      forall v: Cell, q: Point | VoxelOf(s, n, v) && InCell(s, v, q) ensures Distance(p, q) < 0.0 {
        BoxHolds(s, n, v, q);
        ReachIsFarthest(p, BoxOf(s, n), q);
      }
    }
  }

  /** A brick of the grid is culled exactly if one plane has all of the brick's voxels behind it. */
  lemma CulledIff(s: Scene, n: Coord)
    requires s.Valid() && Solid(s) && InGrid(s, n)
    ensures !Intersects(s, n) <==> exists i :: 0 <= i < |s.planes| && Behind(s, n, s.planes[i])
  {
    InGridIff(s, n);
    hide Behind, BoxOf, Reach, InGrid, VoxelOf;
    forall i | 0 <= i < |s.planes| ensures Reach(s.planes[i], BoxOf(s, n)) < 0.0 <==> Behind(s, n, s.planes[i]) {
      BehindIff(s, n, s.planes[i]);
    }
  }

  /** With nothing pruned: wanted is every brick, at a wanted level, that some voxel belongs to and that no single plane
      has behind it. */
  lemma WantedIff(s: Scene, desired: nat, n: Coord)
    requires s.Valid() && Solid(s) && forall m: Coord :: !s.pruned(m)
    ensures Wanted(s, desired, n) <==>
              && desired <= n.level < s.levels && (exists v: Cell :: VoxelOf(s, n, v))
              && forall i :: 0 <= i < |s.planes| ==> !Behind(s, n, s.planes[i])
  {
    FlatFilter(s, desired, n);
    InGridIff(s, n);
    hide Behind, Intersects, InGrid, VoxelOf, Wanted;
    if InGrid(s, n) {
      CulledIff(s, n);
    }
  }
}
