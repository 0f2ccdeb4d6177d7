/** Which bricks a view wants: descent of the level-of-detail octree over the frustum, with an explicit stack. */
module Planner {
  import opened Grid
  import opened Numbers
  import opened BrickKeys

  /** A half space: a*x + b*y + c*z + d >= 0. */
  datatype Plane = Plane(a: real, b: real, c: real, d: real)

  datatype Point = Point(x: real, y: real, z: real)

  datatype Box = Box(lo: Point, hi: Point)

  /** The volume and the view; `pruned` is what the manifest rules out (nothing, without one). */
  datatype Scene = Scene(shape: Dims, spacing: real, chunk: nat, levels: nat, planes: seq<Plane>, pruned: Coord -> bool) {
    ghost predicate Valid() {
      chunk >= 1 && levels >= 1 && spacing >= 0.0
    }
  }

  function Pow2(n: nat): (p: nat)
    ensures p >= 1
  {
    if n == 0 then 1 else 2 * Pow2(n - 1)
  }

  lemma Doubles()
    ensures Pow2(0) == 1 && Pow2(1) == 2 && Pow2(10) == 1024
    ensures forall n: nat :: Pow2(n + 1) == 2 * Pow2(n)
  {
    assert Pow2(4) == 16 && Pow2(7) == 128;
  }

  // ---------- grids ----------

  /** Bricks along one axis of a level. */
  function GridDim(size: nat, level: nat, chunk: nat): nat
    requires chunk >= 1
  {
    var voxels := CeilDiv(size, Pow2(level));
    CeilDiv(if voxels >= 1 then voxels else 1, chunk)
  }

  function GridDims(s: Scene, level: nat): Dims
    requires s.chunk >= 1
  {
    Dims(GridDim(s.shape.z, level, s.chunk), GridDim(s.shape.y, level, s.chunk), GridDim(s.shape.x, level, s.chunk))
  }

  predicate InGrid(s: Scene, n: Coord)
    requires s.chunk >= 1
  {
    Cell(n.z, n.y, n.x).Inside(GridDims(s, n.level))
  }

  /** CeilDiv(a, b) is the least k with a <= k * b. */
  lemma CeilLe(a: nat, b: nat, k: nat)
    requires b >= 1
    ensures CeilDiv(a, b) <= k <==> a <= k * b
  {
    var q, r := CeilDiv(a, b), (a + b - 1) % b;
    assert a + b - 1 == q * b + r;
    if q <= k {
      MulMonotone(q, k, b);
    } else {
      MulMonotone(k + 1, q, b);
      assert (k + 1) * b == k * b + b;
    }
  }

  /** A level has at most twice as many bricks along an axis as the next coarser one. */
  lemma GridHalves(size: nat, level: nat, chunk: nat)
    requires chunk >= 1
    ensures GridDim(size, level, chunk) <= 2 * GridDim(size, level + 1, chunk)
  {
    var m := Pow2(level);
    var v, w := CeilDiv(size, m), CeilDiv(size, 2 * m);
    CeilLe(size, 2 * m, w);
    assert w * (2 * m) == (2 * w) * m;
    CeilLe(size, m, 2 * w);
    var v', w' := if v >= 1 then v else 1, if w >= 1 then w else 1;
    assert v' <= 2 * w';
    var g := CeilDiv(w', chunk);
    CeilLe(w', chunk, g);
    assert 2 * (g * chunk) == (2 * g) * chunk;
    CeilLe(v', chunk, 2 * g);
  }

  function Parent(n: Coord): Coord {
    Coord(n.level + 1, n.z / 2, n.y / 2, n.x / 2)
  }

  lemma ParentInGrid(s: Scene, n: Coord)
    requires s.chunk >= 1 && InGrid(s, n)
    ensures InGrid(s, Parent(n))
  {
    hide GridDim;
    GridHalves(s.shape.z, n.level, s.chunk);
    GridHalves(s.shape.y, n.level, s.chunk);
    GridHalves(s.shape.x, n.level, s.chunk);
  }

  // ---------- the frustum test ----------

  function MinR(a: real, b: real): real {
    if a < b then a else b
  }

  function Side(s: Scene, level: nat): real {
    s.chunk as real * s.spacing * Pow2(level) as real
  }

  function Low(side: real, i: nat): real {
    i as real * side
  }

  function High(side: real, i: nat, size: nat, spacing: real): real {
    MinR(i as real * side + side, size as real * spacing)
  }

  function BoxOf(s: Scene, n: Coord): Box {
    var e := Side(s, n.level);
    Box(Point(Low(e, n.x), Low(e, n.y), Low(e, n.z)),
        Point(High(e, n.x, s.shape.x, s.spacing), High(e, n.y, s.shape.y, s.spacing), High(e, n.z, s.shape.z, s.spacing)))
  }

  /** One axis of the plane's value at the corner farthest along its normal. */
  function Far(p: real, lo: real, hi: real): real {
    p * (if p >= 0.0 then hi else lo)
  }

  function Reach(p: Plane, b: Box): real {
    Far(p.a, b.lo.x, b.hi.x) + Far(p.b, b.lo.y, b.hi.y) + Far(p.c, b.lo.z, b.hi.z) + p.d
  }

  /** The positive-vertex test: no plane has the whole box behind it. */
  predicate Passes(planes: seq<Plane>, b: Box) {
    forall i :: 0 <= i < |planes| ==> Reach(planes[i], b) >= 0.0
  }

  predicate Intersects(s: Scene, n: Coord) {
    Passes(s.planes, BoxOf(s, n))
  }

  predicate Within(lo: real, lo': real, hi': real, hi: real) {
    lo <= lo' && hi' <= hi
  }

  ghost predicate BoxWithin(inner: Box, outer: Box) {
    && Within(outer.lo.x, inner.lo.x, inner.hi.x, outer.hi.x)
    && Within(outer.lo.y, inner.lo.y, inner.hi.y, outer.hi.y)
    && Within(outer.lo.z, inner.lo.z, inner.hi.z, outer.hi.z)
  }

  lemma FarMonotone(p: real, lo: real, lo': real, hi': real, hi: real)
    requires Within(lo, lo', hi', hi)
    ensures Far(p, lo', hi') <= Far(p, lo, hi)
  {
  }

  /** A box that passes makes every box around it pass. */
  lemma PassesOutward(planes: seq<Plane>, inner: Box, outer: Box)
    requires BoxWithin(inner, outer) && Passes(planes, inner)
    ensures Passes(planes, outer)
  {
    hide Far;
    forall i | 0 <= i < |planes| ensures Reach(planes[i], outer) >= 0.0 {
      var p := planes[i];
      FarMonotone(p.a, outer.lo.x, inner.lo.x, inner.hi.x, outer.hi.x);
      FarMonotone(p.b, outer.lo.y, inner.lo.y, inner.hi.y, outer.hi.y);
      FarMonotone(p.c, outer.lo.z, inner.lo.z, inner.hi.z, outer.hi.z);
      assert Reach(p, inner) >= 0.0;
    }
  }

  lemma AxisWithin(side: real, i: nat, size: nat, spacing: real)
    requires side >= 0.0
    ensures Within(Low(2.0 * side, i / 2), Low(side, i), High(side, i, size, spacing), High(2.0 * side, i / 2, size, spacing))
  {
    var j, r := i / 2, i % 2;
    assert i == 2 * j + r;
    assert i as real * side == j as real * (2.0 * side) + r as real * side;
    assert r as real * side <= side && r as real * side >= 0.0 by {
      if r == 0 {
        assert r as real * side == 0.0;
      } else {
        assert r as real * side == side;
      }
    }
  }

  lemma SideNonNegative(s: Scene, level: nat)
    requires s.Valid()
    ensures Side(s, level) >= 0.0 && Side(s, level + 1) == 2.0 * Side(s, level)
  {
    var c, q := s.chunk as real * s.spacing, Pow2(level) as real;
    assert c >= 0.0;
    assert Pow2(level + 1) as real == 2.0 * q;
    assert c * (2.0 * q) == 2.0 * (c * q);
  }

  /** If a brick passes the frustum test so does its parent. */
  lemma ParentPasses(s: Scene, n: Coord)
    requires s.Valid() && Intersects(s, n)
    ensures Intersects(s, Parent(n))
  {
    SideNonNegative(s, n.level);
    var e := Side(s, n.level);
    AxisWithin(e, n.x, s.shape.x, s.spacing);
    AxisWithin(e, n.y, s.shape.y, s.spacing);
    AxisWithin(e, n.z, s.shape.z, s.spacing);
    hide Side, Low, High, Passes;
    PassesOutward(s.planes, BoxOf(s, n), BoxOf(s, Parent(n)));
  }

  /** The plane's value at a point. */
  function Distance(p: Plane, q: Point): real {
    p.a * q.x + p.b * q.y + p.c * q.z + p.d
  }

  lemma FarAbove(p: real, lo: real, q: real, hi: real)
    requires lo <= q <= hi
    ensures p * q <= Far(p, lo, hi)
  {
    if p >= 0.0 {
      assert p * (hi - q) >= 0.0;
    } else {
      assert (-p) * (q - lo) >= 0.0;
    }
  }

  /** No point of a box lies farther along a plane than the corner tested. */
  lemma ReachIsFarthest(p: Plane, b: Box, q: Point)
    requires b.lo.x <= q.x <= b.hi.x && b.lo.y <= q.y <= b.hi.y && b.lo.z <= q.z <= b.hi.z
    ensures Distance(p, q) <= Reach(p, b)
  {
    hide Far;
    FarAbove(p.a, b.lo.x, q.x, b.hi.x);
    FarAbove(p.b, b.lo.y, q.y, b.hi.y);
    FarAbove(p.c, b.lo.z, q.z, b.hi.z);
  }

  /** A box holding a point on the inner side of every plane passes. */
  lemma BoxPasses(s: Scene, n: Coord, q: Point)
    requires var b := BoxOf(s, n); b.lo.x <= q.x <= b.hi.x && b.lo.y <= q.y <= b.hi.y && b.lo.z <= q.z <= b.hi.z
    requires forall i :: 0 <= i < |s.planes| ==> Distance(s.planes[i], q) >= 0.0
    ensures Intersects(s, n)
  {
    hide BoxOf, Reach, Distance;
    forall i | 0 <= i < |s.planes| ensures Reach(s.planes[i], BoxOf(s, n)) >= 0.0 {
      ReachIsFarthest(s.planes[i], BoxOf(s, n), q);
    }
  }

  // ---------- the flat filter ----------

  predicate Kept(s: Scene, n: Coord) {
    Intersects(s, n) && !s.pruned(n)
  }

  /** Neither the brick nor any coarser brick around it is pruned. */
  predicate Unpruned(s: Scene, n: Coord)
    decreases s.levels - n.level
  {
    !s.pruned(n) && (n.level + 1 < s.levels ==> Unpruned(s, Parent(n)))
  }

  /** A brick the view wants: it exists, at a wanted level, it may be visible and nothing around it is pruned. */
  predicate Wanted(s: Scene, desired: nat, n: Coord)
    requires s.chunk >= 1
  {
    desired <= n.level < s.levels && InGrid(s, n) && Intersects(s, n) && Unpruned(s, n)
  }

  /** With nothing pruned the wanted bricks are those of a flat filter over all of them. */
  lemma {:induction false} NothingPruned(s: Scene, n: Coord)
    requires forall m: Coord :: !s.pruned(m)
    ensures Unpruned(s, n)
    decreases s.levels - n.level
  {
    if n.level + 1 < s.levels {
      NothingPruned(s, Parent(n));
    }
  }

  lemma FlatFilter(s: Scene, desired: nat, n: Coord)
    requires s.chunk >= 1 && forall m: Coord :: !s.pruned(m)
    ensures Wanted(s, desired, n) <==> desired <= n.level < s.levels && InGrid(s, n) && Intersects(s, n)
  {
    NothingPruned(s, n);
  }

  /** Whatever is wanted, so is everything coarser around it: the view always has something to fall back on. */
  lemma WantedUpward(s: Scene, desired: nat, n: Coord)
    requires s.Valid() && Wanted(s, desired, n) && n.level + 1 < s.levels
    ensures Wanted(s, desired, Parent(n))
  {
    hide InGrid, Intersects;
    ParentInGrid(s, n);
    ParentPasses(s, n);
  }

  // ---------- the descent ----------

  /** The i-th of the eight bricks below n. */
  function Octant(n: Coord, i: nat): Coord
    requires n.level >= 1
  {
    Coord(n.level - 1, 2 * n.z + i / 4 % 2, 2 * n.y + i / 2 % 2, 2 * n.x + i % 2)
  }

  /** The first k octants of n that exist, in order. */
  function OctantsUpTo(s: Scene, n: Coord, k: nat): seq<Coord>
    requires s.chunk >= 1 && n.level >= 1
  {
    if k == 0 then []
    else OctantsUpTo(s, n, k - 1) + if InGrid(s, Octant(n, k - 1)) then [Octant(n, k - 1)] else []
  }

  /** What visiting n puts on the stack. */
  function Children(s: Scene, desired: nat, n: Coord): seq<Coord>
    requires s.chunk >= 1
  {
    if n.level > desired then OctantsUpTo(s, n, 8) else []
  }

  /** An upper bound on the visits below a brick of the given level. */
  function WeightOf(level: nat): (w: nat)
    ensures w >= 1
  {
    if level == 0 then 1 else 1 + 8 * WeightOf(level - 1)
  }

  function Weight(stack: seq<Coord>): nat {
    if stack == [] then 0 else Weight(stack[..|stack| - 1]) + WeightOf(stack[|stack| - 1].level)
  }

  lemma {:induction false} WeightAppend(a: seq<Coord>, b: seq<Coord>)
    ensures Weight(a + b) == Weight(a) + Weight(b)
  {
    if b == [] {
      assert a + b == a;
    } else {
      WeightAppend(a, b[..|b| - 1]);
      assert (a + b)[..|a + b| - 1] == a + b[..|b| - 1];
    }
  }

  lemma OneMore(k: nat, w: nat)
    requires k > 0
    ensures k * w == (k - 1) * w + w
  {
  }

  lemma WeightOne(n: Coord)
    ensures Weight([n]) == WeightOf(n.level) && Weight([]) == 0
  {
    assert [n][..0] == [];
  }

  lemma {:induction false} OctantsWeight(s: Scene, n: Coord, k: nat)
    requires s.chunk >= 1 && n.level >= 1
    ensures Weight(OctantsUpTo(s, n, k)) <= k * WeightOf(n.level - 1)
  {
    if k > 0 {
      OctantsWeight(s, n, k - 1);
      var last := if InGrid(s, Octant(n, k - 1)) then [Octant(n, k - 1)] else [];
      WeightAppend(OctantsUpTo(s, n, k - 1), last);
      WeightOne(Octant(n, k - 1));
      OneMore(k, WeightOf(n.level - 1));
      hide InGrid, Octant, Weight, WeightOf;
    }
  }

  /** Popping a brick and pushing its children lowers the weight. */
  lemma StepLighter(s: Scene, desired: nat, stack: seq<Coord>)
    requires s.chunk >= 1 && stack != []
    ensures var rest, n := stack[..|stack| - 1], stack[|stack| - 1];
            Weight(rest) < Weight(stack) && Weight(rest + Children(s, desired, n)) < Weight(stack)
  {
    var rest, n := stack[..|stack| - 1], stack[|stack| - 1];
    hide InGrid, OctantsUpTo;
    WeightAppend(rest, Children(s, desired, n));
    if n.level > desired {
      OctantsWeight(s, n, 8);
    }
  }

  /** The bricks the stack loop visits, in order. */
  function Drain(s: Scene, desired: nat, stack: seq<Coord>): seq<Coord>
    requires s.chunk >= 1
    decreases Weight(stack)
  {
    if stack == [] then []
    else
      StepLighter(s, desired, stack);
      var rest, n := stack[..|stack| - 1], stack[|stack| - 1];
      if Kept(s, n) then [n] + Drain(s, desired, rest + Children(s, desired, n)) else Drain(s, desired, rest)
  }

  lemma DrainStep(s: Scene, desired: nat, stack: seq<Coord>)
    requires s.chunk >= 1 && stack != []
    ensures var rest, n := stack[..|stack| - 1], stack[|stack| - 1];
            && Weight(rest) < Weight(stack) && Weight(rest + Children(s, desired, n)) < Weight(stack)
            && Drain(s, desired, stack) ==
                 if Kept(s, n) then [n] + Drain(s, desired, rest + Children(s, desired, n)) else Drain(s, desired, rest)
  {
    StepLighter(s, desired, stack);
  }

  // ---------- the order of the visits ----------

  /** What a recursive descent from n visits: n itself, then its octants from the last to the first. */
  function Descent(s: Scene, desired: nat, n: Coord): seq<Coord>
    requires s.chunk >= 1
    decreases n.level, 1, 0
  {
    if !Kept(s, n) then []
    else if n.level <= desired then [n]
    else [n] + Below(s, desired, n)
  }

  function Below(s: Scene, desired: nat, n: Coord): seq<Coord>
    requires s.chunk >= 1 && n.level > desired
    decreases n.level, 0, 1
  {
    Child(s, desired, n, 1, 1, 1) + (Child(s, desired, n, 1, 1, 0)
    + (Child(s, desired, n, 1, 0, 1) + (Child(s, desired, n, 1, 0, 0)
    + (Child(s, desired, n, 0, 1, 1) + (Child(s, desired, n, 0, 1, 0)
    + (Child(s, desired, n, 0, 0, 1) + Child(s, desired, n, 0, 0, 0)))))))
  }

  function Child(s: Scene, desired: nat, n: Coord, dz: nat, dy: nat, dx: nat): seq<Coord>
    requires s.chunk >= 1 && n.level > desired
    decreases n.level, 0, 0
  {
    var m := Coord(n.level - 1, 2 * n.z + dz, 2 * n.y + dy, 2 * n.x + dx);
    if InGrid(s, m) then Descent(s, desired, m) else []
  }

  /** The visits from the bricks of a stack, the topmost first. */
  function Descents(s: Scene, desired: nat, stack: seq<Coord>): seq<Coord>
    requires s.chunk >= 1
  {
    if stack == [] then [] else Descent(s, desired, stack[|stack| - 1]) + Descents(s, desired, stack[..|stack| - 1])
  }

  lemma {:induction false} DescentsAppend(s: Scene, desired: nat, a: seq<Coord>, b: seq<Coord>)
    requires s.chunk >= 1
    ensures Descents(s, desired, a + b) == Descents(s, desired, b) + Descents(s, desired, a)
  {
    hide Descent;
    if b == [] {
      assert a + b == a;
    } else {
      DescentsAppend(s, desired, a, b[..|b| - 1]);
      assert (a + b)[..|a + b| - 1] == a + b[..|b| - 1];
    }
  }

  lemma DescentsOne(s: Scene, desired: nat, stack: seq<Coord>, n: Coord)
    requires s.chunk >= 1
    ensures Descents(s, desired, stack + [n]) == Descent(s, desired, n) + Descents(s, desired, stack)
  {
    assert (stack + [n])[..|stack|] == stack;
  }

  lemma OctantsMore(s: Scene, n: Coord, k: nat)
    requires s.chunk >= 1 && n.level >= 1
    ensures InGrid(s, Octant(n, k)) ==> OctantsUpTo(s, n, k + 1) == OctantsUpTo(s, n, k) + [Octant(n, k)]
    ensures !InGrid(s, Octant(n, k)) ==> OctantsUpTo(s, n, k + 1) == OctantsUpTo(s, n, k)
  {
    assert OctantsUpTo(s, n, k) + [] == OctantsUpTo(s, n, k);
  }

  lemma OctantPushed(s: Scene, desired: nat, n: Coord, dz: nat, dy: nat, dx: nat, i: nat)
    requires s.chunk >= 1 && n.level > desired && dz < 2 && dy < 2 && dx < 2 && i == 4 * dz + 2 * dy + dx
    ensures Descents(s, desired, OctantsUpTo(s, n, i + 1))
         == Child(s, desired, n, dz, dy, dx) + Descents(s, desired, OctantsUpTo(s, n, i))
  {
    hide InGrid, Descent, OctantsUpTo, Octant, Descents;
    OctantAt(n, dz, dy, dx);
    OctantsMore(s, n, i);
    DescentsOne(s, desired, OctantsUpTo(s, n, i), Octant(n, i));
    assert [] + Descents(s, desired, OctantsUpTo(s, n, i)) == Descents(s, desired, OctantsUpTo(s, n, i));
  }

  lemma DescentSteps(s: Scene, desired: nat, n: Coord)
    requires s.chunk >= 1
    ensures Kept(s, n) ==> Descent(s, desired, n) == [n] + Descents(s, desired, Children(s, desired, n))
    ensures !Kept(s, n) ==> Descent(s, desired, n) == []
  {
    hide Kept, Below, OctantsUpTo;
    if n.level > desired {
      BelowSteps(s, desired, n);
    }
  }

  lemma BelowSteps(s: Scene, desired: nat, n: Coord)
    requires s.chunk >= 1 && n.level > desired
    ensures Below(s, desired, n) == Descents(s, desired, OctantsUpTo(s, n, 8))
  {
    hide Child, OctantsUpTo, InGrid;
    assert Descents(s, desired, OctantsUpTo(s, n, 0)) == [] by { NoOctants(s, desired, n); }
    hide Descents;
    OctantPushed(s, desired, n, 0, 0, 0, 0);
    OctantPushed(s, desired, n, 0, 0, 1, 1);
    OctantPushed(s, desired, n, 0, 1, 0, 2);
    OctantPushed(s, desired, n, 0, 1, 1, 3);
    OctantPushed(s, desired, n, 1, 0, 0, 4);
    OctantPushed(s, desired, n, 1, 0, 1, 5);
    OctantPushed(s, desired, n, 1, 1, 0, 6);
    OctantPushed(s, desired, n, 1, 1, 1, 7);
    assert Child(s, desired, n, 0, 0, 0) + [] == Child(s, desired, n, 0, 0, 0);
  }

  lemma NoOctants(s: Scene, desired: nat, n: Coord)
    requires s.chunk >= 1 && n.level >= 1
    ensures Descents(s, desired, OctantsUpTo(s, n, 0)) == []
  {
  }

  /** The loop over the stack visits what recursive descents from its bricks visit, in that order. */
  lemma {:induction false} DrainIsDescent(s: Scene, desired: nat, stack: seq<Coord>)
    requires s.chunk >= 1
    ensures Drain(s, desired, stack) == Descents(s, desired, stack)
    decreases Weight(stack)
  {
    if stack != [] {
      var rest, n := stack[..|stack| - 1], stack[|stack| - 1];
      StepLighter(s, desired, stack);
      DescentSteps(s, desired, n);
      hide Kept, Children, Weight, Descent;
      if Kept(s, n) {
        DrainIsDescent(s, desired, rest + Children(s, desired, n));
        DescentsAppend(s, desired, rest, Children(s, desired, n));
      } else {
        DrainIsDescent(s, desired, rest);
      }
    }
  }

  // ---------- counting visits ----------

  /** The descent from n comes by x. */
  predicate Reaches(s: Scene, desired: nat, n: Coord, x: Coord)
    requires s.chunk >= 1
    decreases n.level - x.level
  {
    Kept(s, x) && (x == n || (desired <= x.level < n.level && InGrid(s, x) && Reaches(s, desired, n, Parent(x))))
  }

  function Hits(s: Scene, desired: nat, stack: seq<Coord>, x: Coord): nat
    requires s.chunk >= 1
  {
    if stack == [] then 0
    else Hits(s, desired, stack[..|stack| - 1], x) + if Reaches(s, desired, stack[|stack| - 1], x) then 1 else 0
  }

  lemma {:induction false} HitsAppend(s: Scene, desired: nat, a: seq<Coord>, b: seq<Coord>, x: Coord)
    requires s.chunk >= 1
    ensures Hits(s, desired, a + b, x) == Hits(s, desired, a, x) + Hits(s, desired, b, x)
  {
    if b == [] {
      assert a + b == a;
    } else {
      HitsAppend(s, desired, a, b[..|b| - 1], x);
      assert (a + b)[..|a + b| - 1] == a + b[..|b| - 1];
    }
  }

  lemma {:induction false} ReachesKept(s: Scene, desired: nat, n: Coord, x: Coord)
    requires s.chunk >= 1 && Reaches(s, desired, n, x)
    ensures Kept(s, n) && x.level <= n.level
    decreases n.level - x.level
  {
    if x != n {
      ReachesKept(s, desired, n, Parent(x));
    }
  }

  /** Below a list of bricks of one level, a finer brick is hit as often as its parent, if it counts at all. */
  lemma {:induction false} HitsParent(s: Scene, desired: nat, l: seq<Coord>, x: Coord)
    requires s.chunk >= 1 && forall i :: 0 <= i < |l| ==> l[i].level > x.level
    ensures Hits(s, desired, l, x) ==
              if Kept(s, x) && desired <= x.level && InGrid(s, x) then Hits(s, desired, l, Parent(x)) else 0
  {
    if l != [] {
      HitsParent(s, desired, l[..|l| - 1], x);
    }
  }

  predicate IsOctant(n: Coord, x: Coord, k: nat) {
    Parent(x) == n && x.z % 2 * 4 + x.y % 2 * 2 + x.x % 2 < k
  }

  lemma OctantOf(n: Coord, x: Coord, i: nat)
    requires n.level >= 1 && i < 8
    ensures Octant(n, i) == x <==> Parent(x) == n && x.z % 2 * 4 + x.y % 2 * 2 + x.x % 2 == i
  {
  }

  /** Among n's octants a brick of their level is hit once if it is one of them, exists and is kept. */
  lemma {:induction false} HitsOctants(s: Scene, desired: nat, n: Coord, x: Coord, k: nat)
    requires s.chunk >= 1 && n.level >= 1 && x.level == n.level - 1 && k <= 8
    ensures Hits(s, desired, OctantsUpTo(s, n, k), x) == if IsOctant(n, x, k) && InGrid(s, x) && Kept(s, x) then 1 else 0
  {
    hide Kept, InGrid, Octant;
    if k > 0 {
      HitsOctants(s, desired, n, x, k - 1);
      OctantOf(n, x, k - 1);
      var last := if InGrid(s, Octant(n, k - 1)) then [Octant(n, k - 1)] else [];
      HitsAppend(s, desired, OctantsUpTo(s, n, k - 1), last, x);
      assert last != [] ==> last[..0] == [];
      OctantLevel(n, k - 1);
    }
  }

  lemma OctantLevel(n: Coord, i: nat)
    requires n.level >= 1
    ensures Octant(n, i).level == n.level - 1
  {
  }

  lemma {:induction false} OctantsLevel(s: Scene, n: Coord, k: nat)
    requires s.chunk >= 1 && n.level >= 1
    ensures forall i :: 0 <= i < |OctantsUpTo(s, n, k)| ==> OctantsUpTo(s, n, k)[i].level == n.level - 1
  {
    if k > 0 {
      OctantsLevel(s, n, k - 1);
    }
  }

  /** The descent from a kept brick comes by the brick itself and by what its children reach, each once. */
  lemma {:induction false} HitsChildren(s: Scene, desired: nat, n: Coord, x: Coord)
    requires s.chunk >= 1 && Kept(s, n) && x != n
    ensures Hits(s, desired, Children(s, desired, n), x) == if Reaches(s, desired, n, x) then 1 else 0
    decreases n.level - x.level
  {
    hide Kept, InGrid;
    if n.level > desired {
      OctantsLevel(s, n, 8);
      if x.level == n.level - 1 {
        HitsOctants(s, desired, n, x, 8);
      } else if x.level < n.level - 1 {
        HitsParent(s, desired, Children(s, desired, n), x);
        HitsChildren(s, desired, n, Parent(x));
      } else {
        HitsAbove(s, desired, Children(s, desired, n), x);
      }
    }
  }

  lemma {:induction false} HitsAbove(s: Scene, desired: nat, l: seq<Coord>, x: Coord)
    requires s.chunk >= 1 && forall i :: 0 <= i < |l| ==> l[i].level < x.level
    ensures Hits(s, desired, l, x) == 0
  {
    if l != [] {
      HitsAbove(s, desired, l[..|l| - 1], x);
    }
  }

  /** The loop visits a brick once for every brick on the stack whose descent comes by it. */
  lemma {:induction false} DrainHits(s: Scene, desired: nat, stack: seq<Coord>, x: Coord)
    requires s.chunk >= 1
    ensures multiset(Drain(s, desired, stack))[x] == Hits(s, desired, stack, x)
    decreases Weight(stack)
  {
    if stack != [] {
      var rest, n := stack[..|stack| - 1], stack[|stack| - 1];
      StepLighter(s, desired, stack);
      hide Kept, InGrid, Weight, Children;
      if Kept(s, n) {
        DrainHits(s, desired, rest + Children(s, desired, n), x);
        HitsAppend(s, desired, rest, Children(s, desired, n), x);
        if x != n {
          HitsChildren(s, desired, n, x);
        } else {
          HitsSelf(s, desired, n);
        }
      } else {
        DrainHits(s, desired, rest, x);
        if Reaches(s, desired, n, x) {
          ReachesKept(s, desired, n, x);
        }
      }
    }
  }

  lemma HitsSelf(s: Scene, desired: nat, n: Coord)
    requires s.chunk >= 1
    ensures Hits(s, desired, Children(s, desired, n), n) == 0
  {
    if n.level > desired {
      OctantsLevel(s, n, 8);
      HitsAbove(s, desired, Children(s, desired, n), n);
    }
  }

  // ---------- descent equals filter ----------

  /** The stack holds every brick of the coarsest level once, and nothing else. */
  ghost predicate WholeTop(s: Scene, stack: seq<Coord>)
    requires s.chunk >= 1 && s.levels >= 1
  {
    forall n: Coord :: multiset(stack)[n] == if n.level == s.levels - 1 && InGrid(s, n) then 1 else 0
  }

  lemma {:induction false} HitsSameLevel(s: Scene, desired: nat, l: seq<Coord>, x: Coord)
    requires s.chunk >= 1 && forall i :: 0 <= i < |l| ==> l[i].level == x.level
    ensures Hits(s, desired, l, x) == if Kept(s, x) then multiset(l)[x] else 0
  {
    hide Kept, InGrid;
    if l != [] {
      HitsSameLevel(s, desired, l[..|l| - 1], x);
      assert l == l[..|l| - 1] + [l[|l| - 1]];
    }
  }

  lemma {:induction false} TopHits(s: Scene, desired: nat, stack: seq<Coord>, x: Coord)
    requires s.Valid() && desired < s.levels && WholeTop(s, stack)
    requires forall i :: 0 <= i < |stack| ==> stack[i].level == s.levels - 1
    ensures Hits(s, desired, stack, x) == if Wanted(s, desired, x) then 1 else 0
    decreases s.levels - x.level
  {
    hide Intersects;
    if x.level >= s.levels {
      HitsAbove(s, desired, stack, x);
    } else if x.level == s.levels - 1 {
      HitsSameLevel(s, desired, stack, x);
    } else {
      HitsParent(s, desired, stack, x);
      TopHits(s, desired, stack, Parent(x));
      if InGrid(s, x) {
        ParentInGrid(s, x);
      }
      if Intersects(s, x) {
        ParentPasses(s, x);
      }
    }
  }

  /** Started from the whole coarsest level, the loop visits exactly the wanted bricks, each once. */
  lemma DescentIsFilter(s: Scene, desired: nat, stack: seq<Coord>)
    requires s.Valid() && desired < s.levels && WholeTop(s, stack)
    ensures forall x: Coord :: multiset(Drain(s, desired, stack))[x] == if Wanted(s, desired, x) then 1 else 0
  {
    hide Wanted, Drain, Hits, InGrid, GridDims;
    TopLevels(s, stack);
    forall x: Coord ensures multiset(Drain(s, desired, stack))[x] == if Wanted(s, desired, x) then 1 else 0 {
      DrainHits(s, desired, stack, x);
      TopHits(s, desired, stack, x);
    }
  }

  lemma TopLevels(s: Scene, stack: seq<Coord>)
    requires s.chunk >= 1 && s.levels >= 1 && WholeTop(s, stack)
    ensures forall i :: 0 <= i < |stack| ==> stack[i].level == s.levels - 1
  {
    forall i | 0 <= i < |stack| ensures stack[i].level == s.levels - 1 {
      assert multiset(stack)[stack[i]] > 0;
    }
  }

  // ---------- the plan ----------

  /** Coarser levels dominate; within a level nearer bricks come first. */
  function Priority(n: Coord, dist: Coord -> real): real
    requires dist(n) >= 0.0
  {
    1000.0 * n.level as real + 1000.0 / (1.0 + dist(n))
  }

  /** A coarser brick outranks every finer one, and within a level the nearer of two outranks the other. */
  lemma CoarserFirst(a: Coord, b: Coord, dist: Coord -> real)
    requires dist(a) >= 0.0 && dist(b) >= 0.0
    ensures a.level > b.level ==> Priority(a, dist) > Priority(b, dist)
    ensures a.level == b.level && dist(a) < dist(b) ==> Priority(a, dist) > Priority(b, dist)
  {
    ShareBounds(dist(a));
    ShareBounds(dist(b));
    if a.level == b.level && dist(a) < dist(b) {
      ShareFalls(dist(a), dist(b));
    }
  }

  lemma ShareBounds(d: real)
    requires d >= 0.0
    ensures 0.0 < 1000.0 / (1.0 + d) <= 1000.0
  {
    var q := 1000.0 / (1.0 + d);
    assert q * (1.0 + d) == 1000.0;
  }

  lemma ShareFalls(d: real, e: real)
    requires 0.0 <= d < e
    ensures 1000.0 / (1.0 + d) > 1000.0 / (1.0 + e)
  {
    var p, q := 1000.0 / (1.0 + d), 1000.0 / (1.0 + e);
    assert p * (1.0 + d) == 1000.0 && q * (1.0 + e) == 1000.0;
    ShareBounds(e);
    assert q * (1.0 + d) < q * (1.0 + e);
    assert (p - q) * (1.0 + d) > 0.0;
  }

  function KeyOf(volumeId: nat, n: Coord): Key {
    Key(volumeId, n)
  }

  function VisibleOf(volumeId: nat, visited: seq<Coord>, resident: Coord -> bool): seq<Key> {
    if visited == [] then []
    else
      var n := visited[|visited| - 1];
      VisibleOf(volumeId, visited[..|visited| - 1], resident) + if resident(n) then [KeyOf(volumeId, n)] else []
  }

  /** The visited bricks that are not resident, in order, as far as the limit allows. */
  function MissingOf(volumeId: nat, visited: seq<Coord>, resident: Coord -> bool, dist: Coord -> real, limit: nat): seq<Request>
    requires forall n: Coord :: dist(n) >= 0.0
  {
    if visited == [] then []
    else
      var n := visited[|visited| - 1];
      var m := MissingOf(volumeId, visited[..|visited| - 1], resident, dist, limit);
      m + if !resident(n) && |m| < limit then [Request(KeyOf(volumeId, n), Priority(n, dist))] else []
  }

  /** The list of visible keys has each visited resident brick as often as it was visited, and nothing else. */
  lemma {:induction false} VisibleCounts(volumeId: nat, visited: seq<Coord>, resident: Coord -> bool, n: Coord)
    ensures multiset(VisibleOf(volumeId, visited, resident))[KeyOf(volumeId, n)]
         == if resident(n) then multiset(visited)[n] else 0
  {
    if visited != [] {
      var rest, m := visited[..|visited| - 1], visited[|visited| - 1];
      VisibleCounts(volumeId, rest, resident, n);
      assert visited == rest + [m];
      assert KeyOf(volumeId, m) == KeyOf(volumeId, n) <==> m == n;
    }
  }

  /** How often a brick is asked for. */
  function Asks(l: seq<Request>, k: Key): nat {
    if l == [] then 0 else Asks(l[..|l| - 1], k) + if l[|l| - 1].key == k then 1 else 0
  }

  lemma AsksAppend(l: seq<Request>, r: Request, k: Key)
    ensures Asks(l + [r], k) == Asks(l, k) + if r.key == k then 1 else 0
  {
    assert (l + [r])[..|l|] == l;
  }

  /** No brick is asked for that was not visited or is resident; short of the limit, no such brick is left out. */
  lemma {:induction false} MissingCounts(volumeId: nat, visited: seq<Coord>, resident: Coord -> bool, dist: Coord -> real,
                                         limit: nat, n: Coord)
    requires forall m: Coord :: dist(m) >= 0.0
    ensures var l, due := MissingOf(volumeId, visited, resident, dist, limit), if resident(n) then 0 else multiset(visited)[n];
            && |l| <= limit && Asks(l, KeyOf(volumeId, n)) <= due
            && (|l| < limit ==> Asks(l, KeyOf(volumeId, n)) == due)
            && forall r | r in l && r.key == KeyOf(volumeId, n) :: r.priority == Priority(n, dist)
  {
    hide Priority;
    if visited != [] {
      var rest, m := visited[..|visited| - 1], visited[|visited| - 1];
      MissingCounts(volumeId, rest, resident, dist, limit, n);
      assert visited == rest + [m];
      var l, r := MissingOf(volumeId, rest, resident, dist, limit), Request(KeyOf(volumeId, m), Priority(m, dist));
      AsksAppend(l, r, KeyOf(volumeId, n));
      assert l + [] == l;
    }
  }

  /** What a plan says of one brick: a wanted brick is listed as visible once if it is resident; if not it is asked for
      once, with its priority, unless the limit was reached; no other brick is listed at all. */
  ghost predicate BrickPlanned(s: Scene, volumeId: nat, desired: nat, resident: Coord -> bool, dist: Coord -> real,
                               limit: nat, missing: seq<Request>, visible: seq<Key>, n: Coord)
    requires s.chunk >= 1 && dist(n) >= 0.0
  {
    var k, wanted := KeyOf(volumeId, n), if Wanted(s, desired, n) then 1 else 0;
    var due := if resident(n) then 0 else wanted;
    && multiset(visible)[k] == (if resident(n) then wanted else 0)
    && Asks(missing, k) <= due && (|missing| < limit ==> Asks(missing, k) == due)
    && forall r | r in missing && r.key == k :: r.priority == Priority(n, dist)
  }

  lemma PlanCounts(s: Scene, volumeId: nat, desired: nat, visited: seq<Coord>, resident: Coord -> bool,
                   dist: Coord -> real, limit: nat)
    requires s.chunk >= 1 && forall m: Coord :: dist(m) >= 0.0
    requires forall n: Coord :: multiset(visited)[n] == if Wanted(s, desired, n) then 1 else 0
    ensures var l, v := MissingOf(volumeId, visited, resident, dist, limit), VisibleOf(volumeId, visited, resident);
            |l| <= limit && forall n: Coord :: BrickPlanned(s, volumeId, desired, resident, dist, limit, l, v, n)
  {
    hide Wanted, Asks, KeyOf, Priority, MissingOf, VisibleOf;
    var l, v := MissingOf(volumeId, visited, resident, dist, limit), VisibleOf(volumeId, visited, resident);
    MissingCounts(volumeId, visited, resident, dist, limit, Coord(0, 0, 0, 0));
    forall n: Coord ensures BrickPlanned(s, volumeId, desired, resident, dist, limit, l, v, n) {
      VisibleCounts(volumeId, visited, resident, n);
      MissingCounts(volumeId, visited, resident, dist, limit, n);
    }
  }

  // ---------- top-down ----------

  /** The brick k levels coarser around n. */
  function Around(n: Coord, k: nat): Coord
    decreases k
  {
    if k == 0 then n else Around(Parent(n), k - 1)
  }

  /** Everything coarser around n is in l. */
  ghost predicate Covered(s: Scene, l: seq<Coord>, n: Coord) {
    forall k: nat | 1 <= k < s.levels - n.level :: Around(n, k) in l
  }

  /** Everything coarser around a brick of l comes before it. */
  ghost predicate TopDown(s: Scene, l: seq<Coord>) {
    forall i :: 0 <= i < |l| ==> Covered(s, l[..i], l[i])
  }

  ghost predicate AllCovered(s: Scene, l: seq<Coord>, stack: seq<Coord>) {
    forall n | n in stack :: Covered(s, l, n)
  }

  lemma TopDownGrows(s: Scene, l: seq<Coord>, n: Coord)
    requires TopDown(s, l) && Covered(s, l, n)
    ensures TopDown(s, l + [n])
  {
    hide Covered;
    var m := l + [n];
    forall i | 0 <= i < |m| ensures Covered(s, m[..i], m[i]) {
      assert m[..i] == l[..i];
      assert l[..|l|] == l;
    }
  }

  lemma {:induction false} OctantsBelow(s: Scene, n: Coord, k: nat)
    requires s.chunk >= 1 && n.level >= 1 && k <= 8
    ensures forall m | m in OctantsUpTo(s, n, k) :: Parent(m) == n
  {
    if k > 0 {
      OctantsBelow(s, n, k - 1);
      OctantOf(n, Octant(n, k - 1), k - 1);
    }
  }

  /** Visiting n leaves everything coarser around the stacked bricks visited. */
  lemma CoveredStep(s: Scene, desired: nat, l: seq<Coord>, rest: seq<Coord>, n: Coord)
    requires s.chunk >= 1 && AllCovered(s, l, rest) && Covered(s, l, n)
    ensures AllCovered(s, l + [n], rest + Children(s, desired, n))
  {
    hide OctantsUpTo;
    if n.level > desired {
      OctantsBelow(s, n, 8);
    }
    forall m | m in rest + Children(s, desired, n) ensures Covered(s, l + [n], m) {
      if m !in rest {
        forall k: nat | 1 <= k < s.levels - m.level ensures Around(m, k) in l + [n] {
          assert Around(m, k) == Around(n, k - 1);
        }
      }
    }
  }

  lemma PopCovered(s: Scene, l: seq<Coord>, stack: seq<Coord>)
    requires AllCovered(s, l, stack) && stack != []
    ensures AllCovered(s, l, stack[..|stack| - 1]) && Covered(s, l, stack[|stack| - 1])
  {
    hide Covered;
  }

  /** One turn of the loop: the visits that remain, and what is covered if the brick is visited and if it is not. */
  lemma VisitStep(s: Scene, desired: nat, l: seq<Coord>, stack: seq<Coord>)
    requires s.chunk >= 1 && stack != [] && TopDown(s, l) && AllCovered(s, l, stack)
    ensures var rest, n := stack[..|stack| - 1], stack[|stack| - 1];
            && Weight(rest) < Weight(stack) && Weight(rest + Children(s, desired, n)) < Weight(stack)
            && (if Kept(s, n) then
                  && l + Drain(s, desired, stack) == l + [n] + Drain(s, desired, rest + Children(s, desired, n))
                  && TopDown(s, l + [n]) && AllCovered(s, l + [n], rest + Children(s, desired, n))
                else Drain(s, desired, stack) == Drain(s, desired, rest) && AllCovered(s, l, rest))
  {
    hide Kept, Children, Weight, Drain, AllCovered, Covered, TopDown;
    var rest, n := stack[..|stack| - 1], stack[|stack| - 1];
    DrainStep(s, desired, stack);
    PopCovered(s, l, stack);
    if Kept(s, n) {
      CoveredStep(s, desired, l, rest, n);
      TopDownGrows(s, l, n);
    }
  }

  /** Every request is preceded by requests for all that is coarser around its brick, but what is resident. */
  ghost predicate FallbackFirst(s: Scene, volumeId: nat, resident: Coord -> bool, missing: seq<Request>) {
    && (forall r | r in missing :: r.key.volumeId == volumeId)
    && forall i: nat, k: nat | i < |missing| && 1 <= k < s.levels - missing[i].key.coord.level ::
         var a := Around(missing[i].key.coord, k);
         resident(a) || Asks(missing[..i], KeyOf(volumeId, a)) >= 1
  }

  /** Requests for bricks visited top-down go top-down, wherever the limit cuts them off. */
  lemma {:induction false} MissingTopDown(s: Scene, volumeId: nat, visited: seq<Coord>, resident: Coord -> bool,
                                          dist: Coord -> real, limit: nat)
    requires TopDown(s, visited) && forall n: Coord :: dist(n) >= 0.0
    ensures FallbackFirst(s, volumeId, resident, MissingOf(volumeId, visited, resident, dist, limit))
  {
    hide Around, Asks, Priority, FallbackFirst;
    if visited != [] {
      var rest, n := visited[..|visited| - 1], visited[|visited| - 1];
      forall i | 0 <= i < |rest| ensures Covered(s, rest[..i], rest[i]) {
        assert rest[..i] == visited[..i];
        assert Covered(s, visited[..i], visited[i]);
      }
      MissingTopDown(s, volumeId, rest, resident, dist, limit);
      var l := MissingOf(volumeId, rest, resident, dist, limit);
      if !resident(n) && |l| < limit {
        assert Covered(s, rest, n);
        forall k: nat | 1 <= k < s.levels - n.level
          ensures resident(Around(n, k)) || Asks(l, KeyOf(volumeId, Around(n, k))) >= 1
        {
          MissingCounts(volumeId, rest, resident, dist, limit, Around(n, k));
          assert multiset(rest)[Around(n, k)] >= 1;
        }
        FallbackGrows(s, volumeId, resident, l, Request(KeyOf(volumeId, n), Priority(n, dist)));
      } else {
        assert MissingOf(volumeId, visited, resident, dist, limit) == l;
      }
    } else {
      NoneAsked(s, volumeId, resident);
    }
  }

  lemma NoneAsked(s: Scene, volumeId: nat, resident: Coord -> bool)
    ensures FallbackFirst(s, volumeId, resident, [])
  {
  }

  lemma FallbackGrows(s: Scene, volumeId: nat, resident: Coord -> bool, l: seq<Request>, r: Request)
    requires FallbackFirst(s, volumeId, resident, l) && r.key.volumeId == volumeId
    requires forall k: nat | 1 <= k < s.levels - r.key.coord.level ::
               resident(Around(r.key.coord, k)) || Asks(l, KeyOf(volumeId, Around(r.key.coord, k))) >= 1
    ensures FallbackFirst(s, volumeId, resident, l + [r])
  {
    hide Around, Asks;
    var m := l + [r];
    forall i: nat, k: nat | i < |m| && 1 <= k < s.levels - m[i].key.coord.level
      ensures var a := Around(m[i].key.coord, k); resident(a) || Asks(m[..i], KeyOf(volumeId, a)) >= 1
    {
      assert m[..i] == l[..i];
      assert l[..|l|] == l;
      assert i < |l| ==> m[i] == l[i];
    }
  }

  lemma TopCovered(s: Scene, stack: seq<Coord>)
    requires s.Valid() && WholeTop(s, stack)
    ensures AllCovered(s, [], stack)
  {
    TopLevels(s, stack);
  }

  /** Along x first, then y, then z. */
  predicate InScanOrder(stack: seq<Coord>) {
    forall i, j :: 0 <= i < j < |stack| ==>
      Before(Cell(stack[i].z, stack[i].y, stack[i].x), Cell(stack[j].z, stack[j].y, stack[j].x))
  }

  /** The stack holds every brick of the coarsest level scanned before `upto`, once, and nothing else. */
  ghost predicate TopPushed(s: Scene, stack: seq<Coord>, upto: Cell)
    requires s.chunk >= 1 && s.levels >= 1
  {
    forall n: Coord :: multiset(stack)[n] ==
      if n.level == s.levels - 1 && InGrid(s, n) && Before(Cell(n.z, n.y, n.x), upto) then 1 else 0
  }

  lemma AllPushed(s: Scene, stack: seq<Coord>, upto: Cell)
    requires s.Valid() && TopPushed(s, stack, upto) && upto.z >= GridDims(s, s.levels - 1).z
    ensures WholeTop(s, stack)
  {
    hide GridDims;
    forall n: Coord ensures multiset(stack)[n] == if n.level == s.levels - 1 && InGrid(s, n) then 1 else 0 {
      assert n.level == s.levels - 1 && InGrid(s, n) ==> Before(Cell(n.z, n.y, n.x), upto);
    }
  }

  /** The coarsest level's bricks, in scan order. */
  method TopStack(s: Scene) returns (stack: seq<Coord>)
    requires s.Valid()
    ensures WholeTop(s, stack) && InScanOrder(stack)
  {
    stack := [];
    var top := s.levels - 1;
    var g := GridDims(s, top);
    hide GridDims;
    var z := 0;
    while z < g.z
      invariant TopPushed(s, stack, Cell(z, 0, 0)) && InScanOrder(stack)
    {
      var y := 0;
      while y < g.y
        invariant TopPushed(s, stack, Cell(z, y, 0)) && InScanOrder(stack)
      {
        var x := 0;
        while x < g.x
          invariant TopPushed(s, stack, Cell(z, y, x)) && InScanOrder(stack)
        {
          PushTop(s, stack, Cell(z, y, x));
          stack := stack + [Coord(top, z, y, x)];
          x := x + 1;
        }
        y := y + 1;
      }
      z := z + 1;
    }
    AllPushed(s, stack, Cell(z, 0, 0));
  }

  lemma PushTop(s: Scene, stack: seq<Coord>, c: Cell)
    requires s.Valid() && TopPushed(s, stack, c) && c.Inside(GridDims(s, s.levels - 1)) && InScanOrder(stack)
    ensures TopPushed(s, stack + [Coord(s.levels - 1, c.z, c.y, c.x)], c.(x := c.x + 1))
    ensures InScanOrder(stack + [Coord(s.levels - 1, c.z, c.y, c.x)])
  {
    hide GridDims;
    var m := Coord(s.levels - 1, c.z, c.y, c.x);
    forall i | 0 <= i < |stack| ensures Before(Cell(stack[i].z, stack[i].y, stack[i].x), c) {
      assert multiset(stack)[stack[i]] > 0;
    }
    forall n: Coord
      ensures multiset(stack + [m])[n] ==
        if n.level == s.levels - 1 && InGrid(s, n) && Before(Cell(n.z, n.y, n.x), c.(x := c.x + 1)) then 1 else 0
    {
      assert multiset(stack + [m])[n] == multiset(stack)[n] + if n == m then 1 else 0;
    }
  }

  lemma OctantAt(n: Coord, dz: nat, dy: nat, dx: nat)
    requires n.level >= 1 && dz < 2 && dy < 2 && dx < 2
    ensures Octant(n, 4 * dz + 2 * dy + dx) == Coord(n.level - 1, n.z * 2 + dz, n.y * 2 + dy, n.x * 2 + dx)
  {
  }

  /** The octants of n that exist, pushed one after the other. */
  method PushChildren(s: Scene, n: Coord, stack: seq<Coord>) returns (r: seq<Coord>)
    requires s.chunk >= 1 && n.level >= 1
    ensures r == stack + OctantsUpTo(s, n, 8)
  {
    hide Octant, InGrid;
    r := stack;
    for dz: nat := 0 to 2
      invariant r == stack + OctantsUpTo(s, n, 4 * dz)
    {
      for dy: nat := 0 to 2
        invariant r == stack + OctantsUpTo(s, n, 4 * dz + 2 * dy)
      {
        for dx: nat := 0 to 2
          invariant r == stack + OctantsUpTo(s, n, 4 * dz + 2 * dy + dx)
        {
          var c := Coord(n.level - 1, n.z * 2 + dz, n.y * 2 + dy, n.x * 2 + dx);
          OctantAt(n, dz, dy, dx);
          if InGrid(s, c) {
            r := r + [c];
          }
        }
      }
    }
  }

  /** Files one visited brick as visible or missing. */
  method Record(volumeId: nat, n: Coord, resident: Coord -> bool, dist: Coord -> real, limit: nat,
                missing: seq<Request>, visible: seq<Key>, ghost visited: seq<Coord>)
    returns (missing': seq<Request>, visible': seq<Key>)
    requires forall m: Coord :: dist(m) >= 0.0
    requires visible == VisibleOf(volumeId, visited, resident)
    requires missing == MissingOf(volumeId, visited, resident, dist, limit)
    ensures visible' == VisibleOf(volumeId, visited + [n], resident)
    ensures missing' == MissingOf(volumeId, visited + [n], resident, dist, limit)
  {
    missing', visible' := missing, visible;
    assert (visited + [n])[..|visited|] == visited;
    if resident(n) {
      visible' := visible + [KeyOf(volumeId, n)];
    } else if |missing| < limit {
      missing' := missing + [Request(KeyOf(volumeId, n), Priority(n, dist))];
    }
  }

  /** Plan a view. `raw` is the level the zoom asks for, `dist` a brick's distance from the camera. */
  method Plan(s: Scene, volumeId: nat, raw: int, resident: Coord -> bool, dist: Coord -> real, maxRequests: nat)
    returns (missing: seq<Request>, visible: seq<Key>, desired: nat, ghost visited: seq<Coord>)
    requires s.Valid() && forall n: Coord :: dist(n) >= 0.0
    ensures desired == Clamp(raw, 0, s.levels - 1)
    ensures forall n: Coord :: multiset(visited)[n] == if Wanted(s, desired, n) then 1 else 0
    ensures visible == VisibleOf(volumeId, visited, resident)
    ensures missing == MissingOf(volumeId, visited, resident, dist, maxRequests)
    ensures |missing| <= maxRequests
    ensures forall n: Coord :: BrickPlanned(s, volumeId, desired, resident, dist, maxRequests, missing, visible, n)
    ensures FallbackFirst(s, volumeId, resident, missing)
    ensures exists top :: WholeTop(s, top) && InScanOrder(top) && visited == Descents(s, desired, top)
  {
    hide Descents, InScanOrder;
    hide InGrid, Intersects, OctantsUpTo, Octant, Wanted, WholeTop, GridDims, Drain, Weight, BrickPlanned;
    hide Covered, AllCovered, TopDown, FallbackFirst, Clamp, Priority, KeyOf;
    missing, visible, visited := [], [], [];
    assert visible == VisibleOf(volumeId, [], resident) && missing == MissingOf(volumeId, [], resident, dist, maxRequests);
    desired := Clamp(raw, 0, s.levels - 1);
    var stack := TopStack(s);
    DescentIsFilter(s, desired, stack);
    TopCovered(s, stack);
    assert TopDown(s, visited) by { NoneVisited(s); }
    hide VisibleOf, MissingOf;
    ghost var total, top := Drain(s, desired, stack), stack;
    DrainIsDescent(s, desired, stack);
    while stack != []
      invariant total == visited + Drain(s, desired, stack)
      invariant visible == VisibleOf(volumeId, visited, resident)
      invariant missing == MissingOf(volumeId, visited, resident, dist, maxRequests)
      invariant TopDown(s, visited) && AllCovered(s, visited, stack)
      decreases Weight(stack)
    {
      VisitStep(s, desired, visited, stack);
      var n := stack[|stack| - 1];
      stack := stack[..|stack| - 1];
      if !Intersects(s, n) || s.pruned(n) {
        continue;
      }
      missing, visible := Record(volumeId, n, resident, dist, maxRequests, missing, visible, visited);
      ghost var rest := stack;
      visited := visited + [n];
      if n.level > desired {
        stack := PushChildren(s, n, stack);
      }
      assert stack == rest + Children(s, desired, n);
    }
    DrainEmpty(s, desired);
    assert visited == total;
    PlanCounts(s, volumeId, desired, visited, resident, dist, maxRequests);
    MissingTopDown(s, volumeId, visited, resident, dist, maxRequests);
  }

  lemma NoneVisited(s: Scene)
    ensures TopDown(s, [])
  {
  }

  lemma DrainEmpty(s: Scene, desired: nat)
    requires s.chunk >= 1
    ensures Drain(s, desired, []) == []
  {
  }
}
