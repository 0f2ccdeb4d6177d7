/** Supervoxels: grid seeds, then one flood that labels voxels and sums their clusters. */
module Snic {
  import opened Grid
  import opened Numbers
  import opened BucketQueues
  import opened Accumulators
  import opened Flood
  import opened SeedFairness

  /** The input array; voxels at or below the threshold take no part. */
  datatype Volume = Volume(dims: Dims, vox: seq<byte>, minIntensity: byte) {
    predicate Valid() {
      0 < dims.Count() <= |vox|
    }
  }

  predicate Solid(vol: Volume, v: nat)
    requires vol.Valid()
  {
    v < vol.dims.Count() && vol.vox[v] > vol.minIntensity
  }

  function CellOf(vol: Volume, v: nat): Cell
    requires vol.Valid()
  {
    PositiveFactors(vol.dims);
    At(vol.dims, v)
  }

  /** Six-neighbours: one step along one axis. */
  predicate Adjacent(a: Cell, b: Cell) {
    Apart(a.z, b.z) + Apart(a.y, b.y) + Apart(a.x, b.x) == 1
  }

  ghost function GraphOf(vol: Volume): Graph
    requires vol.Valid()
  {
    var n := vol.dims.Count();
    Graph(set v: nat | v < n && Solid(vol, v),
          set v: nat, w: nat | v < n && w < n && Adjacent(CellOf(vol, v), CellOf(vol, w)) :: (v, w))
  }

  const WORD := 0x1_0000_0000

  /** A voxel's index as the queue keeps it, in 32 bits. */
  function Cut(v: nat): (r: nat)
    ensures r <= v && r < WORD
    ensures v < WORD ==> r == v
  {
    v % WORD
  }

  /** Every voxel the flood has to label has an index that the queue can hold. */
  ghost predicate ReachFits(vol: Volume, seeds: seq<nat>)
    requires vol.Valid()
  {
    forall v: nat | Reachable(GraphOf(vol), seeds, v) :: v < WORD
  }

  // ---------- seeds ----------

  predicate OnGrid(step: nat, c: Cell)
    requires step >= 2
  {
    c.z % step == step / 2 && c.y % step == step / 2 && c.x % step == step / 2
  }

  predicate SeedCell(vol: Volume, step: nat, c: Cell)
    requires vol.Valid() && step >= 2
  {
    c.Inside(vol.dims) && OnGrid(step, c) && Solid(vol, Index(vol.dims, c))
  }

  ghost function SeedCells(vol: Volume, step: nat): set<Cell>
    requires vol.Valid() && step >= 2
  {
    var d := vol.dims;
    set z: nat, y: nat, x: nat | z < d.z && y < d.y && x < d.x && SeedCell(vol, step, Cell(z, y, x)) :: Cell(z, y, x)
  }

  /** The wanted cells scanned before `upto`, in scan order and nothing else. */
  ghost predicate Scanned(wanted: set<Cell>, cells: seq<Cell>, upto: Cell) {
    && (forall i, j :: 0 <= i < j < |cells| ==> Before(cells[i], cells[j]))
    && (forall i :: 0 <= i < |cells| ==> cells[i] in wanted && Before(cells[i], upto))
    && (forall c :: c in wanted && Before(c, upto) ==> c in cells)
  }

  /** No wanted cell lies from `upto` on and before `next`, except perhaps `upto`. */
  ghost predicate NothingBetween(wanted: set<Cell>, upto: Cell, next: Cell) {
    Before(upto, next) && forall c :: c in wanted && Before(c, next) ==> Before(c, upto) || c == upto
  }

  lemma ScanPast(wanted: set<Cell>, cells: seq<Cell>, upto: Cell, next: Cell)
    requires Scanned(wanted, cells, upto) && NothingBetween(wanted, upto, next)
    ensures Scanned(wanted, if upto in wanted then cells + [upto] else cells, next)
  {
    var cells' := if upto in wanted then cells + [upto] else cells;
    forall c | c in wanted && Before(c, next) ensures c in cells' {
      if c == upto {
        assert cells'[|cells|] == c;
      } else {
        assert c in cells;
      }
    }
  }

  ghost predicate Indices(d: Dims, cells: seq<Cell>, seeds: seq<nat>) {
    |seeds| == |cells| && forall i :: 0 <= i < |cells| ==> seeds[i] == Index(d, cells[i])
  }

  /** The seeds are the solid cells of the seed grid, each once, in scan order. */
  ghost predicate AllSeeds(vol: Volume, step: nat, cells: seq<Cell>, seeds: seq<nat>)
    requires vol.Valid() && step >= 2
  {
    && Indices(vol.dims, cells, seeds)
    && (forall i, j :: 0 <= i < j < |cells| ==> Before(cells[i], cells[j]))
    && (forall c :: c in cells <==> SeedCell(vol, step, c))
  }

  lemma NextOnGrid(step: nat, a: nat, b: nat)
    requires step >= 2 && a % step == step / 2 && b % step == step / 2
    ensures (a + step) % step == step / 2
    ensures a < b ==> a + step <= b
  {
    assert a == (a / step) * step + step / 2;
    assert b == (b / step) * step + step / 2;
    DivModUnique(a / step + 1, step / 2, step);
    assert (a / step + 1) * step == (a / step) * step + step;
    if a < b {
      if b / step <= a / step {
        MulMonotone(b / step, a / step, step);
      }
      MulMonotone(a / step + 1, b / step, step);
    }
  }

  lemma FirstOnGrid(step: nat, b: nat)
    requires step >= 2
    ensures (step / 2) % step == step / 2
    ensures b % step == step / 2 ==> step / 2 <= b
  {
  }

  lemma StartScan(vol: Volume, step: nat)
    requires vol.Valid() && step >= 2
    ensures (step / 2) % step == step / 2
    ensures Seeded([], vol.dims, [], [], multiset{})
    ensures Scanned(SeedCells(vol, step), [], Cell(step / 2, step / 2, step / 2))
  {
    forall c | c in SeedCells(vol, step) ensures !Before(c, Cell(step / 2, step / 2, step / 2)) {
      FirstOnGrid(step, c.z);
      FirstOnGrid(step, c.y);
      FirstOnGrid(step, c.x);
    }
    FirstOnGrid(step, 0);
  }

  lemma NextInRow(vol: Volume, step: nat, z: nat, y: nat, x: nat)
    requires vol.Valid() && step >= 2 && x % step == step / 2
    ensures (x + step) % step == step / 2
    ensures NothingBetween(SeedCells(vol, step), Cell(z, y, x), Cell(z, y, x + step))
  {
    forall c | c in SeedCells(vol, step) && Before(c, Cell(z, y, x + step))
      ensures Before(c, Cell(z, y, x)) || c == Cell(z, y, x)
    {
      NextOnGrid(step, x, c.x);
    }
    NextOnGrid(step, x, x);
  }

  lemma NextRow(vol: Volume, step: nat, z: nat, y: nat, x: nat)
    requires vol.Valid() && step >= 2 && y % step == step / 2 && x >= vol.dims.x
    ensures (y + step) % step == step / 2
    ensures Cell(z, y, x) !in SeedCells(vol, step)
    ensures NothingBetween(SeedCells(vol, step), Cell(z, y, x), Cell(z, y + step, step / 2))
  {
    forall c | c in SeedCells(vol, step) && Before(c, Cell(z, y + step, step / 2))
      ensures Before(c, Cell(z, y, x)) || c == Cell(z, y, x)
    {
      NextOnGrid(step, y, c.y);
      FirstOnGrid(step, c.x);
    }
    NextOnGrid(step, y, y);
  }

  lemma NextSlice(vol: Volume, step: nat, z: nat, y: nat)
    requires vol.Valid() && step >= 2 && z % step == step / 2 && y >= vol.dims.y
    ensures (z + step) % step == step / 2
    ensures Cell(z, y, step / 2) !in SeedCells(vol, step)
    ensures NothingBetween(SeedCells(vol, step), Cell(z, y, step / 2), Cell(z + step, step / 2, step / 2))
  {
    var h := step / 2;
    forall c | c in SeedCells(vol, step) && Before(c, Cell(z + step, h, h))
      ensures Before(c, Cell(z, y, h)) || c == Cell(z, y, h)
    {
      NextOnGrid(step, z, c.z);
      FirstOnGrid(step, c.y);
      FirstOnGrid(step, c.x);
    }
    NextOnGrid(step, z, z);
  }

  /** What the seeding loops have put in place: one zero-distance pair and one empty sum per seed. */
  ghost predicate Seeded(cells: seq<Cell>, d: Dims, seeds: seq<nat>, acc: seq<Accum>, q: multiset<Element>) {
    && Indices(d, cells, seeds)
    && acc == seq(|seeds|, _ => ZERO) && |q| == |seeds|
    && (forall e :: e in q <==> e.k < |seeds| && e.idx == Cut(seeds[e.k]))
  }

  lemma AllScanned(vol: Volume, step: nat, cells: seq<Cell>, seeds: seq<nat>, acc: seq<Accum>, q: multiset<Element>,
                   upto: Cell)
    requires vol.Valid() && step >= 2 && upto.z >= vol.dims.z
    requires Scanned(SeedCells(vol, step), cells, upto) && Seeded(cells, vol.dims, seeds, acc, q)
    ensures AllSeeds(vol, step, cells, seeds)
  {
    forall c ensures c in cells <==> SeedCell(vol, step, c) {
      if SeedCell(vol, step, c) {
        assert Cell(c.z, c.y, c.x) in SeedCells(vol, step) && Before(c, upto);
      }
    }
  }

  /** Plants a seed at a cell of the seed grid, unless the voxel takes no part. */
  method PlaceSeed(vol: Volume, step: nat, pq: BucketQueue, c: Cell, ghost cells: seq<Cell>, ghost seeds: seq<nat>,
                   acc: seq<Accum>)
    returns (ghost cells': seq<Cell>, ghost seeds': seq<nat>, acc': seq<Accum>)
    requires vol.Valid() && step >= 2 && c.Inside(vol.dims) && OnGrid(step, c)
    requires pq.Valid() && pq.cur == 0 && OnlyLowest(pq.buckets) && Seeded(cells, vol.dims, seeds, acc, pq.Contents())
    modifies pq
    ensures pq.Valid() && pq.cur == 0 && OnlyLowest(pq.buckets) && Seeded(cells', vol.dims, seeds', acc', pq.Contents())
    ensures cells' == if c in SeedCells(vol, step) then cells + [c] else cells
  {
    var i := Index(vol.dims, c);
    AtIndex(vol.dims, c);
    if vol.vox[i] <= vol.minIntensity {
      return cells, seeds, acc;
    }
    assert Cell(c.z, c.y, c.x) in SeedCells(vol, step);
    LowestBucket(0.0);
    pq.Push(0.0, Element(Cut(i), |acc|));
    acc' := acc + [ZERO];
    cells', seeds' := cells + [c], seeds + [i];
  }

  method PlaceRow(vol: Volume, step: nat, pq: BucketQueue, z: nat, y: nat, ghost cells: seq<Cell>, ghost seeds: seq<nat>,
                  acc: seq<Accum>)
    returns (ghost cells': seq<Cell>, ghost seeds': seq<nat>, acc': seq<Accum>)
    requires vol.Valid() && step >= 2 && z < vol.dims.z && y < vol.dims.y
    requires z % step == step / 2 && y % step == step / 2
    requires pq.Valid() && pq.cur == 0 && OnlyLowest(pq.buckets) && Seeded(cells, vol.dims, seeds, acc, pq.Contents())
    requires Scanned(SeedCells(vol, step), cells, Cell(z, y, step / 2))
    modifies pq
    ensures pq.Valid() && pq.cur == 0 && OnlyLowest(pq.buckets) && Seeded(cells', vol.dims, seeds', acc', pq.Contents())
    ensures Scanned(SeedCells(vol, step), cells', Cell(z, y + step, step / 2))
  {
    hide BucketQueue.Valid, BucketQueue.Contents, OnlyLowest, Scanned, Seeded, SeedCells;
    cells', seeds', acc' := cells, seeds, acc;
    ghost var wanted := SeedCells(vol, step);
    var x := step / 2;
    FirstOnGrid(step, 0);
    while x < vol.dims.x
      invariant x % step == step / 2 && pq.Valid()
      invariant Scanned(wanted, cells', Cell(z, y, x))
      invariant pq.cur == 0 && OnlyLowest(pq.buckets) && Seeded(cells', vol.dims, seeds', acc', pq.Contents())
    {
      NextInRow(vol, step, z, y, x);
      ScanPast(wanted, cells', Cell(z, y, x), Cell(z, y, x + step));
      cells', seeds', acc' := PlaceSeed(vol, step, pq, Cell(z, y, x), cells', seeds', acc');
      x := x + step;
    }
    NextRow(vol, step, z, y, x);
    ScanPast(wanted, cells', Cell(z, y, x), Cell(z, y + step, step / 2));
  }

  method PlaceSlice(vol: Volume, step: nat, pq: BucketQueue, z: nat, ghost cells: seq<Cell>, ghost seeds: seq<nat>,
                    acc: seq<Accum>)
    returns (ghost cells': seq<Cell>, ghost seeds': seq<nat>, acc': seq<Accum>)
    requires vol.Valid() && step >= 2 && z < vol.dims.z && z % step == step / 2
    requires pq.Valid() && pq.cur == 0 && OnlyLowest(pq.buckets) && Seeded(cells, vol.dims, seeds, acc, pq.Contents())
    requires Scanned(SeedCells(vol, step), cells, Cell(z, step / 2, step / 2))
    modifies pq
    ensures pq.Valid() && pq.cur == 0 && OnlyLowest(pq.buckets) && Seeded(cells', vol.dims, seeds', acc', pq.Contents())
    ensures Scanned(SeedCells(vol, step), cells', Cell(z + step, step / 2, step / 2))
  {
    hide BucketQueue.Valid, BucketQueue.Contents, OnlyLowest, Scanned, Seeded, SeedCells, AllSeeds;
    cells', seeds', acc' := cells, seeds, acc;
    ghost var wanted := SeedCells(vol, step);
    var y := step / 2;
    FirstOnGrid(step, 0);
    while y < vol.dims.y
      invariant y % step == step / 2 && pq.Valid()
      invariant Scanned(wanted, cells', Cell(z, y, step / 2))
      invariant pq.cur == 0 && OnlyLowest(pq.buckets) && Seeded(cells', vol.dims, seeds', acc', pq.Contents())
    {
      cells', seeds', acc' := PlaceRow(vol, step, pq, z, y, cells', seeds', acc');
      NextOnGrid(step, y, y);
      y := y + step;
    }
    NextSlice(vol, step, z, y);
    ScanPast(wanted, cells', Cell(z, y, step / 2), Cell(z + step, step / 2, step / 2));
  }

  method PlaceSeeds(vol: Volume, step: nat, pq: BucketQueue)
    returns (ghost cells: seq<Cell>, ghost seeds: seq<nat>, acc: seq<Accum>)
    requires vol.Valid() && step >= 2
    requires pq.Valid() && pq.Contents() == multiset{} && pq.cur == 0 && OnlyLowest(pq.buckets)
    modifies pq
    ensures pq.Valid() && pq.cur == 0 && OnlyLowest(pq.buckets)
    ensures AllSeeds(vol, step, cells, seeds)
    ensures Seeded(cells, vol.dims, seeds, acc, pq.Contents())
  {
    hide BucketQueue.Valid, BucketQueue.Contents, OnlyLowest, Scanned, Seeded, SeedCells, AllSeeds;
    cells, seeds, acc := [], [], [];
    StartScan(vol, step);
    var h := step / 2;
    var z := h;
    while z < vol.dims.z
      invariant z % step == h && pq.Valid()
      invariant Scanned(SeedCells(vol, step), cells, Cell(z, h, h))
      invariant pq.cur == 0 && OnlyLowest(pq.buckets) && Seeded(cells, vol.dims, seeds, acc, pq.Contents())
    {
      cells, seeds, acc := PlaceSlice(vol, step, pq, z, cells, seeds, acc);
      NextOnGrid(step, z, z);
      z := z + step;
    }
    AllScanned(vol, step, cells, seeds, acc, pq.Contents(), Cell(z, h, h));
  }

  // ---------- neighbours ----------

  function Left(c: Cell): Cell { if c.x > 0 then c.(x := c.x - 1) else c }
  function Right(c: Cell): Cell { c.(x := c.x + 1) }
  function Up(c: Cell): Cell { if c.y > 0 then c.(y := c.y - 1) else c }
  function Down(c: Cell): Cell { c.(y := c.y + 1) }
  function Near(c: Cell): Cell { if c.z > 0 then c.(z := c.z - 1) else c }
  function Far(c: Cell): Cell { c.(z := c.z + 1) }

  predicate Around(vol: Volume, v: nat, c: Cell)
    requires vol.Valid()
  {
    c.Inside(vol.dims) && Adjacent(CellOf(vol, v), c)
  }

  lemma SixAround(vol: Volume, v: nat)
    requires vol.Valid() && v < vol.dims.Count()
    ensures var d, c := vol.dims, CellOf(vol, v);
            && (c.x > 0 ==> Around(vol, v, Left(c))) && (c.x + 1 < d.x ==> Around(vol, v, Right(c)))
            && (c.y > 0 ==> Around(vol, v, Up(c))) && (c.y + 1 < d.y ==> Around(vol, v, Down(c)))
            && (c.z > 0 ==> Around(vol, v, Near(c))) && (c.z + 1 < d.z ==> Around(vol, v, Far(c)))
  {
    IndexAt(vol.dims, v);
  }

  lemma EdgeTo(vol: Volume, v: nat, c: Cell)
    requires vol.Valid() && v < vol.dims.Count() && Around(vol, v, c)
    ensures Index(vol.dims, c) < vol.dims.Count()
    ensures Edge(GraphOf(vol), v, Index(vol.dims, c))
  {
    AtIndex(vol.dims, c);
  }

  lemma SixNeighbours(vol: Volume, v: nat, w: nat)
    requires vol.Valid() && v < vol.dims.Count() && Edge(GraphOf(vol), v, w)
    ensures w < vol.dims.Count() && CellOf(vol, w).Inside(vol.dims) && w == Index(vol.dims, CellOf(vol, w))
    ensures var a, b := CellOf(vol, v), CellOf(vol, w);
            || (a.x > 0 && b == Left(a)) || b == Right(a) || (a.y > 0 && b == Up(a)) || b == Down(a)
            || (a.z > 0 && b == Near(a)) || b == Far(a)
  {
    IndexAt(vol.dims, w);
  }

  ghost predicate NeighboursFit(vol: Volume, v: nat)
    requires vol.Valid()
  {
    forall w: nat | Edge(GraphOf(vol), v, w) && w in GraphOf(vol).nodes :: w < WORD
  }

  /** The queue after some of the neighbours of e.idx have been offered; nothing is lost by cutting if `fit`. */
  ghost predicate Offered(vol: Volume, labels: seq<int>, q0: multiset<Element>, e: Element, q: multiset<Element>,
                          done: set<Cell>, pushes: nat, fit: bool)
    requires vol.Valid()
  {
    var g := GraphOf(vol);
    && q0 <= q && |q| <= |q0| + pushes
    && (forall f :: f in q && f !in q0 ==> f.k == e.k && f.idx < vol.dims.Count() && f.idx < WORD)
    && (fit ==>
          && (forall f :: f in q && f !in q0 ==> f.idx in g.nodes && Edge(g, e.idx, f.idx))
          && (forall c :: c in done && c.Inside(vol.dims) && Open(g, labels, Index(vol.dims, c))
                ==> Element(Index(vol.dims, c), e.k) in q))
  }

  /** A seed that cluster sums a are offered, although it is open, at a distance below 1/128. */
  ghost predicate Offends(vol: Volume, seeds: seq<nat>, dist: (Accum, Cell, byte) -> real, a: Accum, c: Cell) {
    var i := Index(vol.dims, c);
    c.Inside(vol.dims) && i < |vol.vox| && i in seeds && dist(a, c, vol.vox[i]) < 1.0 / 128.0
  }

  ghost predicate Crowds(vol: Volume, labels: seq<int>, seeds: seq<nat>, dist: (Accum, Cell, byte) -> real, a: Accum, c: Cell)
    requires vol.Valid()
  {
    Open(GraphOf(vol), labels, Index(vol.dims, c)) && Offends(vol, seeds, dist, a, c)
  }

  predicate OwnsSeed(seeds: seq<nat>, labels: seq<int>, k: nat) {
    k < |seeds| && seeds[k] < |labels| && labels[seeds[k]] == k
  }

  lemma OfferOne(vol: Volume, labels: seq<int>, q0: multiset<Element>, e: Element, q: multiset<Element>,
                 done: set<Cell>, pushes: nat, c: Cell, q': multiset<Element>, fit: bool)
    requires vol.Valid() && e.idx < vol.dims.Count() && (fit ==> NeighboursFit(vol, e.idx))
    requires Offered(vol, labels, q0, e, q, done, pushes, fit)
    requires Around(vol, e.idx, c)
    requires q' == if Open(GraphOf(vol), labels, Index(vol.dims, c))
                   then q + multiset{Element(Cut(Index(vol.dims, c)), e.k)} else q
    ensures Offered(vol, labels, q0, e, q', done + {c}, pushes + 1, fit)
  {
    hide GraphOf, CellOf, Index, Adjacent, Cut;
    EdgeTo(vol, e.idx, c);
  }

  /** Offers a neighbour, if there is one on that side, to the cluster e.k, unless it is taken or takes no part. */
  method Offer(vol: Volume, labels: array<int>, pq: BucketQueue, e: Element, a: Accum, there: bool, c: Cell,
               dist: (Accum, Cell, byte) -> real, ghost taken: seq<int>, ghost q0: multiset<Element>, ghost done: set<Cell>,
               ghost pushes: nat, ghost fit: bool, ghost seeds: seq<nat>, ghost crowded: bool)
    returns (ghost done': set<Cell>, ghost crowded': bool)
    requires labels[..] == taken
    requires vol.Valid() && labels.Length == vol.dims.Count() && e.idx < labels.Length
    requires pq.Valid() && Offered(vol, taken, q0, e, pq.Contents(), done, pushes, fit)
    requires (there ==> Around(vol, e.idx, c)) && (fit ==> NeighboursFit(vol, e.idx))
    requires fit ==> OwnsSeed(seeds, taken, e.k) && Fair(pq.buckets[0], seeds, taken, crowded)
    modifies pq
    ensures pq.Valid() && Offered(vol, taken, q0, e, pq.Contents(), done', pushes + 1, fit)
    ensures done' == if there then done + {c} else done
    ensures crowded' <==> crowded || (there && Crowds(vol, taken, seeds, dist, a, c))
    ensures fit ==> Fair(pq.buckets[0], seeds, taken, crowded')
  {
    hide Fair, Offered, BucketQueue.Contents, Union, PopOrder, PushAll, NeighboursFit, Dims.Count, GraphOf, At, Cut;
    done', crowded' := done, crowded;
    if there {
      var ni := Index(vol.dims, c);
      OpenIff(vol, labels, taken, e, c, fit);
      ghost var d, low := dist(a, c, vol.vox[ni]), pq.buckets[0];
      ghost var q := pq.Contents();
      LowestBucket(d);
      hide Index, RawBucket, Open;
      if labels[ni] < 0 && vol.vox[ni] > vol.minIntensity {
        pq.Push(dist(a, c, vol.vox[ni]), Element(Cut(ni), e.k));
        crowded' := crowded || (d < 1.0 / 128.0 && ni in seeds);
        if fit {
          FairPushes(low, pq.buckets[0], Element(ni, e.k), seeds, taken, crowded, d < 1.0 / 128.0);
        }
      }
      OfferOne(vol, taken, q0, e, q, done, pushes, c, pq.Contents(), fit);
      done' := done + {c};
    } else {
      OfferNone(vol, taken, q0, e, pq.Contents(), done, pushes, fit);
    }
  }

  lemma OfferNone(vol: Volume, labels: seq<int>, q0: multiset<Element>, e: Element, q: multiset<Element>, done: set<Cell>,
                  pushes: nat, fit: bool)
    requires vol.Valid() && Offered(vol, labels, q0, e, q, done, pushes, fit)
    ensures Offered(vol, labels, q0, e, q, done, pushes + 1, fit)
  {
  }

  /** A cell around a voxel is open exactly if its label and its intensity say so, and it is not cut if none is. */
  lemma OpenIff(vol: Volume, labels: array<int>, taken: seq<int>, e: Element, c: Cell, fit: bool)
    requires vol.Valid() && labels.Length == vol.dims.Count() && labels[..] == taken && e.idx < labels.Length
    requires Around(vol, e.idx, c) && (fit ==> NeighboursFit(vol, e.idx))
    ensures var ni := Index(vol.dims, c);
            && ni < labels.Length && ni < |vol.vox|
            && (Open(GraphOf(vol), taken, ni) <==> labels[ni] < 0 && vol.vox[ni] > vol.minIntensity)
            && (fit && vol.vox[ni] > vol.minIntensity ==> Cut(ni) == ni)
  {
    AtIndex(vol.dims, c);
    EdgeTo(vol, e.idx, c);
    hide At, Index;
  }

  /** The two neighbours along one axis. */
  method OfferBoth(vol: Volume, labels: array<int>, pq: BucketQueue, e: Element, a: Accum, below: bool, lo: Cell,
                   above: bool, hi: Cell, dist: (Accum, Cell, byte) -> real, ghost taken: seq<int>,
                   ghost q0: multiset<Element>, ghost done: set<Cell>, ghost pushes: nat, ghost fit: bool,
                   ghost seeds: seq<nat>, ghost crowded: bool)
    returns (ghost done': set<Cell>, ghost crowded': bool)
    requires labels[..] == taken
    requires vol.Valid() && labels.Length == vol.dims.Count() && e.idx < labels.Length
    requires pq.Valid() && Offered(vol, taken, q0, e, pq.Contents(), done, pushes, fit)
    requires (below ==> Around(vol, e.idx, lo)) && (above ==> Around(vol, e.idx, hi))
    requires fit ==> NeighboursFit(vol, e.idx)
    requires fit ==> OwnsSeed(seeds, taken, e.k) && Fair(pq.buckets[0], seeds, taken, crowded)
    modifies pq
    ensures pq.Valid() && Offered(vol, taken, q0, e, pq.Contents(), done', pushes + 2, fit)
    ensures crowded' <==> crowded || (below && Crowds(vol, taken, seeds, dist, a, lo))
                                  || (above && Crowds(vol, taken, seeds, dist, a, hi))
    ensures fit ==> Fair(pq.buckets[0], seeds, taken, crowded')
    ensures done' == done + (if below then {lo} else {}) + (if above then {hi} else {})
  {
    hide GraphOf, Index, At, Offered, BucketQueue.Contents, Dims.Count, Around, NeighboursFit, Fair, Crowds, OwnsSeed, Union;
    done', crowded' := Offer(vol, labels, pq, e, a, below, lo, dist, taken, q0, done, pushes, fit, seeds, crowded);
    done', crowded' := Offer(vol, labels, pq, e, a, above, hi, dist, taken, q0, done', pushes + 1, fit, seeds, crowded');
  }

  /** The neighbours inside the grid are all among the offered cells. */
  ghost predicate AllSix(d: Dims, c: Cell, done: set<Cell>) {
    && (c.x > 0 ==> Left(c) in done) && (c.x + 1 < d.x ==> Right(c) in done)
    && (c.y > 0 ==> Up(c) in done) && (c.y + 1 < d.y ==> Down(c) in done)
    && (c.z > 0 ==> Near(c) in done) && (c.z + 1 < d.z ==> Far(c) in done)
  }

  /** What offering adds at most, fit or not. */
  ghost predicate Bounded(q: multiset<Element>, q': multiset<Element>, k: nat, n: nat) {
    q <= q' && |q'| <= |q| + 6 && forall f :: f in q' && f !in q ==> f.k == k && f.idx < n && f.idx < WORD
  }

  lemma AllOffered(vol: Volume, labels: seq<int>, q0: multiset<Element>, e: Element, q: multiset<Element>,
                   done: set<Cell>, fit: bool)
    requires vol.Valid() && |labels| == vol.dims.Count() && e.idx < |labels|
    requires Offered(vol, labels, q0, e, q, done, 6, fit)
    requires AllSix(vol.dims, CellOf(vol, e.idx), done)
    ensures Bounded(q0, q, e.k, |labels|)
    ensures fit ==> Offers(GraphOf(vol), labels, q0, q, e)
  {
    hide GraphOf, CellOf, Index;
    var g := GraphOf(vol);
    forall w: nat | fit && Edge(g, e.idx, w) && Open(g, labels, w) ensures Element(w, e.k) in q {
      SixNeighbours(vol, e.idx, w);
      assert CellOf(vol, w) in done;
    }
  }

  /** The cells around a voxel are the six. */
  lemma AroundIsSix(vol: Volume, v: nat, c: Cell)
    requires vol.Valid() && v < vol.dims.Count() && Around(vol, v, c)
    ensures var d, a := vol.dims, CellOf(vol, v);
            || (a.x > 0 && c == Left(a)) || (a.x + 1 < d.x && c == Right(a)) || (a.y > 0 && c == Up(a))
            || (a.y + 1 < d.y && c == Down(a)) || (a.z > 0 && c == Near(a)) || (a.z + 1 < d.z && c == Far(a))
  {
  }

  /** Some open seed around the voxel is offered at a distance below 1/128. */
  ghost predicate CrowdsAround(vol: Volume, labels: seq<int>, seeds: seq<nat>, dist: (Accum, Cell, byte) -> real, a: Accum,
                               v: nat)
    requires vol.Valid()
  {
    exists c: Cell :: Around(vol, v, c) && Crowds(vol, labels, seeds, dist, a, c)
  }

  lemma CrowdsSix(vol: Volume, labels: seq<int>, seeds: seq<nat>, dist: (Accum, Cell, byte) -> real, a: Accum, v: nat)
    requires vol.Valid() && v < vol.dims.Count()
    ensures var d, c := vol.dims, CellOf(vol, v);
            CrowdsAround(vol, labels, seeds, dist, a, v) <==>
              || (c.x > 0 && Crowds(vol, labels, seeds, dist, a, Left(c)))
              || (c.x + 1 < d.x && Crowds(vol, labels, seeds, dist, a, Right(c)))
              || (c.y > 0 && Crowds(vol, labels, seeds, dist, a, Up(c)))
              || (c.y + 1 < d.y && Crowds(vol, labels, seeds, dist, a, Down(c)))
              || (c.z > 0 && Crowds(vol, labels, seeds, dist, a, Near(c)))
              || (c.z + 1 < d.z && Crowds(vol, labels, seeds, dist, a, Far(c)))
  {
    hide Crowds, CellOf, Around, Dims.Count;
    SixAround(vol, v);
    forall c: Cell | Around(vol, v, c) && Crowds(vol, labels, seeds, dist, a, c) ensures true {
      AroundIsSix(vol, v, c);
    }
    if c: Cell :| Around(vol, v, c) && Crowds(vol, labels, seeds, dist, a, c) {
      AroundIsSix(vol, v, c);
    }
  }

  /** If no neighbour's index is cut, exactly the open ones are offered. */
  method PushNeighbours(vol: Volume, labels: array<int>, pq: BucketQueue, e: Element, a: Accum,
                        dist: (Accum, Cell, byte) -> real, ghost fit: bool, ghost seeds: seq<nat>, ghost crowded: bool)
    returns (ghost crowded': bool)
    requires vol.Valid() && labels.Length == vol.dims.Count() && e.idx < labels.Length && pq.Valid()
    requires fit ==> NeighboursFit(vol, e.idx)
    requires fit ==> OwnsSeed(seeds, labels[..], e.k) && Fair(pq.buckets[0], seeds, labels[..], crowded)
    modifies pq
    ensures crowded' <==> crowded || CrowdsAround(vol, labels[..], seeds, dist, a, e.idx)
    ensures pq.Valid() && (fit ==> Fair(pq.buckets[0], seeds, labels[..], crowded'))
    ensures pq.Valid() && Bounded(old(pq.Contents()), pq.Contents(), e.k, labels.Length)
    ensures fit ==> Offers(GraphOf(vol), labels[..], old(pq.Contents()), pq.Contents(), e)
  {
    hide GraphOf, Index, At, Offered, BucketQueue.Contents, Union, Offers, Dims.Count, Around, NeighboursFit;
    hide Bounded, Crowds, Fair, OwnsSeed, CrowdsAround;
    var d, c := vol.dims, CellOf(vol, e.idx);
    ghost var taken, q0 := labels[..], pq.Contents();
    NothingOffered(vol, taken, e, q0, fit);
    SixAround(vol, e.idx);
    CrowdsSix(vol, taken, seeds, dist, a, e.idx);
    ghost var done;
    done, crowded' := OfferBoth(vol, labels, pq, e, a, c.x > 0, Left(c), c.x + 1 < d.x, Right(c), dist, taken, q0, {}, 0,
                                fit, seeds, crowded);
    done, crowded' := OfferBoth(vol, labels, pq, e, a, c.y > 0, Up(c), c.y + 1 < d.y, Down(c), dist, taken, q0, done, 2,
                                fit, seeds, crowded');
    done, crowded' := OfferBoth(vol, labels, pq, e, a, c.z > 0, Near(c), c.z + 1 < d.z, Far(c), dist, taken, q0, done, 4,
                                fit, seeds, crowded');
    AllOffered(vol, taken, q0, e, pq.Contents(), done, fit);
  }

  lemma NothingOffered(vol: Volume, labels: seq<int>, e: Element, q0: multiset<Element>, fit: bool)
    requires vol.Valid()
    ensures Offered(vol, labels, q0, e, q0, {}, 0, fit)
  {
  }

  // ---------- the flood ----------

  ghost predicate SumsOk(vol: Volume, labels: seq<int>, acc: seq<Accum>)
    requires vol.Valid()
  {
    && |labels| == vol.dims.Count()
    && (forall k :: 0 <= k < |acc| ==> acc[k] == Batch(vol.dims, vol.vox, labels, k, |labels|))
    && Total(acc) == Labelled(labels)
  }

  lemma SumsStart(vol: Volume, labels: seq<int>, acc: seq<Accum>)
    requires vol.Valid() && |labels| == vol.dims.Count()
    requires forall v :: 0 <= v < |labels| ==> labels[v] == -1
    requires forall k :: 0 <= k < |acc| ==> acc[k] == ZERO
    ensures SumsOk(vol, labels, acc) && Labelled(labels) == 0
  {
    forall k | 0 <= k < |acc| ensures acc[k] == Batch(vol.dims, vol.vox, labels, k, |labels|) {
      BatchOfNone(vol.dims, vol.vox, labels, k, |labels|);
    }
    TotalZero(acc);
    LabelledNone(labels);
  }

  lemma SumsAdd(vol: Volume, labels: seq<int>, acc: seq<Accum>, e: Element)
    requires vol.Valid() && SumsOk(vol, labels, acc)
    requires e.idx < |labels| && labels[e.idx] == -1 && e.k < |acc|
    ensures SumsOk(vol, labels[e.idx := e.k], acc[e.k := acc[e.k].Plus(CellOf(vol, e.idx), vol.vox[e.idx])])
    ensures Labelled(labels[e.idx := e.k]) == Labelled(labels) + 1
  {
    hide At, Dims.Count, Batch, Total, Labelled;
    var a := acc[e.k].Plus(CellOf(vol, e.idx), vol.vox[e.idx]);
    var acc' := acc[e.k := a];
    forall k | 0 <= k < |acc'|
      ensures acc'[k] == Batch(vol.dims, vol.vox, labels[e.idx := e.k], k, |labels|)
    {
      BatchAdds(vol.dims, vol.vox, labels, e.idx, e.k, k, |labels|);
    }
    TotalAdds(acc, e.k, a);
    LabelledAdds(labels, e.idx, e.k);
  }

  /** Pairs and labels refer to existing voxels and clusters, and the indices fit, whatever was cut. */
  ghost predicate InRange(seeds: seq<nat>, labels: seq<int>, q: multiset<Element>) {
    && (forall e :: e in q ==> e.idx < |labels| && e.idx < WORD && e.k < |seeds|)
    && (forall v :: 0 <= v < |labels| ==> -1 <= labels[v] < |seeds|)
    && (forall v :: 0 <= v < |labels| && labels[v] >= 0 ==> v < WORD)
  }

  /** What the flood keeps: ranges and sums always, the frontier and the seeds' fairness if no reachable voxel's index is
      cut. */
  ghost predicate FloodInv(vol: Volume, seeds: seq<nat>, labels: seq<int>, q: multiset<Element>, acc: seq<Accum>,
                           low: seq<Element>, crowded: bool)
    requires vol.Valid()
  {
    && InRange(seeds, labels, q) && SumsOk(vol, labels, acc) && |acc| == |seeds|
    && (ReachFits(vol, seeds) ==> Inv(GraphOf(vol), seeds, labels, q) && Fair(low, seeds, labels, crowded))
  }

  /** The neighbours of a pair that is due are reachable, so if all reachable voxels fit they do. */
  lemma DueFits(vol: Volume, seeds: seq<nat>, labels: seq<int>, q: multiset<Element>, e: Element)
    requires vol.Valid() && ReachFits(vol, seeds)
    requires Inv(GraphOf(vol), seeds, labels, q) && e in q && labels[e.idx] < 0
    ensures NeighboursFit(vol, e.idx)
  {
    hide GraphOf, FrontierOk;
    var g := GraphOf(vol);
    assert Entitled(g, seeds, labels, e) by { DueEntitled(g, seeds, labels, q, e); }
    CommitJoins(g, seeds, labels, e);
    var p :| JoinedBy(g, seeds, labels[e.idx := e.k], e.idx, p);
    forall w: nat | Edge(g, e.idx, w) && w in g.nodes ensures w < WORD {
      assert IsPath(g, p + [w]) && (p + [w])[0] in seeds && Last(p + [w]) == w;
      assert Reachable(g, seeds, w);
    }
  }

  lemma DueEntitled(g: Graph, seeds: seq<nat>, labels: seq<int>, q: multiset<Element>, e: Element)
    requires Inv(g, seeds, labels, q) && e in q
    ensures Entitled(g, seeds, labels, e)
  {
  }

  lemma RangeSkip(seeds: seq<nat>, labels: seq<int>, q: multiset<Element>, e: Element)
    requires InRange(seeds, labels, q) && e in q
    ensures InRange(seeds, labels, q - multiset{e}) && e.idx < |labels| && e.k < |seeds| && -1 <= labels[e.idx]
  {
  }

  lemma RangeCommit(seeds: seq<nat>, labels: seq<int>, q: multiset<Element>, e: Element, q': multiset<Element>)
    requires InRange(seeds, labels, q) && e in q && Bounded(q - multiset{e}, q', e.k, |labels|)
    ensures InRange(seeds, labels[e.idx := e.k], q')
    ensures |q'| <= |q| + 5
  {
  }

  /** One turn of the flood loop: drop a taken voxel, or label it, add it up and offer its neighbours. */
  method FloodStep(vol: Volume, labels: array<int>, pq: BucketQueue, acc: seq<Accum>,
                   dist: (Accum, Cell, byte) -> real, ghost seeds: seq<nat>, ghost crowded: bool)
    returns (acc': seq<Accum>, ghost crowded': bool)
    requires vol.Valid() && pq.Valid() && pq.Contents() != multiset{}
    requires FloodInv(vol, seeds, labels[..], pq.Contents(), acc, pq.buckets[0], crowded)
    modifies pq, labels
    ensures pq.Valid() && FloodInv(vol, seeds, labels[..], pq.Contents(), acc', pq.buckets[0], crowded')
    ensures (crowded ==> crowded') && (crowded' ==> crowded || exists a, c :: Offends(vol, seeds, dist, a, c))
    ensures var was, now := old(Labelled(labels[..])), Labelled(labels[..]);
            || (now == was && |pq.Contents()| == old(|pq.Contents()|) - 1)
            || (now == was + 1 && |pq.Contents()| <= old(|pq.Contents()|) + 5)
  {
    hide GraphOf, Inv, SumsOk, BucketQueue.Contents, Offers, CellOf, At, Labelled, ReachFits, NeighboursFit, InRange, Bounded;
    hide Fair, Union, PopOrder, OwnsSeed, CrowdsAround, Offends;
    ghost var g, q, ls, fit, low := GraphOf(vol), pq.Contents(), labels[..], ReachFits(vol, seeds), pq.buckets[0];
    crowded' := crowded;
    LabelCount(vol, ls, acc);
    var e := pq.Pop();
    assert e in q && pq.Contents() == q - multiset{e};
    RangeSkip(seeds, ls, q, e);
    if fit {
      InvDistinct(g, seeds, ls, q);
      FairPops(low, pq.buckets[0], e, seeds, ls, crowded);
    }
    if labels[e.idx] >= 0 {
      if fit {
        SkipKeeps(g, seeds, ls, q, e);
      }
      return acc, crowded;
    }
    if fit {
      DueFits(vol, seeds, ls, q, e);
      CommittedOwns(g, seeds, ls, q, e);
    }
    labels[e.idx] := e.k;
    assert labels[..] == ls[e.idx := e.k];
    SumsAdd(vol, ls, acc, e);
    var a := acc[e.k].Plus(CellOf(vol, e.idx), vol.vox[e.idx]);
    acc' := acc[e.k := a];
    crowded' := PushNeighbours(vol, labels, pq, e, a, dist, fit, seeds, crowded);
    CrowdedBy(vol, labels[..], seeds, dist, a, e.idx);
    RangeCommit(seeds, ls, q, e, pq.Contents());
    if fit {
      CommitKeeps(g, seeds, ls, q, e, pq.Contents());
    }
  }

  lemma InvDistinct(g: Graph, seeds: seq<nat>, labels: seq<int>, q: multiset<Element>)
    requires Inv(g, seeds, labels, q)
    ensures Distinct(seeds)
  {
  }

  /** A cluster that has just been given a voxel owns its seed. */
  lemma CommittedOwns(g: Graph, seeds: seq<nat>, labels: seq<int>, q: multiset<Element>, e: Element)
    requires Inv(g, seeds, labels, q) && e in q && labels[e.idx] < 0
    ensures OwnsSeed(seeds, labels[e.idx := e.k], e.k)
  {
    DueEntitled(g, seeds, labels, q, e);
    CommitKeepsLabels(g, seeds, labels, e);
    SeedOwnsItself(g, seeds, labels[e.idx := e.k], e.idx);
  }

  lemma CrowdedBy(vol: Volume, labels: seq<int>, seeds: seq<nat>, dist: (Accum, Cell, byte) -> real, a: Accum, v: nat)
    requires vol.Valid()
    ensures CrowdsAround(vol, labels, seeds, dist, a, v) ==> exists b, c :: Offends(vol, seeds, dist, b, c)
  {
  }

  lemma LabelCount(vol: Volume, labels: seq<int>, acc: seq<Accum>)
    requires vol.Valid() && SumsOk(vol, labels, acc)
    ensures |labels| == vol.dims.Count()
  {
  }

  /** What one run leaves behind: the seeds in order, the label of every voxel (-1: none), the pops made, and whether
      some seed was offered, while open, at a distance below 1/128. */
  datatype Run = Run(cells: seq<Cell>, seeds: seq<nat>, labels: seq<int>, pops: nat, crowded: bool)

  ghost function Batches(vol: Volume, run: Run): seq<Accum>
    requires vol.Valid() && |run.labels| == vol.dims.Count()
  {
    seq(|run.seeds|, (k: nat) => Batch(vol.dims, vol.vox, run.labels, k, |run.labels|))
  }

  /** The seeds are the solid cells of the grid, and their numbers fit the labels' 32 bits. */
  ghost predicate Recorded(vol: Volume, step: nat, run: Run)
    requires vol.Valid() && step >= 2
  {
    && AllSeeds(vol, step, run.cells, run.seeds) && |run.seeds| <= 0x8000_0000
    && |run.labels| == vol.dims.Count() && (forall v :: 0 <= v < |run.labels| ==> -1 <= run.labels[v] < |run.seeds|)
    && run.pops <= |run.seeds| + 6 * Labelled(run.labels)
  }

  /** The labelled voxels are those that a 6-path of solid voxels joins to a seed. */
  ghost predicate Closed(vol: Volume, run: Run)
    requires vol.Valid()
  {
    forall v: nat :: v < |run.labels| ==> (run.labels[v] >= 0 <==> Reachable(GraphOf(vol), run.seeds, v))
  }

  /** The labels are the closure of flooding from the seeds, cluster by cluster. */
  ghost predicate Segments(vol: Volume, step: nat, run: Run)
    requires vol.Valid() && step >= 2
  {
    var g := GraphOf(vol);
    && Recorded(vol, step, run) && Closed(vol, run)
    && Setting(g, run.seeds, |run.labels|) && LabelsOk(g, run.seeds, run.labels)
  }

  lemma SeedsAreNodes(vol: Volume, step: nat, cells: seq<Cell>, seeds: seq<nat>)
    requires vol.Valid() && step >= 2 && AllSeeds(vol, step, cells, seeds)
    ensures Setting(GraphOf(vol), seeds, vol.dims.Count())
  {
    hide Index, At, Dims.Count;
    forall k | 0 <= k < |seeds| ensures seeds[k] in GraphOf(vol).nodes {
      assert cells[k] in cells;
      AtIndex(vol.dims, cells[k]);
    }
    forall i, j | 0 <= i < j < |seeds| ensures seeds[i] != seeds[j] {
      assert cells[i] in cells && cells[j] in cells;
      IndexOrdered(vol.dims, cells[i], cells[j]);
    }
  }

  /** If all reachable voxels fit, no seed is cut. */
  lemma SeedsFit(vol: Volume, seeds: seq<nat>)
    requires vol.Valid() && ReachFits(vol, seeds) && Setting(GraphOf(vol), seeds, vol.dims.Count())
    ensures forall k | 0 <= k < |seeds| :: Cut(seeds[k]) == seeds[k]
  {
    hide GraphOf;
    forall k | 0 <= k < |seeds| ensures Cut(seeds[k]) == seeds[k] {
      assert IsPath(GraphOf(vol), [seeds[k]]);
      assert Reachable(GraphOf(vol), seeds, seeds[k]);
    }
  }

  lemma FloodStarts(vol: Volume, step: nat, cells: seq<Cell>, seeds: seq<nat>, labels: seq<int>, acc: seq<Accum>,
                    q: multiset<Element>, low: seq<Element>)
    requires vol.Valid() && step >= 2 && |labels| == vol.dims.Count()
    requires forall v :: 0 <= v < |labels| ==> labels[v] == -1
    requires AllSeeds(vol, step, cells, seeds) && Seeded(cells, vol.dims, seeds, acc, q) && q == multiset(low)
    ensures FloodInv(vol, seeds, labels, q, acc, low, false)
    ensures Labelled(labels) == 0 && |q| == |seeds|
  {
    hide Index, At, Dims.Count, Batch, GraphOf, AllSeeds, ReachFits, Cut, Fair;
    SeedsAreNodes(vol, step, cells, seeds);
    if ReachFits(vol, seeds) {
      SeedsFit(vol, seeds);
      Starts(GraphOf(vol), seeds, labels, q);
      assert forall e :: e in low <==> e in q;
      FairStarts(low, seeds, labels);
    }
    SumsStart(vol, labels, acc);
  }

  // ---------- how many seeds there can be ----------

  function Half(a: nat): nat {
    if a == 0 then 0 else (a - 1) / 2
  }

  /** The block of two by two by two cells, counted from cell (1, 1, 1), that holds a seed cell. */
  function BlockOf(c: Cell): Cell {
    Cell(Half(c.z), Half(c.y), Half(c.x))
  }

  function Blocks(d: Dims): Dims {
    Dims(d.z / 2, d.y / 2, d.x / 2)
  }

  lemma BlocksCount(d: Dims)
    ensures 8 * Blocks(d).Count() <= d.Count()
  {
    var z, y, x := d.z / 2, d.y / 2, d.x / 2;
    MulMonotone(2 * z, d.z, 2 * y);
    MulMonotone(2 * y, d.y, d.z);
    MulMonotone((2 * z) * (2 * y), d.z * d.y, 2 * x);
    MulMonotone(2 * x, d.x, d.z * d.y);
    assert (2 * z) * (2 * y) * (2 * x) == 8 * (z * y * x);
  }

  lemma BlockInside(vol: Volume, step: nat, c: Cell)
    requires vol.Valid() && step >= 2 && SeedCell(vol, step, c)
    ensures BlockOf(c).Inside(Blocks(vol.dims))
  {
    FirstOnGrid(step, c.z);
    FirstOnGrid(step, c.y);
    FirstOnGrid(step, c.x);
  }

  lemma BlocksOrdered(step: nat, a: Cell, b: Cell)
    requires step >= 2 && OnGrid(step, a) && OnGrid(step, b) && Before(a, b)
    ensures Before(BlockOf(a), BlockOf(b))
  {
    NextOnGrid(step, a.z, b.z);
    NextOnGrid(step, a.y, b.y);
    NextOnGrid(step, a.x, b.x);
  }

  /** A seed in every eighth voxel at most. */
  lemma FewSeeds(vol: Volume, step: nat, cells: seq<Cell>, seeds: seq<nat>)
    requires vol.Valid() && step >= 2 && AllSeeds(vol, step, cells, seeds)
    ensures 8 * |seeds| <= vol.dims.Count()
  {
    hide Index, Dims.Count, Solid;
    var h := Blocks(vol.dims);
    var l := seq(|cells|, (i: nat) requires i < |cells| => Index(h, BlockOf(cells[i])));
    forall i | 0 <= i < |cells| ensures BlockOf(cells[i]).Inside(h) && l[i] < h.Count() {
      assert cells[i] in cells;
      BlockInside(vol, step, cells[i]);
      IndexFits(h, BlockOf(cells[i]));
    }
    forall i, j | 0 <= i < j < |l| ensures l[i] < l[j] {
      assert cells[i] in cells && cells[j] in cells;
      BlocksOrdered(step, cells[i], cells[j]);
      IndexOrdered(h, BlockOf(cells[i]), BlockOf(cells[j]));
    }
    BlocksCount(vol.dims);
    if |cells| > 0 {
      RisingBelow(l, |l| - 1);
    }
  }

  /** The seeds lie half a step in and then a step apart, in every row and column and slice, wherever the voxel is above
      the threshold, and their indices run along x first. */
  lemma SeedsAre(vol: Volume, step: nat, cells: seq<Cell>, seeds: seq<nat>, c: Cell)
    requires vol.Valid() && step >= 2 && AllSeeds(vol, step, cells, seeds)
    ensures var v := (c.z * vol.dims.y + c.y) * vol.dims.x + c.x;
            c in cells <==>
              && c.z < vol.dims.z && c.y < vol.dims.y && c.x < vol.dims.x
              && (exists i: nat :: c.z == step / 2 + i * step) && (exists i: nat :: c.y == step / 2 + i * step)
              && (exists i: nat :: c.x == step / 2 + i * step)
              && v < |vol.vox| && vol.vox[v] > vol.minIntensity
    ensures |seeds| == |cells|
    ensures forall k :: 0 <= k < |cells| ==> seeds[k] == (cells[k].z * vol.dims.y + cells[k].y) * vol.dims.x + cells[k].x
  {
    OnLine(step, c.z);
    OnLine(step, c.y);
    OnLine(step, c.x);
    if c.Inside(vol.dims) {
      AtIndex(vol.dims, c);
    }
    assert Index(vol.dims, c) == (c.z * vol.dims.y + c.y) * vol.dims.x + c.x;
    forall k | 0 <= k < |cells|
      ensures seeds[k] == (cells[k].z * vol.dims.y + cells[k].y) * vol.dims.x + cells[k].x
    {
      assert seeds[k] == Index(vol.dims, cells[k]);
    }
    hide Index, At, Dims.Count;
    assert c in cells <==> SeedCell(vol, step, c);
  }

  lemma OnLine(step: nat, a: nat)
    requires step >= 2
    ensures a % step == step / 2 <==> exists i: nat :: a == step / 2 + i * step
  {
    if a % step == step / 2 {
      DivStep(a, step);
      assert a == step / 2 + (a / step) * step;
    }
    if i: nat :| a == step / 2 + i * step {
      DivModUnique(i, step / 2, step);
    }
  }

  // ---------- the whole flood ----------

  /** Cluster the array. `rounded` is the grid step asked for, `dist` the distance the queue orders by. The labelled
      voxels are the reachable ones exactly if no reachable voxel's index is too large for the queue. */
  method Snic3d(vol: Volume, seedFraction: real, rounded: nat, dist: (Accum, Cell, byte) -> real)
    returns (out: seq<Cluster>, ghost run: Run)
    requires vol.dims.Count() <= 0x4_0000_0000
    ensures !vol.Valid() || seedFraction <= 0.0 ==> out == []
    ensures vol.Valid() && seedFraction > 0.0 ==>
              && Recorded(vol, Max(2, rounded), run)
              && out == Output(Batches(vol, run))
              && Counted(out) == Labelled(run.labels)
              && (Closed(vol, run) <==> ReachFits(vol, run.seeds))
              && (ReachFits(vol, run.seeds) ==> Segments(vol, Max(2, rounded), run))
              && SeedsShared(vol, dist, run, |out|)
  {
    hide GraphOf, FloodInv, BucketQueue.Contents, AllSeeds, Seeded, Labelled, Batch, Setting, Union, Offends;
    hide Recorded, Closed, Segments, ReachFits, LabelsOk, Batches, SeedsShared;
    out, run := [], Run([], [], [], 0, false);
    var n := vol.dims.Count();
    if n == 0 || |vol.vox| < n || seedFraction <= 0.0 {
      return;
    }
    var step := Max(2, rounded);
    var labels := new int[n](_ => -1);
    var pq := new BucketQueue();
    ghost var cells: seq<Cell>, seeds: seq<nat>;
    var acc: seq<Accum>;
    cells, seeds, acc := PlaceSeeds(vol, step, pq);
    AllLowest(pq);
    FloodStarts(vol, step, cells, seeds, labels[..], acc, pq.Contents(), pq.buckets[0]);
    ghost var pops, crowded := 0, false;
    var empty := pq.IsEmpty();
    while !empty
      invariant pq.Valid() && empty == (pq.Contents() == multiset{})
      invariant FloodInv(vol, seeds, labels[..], pq.Contents(), acc, pq.buckets[0], crowded)
      invariant crowded ==> exists a, c :: Offends(vol, seeds, dist, a, c)
      invariant pops + |pq.Contents()| <= |seeds| + 6 * Labelled(labels[..])
      invariant Labelled(labels[..]) <= n
      decreases 7 * (n - Labelled(labels[..])) + |pq.Contents()|
    {
      acc, crowded := FloodStep(vol, labels, pq, acc, dist, seeds, crowded);
      LabelledBound(labels[..]);
      pops := pops + 1;
      empty := pq.IsEmpty();
    }
    run := Run(cells, seeds, labels[..], pops, crowded);
    out := Emit(acc);
    NothingLeft(pq);
    Finish(vol, step, dist, run, acc);
  }

  lemma AllLowest(pq: BucketQueue)
    requires OnlyLowest(pq.buckets)
    ensures pq.Contents() == multiset(pq.buckets[0])
  {
    LowestHoldsAll(pq.buckets);
  }

  lemma NothingLeft(pq: BucketQueue)
    requires pq.Valid() && pq.Contents() == multiset{}
    ensures |pq.buckets| > 0 && pq.buckets[0] == []
  {
    assert |multiset(pq.buckets[0])| <= |Union(pq.buckets)|;
  }

  /** Where no reachable index is cut: some seed goes to another cluster, and so some cluster stays empty, exactly if a
      seed was offered, while open, at a distance below 1/128. */
  ghost predicate SeedsShared(vol: Volume, dist: (Accum, Cell, byte) -> real, run: Run, clusters: nat)
    requires vol.Valid()
  {
    && (forall k: nat | k < |run.seeds| :: run.seeds[k] < |run.labels|)
    && (run.crowded ==> exists a, c :: Offends(vol, run.seeds, dist, a, c))
    && (ReachFits(vol, run.seeds) ==>
          && (run.crowded <==> exists k: nat :: k < |run.seeds| && run.labels[run.seeds[k]] != k)
          && (run.crowded <==> clusters < |run.seeds|) && clusters <= |run.seeds|)
  }

  /** If every distance is at least 1/128 and no reachable index is cut, every seed is its own cluster's and as many
      clusters come out as there are seeds. */
  lemma EverySeedItsOwn(vol: Volume, dist: (Accum, Cell, byte) -> real, run: Run, clusters: nat)
    requires vol.Valid() && SeedsShared(vol, dist, run, clusters) && ReachFits(vol, run.seeds)
    requires forall a, c, v :: dist(a, c, v) >= 1.0 / 128.0
    ensures clusters == |run.seeds|
    ensures forall k: nat | k < |run.seeds| :: run.seeds[k] < |run.labels| && run.labels[run.seeds[k]] == k
  {
    assert forall a, c :: !Offends(vol, run.seeds, dist, a, c);
  }

  lemma Finish(vol: Volume, step: nat, dist: (Accum, Cell, byte) -> real, run: Run, acc: seq<Accum>)
    requires vol.Valid() && step >= 2 && vol.dims.Count() <= 0x4_0000_0000
    requires AllSeeds(vol, step, run.cells, run.seeds)
    requires FloodInv(vol, run.seeds, run.labels, multiset{}, acc, [], run.crowded)
    requires run.crowded ==> exists a, c :: Offends(vol, run.seeds, dist, a, c)
    requires run.pops <= |run.seeds| + 6 * Labelled(run.labels)
    ensures Recorded(vol, step, run) && |run.labels| == vol.dims.Count()
    ensures acc == Batches(vol, run) && Counted(Output(acc)) == Labelled(run.labels)
    ensures Closed(vol, run) <==> ReachFits(vol, run.seeds)
    ensures ReachFits(vol, run.seeds) ==> Segments(vol, step, run)
    ensures SeedsShared(vol, dist, run, |Output(acc)|)
  {
    hide GraphOf, Batch, AllSeeds, ReachFits, Fair, Offends, Dims.Count, Closed, LabelsOk, Setting, SeedsShared, Labelled;
    FewSeeds(vol, step, run.cells, run.seeds);
    OutputCounts(acc);
    SeedsAreNodes(vol, step, run.cells, run.seeds);
    if ReachFits(vol, run.seeds) {
      Closes(GraphOf(vol), run.seeds, run.labels);
      assert Closed(vol, run) by { ClosedOf(vol, run); }
    } else {
      CutLoses(vol, run.seeds, run.labels);
      assert !Closed(vol, run) by { OpenOf(vol, run); }
    }
    FinishShared(vol, step, dist, run, acc);
  }

  lemma ClosedOf(vol: Volume, run: Run)
    requires vol.Valid()
    requires forall v: nat :: v < |run.labels| ==> (run.labels[v] >= 0 <==> Reachable(GraphOf(vol), run.seeds, v))
    ensures Closed(vol, run)
  {
  }

  lemma OpenOf(vol: Volume, run: Run)
    requires vol.Valid()
    requires exists v: nat :: v < |run.labels| && Reachable(GraphOf(vol), run.seeds, v) && run.labels[v] < 0
    ensures !Closed(vol, run)
  {
  }

  lemma FinishShared(vol: Volume, step: nat, dist: (Accum, Cell, byte) -> real, run: Run, acc: seq<Accum>)
    requires vol.Valid() && step >= 2 && Setting(GraphOf(vol), run.seeds, |run.labels|)
    requires FloodInv(vol, run.seeds, run.labels, multiset{}, acc, [], run.crowded)
    requires |run.labels| == vol.dims.Count() && acc == Batches(vol, run)
    requires run.crowded ==> exists a, c :: Offends(vol, run.seeds, dist, a, c)
    requires ReachFits(vol, run.seeds) ==> Segments(vol, step, run)
    ensures SeedsShared(vol, dist, run, |Output(acc)|)
  {
    hide GraphOf, Batch, AllSeeds, ReachFits, Fair, Offends, Dims.Count, Closed, LabelsOk, SumsOk, Segments;
    OutputLength(acc);
    if ReachFits(vol, run.seeds) {
      FairEnds(run.seeds, run.labels, run.crowded);
      forall k: nat | k < |run.seeds| ensures acc[k].n > 0 <==> run.labels[run.seeds[k]] == k {
        OutputIffOwnsSeed(vol, step, run, k);
      }
    }
  }

  /** A reachable voxel whose index is too large stays without a label. */
  lemma CutLoses(vol: Volume, seeds: seq<nat>, labels: seq<int>)
    requires vol.Valid() && |labels| == vol.dims.Count() && !ReachFits(vol, seeds)
    requires InRange(seeds, labels, multiset{})
    ensures exists v: nat :: v < |labels| && Reachable(GraphOf(vol), seeds, v) && labels[v] < 0
  {
    var v: nat :| Reachable(GraphOf(vol), seeds, v) && v >= WORD;
    var p :| IsPath(GraphOf(vol), p) && p[0] in seeds && Last(p) == v;
    assert p[|p| - 1] in GraphOf(vol).nodes;
  }

  /** Up to 2^32 voxels every index fits. */
  lemma SmallFits(vol: Volume, seeds: seq<nat>)
    requires vol.Valid() && vol.dims.Count() <= WORD
    ensures ReachFits(vol, seeds)
  {
    forall v: nat | Reachable(GraphOf(vol), seeds, v) ensures v < WORD {
      var p :| IsPath(GraphOf(vol), p) && p[0] in seeds && Last(p) == v;
      assert p[|p| - 1] in GraphOf(vol).nodes;
    }
  }

  /** A volume of 2^33 voxels whose seeds are already too far back for the queue. */
  lemma SeedsAreCut(cells: seq<Cell>, seeds: seq<nat>) returns (vol: Volume)
    ensures vol.Valid() && vol.dims.Count() == 0x2_0000_0000
    ensures AllSeeds(vol, 2, cells, seeds) ==> !ReachFits(vol, seeds)
  {
    vol := Volume(Dims(2, 2, 0x8000_0000), seq(0x2_0000_0000, _ => 255), 0);
    var c := Cell(1, 1, 1);
    var v := Index(vol.dims, c);
    assert v == 0x1_8000_0001;
    if AllSeeds(vol, 2, cells, seeds) {
      assert SeedCell(vol, 2, c);
      assert c in cells;
      SeedsAreNodes(vol, 2, cells, seeds);
      hide GraphOf;
      assert v in seeds;
      assert IsPath(GraphOf(vol), [v]);
      assert Reachable(GraphOf(vol), seeds, v);
    }
  }

  // ---------- what a run means, cluster by cluster ----------

  lemma {:induction false} CountedMember(vol: Volume, labels: seq<int>, k: nat, m: nat)
    requires vol.Valid() && |labels| == vol.dims.Count() && m <= |labels|
    ensures Batch(vol.dims, vol.vox, labels, k, m).n > 0 <==> exists v :: 0 <= v < m && labels[v] == k
  {
    if m > 0 {
      CountedMember(vol, labels, k, m - 1);
      if Batch(vol.dims, vol.vox, labels, k, m).n > 0 && labels[m - 1] != k {
        var v :| 0 <= v < m - 1 && labels[v] == k;
        assert labels[v] == k;
      }
    }
  }

  /** A cluster is output exactly when it owns its own seed; every seed is owned by some cluster. */
  lemma OutputIffOwnsSeed(vol: Volume, step: nat, run: Run, k: nat)
    requires vol.Valid() && step >= 2 && Segments(vol, step, run) && k < |run.seeds|
    ensures Batches(vol, run)[k].n > 0 <==> run.labels[run.seeds[k]] == k
    ensures run.labels[run.seeds[k]] >= 0
  {
    hide GraphOf, AllSeeds, Batch, Dims.Count;
    var g := GraphOf(vol);
    CountedMember(vol, run.labels, k, |run.labels|);
    if Batches(vol, run)[k].n > 0 {
      var v :| 0 <= v < |run.labels| && run.labels[v] == k;
      SeedOwnsItself(g, run.seeds, run.labels, v);
    }
    assert IsPath(g, [run.seeds[k]]);
  }

  /** Every voxel of a cluster can be reached from its seed without leaving the cluster. */
  lemma ClustersConnected(vol: Volume, step: nat, run: Run, v: nat)
    requires vol.Valid() && step >= 2 && Segments(vol, step, run)
    requires v < |run.labels| && run.labels[v] >= 0
    ensures exists p :: JoinedBy(GraphOf(vol), run.seeds, run.labels, v, p)
    ensures Batches(vol, run)[run.labels[v]].n > 0
  {
    hide GraphOf, AllSeeds, Batch;
    assert Joined(GraphOf(vol), run.seeds, run.labels, v);
    CountedMember(vol, run.labels, run.labels[v], |run.labels|);
  }

  /** Cluster k of a run came out as c: its voxels counted, and its centroid and mean intensity times that count the sums
      of their coordinates and intensities. */
  ghost predicate MeansOf(vol: Volume, run: Run, k: nat, c: Cluster)
    requires vol.Valid() && |run.labels| == vol.dims.Count()
  {
    var n, d := |run.labels|, vol.dims;
    PositiveFactors(d);
    && c.count == SumOver(run.labels, k, n, OneAt()) > 0
    && c.z * c.count as real == SumOver(run.labels, k, n, ZAt(d)) as real
    && c.y * c.count as real == SumOver(run.labels, k, n, YAt(d)) as real
    && c.x * c.count as real == SumOver(run.labels, k, n, XAt(d)) as real
    && c.mean * c.count as real * 255.0 == SumOver(run.labels, k, n, VoxelAt(vol.vox)) as real
  }

  lemma MeansHold(vol: Volume, run: Run, k: nat)
    requires vol.Valid() && |run.labels| == vol.dims.Count() && k < |run.seeds| && Batches(vol, run)[k].n > 0
    ensures MeansOf(vol, run, k, Centroid(Batches(vol, run)[k]))
  {
    hide At, Dims.Count, Batch, SumOver, ZAt, YAt, XAt, VoxelAt, OneAt, Centroid;
    BatchSums(vol.dims, vol.vox, run.labels, k, |run.labels|);
    CentroidTimes(Batches(vol, run)[k]);
  }

  /** The clusters that come out are those that own a voxel, in the order of their seeds, each with the mean position and
      intensity of its voxels. */
  lemma ClustersAreMeans(vol: Volume, run: Run, out: seq<Cluster>) returns (at: seq<nat>)
    requires vol.Valid() && |run.labels| == vol.dims.Count() && out == Output(Batches(vol, run))
    ensures |at| == |out| && forall i, j :: 0 <= i < j < |at| ==> at[i] < at[j]
    ensures forall i :: 0 <= i < |at| ==> at[i] < |run.seeds| && MeansOf(vol, run, at[i], out[i])
    ensures forall v: nat | v < |run.labels| && 0 <= run.labels[v] < |run.seeds| :: run.labels[v] in at
  {
    hide Batch, Dims.Count, Centroid, Output, MeansOf;
    at := OutputAt(Batches(vol, run));
    forall i | 0 <= i < |at| ensures at[i] < |run.seeds| && MeansOf(vol, run, at[i], out[i]) {
      MeansHold(vol, run, at[i]);
    }
    forall v: nat | v < |run.labels| && 0 <= run.labels[v] < |run.seeds| ensures run.labels[v] in at {
      CountedMember(vol, run.labels, run.labels[v], |run.labels|);
    }
  }
}
