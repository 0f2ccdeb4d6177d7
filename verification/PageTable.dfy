/** The sparse page table: per-level directories of 16^3-brick tiles over one shared pool of tiles. */
module PageTable {
  import opened Grid
  import opened Numbers
  import opened BrickKeys

  const TILE_DIM := 16
  const TILE_ENTRIES := 4096
  const UNKNOWN := 0
  const ALL_EMPTY := 1
  const EMPTY := 0x8000_0000

  const BLOCK := Dims(16, 16, 16)

  /** Per-brick density range kept beside each page entry. */
  datatype Occ = Occ(min: nat, max: nat)

  const NO_OCC := Occ(0, 0)

  datatype Level = Level(grid: Dims, dir: seq<nat>, dirDirty: bool)

  datatype Pages = Pages(levels: seq<Level>, capacity: nat, used: nat, tiles: seq<nat>, occs: seq<Occ>,
                         dirty: seq<bool>)

  function DirDims(grid: Dims): Dims {
    Dims(CeilDiv(grid.z, TILE_DIM), CeilDiv(grid.y, TILE_DIM), CeilDiv(grid.x, TILE_DIM))
  }

  function DirCell(c: Coord): Cell {
    Cell(c.z / TILE_DIM, c.y / TILE_DIM, c.x / TILE_DIM)
  }

  function BlockCell(c: Coord): Cell {
    Cell(c.z % TILE_DIM, c.y % TILE_DIM, c.x % TILE_DIM)
  }

  function DirIndex(grid: Dims, c: Coord): nat {
    Index(DirDims(grid), DirCell(c))
  }

  function InTile(c: Coord): (i: nat)
    ensures i < TILE_ENTRIES
  {
    Index(BLOCK, BlockCell(c))
  }

  /** Where a brick's data lies: tiles of 16 by 16 by 16 bricks, listed along x first, then y, then z, and in a tile
      likewise. */
  lemma PlaceIs(grid: Dims, c: Coord)
    requires Cell(c.z, c.y, c.x).Inside(grid)
    ensures var dy, dx := (grid.y + 15) / 16, (grid.x + 15) / 16;
            DirIndex(grid, c) == (c.z / 16 * dy + c.y / 16) * dx + c.x / 16
    ensures InTile(c) == (c.z % 16 * 16 + c.y % 16) * 16 + c.x % 16
  {
  }

  predicate InGrid(p: Pages, c: Coord) {
    c.level < |p.levels| && Cell(c.z, c.y, c.x).Inside(p.levels[c.level].grid)
  }

  lemma DirInside(grid: Dims, c: Coord)
    requires Cell(c.z, c.y, c.x).Inside(grid)
    ensures DirCell(c).Inside(DirDims(grid)) && DirIndex(grid, c) < DirDims(grid).Count()
  {
    AtIndex(DirDims(grid), DirCell(c));
  }

  /** Two bricks of a level in the same tile and at the same place in it are the same brick. */
  lemma PlaceInjective(grid: Dims, a: Coord, b: Coord)
    requires a.level == b.level
    requires Cell(a.z, a.y, a.x).Inside(grid) && Cell(b.z, b.y, b.x).Inside(grid)
    requires DirIndex(grid, a) == DirIndex(grid, b) && InTile(a) == InTile(b)
    ensures a == b
  {
    DirInside(grid, a);
    DirInside(grid, b);
    IndexInjective(DirDims(grid), DirCell(a), DirCell(b));
    IndexInjective(BLOCK, BlockCell(a), BlockCell(b));
    assert a.z == a.z / 16 * 16 + a.z % 16 && a.y == a.y / 16 * 16 + a.y % 16 && a.x == a.x / 16 * 16 + a.x % 16;
    assert b.z == b.z / 16 * 16 + b.z % 16 && b.y == b.y / 16 * 16 + b.y % 16 && b.x == b.x / 16 * 16 + b.x % 16;
  }

  // ---------- counting the directory entries that own a tile ----------

  function Owners(dir: seq<nat>): nat {
    if dir == [] then 0 else Owners(dir[..|dir| - 1]) + if dir[|dir| - 1] >= 2 then 1 else 0
  }

  function AllOwners(levels: seq<Level>): nat {
    if levels == [] then 0 else AllOwners(levels[..|levels| - 1]) + Owners(levels[|levels| - 1].dir)
  }

  function AllEntries(levels: seq<Level>): nat {
    if levels == [] then 0 else AllEntries(levels[..|levels| - 1]) + |levels[|levels| - 1].dir|
  }

  lemma {:induction false} OwnersUpdate(dir: seq<nat>, i: nat, v: nat)
    requires i < |dir| && dir[i] < 2
    ensures Owners(dir[i := v]) == Owners(dir) + if v >= 2 then 1 else 0
  {
    var n := |dir| - 1;
    if i == n {
      assert dir[i := v][..n] == dir[..n];
    } else {
      OwnersUpdate(dir[..n], i, v);
      assert dir[i := v][..n] == dir[..n][i := v];
    }
  }

  lemma {:induction false} OwnersBound(dir: seq<nat>)
    ensures Owners(dir) <= |dir|
    ensures (exists i :: 0 <= i < |dir| && dir[i] < 2) ==> Owners(dir) < |dir|
  {
    if dir != [] {
      var n := |dir| - 1;
      OwnersBound(dir[..n]);
      if i :| 0 <= i < |dir| && dir[i] < 2 {
        assert i < n ==> dir[..n][i] < 2;
      }
    }
  }

  lemma {:induction false} AllOwnersUpdate(levels: seq<Level>, l: nat, level': Level)
    requires l < |levels|
    ensures AllOwners(levels[l := level']) + Owners(levels[l].dir) == AllOwners(levels) + Owners(level'.dir)
    ensures |level'.dir| == |levels[l].dir| ==> AllEntries(levels[l := level']) == AllEntries(levels)
  {
    var n := |levels| - 1;
    if l == n {
      assert levels[l := level'][..n] == levels[..n];
    } else {
      AllOwnersUpdate(levels[..n], l, level');
      assert levels[l := level'][..n] == levels[..n][l := level'];
    }
  }

  /** While some directory entry owns no tile, fewer tiles are owned than there are entries. */
  lemma {:induction false} SpareEntry(levels: seq<Level>, l: nat, i: nat)
    requires l < |levels| && i < |levels[l].dir| && levels[l].dir[i] < 2
    ensures AllOwners(levels) < AllEntries(levels)
  {
    var n := |levels| - 1;
    OwnersBound(levels[n].dir);
    if l == n {
      AllOwnersBound(levels[..n]);
    } else {
      SpareEntry(levels[..n], l, i);
    }
  }

  lemma {:induction false} AllOwnersBound(levels: seq<Level>)
    ensures AllOwners(levels) <= AllEntries(levels)
  {
    if levels != [] {
      AllOwnersBound(levels[..|levels| - 1]);
      OwnersBound(levels[|levels| - 1].dir);
    }
  }

  // ---------- well-formed page tables ----------

  ghost predicate SizesOk(p: Pages) {
    && |p.tiles| == |p.occs| == p.capacity * TILE_ENTRIES && |p.dirty| == p.capacity
    && (forall l :: 0 <= l < |p.levels| ==> |p.levels[l].dir| == DirDims(p.levels[l].grid).Count())
  }

  predicate Owner(p: Pages, l: int, i: int) {
    0 <= l < |p.levels| && 0 <= i < |p.levels[l].dir| && p.levels[l].dir[i] >= 2
  }

  /** Every tile in use belongs to exactly one directory entry. */
  ghost predicate TilesOk(p: Pages) {
    && p.used <= p.capacity
    && p.used == AllOwners(p.levels)
    && (forall l, i | Owner(p, l, i) :: p.levels[l].dir[i] < p.used + 2)
    && (forall l, i, m, j | Owner(p, l, i) && Owner(p, m, j) && p.levels[l].dir[i] == p.levels[m].dir[j]
          :: l == m && i == j)
  }

  ghost predicate WellFormed(p: Pages) {
    SizesOk(p) && TilesOk(p)
  }

  /** The directory entry of an in-grid brick. */
  function Dir(p: Pages, c: Coord): nat
    requires SizesOk(p) && InGrid(p, c)
  {
    DirInside(p.levels[c.level].grid, c);
    p.levels[c.level].dir[DirIndex(p.levels[c.level].grid, c)]
  }

  /** What a brick reads from a plane of per-brick data laid out tile by tile. */
  function Fetch<T>(p: Pages, plane: seq<T>, unknown: T, blank: T, c: Coord): T
    requires WellFormed(p) && InGrid(p, c) && |plane| == p.capacity * TILE_ENTRIES
  {
    var d := Dir(p, c);
    if d == UNKNOWN then unknown
    else if d == ALL_EMPTY then blank
    else
      DirInside(p.levels[c.level].grid, c);
      assert Owner(p, c.level, DirIndex(p.levels[c.level].grid, c));
      plane[(d - 2) * TILE_ENTRIES + InTile(c)]
  }

  function ReadEntry(p: Pages, c: Coord): nat
    requires WellFormed(p) && InGrid(p, c)
  {
    hide TilesOk, DirDims;
    Fetch<nat>(p, p.tiles, 0, EMPTY, c)
  }

  function ReadOcc(p: Pages, c: Coord): Occ
    requires WellFormed(p) && InGrid(p, c)
  {
    hide TilesOk, DirDims;
    Fetch(p, p.occs, NO_OCC, NO_OCC, c)
  }

  // ---------- fresh tables ----------

  lemma {:induction false} NoOwners(dir: seq<nat>)
    requires forall i :: 0 <= i < |dir| ==> dir[i] == UNKNOWN
    ensures Owners(dir) == 0
  {
    if dir != [] {
      NoOwners(dir[..|dir| - 1]);
    }
  }

  lemma {:induction false} NoOwnersAtAll(levels: seq<Level>)
    requires forall l, i :: 0 <= l < |levels| && 0 <= i < |levels[l].dir| ==> levels[l].dir[i] == UNKNOWN
    ensures AllOwners(levels) == 0
  {
    if levels != [] {
      NoOwners(levels[|levels| - 1].dir);
      NoOwnersAtAll(levels[..|levels| - 1]);
    }
  }

  lemma FreshTables(p: Pages)
    requires SizesOk(p) && p.used == 0
    requires forall l, i :: 0 <= l < |p.levels| && 0 <= i < |p.levels[l].dir| ==> p.levels[l].dir[i] == UNKNOWN
    ensures WellFormed(p)
    ensures forall c | InGrid(p, c) :: ReadEntry(p, c) == 0
  {
    NoOwnersAtAll(p.levels);
    hide DirDims, DirIndex;
    forall c | InGrid(p, c) ensures ReadEntry(p, c) == 0 {
      DirInside(p.levels[c.level].grid, c);
    }
  }

  // ---------- operations ----------

  function Filled<T>(plane: seq<T>, t: nat, v: T): seq<T>
    requires (t + 1) * TILE_ENTRIES <= |plane|
  {
    plane[..t * TILE_ENTRIES] + seq(TILE_ENTRIES, _ => v) + plane[(t + 1) * TILE_ENTRIES..]
  }

  /** Gives directory entry i of level l a tile, filled to read as before, if the pool has one left. */
  function AllocateTile(p: Pages, l: nat, i: nat): Pages
    requires SizesOk(p) && l < |p.levels| && i < |p.levels[l].dir|
  {
    if p.used >= p.capacity then p
    else
      var fill: nat := if p.levels[l].dir[i] == ALL_EMPTY then EMPTY else 0;
      var level := p.levels[l];
      p.(levels := p.levels[l := level.(dir := level.dir[i := p.used + 2], dirDirty := true)],
         used := p.used + 1,
         tiles := Filled<nat>(p.tiles, p.used, fill),
         occs := Filled(p.occs, p.used, NO_OCC),
         dirty := p.dirty[p.used := true])
  }

  function Poke(p: Pages, t: nat, i: nat, value: nat, occ: Occ): Pages
    requires SizesOk(p) && t < p.capacity && i < TILE_ENTRIES
  {
    var idx := t * TILE_ENTRIES + i;
    p.(tiles := p.tiles[idx := value], occs := p.occs[idx := occ], dirty := p.dirty[t := true])
  }

  function Materialised(p: Pages, c: Coord): Pages
    requires WellFormed(p) && InGrid(p, c)
  {
    DirInside(p.levels[c.level].grid, c);
    if Dir(p, c) < 2 then AllocateTile(p, c.level, DirIndex(p.levels[c.level].grid, c)) else p
  }

  predicate Writable(p: Pages, c: Coord)
    requires WellFormed(p) && InGrid(p, c)
  {
    Dir(p, c) >= 2 || p.used < p.capacity
  }

  // ---------- what they do ----------

  lemma AllocateKeeps(p: Pages, l: nat, i: nat)
    requires WellFormed(p) && l < |p.levels| && i < |p.levels[l].dir| && p.levels[l].dir[i] < 2
    ensures WellFormed(AllocateTile(p, l, i))
    ensures p.used < p.capacity ==> AllocateTile(p, l, i).levels[l].dir[i] == p.used + 2
  {
    if p.used < p.capacity {
      var p' := AllocateTile(p, l, i);
      OwnersUpdate(p.levels[l].dir, i, p.used + 2);
      AllOwnersUpdate(p.levels, l, p'.levels[l]);
      forall m, j | Owner(p', m, j) && !(m == l && j == i) ensures Owner(p, m, j) && p'.levels[m].dir[j] == p.levels[m].dir[j] {
      }
    }
  }

  lemma FilledAt<T>(plane: seq<T>, t: nat, v: T, u: nat, k: nat)
    requires (t + 1) * TILE_ENTRIES <= |plane| && k < TILE_ENTRIES && u * TILE_ENTRIES + k < |plane|
    ensures |Filled(plane, t, v)| == |plane|
    ensures Filled(plane, t, v)[u * TILE_ENTRIES + k] == if u == t then v else plane[u * TILE_ENTRIES + k]
  {
  }

  /** Materialising a tile changes what no brick reads. */
  lemma AllocateReads<T>(p: Pages, l: nat, i: nat, plane: seq<T>, unknown: T, blank: T, fill: T, c: Coord)
    requires WellFormed(p) && l < |p.levels| && i < |p.levels[l].dir| && p.levels[l].dir[i] < 2
    requires p.used < p.capacity && InGrid(p, c) && |plane| == p.capacity * TILE_ENTRIES
    requires fill == if p.levels[l].dir[i] == ALL_EMPTY then blank else unknown
    ensures var p' := AllocateTile(p, l, i);
            && WellFormed(p') && InGrid(p', c)
            && Fetch(p', Filled(plane, p.used, fill), unknown, blank, c) == Fetch(p, plane, unknown, blank, c)
  {
    AllocateKeeps(p, l, i);
    var p' := AllocateTile(p, l, i);
    DirInside(p.levels[c.level].grid, c);
    var j := DirIndex(p.levels[c.level].grid, c);
    hide DirDims, DirIndex, InTile, AllOwners, Filled;
    assert Owner(p, c.level, j) ==> p.levels[c.level].dir[j] < p.used + 2;
    assert Dir(p', c) == if c.level == l && j == i then p.used + 2 else Dir(p, c);
    if Dir(p', c) >= 2 {
      FilledAt(plane, p.used, fill, Dir(p', c) - 2, InTile(c));
    }
  }

  /** The place of a brick's data in the planes. */
  function Place(p: Pages, c: Coord): nat
    requires SizesOk(p) && InGrid(p, c) && Dir(p, c) >= 2
  {
    (Dir(p, c) - 2) * TILE_ENTRIES + InTile(c)
  }

  /** No two bricks of any level share a place, and every place exists. */
  lemma PlacesDistinct(p: Pages, a: Coord, b: Coord)
    requires WellFormed(p) && InGrid(p, a) && InGrid(p, b) && Dir(p, a) >= 2 && Dir(p, b) >= 2
    ensures Place(p, a) < p.used * TILE_ENTRIES <= p.capacity * TILE_ENTRIES
    ensures Place(p, a) == Place(p, b) ==> a == b
  {
    hide InTile, DirDims, DirCell, AllOwners;
    var ga, gb := p.levels[a.level].grid, p.levels[b.level].grid;
    DirInside(ga, a);
    DirInside(gb, b);
    hide DirIndex;
    assert Owner(p, a.level, DirIndex(ga, a)) && Owner(p, b.level, DirIndex(gb, b));
    if Place(p, a) == Place(p, b) {
      assert Dir(p, a) == Dir(p, b) && InTile(a) == InTile(b);
      PlaceInjective(ga, a, b);
    }
  }

  function WriteEntry(p: Pages, c: Coord, value: nat, occ: Occ): Pages
    requires WellFormed(p) && InGrid(p, c)
  {
    if !Writable(p, c) then p
    else
      MaterialisedOk(p, c);
      Poke(Materialised(p, c), Dir(Materialised(p, c), c) - 2, InTile(c), value, occ)
  }

  lemma MaterialisedOk(p: Pages, c: Coord)
    requires WellFormed(p) && InGrid(p, c) && Writable(p, c)
    ensures var p' := Materialised(p, c);
            && WellFormed(p') && InGrid(p', c) && Dir(p', c) >= 2 && Dir(p', c) - 2 < p'.capacity
            && p'.capacity == p.capacity && |p'.levels| == |p.levels|
            && (forall l :: 0 <= l < |p.levels| ==> p'.levels[l].grid == p.levels[l].grid)
  {
    hide DirDims, AllOwners, DirIndex;
    var i := DirIndex(p.levels[c.level].grid, c);
    DirInside(p.levels[c.level].grid, c);
    if Dir(p, c) < 2 {
      AllocateKeeps(p, c.level, i);
    } else {
      assert Owner(p, c.level, i);
    }
  }

  lemma MaterialisedReads(p: Pages, c: Coord, b: Coord)
    requires WellFormed(p) && InGrid(p, c) && InGrid(p, b)
    ensures var p' := Materialised(p, c);
            WellFormed(p') && InGrid(p', b) && ReadEntry(p', b) == ReadEntry(p, b) && ReadOcc(p', b) == ReadOcc(p, b)
  {
    hide DirDims, AllOwners, DirIndex, Fetch, TilesOk, Filled;
    var i := DirIndex(p.levels[c.level].grid, c);
    DirInside(p.levels[c.level].grid, c);
    if Dir(p, c) < 2 && p.used < p.capacity {
      var fill: nat := if p.levels[c.level].dir[i] == ALL_EMPTY then EMPTY else 0;
      AllocateReads<nat>(p, c.level, i, p.tiles, 0, EMPTY, fill, b);
      AllocateReads<Occ>(p, c.level, i, p.occs, NO_OCC, NO_OCC, NO_OCC, b);
    }
  }

  /** Writing one place of an existing tile changes what that brick reads and nothing else. */
  lemma PokeReads(p: Pages, c: Coord, value: nat, occ: Occ, b: Coord)
    requires WellFormed(p) && InGrid(p, c) && InGrid(p, b) && 2 <= Dir(p, c) < p.capacity + 2
    ensures var p' := Poke(p, Dir(p, c) - 2, InTile(c), value, occ);
            && WellFormed(p') && InGrid(p', b)
            && ReadEntry(p', b) == (if b == c then value else ReadEntry(p, b))
            && ReadOcc(p', b) == (if b == c then occ else ReadOcc(p, b))
  {
    hide DirDims, AllOwners, DirIndex, InTile;
    var p' := Poke(p, Dir(p, c) - 2, InTile(c), value, occ);
    assert TilesOk(p') by {
      assert forall l, i :: Owner(p', l, i) <==> Owner(p, l, i);
    }
    if Dir(p, b) >= 2 {
      PlacesDistinct(p, b, c);
    }
  }

  /** A write changes exactly one brick's entry, materialising its tile if need be; with no tile to be had
      it changes nothing. */
  lemma WriteEntryExact(p: Pages, c: Coord, value: nat, occ: Occ, b: Coord)
    requires WellFormed(p) && InGrid(p, c) && InGrid(p, b)
    ensures var p' := WriteEntry(p, c, value, occ);
            && WellFormed(p') && InGrid(p', b)
            && ReadEntry(p', b) == (if b == c && Writable(p, c) then value else ReadEntry(p, b))
            && ReadOcc(p', b) == (if b == c && Writable(p, c) then occ else ReadOcc(p, b))
  {
    hide WellFormed, ReadEntry, ReadOcc, Dir, Materialised, Poke;
    if Writable(p, c) {
      MaterialisedOk(p, c);
      MaterialisedReads(p, c, b);
      MaterialisedReads(p, c, c);
      PokeReads(Materialised(p, c), c, value, occ, b);
    }
  }

  /** Nothing but the tables' contents changes. */
  ghost predicate SameShape(p: Pages, p': Pages) {
    && p'.capacity == p.capacity && |p'.levels| == |p.levels|
    && (forall l :: 0 <= l < |p.levels| ==> p'.levels[l].grid == p.levels[l].grid && |p'.levels[l].dir| == |p.levels[l].dir|)
  }

  lemma WriteEntryShape(p: Pages, c: Coord, value: nat, occ: Occ)
    requires WellFormed(p) && InGrid(p, c)
    ensures WellFormed(WriteEntry(p, c, value, occ)) && SameShape(p, WriteEntry(p, c, value, occ))
  {
    WriteEntryExact(p, c, value, occ, c);
    hide DirDims, AllOwners, DirIndex;
    if Writable(p, c) {
      MaterialisedOk(p, c);
    }
  }

  // ---------- capacity ----------

  /** A pool with a tile for every directory entry can always serve a write. */
  lemma RoomyNeverFails(p: Pages, c: Coord)
    requires WellFormed(p) && InGrid(p, c) && AllEntries(p.levels) <= p.capacity
    ensures Writable(p, c)
  {
    if Dir(p, c) < 2 {
      DirInside(p.levels[c.level].grid, c);
      SpareEntry(p.levels, c.level, DirIndex(p.levels[c.level].grid, c));
    }
  }

  const MAX_TILES := 65536

  /** The box of tiles the pool texture is made of: axis by axis by whatever height holds them. */
  function TilePoolDims(entries: nat, axis: nat): Dims
    requires axis >= 1
  {
    var wanted := Min(entries, MAX_TILES);
    MulPositive(axis, axis);
    Dims(axis, axis, CeilDiv(wanted, axis * axis))
  }

  /** Whatever the axis, the box holds a tile for every directory entry up to the limit. */
  lemma PoolHoldsAll(entries: nat, axis: nat)
    requires axis >= 1
    ensures TilePoolDims(entries, axis).Count() >= Min(entries, MAX_TILES)
  {
    var wanted, square := Min(entries, MAX_TILES), axis * axis;
    MulPositive(axis, axis);
    var n := CeilDiv(wanted, square);
    assert wanted + square - 1 == n * square + (wanted + square - 1) % square;
    assert axis * axis * n == n * square;
  }

  /** One layer less would not hold them, and 65536 tiles are the most that are asked for. */
  lemma PoolIsTight(entries: nat, axis: nat)
    requires axis >= 1 && entries >= 1
    ensures var d := TilePoolDims(entries, axis);
            && d.z == d.y == axis && d.x >= 1 && d.Count() >= (if entries < 65536 then entries else 65536)
            && (d.x - 1) * (axis * axis) < (if entries < 65536 then entries else 65536)
  {
    PoolHoldsAll(entries, axis);
    MulPositive(axis, axis);
    CeilTight(Min(entries, MAX_TILES), axis * axis);
  }

  lemma CeilTight(a: nat, b: nat)
    requires a >= 1 && b >= 1
    ensures CeilDiv(a, b) >= 1 && (CeilDiv(a, b) - 1) * b < a
  {
    var n, r := CeilDiv(a, b), (a + b - 1) % b;
    DivStep(a + b - 1, b);
    assert n * b + r == a + b - 1;
    assert (n - 1) * b == n * b - b;
  }
}
