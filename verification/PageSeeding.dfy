/** Marking bricks empty: one at a time, and a whole level at once from a manifest. */
module PageSeeding {
  import opened Grid
  import opened Numbers
  import opened BrickKeys
  import opened PageTable

  predicate IsEmpty(entry: nat) {
    entry / 0x8000_0000 % 2 == 1
  }

  function MarkEmpty(p: Pages, c: Coord): Pages
    requires WellFormed(p) && InGrid(p, c)
  {
    if IsEmpty(ReadEntry(p, c)) then p else WriteEntry(p, c, EMPTY, NO_OCC)
  }

  /** Room for a tile under every directory entry. */
  ghost predicate Roomy(p: Pages) {
    AllEntries(p.levels) <= p.capacity
  }

  lemma {:induction false} EntriesKept(a: seq<Level>, b: seq<Level>)
    requires |a| == |b| && forall l :: 0 <= l < |a| ==> |a[l].dir| == |b[l].dir|
    ensures AllEntries(a) == AllEntries(b)
  {
    if a != [] {
      EntriesKept(a[..|a| - 1], b[..|b| - 1]);
    }
  }

  /** p1 is p0 with the bricks of `done` that are empty, and did not read so before, marked empty. */
  ghost predicate SeededOn(p0: Pages, p1: Pages, empty: Coord -> bool, done: Coord -> bool) {
    && WellFormed(p0) && WellFormed(p1) && SameShape(p0, p1)
    && forall b | InGrid(p0, b) :: EntrySeeded(p0, p1, empty, done, b)
  }

  ghost predicate EntrySeeded(p0: Pages, p1: Pages, empty: Coord -> bool, done: Coord -> bool, b: Coord)
    requires WellFormed(p0) && WellFormed(p1) && SameShape(p0, p1) && InGrid(p0, b)
  {
    var marked := done(b) && empty(b) && !IsEmpty(ReadEntry(p0, b));
    && ReadEntry(p1, b) == (if marked then EMPTY else ReadEntry(p0, b))
    && ReadOcc(p1, b) == (if marked then NO_OCC else ReadOcc(p0, b))
  }

  lemma SeededNone(p: Pages, empty: Coord -> bool, done: Coord -> bool)
    requires WellFormed(p) && forall b | InGrid(p, b) :: !done(b)
    ensures SeededOn(p, p, empty, done)
  {
  }

  lemma SeededSame(p0: Pages, p1: Pages, empty: Coord -> bool, done: Coord -> bool, done': Coord -> bool)
    requires SeededOn(p0, p1, empty, done)
    requires forall b | InGrid(p0, b) && empty(b) :: done(b) <==> done'(b)
    ensures SeededOn(p0, p1, empty, done')
  {
    hide WellFormed, ReadEntry, ReadOcc;
    forall b | InGrid(p0, b) ensures EntrySeeded(p0, p1, empty, done', b) {
      assert EntrySeeded(p0, p1, empty, done, b);
    }
  }

  function With(done: Coord -> bool, c: Coord): Coord -> bool {
    (b: Coord) => done(b) || b == c
  }

  /** Marking one more empty brick. */
  lemma MarkOne(p0: Pages, p1: Pages, empty: Coord -> bool, done: Coord -> bool, c: Coord)
    requires SeededOn(p0, p1, empty, done) && InGrid(p0, c) && empty(c) && Roomy(p0)
    ensures InGrid(p1, c) && SeededOn(p0, MarkEmpty(p1, c), empty, With(done, c))
  {
    hide WellFormed, ReadEntry, ReadOcc, WriteEntry, Dir;
    EntriesKept(p0.levels, p1.levels);
    RoomyNeverFails(p1, c);
    var p2 := MarkEmpty(p1, c);
    WriteEntryShape(p1, c, EMPTY, NO_OCC);
    forall b | InGrid(p0, b) ensures EntrySeeded(p0, p2, empty, With(done, c), b) {
      assert EntrySeeded(p0, p1, empty, done, b);
      WriteEntryExact(p1, c, EMPTY, NO_OCC, b);
      assert EntrySeeded(p0, p1, empty, done, c);
      assert IsEmpty(EMPTY);
    }
  }

  /** A write touches no directory entry but the brick's own, and that one only to give it a tile. */
  lemma WriteEntryDir(p: Pages, c: Coord, value: nat, occ: Occ, l: nat, i: nat)
    requires WellFormed(p) && InGrid(p, c) && l < |p.levels| && i < |p.levels[l].dir|
    requires l != c.level || i != DirIndex(p.levels[l].grid, c)
    ensures WellFormed(WriteEntry(p, c, value, occ)) && SameShape(p, WriteEntry(p, c, value, occ))
    ensures WriteEntry(p, c, value, occ).levels[l].dir[i] == p.levels[l].dir[i]
  {
    hide DirDims, AllOwners, DirIndex, InTile;
    WriteEntryShape(p, c, value, occ);
    DirInside(p.levels[c.level].grid, c);
    if Writable(p, c) {
      MaterialisedOk(p, c);
    }
  }

  /** Turning an unknown directory entry into a wholly empty one. */
  function BlankTile(p: Pages, l: nat, i: nat): Pages
    requires l < |p.levels| && i < |p.levels[l].dir|
  {
    p.(levels := p.levels[l := p.levels[l].(dir := p.levels[l].dir[i := ALL_EMPTY], dirDirty := true)])
  }

  lemma BlankTileKeeps(p: Pages, l: nat, i: nat)
    requires WellFormed(p) && l < |p.levels| && i < |p.levels[l].dir| && p.levels[l].dir[i] == UNKNOWN
    ensures WellFormed(BlankTile(p, l, i)) && SameShape(p, BlankTile(p, l, i))
  {
    var p' := BlankTile(p, l, i);
    OwnersUpdate(p.levels[l].dir, i, ALL_EMPTY);
    AllOwnersUpdate(p.levels, l, p'.levels[l]);
    assert forall m, j :: Owner(p', m, j) <==> Owner(p, m, j);
  }

  lemma BlankTileReads(p: Pages, l: nat, i: nat, b: Coord)
    requires WellFormed(p) && l < |p.levels| && i < |p.levels[l].dir| && p.levels[l].dir[i] == UNKNOWN
    requires InGrid(p, b)
    ensures var p' := BlankTile(p, l, i);
            && WellFormed(p') && InGrid(p', b)
            && ReadEntry(p', b) == (if b.level == l && DirIndex(p.levels[l].grid, b) == i then EMPTY else ReadEntry(p, b))
            && ReadOcc(p', b) == ReadOcc(p, b)
    ensures b.level == l && DirIndex(p.levels[l].grid, b) == i ==> ReadEntry(p, b) == 0 && ReadOcc(p, b) == NO_OCC
  {
    BlankTileKeeps(p, l, i);
    hide TilesOk, InTile, DirDims;
    DirInside(p.levels[b.level].grid, b);
  }

  // ---------- one tile ----------

  /** The brick cells a tile covers. */
  predicate InTileBox(grid: Dims, tile: Cell, c: Cell) {
    c.Inside(grid) && c.z / TILE_DIM == tile.z && c.y / TILE_DIM == tile.y && c.x / TILE_DIM == tile.x
  }

  function CoordOf(level: nat, c: Cell): Coord {
    Coord(level, c.z, c.y, c.x)
  }

  function CellOf(b: Coord): Cell {
    Cell(b.z, b.y, b.x)
  }

  /** The bricks of a level in the tiles scanned before `tile`. */
  function TilesBefore(level: nat, tile: Cell): Coord -> bool {
    (b: Coord) => b.level == level && Before(DirCell(b), tile)
  }

  /** ... and those of `tile` itself scanned before `upto`. */
  function BricksBefore(level: nat, tile: Cell, upto: Cell): Coord -> bool {
    (b: Coord) => b.level == level && (Before(DirCell(b), tile) || (DirCell(b) == tile && Before(CellOf(b), upto)))
  }

  function TilesThrough(level: nat, tile: Cell): Coord -> bool {
    (b: Coord) => b.level == level && (Before(DirCell(b), tile) || DirCell(b) == tile)
  }

  function EmptyAt(level: nat, isEmpty: Cell -> bool): Coord -> bool {
    (b: Coord) => b.level == level && isEmpty(CellOf(b))
  }

  /** A wholly empty tile that was unknown: the directory entry alone says so. */
  lemma SeedWhole(p0: Pages, p1: Pages, isEmpty: Cell -> bool, level: nat, tile: Cell)
    requires SeededOn(p0, p1, EmptyAt(level, isEmpty), TilesBefore(level, tile))
    requires level < |p0.levels| && tile.Inside(DirDims(p0.levels[level].grid))
    requires forall c: Cell | InTileBox(p0.levels[level].grid, tile, c) :: isEmpty(c)
    requires var i := Index(DirDims(p0.levels[level].grid), tile);
             i < |p1.levels[level].dir| && p1.levels[level].dir[i] == UNKNOWN
    ensures SeededOn(p0, BlankTile(p1, level, Index(DirDims(p0.levels[level].grid), tile)), EmptyAt(level, isEmpty),
                     TilesThrough(level, tile))
  {
    var empty, grid := EmptyAt(level, isEmpty), p0.levels[level].grid;
    var i := Index(DirDims(grid), tile);
    var p2 := BlankTile(p1, level, i);
    BlankTileKeeps(p1, level, i);
    hide WellFormed, EntrySeeded, BlankTile, DirDims, Index;
    forall b | InGrid(p0, b) ensures EntrySeeded(p0, p2, empty, TilesThrough(level, tile), b) {
      assert EntrySeeded(p0, p1, empty, TilesBefore(level, tile), b);
      SeedWholeBrick(p0, p1, isEmpty, level, tile, b);
    }
  }

  lemma SeedWholeBrick(p0: Pages, p1: Pages, isEmpty: Cell -> bool, level: nat, tile: Cell, b: Coord)
    requires WellFormed(p0) && WellFormed(p1) && SameShape(p0, p1) && InGrid(p0, b)
    requires EntrySeeded(p0, p1, EmptyAt(level, isEmpty), TilesBefore(level, tile), b)
    requires level < |p0.levels| && tile.Inside(DirDims(p0.levels[level].grid))
    requires forall c: Cell | InTileBox(p0.levels[level].grid, tile, c) :: isEmpty(c)
    requires var i := Index(DirDims(p0.levels[level].grid), tile);
             i < |p1.levels[level].dir| && p1.levels[level].dir[i] == UNKNOWN
    ensures var p2 := BlankTile(p1, level, Index(DirDims(p0.levels[level].grid), tile));
            WellFormed(p2) && SameShape(p0, p2) && EntrySeeded(p0, p2, EmptyAt(level, isEmpty), TilesThrough(level, tile), b)
  {
    var grid := p0.levels[level].grid;
    var i := Index(DirDims(grid), tile);
    BlankTileKeeps(p1, level, i);
    assert !IsEmpty(0);
    hide WellFormed, ReadEntry, ReadOcc, BlankTile, DirDims, DirIndex, Index, IsEmpty;
    BlankTileReads(p1, level, i, b);
    OwnTile(p0.levels[b.level].grid, b, tile);
    if b.level == level && DirCell(b) == tile {
      assert InTileBox(grid, tile, CellOf(b));
    }
  }

  /** A brick's directory index is a tile's exactly when the brick is in the tile. */
  lemma OwnTile(grid: Dims, b: Coord, tile: Cell)
    requires CellOf(b).Inside(grid)
    ensures tile.Inside(DirDims(grid)) ==> (DirIndex(grid, b) == Index(DirDims(grid), tile) <==> DirCell(b) == tile)
  {
    DirInside(grid, b);
    if tile.Inside(DirDims(grid)) && DirIndex(grid, b) == Index(DirDims(grid), tile) {
      IndexInjective(DirDims(grid), DirCell(b), tile);
    }
  }

  // ---------- scanning a tile ----------

  function Low(tile: nat): nat {
    tile * TILE_DIM
  }

  function High(grid: nat, tile: nat): nat {
    Min(grid, (tile + 1) * TILE_DIM)
  }

  lemma BoxBounds(grid: Dims, tile: Cell)
    ensures forall c: Cell :: InTileBox(grid, tile, c) <==>
              && Low(tile.z) <= c.z < High(grid.z, tile.z) && Low(tile.y) <= c.y < High(grid.y, tile.y)
              && Low(tile.x) <= c.x < High(grid.x, tile.x)
  {
  }

  ghost predicate Scan(grid: Dims, tile: Cell, isEmpty: Cell -> bool, all: bool, any: bool, upto: Cell) {
    && (!all ==> exists c: Cell :: InTileBox(grid, tile, c) && !isEmpty(c))
    && (any ==> exists c: Cell :: InTileBox(grid, tile, c) && isEmpty(c))
    && (all ==> forall c: Cell | InTileBox(grid, tile, c) && Before(c, upto) :: isEmpty(c))
    && (!any ==> forall c: Cell | InTileBox(grid, tile, c) && Before(c, upto) :: !isEmpty(c))
  }

  /** No brick of the tile lies from `upto` on and before `next`. */
  ghost predicate Gap(grid: Dims, tile: Cell, upto: Cell, next: Cell) {
    forall c: Cell | InTileBox(grid, tile, c) && Before(c, next) :: Before(c, upto)
  }

  lemma RowGap(grid: Dims, tile: Cell, z: nat, y: nat, x: nat)
    requires x >= High(grid.x, tile.x)
    ensures Gap(grid, tile, Cell(z, y, x), Cell(z, y + 1, Low(tile.x)))
  {
    BoxBounds(grid, tile);
  }

  lemma SliceGap(grid: Dims, tile: Cell, z: nat, y: nat)
    requires y >= High(grid.y, tile.y)
    ensures Gap(grid, tile, Cell(z, y, Low(tile.x)), Cell(z + 1, Low(tile.y), Low(tile.x)))
  {
    BoxBounds(grid, tile);
  }

  /** Looks at a tile's bricks until it has met both an empty and a non-empty one. */
  method ScanTile(grid: Dims, tile: Cell, isEmpty: Cell -> bool) returns (all: bool, any: bool)
    ensures all <==> forall c: Cell | InTileBox(grid, tile, c) :: isEmpty(c)
    ensures any <==> exists c: Cell :: InTileBox(grid, tile, c) && isEmpty(c)
  {
    all, any := true, false;
    BoxBounds(grid, tile);
    var z := Low(tile.z);
    while z < High(grid.z, tile.z) && (all || !any)
      invariant z >= Low(tile.z)
      invariant Scan(grid, tile, isEmpty, all, any, Cell(z, Low(tile.y), Low(tile.x)))
    {
      var y := Low(tile.y);
      while y < High(grid.y, tile.y) && (all || !any)
        invariant y >= Low(tile.y)
        invariant Scan(grid, tile, isEmpty, all, any, Cell(z, y, Low(tile.x)))
      {
        all, any := ScanRow(grid, tile, isEmpty, z, y, all, any);
        y := y + 1;
      }
      if y >= High(grid.y, tile.y) {
        SliceGap(grid, tile, z, y);
      }
      z := z + 1;
    }
  }

  method ScanRow(grid: Dims, tile: Cell, isEmpty: Cell -> bool, z: nat, y: nat, all0: bool, any0: bool)
    returns (all: bool, any: bool)
    requires Low(tile.z) <= z < High(grid.z, tile.z) && Low(tile.y) <= y < High(grid.y, tile.y)
    requires Scan(grid, tile, isEmpty, all0, any0, Cell(z, y, Low(tile.x)))
    ensures Scan(grid, tile, isEmpty, all, any, Cell(z, y + 1, Low(tile.x)))
  {
    all, any := all0, any0;
    BoxBounds(grid, tile);
    var x := Low(tile.x);
    while x < High(grid.x, tile.x) && (all || !any)
      invariant x >= Low(tile.x)
      invariant Scan(grid, tile, isEmpty, all, any, Cell(z, y, x))
    {
      var c := Cell(z, y, x);
      assert InTileBox(grid, tile, c);
      assert forall d: Cell | InTileBox(grid, tile, d) && Before(d, Cell(z, y, x + 1)) :: Before(d, c) || d == c;
      if isEmpty(c) {
        any := true;
      } else {
        all := false;
      }
      x := x + 1;
    }
    if x >= High(grid.x, tile.x) {
      RowGap(grid, tile, z, y, x);
    }
  }

  // ---------- marking the bricks of a mixed tile ----------

  function MarkIf(p: Pages, level: nat, isEmpty: Cell -> bool, c: Cell): Pages
    requires WellFormed(p) && InGrid(p, CoordOf(level, c))
  {
    if isEmpty(c) then MarkEmpty(p, CoordOf(level, c)) else p
  }

  lemma MarkBrick(p0: Pages, p1: Pages, isEmpty: Cell -> bool, level: nat, tile: Cell, c: Cell)
    requires SeededOn(p0, p1, EmptyAt(level, isEmpty), BricksBefore(level, tile, c)) && Roomy(p0)
    requires level < |p0.levels| && InTileBox(p0.levels[level].grid, tile, c)
    ensures InGrid(p1, CoordOf(level, c))
    ensures SeededOn(p0, MarkIf(p1, level, isEmpty, c), EmptyAt(level, isEmpty), BricksBefore(level, tile, c.(x := c.x + 1)))
  {
    hide WellFormed, EntrySeeded, ReadEntry, WriteEntry;
    var empty, done, next := EmptyAt(level, isEmpty), BricksBefore(level, tile, c), BricksBefore(level, tile, c.(x := c.x + 1));
    if isEmpty(c) {
      MarkOne(p0, p1, empty, done, CoordOf(level, c));
      SeededSame(p0, MarkEmpty(p1, CoordOf(level, c)), empty, With(done, CoordOf(level, c)), next);
    } else {
      SeededSame(p0, p1, empty, done, next);
    }
  }

  lemma SeededGap(p0: Pages, p1: Pages, isEmpty: Cell -> bool, level: nat, tile: Cell, upto: Cell, next: Cell)
    requires level < |p0.levels| && Gap(p0.levels[level].grid, tile, upto, next)
    requires forall c: Cell | Before(c, upto) :: Before(c, next)
    requires SeededOn(p0, p1, EmptyAt(level, isEmpty), BricksBefore(level, tile, upto))
    ensures SeededOn(p0, p1, EmptyAt(level, isEmpty), BricksBefore(level, tile, next))
  {
    hide WellFormed, EntrySeeded;
    forall b | InGrid(p0, b) ensures BricksBefore(level, tile, upto)(b) <==> BricksBefore(level, tile, next)(b) {
      if b.level == level && DirCell(b) == tile {
        assert InTileBox(p0.levels[level].grid, tile, CellOf(b));
      }
    }
    SeededSame(p0, p1, EmptyAt(level, isEmpty), BricksBefore(level, tile, upto), BricksBefore(level, tile, next));
  }

  lemma TileStart(p0: Pages, p1: Pages, isEmpty: Cell -> bool, level: nat, tile: Cell)
    requires level < |p0.levels|
    requires SeededOn(p0, p1, EmptyAt(level, isEmpty), TilesBefore(level, tile))
    ensures SeededOn(p0, p1, EmptyAt(level, isEmpty),
                     BricksBefore(level, tile, Cell(Low(tile.z), Low(tile.y), Low(tile.x))))
  {
    hide WellFormed, EntrySeeded;
    BoxBounds(p0.levels[level].grid, tile);
    var low := Cell(Low(tile.z), Low(tile.y), Low(tile.x));
    forall b | InGrid(p0, b) ensures TilesBefore(level, tile)(b) <==> BricksBefore(level, tile, low)(b) {
      if b.level == level && DirCell(b) == tile {
        assert InTileBox(p0.levels[level].grid, tile, CellOf(b));
      }
    }
    SeededSame(p0, p1, EmptyAt(level, isEmpty), TilesBefore(level, tile), BricksBefore(level, tile, low));
  }

  lemma TileEnd(p0: Pages, p1: Pages, isEmpty: Cell -> bool, level: nat, tile: Cell, upto: Cell)
    requires level < |p0.levels| && upto.z >= High(p0.levels[level].grid.z, tile.z)
    requires SeededOn(p0, p1, EmptyAt(level, isEmpty), BricksBefore(level, tile, upto))
    ensures SeededOn(p0, p1, EmptyAt(level, isEmpty), TilesThrough(level, tile))
  {
    hide WellFormed, EntrySeeded;
    BoxBounds(p0.levels[level].grid, tile);
    forall b | InGrid(p0, b) ensures BricksBefore(level, tile, upto)(b) <==> TilesThrough(level, tile)(b) {
      if b.level == level && DirCell(b) == tile {
        assert InTileBox(p0.levels[level].grid, tile, CellOf(b));
      }
    }
    SeededSame(p0, p1, EmptyAt(level, isEmpty), BricksBefore(level, tile, upto), TilesThrough(level, tile));
  }

  /** A tile without an empty brick needs nothing. */
  lemma TileNone(p0: Pages, p1: Pages, isEmpty: Cell -> bool, level: nat, tile: Cell)
    requires level < |p0.levels|
    requires SeededOn(p0, p1, EmptyAt(level, isEmpty), TilesBefore(level, tile))
    requires forall c: Cell | InTileBox(p0.levels[level].grid, tile, c) :: !isEmpty(c)
    ensures SeededOn(p0, p1, EmptyAt(level, isEmpty), TilesThrough(level, tile))
  {
    hide WellFormed, EntrySeeded;
    forall b | InGrid(p0, b) && EmptyAt(level, isEmpty)(b)
      ensures TilesBefore(level, tile)(b) <==> TilesThrough(level, tile)(b)
    {
      if DirCell(b) == tile {
        assert InTileBox(p0.levels[level].grid, tile, CellOf(b));
      }
    }
    SeededSame(p0, p1, EmptyAt(level, isEmpty), TilesBefore(level, tile), TilesThrough(level, tile));
  }

  /** No tile of the level lies from `tile` on and before `next` but `tile` itself, if it exists at all. */
  lemma NextTile(p0: Pages, p1: Pages, isEmpty: Cell -> bool, level: nat, tile: Cell, next: Cell)
    requires level < |p0.levels|
    requires tile.Inside(DirDims(p0.levels[level].grid)) ==>
               SeededOn(p0, p1, EmptyAt(level, isEmpty), TilesThrough(level, tile))
    requires !tile.Inside(DirDims(p0.levels[level].grid)) ==>
               SeededOn(p0, p1, EmptyAt(level, isEmpty), TilesBefore(level, tile))
    requires forall t: Cell | t.Inside(DirDims(p0.levels[level].grid)) ::
               Before(t, next) <==> Before(t, tile) || t == tile
    ensures SeededOn(p0, p1, EmptyAt(level, isEmpty), TilesBefore(level, next))
  {
    hide WellFormed, EntrySeeded, DirDims;
    var done := if tile.Inside(DirDims(p0.levels[level].grid)) then TilesThrough(level, tile) else TilesBefore(level, tile);
    forall b | InGrid(p0, b) ensures done(b) <==> TilesBefore(level, next)(b) {
      DirInside(p0.levels[b.level].grid, b);
    }
    SeededSame(p0, p1, EmptyAt(level, isEmpty), done, TilesBefore(level, next));
  }

  // ---------- which directory entries get a tile ----------

  /** Only directory entry i of the level changes, and only an unknown one, to get a tile once a brick is marked. */
  ghost predicate DirTrail(p: Pages, p': Pages, level: nat, i: nat, marked: bool) {
    && SameShape(p, p') && level < |p.levels| && i < |p.levels[level].dir|
    && (forall l, j :: 0 <= l < |p.levels| && 0 <= j < |p.levels[l].dir| && (l != level || j != i) ==>
          p'.levels[l].dir[j] == p.levels[l].dir[j])
    && (if p.levels[level].dir[i] != UNKNOWN then p'.levels[level].dir[i] == p.levels[level].dir[i]
        else if marked then p'.levels[level].dir[i] >= 2 else p'.levels[level].dir[i] == UNKNOWN)
  }

  lemma MarkTrail(p: Pages, p': Pages, level: nat, i: nat, marked: bool, c: Coord)
    requires DirTrail(p, p', level, i, marked) && WellFormed(p') && InGrid(p', c) && Roomy(p')
    requires c.level == level && DirIndex(p'.levels[level].grid, c) == i
    requires Dir(p', c) == UNKNOWN ==> !IsEmpty(ReadEntry(p', c))
    ensures DirTrail(p, MarkEmpty(p', c), level, i, true)
  {
    RoomyNeverFails(p', c);
    hide DirDims, AllOwners, AllEntries, InTile;
    var p2 := MarkEmpty(p', c);
    DirInside(p'.levels[level].grid, c);
    WriteEntryShape(p', c, EMPTY, NO_OCC);
    forall l, j | 0 <= l < |p.levels| && 0 <= j < |p.levels[l].dir| && (l != level || j != i)
      ensures p2.levels[l].dir[j] == p.levels[l].dir[j]
    {
      WriteEntryDir(p', c, EMPTY, NO_OCC, l, j);
    }
    WrittenHasTile(p', c);
    assert IsEmpty(EMPTY);
  }

  lemma WrittenHasTile(p: Pages, c: Coord)
    requires WellFormed(p) && InGrid(p, c) && Writable(p, c)
    ensures var p' := WriteEntry(p, c, EMPTY, NO_OCC);
            WellFormed(p') && SameShape(p, p') && InGrid(p', c) && Dir(p', c) >= 2
    ensures Dir(p, c) >= 2 ==> Dir(WriteEntry(p, c, EMPTY, NO_OCC), c) == Dir(p, c)
  {
    hide DirDims, AllOwners, InTile;
    WriteEntryShape(p, c, EMPTY, NO_OCC);
    MaterialisedOk(p, c);
    DirInside(p.levels[c.level].grid, c);
  }

  /** What becomes of a directory entry when its tile is seeded: an unknown tile that is wholly empty takes
      no tile slot, one without empties stays unknown, a mixed one gets a tile; a known one keeps its entry. */
  ghost predicate DirSeeded(grid: Dims, isEmpty: Cell -> bool, tile: Cell, was: nat, now: nat) {
    if was != UNKNOWN then now == was
    else if forall c: Cell | InTileBox(grid, tile, c) :: isEmpty(c) then now == ALL_EMPTY
    else if exists c: Cell :: InTileBox(grid, tile, c) && isEmpty(c) then now >= 2
    else now == UNKNOWN
  }

  /** Directory entries after the tiles before `upto` of a level were seeded; the rest is as it was. */
  ghost predicate DirsSeeded(p0: Pages, p1: Pages, level: nat, isEmpty: Cell -> bool, upto: Cell) {
    && SameShape(p0, p1) && level < |p0.levels| && |p0.levels[level].dir| == DirDims(p0.levels[level].grid).Count()
    && (forall l: nat, j: nat | l < |p0.levels| && l != level && j < |p0.levels[l].dir| ::
          p1.levels[l].dir[j] == p0.levels[l].dir[j])
    && (forall t: Cell | t.Inside(DirDims(p0.levels[level].grid)) :: DirSeededAt(p0, p1, level, isEmpty, upto, t))
  }

  ghost predicate DirSeededAt(p0: Pages, p1: Pages, level: nat, isEmpty: Cell -> bool, upto: Cell, t: Cell)
    requires SameShape(p0, p1) && level < |p0.levels| && |p0.levels[level].dir| == DirDims(p0.levels[level].grid).Count()
    requires t.Inside(DirDims(p0.levels[level].grid))
  {
    AtIndex(DirDims(p0.levels[level].grid), t);
    var i := Index(DirDims(p0.levels[level].grid), t);
    if Before(t, upto) then DirSeeded(p0.levels[level].grid, isEmpty, t, p0.levels[level].dir[i], p1.levels[level].dir[i])
    else p1.levels[level].dir[i] == p0.levels[level].dir[i]
  }

  /** One more tile: every other entry is as before. */
  lemma DirsNext(p0: Pages, p1: Pages, p2: Pages, level: nat, isEmpty: Cell -> bool, tile: Cell, next: Cell)
    requires DirsSeeded(p0, p1, level, isEmpty, tile) && SameShape(p1, p2)
    requires forall t: Cell | t.Inside(DirDims(p0.levels[level].grid)) ::
               Before(t, next) <==> Before(t, tile) || t == tile
    requires forall l: nat, j: nat | l < |p0.levels| && j < |p0.levels[l].dir| ::
               p2.levels[l].dir[j] == p1.levels[l].dir[j]
               || (l == level && tile.Inside(DirDims(p0.levels[level].grid)) && j == Index(DirDims(p0.levels[level].grid), tile))
    requires tile.Inside(DirDims(p0.levels[level].grid)) ==>
               var i := Index(DirDims(p0.levels[level].grid), tile);
               i < |p1.levels[level].dir|
               && DirSeeded(p0.levels[level].grid, isEmpty, tile, p1.levels[level].dir[i], p2.levels[level].dir[i])
    ensures DirsSeeded(p0, p2, level, isEmpty, next)
  {
    var d := DirDims(p0.levels[level].grid);
    hide DirDims, DirSeeded;
    forall t: Cell | t.Inside(d) ensures DirSeededAt(p0, p2, level, isEmpty, next, t) {
      AtIndex(d, t);
      assert DirSeededAt(p0, p1, level, isEmpty, tile, t);
      if t != tile && tile.Inside(d) && Index(d, t) == Index(d, tile) {
        IndexInjective(d, t, tile);
      }
    }
  }

  // ---------- the loops over a mixed tile ----------

  /** An empty brick of the tile was met before `upto`. */
  ghost predicate Met(grid: Dims, tile: Cell, isEmpty: Cell -> bool, upto: Cell) {
    exists c: Cell :: InTileBox(grid, tile, c) && Before(c, upto) && isEmpty(c)
  }

  /** Tables p, when the tile's bricks before `upto` have been dealt with; pt is how the tile was found. */
  ghost predicate Marking(p0: Pages, pt: Pages, p: Pages, level: nat, tile: Cell, isEmpty: Cell -> bool, upto: Cell) {
    && level < |p0.levels| && SameShape(p0, pt) && tile.Inside(DirDims(p0.levels[level].grid))
    && SeededOn(p0, p, EmptyAt(level, isEmpty), BricksBefore(level, tile, upto))
    && DirTrail(pt, p, level, Index(DirDims(p0.levels[level].grid), tile), Met(p0.levels[level].grid, tile, isEmpty, upto))
  }

  lemma MetStep(grid: Dims, tile: Cell, isEmpty: Cell -> bool, c: Cell)
    requires InTileBox(grid, tile, c)
    ensures Met(grid, tile, isEmpty, c.(x := c.x + 1)) <==> Met(grid, tile, isEmpty, c) || isEmpty(c)
  {
    assert forall b: Cell :: Before(b, c.(x := c.x + 1)) <==> Before(b, c) || b == c;
  }

  lemma MarkStep(p0: Pages, pt: Pages, p: Pages, level: nat, tile: Cell, isEmpty: Cell -> bool, c: Cell)
    requires Marking(p0, pt, p, level, tile, isEmpty, c) && Roomy(p0) && InTileBox(p0.levels[level].grid, tile, c)
    ensures WellFormed(p) && InGrid(p, CoordOf(level, c))
    ensures Marking(p0, pt, MarkIf(p, level, isEmpty, c), level, tile, isEmpty, c.(x := c.x + 1))
  {
    hide SeededOn, DirTrail, Met, DirDims, MarkEmpty, WellFormed, Index, DirIndex, ReadEntry, BricksBefore, EmptyAt;
    MarkBrick(p0, p, isEmpty, level, tile, c);
    MetStep(p0.levels[level].grid, tile, isEmpty, c);
    SeededShapes(p0, p, isEmpty, level, tile, c);
    if isEmpty(c) {
      EntriesKept(p0.levels, p.levels);
      OwnTile(p0.levels[level].grid, CoordOf(level, c), tile);
      UnknownReads(p, CoordOf(level, c));
      MarkTrail(pt, p, level, Index(DirDims(p0.levels[level].grid), tile), Met(p0.levels[level].grid, tile, isEmpty, c),
                CoordOf(level, c));
    }
  }

  lemma SeededShapes(p0: Pages, p: Pages, isEmpty: Cell -> bool, level: nat, tile: Cell, c: Cell)
    requires SeededOn(p0, p, EmptyAt(level, isEmpty), BricksBefore(level, tile, c))
    ensures WellFormed(p) && SameShape(p0, p)
  {
  }

  lemma UnknownReads(p: Pages, c: Coord)
    requires WellFormed(p) && InGrid(p, c)
    ensures Dir(p, c) == UNKNOWN ==> !IsEmpty(ReadEntry(p, c))
  {
  }

  lemma MarkGap(p0: Pages, pt: Pages, p: Pages, level: nat, tile: Cell, isEmpty: Cell -> bool, upto: Cell, next: Cell)
    requires Marking(p0, pt, p, level, tile, isEmpty, upto) && Gap(p0.levels[level].grid, tile, upto, next)
    requires forall c: Cell | Before(c, upto) :: Before(c, next)
    ensures Marking(p0, pt, p, level, tile, isEmpty, next)
  {
    hide SeededOn, DirTrail, DirDims, Index;
    SeededGap(p0, p, isEmpty, level, tile, upto, next);
    var grid := p0.levels[level].grid;
    assert Met(grid, tile, isEmpty, upto) == Met(grid, tile, isEmpty, next);
  }

  lemma MarkStart(p0: Pages, pt: Pages, isEmpty: Cell -> bool, level: nat, tile: Cell)
    requires level < |p0.levels| && tile.Inside(DirDims(p0.levels[level].grid))
    requires SeededOn(p0, pt, EmptyAt(level, isEmpty), TilesBefore(level, tile))
    ensures Marking(p0, pt, pt, level, tile, isEmpty, Cell(Low(tile.z), Low(tile.y), Low(tile.x)))
  {
    TileStart(p0, pt, isEmpty, level, tile);
    BoxBounds(p0.levels[level].grid, tile);
    AtIndex(DirDims(p0.levels[level].grid), tile);
  }

  lemma MarkEnd(p0: Pages, pt: Pages, p: Pages, isEmpty: Cell -> bool, level: nat, tile: Cell, upto: Cell)
    requires Marking(p0, pt, p, level, tile, isEmpty, upto) && upto.z >= High(p0.levels[level].grid.z, tile.z)
    requires exists c: Cell :: InTileBox(p0.levels[level].grid, tile, c) && isEmpty(c)
    requires pt.levels[level].dir[Index(DirDims(p0.levels[level].grid), tile)] != UNKNOWN
             || exists c: Cell :: InTileBox(p0.levels[level].grid, tile, c) && !isEmpty(c)
    ensures SeededOn(p0, p, EmptyAt(level, isEmpty), TilesThrough(level, tile))
    ensures TileDone(p0, pt, p, level, tile, isEmpty)
  {
    TileEnd(p0, p, isEmpty, level, tile, upto);
    BoxBounds(p0.levels[level].grid, tile);
    var c: Cell :| InTileBox(p0.levels[level].grid, tile, c) && isEmpty(c);
    assert Before(c, upto);
    hide DirDims, SeededOn;
  }

  /** From pt to p exactly this tile's directory entry was seeded. */
  ghost predicate TileDone(p0: Pages, pt: Pages, p: Pages, level: nat, tile: Cell, isEmpty: Cell -> bool) {
    && level < |p0.levels| && SameShape(p0, pt) && SameShape(pt, p)
    && (var i := Index(DirDims(p0.levels[level].grid), tile);
        && i < |pt.levels[level].dir|
        && (forall l: nat, j: nat | l < |p0.levels| && j < |p0.levels[l].dir| ::
              p.levels[l].dir[j] == pt.levels[l].dir[j] || (l == level && j == i))
        && DirSeeded(p0.levels[level].grid, isEmpty, tile, pt.levels[level].dir[i], p.levels[level].dir[i]))
  }
}
