/** The page tables as the shader sees them: textures kept up to date tile by tile through dirty marks. */
module PageTextures {
  import opened Grid
  import opened BrickKeys
  import opened PageTable
  import opened PageSeeding

  /** One directory texture per level, in row-major order, and the two tile pools as maps from texels. */
  datatype Textures = Textures(dirs: seq<seq<nat>>, tile: Cell -> nat, occ: Cell -> Occ)

  /** The texel of cell c of tile t's block. */
  function TexelOf(pool: Dims, t: nat, c: Cell): Cell
    requires t < pool.Count()
  {
    PositiveFactors(pool);
    var b := At(pool, t);
    Cell(b.z * TILE_DIM + c.z, b.y * TILE_DIM + c.y, b.x * TILE_DIM + c.x)
  }

  predicate InBlock(pool: Dims, t: nat, p: Cell)
    requires t < pool.Count()
  {
    var o := TexelOf(pool, t, Cell(0, 0, 0));
    o.z <= p.z < o.z + TILE_DIM && o.y <= p.y < o.y + TILE_DIM && o.x <= p.x < o.x + TILE_DIM
  }

  function Local(pool: Dims, t: nat, p: Cell): Cell
    requires t < pool.Count() && InBlock(pool, t, p)
  {
    var o := TexelOf(pool, t, Cell(0, 0, 0));
    Cell(p.z - o.z, p.y - o.y, p.x - o.x)
  }

  /** A 16^3 sub-image upload of tile t from the mirror. */
  function Blit<T>(pool: Dims, tex: Cell -> T, plane: seq<T>, t: nat): Cell -> T
    requires t < pool.Count() && |plane| == pool.Count() * TILE_ENTRIES
  {
    (p: Cell) =>
      if InBlock(pool, t, p) && Local(pool, t, p).Inside(BLOCK) && t * TILE_ENTRIES + Index(BLOCK, Local(pool, t, p)) < |plane|
      then plane[t * TILE_ENTRIES + Index(BLOCK, Local(pool, t, p))]
      else tex(p)
  }

  /** Creation uploads the whole mirror in plain row-major order, not tile by tile. */
  function Linear<T>(pool: Dims, plane: seq<T>, border: T): Cell -> T {
    (p: Cell) =>
      var i := Index(Dims(pool.z * TILE_DIM, pool.y * TILE_DIM, pool.x * TILE_DIM), p);
      if i < |plane| then plane[i] else border
  }

  /** Tile t's block of the texture shows tile t of the mirror. */
  ghost predicate Synced<T>(pool: Dims, tex: Cell -> T, plane: seq<T>, t: nat)
    requires t < pool.Count() && |plane| == pool.Count() * TILE_ENTRIES
  {
    forall c: Cell | c.Inside(BLOCK) :: SyncedAt(pool, tex, plane, t, c)
  }

  ghost predicate SyncedAt<T>(pool: Dims, tex: Cell -> T, plane: seq<T>, t: nat, c: Cell)
    requires t < pool.Count() && |plane| == pool.Count() * TILE_ENTRIES && c.Inside(BLOCK)
  {
    AtIndex(BLOCK, c);
    tex(TexelOf(pool, t, c)) == plane[t * TILE_ENTRIES + Index(BLOCK, c)]
  }

  /** Blocks of different tiles have no texel in common. */
  lemma BlocksDisjoint(pool: Dims, t: nat, u: nat, c: Cell)
    requires t < pool.Count() && u < pool.Count() && c.Inside(BLOCK)
    ensures InBlock(pool, u, TexelOf(pool, t, c)) <==> t == u
    ensures InBlock(pool, t, TexelOf(pool, t, c)) && Local(pool, t, TexelOf(pool, t, c)) == c
  {
    IndexAt(pool, t);
    IndexAt(pool, u);
    var a, b := At(pool, t), At(pool, u);
    hide At, Index;
    if InBlock(pool, u, TexelOf(pool, t, c)) {
      assert a == b;
    }
  }

  lemma BlitSyncs<T>(pool: Dims, tex: Cell -> T, plane: seq<T>, t: nat, u: nat)
    requires t < pool.Count() && u < pool.Count() && |plane| == pool.Count() * TILE_ENTRIES
    ensures t == u || Synced(pool, tex, plane, u) ==> Synced(pool, Blit(pool, tex, plane, t), plane, u)
  {
    hide TexelOf, InBlock, Local;
    if t == u || Synced(pool, tex, plane, u) {
      forall c: Cell | c.Inside(BLOCK) ensures SyncedAt(pool, Blit(pool, tex, plane, t), plane, u, c) {
        BlocksDisjoint(pool, u, t, c);
        BlocksDisjoint(pool, u, u, c);
        AtIndex(BLOCK, c);
        assert t != u ==> SyncedAt(pool, tex, plane, u, c);
      }
    }
  }

  /** The same tile of two mirrors. */
  ghost predicate SameTile<T>(a: seq<T>, b: seq<T>, t: nat) {
    |a| == |b| && forall i | t * TILE_ENTRIES <= i < (t + 1) * TILE_ENTRIES && i < |a| :: a[i] == b[i]
  }

  lemma SyncedKept<T>(pool: Dims, tex: Cell -> T, a: seq<T>, b: seq<T>, t: nat)
    requires t < pool.Count() && |a| == pool.Count() * TILE_ENTRIES && SameTile(a, b, t)
    requires Synced(pool, tex, a, t)
    ensures Synced(pool, tex, b, t)
  {
    hide TexelOf;
    forall c: Cell | c.Inside(BLOCK) ensures SyncedAt(pool, tex, b, t, c) {
      assert SyncedAt(pool, tex, a, t, c);
      AtIndex(BLOCK, c);
    }
  }

  // ---------- coherence ----------

  ghost predicate DirCoherent(p: Pages, tx: Textures, l: nat) {
    l < |p.levels| && l < |tx.dirs| && (!p.levels[l].dirDirty ==> tx.dirs[l] == p.levels[l].dir)
  }

  ghost predicate TileCoherent(pool: Dims, p: Pages, tx: Textures, t: nat)
    requires SizesOk(p) && t < p.capacity == pool.Count()
  {
    !p.dirty[t] ==> Synced(pool, tx.tile, p.tiles, t) && Synced(pool, tx.occ, p.occs, t)
  }

  /** Before the textures exist every tile in use is dirty; afterwards every clean part is up to date. */
  ghost predicate Coherent(pool: Dims, p: Pages, created: bool, tx: Textures) {
    && SizesOk(p) && p.used <= p.capacity == pool.Count()
    && (!created ==> forall t: nat | t < p.used :: p.dirty[t])
    && (created ==>
          && |tx.dirs| == |p.levels|
          && (forall l: nat | l < |p.levels| :: DirCoherent(p, tx, l))
          && (forall t: nat | t < p.used :: TileCoherent(pool, p, tx, t)))
  }

  /** Every change to a directory or a tile leaves its dirty mark. */
  ghost predicate Marked(p: Pages, p': Pages) {
    && SizesOk(p) && SizesOk(p') && p'.capacity == p.capacity && p.used <= p'.used <= p'.capacity
    && |p'.levels| == |p.levels|
    && (forall l :: 0 <= l < |p.levels| ==> p'.levels[l].dirDirty || p'.levels[l] == p.levels[l])
    && (forall t: nat | t < p'.used :: TileMarked(p, p', t))
  }

  ghost predicate TileMarked(p: Pages, p': Pages, t: nat)
    requires SizesOk(p) && SizesOk(p') && t < p'.used <= p'.capacity && p'.capacity == p.capacity
  {
    p'.dirty[t] || (t < p.used && !p.dirty[t] && SameTile(p.tiles, p'.tiles, t) && SameTile(p.occs, p'.occs, t))
  }

  lemma CoherentKept(pool: Dims, p: Pages, p': Pages, created: bool, tx: Textures)
    requires Coherent(pool, p, created, tx) && Marked(p, p')
    ensures Coherent(pool, p', created, tx)
  {
    hide Synced, SameTile, DirDims;
    if created {
      forall l: nat | l < |p'.levels| ensures DirCoherent(p', tx, l) {
        assert DirCoherent(p, tx, l);
      }
      forall t: nat | t < p'.used ensures TileCoherent(pool, p', tx, t) {
        assert TileMarked(p, p', t);
        if !p'.dirty[t] {
          assert TileCoherent(pool, p, tx, t);
          SyncedKept(pool, tx.tile, p.tiles, p'.tiles, t);
          SyncedKept(pool, tx.occ, p.occs, p'.occs, t);
        }
      }
    } else {
      forall t: nat | t < p'.used ensures p'.dirty[t] {
        assert TileMarked(p, p', t);
      }
    }
  }

  lemma BlankTileMarked(p: Pages, l: nat, i: nat)
    requires WellFormed(p) && l < |p.levels| && i < |p.levels[l].dir| && p.levels[l].dir[i] == UNKNOWN
    ensures Marked(p, BlankTile(p, l, i))
  {
    BlankTileKeeps(p, l, i);
    hide TilesOk, DirDims;
    assert TilesOk(p);
    UsedFits(p);
  }

  lemma UsedFits(p: Pages)
    requires WellFormed(p)
    ensures p.used <= p.capacity
  {
  }

  lemma PokeSame<T>(plane: seq<T>, t: nat, i: nat, v: T, u: nat)
    requires i < TILE_ENTRIES && t * TILE_ENTRIES + i < |plane| && u != t
    ensures SameTile(plane, plane[t * TILE_ENTRIES + i := v], u)
  {
  }

  lemma FillSame<T>(plane: seq<T>, t: nat, v: T, u: nat)
    requires (t + 1) * TILE_ENTRIES <= |plane| && u != t
    ensures SameTile(plane, Filled(plane, t, v), u)
  {
  }

  lemma PokeMarked(p: Pages, t: nat, i: nat, value: nat, occ: Occ)
    requires SizesOk(p) && p.used <= p.capacity && t < p.capacity && i < TILE_ENTRIES
    ensures Marked(p, Poke(p, t, i, value, occ))
  {
    hide SameTile, DirDims;
    var p' := Poke(p, t, i, value, occ);
    forall u: nat | u < p'.used ensures TileMarked(p, p', u) {
      if u != t {
        PokeSame<nat>(p.tiles, t, i, value, u);
        PokeSame(p.occs, t, i, occ, u);
        SameSelf(p, u);
      }
    }
  }

  lemma SameSelf(p: Pages, u: nat)
    ensures SameTile(p.tiles, p.tiles, u) && SameTile(p.occs, p.occs, u)
  {
  }

  lemma AllocateMarked(p: Pages, l: nat, i: nat)
    requires WellFormed(p) && l < |p.levels| && i < |p.levels[l].dir| && p.levels[l].dir[i] < 2
    ensures Marked(p, AllocateTile(p, l, i))
  {
    AllocateKeeps(p, l, i);
    hide TilesOk, DirDims, SameTile, Filled;
    UsedFits(p);
    var p' := AllocateTile(p, l, i);
    if p.used < p.capacity {
      var fill: nat := if p.levels[l].dir[i] == ALL_EMPTY then EMPTY else 0;
      forall u: nat | u < p'.used ensures TileMarked(p, p', u) {
        if u != p.used {
          FillSame<nat>(p.tiles, p.used, fill, u);
          FillSame(p.occs, p.used, NO_OCC, u);
        }
      }
    } else {
      MarkedSelf(p);
    }
  }

  lemma MarkedSelf(p: Pages)
    requires SizesOk(p) && p.used <= p.capacity
    ensures Marked(p, p)
  {
    forall u: nat | u < p.used ensures TileMarked(p, p, u) {
      SameSelf(p, u);
    }
  }

  lemma MarkedTrans(p: Pages, q: Pages, r: Pages)
    requires Marked(p, q) && Marked(q, r)
    ensures Marked(p, r)
  {
    hide DirDims;
    forall u: nat | u < r.used ensures TileMarked(p, r, u) {
      assert TileMarked(q, r, u);
      if !r.dirty[u] {
        assert TileMarked(p, q, u);
      }
    }
  }

  lemma MaterialisedMarked(p: Pages, c: Coord)
    requires WellFormed(p) && InGrid(p, c)
    ensures Marked(p, Materialised(p, c))
  {
    hide TilesOk, DirDims, DirIndex, Marked;
    DirInside(p.levels[c.level].grid, c);
    UsedFits(p);
    if Dir(p, c) < 2 {
      AllocateMarked(p, c.level, DirIndex(p.levels[c.level].grid, c));
    } else {
      MarkedSelf(p);
    }
  }

  lemma WriteEntryMarked(p: Pages, c: Coord, value: nat, occ: Occ)
    requires WellFormed(p) && InGrid(p, c)
    ensures Marked(p, WriteEntry(p, c, value, occ))
  {
    hide TilesOk, SizesOk, Marked, Poke, Materialised, Dir, InTile, InGrid, Writable;
    UsedFits(p);
    assert SizesOk(p);
    if Writable(p, c) {
      var q := Materialised(p, c);
      MaterialisedMarked(p, c);
      MaterialisedOk(p, c);
      UsedFits(q);
      PokeMarked(q, Dir(q, c) - 2, InTile(c), value, occ);
      MarkedTrans(p, q, WriteEntry(p, c, value, occ));
    } else {
      MarkedSelf(p);
    }
  }

  // ---------- the shader's lookup ----------

  /** tileTexel: a brick's texel in tile t. */
  function TileTexel(pool: Dims, t: nat, c: Coord): Cell
    requires t < pool.Count()
  {
    TexelOf(pool, t, BlockCell(c))
  }

  /** A tile's blocks fill the pool texture along x first, then y, then z, and so do the bricks in a block. */
  lemma TexelIs(pool: Dims, t: nat, c: Coord)
    requires t < pool.Count()
    ensures pool.y > 0 && pool.x > 0 && pool.x * pool.y > 0
    ensures var p := TileTexel(pool, t, c);
            && p.x == t % pool.x * 16 + c.x % 16
            && p.y == t / pool.x % pool.y * 16 + c.y % 16
            && p.z == t / (pool.x * pool.y) * 16 + c.z % 16
            && p.x < pool.x * 16 && p.y < pool.y * 16 && p.z < pool.z * 16
  {
    PositiveFactors(pool);
    MulPositive(pool.x, pool.y);
    IndexAt(pool, t);
    hide Index, Dims.Count;
  }

  /** fetchPageEntry: directory first, then the tile pool. */
  function FetchPageEntry(pool: Dims, grid: Dims, tx: Textures, c: Coord): nat
    requires c.level < |tx.dirs| && DirIndex(grid, c) < |tx.dirs[c.level]|
  {
    var d := tx.dirs[c.level][DirIndex(grid, c)];
    if d < 2 then if d == 1 then EMPTY else 0
    else if d - 2 < pool.Count() then tx.tile(TileTexel(pool, d - 2, c))
    else 0
  }

  /** Nothing is waiting for an upload. */
  ghost predicate Clean(p: Pages) {
    && (forall l :: 0 <= l < |p.levels| ==> !p.levels[l].dirDirty)
    && |p.dirty| == p.capacity && p.used <= p.capacity && (forall t: nat | t < p.used :: !p.dirty[t])
  }

  lemma SyncedBrick<T>(pool: Dims, tex: Cell -> T, plane: seq<T>, t: nat, c: Coord)
    requires t < pool.Count() && |plane| == pool.Count() * TILE_ENTRIES && Synced(pool, tex, plane, t)
    ensures t * TILE_ENTRIES + InTile(c) < |plane|
    ensures tex(TileTexel(pool, t, c)) == plane[t * TILE_ENTRIES + InTile(c)]
  {
    hide Dims.Count, TexelOf;
    assert BlockCell(c).Inside(BLOCK);
    assert SyncedAt(pool, tex, plane, t, BlockCell(c));
  }

  /** The shader reads of brick c what the tables say: its page entry and, in a materialised tile, its occupancy. */
  ghost predicate ShaderReads(pool: Dims, p: Pages, tx: Textures, c: Coord)
    requires WellFormed(p) && InGrid(p, c)
  {
    hide DirDims;
    var grid := p.levels[c.level].grid;
    && c.level < |tx.dirs| && DirIndex(grid, c) < |tx.dirs[c.level]| && tx.dirs[c.level][DirIndex(grid, c)] == Dir(p, c)
    && FetchPageEntry(pool, grid, tx, c) == ReadEntry(p, c)
    && (Dir(p, c) >= 2 ==> Dir(p, c) - 2 < pool.Count() && tx.occ(TileTexel(pool, Dir(p, c) - 2, c)) == ReadOcc(p, c))
  }

  /** With nothing dirty the shader and the tables agree on every brick of every level. */
  lemma ShaderAgrees(pool: Dims, p: Pages, tx: Textures, c: Coord)
    requires WellFormed(p) && Coherent(pool, p, true, tx) && Clean(p) && InGrid(p, c)
    ensures ShaderReads(pool, p, tx, c)
  {
    hide DirDims, AllOwners, DirIndex, TileTexel, Synced, Dims.Count;
    var grid := p.levels[c.level].grid;
    DirInside(grid, c);
    assert DirCoherent(p, tx, c.level);
    if Dir(p, c) >= 2 {
      var t := Dir(p, c) - 2;
      assert Owner(p, c.level, DirIndex(grid, c));
      assert TileCoherent(pool, p, tx, t);
      SyncedBrick(pool, tx.tile, p.tiles, t, c);
      SyncedBrick(pool, tx.occ, p.occs, t, c);
    }
  }

  // ---------- bringing the textures up to date ----------

  /** The tables with every mark cleared. */
  function Cleaned(p: Pages): Pages
    requires |p.dirty| == p.capacity && p.used <= p.capacity
  {
    p.(levels := seq(|p.levels|, i requires 0 <= i < |p.levels| => p.levels[i].(dirDirty := false)),
       dirty := seq(p.used, _ => false) + p.dirty[p.used..])
  }

  lemma {:induction false} CleanedOwners(p: seq<Level>, q: seq<Level>)
    requires |p| == |q| && forall i :: 0 <= i < |p| ==> q[i].dir == p[i].dir
    ensures AllOwners(p) == AllOwners(q)
  {
    if p != [] {
      CleanedOwners(p[..|p| - 1], q[..|q| - 1]);
    }
  }

  /** Clearing marks changes no entry. */
  lemma CleanedReads(p: Pages)
    requires WellFormed(p)
    ensures WellFormed(Cleaned(p)) && SameShape(p, Cleaned(p)) && Clean(Cleaned(p))
    ensures forall c | InGrid(p, c) :: ReadEntry(Cleaned(p), c) == ReadEntry(p, c) && ReadOcc(Cleaned(p), c) == ReadOcc(p, c)
  {
    var q := Cleaned(p);
    CleanedOwners(p.levels, q.levels);
    assert forall l, i :: Owner(q, l, i) <==> Owner(p, l, i);
    hide DirDims, DirIndex, InTile;
    assert WellFormed(q);
    forall c | InGrid(p, c) ensures ReadEntry(q, c) == ReadEntry(p, c) && ReadOcc(q, c) == ReadOcc(p, c) {
      DirInside(p.levels[c.level].grid, c);
      assert Dir(q, c) == Dir(p, c);
    }
  }
}
