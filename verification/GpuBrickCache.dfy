/** The GPU brick cache object: page tables, slots and textures, updated in place. */
module GpuBrickCaches {
  import opened Grid
  import opened BrickKeys
  import opened Options
  import opened PageTable
  import opened PageSeeding
  import opened SeedSteps
  import opened SlotPool
  import PoolStories
  import opened PageTextures

  class GpuBrickCache {
    /** All keys of one cache carry this volume. */
    const volume: nat
    const slotDims: Dims
    const poolDims: Dims
    const capacity: nat
    var levels: seq<Level>
    var used: nat
    var tiles: seq<nat>
    var occs: seq<Occ>
    var dirty: seq<bool>
    var slots: seq<Slot>
    var free: seq<nat>
    var slotOf: map<Key, nat>
    var frame: nat
    var created: bool
    var voxels: map<nat, Key>
    var textures: Textures

    function Tables(): Pages
      reads this
    {
      Pages(levels, capacity, used, tiles, occs, dirty)
    }

    function View(): Cache
      reads this
    {
      Cache(Tables(), slots, free, slotOf, frame, voxels)
    }

    ghost predicate Valid()
      reads this
    {
      && CacheInv(slotDims, volume, View())
      && Coherent(poolDims, Tables(), created, textures)
    }

    /** `edge` is the bordered brick edge; `tileAxis` and `slotRoot` stand for the rounded-up cube roots of the
        tiles and slots wanted. The pool has a tile for every directory entry up to the tile limit. */
    constructor (grids: seq<Dims>, edge: nat, poolByteBudget: nat, tileAxis: nat, slotRoot: nat, volume: nat)
      requires 3 <= edge <= 1024 && tileAxis >= 1
      ensures Valid() && !created && this.volume == volume
      ensures |levels| == |grids| && forall l :: 0 <= l < |grids| ==> levels[l].grid == grids[l]
      ensures forall c | InGrid(Tables(), c) :: ReadEntry(Tables(), c) == 0
      ensures slotOf == map[] && |free| == |slots| > 0 && used == 0
      ensures AllEntries(levels) <= MAX_TILES ==> Roomy(Tables())
    {
      var unknown, entries := EmptyLevels(grids);
      SlotDimsFit(edge, poolByteBudget, slotRoot);
      PoolHoldsAll(entries, tileAxis);
      var sd, pd := SlotDims(edge, poolByteBudget, slotRoot), TilePoolDims(entries, tileAxis);
      var n, tileCount := sd.Count(), pd.Count();
      this.volume, slotDims, poolDims, capacity := volume, sd, pd, tileCount;
      levels, used := unknown, 0;
      tiles := seq(tileCount * TILE_ENTRIES, _ => 0);
      occs := seq(tileCount * TILE_ENTRIES, _ => NO_OCC);
      dirty := seq(tileCount, _ => false);
      slots := seq(n, _ => Slot(Key(0, Coord(0, 0, 0, 0)), false, false, 0));
      free := seq(n, i requires 0 <= i < n => n - 1 - i);
      slotOf, frame, created, voxels := map[], 0, false, map[];
      textures := Textures([], _ => 0, _ => NO_OCC);
      new;
      FreshTables(Tables());
      FreshSlots(slotDims, volume, View());
    }

    /** Every level's directory, unknown throughout, and how many entries they hold in all. */
    static method EmptyLevels(grids: seq<Dims>) returns (levels: seq<Level>, entries: nat)
      ensures |levels| == |grids| && entries == AllEntries(levels)
      ensures forall l :: 0 <= l < |grids| ==>
                levels[l] == Level(grids[l], seq(DirDims(grids[l]).Count(), _ => UNKNOWN), false)
    {
      hide DirDims;
      levels, entries := [], 0;
      for l := 0 to |grids|
        invariant |levels| == l && entries == AllEntries(levels)
        invariant forall m :: 0 <= m < l ==>
                    levels[m] == Level(grids[m], seq(DirDims(grids[m]).Count(), _ => UNKNOWN), false)
      {
        var n := DirDims(grids[l]).Count();
        var level := Level(grids[l], seq(n, _ => UNKNOWN), false);
        assert (levels + [level])[..l] == levels;
        levels := levels + [level];
        entries := entries + n;
      }
    }

    // ---------- page tables ----------

    method AllocateTile(l: nat, i: nat) returns (tile: Option<nat>)
      requires SizesOk(Tables()) && l < |levels| && i < |levels[l].dir|
      modifies this
      ensures View() == old(View()).(pages := PageTable.AllocateTile(old(Tables()), l, i))
      ensures created == old(created) && textures == old(textures)
      ensures tile == if old(used) < capacity then Some(old(used)) else None
    {
      if used >= capacity {
        return None;
      }
      var fill: nat := if levels[l].dir[i] == ALL_EMPTY then EMPTY else 0;
      tiles := Filled(tiles, used, fill);
      occs := Filled(occs, used, NO_OCC);
      levels := levels[l := levels[l].(dir := levels[l].dir[i := used + 2], dirDirty := true)];
      dirty := dirty[used := true];
      tile := Some(used);
      used := used + 1;
    }

    method WriteEntry(c: Coord, value: nat, occ: Occ)
      requires WellFormed(Tables()) && InGrid(Tables(), c)
      modifies this
      ensures View() == old(View()).(pages := PageTable.WriteEntry(old(Tables()), c, value, occ))
      ensures created == old(created) && textures == old(textures)
    {
      ghost var p := Tables();
      var grid := levels[c.level].grid;
      DirInside(grid, c);
      var i := DirIndex(grid, c);
      var d := levels[c.level].dir[i];
      assert d == Dir(p, c);
      if Writable(p, c) {
        MaterialisedOk(p, c);
      }
      hide DirDims, DirIndex, TilesOk, InTile, PageTable.AllocateTile, Poke;
      if d < 2 {
        var tile := AllocateTile(c.level, i);
        if tile.None? {
          return;
        }
        d := tile.value + 2;
      }
      assert Tables() == Materialised(p, c);
      assert d == Dir(Materialised(p, c), c) by {
        if Dir(p, c) < 2 {
          AllocateKeeps(p, c.level, i);
        }
      }
      PokeTile(d - 2, InTile(c), value, occ);
    }

    method PokeTile(t: nat, i: nat, value: nat, occ: Occ)
      requires SizesOk(Tables()) && t < capacity && i < TILE_ENTRIES
      modifies this
      ensures View() == old(View()).(pages := Poke(old(Tables()), t, i, value, occ))
      ensures created == old(created) && textures == old(textures)
    {
      var idx := t * TILE_ENTRIES + i;
      tiles := tiles[idx := value];
      occs := occs[idx := occ];
      dirty := dirty[t := true];
    }

    /** Marks one brick empty unless it reads so already. */
    method Mark(c: Coord)
      requires WellFormed(Tables()) && InGrid(Tables(), c) && Coherent(poolDims, Tables(), created, textures)
      modifies this
      ensures View() == old(View()).(pages := PageSeeding.MarkEmpty(old(Tables()), c))
      ensures created == old(created) && textures == old(textures)
      ensures WellFormed(Tables()) && SameShape(old(Tables()), Tables())
      ensures Coherent(poolDims, Tables(), created, textures)
    {
      hide WellFormed, ReadEntry, PageTable.WriteEntry, Coherent, SameShape;
      ghost var p := Tables();
      WriteEntryShape(p, c, EMPTY, NO_OCC);
      WriteEntryMarked(p, c, EMPTY, NO_OCC);
      CoherentKept(poolDims, p, PageTable.WriteEntry(p, c, EMPTY, NO_OCC), created, textures);
      SameSelfShape(p);
      if !IsEmpty(ReadEntry(Tables(), c)) {
        WriteEntry(c, EMPTY, NO_OCC);
      }
    }

    method MarkEmpty(key: Key)
      requires Valid() && InGrid(Tables(), key.coord)
      modifies this
      ensures Valid() && View() == MarkedEmpty(old(View()), key.coord)
      ensures created == old(created) && textures == old(textures)
    {
      hide Coherent, ReadEntry;
      ghost var s := View();
      MarkedKeeps(slotDims, volume, s, key.coord);
      Mark(key.coord);
    }

    // ---------- residency ----------

    /** There is nothing to fetch: some slot holds the brick, or it is known to be empty. */
    method IsResidentKey(key: Key) returns (r: bool)
      requires Valid() && InGrid(Tables(), key.coord)
      ensures WellFormed(Tables())
      ensures r <==> (exists i: nat :: i < |slots| && slots[i].occupied && slots[i].key == key)
                     || IsEmpty(ReadEntry(Tables(), key.coord))
      ensures Found(slotDims, volume, View()) && key.volumeId == volume ==>
                (r <==> IsResident(ReadEntry(Tables(), key.coord)) || IsEmpty(ReadEntry(Tables(), key.coord)))
    {
      HeldIff(slotDims, volume, View(), key);
      if Found(slotDims, volume, View()) && key.volumeId == volume {
        ResidentIff(slotDims, volume, View(), key);
      }
      hide ReadEntry, CacheInv, Coherent, WellFormed, IsEmpty, IsResident, Found;
      if key in slotOf {
        return true;
      }
      r := IsEmpty(ReadEntry(Tables(), key.coord));
    }

    method FrameBegin(frameIndex: nat)
      requires Valid()
      modifies this
      ensures Valid() && View() == old(View()).(frame := frameIndex)
      ensures created == old(created) && textures == old(textures)
    {
      FrameKeeps(slotDims, volume, View(), frameIndex);
      frame := frameIndex;
    }

    method Touch(key: Key)
      requires Valid()
      modifies this
      ensures key in old(slotOf) ==> old(slotOf)[key] < |old(slots)|
      ensures Valid() && View() == SlotPool.Touch(old(View()), key)
      ensures created == old(created) && textures == old(textures)
    {
      hide Coherent, EntriesOk;
      TouchKeeps(slotDims, volume, View(), key);
      if key in slotOf {
        slots := slots[slotOf[key] := slots[slotOf[key]].(lastTouched := frame)];
      }
    }

    /** The scan for the slot whose brick has gone untouched longest, passing over pinned ones. */
    method FindVictim() returns (victim: Option<nat>)
      ensures victim == Victim(slots, |slots|)
    {
      victim := None;
      var oldest := NEVER;
      for i := 0 to |slots|
        invariant victim == Victim(slots, i)
        invariant oldest == if victim.None? then NEVER else slots[victim.value].lastTouched
      {
        if slots[i].occupied && !slots[i].pinned && slots[i].lastTouched < oldest {
          oldest := slots[i].lastTouched;
          victim := Some(i);
        }
      }
    }

    method EvictSlot(v: nat)
      requires WellFormed(Tables()) && v < |slots| && InGrid(Tables(), slots[v].key.coord)
      requires Coherent(poolDims, Tables(), created, textures)
      modifies this
      ensures View() == Evict(old(View()), v)
      ensures created == old(created) && textures == old(textures)
      ensures Coherent(poolDims, Tables(), created, textures)
    {
      hide Coherent, PageTable.WriteEntry, WellFormed;
      ghost var p := Tables();
      var key := slots[v].key;
      WriteEntryMarked(p, key.coord, 0, Occ(0, 255));
      CoherentKept(poolDims, p, PageTable.WriteEntry(p, key.coord, 0, Occ(0, 255)), created, textures);
      WriteEntry(key.coord, 0, Occ(0, 255));
      slotOf := slotOf - {key};
      slots := slots[v := slots[v].(occupied := false)];
    }

    /** A free slot, else the slot of the longest untouched unpinned brick, which loses its page entry. */
    method AcquireSlot() returns (slot: Option<nat>)
      requires Valid()
      modifies this
      ensures CacheInv(slotDims, volume, old(View())) && WellFormed(old(Tables()))
      ensures View() == Acquire(old(View())) && slot == SlotFor(old(View()))
      ensures created == old(created) && textures == old(textures)
      ensures Coherent(poolDims, Tables(), created, textures)
    {
      hide Coherent, WellFormed, EntryOk, Evict, Victim;
      if free != [] {
        slot := Some(free[|free| - 1]);
        free := free[..|free| - 1];
        return;
      }
      slot := FindVictim();
      if slot.Some? {
        EvictSlot(slot.value);
      }
    }

    method UploadFromBoundPbo(key: Key, pinned: bool, minVal: nat, maxVal: nat)
      requires Valid() && key.volumeId == volume && InGrid(Tables(), key.coord)
      modifies this
      ensures Valid() && created == old(created)
      ensures View() == if !created then old(View())
                        else Upload(slotDims, volume, old(View()), key, pinned, Occ(minVal, maxVal))
      ensures key !in old(slotOf) && key in slotOf ==> PoolStories.ReadsUpload(slotDims, View(), key, Occ(minVal, maxVal))
    {
      hide Coherent, CacheInv, WellFormed, InGrid, Acquire, SlotFor, Commit, SlotPool.Touch, PoolStories.ReadsUpload;
      if !created {
        return;
      }
      ghost var s := View();
      UploadKeeps(slotDims, volume, s, key, pinned, Occ(minVal, maxVal));
      if key in slotOf {
        Touch(key);
        return;
      }
      AcquireKeeps(slotDims, volume, s);
      ReadyToCommit(slotDims, volume, s, key);
      if SlotFor(s).Some? {
        PoolStories.NewDensities(slotDims, volume, s, key, pinned, Occ(minVal, maxVal));
      }
      var slot := AcquireSlot();
      if slot.Some? {
        CommitUpload(key, slot.value, pinned, Occ(minVal, maxVal));
      }
    }

    /** The voxels go to the slot's block of the pool texture, then the slot and the page entry name the brick. */
    method CommitUpload(key: Key, slot: nat, pinned: bool, occ: Occ)
      requires slot < |slots| == slotDims.Count() && WellFormed(Tables()) && InGrid(Tables(), key.coord)
      requires Coherent(poolDims, Tables(), created, textures)
      modifies this
      ensures View() == Commit(slotDims, old(View()), slot, key, pinned, occ)
      ensures created == old(created) && textures == old(textures)
      ensures Coherent(poolDims, Tables(), created, textures)
    {
      hide Coherent, PageTable.WriteEntry, WellFormed;
      PositiveFactors(slotDims);
      var sx, sy := slotDims.x, slotDims.y;
      var cx, cy, cz := slot % sx, (slot / sx) % sy, At(slotDims, slot).z;
      voxels := voxels[slot := key];
      slots := slots[slot := Slot(key, true, pinned, frame)];
      slotOf := slotOf[key := slot];
      var entry := RESIDENT + cx + cy * FIELD + cz * FIELD2;
      assert entry == EntryFor(slotDims, slot);
      ghost var p := Tables();
      WriteEntryMarked(p, key.coord, entry, occ);
      CoherentKept(poolDims, p, PageTable.WriteEntry(p, key.coord, entry, occ), created, textures);
      WriteEntry(key.coord, entry, occ);
    }

    // ---------- textures ----------

    /** Creates the textures from the mirrors as they stand; the tile pools go up in plain row-major order. */
    method Initialize()
      requires Valid() && !created
      modifies this
      ensures Valid() && created
      ensures View() == old(View()).(pages := old(Tables()).(levels := levels))
      ensures |levels| == |old(levels)| && forall l :: 0 <= l < |levels| ==> levels[l] == old(levels)[l].(dirDirty := false)
    {
      hide CacheInv;
      ghost var p := Tables();
      assert WellFormed(p) by { InvPages(slotDims, volume, View()); }
      var dirs: seq<seq<nat>> := [];
      for l := 0 to |levels|
        invariant |dirs| == l && |levels| == |p.levels|
        invariant View() == old(View()).(pages := p.(levels := levels))
        invariant created == old(created) && textures == old(textures)
        invariant forall m :: 0 <= m < |levels| ==> levels[m] == if m < l then p.levels[m].(dirDirty := false) else p.levels[m]
        invariant forall m :: 0 <= m < l ==> dirs[m] == p.levels[m].dir
      {
        dirs := dirs + [levels[l].dir];
        levels := levels[l := levels[l].(dirDirty := false)];
      }
      textures := Textures(dirs, Linear<nat>(poolDims, tiles, 0), Linear(poolDims, occs, NO_OCC));
      created := true;
      CleanedDirs(slotDims, volume, old(View()), levels);
    }

    /** Uploads every directory marked dirty. */
    method SyncDirectories()
      requires Coherent(poolDims, Tables(), created, textures) && created
      modifies this
      ensures Coherent(poolDims, Tables(), created, textures) && created
      ensures View() == old(View()).(pages := old(Tables()).(levels := levels))
      ensures textures == old(textures).(dirs := textures.dirs)
      ensures |levels| == |old(levels)| && forall l :: 0 <= l < |levels| ==> levels[l] == old(levels)[l].(dirDirty := false)
    {
      hide TileCoherent, DirDims;
      ghost var p, tx := Tables(), textures;
      assert forall l: nat | l < |p.levels| :: DirCoherent(p, tx, l);
      for l := 0 to |levels|
        invariant |levels| == |p.levels| && |textures.dirs| == |p.levels| && created
        invariant View() == old(View()).(pages := p.(levels := levels)) && textures == tx.(dirs := textures.dirs)
        invariant forall m :: 0 <= m < |levels| ==> levels[m] == if m < l then p.levels[m].(dirDirty := false) else p.levels[m]
        invariant forall m :: 0 <= m < |levels| ==> textures.dirs[m] == if m < l then p.levels[m].dir else tx.dirs[m]
      {
        assert DirCoherent(p, tx, l);
        if levels[l].dirDirty {
          textures := textures.(dirs := textures.dirs[l := levels[l].dir]);
          levels := levels[l := levels[l].(dirDirty := false)];
        }
        assert textures.dirs[l] == p.levels[l].dir;
      }
      forall t: nat | t < used ensures TileCoherent(poolDims, Tables(), textures, t) {
        assert TileCoherent(poolDims, p, tx, t);
        TileCoherentKept(poolDims, p, Tables(), tx, textures, t);
      }
    }

    /** Uploads every dirty page tile; the marks stay for the occupancy pass. */
    method SyncTiles()
      requires Coherent(poolDims, Tables(), created, textures) && created
      modifies this
      ensures View() == old(View()) && created && textures == old(textures).(tile := textures.tile)
      ensures Coherent(poolDims, Tables(), created, textures)
      ensures forall t: nat | t < used :: Synced(poolDims, textures.tile, tiles, t)
    {
      hide DirDims, Synced, Blit;
      ghost var tx := textures;
      forall u: nat | u < used && !dirty[u] ensures Synced(poolDims, tx.tile, tiles, u) {
        assert TileCoherent(poolDims, Tables(), tx, u);
      }
      for t := 0 to used
        invariant View() == old(View()) && created && textures == tx.(tile := textures.tile)
        invariant forall u: nat | u < used :: u < t || !dirty[u] ==> Synced(poolDims, textures.tile, tiles, u)
      {
        if dirty[t] {
          ghost var was := textures.tile;
          textures := textures.(tile := Blit<nat>(poolDims, textures.tile, tiles, t));
          forall u: nat | u < used ensures u <= t || !dirty[u] ==> Synced(poolDims, textures.tile, tiles, u) {
            BlitSyncs<nat>(poolDims, was, tiles, t, u);
          }
        }
      }
      forall u: nat | u < used ensures TileCoherent(poolDims, Tables(), textures, u) {
        assert TileCoherent(poolDims, Tables(), tx, u);
      }
      forall l: nat | l < |levels| ensures DirCoherent(Tables(), textures, l) {
        assert DirCoherent(Tables(), tx, l);
      }
    }

    /** Uploads the occupancy of every dirty tile and clears its mark. */
    method SyncOccupancy()
      requires Coherent(poolDims, Tables(), created, textures) && created
      requires forall t: nat | t < used :: Synced(poolDims, textures.tile, tiles, t)
      modifies this
      ensures View() == old(View()).(pages := old(Tables()).(dirty := dirty)) && created
      ensures textures == old(textures).(occ := textures.occ)
      ensures dirty == seq(used, _ => false) + old(dirty)[used..]
      ensures Coherent(poolDims, Tables(), created, textures)
    {
      hide DirDims, Synced, Blit;
      ghost var p, tx := Tables(), textures;
      forall u: nat | u < used && !p.dirty[u] ensures Synced(poolDims, tx.occ, occs, u) {
        assert TileCoherent(poolDims, p, tx, u);
      }
      for t := 0 to used
        invariant View() == old(View()).(pages := p.(dirty := dirty)) && created && textures == tx.(occ := textures.occ)
        invariant |dirty| == |p.dirty| && forall u :: 0 <= u < |dirty| ==> dirty[u] == if u < t then false else p.dirty[u]
        invariant forall u: nat | u < used :: u < t || !p.dirty[u] ==> Synced(poolDims, textures.occ, occs, u)
      {
        if dirty[t] {
          ghost var was := textures.occ;
          textures := textures.(occ := Blit(poolDims, textures.occ, occs, t));
          forall u: nat | u < used ensures u <= t || !p.dirty[u] ==> Synced(poolDims, textures.occ, occs, u) {
            BlitSyncs(poolDims, was, occs, t, u);
          }
          dirty := dirty[t := false];
        }
      }
      forall l: nat | l < |levels| ensures DirCoherent(Tables(), textures, l) {
        assert DirCoherent(p, tx, l);
      }
    }

    /** Afterwards nothing is dirty and the shader's lookups, of entry and occupancy, agree with the tables on every
        brick. */
    method SyncPageTables()
      requires Valid()
      modifies this
      ensures Valid() && created == old(created)
      ensures View() == if created then old(View()).(pages := Cleaned(old(Tables()))) else old(View())
      ensures created ==> forall c | InGrid(Tables(), c) :: ShaderReads(poolDims, Tables(), textures, c)
    {
      hide ShaderReads, Coherent, CacheInv, WellFormed, ReadEntry, FetchPageEntry, Clean, DirIndex, Synced;
      ghost var s := View();
      CoherentSizes(poolDims, Tables(), created, textures);
      InvPages(slotDims, volume, s);
      if !created {
        return;
      }
      SyncDirectories();
      SyncTiles();
      SyncOccupancy();
      assert levels == Cleaned(s.pages).levels;
      assert View() == s.(pages := Cleaned(s.pages));
      CleanedKeeps(slotDims, volume, s);
      forall c | InGrid(Tables(), c) ensures ShaderReads(poolDims, Tables(), textures, c) {
        ShaderAgrees(poolDims, Tables(), textures, c);
      }
    }

    // ---------- seeding from a manifest ----------

    /** Only the page tables change, and every change is marked for upload. */
    twostate predicate OnlyTables()
      reads this
    {
      && View() == old(View()).(pages := Tables())
      && created == old(created) && textures == old(textures)
    }

    method MarkRow(level: nat, tile: Cell, isEmpty: Cell -> bool, z: nat, y: nat, ghost p0: Pages, ghost pt: Pages)
      requires level < |levels| && SeedsTo(p0, Tables(), level, isEmpty) && SameShape(p0, Tables())
      requires Low(tile.z) <= z < High(levels[level].grid.z, tile.z) && Low(tile.y) <= y < High(levels[level].grid.y, tile.y)
      requires Coherent(poolDims, Tables(), created, textures)
      requires Roomy(p0) ==> Marking(p0, pt, Tables(), level, tile, isEmpty, Cell(z, y, Low(tile.x)))
      modifies this
      ensures OnlyTables() && Coherent(poolDims, Tables(), created, textures)
      ensures SeedsTo(p0, Tables(), level, isEmpty) && SameShape(p0, Tables())
      ensures Roomy(p0) ==> Marking(p0, pt, Tables(), level, tile, isEmpty, Cell(z, y + 1, Low(tile.x)))
    {
      hide Marking, Coherent, WellFormed, PageSeeding.MarkEmpty, SameShape, Roomy, SeedsTo;
      var grid := levels[level].grid;
      SameLevel(p0, Tables(), level);
      BoxBounds(grid, tile);
      var x := Low(tile.x);
      while x < High(grid.x, tile.x)
        invariant x >= Low(tile.x)
        invariant OnlyTables() && Coherent(poolDims, Tables(), created, textures)
        invariant SeedsTo(p0, Tables(), level, isEmpty) && SameShape(p0, Tables())
        invariant Roomy(p0) ==> Marking(p0, pt, Tables(), level, tile, isEmpty, Cell(z, y, x))
      {
        var c := Cell(z, y, x);
        SameLevel(p0, Tables(), level);
        if Roomy(p0) {
          MarkStep(p0, pt, Tables(), level, tile, isEmpty, c);
        }
        if isEmpty(c) {
          SeedsShape(p0, Tables(), level, isEmpty);
          SeedsMark(p0, Tables(), level, isEmpty, c);
          Mark(CoordOf(level, c));
          SeedsShape(p0, Tables(), level, isEmpty);
        }
        x := x + 1;
      }
      if Roomy(p0) {
        RowGap(grid, tile, z, y, x);
        MarkGap(p0, pt, Tables(), level, tile, isEmpty, Cell(z, y, x), Cell(z, y + 1, Low(tile.x)));
      }
    }

    method MarkTile(level: nat, tile: Cell, isEmpty: Cell -> bool, ghost p0: Pages, ghost pt: Pages) returns (ghost end: Cell)
      requires level < |levels| && SeedsTo(p0, Tables(), level, isEmpty) && SameShape(p0, Tables())
      requires Coherent(poolDims, Tables(), created, textures)
      requires Roomy(p0) ==> Marking(p0, pt, Tables(), level, tile, isEmpty, Cell(Low(tile.z), Low(tile.y), Low(tile.x)))
      modifies this
      ensures OnlyTables() && Coherent(poolDims, Tables(), created, textures)
      ensures SeedsTo(p0, Tables(), level, isEmpty) && SameShape(p0, Tables()) && level < |p0.levels|
      ensures end.z >= High(p0.levels[level].grid.z, tile.z)
      ensures Roomy(p0) ==> Marking(p0, pt, Tables(), level, tile, isEmpty, end)
    {
      hide Coherent, Roomy, Marking, SeedsTo, SameShape, DirDims, Index;
      var grid := levels[level].grid;
      SameLevel(p0, Tables(), level);
      var z := Low(tile.z);
      while z < High(grid.z, tile.z)
        invariant z >= Low(tile.z)
        invariant OnlyTables() && Coherent(poolDims, Tables(), created, textures)
        invariant SeedsTo(p0, Tables(), level, isEmpty) && SameShape(p0, Tables())
        invariant Roomy(p0) ==> Marking(p0, pt, Tables(), level, tile, isEmpty, Cell(z, Low(tile.y), Low(tile.x)))
      {
        var y := Low(tile.y);
        while y < High(grid.y, tile.y)
          invariant y >= Low(tile.y)
          invariant OnlyTables() && Coherent(poolDims, Tables(), created, textures)
          invariant SeedsTo(p0, Tables(), level, isEmpty) && SameShape(p0, Tables())
          invariant Roomy(p0) ==> Marking(p0, pt, Tables(), level, tile, isEmpty, Cell(z, y, Low(tile.x)))
        {
          SameLevel(p0, Tables(), level);
          MarkRow(level, tile, isEmpty, z, y, p0, pt);
          y := y + 1;
        }
        if Roomy(p0) {
          SliceGap(grid, tile, z, y);
          MarkGap(p0, pt, Tables(), level, tile, isEmpty, Cell(z, y, Low(tile.x)), Cell(z + 1, Low(tile.y), Low(tile.x)));
        }
        z := z + 1;
      }
      end := Cell(z, Low(tile.y), Low(tile.x));
    }

    /** A whole unknown tile becomes one directory entry. */
    method BlankEntry(level: nat, i: nat)
      requires WellFormed(Tables()) && level < |levels| && i < |levels[level].dir| && levels[level].dir[i] == UNKNOWN
      requires Coherent(poolDims, Tables(), created, textures)
      modifies this
      ensures OnlyTables() && Tables() == BlankTile(old(Tables()), level, i)
      ensures Coherent(poolDims, Tables(), created, textures)
    {
      ghost var pt := Tables();
      hide Coherent, WellFormed;
      BlankTileMarked(pt, level, i);
      CoherentKept(poolDims, pt, BlankTile(pt, level, i), created, textures);
      levels := levels[level := levels[level].(dir := levels[level].dir[i := ALL_EMPTY], dirDirty := true)];
    }

    /** One tile: one directory entry if it is wholly empty and unknown, per-brick marks if it holds some empties.
        With room in the pool the tile ends up seeded exactly; without, no brick but empty ones is touched. */
    method SeedTile(level: nat, tile: Cell, isEmpty: Cell -> bool, ghost p0: Pages)
      requires level < |levels| && SeedsTo(p0, Tables(), level, isEmpty) && SameShape(p0, Tables())
      requires tile.Inside(DirDims(levels[level].grid))
      requires Coherent(poolDims, Tables(), created, textures)
      requires Roomy(p0) ==> SeededOn(p0, Tables(), EmptyAt(level, isEmpty), TilesBefore(level, tile))
      modifies this
      ensures OnlyTables() && Coherent(poolDims, Tables(), created, textures)
      ensures SeedsTo(p0, Tables(), level, isEmpty) && SameShape(p0, Tables())
      ensures Roomy(p0) ==>
                && SeededOn(p0, Tables(), EmptyAt(level, isEmpty), TilesThrough(level, tile))
                && TileDone(p0, old(Tables()), Tables(), level, tile, isEmpty)
    {
      ghost var pt := Tables();
      var grid := levels[level].grid;
      var i := Index(DirDims(grid), tile);
      SeedsShape(p0, pt, level, isEmpty);
      SameLevel(p0, pt, level);
      TileInDir(pt, level, tile);
      if Roomy(p0) {
        MarkStart(p0, pt, isEmpty, level, tile);
      }
      hide Coherent, Roomy, DirDims, Index, WellFormed, SeededOn, Marking, BlankTile, SeedsTo, TileDone, SameShape;
      var all, any := ScanTile(grid, tile, isEmpty);
      if all && any && levels[level].dir[i] == UNKNOWN {
        if Roomy(p0) {
          SeedWhole(p0, pt, isEmpty, level, tile);
          BlankTileDone(p0, pt, level, tile, isEmpty);
        }
        SeedsBlank(p0, pt, level, isEmpty, tile);
        BlankEntry(level, i);
        SeedsShape(p0, Tables(), level, isEmpty);
      } else if any {
        ghost var end := MarkTile(level, tile, isEmpty, p0, pt);
        if Roomy(p0) {
          MarkEnd(p0, pt, Tables(), isEmpty, level, tile, end);
        }
      } else if Roomy(p0) {
        TileNone(p0, pt, isEmpty, level, tile);
        NothingDone(p0, pt, level, tile, isEmpty);
      }
    }

    /** Whatever room the tile pool has, nothing but empty bricks of the level newly read empty. With a tile for every
        directory entry, exactly the level's empty bricks and those that read empty before read empty afterwards, and
        no tile is spent on a wholly empty unknown one. */
    method SeedEmpties(level: nat, isEmpty: Cell -> bool)
      requires Valid() && level < |levels|
      modifies this
      ensures Valid() && OnlyTables() && SeedsTo(old(Tables()), Tables(), level, isEmpty)
      ensures OnlyEmpties(old(Tables()), Tables(), EmptyAt(level, isEmpty))
      ensures Roomy(old(Tables())) ==>
                && SeededAll(old(Tables()), Tables(), level, isEmpty)
                && DirsSeeded(old(Tables()), Tables(), level, isEmpty, Cell(DirDims(levels[level].grid).z, 0, 0))
    {
      hide Coherent, CacheInv, Roomy, EntrySeeded, TileDone, DirSeeded, WellFormed, Index, ReadEntry, SeedsTo, SeededAll;
      ghost var p0 := Tables();
      var d := DirDims(levels[level].grid);
      InvPages(slotDims, volume, View());
      SeedsNothing(p0, level, isEmpty);
      SeedingStarts(p0, level, isEmpty);
      hide DirDims, SeededOn, DirsSeeded, Seeding, SameShape;
      SameSelfShape(p0);
      var tz := 0;
      while tz < d.z
        invariant OnlyTables() && Coherent(poolDims, Tables(), created, textures)
        invariant SeedsTo(p0, Tables(), level, isEmpty) && SameShape(p0, Tables())
        invariant Roomy(p0) ==> Seeding(p0, Tables(), level, isEmpty, Cell(tz, 0, 0))
      {
        var ty := 0;
        while ty < d.y
          invariant OnlyTables() && Coherent(poolDims, Tables(), created, textures)
          invariant SeedsTo(p0, Tables(), level, isEmpty) && SameShape(p0, Tables())
          invariant Roomy(p0) ==> Seeding(p0, Tables(), level, isEmpty, Cell(tz, ty, 0))
        {
          var tx := 0;
          while tx < d.x
            invariant OnlyTables() && Coherent(poolDims, Tables(), created, textures)
            invariant SeedsTo(p0, Tables(), level, isEmpty) && SameShape(p0, Tables())
            invariant Roomy(p0) ==> Seeding(p0, Tables(), level, isEmpty, Cell(tz, ty, tx))
          {
            ghost var pt := Tables();
            SameLevel(p0, pt, level);
            SeedingParts(p0, pt, level, isEmpty, Cell(tz, ty, tx));
            SeedTile(level, Cell(tz, ty, tx), isEmpty, p0);
            if Roomy(p0) {
              SeedingNext(p0, pt, Tables(), level, isEmpty, Cell(tz, ty, tx), Cell(tz, ty, tx + 1));
            }
            tx := tx + 1;
          }
          if Roomy(p0) {
            SeedingSkip(p0, Tables(), level, isEmpty, Cell(tz, ty, tx), Cell(tz, ty + 1, 0));
          }
          ty := ty + 1;
        }
        if Roomy(p0) {
          SeedingSkip(p0, Tables(), level, isEmpty, Cell(tz, ty, 0), Cell(tz + 1, 0, 0));
        }
        tz := tz + 1;
      }
      SameLevel(p0, Tables(), level);
      SeedsToKeeps(p0, Tables(), level, isEmpty);
      OnlyEmptiesKeep(slotDims, volume, old(View()), Tables(), EmptyAt(level, isEmpty));
      if Roomy(p0) {
        SeedingEnds(p0, Tables(), level, isEmpty, Cell(tz, 0, 0));
      }
    }
  }

  lemma SameLevel(p: Pages, p': Pages, level: nat)
    requires SameShape(p, p') && (level < |p.levels| || level < |p'.levels|)
    ensures level < |p.levels| == |p'.levels| && p'.levels[level].grid == p.levels[level].grid
  {
  }

  lemma SeedsShape(p: Pages, p': Pages, level: nat, isEmpty: Cell -> bool)
    requires SeedsTo(p, p', level, isEmpty)
    ensures WellFormed(p') && SameShape(p, p')
  {
    hide SeedsTo;
    SeedsToKeeps(p, p', level, isEmpty);
  }

  lemma SeedsMark(p: Pages, p': Pages, level: nat, isEmpty: Cell -> bool, c: Cell)
    requires SeedsTo(p, p', level, isEmpty) && WellFormed(p') && SameShape(p, p')
    requires level < |p'.levels| && c.Inside(p'.levels[level].grid) && isEmpty(c)
    ensures InGrid(p', CoordOf(level, c))
    ensures SeedsTo(p, PageSeeding.MarkEmpty(p', CoordOf(level, c)), level, isEmpty)
  {
    hide WellFormed, PageSeeding.MarkEmpty, SeedsTo;
    assert level < |p.levels|;
    SeedsMore(p, p', level, isEmpty, Marks(CoordOf(level, c)));
  }

  lemma SeedsBlank(p: Pages, p': Pages, level: nat, isEmpty: Cell -> bool, tile: Cell)
    requires SeedsTo(p, p', level, isEmpty) && WellFormed(p') && SameShape(p, p')
    requires level < |p'.levels| && tile.Inside(DirDims(p'.levels[level].grid))
    requires forall c: Cell | InTileBox(p'.levels[level].grid, tile, c) :: isEmpty(c)
    requires var i := Index(DirDims(p'.levels[level].grid), tile);
             i < |p'.levels[level].dir| && p'.levels[level].dir[i] == UNKNOWN
    ensures SeedsTo(p, BlankTile(p', level, Index(DirDims(p'.levels[level].grid), tile)), level, isEmpty)
  {
    hide WellFormed, BlankTile, SeedsTo, DirDims, Index;
    assert level < |p.levels|;
    SeedsMore(p, p', level, isEmpty, Blanks(level, tile));
  }

  /** Exactly the level's empty bricks, and those that read empty before, read empty; all other entries and densities are
      as before. */
  ghost predicate SeededAll(p: Pages, p': Pages, level: nat, isEmpty: Cell -> bool) {
    && WellFormed(p) && WellFormed(p') && SameShape(p, p')
    && forall b | InGrid(p, b) :: Seeded(p, p', b, b.level == level && isEmpty(CellOf(b)))
  }

  ghost predicate Seeded(p: Pages, p': Pages, b: Coord, empty: bool)
    requires WellFormed(p) && WellFormed(p') && SameShape(p, p') && InGrid(p, b)
  {
    if empty && !IsEmpty(ReadEntry(p, b)) then ReadEntry(p', b) == EMPTY && ReadOcc(p', b) == NO_OCC
    else ReadEntry(p', b) == ReadEntry(p, b) && ReadOcc(p', b) == ReadOcc(p, b)
  }

  lemma TileInDir(p: Pages, level: nat, tile: Cell)
    requires WellFormed(p) && level < |p.levels| && tile.Inside(DirDims(p.levels[level].grid))
    ensures Index(DirDims(p.levels[level].grid), tile) < |p.levels[level].dir|
  {
    AtIndex(DirDims(p.levels[level].grid), tile);
  }

  lemma BlankTileDone(p0: Pages, pt: Pages, level: nat, tile: Cell, isEmpty: Cell -> bool)
    requires level < |p0.levels| && SameShape(p0, pt) && WellFormed(pt)
    requires var i := Index(DirDims(p0.levels[level].grid), tile);
             i < |pt.levels[level].dir| && pt.levels[level].dir[i] == UNKNOWN
    requires forall c: Cell | InTileBox(p0.levels[level].grid, tile, c) :: isEmpty(c)
    ensures TileDone(p0, pt, BlankTile(pt, level, Index(DirDims(p0.levels[level].grid), tile)), level, tile, isEmpty)
  {
    hide WellFormed, DirDims, Index;
    BlankTileKeeps(pt, level, Index(DirDims(p0.levels[level].grid), tile));
  }

  lemma NothingDone(p0: Pages, pt: Pages, level: nat, tile: Cell, isEmpty: Cell -> bool)
    requires level < |p0.levels| && SameShape(p0, pt)
    requires Index(DirDims(p0.levels[level].grid), tile) < |pt.levels[level].dir|
    requires forall c: Cell | InTileBox(p0.levels[level].grid, tile, c) :: !isEmpty(c)
    requires tile.Inside(DirDims(p0.levels[level].grid))
    ensures TileDone(p0, pt, pt, level, tile, isEmpty)
  {
    var grid := p0.levels[level].grid;
    var corner := Cell(Low(tile.z), Low(tile.y), Low(tile.x));
    assert InTileBox(grid, tile, corner);
  }

  /** The level's tiles before `upto` are seeded. */
  ghost predicate Seeding(p0: Pages, p: Pages, level: nat, isEmpty: Cell -> bool, upto: Cell) {
    && SeededOn(p0, p, EmptyAt(level, isEmpty), TilesBefore(level, upto))
    && DirsSeeded(p0, p, level, isEmpty, upto)
    && level < |p0.levels| && level < |p.levels| && p.levels[level].grid == p0.levels[level].grid
  }

  lemma SeedingStarts(p: Pages, level: nat, isEmpty: Cell -> bool)
    requires WellFormed(p) && level < |p.levels|
    ensures Seeding(p, p, level, isEmpty, Cell(0, 0, 0))
  {
    SeededNone(p, EmptyAt(level, isEmpty), TilesBefore(level, Cell(0, 0, 0)));
    hide DirDims, TilesOk;
    assert |p.levels[level].dir| == DirDims(p.levels[level].grid).Count();
    forall t: Cell | t.Inside(DirDims(p.levels[level].grid))
      ensures DirSeededAt(p, p, level, isEmpty, Cell(0, 0, 0), t)
    {
      AtIndex(DirDims(p.levels[level].grid), t);
    }
  }

  lemma SeedingNext(p0: Pages, pt: Pages, p: Pages, level: nat, isEmpty: Cell -> bool, tile: Cell, next: Cell)
    requires Seeding(p0, pt, level, isEmpty, tile) && tile.Inside(DirDims(p0.levels[level].grid))
    requires SeededOn(p0, p, EmptyAt(level, isEmpty), TilesThrough(level, tile))
    requires TileDone(p0, pt, p, level, tile, isEmpty)
    requires next == tile.(x := tile.x + 1)
    ensures Seeding(p0, p, level, isEmpty, next)
  {
    hide DirDims, EntrySeeded, DirSeededAt, DirSeeded, WellFormed, Index;
    NextTile(p0, p, isEmpty, level, tile, next);
    DirsNext(p0, pt, p, level, isEmpty, tile, next);
  }

  lemma SeedingSkip(p0: Pages, p: Pages, level: nat, isEmpty: Cell -> bool, tile: Cell, next: Cell)
    requires Seeding(p0, p, level, isEmpty, tile)
    requires var d := DirDims(p0.levels[level].grid);
             || (tile.x >= d.x && next == Cell(tile.z, tile.y + 1, 0))
             || (tile.y >= d.y && tile.x == 0 && next == Cell(tile.z + 1, 0, 0))
    ensures Seeding(p0, p, level, isEmpty, next)
  {
    hide DirDims, EntrySeeded, DirSeededAt, DirSeeded, WellFormed, Index;
    NextTile(p0, p, isEmpty, level, tile, next);
    DirsNext(p0, p, p, level, isEmpty, tile, next);
  }

  lemma SeedingParts(p0: Pages, p: Pages, level: nat, isEmpty: Cell -> bool, upto: Cell)
    ensures Seeding(p0, p, level, isEmpty, upto) ==> SeededOn(p0, p, EmptyAt(level, isEmpty), TilesBefore(level, upto))
  {
  }

  lemma SeedingEnds(p0: Pages, p: Pages, level: nat, isEmpty: Cell -> bool, upto: Cell)
    requires Seeding(p0, p, level, isEmpty, upto)
    requires upto.z >= DirDims(p0.levels[level].grid).z && upto.y == upto.x == 0
    ensures SeededAll(p0, p, level, isEmpty)
    ensures DirsSeeded(p0, p, level, isEmpty, Cell(DirDims(p0.levels[level].grid).z, 0, 0))
  {
    hide ReadEntry, ReadOcc, WellFormed, DirDims, Index, DirSeeded;
    var d := DirDims(p0.levels[level].grid);
    forall b | InGrid(p0, b) ensures Seeded(p0, p, b, b.level == level && isEmpty(CellOf(b))) {
      assert EntrySeeded(p0, p, EmptyAt(level, isEmpty), TilesBefore(level, upto), b);
      DirInside(p0.levels[b.level].grid, b);
    }
    DirsNext(p0, p, p, level, isEmpty, upto, Cell(d.z, 0, 0));
  }

  lemma CoherentSizes(pool: Dims, p: Pages, created: bool, tx: Textures)
    requires Coherent(pool, p, created, tx)
    ensures |p.dirty| == p.capacity && p.used <= p.capacity
  {
  }

  lemma TileCoherentKept(pool: Dims, p: Pages, q: Pages, tx: Textures, ty: Textures, t: nat)
    requires SizesOk(p) && SizesOk(q) && t < p.capacity == pool.Count() && q.capacity == p.capacity
    requires q.dirty == p.dirty && q.tiles == p.tiles && q.occs == p.occs && ty.tile == tx.tile && ty.occ == tx.occ
    requires TileCoherent(pool, p, tx, t)
    ensures TileCoherent(pool, q, ty, t)
  {
  }

  lemma CleanedKeeps(d: Dims, volume: nat, s: Cache)
    requires CacheInv(d, volume, s) && |s.pages.dirty| == s.pages.capacity && s.pages.used <= s.pages.capacity
    ensures CacheInv(d, volume, s.(pages := Cleaned(s.pages)))
    ensures WellFormed(Cleaned(s.pages)) && Clean(Cleaned(s.pages))
  {
    InvPages(d, volume, s);
    CleanedReads(s.pages);
    hide ReadEntry, WellFormed, SlotsOk, EntriesOk, SlotOfEntry, Cleaned;
    EmptiesKeep(d, volume, s, Cleaned(s.pages));
  }

  lemma ReadyToCommit(d: Dims, volume: nat, s: Cache, k: Key)
    requires CacheInv(d, volume, s) && InGrid(s.pages, k.coord)
    ensures WellFormed(s.pages)
    ensures SlotFor(s).Some? ==>
              && SlotFor(s).value < |Acquire(s).slots| == d.Count()
              && WellFormed(Acquire(s).pages) && InGrid(Acquire(s).pages, k.coord)
  {
    hide WellFormed, Acquire;
    AcquireKeeps(d, volume, s);
  }

  lemma SameSelfShape(p: Pages)
    ensures SameShape(p, p)
  {
  }

  lemma InvPages(d: Dims, volume: nat, s: Cache)
    requires CacheInv(d, volume, s)
    ensures WellFormed(s.pages)
  {
  }

  lemma MarkedKeeps(d: Dims, volume: nat, s: Cache, c: Coord)
    requires CacheInv(d, volume, s) && InGrid(s.pages, c)
    ensures CacheInv(d, volume, MarkedEmpty(s, c))
  {
    hide ReadEntry, ReadOcc, WellFormed, WriteEntry, EntriesOk;
    InvPages(d, volume, s);
    var p' := PageSeeding.MarkEmpty(s.pages, c);
    WriteEntryShape(s.pages, c, EMPTY, NO_OCC);
    forall b | InGrid(s.pages, b) ensures ReadEntry(p', b) == ReadEntry(s.pages, b) || ReadEntry(p', b) == EMPTY {
      WriteEntryExact(s.pages, c, EMPTY, NO_OCC, b);
    }
    EmptiesKeep(d, volume, s, p');
  }

  /** The dirty marks of directories mean nothing to the entries. */
  lemma CleanedDirs(d: Dims, volume: nat, s: Cache, levels': seq<Level>)
    requires CacheInv(d, volume, s) && |levels'| == |s.pages.levels|
    requires forall l :: 0 <= l < |levels'| ==> levels'[l] == s.pages.levels[l].(dirDirty := false)
    ensures var p' := s.pages.(levels := levels');
            CacheInv(d, volume, s.(pages := p')) && SameShape(s.pages, p') && WellFormed(p')
            && forall c | InGrid(s.pages, c) :: ReadEntry(p', c) == ReadEntry(s.pages, c)
  {
    InvPages(d, volume, s);
    var p' := s.pages.(levels := levels');
    SameTables(s.pages, p');
    hide ReadEntry, WellFormed, SlotsOk, EntriesOk, SlotOfEntry;
    EmptiesKeep(d, volume, s, p');
  }

  /** Tables that differ only in dirty marks read the same. */
  lemma SameTables(p: Pages, q: Pages)
    requires WellFormed(p) && |q.levels| == |p.levels| && q.capacity == p.capacity && q.used == p.used
    requires q.tiles == p.tiles && q.occs == p.occs && |q.dirty| == p.capacity
    requires forall l :: 0 <= l < |p.levels| ==> q.levels[l].grid == p.levels[l].grid && q.levels[l].dir == p.levels[l].dir
    ensures WellFormed(q) && SameShape(p, q)
    ensures forall c | InGrid(p, c) :: ReadEntry(q, c) == ReadEntry(p, c) && ReadOcc(q, c) == ReadOcc(p, c)
  {
    CleanedOwners(p.levels, q.levels);
    assert forall l, i :: Owner(q, l, i) <==> Owner(p, l, i);
    hide DirDims, DirIndex, InTile;
    forall c | InGrid(p, c) ensures ReadEntry(q, c) == ReadEntry(p, c) && ReadOcc(q, c) == ReadOcc(p, c) {
      DirInside(p.levels[c.level].grid, c);
      assert Dir(q, c) == Dir(p, c);
    }
  }
}
