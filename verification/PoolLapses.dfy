/** Runs from a fresh cache in which a brick ends up with a slot that no page entry leads to. */
module PoolLapses {
  import opened Grid
  import opened Numbers
  import opened BrickKeys
  import opened PageTable
  import opened PageSeeding
  import opened SeedSteps
  import opened SlotPool
  import opened PoolRuns

  /** A cache of one level as it is built: nothing known, no tile used, every slot free. */
  function Fresh(d: Dims, grid: Dims, capacity: nat): Cache {
    var n := d.Count();
    Cache(Pages([Level(grid, seq(DirDims(grid).Count(), _ => UNKNOWN), false)], capacity, 0,
                seq(capacity * TILE_ENTRIES, _ => 0), seq(capacity * TILE_ENTRIES, _ => NO_OCC), seq(capacity, _ => false)),
          seq(n, _ => Slot(Key(0, Coord(0, 0, 0, 0)), false, false, 0)), seq(n, i requires 0 <= i < n => n - 1 - i),
          map[], 0, map[])
  }

  lemma FreshOk(d: Dims, grid: Dims, capacity: nat)
    requires Addressable(d)
    ensures CacheInv(d, 0, Fresh(d, grid, capacity)) && Found(d, 0, Fresh(d, grid, capacity))
  {
    var s := Fresh(d, grid, capacity);
    hide DirDims, Dims.Count;
    FreshTables(s.pages);
    FreshSlots(d, 0, s);
  }

  lemma {:induction false} RunOneMore(d: Dims, volume: nat, s: Cache, run: seq<Event>, ev: Event)
    requires CacheInv(d, volume, s) && Allowed(d, volume, s, run)
    requires CacheInv(d, volume, After(d, volume, s, run)) && Enabled(volume, After(d, volume, s, run), ev)
    ensures Allowed(d, volume, s, run + [ev])
    ensures After(d, volume, s, run + [ev]) == Apply(d, volume, After(d, volume, s, run), ev)
    decreases |run|
  {
    hide CacheInv, Enabled, Apply;
    if run == [] {
      assert [] + [ev] == [ev];
      EventKeeps(d, volume, s, ev);
      assert [ev][1..] == [];
    } else {
      EventKeeps(d, volume, s, run[0]);
      RunOneMore(d, volume, Apply(d, volume, s, run[0]), run[1..], ev);
      assert (run + [ev])[1..] == run[1..] + [ev];
    }
  }

  // ---------- a mark on a resident brick ----------

  lemma UploadTakesSlot(d: Dims, volume: nat, s: Cache, k: Key)
    requires CacheInv(d, volume, s) && k.volumeId == volume && InGrid(s.pages, k.coord)
    requires k !in s.slotOf && SlotFor(s).Some?
    ensures k in Upload(d, volume, s, k, false, NO_OCC).slotOf
  {
    hide WellFormed, EntriesOk, SlotsOk, Acquire;
  }

  lemma OneEvent(d: Dims, volume: nat, s: Cache, ev: Event)
    requires CacheInv(d, volume, s) && Enabled(volume, s, ev)
    ensures Allowed(d, volume, s, [ev]) && After(d, volume, s, [ev]) == Apply(d, volume, s, ev)
  {
    hide CacheInv, Enabled, Apply;
    EventKeeps(d, volume, s, ev);
    assert [ev][1..] == [];
  }

  /** One upload, then the same brick marked empty: it keeps its slot and reads as empty. */
  lemma MarkLosesFrom(d: Dims, volume: nat, s: Cache, k: Key) returns (run: seq<Event>)
    requires CacheInv(d, volume, s) && Found(d, volume, s) && k.volumeId == volume && InGrid(s.pages, k.coord)
    requires k !in s.slotOf && SlotFor(s).Some? && Writable(s.pages, k.coord)
    ensures Allowed(d, volume, s, run) && CacheInv(d, volume, After(d, volume, s, run))
    ensures k in After(d, volume, s, run).slotOf && !Found(d, volume, After(d, volume, s, run))
  {
    var up, mark := Uploads(k, false, NO_OCC), Seeds(Marks(k.coord));
    hide Found, Upload, SlotFor, Writable, SlotsOk, EntryOk, Addressable, After, Allowed, MarkEmpty, InGrid;
    EventKeeps(d, volume, s, up);
    HonestIff(d, volume, s, up);
    UploadTakesSlot(d, volume, s, k);
    var s1 := Apply(d, volume, s, up);
    SameGrid(s.pages, s1.pages);
    HonestIff(d, volume, s1, mark);
    OneEvent(d, volume, s, up);
    RunOneMore(d, volume, s, [up], mark);
    run := [up] + [mark];
  }

  lemma MarkLoses() returns (d: Dims, s: Cache, run: seq<Event>)
    ensures CacheInv(d, 0, s) && Found(d, 0, s) && Allowed(d, 0, s, run)
    ensures CacheInv(d, 0, After(d, 0, s, run)) && !Found(d, 0, After(d, 0, s, run))
  {
    d := Dims(1, 1, 1);
    s := Fresh(d, Dims(1, 1, 1), 1);
    FreshOk(d, Dims(1, 1, 1), 1);
    var k := Key(0, Coord(0, 0, 0, 0));
    assert InGrid(s.pages, k.coord) && SlotFor(s).Some? && Writable(s.pages, k.coord);
    hide Fresh, CacheInv, Found, After, Allowed, SlotFor, Writable, WellFormed;
    run := MarkLosesFrom(d, 0, s, k);
  }

  // ---------- an upload into an exhausted tile pool ----------

  /** The first brick of tile i. */
  function Corner(grid: Dims, i: nat): Coord
    requires i < DirDims(grid).Count()
  {
    PositiveFactors(DirDims(grid));
    var t := At(DirDims(grid), i);
    Coord(0, t.z * TILE_DIM, t.y * TILE_DIM, t.x * TILE_DIM)
  }

  lemma CornerAt(grid: Dims, i: nat)
    requires i < DirDims(grid).Count()
    ensures Cell(Corner(grid, i).z, Corner(grid, i).y, Corner(grid, i).x).Inside(grid)
    ensures DirIndex(grid, Corner(grid, i)) == i
  {
    var t := At(DirDims(grid), i);
    IndexAt(DirDims(grid), i);
    hide Index, At, Dims.Count;
    assert DirCell(Corner(grid, i)) == t;
  }

  lemma {:induction false} OwnersOfPrefix(dir: seq<nat>, n: nat)
    requires n <= |dir| && forall j :: 0 <= j < |dir| ==> (dir[j] >= 2 <==> j < n)
    ensures Owners(dir) == n
  {
    if dir != [] {
      OwnersOfPrefix(dir[..|dir| - 1], if n == |dir| then n - 1 else n);
    }
  }

  /** The first n tiles of the only level are real, the rest unknown; the slots are as in s0. */
  ghost predicate Worn(s0: Cache, grid: Dims, n: nat, s: Cache) {
    && s.slots == s0.slots && s.free == s0.free && s.slotOf == s0.slotOf && s.pages.capacity == s0.pages.capacity
    && |s.pages.levels| == 1 && s.pages.levels[0].grid == grid && |s.pages.levels[0].dir| == DirDims(grid).Count()
    && (forall j :: 0 <= j < |s.pages.levels[0].dir| ==> (s.pages.levels[0].dir[j] >= 2 <==> j < n))
    && (forall j :: n <= j < |s.pages.levels[0].dir| ==> s.pages.levels[0].dir[j] == UNKNOWN)
  }

  lemma WornUsed(s0: Cache, grid: Dims, n: nat, s: Cache)
    requires Worn(s0, grid, n, s) && WellFormed(s.pages) && n <= DirDims(grid).Count()
    ensures s.pages.used == n
  {
    hide DirDims, Dims.Count;
    OwnersOfPrefix(s.pages.levels[0].dir, n);
    var front := s.pages.levels[..0];
    assert AllOwners(front) == 0;
  }

  /** Marking the next tile's first brick empty makes that tile real. */
  lemma WearOne(s0: Cache, grid: Dims, n: nat, s: Cache)
    requires Worn(s0, grid, n, s) && WellFormed(s.pages) && n < s.pages.capacity && n < DirDims(grid).Count()
    ensures InGrid(s.pages, Corner(grid, n))
    ensures Worn(s0, grid, n + 1, s.(pages := MarkEmpty(s.pages, Corner(grid, n))))
  {
    var p, c := s.pages, Corner(grid, n);
    CornerAt(grid, n);
    WornUsed(s0, grid, n, s);
    UnknownReads(p, c);
    WriteEntryShape(p, c, EMPTY, NO_OCC);
    var p' := WriteEntry(p, c, EMPTY, NO_OCC);
    assert Dir(p, c) == UNKNOWN && Writable(p, c);
    WrittenHasTile(p, c);
    hide DirDims, Dims.Count, DirIndex, WellFormed, ReadEntry, WriteEntry, Corner, Writable;
    assert p'.levels[0].dir[n] >= 2;
    forall j: nat | j < |p.levels[0].dir| && j != n ensures p'.levels[0].dir[j] == p.levels[0].dir[j] {
      WriteEntryDir(p, c, EMPTY, NO_OCC, 0, j);
    }
  }

  lemma {:induction false} WearRun(d: Dims, volume: nat, s0: Cache, grid: Dims, n: nat) returns (run: seq<Event>)
    requires CacheInv(d, volume, s0) && Worn(s0, grid, 0, s0)
    requires n <= s0.pages.capacity && n <= DirDims(grid).Count()
    ensures Allowed(d, volume, s0, run) && CacheInv(d, volume, After(d, volume, s0, run))
    ensures Worn(s0, grid, n, After(d, volume, s0, run))
  {
    run := [];
    if n > 0 {
      run := WearRun(d, volume, s0, grid, n - 1);
      var s := After(d, volume, s0, run);
      hide DirDims, Dims.Count, SlotsOk, EntryOk, Addressable, After, Allowed, MarkEmpty, Worn, Corner;
      assert s.pages.capacity == s0.pages.capacity by { WornCapacity(s0, grid, n - 1, s); }
      WearOne(s0, grid, n - 1, s);
      var ev := Seeds(Marks(Corner(grid, n - 1)));
      EventKeeps(d, volume, s, ev);
      RunOneMore(d, volume, s0, run, ev);
      run := run + [ev];
    }
  }

  lemma WornCapacity(s0: Cache, grid: Dims, n: nat, s: Cache)
    requires Worn(s0, grid, n, s)
    ensures s.pages.capacity == s0.pages.capacity
  {
  }

  lemma WornOut(d: Dims, volume: nat, s0: Cache, grid: Dims, s: Cache)
    requires CacheInv(d, volume, s) && Worn(s0, grid, s0.pages.capacity, s) && s0.slotOf == map[] && s0.free != []
    requires s0.pages.capacity < DirDims(grid).Count()
    ensures Found(d, volume, s) && s.slotOf == map[] && SlotFor(s).Some?
    ensures var c := Corner(grid, s0.pages.capacity);
            InGrid(s.pages, c) && WellFormed(s.pages) && !Writable(s.pages, c)
  {
    CornerAt(grid, s0.pages.capacity);
    WornUsed(s0, grid, s0.pages.capacity, s);
    hide DirDims, Dims.Count, DirIndex, TilesOk, ReadEntry, EntriesOk, Corner;
  }

  /** When all tiles are used up by marks on bricks without slots, the next brick to get a slot is not found. */
  lemma ExhaustionLosesFrom(d: Dims, volume: nat, s0: Cache, grid: Dims) returns (run: seq<Event>, k: Key)
    requires CacheInv(d, volume, s0) && Worn(s0, grid, 0, s0) && s0.slotOf == map[] && s0.free != []
    requires s0.pages.capacity < DirDims(grid).Count()
    ensures Allowed(d, volume, s0, run) && CacheInv(d, volume, After(d, volume, s0, run))
    ensures k in After(d, volume, s0, run).slotOf && !Found(d, volume, After(d, volume, s0, run))
  {
    run := WearRun(d, volume, s0, grid, s0.pages.capacity);
    var s := After(d, volume, s0, run);
    WornOut(d, volume, s0, grid, s);
    k := Key(volume, Corner(grid, s0.pages.capacity));
    hide Worn, DirDims, Dims.Count, After, Allowed, Corner, Found, Writable, WellFormed, SlotsOk, EntryOk, Upload, SlotFor;
    var up := Uploads(k, false, NO_OCC);
    UploadTakesSlot(d, volume, s, k);
    HonestIff(d, volume, s, up);
    RunOneMore(d, volume, s0, run, up);
    run := run + [up];
  }

  const BIG := Dims(656, 640, 640)

  lemma BigDims()
    ensures DirDims(BIG) == Dims(41, 40, 40) && DirDims(BIG).Count() == 65600
    ensures TilePoolDims(65600, 41) == Dims(41, 41, 39) && TilePoolDims(65600, 41).Count() == 65559
  {
    assert CeilDiv(656, 16) == 41 && CeilDiv(640, 16) == 40;
    assert Min(65600, MAX_TILES) == 65536 && CeilDiv(65536, 41 * 41) == 39;
  }

  /** It can happen: a level of 656 x 640 x 640 bricks has 65600 tiles, and the pool sized for it holds 65559. */
  lemma ExhaustionLoses() returns (d: Dims, s: Cache, run: seq<Event>, k: Key)
    ensures CacheInv(d, 0, s) && Found(d, 0, s) && Allowed(d, 0, s, run)
    ensures |s.pages.levels| == 1 && s.pages.levels[0].grid == BIG
    ensures s.pages.capacity == TilePoolDims(DirDims(BIG).Count(), 41).Count()
    ensures CacheInv(d, 0, After(d, 0, s, run))
    ensures k in After(d, 0, s, run).slotOf && !Found(d, 0, After(d, 0, s, run))
  {
    BigDims();
    d := Dims(2, 2, 2);
    s := Fresh(d, BIG, 65559);
    hide DirDims, TilePoolDims;
    FreshOk(d, BIG, 65559);
    assert s.free[0] == 7;
    hide CacheInv, Found, Allowed, After;
    run, k := ExhaustionLosesFrom(d, 0, s, BIG);
  }
}
