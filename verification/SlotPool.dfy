/** Residency: which slot of the brick pool holds which brick, and what the page entries say about it. */
module SlotPool {
  import opened Grid
  import opened Numbers
  import opened Options
  import opened BrickKeys
  import opened PageTable
  import opened PageSeeding
  import opened SeedSteps

  const RESIDENT := 0x4000_0000
  const FIELD := 1024
  const FIELD2 := 0x10_0000
  const NEVER := 0xffff_ffff_ffff_ffff

  datatype Slot = Slot(key: Key, occupied: bool, pinned: bool, lastTouched: nat)

  /** `voxels` names the brick whose voxels were last copied into a slot's block of the pool texture. */
  datatype Cache = Cache(pages: Pages, slots: seq<Slot>, free: seq<nat>, slotOf: map<Key, nat>, frame: nat,
                         voxels: map<nat, Key>)

  // ---------- page entries ----------

  predicate IsResident(entry: nat) {
    entry / 0x4000_0000 % 2 == 1
  }

  /** The slot coordinates fit their ten bits. */
  predicate Addressable(d: Dims) {
    d.z <= FIELD && d.y <= FIELD && d.x <= FIELD
  }

  /** Bit 30 and the slot's x, y, z in ten bits each; the fields do not overlap, so or-ing them adds them. */
  function EntryFor(d: Dims, slot: nat): nat
    requires slot < d.Count()
  {
    PositiveFactors(d);
    var c := At(d, slot);
    RESIDENT + c.x + c.y * FIELD + c.z * FIELD2
  }

  function SlotOfEntry(d: Dims, entry: nat): nat {
    Index(d, Cell(entry / FIELD2 % FIELD, entry / FIELD % FIELD, entry % FIELD))
  }

  lemma OrIsSum(x: bv32, y: bv32, z: bv32)
    requires x < 1024 && y < 1024 && z < 1024
    ensures 0x4000_0000 | x | (y << 10) | (z << 20) == 0x4000_0000 + x + y * 1024 + z * 0x10_0000
  {
  }

  lemma FieldsDecode(z: nat, y: nat, x: nat, e: nat)
    requires z < FIELD && y < FIELD && x < FIELD && e == RESIDENT + x + y * FIELD + z * FIELD2
    ensures e / FIELD2 % FIELD == z && e / FIELD % FIELD == y && e % FIELD == x
    ensures IsResident(e) && !IsEmpty(e)
  {
    DivModUnique(FIELD * FIELD + z * FIELD + y, x, FIELD);
    DivModUnique(FIELD + z, y, FIELD);
    DivModUnique(FIELD + z, y * FIELD + x, FIELD2);
    DivModUnique(1, z, FIELD);
    DivModUnique(1, z * FIELD2 + y * FIELD + x, RESIDENT);
    DivModUnique(0, e, 0x8000_0000);
  }

  /** A resident entry decodes to the slot it was made for. */
  lemma EntryDecodes(d: Dims, slot: nat)
    requires slot < d.Count() && Addressable(d)
    ensures var e := EntryFor(d, slot); IsResident(e) && !IsEmpty(e) && SlotOfEntry(d, e) == slot
  {
    IndexAt(d, slot);
    var c := At(d, slot);
    FieldsDecode(c.z, c.y, c.x, EntryFor(d, slot));
  }

  /** The entry of the slot at (z, y, x): bit 30, and the coordinates in ten bits each, x lowest. */
  lemma EntryIs(d: Dims, c: Cell)
    requires c.Inside(d)
    ensures Index(d, c) < d.Count()
    ensures EntryFor(d, Index(d, c)) == 0x4000_0000 + c.x + 0x400 * c.y + 0x10_0000 * c.z
    ensures IsEmpty(0x8000_0000) && !IsEmpty(0) && !IsResident(0) && !IsResident(0x8000_0000)
  {
    AtIndex(d, c);
    hide Index, At, Dims.Count;
  }

  // ---------- choosing a victim ----------

  predicate Eligible(s: Slot) {
    s.occupied && !s.pinned && s.lastTouched < NEVER
  }

  /** The scan for the slot to evict, over the first n slots. */
  function Victim(slots: seq<Slot>, n: nat): (v: Option<nat>)
    requires n <= |slots|
    ensures v.Some? ==> v.value < n && Eligible(slots[v.value])
  {
    if n == 0 then None
    else
      var v := Victim(slots, n - 1);
      if !Eligible(slots[n - 1]) then v
      else if v.None? || slots[n - 1].lastTouched < slots[v.value].lastTouched then Some(n - 1)
      else v
  }

  /** No victim only if no slot is eligible; otherwise the least recently touched, the first among equals. */
  lemma {:induction false} VictimIsOldest(slots: seq<Slot>, n: nat)
    requires n <= |slots|
    ensures var v := Victim(slots, n);
            && (v.None? ==> forall i :: 0 <= i < n ==> !Eligible(slots[i]))
            && (v.Some? ==> forall i :: 0 <= i < n && Eligible(slots[i]) ==>
                  || slots[v.value].lastTouched < slots[i].lastTouched
                  || (slots[v.value].lastTouched == slots[i].lastTouched && v.value <= i))
  {
    if n > 0 {
      VictimIsOldest(slots, n - 1);
    }
  }

  // ---------- the invariant ----------

  /** Slot bookkeeping, leaving out the slots in `limbo`, which are neither free nor occupied. */
  ghost predicate SlotsOk(d: Dims, volume: nat, s: Cache, limbo: set<nat>) {
    && |s.slots| == d.Count()
    && (forall i, j :: 0 <= i < j < |s.free| ==> s.free[i] != s.free[j])
    && (forall i | i in s.free :: i < |s.slots|)
    && (forall i: nat | i < |s.slots| :: s.slots[i].occupied <==> i !in s.free && i !in limbo)
    && (forall i: nat | i in limbo :: i < |s.slots| && i !in s.free)
    && (forall k | k in s.slotOf :: s.slotOf[k] < |s.slots| && s.slots[s.slotOf[k]].occupied && s.slots[s.slotOf[k]].key == k)
    && (forall i: nat | i < |s.slots| && s.slots[i].occupied ::
          && s.slots[i].key in s.slotOf && s.slotOf[s.slots[i].key] == i
          && s.slots[i].key.volumeId == volume && InGrid(s.pages, s.slots[i].key.coord)
          && i in s.voxels && s.voxels[i] == s.slots[i].key)
  }

  /** Slot i holds the brick at c. */
  predicate HeldBy(s: Cache, i: nat, c: Coord) {
    i < |s.slots| && s.slots[i].occupied && s.slots[i].key.coord == c
  }

  ghost predicate EntryOk(d: Dims, s: Cache, c: Coord)
    requires WellFormed(s.pages) && InGrid(s.pages, c)
  {
    IsResident(ReadEntry(s.pages, c)) ==> HeldBy(s, SlotOfEntry(d, ReadEntry(s.pages, c)), c)
  }

  ghost predicate EntriesOk(d: Dims, s: Cache) {
    WellFormed(s.pages) && forall c | InGrid(s.pages, c) :: EntryOk(d, s, c)
  }

  ghost predicate CacheInv(d: Dims, volume: nat, s: Cache) {
    Addressable(d) && SlotsOk(d, volume, s, {}) && EntriesOk(d, s)
  }

  // ---------- operations ----------

  function Touch(s: Cache, k: Key): Cache
    requires k in s.slotOf ==> s.slotOf[k] < |s.slots|
  {
    if k in s.slotOf then s.(slots := s.slots[s.slotOf[k] := s.slots[s.slotOf[k]].(lastTouched := s.frame)]) else s
  }

  function Evict(s: Cache, v: nat): Cache
    requires v < |s.slots| && WellFormed(s.pages) && InGrid(s.pages, s.slots[v].key.coord)
  {
    s.(pages := WriteEntry(s.pages, s.slots[v].key.coord, 0, Occ(0, 255)),
       slotOf := s.slotOf - {s.slots[v].key},
       slots := s.slots[v := s.slots[v].(occupied := false)])
  }

  /** The slot a new brick gets, if any: the last free one, else the victim's. */
  function SlotFor(s: Cache): Option<nat> {
    if s.free != [] then Some(s.free[|s.free| - 1]) else Victim(s.slots, |s.slots|)
  }

  function Acquire(s: Cache): Cache
    requires WellFormed(s.pages)
    requires s.free == [] ==> forall i: nat | i < |s.slots| && s.slots[i].occupied :: InGrid(s.pages, s.slots[i].key.coord)
  {
    if s.free != [] then s.(free := s.free[..|s.free| - 1])
    else
      var v := Victim(s.slots, |s.slots|);
      if v.None? then s else Evict(s, v.value)
  }

  /** Copies the voxels into slot i and publishes the brick there. */
  function Commit(d: Dims, s: Cache, i: nat, k: Key, pinned: bool, occ: Occ): Cache
    requires i < |s.slots| == d.Count() && WellFormed(s.pages) && InGrid(s.pages, k.coord)
  {
    s.(voxels := s.voxels[i := k],
       slots := s.slots[i := Slot(k, true, pinned, s.frame)],
       slotOf := s.slotOf[k := i],
       pages := WriteEntry(s.pages, k.coord, EntryFor(d, i), occ))
  }

  function Upload(d: Dims, volume: nat, s: Cache, k: Key, pinned: bool, occ: Occ): Cache
    requires CacheInv(d, volume, s) && k.volumeId == volume && InGrid(s.pages, k.coord)
  {
    if k in s.slotOf then Touch(s, k)
    else if SlotFor(s).None? then s
    else
      AcquireKeeps(d, volume, s);
      Commit(d, Acquire(s), SlotFor(s).value, k, pinned, occ)
  }

  // ---------- what they keep ----------

  /** With no tile to be had a brick reads as unknown or empty. */
  lemma UnwritableReads(p: Pages, c: Coord)
    requires WellFormed(p) && InGrid(p, c) && !Writable(p, c)
    ensures !IsResident(ReadEntry(p, c))
  {
    assert !IsResident(0) && !IsResident(EMPTY);
  }

  lemma SameGrid(p: Pages, p': Pages)
    requires SameShape(p, p')
    ensures forall c :: InGrid(p', c) <==> InGrid(p, c)
  {
  }

  lemma EvictEntries(d: Dims, volume: nat, s: Cache, v: nat)
    requires EntriesOk(d, s) && SlotsOk(d, volume, s, {}) && v < |s.slots| && s.slots[v].occupied
    ensures EntriesOk(d, Evict(s, v)) && SameShape(s.pages, Evict(s, v).pages)
  {
    hide ReadEntry, ReadOcc, WellFormed, WriteEntry, Writable;
    var s' := Evict(s, v);
    var vc := s.slots[v].key.coord;
    WriteEntryShape(s.pages, vc, 0, Occ(0, 255));
    forall c | InGrid(s'.pages, c) ensures EntryOk(d, s', c) {
      WriteEntryExact(s.pages, vc, 0, Occ(0, 255), c);
      assert EntryOk(d, s, c);
      assert !IsResident(0);
      if c == vc && !Writable(s.pages, vc) {
        UnwritableReads(s.pages, vc);
      }
    }
  }

  lemma EvictSlots(d: Dims, volume: nat, s: Cache, v: nat)
    requires WellFormed(s.pages) && SlotsOk(d, volume, s, {}) && v < |s.slots| && s.slots[v].occupied
    ensures SlotsOk(d, volume, Evict(s, v), {v})
  {
    hide WellFormed, WriteEntry, InGrid, SameShape;
    WriteEntryShape(s.pages, s.slots[v].key.coord, 0, Occ(0, 255));
    SameGrid(s.pages, Evict(s, v).pages);
  }

  function TakeFree(s: Cache): Cache
    requires s.free != []
  {
    s.(free := s.free[..|s.free| - 1])
  }

  lemma TakeFreeSlots(d: Dims, volume: nat, s: Cache)
    requires SlotsOk(d, volume, s, {}) && s.free != []
    ensures SlotsOk(d, volume, TakeFree(s), {s.free[|s.free| - 1]})
  {
    var n := |s.free| - 1;
    var rest, last := s.free[..n], s.free[n];
    assert s.free == rest + [last];
    assert last in s.free;
    forall i: nat ensures i in s.free <==> i in rest || i == last {
    }
    forall i: nat | i in rest ensures i in s.free && i != last {
      var j :| 0 <= j < n && rest[j] == i;
      assert s.free[j] == i;
    }
  }

  /** The entries only depend on the pages and the slots. */
  lemma EntriesKept(d: Dims, s: Cache, s': Cache)
    requires EntriesOk(d, s) && s'.pages == s.pages && s'.slots == s.slots
    ensures EntriesOk(d, s')
  {
    hide ReadEntry, WellFormed, SlotOfEntry;
    forall c | InGrid(s.pages, c) ensures EntryOk(d, s', c) {
      assert EntryOk(d, s, c);
    }
  }

  lemma AcquireKeeps(d: Dims, volume: nat, s: Cache)
    requires CacheInv(d, volume, s)
    ensures WellFormed(s.pages)
    ensures SlotFor(s).Some? ==>
              && SlotFor(s).value < |s.slots|
              && SlotsOk(d, volume, Acquire(s), {SlotFor(s).value}) && EntriesOk(d, Acquire(s))
              && SameShape(s.pages, Acquire(s).pages)
    ensures SlotFor(s).None? ==> Acquire(s) == s
  {
    hide WellFormed, Evict;
    if s.free != [] {
      hide SlotsOk, EntriesOk;
      assert EntriesOk(d, s);
      TakeFreeSlots(d, volume, s);
      EntriesKept(d, s, TakeFree(s));
      FreeInRange(d, volume, s);
    } else if Victim(s.slots, |s.slots|).Some? {
      var v := Victim(s.slots, |s.slots|).value;
      EvictEntries(d, volume, s, v);
      EvictSlots(d, volume, s, v);
    }
  }

  lemma FreeInRange(d: Dims, volume: nat, s: Cache)
    requires SlotsOk(d, volume, s, {}) && s.free != []
    ensures s.free[|s.free| - 1] < |s.slots|
  {
    assert s.free[|s.free| - 1] in s.free;
  }

  lemma CommitEntries(d: Dims, volume: nat, s: Cache, i: nat, k: Key, pinned: bool, occ: Occ)
    requires Addressable(d) && SlotsOk(d, volume, s, {i}) && EntriesOk(d, s) && i < |s.slots|
    requires k.volumeId == volume && InGrid(s.pages, k.coord)
    ensures EntriesOk(d, Commit(d, s, i, k, pinned, occ))
  {
    hide ReadEntry, ReadOcc, WellFormed, WriteEntry, Writable, EntryFor, SlotOfEntry;
    var s' := Commit(d, s, i, k, pinned, occ);
    WriteEntryShape(s.pages, k.coord, EntryFor(d, i), occ);
    EntryDecodes(d, i);
    forall c | InGrid(s'.pages, c) ensures EntryOk(d, s', c) {
      WriteEntryExact(s.pages, k.coord, EntryFor(d, i), occ, c);
      assert EntryOk(d, s, c);
      if c == k.coord && !Writable(s.pages, c) {
        UnwritableReads(s.pages, c);
      }
    }
  }

  lemma CommitSlots(d: Dims, volume: nat, s: Cache, i: nat, k: Key, pinned: bool, occ: Occ)
    requires SlotsOk(d, volume, s, {i}) && WellFormed(s.pages) && i < |s.slots|
    requires k.volumeId == volume && InGrid(s.pages, k.coord) && k !in s.slotOf
    ensures SlotsOk(d, volume, Commit(d, s, i, k, pinned, occ), {})
  {
    hide WellFormed, WriteEntry, EntryFor, InGrid, SameShape;
    WriteEntryShape(s.pages, k.coord, EntryFor(d, i), occ);
    SameGrid(s.pages, Commit(d, s, i, k, pinned, occ).pages);
  }

  /** Whatever an upload meets - resident, a free slot, a victim, only pinned slots, no tile - the slots stay
      partitioned and no page entry dangles. */
  lemma UploadKeeps(d: Dims, volume: nat, s: Cache, k: Key, pinned: bool, occ: Occ)
    requires CacheInv(d, volume, s) && k.volumeId == volume && InGrid(s.pages, k.coord)
    ensures CacheInv(d, volume, Upload(d, volume, s, k, pinned, occ))
  {
    hide ReadEntry, WellFormed, WriteEntry, EntryFor, SlotOfEntry;
    if k in s.slotOf {
      TouchKeeps(d, volume, s, k);
    } else if SlotFor(s).Some? {
      AcquireKeeps(d, volume, s);
      CommitEntries(d, volume, Acquire(s), SlotFor(s).value, k, pinned, occ);
      CommitSlots(d, volume, Acquire(s), SlotFor(s).value, k, pinned, occ);
    }
  }

  lemma TouchKeeps(d: Dims, volume: nat, s: Cache, k: Key)
    requires CacheInv(d, volume, s)
    ensures k in s.slotOf ==> s.slotOf[k] < |s.slots|
    ensures CacheInv(d, volume, Touch(s, k))
  {
    hide ReadEntry, WellFormed, SlotOfEntry;
    if k in s.slotOf {
      forall c | InGrid(s.pages, c) ensures EntryOk(d, Touch(s, k), c) {
        assert EntryOk(d, s, c);
      }
    }
  }

  lemma FrameKeeps(d: Dims, volume: nat, s: Cache, frame: nat)
    requires CacheInv(d, volume, s)
    ensures CacheInv(d, volume, s.(frame := frame))
  {
    hide ReadEntry, WellFormed, SlotOfEntry;
    EntriesKept(d, s, s.(frame := frame));
  }

  /** Tables that differ only by bricks newly read as empty keep the invariant. */
  lemma EmptiesKeep(d: Dims, volume: nat, s: Cache, pages': Pages)
    requires CacheInv(d, volume, s) && WellFormed(pages') && SameShape(s.pages, pages')
    requires forall c | InGrid(s.pages, c) :: ReadEntry(pages', c) == ReadEntry(s.pages, c) || ReadEntry(pages', c) == EMPTY
    ensures CacheInv(d, volume, s.(pages := pages'))
  {
    hide ReadEntry, WellFormed, SlotOfEntry;
    var s' := s.(pages := pages');
    forall c | InGrid(pages', c) ensures EntryOk(d, s', c) {
      assert InGrid(s.pages, c) && EntryOk(d, s, c);
      assert !IsResident(EMPTY);
    }
  }

  // ---------- when slots and entries agree both ways ----------

  /** Whatever newly reads as empty, nothing starts to dangle. */
  lemma OnlyEmptiesKeep(d: Dims, volume: nat, s: Cache, p: Pages, may: Coord -> bool)
    requires CacheInv(d, volume, s) && OnlyEmpties(s.pages, p, may)
    ensures CacheInv(d, volume, s.(pages := p))
  {
    hide ReadEntry, WellFormed, SlotsOk, EntriesOk;
    forall b | InGrid(s.pages, b) ensures ReadEntry(p, b) == ReadEntry(s.pages, b) || ReadEntry(p, b) == EMPTY {
      assert NewlyEmpty(s.pages, p, may, b);
    }
    EmptiesKeep(d, volume, s, p);
  }

  lemma FreshSlots(d: Dims, volume: nat, s: Cache)
    requires Addressable(d) && WellFormed(s.pages) && (forall c | InGrid(s.pages, c) :: ReadEntry(s.pages, c) == 0)
    requires |s.slots| == d.Count() && s.slotOf == map[] && (forall i :: 0 <= i < |s.slots| ==> !s.slots[i].occupied)
    requires |s.free| == |s.slots| && forall i :: 0 <= i < |s.free| ==> s.free[i] == |s.slots| - 1 - i
    ensures CacheInv(d, volume, s)
  {
    hide ReadEntry, WellFormed, SlotOfEntry;
    forall i: nat | i < |s.slots| ensures i in s.free {
      assert s.free[|s.slots| - 1 - i] == i;
    }
    assert !IsResident(0);
  }

  /** Every brick that has a slot is found through its page entry. */
  ghost predicate Found(d: Dims, volume: nat, s: Cache)
    requires CacheInv(d, volume, s)
  {
    forall k | k in s.slotOf :: InGrid(s.pages, k.coord) && ReadEntry(s.pages, k.coord) == EntryFor(d, s.slotOf[k])
  }

  /** Making room in the slots and then writing brick c's entry never lacks a tile. */
  ghost predicate Served(d: Dims, volume: nat, s: Cache, c: Coord)
    requires CacheInv(d, volume, s) && SlotFor(s).Some? && InGrid(s.pages, c)
  {
    AcquireKeeps(d, volume, s);
    Writable(Acquire(s).pages, c) && (s.free == [] ==> Writable(s.pages, s.slots[SlotFor(s).value].key.coord))
  }

  /** The uploaded brick k has its slot, and brick c reads: its slot and the densities given, if it is k; nothing known,
      if it is the victim; what it read before, otherwise. */
  ghost predicate Exact(d: Dims, volume: nat, s: Cache, k: Key, pinned: bool, occ: Occ, c: Coord)
    requires CacheInv(d, volume, s) && k.volumeId == volume && InGrid(s.pages, k.coord) && InGrid(s.pages, c)
    requires SlotFor(s).Some?
  {
    var s', i := Upload(d, volume, s, k, pinned, occ), SlotFor(s).value;
    && CacheInv(d, volume, s') && SameShape(s.pages, s'.pages) && i < |s.slots| == |s'.slots|
    && k in s'.slotOf && s'.slotOf[k] == i && i in s'.voxels && s'.voxels[i] == k
    && s'.slots[i] == Slot(k, true, pinned, s.frame)
    && var victim := s.free == [] && c == s.slots[i].key.coord;
       && ReadEntry(s'.pages, c) == (if c == k.coord then EntryFor(d, i) else if victim then 0 else ReadEntry(s.pages, c))
       && ReadOcc(s'.pages, c) == (if c == k.coord then occ else if victim then Occ(0, 255) else ReadOcc(s.pages, c))
  }

  /** With a tile to be had for the victim's entry and then for its own, a new brick is found at its slot, and apart
      from it and the victim no brick reads anything new. */
  lemma UploadWrites(d: Dims, volume: nat, s: Cache, k: Key, pinned: bool, occ: Occ, c: Coord)
    requires CacheInv(d, volume, s) && k.volumeId == volume && InGrid(s.pages, k.coord) && InGrid(s.pages, c)
    requires k !in s.slotOf && SlotFor(s).Some? && Served(d, volume, s, k.coord)
    ensures Exact(d, volume, s, k, pinned, occ, c)
  {
    hide ReadEntry, ReadOcc, WellFormed, WriteEntry, EntryFor, SlotOfEntry, Writable, Dir, EntriesOk;
    UploadKeeps(d, volume, s, k, pinned, occ);
    AcquireKeeps(d, volume, s);
    AcquireReads(d, volume, s, k.coord, c);
    var s1, i := Acquire(s), SlotFor(s).value;
    assert s1.frame == s.frame && |s1.slots| == |s.slots|;
    hide Acquire, SlotsOk, Addressable;
    WriteEntryExact(s1.pages, k.coord, EntryFor(d, i), occ, c);
    WriteEntryShape(s1.pages, k.coord, EntryFor(d, i), occ);
  }

  /** Making room changes what the victim reads and nothing else. */
  lemma AcquireReads(d: Dims, volume: nat, s: Cache, c: Coord, b: Coord)
    requires CacheInv(d, volume, s) && SlotFor(s).Some? && InGrid(s.pages, c) && InGrid(s.pages, b)
    requires Served(d, volume, s, c)
    ensures var s1, i := Acquire(s), SlotFor(s).value;
            && i < |s.slots| && WellFormed(s1.pages) && InGrid(s1.pages, b) && Writable(s1.pages, c)
            && var victim := s.free == [] && b == s.slots[i].key.coord;
               && ReadEntry(s1.pages, b) == (if victim then 0 else ReadEntry(s.pages, b))
               && ReadOcc(s1.pages, b) == (if victim then Occ(0, 255) else ReadOcc(s.pages, b))
  {
    hide ReadEntry, ReadOcc, WellFormed, WriteEntry, SlotOfEntry, Writable, Dir;
    AcquireKeeps(d, volume, s);
    if s.free == [] {
      WriteEntryExact(s.pages, s.slots[SlotFor(s).value].key.coord, 0, Occ(0, 255), b);
    }
  }

  /** With a tile for every directory entry that is always so. */
  lemma UploadExact(d: Dims, volume: nat, s: Cache, k: Key, pinned: bool, occ: Occ, c: Coord)
    requires CacheInv(d, volume, s) && k.volumeId == volume && InGrid(s.pages, k.coord) && InGrid(s.pages, c)
    requires k !in s.slotOf && SlotFor(s).Some? && Roomy(s.pages)
    ensures Exact(d, volume, s, k, pinned, occ, c)
  {
    AcquireKeeps(d, volume, s);
    hide ReadEntry, ReadOcc, WellFormed, Writable, Upload, EntryFor;
    EntriesKeptCount(s.pages, Acquire(s).pages);
    if s.free == [] {
      RoomyNeverFails(s.pages, s.slots[SlotFor(s).value].key.coord);
    }
    RoomyNeverFails(Acquire(s).pages, k.coord);
    UploadWrites(d, volume, s, k, pinned, occ, c);
  }

  lemma EntriesKeptCount(p: Pages, p': Pages)
    requires SameShape(p, p')
    ensures AllEntries(p.levels) == AllEntries(p'.levels) && p'.capacity == p.capacity
  {
    PageSeeding.EntriesKept(p.levels, p'.levels);
  }

  /** A brick that keeps its slot through the upload of k is neither k nor the victim. */
  lemma StillHeld(d: Dims, volume: nat, s: Cache, k: Key, pinned: bool, occ: Occ, j: Key)
    requires CacheInv(d, volume, s) && k.volumeId == volume && InGrid(s.pages, k.coord)
    requires k !in s.slotOf && SlotFor(s).Some? && j != k && j in Upload(d, volume, s, k, pinned, occ).slotOf
    ensures SlotFor(s).value < |s.slots|
    ensures j in s.slotOf && Upload(d, volume, s, k, pinned, occ).slotOf[j] == s.slotOf[j] && InGrid(s.pages, j.coord)
    ensures j.coord != k.coord && (s.free == [] ==> j.coord != s.slots[SlotFor(s).value].key.coord)
  {
    hide WriteEntry, EntryFor, EntriesOk;
    AcquireKeeps(d, volume, s);
    assert s.slots[s.slotOf[j]].key == j;
  }

  /** The tile pool can serve brick c's entry: it has a tile already, or one is left. */
  lemma WritableIff(p: Pages, q: Pages, c: Coord)
    requires WellFormed(p) && InGrid(p, c) && WellFormed(q) && q.used == p.used && q.capacity == p.capacity
    requires q.levels == p.levels
    ensures InGrid(q, c) && (Writable(p, c) <==> Writable(q, c))
  {
  }

  /** Writing where there is a tile already spends none. */
  lemma WriteInPlace(p: Pages, c: Coord, value: nat, occ: Occ)
    requires WellFormed(p) && InGrid(p, c) && Dir(p, c) >= 2
    ensures Writable(p, c)
    ensures var p' := WriteEntry(p, c, value, occ);
            p'.used == p.used && p'.capacity == p.capacity && p'.levels == p.levels
  {
    hide DirDims, DirIndex, AllOwners;
  }

  lemma ResidentHasTile(p: Pages, c: Coord)
    requires WellFormed(p) && InGrid(p, c) && IsResident(ReadEntry(p, c))
    ensures Dir(p, c) >= 2
  {
    assert !IsResident(0) && !IsResident(EMPTY);
  }

  /** Where slots and pages agree an eviction spends no tile, so it leaves every other brick its chances. */
  lemma EvictionInPlace(d: Dims, volume: nat, s: Cache, c: Coord)
    requires CacheInv(d, volume, s) && Found(d, volume, s) && SlotFor(s).Some? && InGrid(s.pages, c)
    ensures WellFormed(s.pages) && WellFormed(Acquire(s).pages) && InGrid(Acquire(s).pages, c)
    ensures Writable(Acquire(s).pages, c) <==> Writable(s.pages, c)
    ensures Served(d, volume, s, c) <==> Writable(s.pages, c)
  {
    AcquireKeeps(d, volume, s);
    hide ReadEntry, WellFormed, Writable, Dir, WriteEntry, EntryFor, SlotOfEntry, IsResident;
    if s.free == [] {
      var i := SlotFor(s).value;
      var v := s.slots[i].key;
      assert v in s.slotOf && s.slotOf[v] == i;
      EntryDecodes(d, i);
      ResidentHasTile(s.pages, v.coord);
      WriteInPlace(s.pages, v.coord, 0, Occ(0, 255));
      WritableIff(s.pages, Acquire(s).pages, c);
    }
  }

  /** A brick that takes a slot is found through its page entry exactly when the tile pool can serve that entry; all
      other bricks with slots stay found. */
  lemma UploadFoundIff(d: Dims, volume: nat, s: Cache, k: Key, pinned: bool, occ: Occ)
    requires CacheInv(d, volume, s) && k.volumeId == volume && InGrid(s.pages, k.coord) && Found(d, volume, s)
    ensures CacheInv(d, volume, Upload(d, volume, s, k, pinned, occ))
    ensures Found(d, volume, Upload(d, volume, s, k, pinned, occ))
       <==> k in s.slotOf || SlotFor(s).None? || Writable(s.pages, k.coord)
  {
    hide ReadEntry, WellFormed, WriteEntry, EntryFor, SlotOfEntry, Acquire, Commit, Writable;
    UploadKeeps(d, volume, s, k, pinned, occ);
    var s' := Upload(d, volume, s, k, pinned, occ);
    if k !in s.slotOf && SlotFor(s).Some? {
      EvictionInPlace(d, volume, s, k.coord);
      if Writable(s.pages, k.coord) {
        UploadWrites(d, volume, s, k, pinned, occ, k.coord);
        hide Upload;
        forall j | j in s'.slotOf
          ensures InGrid(s'.pages, j.coord) && ReadEntry(s'.pages, j.coord) == EntryFor(d, s'.slotOf[j])
        {
          if j != k {
            StillHeld(d, volume, s, k, pinned, occ, j);
            UploadWrites(d, volume, s, k, pinned, occ, j.coord);
          }
        }
      } else {
        UploadUnfound(d, volume, s, k, pinned, occ);
      }
    }
  }

  /** With no tile to be had the brick takes its slot but its entry does not say so. */
  lemma UploadUnfound(d: Dims, volume: nat, s: Cache, k: Key, pinned: bool, occ: Occ)
    requires CacheInv(d, volume, s) && k.volumeId == volume && InGrid(s.pages, k.coord) && Found(d, volume, s)
    requires k !in s.slotOf && SlotFor(s).Some? && !Writable(s.pages, k.coord)
    ensures var s' := Upload(d, volume, s, k, pinned, occ);
            CacheInv(d, volume, s') && k in s'.slotOf && !Found(d, volume, s')
            && InGrid(s'.pages, k.coord) && !IsResident(ReadEntry(s'.pages, k.coord))
  {
    hide ReadEntry, ReadOcc, WellFormed, EntryFor, SlotOfEntry, Writable, IsResident, WriteEntry;
    UploadKeeps(d, volume, s, k, pinned, occ);
    AcquireKeeps(d, volume, s);
    EvictionInPlace(d, volume, s, k.coord);
    var s1, i := Acquire(s), SlotFor(s).value;
    WriteEntryExact(s1.pages, k.coord, EntryFor(d, i), occ, k.coord);
    UnwritableReads(s1.pages, k.coord);
    EntryDecodes(d, i);
    WriteEntryShape(s1.pages, k.coord, EntryFor(d, i), occ);
  }

  /** Where slots and pages agree, a brick counts as resident exactly when its page entry says resident or empty. */
  lemma ResidentIff(d: Dims, volume: nat, s: Cache, k: Key)
    requires CacheInv(d, volume, s) && Found(d, volume, s) && k.volumeId == volume && InGrid(s.pages, k.coord)
    ensures k in s.slotOf || IsEmpty(ReadEntry(s.pages, k.coord))
       <==> IsResident(ReadEntry(s.pages, k.coord)) || IsEmpty(ReadEntry(s.pages, k.coord))
  {
    hide ReadEntry, WellFormed, SlotOfEntry, EntryFor, IsEmpty, IsResident;
    var e := ReadEntry(s.pages, k.coord);
    if IsResident(e) {
      assert EntryOk(d, s, k.coord);
      var i := SlotOfEntry(d, e);
      assert s.slots[i].key == k;
    }
    if k in s.slotOf {
      EntryDecodes(d, s.slotOf[k]);
    }
  }

  /** A key is mapped to a slot exactly when some slot holds its brick. */
  lemma HeldIff(d: Dims, volume: nat, s: Cache, k: Key)
    requires CacheInv(d, volume, s)
    ensures WellFormed(s.pages)
    ensures k in s.slotOf <==> exists i: nat :: i < |s.slots| && s.slots[i].occupied && s.slots[i].key == k
  {
    hide WellFormed, EntryOk;
    if k in s.slotOf {
      assert s.slots[s.slotOf[k]].key == k;
    }
  }

  function MarkedEmpty(s: Cache, c: Coord): Cache
    requires WellFormed(s.pages) && InGrid(s.pages, c)
  {
    s.(pages := MarkEmpty(s.pages, c))
  }

  /** Marking a brick empty breaks the agreement exactly when that brick has a slot. */
  lemma MarkEmptyFoundIff(d: Dims, volume: nat, s: Cache, c: Coord)
    requires CacheInv(d, volume, s) && Found(d, volume, s) && InGrid(s.pages, c)
    ensures CacheInv(d, volume, MarkedEmpty(s, c))
    ensures Found(d, volume, MarkedEmpty(s, c)) <==> forall k | k in s.slotOf :: k.coord != c
  {
    hide ReadEntry, ReadOcc, WellFormed, WriteEntry, EntryFor, SlotOfEntry, Writable;
    var p' := MarkEmpty(s.pages, c);
    WriteEntryShape(s.pages, c, EMPTY, NO_OCC);
    forall b | InGrid(s.pages, b)
      ensures ReadEntry(p', b) == ReadEntry(s.pages, b) || (b == c && ReadEntry(p', b) == EMPTY)
    {
      WriteEntryExact(s.pages, c, EMPTY, NO_OCC, b);
    }
    EmptiesKeep(d, volume, s, p');
    if k :| k in s.slotOf && k.coord == c {
      EntryDecodes(d, s.slotOf[k]);
      if !Writable(s.pages, c) {
        UnwritableReads(s.pages, c);
      }
      WriteEntryExact(s.pages, c, EMPTY, NO_OCC, c);
      assert ReadEntry(p', c) == EMPTY && !IsResident(EMPTY);
    }
  }

  // ---------- sizing ----------

  function Cube(edge: nat): (n: nat)
    ensures edge > 0 ==> n > 0
  {
    edge * edge * edge
  }

  /** Slots per axis for bricks of edge `edge`; `root` stands for the rounded-up cube root of the slots wanted. */
  function SlotDims(edge: nat, budget: nat, root: nat): Dims
    requires 3 <= edge <= 1024
  {
    AxisLimit(edge);
    var wanted := Max(8, budget / Cube(edge));
    var side := Clamp(root, 2, 2048 / edge);
    MulPositive(side, side);
    Dims(side, side, Clamp(wanted / (side * side), 1, 2048 / edge))
  }

  /** The pool takes the root wanted as its side, within 2 and the texture's limit, and then as many layers as the budget
      allows, within 1 and that limit. */
  lemma SlotDimsTight(edge: nat, budget: nat, root: nat)
    requires 3 <= edge <= 1024
    ensures edge * edge * edge > 0
    ensures var d, most := SlotDims(edge, budget, root), 2048 / edge;
            var wanted := if budget / (edge * edge * edge) < 8 then 8 else budget / (edge * edge * edge);
            && d.z == d.y == (if root < 2 then 2 else if root > most then most else root)
            && (d.x > 1 ==> d.x * (d.z * d.y) <= wanted)
            && (d.x < most ==> wanted < (d.x + 1) * (d.z * d.y))
  {
    AxisLimit(edge);
    MulPositive(edge, edge);
    MulPositive(edge * edge, edge);
    var most, wanted := 2048 / edge, Max(8, budget / Cube(edge));
    var side := Clamp(root, 2, most);
    MulPositive(side, side);
    Layers(wanted, side * side, most);
    assert SlotDims(edge, budget, root) == Dims(side, side, Clamp(wanted / (side * side), 1, most));
    hide SlotDims, Clamp, Max;
  }

  lemma Layers(wanted: nat, square: nat, most: nat)
    requires square >= 1 && most >= 1
    ensures var x := Clamp(wanted / square, 1, most);
            (x > 1 ==> x * square <= wanted) && (x < most ==> wanted < (x + 1) * square)
  {
    var q := wanted / square;
    var x := Clamp(q, 1, most);
    DivStep(wanted, square);
    if x > 1 {
      MulMonotone(x, q, square);
    }
    if x < most {
      MulMonotone(q + 1, x + 1, square);
      assert (q + 1) * square == q * square + square;
    }
  }

  lemma AxisLimit(edge: nat)
    requires 3 <= edge <= 1024
    ensures 2 <= 2048 / edge <= 682 && (2048 / edge) * edge <= 2048
  {
    var q, r := 2048 / edge, 2048 % edge;
    assert q * edge + r == 2048;
    if q < 2 {
      MulMonotone(q, 1, edge);
    }
    if q > 682 {
      MulMonotone(683, q, edge);
    }
  }

  /** Every slot coordinate fits ten bits, the pool has slots, and no texture axis exceeds 2048 voxels. */
  lemma SlotDimsFit(edge: nat, budget: nat, root: nat)
    requires 3 <= edge <= 1024
    ensures var d := SlotDims(edge, budget, root);
            && Addressable(d) && d.Count() > 0
            && d.z * edge <= 2048 && d.y * edge <= 2048 && d.x * edge <= 2048
  {
    AxisLimit(edge);
    var d, most := SlotDims(edge, budget, root), 2048 / edge;
    assert 2 <= d.z <= most && d.y == d.z && 1 <= d.x <= most;
    hide SlotDims;
    MulMonotone(d.z, most, edge);
    MulMonotone(d.x, most, edge);
    MulPositive(d.z, d.y);
    MulPositive(d.z * d.y, d.x);
  }
}
