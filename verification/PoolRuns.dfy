/** Runs of the residency state: what holds in every state that uploads, touches, frames and empty marks can lead to. */
module PoolRuns {
  import opened Grid
  import opened BrickKeys
  import opened PageTable
  import opened PageSeeding
  import opened SeedSteps
  import opened SlotPool

  datatype Event =
    | Uploads(key: Key, pinned: bool, occ: Occ)
    | Touches(key: Key)
    | Frames(frame: nat)
    | Seeds(step: Step)   // one brick marked empty, or one step of a bulk seeding

  ghost predicate Enabled(volume: nat, s: Cache, ev: Event)
    requires WellFormed(s.pages)
  {
    match ev
    case Uploads(k, _, _) => k.volumeId == volume && InGrid(s.pages, k.coord)
    case Seeds(st) => Possible(s.pages, st)
    case _ => true
  }

  ghost function Apply(d: Dims, volume: nat, s: Cache, ev: Event): Cache
    requires CacheInv(d, volume, s) && Enabled(volume, s, ev)
  {
    match ev
    case Uploads(k, pinned, occ) => Upload(d, volume, s, k, pinned, occ)
    case Touches(k) => TouchKeeps(d, volume, s, k); Touch(s, k)
    case Frames(n) => s.(frame := n)
    case Seeds(st) => s.(pages := Do(s.pages, st))
  }

  lemma UploadShape(d: Dims, volume: nat, s: Cache, k: Key, pinned: bool, occ: Occ)
    requires CacheInv(d, volume, s) && k.volumeId == volume && InGrid(s.pages, k.coord)
    ensures SameShape(s.pages, Upload(d, volume, s, k, pinned, occ).pages)
  {
    hide WriteEntry, EntryFor, EntryOk, WellFormed;
    AcquireKeeps(d, volume, s);
    if k !in s.slotOf && SlotFor(s).Some? {
      var s1 := Acquire(s);
      hide SlotsOk, Acquire;
      WriteEntryShape(s1.pages, k.coord, EntryFor(d, SlotFor(s).value), occ);
    }
  }

  lemma EventKeeps(d: Dims, volume: nat, s: Cache, ev: Event)
    requires CacheInv(d, volume, s) && Enabled(volume, s, ev)
    ensures CacheInv(d, volume, Apply(d, volume, s, ev)) && SameShape(s.pages, Apply(d, volume, s, ev).pages)
  {
    hide ReadEntry, SlotsOk, EntryOk, Upload, Touch, Do, NewlyEmpty, Possible;
    match ev {
      case Uploads(k, pinned, occ) =>
        UploadKeeps(d, volume, s, k, pinned, occ);
        UploadShape(d, volume, s, k, pinned, occ);
      case Touches(k) =>
        TouchKeeps(d, volume, s, k);
        TouchPages(s, k);
      case Frames(n) =>
        FrameKeeps(d, volume, s, n);
      case Seeds(st) =>
        StepKeeps(s.pages, st);
        OnlyEmptiesKeep(d, volume, s, Do(s.pages, st), OnesAbout(st));
    }
  }

  lemma TouchPages(s: Cache, k: Key)
    requires k in s.slotOf ==> s.slotOf[k] < |s.slots|
    ensures Touch(s, k).pages == s.pages
  {
  }

  ghost predicate Allowed(d: Dims, volume: nat, s: Cache, run: seq<Event>)
    requires CacheInv(d, volume, s)
    decreases |run|
  {
    run == [] || (Enabled(volume, s, run[0])
                  && (EventKeeps(d, volume, s, run[0]); Allowed(d, volume, Apply(d, volume, s, run[0]), run[1..])))
  }

  ghost function After(d: Dims, volume: nat, s: Cache, run: seq<Event>): Cache
    requires CacheInv(d, volume, s) && Allowed(d, volume, s, run)
    decreases |run|
  {
    if run == [] then s
    else
      EventKeeps(d, volume, s, run[0]);
      After(d, volume, Apply(d, volume, s, run[0]), run[1..])
  }

  /** In every state of every run the slots stay partitioned and no page entry dangles. */
  lemma {:induction false} EveryRunKeeps(d: Dims, volume: nat, s: Cache, run: seq<Event>)
    requires CacheInv(d, volume, s) && Allowed(d, volume, s, run)
    ensures CacheInv(d, volume, After(d, volume, s, run)) && SameShape(s.pages, After(d, volume, s, run).pages)
    decreases |run|
  {
    hide CacheInv, Apply, Enabled;
    if run != [] {
      EventKeeps(d, volume, s, run[0]);
      EveryRunKeeps(d, volume, Apply(d, volume, s, run[0]), run[1..]);
    }
  }

  function SeedEvents(steps: seq<Step>): seq<Event> {
    if steps == [] then [] else [Seeds(steps[0])] + SeedEvents(steps[1..])
  }

  /** A whole seeding, with or without tiles enough, is a run of such events. */
  lemma {:induction false} SeedingIsRun(d: Dims, volume: nat, s: Cache, steps: seq<Step>, pages': Pages)
    requires CacheInv(d, volume, s) && Leads(s.pages, steps, pages')
    ensures Allowed(d, volume, s, SeedEvents(steps))
    ensures After(d, volume, s, SeedEvents(steps)) == s.(pages := pages')
    decreases |steps|
  {
    hide CacheInv, Possible, Do;
    if steps != [] {
      EventKeeps(d, volume, s, Seeds(steps[0]));
      assert SeedEvents(steps)[1..] == SeedEvents(steps[1..]);
      SeedingIsRun(d, volume, s.(pages := Do(s.pages, steps[0])), steps[1..], pages');
    }
  }

  // ---------- pins ----------

  predicate PinnedAt(s: Cache, j: Key, i: nat) {
    j in s.slotOf && s.slotOf[j] == i && i < |s.slots| && s.slots[i].pinned && s.slots[i].key == j
  }

  /** The slot a new brick gets is never a pinned brick's. */
  lemma SlotForOther(d: Dims, volume: nat, s: Cache, j: Key, i: nat)
    requires SlotsOk(d, volume, s, {}) && PinnedAt(s, j, i)
    ensures SlotFor(s).Some? ==> SlotFor(s).value != i
    ensures s.free == [] && SlotFor(s).Some? ==> s.slots[SlotFor(s).value].key != j
  {
    hide Victim, InGrid;
    if s.free != [] {
      assert s.free[|s.free| - 1] in s.free;
    }
  }

  lemma PinnedAcquire(d: Dims, volume: nat, s: Cache, j: Key, i: nat)
    requires CacheInv(d, volume, s) && PinnedAt(s, j, i)
    ensures WellFormed(s.pages)
    ensures PinnedAt(Acquire(s), j, i)
  {
    hide Victim, WriteEntry, EntryOk, WellFormed;
    SlotForOther(d, volume, s, j, i);
  }

  lemma PinnedTouch(s: Cache, k: Key, j: Key, i: nat)
    requires PinnedAt(s, j, i) && (k in s.slotOf ==> s.slotOf[k] < |s.slots|)
    ensures PinnedAt(Touch(s, k), j, i)
  {
  }

  lemma PinnedCommit(d: Dims, s: Cache, slot: nat, k: Key, pinned: bool, occ: Occ, j: Key, i: nat)
    requires slot < |s.slots| == d.Count() && WellFormed(s.pages) && InGrid(s.pages, k.coord)
    requires PinnedAt(s, j, i) && slot != i && k != j
    ensures PinnedAt(Commit(d, s, slot, k, pinned, occ), j, i)
  {
    hide WellFormed, WriteEntry, EntryFor, InGrid;
  }

  lemma PinnedUpload(d: Dims, volume: nat, s: Cache, k: Key, pinned: bool, occ: Occ, j: Key, i: nat)
    requires CacheInv(d, volume, s) && k.volumeId == volume && InGrid(s.pages, k.coord) && PinnedAt(s, j, i)
    ensures PinnedAt(Upload(d, volume, s, k, pinned, occ), j, i)
  {
    hide Touch, Acquire, SlotFor, Commit, WellFormed, Addressable, EntryOk;
    if k in s.slotOf {
      TouchKeeps(d, volume, s, k);
      PinnedTouch(s, k, j, i);
    } else if SlotFor(s).Some? {
      AcquireKeeps(d, volume, s);
      SlotForOther(d, volume, s, j, i);
      PinnedAcquire(d, volume, s, j, i);
      PinnedCommit(d, Acquire(s), SlotFor(s).value, k, pinned, occ, j, i);
    }
  }

  lemma PinnedStays(d: Dims, volume: nat, s: Cache, ev: Event, j: Key, i: nat)
    requires CacheInv(d, volume, s) && Enabled(volume, s, ev) && PinnedAt(s, j, i)
    ensures PinnedAt(Apply(d, volume, s, ev), j, i)
  {
    hide CacheInv, WellFormed, Possible, Do, Upload, InGrid;
    match ev {
      case Uploads(k, pinned, occ) => PinnedUpload(d, volume, s, k, pinned, occ, j, i);
      case Touches(k) => TouchKeeps(d, volume, s, k);
      case _ =>
    }
  }

  /** A pinned brick keeps its slot through any run. */
  lemma {:induction false} PinnedForGood(d: Dims, volume: nat, s: Cache, run: seq<Event>, j: Key, i: nat)
    requires CacheInv(d, volume, s) && Allowed(d, volume, s, run) && PinnedAt(s, j, i)
    ensures PinnedAt(After(d, volume, s, run), j, i)
    decreases |run|
  {
    hide CacheInv, Apply, Enabled, PinnedAt;
    if run != [] {
      PinnedStays(d, volume, s, run[0], j, i);
      EventKeeps(d, volume, s, run[0]);
      PinnedForGood(d, volume, Apply(d, volume, s, run[0]), run[1..], j, i);
    }
  }

  // ---------- what the pages say about the slots ----------

  /** The event marks no brick empty that has a slot, and gives no brick a slot whose page entry the tile pool
      cannot serve. */
  ghost predicate Honest(s: Cache, ev: Event)
    requires WellFormed(s.pages)
  {
    match ev
    case Uploads(k, _, _) => InGrid(s.pages, k.coord) && (k in s.slotOf || SlotFor(s).None? || Writable(s.pages, k.coord))
    case Seeds(Marks(c)) => forall k | k in s.slotOf :: k.coord != c
    case _ => true
  }

  lemma BlankFound(d: Dims, volume: nat, s: Cache, st: Step)
    requires CacheInv(d, volume, s) && Found(d, volume, s) && st.Blanks? && Possible(s.pages, st)
    ensures CacheInv(d, volume, s.(pages := Do(s.pages, st))) && Found(d, volume, s.(pages := Do(s.pages, st)))
  {
    EventKeeps(d, volume, s, Seeds(st));
    var p, i := s.pages, Index(DirDims(s.pages.levels[st.level].grid), st.tile);
    assert !IsResident(0);
    hide ReadEntry, WellFormed, SlotOfEntry, EntryFor, BlankTile, DirIndex, Index, DirDims, EntriesOk, IsResident;
    forall k | k in s.slotOf ensures ReadEntry(Do(p, st), k.coord) == EntryFor(d, s.slotOf[k]) {
      assert InGrid(p, k.coord);
      EntryDecodes(d, s.slotOf[k]);
      BlankTileReads(p, st.level, i, k.coord);
    }
  }

  /** Where slots and pages agree, an event keeps them in agreement exactly when it is honest. */
  lemma HonestIff(d: Dims, volume: nat, s: Cache, ev: Event)
    requires CacheInv(d, volume, s) && Enabled(volume, s, ev) && Found(d, volume, s)
    ensures CacheInv(d, volume, Apply(d, volume, s, ev))
    ensures Found(d, volume, Apply(d, volume, s, ev)) <==> Honest(s, ev)
  {
    EventKeeps(d, volume, s, ev);
    hide ReadEntry, WellFormed, EntryFor, MarkEmpty, SlotsOk, EntriesOk, BlankTile, Upload, Writable, Index, DirDims;
    match ev {
      case Uploads(k, pinned, occ) => UploadFoundIff(d, volume, s, k, pinned, occ);
      case Seeds(Marks(c)) => MarkEmptyFoundIff(d, volume, s, c);
      case Seeds(Blanks(l, t)) => BlankFound(d, volume, s, Blanks(l, t));
      case Touches(k) => TouchPages(s, k);
      case _ =>
    }
  }

  /** With a tile for every directory entry uploads are always honest. */
  lemma RoomyIsHonest(volume: nat, s: Cache, ev: Event)
    requires WellFormed(s.pages) && Roomy(s.pages) && Enabled(volume, s, ev) && ev.Uploads?
    ensures Honest(s, ev)
  {
    RoomyNeverFails(s.pages, ev.key.coord);
  }

  ghost predicate AllHonest(d: Dims, volume: nat, s: Cache, run: seq<Event>)
    requires CacheInv(d, volume, s) && Allowed(d, volume, s, run)
    decreases |run|
  {
    run == [] || (Honest(s, run[0])
                  && (EventKeeps(d, volume, s, run[0]); AllHonest(d, volume, Apply(d, volume, s, run[0]), run[1..])))
  }

  /** Slots and pages agree at the start, at the end and after every event between. */
  ghost predicate AlwaysFound(d: Dims, volume: nat, s: Cache, run: seq<Event>)
    requires CacheInv(d, volume, s) && Allowed(d, volume, s, run)
    decreases |run|
  {
    Found(d, volume, s)
    && (run == [] || (EventKeeps(d, volume, s, run[0]);
                      AlwaysFound(d, volume, Apply(d, volume, s, run[0]), run[1..])))
  }

  /** Every resident brick's page entry leads to its slot all through a run exactly when every event is honest. */
  lemma {:induction false} AlwaysFoundIff(d: Dims, volume: nat, s: Cache, run: seq<Event>)
    requires CacheInv(d, volume, s) && Allowed(d, volume, s, run) && Found(d, volume, s)
    ensures AlwaysFound(d, volume, s, run) <==> AllHonest(d, volume, s, run)
    decreases |run|
  {
    hide CacheInv, Apply, Enabled, Found, Honest;
    if run != [] {
      EventKeeps(d, volume, s, run[0]);
      HonestIff(d, volume, s, run[0]);
      if Found(d, volume, Apply(d, volume, s, run[0])) {
        AlwaysFoundIff(d, volume, Apply(d, volume, s, run[0]), run[1..]);
      }
    }
  }

  lemma {:induction false} HonestRunFinds(d: Dims, volume: nat, s: Cache, run: seq<Event>)
    requires CacheInv(d, volume, s) && Allowed(d, volume, s, run) && AllHonest(d, volume, s, run) && Found(d, volume, s)
    ensures CacheInv(d, volume, After(d, volume, s, run)) && Found(d, volume, After(d, volume, s, run))
    decreases |run|
  {
    hide CacheInv, Apply, Enabled, Found, Honest;
    if run != [] {
      EventKeeps(d, volume, s, run[0]);
      HonestIff(d, volume, s, run[0]);
      HonestRunFinds(d, volume, Apply(d, volume, s, run[0]), run[1..]);
    }
  }
}
