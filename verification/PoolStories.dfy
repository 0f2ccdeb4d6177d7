/** What the cache remembers of a brick, told from the calls alone: the densities and the pin of the upload that gave it
    its slot, and the frame of its last use. */
module PoolStories {
  import opened Grid
  import opened Options
  import opened BrickKeys
  import opened PageTable
  import opened PageSeeding
  import opened SeedSteps
  import opened SlotPool
  import opened PoolRuns

  /** The current frame and what brick k was uploaded with when it last got a slot. */
  datatype Story = Story(frame: nat, occ: Occ, pinned: bool, touched: nat)

  /** How a call goes on with the story of brick k; uploading a brick that has a slot only touches it. */
  function Next(st: Story, ev: Event, k: Key, held: bool): Story {
    match ev
    case Uploads(j, pinned, occ) =>
      if j != k then st else if held then st.(touched := st.frame) else Story(st.frame, occ, pinned, st.frame)
    case Touches(j) => if j == k && held then st.(touched := st.frame) else st
    case Frames(n) => st.(frame := n)
    case Seeds(_) => st
  }

  ghost function StoryOf(d: Dims, volume: nat, s: Cache, run: seq<Event>, k: Key, st: Story): Story
    requires CacheInv(d, volume, s) && Allowed(d, volume, s, run)
    decreases |run|
  {
    if run == [] then st
    else
      EventKeeps(d, volume, s, run[0]);
      StoryOf(d, volume, Apply(d, volume, s, run[0]), run[1..], k, Next(st, run[0], k, k in s.slotOf))
  }

  /** A brick with a slot has its pin and last use from the story, its voxels in the slot's block and, where its page
      entry leads to the slot, the densities of its upload beside that entry. */
  ghost predicate True(d: Dims, volume: nat, s: Cache, k: Key, st: Story)
    requires CacheInv(d, volume, s)
  {
    && s.frame == st.frame
    && (k in s.slotOf ==>
          && s.slotOf[k] < |s.slots| && s.slots[s.slotOf[k]] == Slot(k, true, st.pinned, st.touched)
          && s.slotOf[k] in s.voxels && s.voxels[s.slotOf[k]] == k
          && InGrid(s.pages, k.coord)
          && (ReadEntry(s.pages, k.coord) == EntryFor(d, s.slotOf[k]) ==> ReadOcc(s.pages, k.coord) == st.occ))
  }

  // ---------- uploads ----------

  /** An upload that brings in brick j leaves a brick that keeps its slot as it was. */
  lemma Bystander(d: Dims, volume: nat, s: Cache, j: Key, pinned: bool, occ: Occ, k: Key, st: Story)
    requires CacheInv(d, volume, s) && j.volumeId == volume && InGrid(s.pages, j.coord) && True(d, volume, s, k, st)
    requires j !in s.slotOf && SlotFor(s).Some? && k != j
    ensures CacheInv(d, volume, Upload(d, volume, s, j, pinned, occ))
    ensures True(d, volume, Upload(d, volume, s, j, pinned, occ), k, st)
  {
    hide ReadEntry, ReadOcc, WellFormed, WriteEntry, EntryFor, SlotOfEntry, EntriesOk, Victim, Upload;
    UploadKeeps(d, volume, s, j, pinned, occ);
    var s' := Upload(d, volume, s, j, pinned, occ);
    assert s'.frame == s.frame by { FrameSame(d, volume, s, j, pinned, occ); }
    if k in s'.slotOf {
      StillHeld(d, volume, s, j, pinned, occ, k);
      BystanderSlot(d, volume, s, j, pinned, occ, k);
      BystanderReads(d, volume, s, j, pinned, occ, k.coord);
    }
  }

  lemma FrameSame(d: Dims, volume: nat, s: Cache, j: Key, pinned: bool, occ: Occ)
    requires CacheInv(d, volume, s) && j.volumeId == volume && InGrid(s.pages, j.coord)
    ensures Upload(d, volume, s, j, pinned, occ).frame == s.frame
  {
    AcquireKeeps(d, volume, s);
    hide ReadEntry, WellFormed, WriteEntry, EntriesOk, EntryFor, InGrid, Victim, SlotsOk;
  }

  lemma BystanderSlot(d: Dims, volume: nat, s: Cache, j: Key, pinned: bool, occ: Occ, k: Key)
    requires CacheInv(d, volume, s) && j.volumeId == volume && InGrid(s.pages, j.coord)
    requires j !in s.slotOf && SlotFor(s).Some? && k != j && k in Upload(d, volume, s, j, pinned, occ).slotOf
    ensures var s' := Upload(d, volume, s, j, pinned, occ);
            && k in s.slotOf && s'.slotOf[k] == s.slotOf[k] < |s.slots| == |s'.slots|
            && s'.slots[s.slotOf[k]] == s.slots[s.slotOf[k]]
            && s.slotOf[k] in s'.voxels && s'.voxels[s.slotOf[k]] == k
  {
    hide ReadEntry, ReadOcc, WellFormed, WriteEntry, EntryFor, EntriesOk, Victim;
    UploadKeeps(d, volume, s, j, pinned, occ);
    AcquireKeeps(d, volume, s);
    StillHeld(d, volume, s, j, pinned, occ, k);
  }

  lemma BystanderReads(d: Dims, volume: nat, s: Cache, j: Key, pinned: bool, occ: Occ, c: Coord)
    requires CacheInv(d, volume, s) && j.volumeId == volume && InGrid(s.pages, j.coord) && InGrid(s.pages, c)
    requires j !in s.slotOf && SlotFor(s).Some? && SlotFor(s).value < |s.slots| && c != j.coord
    requires s.free == [] ==> c != s.slots[SlotFor(s).value].key.coord
    ensures var p' := Upload(d, volume, s, j, pinned, occ).pages;
            && WellFormed(p') && InGrid(p', c)
            && ReadEntry(p', c) == ReadEntry(s.pages, c) && ReadOcc(p', c) == ReadOcc(s.pages, c)
  {
    hide ReadEntry, ReadOcc, WellFormed, WriteEntry, EntryFor, EntriesOk, Victim, Writable;
    AcquireKeeps(d, volume, s);
    var s1, i := Acquire(s), SlotFor(s).value;
    if s.free == [] {
      WriteEntryExact(s.pages, s.slots[i].key.coord, 0, Occ(0, 255), c);
    }
    hide SlotsOk;
    WriteEntryExact(s1.pages, j.coord, EntryFor(d, i), occ, c);
  }

  /** Where a resident entry reads as written, so do the densities beside it. */
  lemma WrittenBeside(p: Pages, c: Coord, value: nat, occ: Occ)
    requires WellFormed(p) && InGrid(p, c) && IsResident(value)
    ensures var p' := WriteEntry(p, c, value, occ);
            WellFormed(p') && InGrid(p', c) && (ReadEntry(p', c) == value ==> ReadOcc(p', c) == occ)
  {
    hide ReadEntry, ReadOcc, WellFormed, WriteEntry, Writable, IsResident;
    WriteEntryExact(p, c, value, occ, c);
    if !Writable(p, c) {
      UnwritableReads(p, c);
    }
  }

  /** The brick brought in starts a new story. */
  lemma Newcomer(d: Dims, volume: nat, s: Cache, k: Key, pinned: bool, occ: Occ)
    requires CacheInv(d, volume, s) && k.volumeId == volume && InGrid(s.pages, k.coord)
    requires k !in s.slotOf && SlotFor(s).Some?
    ensures CacheInv(d, volume, Upload(d, volume, s, k, pinned, occ))
    ensures True(d, volume, Upload(d, volume, s, k, pinned, occ), k, Story(s.frame, occ, pinned, s.frame))
  {
    hide ReadEntry, ReadOcc, WellFormed, WriteEntry, EntryFor, SlotOfEntry, EntriesOk, IsResident, CacheInv, Acquire, SlotFor;
    UploadKeeps(d, volume, s, k, pinned, occ);
    var s1, i := Acquired(d, volume, s, k);
    EntryDecodes(d, i);
    WrittenBeside(s1.pages, k.coord, EntryFor(d, i), occ);
  }

  /** If brick k's page entry leads to its slot, the densities beside that entry are occ. */
  ghost predicate ReadsUpload(d: Dims, s: Cache, k: Key, occ: Occ)
    requires k in s.slotOf
  {
    && s.slotOf[k] < d.Count() && WellFormed(s.pages) && InGrid(s.pages, k.coord)
    && (ReadEntry(s.pages, k.coord) == EntryFor(d, s.slotOf[k]) ==> ReadOcc(s.pages, k.coord) == occ)
  }

  lemma TrueReads(d: Dims, volume: nat, s: Cache, k: Key, st: Story)
    requires CacheInv(d, volume, s) && True(d, volume, s, k, st) && k in s.slotOf
    ensures ReadsUpload(d, s, k, st.occ)
  {
    hide ReadEntry, ReadOcc, WellFormed, EntryOk, EntryFor;
  }

  lemma NewDensities(d: Dims, volume: nat, s: Cache, k: Key, pinned: bool, occ: Occ)
    requires CacheInv(d, volume, s) && k.volumeId == volume && InGrid(s.pages, k.coord)
    requires k !in s.slotOf && SlotFor(s).Some?
    ensures var s' := Upload(d, volume, s, k, pinned, occ); k in s'.slotOf ==> ReadsUpload(d, s', k, occ)
  {
    hide CacheInv, True, ReadsUpload, Upload;
    Newcomer(d, volume, s, k, pinned, occ);
    if k in Upload(d, volume, s, k, pinned, occ).slotOf {
      TrueReads(d, volume, Upload(d, volume, s, k, pinned, occ), k, Story(s.frame, occ, pinned, s.frame));
    }
  }

  lemma Acquired(d: Dims, volume: nat, s: Cache, k: Key) returns (s1: Cache, i: nat)
    requires CacheInv(d, volume, s) && SlotFor(s).Some? && InGrid(s.pages, k.coord)
    ensures WellFormed(s.pages) && s1 == Acquire(s) && SlotFor(s) == Some(i)
    ensures i < |s1.slots| == d.Count() && WellFormed(s1.pages) && InGrid(s1.pages, k.coord) && s1.frame == s.frame
    ensures Addressable(d)
  {
    AcquireKeeps(d, volume, s);
    s1, i := Acquire(s), SlotFor(s).value;
    hide WellFormed, EntryOk, WriteEntry;
  }

  lemma TouchStory(d: Dims, volume: nat, s: Cache, j: Key, k: Key, st: Story)
    requires CacheInv(d, volume, s) && True(d, volume, s, k, st)
    ensures j in s.slotOf ==> s.slotOf[j] < |s.slots|
    ensures CacheInv(d, volume, Touch(s, j))
    ensures True(d, volume, Touch(s, j), k, if j == k && k in s.slotOf then st.(touched := st.frame) else st)
  {
    TouchKeeps(d, volume, s, j);
    hide ReadEntry, ReadOcc, WellFormed, EntryFor, EntriesOk;
  }

  lemma UploadStory(d: Dims, volume: nat, s: Cache, j: Key, pinned: bool, occ: Occ, k: Key, st: Story)
    requires CacheInv(d, volume, s) && j.volumeId == volume && InGrid(s.pages, j.coord) && True(d, volume, s, k, st)
    ensures CacheInv(d, volume, Upload(d, volume, s, j, pinned, occ))
    ensures True(d, volume, Upload(d, volume, s, j, pinned, occ), k, Next(st, Uploads(j, pinned, occ), k, k in s.slotOf))
  {
    UploadKeeps(d, volume, s, j, pinned, occ);
    if j in s.slotOf {
      TouchStory(d, volume, s, j, k, st);
    } else if SlotFor(s).Some? {
      if j == k {
        Newcomer(d, volume, s, k, pinned, occ);
        hide CacheInv;
      } else {
        Bystander(d, volume, s, j, pinned, occ, k, st);
        hide CacheInv;
      }
    }
  }

  // ---------- seeding ----------

  /** Where a resident entry is read after a seeding step it was read before, with the same densities. */
  lemma SeedReads(p: Pages, step: Step, c: Coord, value: nat)
    requires Possible(p, step) && InGrid(p, c) && IsResident(value)
    ensures var p' := Do(p, step);
            && WellFormed(p) && WellFormed(p') && InGrid(p', c)
            && (ReadEntry(p', c) == value ==> ReadEntry(p, c) == value && ReadOcc(p', c) == ReadOcc(p, c))
  {
    EmptyIsNotResident();
    StepKeeps(p, step);
    hide ReadEntry, ReadOcc, WellFormed, Do, Possible, IsResident;
    assert NewlyEmpty(p, Do(p, step), OnesAbout(step), c);
  }

  lemma SeedStory(d: Dims, volume: nat, s: Cache, step: Step, k: Key, st: Story)
    requires CacheInv(d, volume, s) && Possible(s.pages, step) && True(d, volume, s, k, st)
    ensures CacheInv(d, volume, s.(pages := Do(s.pages, step)))
    ensures True(d, volume, s.(pages := Do(s.pages, step)), k, st)
  {
    assert CacheInv(d, volume, s.(pages := Do(s.pages, step))) by { EventKeeps(d, volume, s, Seeds(step)); }
    if k in s.slotOf {
      assert IsResident(EntryFor(d, s.slotOf[k])) by { EntryDecodes(d, s.slotOf[k]); }
      SeedReads(s.pages, step, k.coord, EntryFor(d, s.slotOf[k]));
    }
    hide ReadEntry, ReadOcc, WellFormed, Do, Possible, EntryFor, SlotsOk, EntriesOk, IsResident;
  }

  lemma EmptyIsNotResident()
    ensures !IsResident(EMPTY)
  {
  }

  // ---------- runs ----------

  lemma EventStory(d: Dims, volume: nat, s: Cache, ev: Event, k: Key, st: Story)
    requires CacheInv(d, volume, s) && Enabled(volume, s, ev) && True(d, volume, s, k, st)
    ensures CacheInv(d, volume, Apply(d, volume, s, ev))
    ensures True(d, volume, Apply(d, volume, s, ev), k, Next(st, ev, k, k in s.slotOf))
  {
    hide ReadEntry, ReadOcc, WellFormed, SlotsOk, EntriesOk, Upload, Touch, Do, Possible, EntryFor;
    EventKeeps(d, volume, s, ev);
    match ev {
      case Uploads(j, pinned, occ) => UploadStory(d, volume, s, j, pinned, occ, k, st);
      case Touches(j) => TouchStory(d, volume, s, j, k, st);
      case Frames(n) =>
      case Seeds(step) => SeedStory(d, volume, s, step, k, st);
    }
  }

  /** Through any run, with or without tiles to be had, the cache tells every brick's story true. */
  lemma {:induction false} EveryStoryIsTrue(d: Dims, volume: nat, s: Cache, run: seq<Event>, k: Key, st: Story)
    requires CacheInv(d, volume, s) && Allowed(d, volume, s, run) && True(d, volume, s, k, st)
    ensures CacheInv(d, volume, After(d, volume, s, run))
    ensures True(d, volume, After(d, volume, s, run), k, StoryOf(d, volume, s, run, k, st))
    decreases |run|
  {
    hide CacheInv, Apply, Enabled, True, Next;
    if run != [] {
      EventKeeps(d, volume, s, run[0]);
      EventStory(d, volume, s, run[0], k, st);
      EveryStoryIsTrue(d, volume, Apply(d, volume, s, run[0]), run[1..], k, Next(st, run[0], k, k in s.slotOf));
    }
  }

  /** From a state in which it has no slot: a brick that is found reads the densities it was uploaded with. */
  lemma FoundReadsItsUpload(d: Dims, volume: nat, s: Cache, run: seq<Event>, k: Key)
    requires CacheInv(d, volume, s) && Allowed(d, volume, s, run) && k !in s.slotOf
    ensures CacheInv(d, volume, After(d, volume, s, run))
    ensures var s', st := After(d, volume, s, run), StoryOf(d, volume, s, run, k, Story(s.frame, NO_OCC, false, 0));
            k in s'.slotOf ==>
              && s'.slotOf[k] < |s'.slots| && ReadsUpload(d, s', k, st.occ)
              && s'.slots[s'.slotOf[k]].pinned == st.pinned && s'.slots[s'.slotOf[k]].lastTouched == st.touched
  {
    hide CacheInv, ReadsUpload, ReadEntry, ReadOcc, EntryFor;
    EveryStoryIsTrue(d, volume, s, run, k, Story(s.frame, NO_OCC, false, 0));
    if k in After(d, volume, s, run).slotOf {
      TrueReads(d, volume, After(d, volume, s, run), k, StoryOf(d, volume, s, run, k, Story(s.frame, NO_OCC, false, 0)));
    }
  }

  // ---------- in which order slots are used ----------

  /** The slots never used are the last ones, the lowest of them next. */
  ghost predicate FreshLeft(s: Cache) {
    |s.free| <= |s.slots| && forall j :: 0 <= j < |s.free| ==> s.free[j] == |s.slots| - 1 - j
  }

  lemma FreshKept(d: Dims, volume: nat, s: Cache, ev: Event)
    requires CacheInv(d, volume, s) && Enabled(volume, s, ev) && FreshLeft(s)
    ensures FreshLeft(Apply(d, volume, s, ev)) && |Apply(d, volume, s, ev).slots| == |s.slots|
  {
    hide CacheInv, Do, Possible, Upload;
    match ev {
      case Uploads(j, pinned, occ) => UploadFree(d, volume, s, j, pinned, occ);
      case Touches(j) => TouchKeeps(d, volume, s, j);
      case _ =>
    }
  }

  /** An upload takes at most the last of the free slots. */
  lemma UploadFree(d: Dims, volume: nat, s: Cache, k: Key, pinned: bool, occ: Occ)
    requires CacheInv(d, volume, s) && k.volumeId == volume && InGrid(s.pages, k.coord)
    ensures var s' := Upload(d, volume, s, k, pinned, occ);
            && |s'.slots| == |s.slots|
            && (s'.free == s.free || (s.free != [] && s'.free == s.free[..|s.free| - 1]))
  {
    AcquireKeeps(d, volume, s);
    hide ReadEntry, ReadOcc, WellFormed, WriteEntry, EntriesOk, EntryFor, InGrid, Victim, SlotsOk;
  }

  /** From a new cache on, until a brick has to give up its slot, bricks get the slots 0, 1, 2 and so on. */
  lemma {:induction false} SlotsInTurn(d: Dims, volume: nat, s: Cache, run: seq<Event>)
    requires CacheInv(d, volume, s) && Allowed(d, volume, s, run) && FreshLeft(s)
    ensures var s' := After(d, volume, s, run);
            && |s'.slots| == |s.slots| && |s'.free| <= |s'.slots|
            && (s'.free != [] ==> SlotFor(s') == Some(|s'.slots| - |s'.free|))
    decreases |run|
  {
    hide CacheInv, Apply, Enabled;
    if run != [] {
      EventKeeps(d, volume, s, run[0]);
      FreshKept(d, volume, s, run[0]);
      SlotsInTurn(d, volume, Apply(d, volume, s, run[0]), run[1..]);
    }
  }
}
