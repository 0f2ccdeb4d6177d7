/** Seeding as a run of small steps on the page tables, with or without room in the tile pool. */
module SeedSteps {
  import opened Grid
  import opened BrickKeys
  import opened PageTable
  import opened PageSeeding

  /** Declares an unknown tile wholly empty in its directory, or marks one brick empty. */
  datatype Step = Blanks(level: nat, tile: Cell) | Marks(coord: Coord)

  ghost predicate Possible(p: Pages, st: Step) {
    WellFormed(p) &&
    match st
    case Blanks(l, t) =>
      && l < |p.levels| && t.Inside(DirDims(p.levels[l].grid))
      && var i := Index(DirDims(p.levels[l].grid), t); i < |p.levels[l].dir| && p.levels[l].dir[i] == UNKNOWN
    case Marks(c) => InGrid(p, c)
  }

  function Do(p: Pages, st: Step): Pages
    requires Possible(p, st)
  {
    match st
    case Blanks(l, t) => BlankTile(p, l, Index(DirDims(p.levels[l].grid), t))
    case Marks(c) => MarkEmpty(p, c)
  }

  /** Brick b is what the step is about. */
  predicate About(st: Step, b: Coord) {
    match st
    case Blanks(l, t) => b.level == l && DirCell(b) == t
    case Marks(c) => b == c
  }

  /** Tables of the same shape in which at most the bricks of `may` newly read as empty. */
  ghost predicate OnlyEmpties(p: Pages, p': Pages, may: Coord -> bool) {
    && WellFormed(p) && WellFormed(p') && SameShape(p, p')
    && forall b | InGrid(p, b) :: NewlyEmpty(p, p', may, b)
  }

  ghost predicate NewlyEmpty(p: Pages, p': Pages, may: Coord -> bool, b: Coord)
    requires WellFormed(p) && WellFormed(p') && SameShape(p, p') && InGrid(p, b)
  {
    || (ReadEntry(p', b) == ReadEntry(p, b) && ReadOcc(p', b) == ReadOcc(p, b))
    || (may(b) && ReadEntry(p', b) == EMPTY && ReadOcc(p', b) == NO_OCC)
  }

  function OnesAbout(st: Step): Coord -> bool {
    (b: Coord) => About(st, b)
  }

  /** A step makes at most the bricks it is about read as empty, whether or not a tile is to be had. */
  lemma StepKeeps(p: Pages, st: Step)
    requires Possible(p, st)
    ensures OnlyEmpties(p, Do(p, st), OnesAbout(st))
  {
    hide WellFormed, ReadEntry, ReadOcc, WriteEntry, BlankTile, Writable;
    match st {
      case Blanks(l, t) =>
        var grid := p.levels[l].grid;
        var i := Index(DirDims(grid), t);
        hide DirDims, DirIndex, Index;
        BlankTileKeeps(p, l, i);
        forall b | InGrid(p, b) ensures NewlyEmpty(p, Do(p, st), OnesAbout(st), b) {
          BlankTileReads(p, l, i, b);
          OwnTile(p.levels[b.level].grid, b, t);
        }
      case Marks(c) =>
        WriteEntryShape(p, c, EMPTY, NO_OCC);
        forall b | InGrid(p, b) ensures NewlyEmpty(p, Do(p, st), OnesAbout(st), b) {
          WriteEntryExact(p, c, EMPTY, NO_OCC, b);
        }
    }
  }

  lemma EmptiesSelf(p: Pages, may: Coord -> bool)
    requires WellFormed(p)
    ensures OnlyEmpties(p, p, may)
  {
  }

  lemma EmptiesJoin(p: Pages, q: Pages, r: Pages, one: Coord -> bool, may: Coord -> bool)
    requires OnlyEmpties(p, q, one) && OnlyEmpties(q, r, may) && forall b | InGrid(p, b) && one(b) :: may(b)
    ensures OnlyEmpties(p, r, may)
  {
    hide WellFormed, ReadEntry, ReadOcc;
    forall b | InGrid(p, b) ensures NewlyEmpty(p, r, may, b) {
      assert NewlyEmpty(p, q, one, b) && NewlyEmpty(q, r, may, b);
    }
  }

  // ---------- whole seedings ----------

  ghost predicate Leads(p: Pages, steps: seq<Step>, p': Pages)
    decreases |steps|
  {
    if steps == [] then p' == p
    else Possible(p, steps[0]) && Leads(Do(p, steps[0]), steps[1..], p')
  }

  lemma {:induction false} LeadsMore(p: Pages, steps: seq<Step>, p': Pages, st: Step)
    requires Leads(p, steps, p') && Possible(p', st)
    ensures Leads(p, steps + [st], Do(p', st))
    decreases |steps|
  {
    hide Possible, Do;
    if steps == [] {
      assert [] + [st] == [st];
      assert [st][1..] == [];
    } else {
      LeadsMore(Do(p, steps[0]), steps[1..], p', st);
      assert (steps + [st])[1..] == steps[1..] + [st];
    }
  }

  /** A step that seeding a level may take: on a brick that is empty, or a tile of nothing but empty bricks. */
  ghost predicate Justified(grid: Dims, level: nat, isEmpty: Cell -> bool, st: Step) {
    match st
    case Blanks(l, t) => l == level && forall c: Cell | InTileBox(grid, t, c) :: isEmpty(c)
    case Marks(c) => c.level == level && isEmpty(CellOf(c))
  }

  ghost predicate AllJustified(grid: Dims, level: nat, isEmpty: Cell -> bool, steps: seq<Step>) {
    forall st | st in steps :: Justified(grid, level, isEmpty, st)
  }

  /** p' comes from p by justified steps alone. */
  ghost predicate SeedsTo(p: Pages, p': Pages, level: nat, isEmpty: Cell -> bool) {
    && WellFormed(p) && level < |p.levels|
    && exists steps :: AllJustified(p.levels[level].grid, level, isEmpty, steps) && Leads(p, steps, p')
  }

  lemma SeedsNothing(p: Pages, level: nat, isEmpty: Cell -> bool)
    requires WellFormed(p) && level < |p.levels|
    ensures SeedsTo(p, p, level, isEmpty)
  {
    assert Leads(p, [], p);
  }

  lemma SeedsMore(p: Pages, p': Pages, level: nat, isEmpty: Cell -> bool, st: Step)
    requires SeedsTo(p, p', level, isEmpty) && Possible(p', st) && Justified(p.levels[level].grid, level, isEmpty, st)
    ensures SeedsTo(p, Do(p', st), level, isEmpty)
  {
    hide Possible, Do, Leads, Justified, WellFormed;
    var steps :| AllJustified(p.levels[level].grid, level, isEmpty, steps) && Leads(p, steps, p');
    LeadsMore(p, steps, p', st);
    assert AllJustified(p.levels[level].grid, level, isEmpty, steps + [st]);
  }

  lemma {:induction false} LeadsKeeps(p: Pages, steps: seq<Step>, p': Pages, level: nat, isEmpty: Cell -> bool)
    requires WellFormed(p) && level < |p.levels| && AllJustified(p.levels[level].grid, level, isEmpty, steps)
    requires Leads(p, steps, p')
    ensures OnlyEmpties(p, p', EmptyAt(level, isEmpty))
    decreases |steps|
  {
    var may := EmptyAt(level, isEmpty);
    hide WellFormed, Possible, Do, NewlyEmpty;
    if steps == [] {
      EmptiesSelf(p, may);
    } else {
      var st := steps[0];
      var q := Do(p, st);
      StepKeeps(p, st);
      assert Justified(p.levels[level].grid, level, isEmpty, st);
      assert forall s | s in steps[1..] :: s in steps;
      LeadsKeeps(q, steps[1..], p', level, isEmpty);
      forall b | InGrid(p, b) && OnesAbout(st)(b) ensures may(b) {
        if st.Blanks? {
          assert InTileBox(p.levels[level].grid, st.tile, CellOf(b));
        }
      }
      EmptiesJoin(p, q, p', OnesAbout(st), may);
    }
  }

  /** Whatever room there is, a seeding makes nothing but empty bricks of its level newly read as empty. */
  lemma SeedsToKeeps(p: Pages, p': Pages, level: nat, isEmpty: Cell -> bool)
    requires SeedsTo(p, p', level, isEmpty)
    ensures OnlyEmpties(p, p', EmptyAt(level, isEmpty))
  {
    hide OnlyEmpties, WellFormed;
    var steps :| AllJustified(p.levels[level].grid, level, isEmpty, steps) && Leads(p, steps, p');
    LeadsKeeps(p, steps, p', level, isEmpty);
  }
}
