/** Who keeps the pins: exactly when every published brick that is not given back stays in the cache, pinned. */
module PipelinePins {
  import opened BrickKeys
  import opened PipelineSpec
  import opened PipelineInv
  import opened PipelineSteps
  import opened PipelineRuns
  import LruSpec

  /** The pipeline owes the brick a pin: published and not released, or inserted and about to be published. */
  ghost predicate Owed(y: System, b: Brick) {
    b in y.pipe.world.held || (b.key in y.inserted && y.inserted[b.key] == b)
  }

  ghost predicate AllPinned(y: System) {
    forall b | Owed(y, b) :: Pinned(y.cache, b)
  }

  /** The entry of key k has a pin to spare. */
  ghost predicate Twice(l: Cache, k: Key) {
    exists e :: e in l && e.key == k && e.pins >= 2
  }

  /** The event takes no pin that is owed: an insert replaces a held brick only by itself, a release leaves no brick of
      its key owed or has a pin to spare, and other users of the cache replace or unpin an owed brick only likewise. */
  ghost predicate Spares(y: System, ev: Event) {
    match ev
    case Inserts(b) => forall h | h in y.pipe.world.held && h.key == b.key :: h == b
    case Releases(k) => Twice(y.cache, k) || (k !in y.inserted && !Holds(Minus(y.pipe.world.held, k), k))
    case OthersInsert(e) => forall b | Owed(y, b) && b.key == e.key :: e.value == b && e.pins >= 1
    case OthersUnpin(k) => Twice(y.cache, k) || (k !in y.inserted && !Holds(y.pipe.world.held, k))
    case _ => true
  }

  // ---------- what an insert and an unpin do to one key ----------

  lemma InsertPinnedIff(l: Cache, budget: nat, e: LruSpec.Entry<Key, Brick>, b: Brick)
    requires CacheOk(l) && b.key == e.key
    ensures Pinned(LruSpec.Insert(l, budget, e), b) <==> e.value == b && e.pins >= 1
  {
    var all := [e] + LruSpec.Without(l, e.key);
    LruSpec.WithoutHas(l, e.key);
    LruSpec.EvictMember(all, budget, e);
    if Pinned(LruSpec.Insert(l, budget, e), b) {
      var f :| f in LruSpec.Insert(l, budget, e) && f.key == b.key && f.value == b && f.pins >= 1;
      LruSpec.EvictMember(all, budget, f);
      assert f == e;
    }
  }

  lemma UnpinPinnedIff(l: Cache, b: Brick)
    requires CacheOk(l) && Pinned(l, b)
    ensures Pinned(LruSpec.Unpin(l, b.key), b) <==> Twice(l, b.key)
  {
    var e :| e in l && e.key == b.key && e.value == b && e.pins >= 1;
    var i :| 0 <= i < |l| && l[i] == e;
    LruSpec.FindAt(l, i);
    var l' := LruSpec.Unpin(l, b.key);
    assert l' == l[i := e.(pins := e.pins - 1)];
    assert l'[i] in l';
    if Pinned(l', b) {
      var f :| f in l' && f.key == b.key && f.value == b && f.pins >= 1;
      var j :| 0 <= j < |l'| && l'[j] == f;
      assert j == i;
    }
    if Twice(l, b.key) {
      var f :| f in l && f.key == b.key && f.pins >= 2;
      var j :| 0 <= j < |l| && l[j] == f;
      assert j == i;
    }
  }

  /** Unpinning k keeps all owed pins exactly if a pin of k is to spare or nothing of key k is owed. */
  lemma UnpinAllIff(y: System, y': System, k: Key)
    requires CacheOk(y.cache) && y'.cache == LruSpec.Unpin(y.cache, k)
    requires forall b | Owed(y', b) :: Pinned(y.cache, b)
    ensures AllPinned(y') <==> Twice(y.cache, k) || forall b | Owed(y', b) :: b.key != k
  {
    hide Owed, CacheOk, Pinned, LruSpec.Repin, Twice;
    RepinKeeps(y.cache, k, LruSpec.Fewer);
    forall b | Owed(y', b) && b.key == k ensures Pinned(y'.cache, b) <==> Twice(y.cache, k) {
      UnpinPinnedIff(y.cache, b);
    }
  }

  lemma {:induction false} MinusMembers(l: seq<Brick>, k: Key, b: Brick)
    ensures b in Minus(l, k) ==> b in l
    ensures b in l && b.key != k ==> b in Minus(l, k)
  {
    if l != [] {
      MinusMembers(l[1..], k, b);
    }
  }

  // ---------- one event ----------

  /** Only the cache may change, and no owed pin is touched, or nothing but the pipeline moves. */
  lemma SameOwed(y: System, y': System)
    requires AllPinned(y) && y'.pipe.world.held == y.pipe.world.held && y'.inserted == y.inserted
    requires forall b | Pinned(y.cache, b) :: Pinned(y'.cache, b)
    ensures AllPinned(y')
  {
    hide Pinned;
    forall b | Owed(y', b) ensures Pinned(y'.cache, b) {
      assert Owed(y, b);
    }
  }

  lemma PipeOnly(c: Config, budget: nat, y: System, ev: Event)
    requires SystemInv(c, y) && Enabled(y, ev)
    requires ev.Submits? || ev.Answers? || ev.DecodeFails? || ev.Drains? || ev.Unpins?
    ensures var y' := Apply(c, budget, y, ev);
            y'.pipe.world.held == y.pipe.world.held && y'.inserted == y.inserted && y'.cache == y.cache
  {
    hide Core, NotStuck, CacheOk, Pump, EnqueueAll;
    match ev {
      case Submits(wanted) => SubmitBackdrop(y.pipe, wanted); PumpCalm(c, BeforePump(y.pipe, wanted));
      case Answers(k, o) => AnswerCalm(c, y.pipe, k, o);
      case DecodeFails(k) => PumpCalm(c, EndDecode(y.pipe, k));
      case Unpins(k) => PumpCalm(c, GiveBack(c, y.pipe, k));
      case _ =>
    }
  }

  lemma InsertsIff(c: Config, budget: nat, y: System, b: Brick)
    requires SystemInv(c, y) && AllPinned(y) && Enabled(y, Inserts(b))
    ensures AllPinned(Apply(c, budget, y, Inserts(b))) <==> Spares(y, Inserts(b))
  {
    var e := LruSpec.Entry(b.key, b, b.voxelBytes, 1);
    var y' := Apply(c, budget, y, Inserts(b));
    hide Inv, CacheOk, Pinned, LruSpec.Insert;
    InsertKeeps(y.cache, budget, e);
    forall x | Owed(y', x) ensures Pinned(y'.cache, x) <==> x.key != b.key || x == b {
      if x.key == b.key {
        InsertPinnedIff(y.cache, budget, e, x);
      } else {
        assert Owed(y, x);
      }
    }
    if AllPinned(y') {
      forall h | h in y.pipe.world.held && h.key == b.key ensures h == b {
        assert Owed(y', h);
      }
    }
  }

  lemma OthersInsertIff(c: Config, budget: nat, y: System, e: LruSpec.Entry<Key, Brick>)
    requires SystemInv(c, y) && AllPinned(y)
    ensures AllPinned(Apply(c, budget, y, OthersInsert(e))) <==> Spares(y, OthersInsert(e))
  {
    var l, l' := y.cache, LruSpec.Insert(y.cache, budget, e);
    var y' := y.(cache := l');
    hide Inv, CacheOk, InsertedOk, Pinned, LruSpec.Insert, Owed;
    InsertKeeps(l, budget, e);
    forall b | Owed(y, b) ensures Pinned(l', b) <==> b.key != e.key || (e.value == b && e.pins >= 1) {
      if b.key == e.key {
        InsertPinnedIff(l, budget, e, b);
      }
    }
    forall b ensures Owed(y', b) <==> Owed(y, b) {
      OwedCache(y, l', b);
    }
  }

  lemma OwedCache(y: System, cache': Cache, b: Brick)
    ensures Owed(y.(cache := cache'), b) <==> Owed(y, b)
  {
  }

  lemma ReleasesIff(c: Config, budget: nat, y: System, k: Key)
    requires SystemInv(c, y) && AllPinned(y) && Enabled(y, Releases(k))
    ensures AllPinned(Apply(c, budget, y, Releases(k))) <==> Spares(y, Releases(k))
  {
    var y' := Apply(c, budget, y, Releases(k));
    var held' := Minus(y.pipe.world.held, k);
    DrainedIsHeld(y.pipe, k);
    assert y'.pipe.world.held == held';
    hide Inv, CacheOk, Pinned, LruSpec.Repin, Twice, Minus, Apply, Drained;
    assert y'.cache == LruSpec.Unpin(y.cache, k) && y'.inserted == y.inserted by { ReleaseApplied(c, budget, y, k); }
    forall b | Owed(y', b) ensures Owed(y, b) {
      MinusMembers(y.pipe.world.held, k, b);
    }
    UnpinAllIff(y, y', k);
    NoneOwed(y', k);
  }

  lemma ReleaseApplied(c: Config, budget: nat, y: System, k: Key)
    requires Enabled(y, Releases(k))
    ensures var y' := Apply(c, budget, y, Releases(k)); y'.cache == LruSpec.Unpin(y.cache, k) && y'.inserted == y.inserted
  {
  }

  lemma NoneOwed(y: System, k: Key)
    requires InsertedOk(y)
    ensures (forall b | Owed(y, b) :: b.key != k) <==> k !in y.inserted && !Holds(y.pipe.world.held, k)
  {
    var held := y.pipe.world.held;
    if forall b | Owed(y, b) :: b.key != k {
      if k in y.inserted {
        assert Owed(y, y.inserted[k]);
      }
      if i :| 0 <= i < |held| && held[i].key == k {
        assert Owed(y, held[i]);
      }
    } else {
      var b :| Owed(y, b) && b.key == k;
      if b in held {
        var i :| 0 <= i < |held| && held[i] == b;
        assert Holds(held, k);
      }
    }
  }

  lemma OthersUnpinIff(c: Config, budget: nat, y: System, k: Key)
    requires SystemInv(c, y) && AllPinned(y)
    ensures AllPinned(Apply(c, budget, y, OthersUnpin(k))) <==> Spares(y, OthersUnpin(k))
  {
    var y' := Apply(c, budget, y, OthersUnpin(k));
    hide Inv, CacheOk, Pinned, LruSpec.Repin, Twice;
    forall b | Owed(y', b) ensures Owed(y, b) {
    }
    UnpinAllIff(y, y', k);
    NoneOwed(y', k);
  }

  lemma PublishesKeep(c: Config, budget: nat, y: System, k: Key)
    requires SystemInv(c, y) && AllPinned(y) && Enabled(y, Publishes(k))
    ensures AllPinned(Apply(c, budget, y, Publishes(k)))
  {
    var s, b := y.pipe, y.inserted[k];
    var y' := Apply(c, budget, y, Publishes(k));
    hide Inv, CacheOk, Pinned, Pump;
    PumpCalm(c, Deliver(c, EndDecode(s, k), b));
    assert y'.pipe.world.held == s.world.held + [b];
    forall x | Owed(y', x) ensures Pinned(y'.cache, x) {
      assert Owed(y, x);
    }
  }

  /** Where every owed brick is pinned, an event keeps it so exactly when it spares the pins. */
  lemma PinsIff(c: Config, budget: nat, y: System, ev: Event)
    requires SystemInv(c, y) && AllPinned(y) && Enabled(y, ev)
    ensures AllPinned(Apply(c, budget, y, ev)) <==> Spares(y, ev)
  {
    hide Core, NotStuck, CacheOk, InsertedOk, AllPinned, Pinned, LruSpec.Get, LruSpec.Repin, LruSpec.Insert, Drained;
    match ev {
      case Inserts(b) => InsertsIff(c, budget, y, b);
      case Publishes(k) => PublishesKeep(c, budget, y, k);
      case Releases(k) => ReleasesIff(c, budget, y, k);
      case OthersInsert(e) => OthersInsertIff(c, budget, y, e);
      case OthersUnpin(k) => OthersUnpinIff(c, budget, y, k);
      case Looks(k) => GetKeeps(y.cache, k); SameOwed(y, Apply(c, budget, y, ev));
      case OthersPin(k) => RepinKeeps(y.cache, k, LruSpec.More); SameOwed(y, Apply(c, budget, y, ev));
      case _ => PipeOnly(c, budget, y, ev); SameOwed(y, Apply(c, budget, y, ev));
    }
  }

  // ---------- whole runs ----------

  ghost predicate AllSpare(c: Config, budget: nat, y: System, run: seq<Event>)
    requires Allowed(c, budget, y, run)
    decreases |run|
  {
    run == [] || (Spares(y, run[0]) && AllSpare(c, budget, Apply(c, budget, y, run[0]), run[1..]))
  }

  /** Every owed brick is pinned at the start, at the end and after every event between. */
  ghost predicate AlwaysPinned(c: Config, budget: nat, y: System, run: seq<Event>)
    requires Allowed(c, budget, y, run)
    decreases |run|
  {
    AllPinned(y) && (run == [] || AlwaysPinned(c, budget, Apply(c, budget, y, run[0]), run[1..]))
  }

  /** All through a run every owed brick is pinned exactly when every event spares the pins. */
  lemma {:induction false} AlwaysPinnedIff(c: Config, budget: nat, y: System, run: seq<Event>)
    requires SystemInv(c, y) && AllPinned(y) && c.Valid() && Allowed(c, budget, y, run)
    ensures AlwaysPinned(c, budget, y, run) <==> AllSpare(c, budget, y, run)
    decreases |run|
  {
    hide SystemInv, AllPinned, Enabled, Spares, Apply;
    if run != [] {
      EventKeeps(c, budget, y, run[0]);
      PinsIff(c, budget, y, run[0]);
      if Spares(y, run[0]) {
        AlwaysPinnedIff(c, budget, Apply(c, budget, y, run[0]), run[1..]);
      }
    }
  }

  lemma {:induction false} SpareRunKeeps(c: Config, budget: nat, y: System, run: seq<Event>)
    requires Allowed(c, budget, y, run) && AlwaysPinned(c, budget, y, run)
    ensures AllPinned(After(c, budget, y, run))
    decreases |run|
  {
    hide AllPinned, Enabled, Apply;
    if run != [] {
      SpareRunKeeps(c, budget, Apply(c, budget, y, run[0]), run[1..]);
    }
  }

  /** In every run from the start that spares the pins each published, unreleased brick is in the cache, pinned. */
  lemma EverySparingRunKeepsPins(c: Config, budget: nat, run: seq<Event>)
    requires c.Valid() && Allowed(c, budget, START, run) && AllSpare(c, budget, START, run)
    ensures AllPinned(After(c, budget, START, run))
  {
    InitInv(c);
    AlwaysPinnedIff(c, budget, START, run);
    SpareRunKeeps(c, budget, START, run);
  }
}
