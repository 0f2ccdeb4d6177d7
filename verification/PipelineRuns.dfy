/** Whole runs: the pipeline's critical sections interleaved with the shared RAM cache's. */
module PipelineRuns {
  import opened BrickKeys
  import opened PipelineSpec
  import opened PipelineInv
  import opened PipelineSteps
  import LruSpec

  type Cache = seq<LruSpec.Entry<Key, Brick>>

  /** `inserted` holds the bricks whose pinned insert has happened and whose publishing has not. */
  datatype System = System(pipe: State, cache: Cache, inserted: map<Key, Brick>)

  datatype Event =
    | Submits(wanted: seq<Request>)
    | Answers(key: Key, outcome: Outcome)   // the store's callback
    | DecodeFails(key: Key)
    | Inserts(brick: Brick)                 // decode done: pinned insert into the cache ...
    | Publishes(key: Key)                   // ... then the brick is made ready
    | Drains
    | Releases(key: Key)                    // unpin, first half: in the cache ...
    | Unpins(key: Key)                      // ... second half: in the pipeline
    | Looks(key: Key)                       // any user of the cache reads a brick
    | OthersInsert(entry: LruSpec.Entry<Key, Brick>)
    | OthersPin(key: Key)
    | OthersUnpin(key: Key)

  /** When an event can happen. The fields of submitted keys fit their widths, and a brick is unpinned once for
      every time it was drained; nothing else is asked of the callers. */
  ghost predicate Enabled(y: System, ev: Event) {
    match ev
    case Submits(wanted) => AllFit(wanted)
    case Answers(k, _) => k in y.pipe.world.fetches
    case DecodeFails(k) => k in y.pipe.world.jobs && k !in y.inserted
    case Inserts(b) => b.key in y.pipe.world.jobs && b.key !in y.inserted
    case Publishes(k) => k in y.inserted
    case Drains => true
    case Releases(k) => Drained(y.pipe, k)
    case Unpins(k) => Holds(y.pipe.world.releasing, k)
    case _ => true
  }

  ghost function Apply(c: Config, budget: nat, y: System, ev: Event): System
    requires Enabled(y, ev)
  {
    match ev
    case Submits(wanted) => y.(pipe := Submit(c, y.pipe, wanted))
    case Answers(k, o) => y.(pipe := FetchDone(c, y.pipe, k, o))
    case DecodeFails(k) => y.(pipe := DecodeFailed(c, y.pipe, k))
    case Inserts(b) =>
      y.(cache := LruSpec.Insert(y.cache, budget, LruSpec.Entry(b.key, b, b.voxelBytes, 1)),
         inserted := y.inserted[b.key := b])
    case Publishes(k) => y.(pipe := Publish(c, y.pipe, y.inserted[k]), inserted := y.inserted - {k})
    case Drains => y.(pipe := Drain(y.pipe))
    case Releases(k) => DrainedIsHeld(y.pipe, k); y.(pipe := Release(y.pipe, k), cache := LruSpec.Unpin(y.cache, k))
    case Unpins(k) => y.(pipe := Unpin(c, y.pipe, k))
    case Looks(k) => y.(cache := LruSpec.Get(y.cache, k))
    case OthersInsert(e) => y.(cache := LruSpec.Insert(y.cache, budget, e))
    case OthersPin(k) => y.(cache := LruSpec.Pin(y.cache, k))
    case OthersUnpin(k) => y.(cache := LruSpec.Unpin(y.cache, k))
  }

  // ---------- the cache side ----------

  /** The cache holds b itself, pinned. */
  ghost predicate Pinned(l: Cache, b: Brick) {
    exists e :: e in l && e.key == b.key && e.value == b && e.pins >= 1
  }

  ghost predicate CacheOk(l: Cache) {
    LruSpec.DistinctKeys(l)
  }

  lemma GetKeeps(l: Cache, k: Key)
    requires CacheOk(l)
    ensures CacheOk(LruSpec.Get(l, k))
    ensures forall b | Pinned(l, b) :: Pinned(LruSpec.Get(l, k), b)
  {
    LruSpec.WithoutHas(l, k);
    forall b | Pinned(l, b) ensures Pinned(LruSpec.Get(l, k), b) {
      var e :| e in l && e.key == b.key && e.value == b && e.pins >= 1;
      assert e.key != k ==> e in LruSpec.Without(l, k);
      assert e in LruSpec.Get(l, k);
    }
  }

  lemma InsertKeeps(l: Cache, budget: nat, e: LruSpec.Entry<Key, Brick>)
    requires CacheOk(l)
    ensures CacheOk(LruSpec.Insert(l, budget, e))
    ensures forall b | Pinned(l, b) && b.key != e.key :: Pinned(LruSpec.Insert(l, budget, e), b)
    ensures e.pins >= 1 && e.key == e.value.key ==> Pinned(LruSpec.Insert(l, budget, e), e.value)
  {
    LruSpec.WithoutHas(l, e.key);
    var all := [e] + LruSpec.Without(l, e.key);
    LruSpec.EvictDistinct(all, budget);
    LruSpec.EvictMember(all, budget, e);
    forall b | Pinned(l, b) && b.key != e.key ensures Pinned(LruSpec.Insert(l, budget, e), b) {
      var f :| f in l && f.key == b.key && f.value == b && f.pins >= 1;
      assert f in LruSpec.Without(l, e.key);
      LruSpec.EvictMember(all, budget, f);
    }
  }

  lemma RepinKeeps(l: Cache, k: Key, pins: nat -> nat)
    requires CacheOk(l)
    ensures CacheOk(LruSpec.Repin(l, k, pins))
    ensures forall b | Pinned(l, b) && b.key != k :: Pinned(LruSpec.Repin(l, k, pins), b)
    ensures (forall p: nat | p >= 1 :: pins(p) >= 1) ==> forall b | Pinned(l, b) :: Pinned(LruSpec.Repin(l, k, pins), b)
  {
    var l' := LruSpec.Repin(l, k, pins);
    forall b | Pinned(l, b) && (b.key != k || forall p: nat | p >= 1 :: pins(p) >= 1) ensures Pinned(l', b) {
      var e :| e in l && e.key == b.key && e.value == b && e.pins >= 1;
      var i :| 0 <= i < |l| && l[i] == e;
      assert l'[i] in l';
    }
  }

  // ---------- the invariants ----------

  ghost predicate InsertedOk(y: System) {
    forall k | k in y.inserted :: y.inserted[k].key == k && InPhase(y.pipe, k, Decoding)
  }

  /** What every run keeps, whatever is submitted and whatever others do to the cache. */
  ghost predicate SystemInv(c: Config, y: System) {
    Inv(c, y.pipe) && CacheOk(y.cache) && InsertedOk(y)
  }

  /** Nothing gets tracked that was not, and decoding keys keep decoding, apart from `gone`. */
  ghost predicate Calm(s: State, s': State, gone: set<Key>) {
    && (forall k | k in s'.tracked :: k in s.tracked)
    && (forall k | InPhase(s, k, Decoding) && k !in gone :: InPhase(s', k, Decoding))
  }

  lemma PumpCalm(c: Config, s: State)
    ensures Calm(s, Pump(c, s), {}) && SameBackdrop(s, Pump(c, s))
  {
    PumpEffect(c, s);
    forall k ensures k in Pump(c, s).tracked ==> k in s.tracked {
      assert KeyPumped(s, Pump(c, s), k);
    }
    forall k | InPhase(s, k, Decoding) ensures InPhase(Pump(c, s), k, Decoding) {
      assert KeyPumped(s, Pump(c, s), k);
    }
  }

  // ---------- every event keeps the system invariant ----------

  /** Pipeline steps that end no decoding but those `gone`. */
  lemma PipeStep(c: Config, y: System, pipe': State, gone: set<Key>)
    requires SystemInv(c, y) && Inv(c, pipe') && Calm(y.pipe, pipe', gone)
    requires forall k | k in gone :: k !in y.inserted
    ensures SystemInv(c, y.(pipe := pipe'))
  {
  }

  lemma SubmitEvent(c: Config, y: System, wanted: seq<Request>)
    requires SystemInv(c, y) && c.Valid() && AllFit(wanted)
    ensures SystemInv(c, y.(pipe := Submit(c, y.pipe, wanted)))
  {
    var s, s1 := y.pipe, NewEpoch(y.pipe, wanted);
    var s', mid := Submit(c, s, wanted), BeforePump(s, wanted);
    hide Inv, Pump, CacheOk, EnqueueAll, KeyPumped;
    SubmitKeeps(c, s, wanted);
    PumpCalm(c, mid);
    forall k | InPhase(s, k, Decoding) ensures InPhase(s', k, Decoding) {
      EnqueueAllKey(s1, wanted, k);
      assert InPhase(mid, k, Decoding);
    }
  }

  lemma SubmitBackdrop(s: State, wanted: seq<Request>)
    ensures BeforePump(s, wanted).world.held == s.world.held && BeforePump(s, wanted).ready == s.ready
  {
    EnqueueBackdrop(NewEpoch(s, wanted), wanted);
  }

  lemma {:induction false} EnqueueBackdrop(s: State, wanted: seq<Request>)
    ensures SameRest(s, EnqueueAll(s, wanted))
  {
    if wanted != [] {
      EnqueueBackdrop(s, wanted[..|wanted| - 1]);
    }
  }

  lemma AnswerEvent(c: Config, y: System, k: Key, o: Outcome)
    requires SystemInv(c, y) && c.Valid() && k in y.pipe.world.fetches
    ensures SystemInv(c, y.(pipe := FetchDone(c, y.pipe, k, o)))
  {
    hide Core, Pump, CacheOk, InsertedOk, NotStuck;
    FetchDoneKeeps(c, y.pipe, k, o);
    AnswerCalm(c, y.pipe, k, o);
    PipeStep(c, y, FetchDone(c, y.pipe, k, o), {});
  }

  lemma AnswerCalm(c: Config, s: State, k: Key, o: Outcome)
    requires Inv(c, s) && k in s.world.fetches
    ensures Calm(s, FetchDone(c, s, k, o), {})
    ensures FetchDone(c, s, k, o).world.held == s.world.held && FetchDone(c, s, k, o).ready == s.ready
  {
    hide Core, Pump, NotStuck;
    CallbackFindsKey(c, s, k);
    PumpCalm(c, Erase(FetchReturned(s, k), k));
  }

  lemma DecodeFailEvent(c: Config, y: System, k: Key)
    requires SystemInv(c, y) && c.Valid() && k in y.pipe.world.jobs && k !in y.inserted
    ensures SystemInv(c, y.(pipe := DecodeFailed(c, y.pipe, k)))
  {
    hide Inv, Pump, CacheOk, InsertedOk;
    DecodeFailedKeeps(c, y.pipe, k);
    PumpCalm(c, EndDecode(y.pipe, k));
    PipeStep(c, y, DecodeFailed(c, y.pipe, k), {k});
  }

  lemma InsertEvent(c: Config, budget: nat, y: System, b: Brick)
    requires SystemInv(c, y) && b.key in y.pipe.world.jobs && b.key !in y.inserted
    ensures SystemInv(c, y.(cache := LruSpec.Insert(y.cache, budget, LruSpec.Entry(b.key, b, b.voxelBytes, 1)),
                            inserted := y.inserted[b.key := b]))
  {
    JobFindsKey(c, y.pipe, b.key);
    hide Inv, CacheOk, LruSpec.Insert;
    InsertKeeps(y.cache, budget, LruSpec.Entry(b.key, b, b.voxelBytes, 1));
  }

  lemma InsertedIsJob(c: Config, y: System, k: Key)
    requires SystemInv(c, y) && k in y.inserted
    ensures y.inserted[k].key == k && k in y.pipe.world.jobs
  {
    assert y.pipe.world.jobs[k] == 1;
  }

  lemma PublishEvent(c: Config, y: System, k: Key)
    requires SystemInv(c, y) && c.Valid() && k in y.inserted
    ensures SystemInv(c, y.(pipe := Publish(c, y.pipe, y.inserted[k]), inserted := y.inserted - {k}))
  {
    hide Inv, CacheOk, Pump;
    var s, b := y.pipe, y.inserted[k];
    InsertedIsJob(c, y, k);
    PublishKeeps(c, s, b);
    PumpCalm(c, Deliver(c, EndDecode(s, k), b));
  }

  lemma ReleaseEvent(c: Config, y: System, k: Key)
    requires SystemInv(c, y) && Drained(y.pipe, k)
    ensures Holds(y.pipe.world.held, k)
    ensures SystemInv(c, y.(pipe := Release(y.pipe, k), cache := LruSpec.Unpin(y.cache, k)))
  {
    hide Inv, CacheOk, LruSpec.Repin, Drained;
    DrainedIsHeld(y.pipe, k);
    ReleaseKeeps(c, y.pipe, k);
    RepinKeeps(y.cache, k, LruSpec.Fewer);
  }

  lemma UnpinEvent(c: Config, y: System, k: Key)
    requires SystemInv(c, y) && c.Valid() && Holds(y.pipe.world.releasing, k)
    ensures SystemInv(c, y.(pipe := Unpin(c, y.pipe, k)))
  {
    hide Inv, Pump, CacheOk, InsertedOk;
    UnpinKeeps(c, y.pipe, k);
    PumpCalm(c, GiveBack(c, y.pipe, k));
    PipeStep(c, y, Unpin(c, y.pipe, k), {});
  }

  lemma CacheEvent(c: Config, budget: nat, y: System, ev: Event)
    requires SystemInv(c, y) && Enabled(y, ev)
    requires ev.Looks? || ev.OthersInsert? || ev.OthersPin? || ev.OthersUnpin?
    ensures SystemInv(c, Apply(c, budget, y, ev))
  {
    hide Inv, Pinned, CacheOk, InsertedOk, LruSpec.Get, LruSpec.Insert, LruSpec.Repin;
    match ev {
      case Looks(k) => GetKeeps(y.cache, k);
      case OthersInsert(e) => InsertKeeps(y.cache, budget, e);
      case OthersPin(k) => RepinKeeps(y.cache, k, LruSpec.More);
      case OthersUnpin(k) => RepinKeeps(y.cache, k, LruSpec.Fewer);
    }
    CacheOnly(c, y, Apply(c, budget, y, ev).cache);
  }

  lemma CacheOnly(c: Config, y: System, cache': Cache)
    requires SystemInv(c, y) && CacheOk(cache')
    ensures SystemInv(c, y.(cache := cache'))
  {
  }

  lemma EventKeeps(c: Config, budget: nat, y: System, ev: Event)
    requires SystemInv(c, y) && c.Valid() && Enabled(y, ev)
    ensures SystemInv(c, Apply(c, budget, y, ev))
  {
    hide Core, NotStuck, CacheOk, InsertedOk, Drained;
    match ev
    case Submits(wanted) => SubmitEvent(c, y, wanted);
    case Answers(k, o) => AnswerEvent(c, y, k, o);
    case DecodeFails(k) => DecodeFailEvent(c, y, k);
    case Inserts(b) => InsertEvent(c, budget, y, b);
    case Publishes(k) => PublishEvent(c, y, k);
    case Drains => DrainKeeps(c, y.pipe); PipeStep(c, y, Drain(y.pipe), {});
    case Releases(k) => ReleaseEvent(c, y, k);
    case Unpins(k) => UnpinEvent(c, y, k);
    case _ => CacheEvent(c, budget, y, ev);
  }

  // ---------- runs ----------

  const START := System(EMPTY, [], map[])

  ghost predicate Allowed(c: Config, budget: nat, y: System, run: seq<Event>)
    decreases |run|
  {
    run == [] || (Enabled(y, run[0]) && Allowed(c, budget, Apply(c, budget, y, run[0]), run[1..]))
  }

  ghost function After(c: Config, budget: nat, y: System, run: seq<Event>): System
    requires Allowed(c, budget, y, run)
    decreases |run|
  {
    if run == [] then y else After(c, budget, Apply(c, budget, y, run[0]), run[1..])
  }

  lemma {:induction false} RunKeeps(c: Config, budget: nat, y: System, run: seq<Event>)
    requires SystemInv(c, y) && c.Valid() && Allowed(c, budget, y, run)
    ensures SystemInv(c, After(c, budget, y, run))
    decreases |run|
  {
    if run != [] {
      EventKeeps(c, budget, y, run[0]);
      RunKeeps(c, budget, Apply(c, budget, y, run[0]), run[1..]);
    }
  }

  /** Every state of every run: no key is stuck, the three bounds hold, the bytes add up, and reads and decode jobs
      match the tracked keys. */
  lemma EveryRunIsSafe(c: Config, budget: nat, run: seq<Event>)
    requires c.Valid() && Allowed(c, budget, START, run)
    ensures var y := After(c, budget, START, run);
            NotStuck(c, y.pipe) && BoundsOk(c, y.pipe) && BytesOk(c, y.pipe) && LivesOk(y.pipe)
  {
    InitInv(c);
    RunKeeps(c, budget, START, run);
  }

  function Completions(run: seq<Event>): nat {
    if run == [] then 0
    else (if run[0].Answers? || run[0].DecodeFails? || run[0].Publishes? then 1 else 0) + Completions(run[1..])
  }

  ghost predicate NoSubmit(run: seq<Event>) {
    forall i :: 0 <= i < |run| ==> !run[i].Submits?
  }

  lemma EventBurns(c: Config, budget: nat, y: System, ev: Event)
    requires SystemInv(c, y) && c.Valid() && Enabled(y, ev) && !ev.Submits?
    ensures Fuel(Apply(c, budget, y, ev).pipe) + Completions([ev]) <= Fuel(y.pipe)
  {
    hide Pump, Fuel, Core, NotStuck, CacheOk, InsertedOk, Drained;
    var s := y.pipe;
    match ev
    case Answers(k, o) => CompletionsBurn(c, s, k, o, Brick(k, true, 0));
    case DecodeFails(k) => CompletionsBurn(c, s, k, Data, Brick(k, true, 0));
    case Publishes(k) =>
      InsertedIsJob(c, y, k);
      CompletionsBurn(c, s, k, Data, y.inserted[k]);
    case Drains => CompletionsBurn(c, s, Key(0, Coord(0, 0, 0, 0)), Data, Brick(Key(0, Coord(0, 0, 0, 0)), true, 0));
    case Releases(k) => CompletionsBurn(c, s, k, Data, Brick(k, true, 0));
    case Unpins(k) => CompletionsBurn(c, s, k, Data, Brick(k, true, 0));
    case _ =>
  }

  /** Without new submits a run completes at most as many fetches and decodes as there is fuel. */
  lemma {:induction false} RunsDry(c: Config, budget: nat, y: System, run: seq<Event>)
    requires SystemInv(c, y) && c.Valid() && Allowed(c, budget, y, run) && NoSubmit(run)
    ensures 0 <= Fuel(After(c, budget, y, run).pipe)
    ensures Fuel(After(c, budget, y, run).pipe) + Completions(run) <= Fuel(y.pipe)
    decreases |run|
  {
    hide Fuel, SystemInv, Enabled, Apply;
    if run == [] {
      FuelPositive(c, y);
    } else {
      var y1 := Apply(c, budget, y, run[0]);
      assert !run[0].Submits?;
      EventKeeps(c, budget, y, run[0]);
      EventBurns(c, budget, y, run[0]);
      assert forall i :: 0 <= i < |run[1..]| ==> run[1..][i] == run[i + 1];
      RunsDry(c, budget, y1, run[1..]);
      assert [run[0]][1..] == [];
    }
  }

  lemma FuelPositive(c: Config, y: System)
    requires SystemInv(c, y)
    ensures 0 <= Fuel(y.pipe)
  {
  }

  // ---------- no wanted brick is lost ----------

  /** The event ends key k's life: published, or given up by the store or the decoder. */
  predicate Ends(ev: Event, k: Key) {
    || (ev.Publishes? && ev.key == k)
    || (ev.DecodeFails? && ev.key == k)
    || (ev.Answers? && ev.key == k && (ev.outcome == Cancelled || ev.outcome == Failed))
  }

  /** The key is tracked as wanted by the newest submit. */
  predicate Fresh(s: State, k: Key) {
    k in s.tracked && s.tracked[k].epoch == s.epoch
  }

  lemma PumpFresh(c: Config, s: State, k: Key)
    requires Fresh(s, k)
    ensures Fresh(Pump(c, s), k)
  {
    PumpEffect(c, s);
    assert KeyPumped(s, Pump(c, s), k);
  }

  lemma SubmitFresh(c: Config, s: State, wanted: seq<Request>, k: Key)
    requires k in KeysOf(wanted)
    ensures Fresh(Submit(c, s, wanted), k)
  {
    hide Pump, EnqueueAll;
    EnqueueAllKey(NewEpoch(s, wanted), wanted, k);
    PumpFresh(c, BeforePump(s, wanted), k);
  }

  lemma EventFresh(c: Config, budget: nat, y: System, ev: Event, k: Key)
    requires SystemInv(c, y) && Enabled(y, ev) && !ev.Submits? && Fresh(y.pipe, k) && !Ends(ev, k)
    ensures Fresh(Apply(c, budget, y, ev).pipe, k)
  {
    hide Core, NotStuck, CacheOk, Pump, Drained, Holds;
    var s := y.pipe;
    match ev {
      case Answers(j, o) =>
        CallbackFindsKey(c, s, j);
        if o == Cancelled || o == Failed {
          PumpFresh(c, Erase(FetchReturned(s, j), j), k);
        }
      case DecodeFails(j) => PumpFresh(c, EndDecode(s, j), k);
      case Publishes(j) => PumpFresh(c, Deliver(c, EndDecode(s, j), y.inserted[j]), k);
      case Unpins(j) => PumpFresh(c, GiveBack(c, s, j), k);
      case _ =>
    }
  }

  lemma {:induction false} FreshLasts(c: Config, budget: nat, y: System, run: seq<Event>, k: Key)
    requires SystemInv(c, y) && c.Valid() && Allowed(c, budget, y, run) && NoSubmit(run) && Fresh(y.pipe, k)
    ensures Fresh(After(c, budget, y, run).pipe, k) || exists ev :: ev in run && Ends(ev, k)
    decreases |run|
  {
    hide SystemInv, Enabled, Apply, Fresh, Ends;
    if run != [] {
      assert !run[0].Submits?;
      assert run[0] in run;
      EventKeeps(c, budget, y, run[0]);
      if !Ends(run[0], k) {
        EventFresh(c, budget, y, run[0], k);
        assert forall i :: 0 <= i < |run[1..]| ==> run[1..][i] == run[i + 1];
        FreshLasts(c, budget, Apply(c, budget, y, run[0]), run[1..], k);
      }
    }
  }

  /** After a submit, and until the next, each of its keys is tracked unless it was published, or the store gave it up,
      or its decode failed: no wanted brick is lost on the way. */
  lemma NothingWantedIsLost(c: Config, budget: nat, y: System, wanted: seq<Request>, run: seq<Event>, k: Key)
    requires SystemInv(c, y) && c.Valid() && AllFit(wanted) && k in KeysOf(wanted) && NoSubmit(run)
    requires Allowed(c, budget, Apply(c, budget, y, Submits(wanted)), run)
    ensures var y' := After(c, budget, Apply(c, budget, y, Submits(wanted)), run);
            k in y'.pipe.tracked || exists ev :: ev in run && Ends(ev, k)
  {
    hide SystemInv, Allowed, After;
    EventKeeps(c, budget, y, Submits(wanted));
    SubmitFresh(c, y.pipe, wanted, k);
    FreshLasts(c, budget, Apply(c, budget, y, Submits(wanted)), run, k);
  }
}
