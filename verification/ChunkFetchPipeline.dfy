/** The pipeline object: each locked section carried out step by step on the fields, against its specification. */
module ChunkFetchPipelines {
  import opened BrickKeys
  import opened PipelineSpec
  import opened PipelineInv
  import opened PipelineSteps
  import LruSpec
  import opened LruCaches

  /** RAM cache of decoded bricks. */
  class RamCache {
    const cache: LruCache<Key, Brick>

    constructor (byteBudget: nat)
      ensures cache.Valid() && cache.lru == [] && cache.budget == byteBudget && fresh(cache)
    {
      cache := new LruCache(byteBudget);
    }

    /** Stores a brick with one pin; pinned, it is still there afterwards and is what comes back. */
    method InsertPinned(b: Brick) returns (stored: Brick)
      requires cache.Valid()
      modifies cache
      ensures cache.Valid()
      ensures cache.lru == LruSpec.Insert(old(cache.lru), cache.budget, LruSpec.Entry(b.key, b, b.voxelBytes, 1))
      ensures stored == b && cache.lru != [] && cache.lru[0] == LruSpec.Entry(b.key, b, b.voxelBytes, 1)
    {
      LruSpec.InsertKeepsIff(cache.lru, cache.budget, LruSpec.Entry(b.key, b, b.voxelBytes, 1));
      var front := cache.Insert(b.key, b, b.voxelBytes, 1);
      stored := front.value;
    }

    method Unpin(k: Key)
      requires cache.Valid()
      modifies cache
      ensures cache.Valid() && cache.lru == LruSpec.Unpin(old(cache.lru), k)
    {
      cache.Unpin(k);
    }
  }

  lemma TopUnique(s: State, e: HeapEntry)
    requires HeapOk(s) && IsTop(s.heap, e)
    ensures e == Top(s.heap)
  {
    var t := Top(s.heap);
    assert !e.Below(t) && !t.Below(e);
  }

  /** What the decoder makes of a chunk: an error, voxels that are all the fill value, or voxels. */
  datatype Decoded = Broken | AllFill | Voxels

  class ChunkFetchPipeline {
    const config: Config
    const ramCache: RamCache
    var epoch: nat
    var nextSeq: nat
    var heap: set<HeapEntry>
    var tracked: map<Key, Tracked>
    var inflight: int
    var callbacks: int
    var decodes: int
    var ready: seq<Brick>
    var readyBytes: nat
    ghost var world: World
    ghost var absent: set<Key>   // keys whose last read found nothing in the store

    ghost function View(): State
      reads this
    {
      State(epoch, nextSeq, heap, tracked, inflight, callbacks, decodes, ready, readyBytes, world)
    }

    ghost predicate Valid()
      reads this
    {
      config.Valid() && Inv(config, View())
    }

    constructor (config: Config, ramCache: RamCache)
      requires config.Valid()
      ensures Valid() && View() == EMPTY && this.config == config && this.ramCache == ramCache
    {
      this.config, this.ramCache := config, ramCache;
      epoch, nextSeq, heap, tracked := 0, 0, {}, map[];
      inflight, callbacks, decodes, ready, readyBytes := 0, 0, 0, [], 0;
      world, absent := EMPTY.world, {};
      new;
      InitInv(config);
    }

    /** Issues reads while all caps allow, best entry first. */
    method Pump()
      requires config.Valid() && Core(config, View())
      modifies this
      ensures View() == PipelineSpec.Pump(config, old(View())) && Valid()
      ensures absent == old(absent)
    {
      hide HeapOk, LivesOk, EpochsOk, BytesOk, BoundsOk;
      PumpKeeps(config, View());
      while inflight < config.maxInflight && decodes < config.maxQueued && readyBytes < config.maxReadyBytes && heap != {}
        invariant Core(config, View()) && absent == old(absent)
        invariant PipelineSpec.Pump(config, View()) == PipelineSpec.Pump(config, old(View()))
        decreases |heap|
      {
        TopExists(heap);
        var e :| e in heap && forall f | f in heap :: !e.Below(f);
        assert IsTop(heap, e);
        TopUnique(View(), e);
        PoppedKeeps(config, View(), e);
        HandleTop(e);
      }
    }

    /** Takes the top entry off the heap; stale ones are dropped, so are bricks not wanted for two submits. */
    method HandleTop(e: HeapEntry)
      requires e in heap
      modifies this
      ensures View() == Popped(old(View()), e)
      ensures absent == old(absent)
    {
      ghost var was := View();
      heap := heap - {e};
      if e.key in tracked && tracked[e.key].phase == Queued && e.priority == tracked[e.key].priority {
        var t := tracked[e.key];
        if t.epoch + 1 < epoch {
          tracked := tracked - {e.key};
        } else {
          tracked := tracked[e.key := t.(phase := Fetching, stop := Armed)];
          inflight := inflight + 1;
          callbacks := callbacks + 1;
          world := world.(fetches := world.fetches + multiset{e.key}, issued := world.issued + [e.key]);
        }
      }
      assert View() == Popped(was, e);
    }

    /** One request of a submit. */
    method TakeRequest(r: Request)
      modifies this
      ensures View() == Enqueue(old(View()), r)
      ensures absent == old(absent)
    {
      if r.key !in tracked {
        tracked := tracked[r.key := Tracked(r.priority, epoch, Queued, NoSource)];
        heap := heap + {HeapEntry(r.priority, nextSeq, r.key)};
        nextSeq := nextSeq + 1;
      } else {
        tracked := tracked[r.key := tracked[r.key].(epoch := epoch)];
        if tracked[r.key].phase == Queued && tracked[r.key].priority != r.priority {
          tracked := tracked[r.key := tracked[r.key].(priority := r.priority)];
          heap := heap + {HeapEntry(r.priority, nextSeq, r.key)};
          nextSeq := nextSeq + 1;
        }
      }
    }

    /** Triggers the cancellation of every fetch whose packed key is not wanted. */
    method CancelUnwanted(wanted: set<nat>)
      modifies this
      ensures View() == StopUnwanted(old(View()), wanted)
      ensures absent == old(absent)
    {
      var todo := tracked.Keys;
      ghost var was := tracked;
      while todo != {}
        invariant View() == old(View()).(tracked := tracked) && absent == old(absent)
        invariant tracked.Keys == was.Keys && todo <= tracked.Keys
        invariant forall k | k in was.Keys ::
                    tracked[k] == if k in todo then was[k] else StopIf(k, was[k], wanted)
        decreases todo
      {
        var k :| k in todo;
        var t := tracked[k];
        if t.phase == Fetching && t.stop != NoSource && Packed(k) !in wanted {
          tracked := tracked[k := t.(stop := Requested)];
        }
        todo := todo - {k};
      }
    }

    method Submit(wanted: seq<Request>)
      requires Valid() && AllFit(wanted)
      modifies this
      ensures View() == PipelineSpec.Submit(config, old(View()), wanted) && Valid()
      ensures absent == old(absent)
    {
      hide Inv, Core, AllFit, Enqueue, Packed, StopUnwanted;
      ghost var s1 := NewEpoch(View(), wanted);
      CoreOf(config, View());
      SubmitReady(config, View(), wanted);
      epoch := epoch + 1;
      world := world.(submits := world.submits + [KeysOf(wanted)]);
      var packed: set<nat> := {};
      for i := 0 to |wanted|
        invariant View() == EnqueueAll(s1, wanted[..i]) && absent == old(absent)
        invariant packed == PackedOf(wanted[..i])
      {
        assert wanted[..i + 1][..i] == wanted[..i];
        assert wanted[..i + 1] == wanted[..i] + [wanted[i]];
        packed := packed + {Packed(wanted[i].key)};
        TakeRequest(wanted[i]);
      }
      assert wanted[..|wanted|] == wanted;
      CancelUnwanted(packed);
      Pump();
    }

    method OnFetchDone(key: Key, outcome: Outcome)
      requires Valid() && key in world.fetches
      modifies this
      ensures View() == FetchDone(config, old(View()), key, outcome) && Valid()
      ensures absent == if outcome == NotFound then old(absent) + {key} else old(absent) - {key}
    {
      hide HeapOk, LivesOk, EpochsOk, BytesOk, BoundsOk, NotStuck;
      CallbackFindsKey(config, View(), key);
      FetchFailedReady(config, View(), key);
      FetchDoneKeeps(config, View(), key, outcome);
      ghost var was := View();
      inflight := inflight - 1;
      callbacks := callbacks - 1;
      world := world.(fetches := world.fetches - multiset{key});
      assert View() == FetchReturned(was, key);
      if outcome == Cancelled || outcome == Failed {
        tracked := tracked - {key};
        assert View() == Erase(FetchReturned(was, key), key);
        Pump();
      } else {
        tracked := tracked[key := tracked[key].(phase := Decoding, stop := NoSource)];
        decodes := decodes + 1;
        world := world.(jobs := world.jobs + multiset{key});
      }
      absent := if outcome == NotFound then absent + {key} else absent - {key};
    }

    /** A decode job: a broken chunk is forgotten; anything else goes to the cache, pinned, and becomes ready, as fill if
        the read found nothing. */
    method DecodeAndPublish(key: Key, missing: bool, decoded: Decoded)
      requires Valid() && key in world.jobs && ramCache.cache.Valid() && missing == (key in absent)
      modifies this, ramCache.cache
      ensures key in old(absent) ==> ready == old(ready) + [Brick(key, true, 0)]
      ensures absent == old(absent)
      ensures Valid() && ramCache.cache.Valid()
      ensures var bytes := config.chunk(key.coord.level);
              if !missing && decoded == Broken then
                && View() == DecodeFailed(config, old(View()), key) && ramCache.cache.lru == old(ramCache.cache.lru)
                && ready == old(ready) && readyBytes == old(readyBytes)
              else
                var fill := missing || decoded == AllFill;
                var b := Brick(key, fill, if fill then 0 else bytes);
                && View() == Publish(config, old(View()), b)
                && ready == old(ready) + [b] && readyBytes == old(readyBytes) + bytes
                && ramCache.cache.lru == LruSpec.Insert(old(ramCache.cache.lru), ramCache.cache.budget,
                                                        LruSpec.Entry(key, b, b.voxelBytes, 1))
      ensures key !in tracked
    {
      hide KeyPumped, HeapOk, LivesOk, EpochsOk, BytesOk, BoundsOk, NotStuck;
      var bytes := config.chunk(key.coord.level);
      ghost var was := View();
      if !missing && decoded == Broken {
        EndDecodeReady(config, was, key);
        FinishDecode(key);
        PumpedBackdrop(config, View(), key);
        Pump();
        return;
      }
      var fill := missing || decoded == AllFill;
      var b := Brick(key, fill, if fill then 0 else bytes);
      var stored := ramCache.InsertPinned(b);
      DeliverReady(config, was, b);
      FinishDecode(key);
      AddReady(stored);
      PumpedBackdrop(config, View(), key);
      Pump();
    }

    method AddReady(b: Brick)
      modifies this
      ensures View() == Deliver(config, old(View()), b)
      ensures absent == old(absent)
    {
      readyBytes := readyBytes + config.chunk(b.key.coord.level);
      ready := ready + [b];
      world := world.(held := world.held + [b]);
    }

    method FinishDecode(key: Key)
      modifies this
      ensures View() == EndDecode(old(View()), key)
      ensures absent == old(absent)
    {
      ghost var was := View();
      decodes := decodes - 1;
      world := world.(jobs := world.jobs - multiset{key});
      tracked := tracked - {key};
      assert View() == was.(decodes := decodes, world := world, tracked := tracked);
    }

    method DrainReady() returns (r: seq<Brick>)
      requires Valid()
      modifies this
      ensures View() == Drain(old(View())) && Valid() && r == old(ready) && ready == []
      ensures absent == old(absent)
    {
      DrainKeeps(config, View());
      r, ready := ready, [];
    }

    /** Gives a drained brick's pin and bytes back; the bytes never run short. */
    method Unpin(key: Key)
      requires Valid() && ramCache.cache.Valid()
      requires Drained(View(), key)
      modifies this, ramCache.cache
      ensures Valid() && ramCache.cache.Valid()
      ensures Holds(old(world.held), key)
      ensures View() == PipelineSpec.Unpin(config, Release(old(View()), key), key)
      ensures ramCache.cache.lru == LruSpec.Unpin(old(ramCache.cache.lru), key)
      ensures absent == old(absent)
    {
      hide HeapOk, LivesOk, EpochsOk, BytesOk, BoundsOk, NotStuck;
      ghost var was := View();
      DrainedIsHeld(was, key);
      ramCache.Unpin(key);
      ReleaseKeeps(config, was, key);
      ReleasingHolds(was, key);
      UnpinReady(config, Release(was, key), key);
      world := Release(was, key).world;
      var bytes := config.chunk(key.coord.level);
      readyBytes := if readyBytes > bytes then readyBytes - bytes else 0;
      world := world.(releasing := Minus(world.releasing, key));
      assert View() == GiveBack(config, Release(was, key), key);
      Pump();
    }
  }

  lemma PumpedBackdrop(c: Config, s: State, k: Key)
    requires k !in s.tracked
    ensures var s' := PipelineSpec.Pump(c, s); k !in s'.tracked && s'.ready == s.ready && s'.readyBytes == s.readyBytes
  {
    PumpEffect(c, s);
    assert KeyPumped(s, PipelineSpec.Pump(c, s), k);
  }

  lemma CoreOf(c: Config, s: State)
    requires Inv(c, s)
    ensures Core(c, s)
  {
  }

  lemma ReleasingHolds(s: State, k: Key)
    requires Holds(s.world.held, k)
    ensures Holds(Release(s, k).world.releasing, k)
  {
    var r := Release(s, k).world.releasing;
    assert r[|r| - 1].key == k;
  }
}
