/** The critical sections one by one: each keeps the invariants; what submit changes; what is used up. */
module PipelineSteps {
  import opened BrickKeys
  import opened PipelineSpec
  import opened PipelineInv

  // ---------- submit ----------

  ghost predicate AllFit(wanted: seq<Request>) {
    forall r | r in wanted :: Fits(r.key)
  }

  lemma EnqueueHeap(s: State, r: Request)
    requires HeapOk(s)
    ensures HeapOk(Enqueue(s, r))
  {
    var s' := Enqueue(s, r);
    forall k | InPhase(s', k, Queued) ensures HasEntry(s'.heap, k, s'.tracked[k].priority) {
      if k == r.key && (k !in s.tracked || s.tracked[k].priority != r.priority) {
        assert HeapEntry(r.priority, s.nextSeq, k) in s'.heap;
      } else {
        assert HasEntry(s.heap, k, s.tracked[k].priority);
        var e :| e in s.heap && e.key == k && e.priority == s.tracked[k].priority;
        assert e in s'.heap;
      }
    }
  }

  lemma EnqueueLives(s: State, r: Request)
    requires LivesOk(s)
    ensures LivesOk(Enqueue(s, r))
  {
  }

  /** Untouched by enqueueing. */
  ghost predicate SameRest(s: State, s': State) {
    && s'.epoch == s.epoch && s'.world == s.world && s'.readyBytes == s.readyBytes && s'.ready == s.ready
    && s'.inflight == s.inflight && s'.decodes == s.decodes && s'.callbacks == s.callbacks
  }

  /** The priority the last request for k asks for. */
  function Asked(wanted: seq<Request>, k: Key): real
    requires k in KeysOf(wanted)
  {
    var last := wanted[|wanted| - 1];
    if last.key == k then last.priority
    else
      assert exists r | r in wanted :: r.key == k;
      AskedEarlier(wanted, k);
      Asked(wanted[..|wanted| - 1], k)
  }

  lemma AskedEarlier(wanted: seq<Request>, k: Key)
    requires k in KeysOf(wanted) && wanted[|wanted| - 1].key != k
    ensures k in KeysOf(wanted[..|wanted| - 1])
  {
    var r :| r in wanted && r.key == k;
    assert wanted == wanted[..|wanted| - 1] + [wanted[|wanted| - 1]];
  }

  lemma KeysOfLast(wanted: seq<Request>)
    requires wanted != []
    ensures KeysOf(wanted) == KeysOf(wanted[..|wanted| - 1]) + {wanted[|wanted| - 1].key}
  {
    assert wanted == wanted[..|wanted| - 1] + [wanted[|wanted| - 1]];
  }

  /** What the requests make of a key: new ones are queued, wanted ones are renewed, the rest keep. */
  ghost predicate KeyEnqueued(s: State, wanted: seq<Request>, s': State, k: Key) {
    if k !in KeysOf(wanted) then (k in s'.tracked <==> k in s.tracked) && (k in s.tracked ==> s'.tracked[k] == s.tracked[k])
    else
      && k in s'.tracked && s'.tracked[k].epoch == s.epoch
      && (k in s.tracked ==> s'.tracked[k].phase == s.tracked[k].phase && s'.tracked[k].stop == s.tracked[k].stop)
      && (k !in s.tracked ==> s'.tracked[k].phase == Queued && s'.tracked[k].stop == NoSource)
      && s'.tracked[k].priority == if InPhase(s', k, Queued) then Asked(wanted, k) else s.tracked[k].priority
  }

  lemma {:induction false} EnqueueAllKeeps(s: State, wanted: seq<Request>)
    requires HeapOk(s) && LivesOk(s)
    ensures var s' := EnqueueAll(s, wanted);
            HeapOk(s') && LivesOk(s') && SameRest(s, s')
  {
    if wanted != [] {
      var front := wanted[..|wanted| - 1];
      EnqueueAllKeeps(s, front);
      EnqueueHeap(EnqueueAll(s, front), wanted[|wanted| - 1]);
      EnqueueLives(EnqueueAll(s, front), wanted[|wanted| - 1]);
    }
  }

  lemma {:induction false} EnqueueAllKey(s: State, wanted: seq<Request>, k: Key)
    ensures KeyEnqueued(s, wanted, EnqueueAll(s, wanted), k) && EnqueueAll(s, wanted).epoch == s.epoch
  {
    if wanted != [] {
      EnqueueAllKey(s, wanted[..|wanted| - 1], k);
      KeysOfLast(wanted);
    }
  }

  lemma SubmitEpochs(s: State, wanted: seq<Request>)
    requires EpochsOk(s) && AllFit(wanted) && HeapOk(s) && LivesOk(s)
    ensures EpochsOk(EnqueueAll(NewEpoch(s, wanted), wanted))
  {
    var s1 := NewEpoch(s, wanted);
    var s2 := EnqueueAll(s1, wanted);
    EnqueueAllKeeps(s1, wanted);
    forall k | k in s2.tracked ensures LastWanted(s2.world.submits, k, s2.tracked[k].epoch) && Fits(k) {
      EnqueueAllKey(s1, wanted, k);
      if k !in KeysOf(wanted) {
        assert LastWanted(s.world.submits, k, s.tracked[k].epoch);
      }
    }
  }

  lemma StopLives(s: State, packed: set<nat>)
    requires LivesOk(s) && EpochsOk(s)
    ensures LivesOk(StopUnwanted(s, packed)) && EpochsOk(StopUnwanted(s, packed))
  {
    hide LastWanted, Packed, Fits;
    var s' := StopUnwanted(s, packed);
    forall k, p ensures InPhase(s', k, p) <==> InPhase(s, k, p) {
    }
  }

  lemma StopKeeps(c: Config, s: State, packed: set<nat>)
    requires Core(c, s)
    ensures Core(c, StopUnwanted(s, packed))
  {
    hide HeapOk, BytesOk, BoundsOk, LivesOk, EpochsOk, Packed;
    StopLives(s, packed);
    HeapKept(s, StopUnwanted(s, packed));
    BytesKept(c, s, StopUnwanted(s, packed));
  }

  ghost function BeforePump(s: State, wanted: seq<Request>): State {
    StopUnwanted(EnqueueAll(NewEpoch(s, wanted), wanted), PackedOf(wanted))
  }

  lemma SubmitReady(c: Config, s: State, wanted: seq<Request>)
    requires Core(c, s) && AllFit(wanted)
    ensures Core(c, BeforePump(s, wanted))
  {
    hide EpochsOk, BytesOk, BoundsOk, Enqueue;
    var s1 := NewEpoch(s, wanted);
    HeapKept(s, s1);
    EnqueueAllKeeps(s1, wanted);
    SubmitEpochs(s, wanted);
    BytesKept(c, s, EnqueueAll(s1, wanted));
    StopKeeps(c, EnqueueAll(s1, wanted), PackedOf(wanted));
  }

  lemma SubmitKeeps(c: Config, s: State, wanted: seq<Request>)
    requires Inv(c, s) && c.Valid() && AllFit(wanted)
    ensures Inv(c, Submit(c, s, wanted))
  {
    SubmitReady(c, s, wanted);
    PumpKeeps(c, BeforePump(s, wanted));
  }

  lemma WantedIffPacked(wanted: seq<Request>, k: Key)
    requires AllFit(wanted) && Fits(k)
    ensures Packed(k) in PackedOf(wanted) <==> k in KeysOf(wanted)
  {
    hide Packed, Fits;
    forall r | r in wanted ensures Packed(r.key) == Packed(k) <==> r.key == k {
      PackedInjective(r.key, k);
    }
  }

  /** Of the fetches already flying, submit stops exactly those not wanted now; none of them changes otherwise. */
  lemma SubmitStops(c: Config, s: State, wanted: seq<Request>, k: Key)
    requires Inv(c, s) && c.Valid() && AllFit(wanted) && InPhase(s, k, Fetching)
    ensures var s' := Submit(c, s, wanted);
            && InPhase(s', k, Fetching)
            && s'.tracked[k].stop == if k in KeysOf(wanted) then s.tracked[k].stop else Requested
  {
    hide HeapOk, BytesOk, BoundsOk, LastWanted, Packed, Fits, PackedOf, KeysOf;
    WantedIffPacked(wanted, k);
    EnqueueAllKey(NewEpoch(s, wanted), wanted, k);
    PumpEffect(c, BeforePump(s, wanted));
    assert KeyPumped(BeforePump(s, wanted), Submit(c, s, wanted), k);
  }

  /** k was wanted by the newest submit or by the one before it. */
  ghost predicate Recent(s: State, k: Key) {
    var n := |s.world.submits|;
    (n >= 1 && k in s.world.submits[n - 1]) || (n >= 2 && k in s.world.submits[n - 2])
  }

  /** A pump reads only recently wanted keys and drops only keys wanted by neither of the last two submits. */
  lemma ReadsAreRecent(c: Config, s: State, k: Key)
    requires Core(c, s) && InPhase(s, k, Queued)
    ensures InPhase(Pump(c, s), k, Fetching) ==> Recent(s, k)
    ensures k !in Pump(c, s).tracked ==> !Recent(s, k)
  {
    hide HeapOk, LivesOk, BytesOk, BoundsOk;
    PumpEffect(c, s);
    assert KeyPumped(s, Pump(c, s), k);
    assert LastWanted(s.world.submits, k, s.tracked[k].epoch);
  }

  // ---------- a fetch completes ----------

  /** The store only ever answers reads of keys that are tracked as fetching, and each once. */
  lemma CallbackFindsKey(c: Config, s: State, k: Key)
    requires Core(c, s) && k in s.world.fetches
    ensures InPhase(s, k, Fetching) && s.world.fetches[k] == 1
    ensures s.inflight >= 1
  {
    assert |s.world.fetches - multiset{k}| == |s.world.fetches| - 1;
  }

  lemma JobFindsKey(c: Config, s: State, k: Key)
    requires Core(c, s) && k in s.world.jobs
    ensures InPhase(s, k, Decoding) && s.world.jobs[k] == 1
    ensures s.decodes >= 1
  {
    assert |s.world.jobs - multiset{k}| == |s.world.jobs| - 1;
  }

  function FetchReturned(s: State, k: Key): State {
    s.(inflight := s.inflight - 1, callbacks := s.callbacks - 1,
       world := s.world.(fetches := s.world.fetches - multiset{k}))
  }

  lemma FetchLives(s: State, k: Key)
    requires LivesOk(s) && InPhase(s, k, Fetching)
    ensures LivesOk(Erase(FetchReturned(s, k), k)) && LivesOk(StartDecode(FetchReturned(s, k), k))
  {
    assert |s.world.fetches - multiset{k}| == |s.world.fetches| - 1;
  }

  /** Giving up capacity keeps the bounds. */
  lemma BoundsShrink(c: Config, s: State, s': State)
    requires BoundsOk(c, s) && s'.readyBytes <= s.readyBytes
    requires 0 <= s'.inflight <= s.inflight && 0 <= s'.decodes && s'.inflight + s'.decodes <= s.inflight + s.decodes
    ensures BoundsOk(c, s')
  {
    MulMono(s'.inflight + s'.decodes, s.inflight + s.decodes, c.largest);
  }

  /** The bounds hold through a handover from fetch to decode. */
  lemma BoundsMove(c: Config, s: State, s': State)
    requires BoundsOk(c, s) && s'.readyBytes == s.readyBytes
    requires s'.inflight == s.inflight - 1 >= 0 && s'.decodes == s.decodes + 1
    ensures BoundsOk(c, s')
  {
    assert s'.inflight + s'.decodes == s.inflight + s.decodes;
  }

  lemma NonNegative(c: Config, s: State)
    requires BoundsOk(c, s)
    ensures 0 <= s.inflight && 0 <= s.decodes
  {
  }

  lemma FetchFailedReady(c: Config, s: State, k: Key)
    requires Core(c, s) && k in s.world.fetches
    ensures Core(c, Erase(FetchReturned(s, k), k))
  {
    hide HeapOk, BoundsOk, LivesOk, LastWanted, Bytes;
    var s' := Erase(FetchReturned(s, k), k);
    CallbackFindsKey(c, s, k);
    HeapKept(s, s');
    FetchLives(s, k);
    NonNegative(c, s);
    BoundsShrink(c, s, s');
  }

  lemma FetchOkKeeps(c: Config, s: State, k: Key)
    requires Core(c, s) && k in s.world.fetches
    ensures k in s.tracked && Inv(c, StartDecode(FetchReturned(s, k), k))
  {
    hide HeapOk, BoundsOk, LivesOk, LastWanted, Bytes;
    CallbackFindsKey(c, s, k);
    var s' := StartDecode(FetchReturned(s, k), k);
    HeapKept(s, s');
    FetchLives(s, k);
    NonNegative(c, s);
    BoundsMove(c, s, s');
  }

  lemma FetchDoneKeeps(c: Config, s: State, k: Key, o: Outcome)
    requires Inv(c, s) && c.Valid() && k in s.world.fetches
    ensures Inv(c, FetchDone(c, s, k, o))
  {
    hide HeapOk, BoundsOk, LivesOk, EpochsOk, BytesOk, NotStuck;
    CallbackFindsKey(c, s, k);
    FetchFailedReady(c, s, k);
    PumpKeeps(c, Erase(FetchReturned(s, k), k));
    FetchOkKeeps(c, s, k);
  }

  // ---------- a decode completes ----------

  lemma DecodeLives(s: State, k: Key)
    requires LivesOk(s) && InPhase(s, k, Decoding)
    ensures LivesOk(EndDecode(s, k))
  {
    assert |s.world.jobs - multiset{k}| == |s.world.jobs| - 1;
  }

  lemma EndDecodeReady(c: Config, s: State, k: Key)
    requires Core(c, s) && k in s.world.jobs
    ensures Core(c, EndDecode(s, k))
  {
    hide HeapOk, BoundsOk, LivesOk, LastWanted, Bytes;
    JobFindsKey(c, s, k);
    var s' := EndDecode(s, k);
    HeapKept(s, s');
    DecodeLives(s, k);
    NonNegative(c, s);
    BoundsShrink(c, s, s');
  }

  lemma DecodeFailedKeeps(c: Config, s: State, k: Key)
    requires Inv(c, s) && c.Valid() && k in s.world.jobs
    ensures Inv(c, DecodeFailed(c, s, k))
  {
    EndDecodeReady(c, s, k);
    PumpKeeps(c, EndDecode(s, k));
  }

  lemma LivesKept(s: State, s': State)
    requires LivesOk(s) && s'.tracked == s.tracked && s'.world.fetches == s.world.fetches && s'.world.jobs == s.world.jobs
    requires s'.inflight == s.inflight && s'.callbacks == s.callbacks && s'.decodes == s.decodes
    ensures LivesOk(s')
  {
  }

  lemma {:induction false} BytesAppend(c: Config, l: seq<Brick>, b: Brick)
    ensures Bytes(c, l + [b]) == Bytes(c, l) + c.chunk(b.key.coord.level)
  {
    if l == [] {
      assert l + [b] == [b];
    } else {
      BytesAppend(c, l[1..], b);
      assert (l + [b])[1..] == l[1..] + [b];
    }
  }

  lemma {:induction false} BytesMinus(c: Config, l: seq<Brick>, k: Key)
    requires Holds(l, k)
    ensures Bytes(c, l) == Bytes(c, Minus(l, k)) + c.chunk(k.coord.level)
  {
    if l[0].key != k {
      var i :| 0 <= i < |l| && l[i].key == k;
      assert l[1..][i - 1].key == k;
      BytesMinus(c, l[1..], k);
      assert ([l[0]] + Minus(l[1..], k))[1..] == Minus(l[1..], k);
    }
  }

  /** One decode's share of the bound turns into the bytes it delivers. */
  lemma DeliverBounds(c: Config, s: State, s': State, bytes: nat)
    requires BoundsOk(c, s) && bytes <= c.largest && s.decodes >= 1
    requires s'.inflight == s.inflight && s'.decodes == s.decodes - 1 && s'.readyBytes == s.readyBytes + bytes
    ensures BoundsOk(c, s')
  {
    assert (s.inflight + s.decodes) * c.largest == (s'.inflight + s'.decodes) * c.largest + c.largest;
  }

  lemma DeliverReady(c: Config, s: State, b: Brick)
    requires Core(c, s) && c.Valid() && b.key in s.world.jobs
    ensures Core(c, Deliver(c, EndDecode(s, b.key), b))
  {
    hide HeapOk, BoundsOk, LivesOk, LastWanted, Bytes;
    var s' := Deliver(c, EndDecode(s, b.key), b);
    JobFindsKey(c, s, b.key);
    HeapKept(s, s');
    DecodeLives(s, b.key);
    LivesKept(EndDecode(s, b.key), s');
    BytesAppend(c, s.world.held, b);
    DeliverBounds(c, s, s', c.chunk(b.key.coord.level));
  }

  lemma PublishKeeps(c: Config, s: State, b: Brick)
    requires Inv(c, s) && c.Valid() && b.key in s.world.jobs
    ensures Inv(c, Publish(c, s, b))
  {
    DeliverReady(c, s, b);
    PumpKeeps(c, Deliver(c, EndDecode(s, b.key), b));
  }

  // ---------- drain and unpin ----------

  lemma DrainKeeps(c: Config, s: State)
    requires Inv(c, s)
    ensures Inv(c, Drain(s))
  {
    hide HeapOk, LastWanted, Bytes;
    HeapKept(s, Drain(s));
    assert forall k :: InPhase(Drain(s), k, Queued) <==> InPhase(s, k, Queued);
  }

  lemma {:induction false} HoldsIffTimes(l: seq<Brick>, k: Key)
    ensures Holds(l, k) <==> Times(l, k) >= 1
  {
    if l != [] {
      HoldsIffTimes(l[1..], k);
      if Holds(l[1..], k) {
        var i :| 0 <= i < |l[1..]| && l[1..][i].key == k;
        assert l[i + 1].key == k;
      }
      if Holds(l, k) && l[0].key != k {
        var i :| 0 <= i < |l| && l[i].key == k;
        assert l[1..][i - 1].key == k;
      }
    }
  }

  lemma DrainedIsHeld(s: State, k: Key)
    requires Drained(s, k)
    ensures Holds(s.world.held, k)
  {
    HoldsIffTimes(s.world.held, k);
  }

  lemma ReleaseKeeps(c: Config, s: State, k: Key)
    requires Inv(c, s) && Holds(s.world.held, k)
    ensures Inv(c, Release(s, k))
  {
    hide Bytes;
    HeapKept(s, Release(s, k));
    BytesMinus(c, s.world.held, k);
    BytesAppend(c, s.world.releasing, FirstOf(s.world.held, k));
  }

  /** The subtraction never has to saturate. */
  lemma UnpinExact(c: Config, s: State, k: Key)
    requires Core(c, s) && Holds(s.world.releasing, k)
    ensures c.chunk(k.coord.level) <= s.readyBytes
    ensures GiveBack(c, s, k).readyBytes == s.readyBytes - c.chunk(k.coord.level)
  {
    BytesMinus(c, s.world.releasing, k);
  }

  lemma UnpinReady(c: Config, s: State, k: Key)
    requires Core(c, s) && Holds(s.world.releasing, k)
    ensures Core(c, GiveBack(c, s, k))
  {
    hide HeapOk, BoundsOk, LastWanted, Bytes;
    var s' := GiveBack(c, s, k);
    UnpinExact(c, s, k);
    HeapKept(s, s');
    BytesMinus(c, s.world.releasing, k);
    NonNegative(c, s);
    BoundsShrink(c, s, s');
  }

  lemma UnpinKeeps(c: Config, s: State, k: Key)
    requires Inv(c, s) && c.Valid() && Holds(s.world.releasing, k)
    ensures Inv(c, Unpin(c, s, k))
  {
    UnpinReady(c, s, k);
    PumpKeeps(c, GiveBack(c, s, k));
  }

  // ---------- progress ----------

  /** What the completions use up. */
  function Fuel(s: State): int {
    3 * |s.heap| + 2 * s.inflight + s.decodes
  }

  lemma {:induction false} PumpBurns(c: Config, s: State)
    ensures Fuel(Pump(c, s)) <= Fuel(s)
    decreases |s.heap|
  {
    if MayIssue(c, s) {
      var s1 := Popped(s, Top(s.heap));
      assert s1.heap == s.heap - {Top(s.heap)};
      PumpBurns(c, s1);
    }
  }

  /** Without new submits every completion uses fuel, and nothing adds any. */
  lemma CompletionsBurn(c: Config, s: State, k: Key, o: Outcome, b: Brick)
    requires Core(c, s)
    ensures k in s.world.fetches ==> Fuel(FetchDone(c, s, k, o)) < Fuel(s)
    ensures k in s.world.jobs ==> Fuel(DecodeFailed(c, s, k)) < Fuel(s)
    ensures b.key in s.world.jobs ==> Fuel(Publish(c, s, b)) < Fuel(s)
    ensures Fuel(Drain(s)) == Fuel(s) && Fuel(Unpin(c, s, k)) <= Fuel(s)
    ensures Holds(s.world.held, k) ==> Fuel(Release(s, k)) == Fuel(s)
    ensures Fuel(s) >= 0
  {
    hide Pump, HeapOk, EpochsOk, BytesOk, LivesOk, BoundsOk;
    if k in s.world.fetches {
      CallbackFindsKey(c, s, k);
    }
    PumpBurns(c, Erase(FetchReturned(s, k), k));
    PumpBurns(c, EndDecode(s, k));
    PumpBurns(c, Deliver(c, EndDecode(s, b.key), b));
    PumpBurns(c, GiveBack(c, s, k));
    NonNegative(c, s);
  }

  /** With every read answered, every decode finished and every brick unpinned, nothing is left waiting. */
  lemma QuietMeansDone(c: Config, s: State, k: Key)
    requires Inv(c, s) && c.Valid()
    requires s.world.fetches == multiset{} && s.world.jobs == multiset{}
    requires s.world.held == [] && s.world.releasing == []
    ensures k !in s.tracked
  {
    assert !InPhase(s, k, Queued) && !InPhase(s, k, Fetching) && !InPhase(s, k, Decoding);
  }
}
