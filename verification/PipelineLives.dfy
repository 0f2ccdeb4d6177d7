/** The life of one key: which events move it from waiting to fetching to decoding and out. */
module PipelineLives {
  import opened BrickKeys
  import opened PipelineSpec
  import opened PipelineInv
  import opened PipelineSteps
  import opened PipelineRuns
  import LruSpec

  datatype Stage = Gone | In(phase: Phase)

  function StageOf(s: State, k: Key): Stage {
    if k in s.tracked then In(s.tracked[k].phase) else Gone
  }

  ghost predicate Wants(ev: Event, k: Key) {
    ev.Submits? && exists r :: r in ev.wanted && r.key == k
  }

  /** What an event may make of key k. A read that fails or is cancelled ends the key's life, one that finds data or
      nothing leads to a decode, and a decode ends it either way; a waiting key is dropped only if neither of the last
      two submits wanted it; nothing else moves a key but a submit that wants it and the pump. */
  ghost predicate Moves(ev: Event, k: Key, from: Stage, to: Stage, recent: bool) {
    match from
    case Gone => if Wants(ev, k) then to == In(Queued) || to == In(Fetching) else to == Gone
    case In(Queued) =>
      || to == In(Queued)
      || (to == In(Fetching) && recent)
      || (to == Gone && !recent && !Wants(ev, k))
    case In(Fetching) =>
      if ev.Answers? && ev.key == k then to == (if ev.outcome.Cancelled? || ev.outcome.Failed? then Gone else In(Decoding))
      else to == from
    case In(Decoding) =>
      if (ev.DecodeFails? || ev.Publishes?) && ev.key == k then to == Gone else to == from
  }

  lemma WantsIff(wanted: seq<Request>, k: Key)
    ensures Wants(Submits(wanted), k) <==> k in KeysOf(wanted)
  {
  }

  /** A pump fetches recently wanted keys and drops others, as long as the epochs tell when a key was wanted. */
  lemma PumpMoves(c: Config, s: State, k: Key)
    requires EpochsOk(s)
    ensures var from, to := StageOf(s, k), StageOf(Pump(c, s), k);
            || to == from
            || (from == In(Queued) && ((to == In(Fetching) && Recent(s, k)) || (to == Gone && !Recent(s, k))))
    ensures Pump(c, s).world.submits == s.world.submits
  {
    PumpEffect(c, s);
    assert KeyPumped(s, Pump(c, s), k);
    if InPhase(s, k, Queued) {
      assert LastWanted(s.world.submits, k, s.tracked[k].epoch);
    }
  }

  lemma SubmitMoves(c: Config, y: System, wanted: seq<Request>, k: Key)
    requires SystemInv(c, y) && AllFit(wanted)
    ensures var s, s' := y.pipe, Submit(c, y.pipe, wanted);
            Moves(Submits(wanted), k, StageOf(s, k), StageOf(s', k), Recent(s', k))
  {
    var s := y.pipe;
    var s1, mid := NewEpoch(s, wanted), BeforePump(s, wanted);
    hide HeapOk, LivesOk, BytesOk, BoundsOk, NotStuck, CacheOk, InsertedOk, Pump, EnqueueAll, Recent;
    SubmitReady(c, s, wanted);
    EnqueueAllKey(s1, wanted, k);
    WantsIff(wanted, k);
    hide EpochsOk;
    PumpMoves(c, mid, k);
    RecentSame(mid, Pump(c, mid), k);
    assert StageOf(mid, k) == if k in KeysOf(wanted) && k !in s.tracked then In(Queued) else StageOf(s, k);
    if k in KeysOf(wanted) {
      WantedIsRecent(s, wanted, k);
    }
  }

  lemma RecentSame(s: State, s': State, k: Key)
    requires s'.world.submits == s.world.submits
    ensures Recent(s', k) <==> Recent(s, k)
  {
  }

  lemma WantedIsRecent(s: State, wanted: seq<Request>, k: Key)
    requires k in KeysOf(wanted)
    ensures Recent(BeforePump(s, wanted), k)
  {
    EnqueueBackdrop(NewEpoch(s, wanted), wanted);
    var n := |s.world.submits|;
    assert (s.world.submits + [KeysOf(wanted)])[n] == KeysOf(wanted);
  }

  /** A pump after a step that changed at most the life of key j. */
  lemma StepMoves(c: Config, s: State, mid: State, ev: Event, j: Key, k: Key)
    requires EpochsOk(s) && EpochsOk(mid) && mid.world.submits == s.world.submits && !ev.Submits?
    requires k != j ==> StageOf(mid, k) == StageOf(s, k)
    requires k == j ==> StageOf(mid, k) == Gone && StageOf(s, k) != In(Queued) && Moves(ev, k, StageOf(s, k), Gone, false)
    requires !(ev.Publishes? || ev.DecodeFails? || ev.Answers?) || ev.key == j
    ensures Moves(ev, k, StageOf(s, k), StageOf(Pump(c, mid), k), Recent(Pump(c, mid), k))
  {
    PumpMoves(c, mid, k);
    RecentSame(mid, Pump(c, mid), k);
    hide EpochsOk, Recent, Pump;
  }

  lemma EpochsErase(s: State, s': State)
    requires EpochsOk(s) && s'.epoch == s.epoch && s'.world.submits == s.world.submits
    requires forall k | k in s'.tracked :: k in s.tracked && s'.tracked[k] == s.tracked[k]
    ensures EpochsOk(s')
  {
  }

  lemma AnswerMoves(c: Config, y: System, j: Key, o: Outcome, k: Key)
    requires SystemInv(c, y) && Enabled(y, Answers(j, o))
    ensures var s, s' := y.pipe, FetchDone(c, y.pipe, j, o);
            Moves(Answers(j, o), k, StageOf(s, k), StageOf(s', k), Recent(s', k))
  {
    CallbackFindsKey(c, y.pipe, j);
    hide HeapOk, LivesOk, BytesOk, BoundsOk, NotStuck, CacheOk, InsertedOk, Pump, Recent, Moves, StageOf, EpochsOk, FetchDone;
    if o == Cancelled || o == Failed {
      FailMoves(c, y.pipe, j, o, k);
    } else {
      DataMoves(c, y.pipe, j, o, k);
    }
  }

  lemma FailMoves(c: Config, s: State, j: Key, o: Outcome, k: Key)
    requires EpochsOk(s) && InPhase(s, j, Fetching) && (o == Cancelled || o == Failed)
    ensures var s' := FetchDone(c, s, j, o); Moves(Answers(j, o), k, StageOf(s, k), StageOf(s', k), Recent(s', k))
  {
    hide Pump, Recent;
    EpochsErase(s, Erase(FetchReturned(s, j), j));
    hide EpochsOk;
    StepMoves(c, s, Erase(FetchReturned(s, j), j), Answers(j, o), j, k);
  }

  lemma DataMoves(c: Config, s: State, j: Key, o: Outcome, k: Key)
    requires InPhase(s, j, Fetching) && o != Cancelled && o != Failed
    ensures var s' := FetchDone(c, s, j, o);
            Moves(Answers(j, o), k, StageOf(s, k), StageOf(s', k), Recent(s', k))
  {
    hide Pump, Recent;
    assert FetchDone(c, s, j, o).tracked ==
      s.tracked[j := s.tracked[j].(phase := Decoding, stop := NoSource)];
    if InPhase(s, k, Queued) {
      assert StageOf(FetchDone(c, s, j, o), k) == In(Queued);
    }
    hide FetchDone;
  }

  lemma DecodeMoves(c: Config, y: System, ev: Event, j: Key, mid: State, k: Key)
    requires SystemInv(c, y) && j in y.pipe.world.jobs && (ev == DecodeFails(j) || ev == Publishes(j))
    requires mid.epoch == y.pipe.epoch && mid.world.submits == y.pipe.world.submits && mid.tracked == y.pipe.tracked - {j}
    ensures Moves(ev, k, StageOf(y.pipe, k), StageOf(Pump(c, mid), k), Recent(Pump(c, mid), k))
  {
    JobFindsKey(c, y.pipe, j);
    hide HeapOk, LivesOk, BytesOk, BoundsOk, NotStuck, CacheOk, InsertedOk, Pump, Recent;
    EpochsErase(y.pipe, mid);
    hide EpochsOk;
    StepMoves(c, y.pipe, mid, ev, j, k);
  }

  lemma UnpinMoves(c: Config, y: System, j: Key, k: Key)
    requires SystemInv(c, y)
    ensures var s, s' := y.pipe, Unpin(c, y.pipe, j);
            Moves(Unpins(j), k, StageOf(s, k), StageOf(s', k), Recent(s', k))
  {
    var s, mid := y.pipe, GiveBack(c, y.pipe, j);
    hide HeapOk, LivesOk, BytesOk, BoundsOk, NotStuck, CacheOk, InsertedOk, Pump, Recent;
    EpochsErase(s, mid);
    hide EpochsOk;
    PumpMoves(c, mid, k);
    RecentSame(mid, Pump(c, mid), k);
  }

  /** Every event moves every key as it may and no further. */
  lemma KeyMoves(c: Config, budget: nat, y: System, ev: Event, k: Key)
    requires SystemInv(c, y) && Enabled(y, ev)
    ensures var s, s' := y.pipe, Apply(c, budget, y, ev).pipe;
            Moves(ev, k, StageOf(s, k), StageOf(s', k), Recent(s', k))
  {
    hide Core, NotStuck, CacheOk, InsertedOk, Drained, Pump, Moves, StageOf, Recent;
    match ev {
      case Submits(wanted) => SubmitMoves(c, y, wanted, k);
      case Answers(j, o) => AnswerMoves(c, y, j, o, k);
      case DecodeFails(j) => DecodeMoves(c, y, ev, j, EndDecode(y.pipe, j), k);
      case Publishes(j) =>
        InsertedIsJob(c, y, j);
        DecodeMoves(c, y, ev, j, Deliver(c, EndDecode(y.pipe, j), y.inserted[j]), k);
      case Unpins(j) => UnpinMoves(c, y, j, k);
      case _ => Unmoved(c, budget, y, ev, k);
    }
  }

  lemma Unmoved(c: Config, budget: nat, y: System, ev: Event, k: Key)
    requires SystemInv(c, y) && Enabled(y, ev)
    requires !(ev.Submits? || ev.Answers? || ev.DecodeFails? || ev.Publishes? || ev.Unpins?)
    ensures var s, s' := y.pipe, Apply(c, budget, y, ev).pipe;
            Moves(ev, k, StageOf(s, k), StageOf(s', k), Recent(s', k))
  {
  }

  // ---------- a life that has ended ----------

  ghost predicate NeverWanted(run: seq<Event>, k: Key) {
    forall ev | ev in run :: !Wants(ev, k)
  }

  /** The event reads, decodes, inserts or publishes key k. */
  predicate Serves(ev: Event, k: Key) {
    match ev
    case Answers(j, _) => j == k
    case DecodeFails(j) => j == k
    case Inserts(b) => b.key == k
    case Publishes(j) => j == k
    case _ => false
  }

  lemma ServesTracked(c: Config, y: System, ev: Event, k: Key)
    requires SystemInv(c, y) && Enabled(y, ev) && Serves(ev, k)
    ensures k in y.pipe.tracked
  {
    match ev {
      case Answers(_, _) => CallbackFindsKey(c, y.pipe, k);
      case DecodeFails(_) => JobFindsKey(c, y.pipe, k);
      case Inserts(_) => JobFindsKey(c, y.pipe, k);
      case Publishes(_) => InsertedIsJob(c, y, k); JobFindsKey(c, y.pipe, k);
    }
  }

  /** Once a key is out, whether published, cancelled, failed or dropped, nothing is done for it until a submit wants it
      again. */
  lemma {:induction false} GoneStaysGone(c: Config, budget: nat, y: System, run: seq<Event>, k: Key)
    requires SystemInv(c, y) && c.Valid() && Allowed(c, budget, y, run)
    requires StageOf(y.pipe, k) == Gone && NeverWanted(run, k)
    ensures StageOf(After(c, budget, y, run).pipe, k) == Gone
    ensures forall ev | ev in run :: !Serves(ev, k)
    decreases |run|
  {
    if run != [] {
      if Serves(run[0], k) {
        ServesTracked(c, y, run[0], k);
      }
      hide SystemInv, Enabled, Apply, Serves, Wants, Recent;
      assert run[0] in run;
      EventKeeps(c, budget, y, run[0]);
      KeyMoves(c, budget, y, run[0], k);
      GoneStaysGone(c, budget, Apply(c, budget, y, run[0]), run[1..], k);
      forall ev | ev in run ensures !Serves(ev, k) {
        assert ev == run[0] || ev in run[1..];
      }
    }
  }
}
