/** Three runs in which a published brick loses its pin because its key was wanted again before it was given back: the
    first unpin takes the second life's pin, before or after that is published, or another brick takes its entry. */
module PinLapses {
  import opened BrickKeys
  import opened PipelineSpec
  import opened PipelineInv
  import opened PipelineSteps
  import opened PipelineRuns
  import opened PipelineCap
  import opened PipelinePins
  import LruSpec

  const K := Key(0, Coord(0, 0, 0, 0))
  const B := Brick(K, true, 0)
  const E := LruSpec.Entry(K, B, 0, 1)

  /** Nothing under way; `held` bricks out, `ready` of them not drained. */
  ghost predicate Resting(y: System, held: nat, ready: seq<Brick>) {
    && y.pipe.heap == {} && y.pipe.tracked == map[] && y.pipe.inflight == 0 && y.pipe.decodes == 0
    && y.pipe.world.held == seq(held, _ => B) && y.pipe.ready == ready && y.inserted == map[]
    && y.pipe.world.fetches == multiset{} && y.pipe.world.jobs == multiset{}
  }

  /** A pump with nothing queued does nothing. */
  lemma IdlePump(c: Config, s: State)
    requires s.heap == {}
    ensures Pump(c, s) == s
  {
  }

  /** The brick is asked for and its read comes back. */
  lemma FetchRound(c: Config, budget: nat, run: seq<Event>, held: nat, ready: seq<Brick>) returns (run': seq<Event>)
    requires c.Valid() && Allowed(c, budget, START, run)
    requires var y := After(c, budget, START, run); Resting(y, held, ready) && y.pipe.readyBytes < c.maxReadyBytes
    ensures Allowed(c, budget, START, run')
    ensures var y, y' := After(c, budget, START, run), After(c, budget, START, run');
            && y'.cache == y.cache && y'.inserted == map[] && y'.pipe.heap == {} && y'.pipe.tracked.Keys == {K}
            && y'.pipe.inflight == 0 && y'.pipe.decodes == 1 && y'.pipe.readyBytes == y.pipe.readyBytes
            && y'.pipe.world.held == y.pipe.world.held && y'.pipe.ready == y.pipe.ready
            && y'.pipe.world.fetches == multiset{} && y'.pipe.world.jobs == multiset{K}
  {
    var y := After(c, budget, START, run);
    var y1 := Apply(c, budget, y, Submits(Ask(K)));
    SubmitOne(c, y.pipe, K);
    SubmitBackdrop(y.pipe, Ask(K));
    PumpEffect(c, BeforePump(y.pipe, Ask(K)));
    EnqueueBackdrop(NewEpoch(y.pipe, Ask(K)), Ask(K));
    hide Submit, Pump, EnqueueAll, Allowed, After, KeyPumped;
    RunOneMore(c, budget, START, run, Submits(Ask(K)));
    AnswerOne(c, y1.pipe, K);
    RunOneMore(c, budget, START, run + [Submits(Ask(K))], Answers(K, Data));
    run' := run + [Submits(Ask(K))] + [Answers(K, Data)];
  }

  /** ... and decoded, inserted and published. */
  lemma PublishRound(c: Config, budget: nat, run: seq<Event>, held: nat, ready: seq<Brick>) returns (run': seq<Event>)
    requires c.Valid() && Allowed(c, budget, START, run)
    requires var y := After(c, budget, START, run); Resting(y, held, ready) && y.pipe.readyBytes < c.maxReadyBytes
    ensures Allowed(c, budget, START, run')
    ensures var y, y' := After(c, budget, START, run), After(c, budget, START, run');
            && Resting(y', held + 1, ready + [B]) && y'.cache == LruSpec.Insert(y.cache, budget, E)
            && y'.pipe.readyBytes == y.pipe.readyBytes + c.chunk(0)
  {
    run' := FetchRound(c, budget, run, held, ready);
    var y := After(c, budget, START, run');
    hide Allowed, After, LruSpec.Insert;
    assert K in y.pipe.world.jobs;
    RunOneMore(c, budget, START, run', Inserts(B));
    var y1 := Apply(c, budget, y, Inserts(B));
    RunOneMore(c, budget, START, run' + [Inserts(B)], Publishes(K));
    run' := run' + [Inserts(B)] + [Publishes(K)];
    var s := Deliver(c, EndDecode(y1.pipe, K), B);
    IdlePump(c, s);
    assert s.tracked == map[];
    assert s.world.held == seq(held + 1, _ => B);
  }

  /** One pin, one unpin: the entry is still there, without a pin. */
  lemma PinGone(l: Cache, budget: nat)
    requires CacheOk(l)
    ensures !Pinned(LruSpec.Unpin(LruSpec.Insert(l, budget, E), K), B)
  {
    InsertKeeps(l, budget, E);
    LruSpec.InsertKeepsIff(l, budget, E);
    var m := LruSpec.Insert(l, budget, E);
    hide LruSpec.Insert;
    LruSpec.FindAt(m, 0);
    var u := LruSpec.Unpin(m, K);
    assert u == m[0 := E.(pins := 0)];
    forall e | e in u && e.key == K ensures e.pins == 0 {
      var i :| 0 <= i < |u| && u[i] == e;
      assert i == 0;
    }
  }

  lemma ReleaseTwin(c: Config, budget: nat, y: System)
    requires Resting(y, 2, [])
    ensures Enabled(y, Releases(K)) && B in Apply(c, budget, y, Releases(K)).pipe.world.held
    ensures Apply(c, budget, y, Releases(K)).cache == LruSpec.Unpin(y.cache, K)
  {
    hide LruSpec.Unpin;
    assert y.pipe.world.held == [B, B];
    assert [B, B][1..] == [B] && [B][1..] == [];
    assert Times([B], K) == 1;
    assert Times([B, B], K) == 2;
    assert Minus([B, B], K) == [B];
  }

  lemma StartInv(c: Config)
    requires c.Valid()
    ensures SystemInv(c, START)
  {
    InitInv(c);
  }

  lemma InvCache(c: Config, y: System)
    requires SystemInv(c, y)
    ensures CacheOk(y.cache)
  {
  }

  /** The brick is published a second time while the first is still held; both are drained. */
  lemma TwoLives(c: Config, budget: nat) returns (run: seq<Event>, l: Cache)
    requires c.Valid() && c.chunk(0) < c.maxReadyBytes
    ensures Allowed(c, budget, START, run) && Resting(After(c, budget, START, run), 2, [])
    ensures CacheOk(l) && After(c, budget, START, run).cache == LruSpec.Insert(l, budget, E)
  {
    run := PublishRound(c, budget, [], 0, []);
    hide Allowed, After, LruSpec.Insert, SystemInv, Inv, CacheOk;
    StartInv(c);
    RunKeeps(c, budget, START, run);
    l := After(c, budget, START, run).cache;
    InvCache(c, After(c, budget, START, run));
    run := PublishRound(c, budget, run, 1, [B]);
    RunOneMore(c, budget, START, run, Drains);
    run := run + [Drains];
  }

  /** Both lives are published, and the first one is given back. */
  lemma UnpinTakesTwin(c: Config, budget: nat) returns (run: seq<Event>)
    requires c.Valid() && c.chunk(0) < c.maxReadyBytes
    ensures Allowed(c, budget, START, run)
    ensures var y := After(c, budget, START, run); B in y.pipe.world.held && !Pinned(y.cache, B)
  {
    hide Allowed, After, LruSpec.Insert, LruSpec.Unpin, Pinned, Resting, Apply, Enabled;
    var l;
    run, l := TwoLives(c, budget);
    ReleaseTwin(c, budget, After(c, budget, START, run));
    PinGone(l, budget);
    RunOneMore(c, budget, START, run, Releases(K));
    run := run + [Releases(K)];
  }

  /** The brick is held and drained, and a second read of it has come back. */
  ghost predicate ReadTwice(y: System) {
    && CacheOk(y.cache) && y.inserted == map[] && y.pipe.heap == {} && y.pipe.tracked.Keys == {K}
    && y.pipe.world.held == [B] && y.pipe.ready == [] && y.pipe.world.jobs == multiset{K}
  }

  lemma SecondRead(c: Config, budget: nat) returns (run: seq<Event>)
    requires c.Valid() && c.chunk(0) < c.maxReadyBytes
    ensures Allowed(c, budget, START, run) && ReadTwice(After(c, budget, START, run))
  {
    run := PublishRound(c, budget, [], 0, []);
    hide Allowed, After, LruSpec.Insert, SystemInv, Inv;
    RunOneMore(c, budget, START, run, Drains);
    run := run + [Drains];
    run := FetchRound(c, budget, run, 1, []);
    StartInv(c);
    RunKeeps(c, budget, START, run);
    InvCache(c, After(c, budget, START, run));
  }

  /** Decoding the second read gives another brick, which takes the entry of the first. */
  lemma InsertDropsFirst(c: Config, budget: nat) returns (run: seq<Event>)
    requires c.Valid() && c.chunk(0) < c.maxReadyBytes
    ensures Allowed(c, budget, START, run)
    ensures var y := After(c, budget, START, run); B in y.pipe.world.held && !Pinned(y.cache, B)
  {
    run := SecondRead(c, budget);
    var y, other := After(c, budget, START, run), Brick(K, false, 1);
    hide Allowed, After, LruSpec.Insert, Pinned, CacheOk;
    assert K in y.pipe.world.jobs;
    RunOneMore(c, budget, START, run, Inserts(other));
    InsertPinnedIff(y.cache, budget, LruSpec.Entry(K, other, 1, 1), B);
    run := run + [Inserts(other)];
  }

  /** The first life is given back while the second is inserted and not published, so it is published without a pin. */
  lemma UnpinBeforePublish(c: Config, budget: nat) returns (run: seq<Event>)
    requires c.Valid() && c.chunk(0) < c.maxReadyBytes
    ensures Allowed(c, budget, START, run)
    ensures var y := After(c, budget, START, run); B in y.pipe.world.held && !Pinned(y.cache, B)
  {
    run := SecondRead(c, budget);
    var y := After(c, budget, START, run);
    hide Allowed, After, LruSpec.Insert, LruSpec.Unpin, Pinned, CacheOk;
    assert K in y.pipe.world.jobs;
    RunOneMore(c, budget, START, run, Inserts(B));
    var y1 := Apply(c, budget, y, Inserts(B));
    LastRelease(c, budget, y1);
    PinGone(y.cache, budget);
    RunOneMore(c, budget, START, run + [Inserts(B)], Releases(K));
    var y2 := Apply(c, budget, y1, Releases(K));
    RunOneMore(c, budget, START, run + [Inserts(B)] + [Releases(K)], Publishes(K));
    IdlePump(c, Deliver(c, EndDecode(y2.pipe, K), B));
    run := run + [Inserts(B)] + [Releases(K)] + [Publishes(K)];
  }

  lemma LastRelease(c: Config, budget: nat, y: System)
    requires y.pipe.world.held == [B] && y.pipe.ready == []
    ensures Enabled(y, Releases(K))
    ensures var y' := Apply(c, budget, y, Releases(K));
            && y'.cache == LruSpec.Unpin(y.cache, K) && y'.inserted == y.inserted
            && y'.pipe.heap == y.pipe.heap && y'.pipe.tracked == y.pipe.tracked
  {
    hide LruSpec.Unpin;
    assert [B][1..] == [];
    assert Times([B], K) == 1;
  }
}
