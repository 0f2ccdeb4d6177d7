/** When the decode cap is a cap: the number of queued decodes stays within it exactly when at most one
    fetch may be in flight. */
module PipelineCap {
  import opened BrickKeys
  import opened PipelineSpec
  import opened PipelineInv
  import opened PipelineSteps
  import opened PipelineRuns

  function Ask(k: Key): seq<Request> {
    [Request(k, 0.0)]
  }

  /** With an empty heap and room under the caps, submitting one new key starts its fetch. */
  lemma SubmitOne(c: Config, s: State, k: Key)
    requires s.heap == {} && k !in s.tracked
    requires s.inflight < c.maxInflight && s.decodes < c.maxQueued && s.readyBytes < c.maxReadyBytes
    ensures var s' := Submit(c, s, Ask(k));
            && s'.heap == {} && s'.inflight == s.inflight + 1
            && s'.decodes == s.decodes && s'.readyBytes == s.readyBytes
            && s'.world.fetches == s.world.fetches + multiset{k}
            && s'.tracked.Keys == s.tracked.Keys + {k}
  {
    var s1 := NewEpoch(s, Ask(k));
    var e := HeapEntry(0.0, s1.nextSeq, k);
    assert Ask(k)[..0] == [];
    assert EnqueueAll(s1, Ask(k)) == Enqueue(s1, Ask(k)[0]);
    var mid := BeforePump(s, Ask(k));
    assert mid.heap == {e};
    var s2 := Popped(mid, Top(mid.heap));
    assert Top(mid.heap) == e;
    assert s2.heap == {};
    assert Pump(c, mid) == s2;
  }

  lemma AnswerOne(c: Config, s: State, k: Key)
    requires k in s.tracked
    ensures var s' := FetchDone(c, s, k, Data);
            && s'.heap == s.heap && s'.inflight == s.inflight - 1 && s'.decodes == s.decodes + 1
            && s'.readyBytes == s.readyBytes && s'.world.fetches == s.world.fetches - multiset{k}
            && s'.tracked.Keys == s.tracked.Keys
  {
  }

  /** A supply of distinct keys. */
  function Nth(i: nat): Key {
    Key(0, Coord(0, 0, i / AXIS, i % AXIS))
  }

  lemma NthFits(i: nat)
    requires i < 0x1_0000_0000
    ensures Fits(Nth(i))
  {
  }

  lemma NthDistinct(i: nat, j: nat)
    ensures Nth(i) == Nth(j) ==> i == j
  {
  }

  /** n keys submitted, `flying` of them still being fetched, the rest decoding, nothing waiting. */
  ghost predicate Loaded(y: System, n: nat, flying: nat) {
    && y.cache == [] && y.pipe.heap == {} && y.pipe.readyBytes == 0
    && y.pipe.inflight == flying && y.pipe.decodes == n - flying
    && (forall k | k in y.pipe.tracked :: exists i: nat :: i < n && k == Nth(i))
    && (forall i: nat | i < n :: Nth(i) in y.pipe.tracked)
    && (forall i: nat | n - flying <= i < n :: Nth(i) in y.pipe.world.fetches)
  }

  lemma LoadOne(c: Config, budget: nat, y: System, n: nat, flying: nat)
    requires c.Valid() && Loaded(y, n, flying) && n < 0x1_0000_0000
    requires flying < c.maxInflight && n - flying < c.maxQueued
    ensures Enabled(y, Submits(Ask(Nth(n))))
    ensures Loaded(Apply(c, budget, y, Submits(Ask(Nth(n)))), n + 1, flying + 1)
  {
    hide Submit, Fits;
    NthFits(n);
    forall i: nat | i < n ensures Nth(i) != Nth(n) {
      NthDistinct(i, n);
    }
    hide Nth;
    SubmitOne(c, y.pipe, Nth(n));
    assert Nth(n) in Apply(c, budget, y, Submits(Ask(Nth(n)))).pipe.world.fetches;
  }

  lemma LandOne(c: Config, budget: nat, y: System, n: nat, flying: nat)
    requires Loaded(y, n, flying) && 1 <= flying <= n
    ensures Enabled(y, Answers(Nth(n - flying), Data))
    ensures Loaded(Apply(c, budget, y, Answers(Nth(n - flying), Data)), n, flying - 1)
  {
    var k := Nth(n - flying);
    AnswerOne(c, y.pipe, k);
    forall i: nat | n - flying < i < n ensures Nth(i) != k {
      NthDistinct(i, n - flying);
    }
    hide Nth, FetchDone;
    assert Apply(c, budget, y, Answers(k, Data)).pipe.world.fetches == y.pipe.world.fetches - multiset{k};
  }

  lemma {:induction false} RunOneMore(c: Config, budget: nat, y: System, run: seq<Event>, ev: Event)
    requires Allowed(c, budget, y, run) && Enabled(After(c, budget, y, run), ev)
    ensures Allowed(c, budget, y, run + [ev])
    ensures After(c, budget, y, run + [ev]) == Apply(c, budget, After(c, budget, y, run), ev)
    decreases |run|
  {
    hide Enabled, Apply;
    if run == [] {
      assert [] + [ev] == [ev];
      assert [ev][1..] == [];
    } else {
      RunOneMore(c, budget, Apply(c, budget, y, run[0]), run[1..], ev);
      assert (run + [ev])[1..] == run[1..] + [ev];
    }
  }

  lemma Load(c: Config, budget: nat, run: seq<Event>, n: nat, flying: nat) returns (run': seq<Event>)
    requires c.Valid() && Allowed(c, budget, START, run) && n < 0x1_0000_0000
    requires Loaded(After(c, budget, START, run), n, flying)
    requires flying < c.maxInflight && n - flying < c.maxQueued
    ensures Allowed(c, budget, START, run') && Loaded(After(c, budget, START, run'), n + 1, flying + 1)
  {
    hide Loaded, Enabled, Apply;
    LoadOne(c, budget, After(c, budget, START, run), n, flying);
    RunOneMore(c, budget, START, run, Submits(Ask(Nth(n))));
    run' := run + [Submits(Ask(Nth(n)))];
  }

  lemma Land(c: Config, budget: nat, run: seq<Event>, n: nat, flying: nat) returns (run': seq<Event>)
    requires Allowed(c, budget, START, run) && 1 <= flying <= n
    requires Loaded(After(c, budget, START, run), n, flying)
    ensures Allowed(c, budget, START, run') && Loaded(After(c, budget, START, run'), n, flying - 1)
  {
    hide Loaded, Enabled, Apply;
    LandOne(c, budget, After(c, budget, START, run), n, flying);
    RunOneMore(c, budget, START, run, Answers(Nth(n - flying), Data));
    run' := run + [Answers(Nth(n - flying), Data)];
  }

  lemma {:induction false} Fill(c: Config, budget: nat, n: nat) returns (run: seq<Event>)
    requires c.Valid() && n <= c.maxQueued && n < 0x1_0000_0000
    ensures Allowed(c, budget, START, run) && Loaded(After(c, budget, START, run), n, 0)
  {
    hide Enabled, Apply, Nth;
    if n == 0 {
      run := [];
    } else {
      run := Fill(c, budget, n - 1);
      hide Loaded;
      run := Load(c, budget, run, n - 1, 0);
      run := Land(c, budget, run, n, 1);
    }
  }

  /** With room for two fetches, some run queues one decode more than the cap. */
  lemma Overshoot(c: Config, budget: nat) returns (run: seq<Event>)
    requires c.Valid() && c.maxInflight >= 2 && c.maxQueued < 0x8000_0000
    ensures Allowed(c, budget, START, run) && After(c, budget, START, run).pipe.decodes == c.maxQueued + 1
  {
    hide Enabled, Apply, Nth;
    var n := c.maxQueued - 1;
    run := Fill(c, budget, n);
    run := Load(c, budget, run, n, 0);
    run := Load(c, budget, run, n + 1, 1);
    run := Land(c, budget, run, n + 2, 2);
    run := Land(c, budget, run, n + 2, 1);
  }

  ghost predicate CapHolds(c: Config, budget: nat) {
    forall run | Allowed(c, budget, START, run) :: After(c, budget, START, run).pipe.decodes <= c.maxQueued
  }

  /** The queued decodes respect their cap in every run exactly when one fetch at a time is allowed. */
  lemma DecodeCapIff(c: Config, budget: nat)
    requires c.Valid() && c.maxQueued < 0x8000_0000
    ensures CapHolds(c, budget) <==> c.maxInflight == 1
  {
    if c.maxInflight == 1 {
      forall run | Allowed(c, budget, START, run) ensures After(c, budget, START, run).pipe.decodes <= c.maxQueued {
        EveryRunIsSafe(c, budget, run);
      }
    } else {
      var run := Overshoot(c, budget);
    }
  }
}
