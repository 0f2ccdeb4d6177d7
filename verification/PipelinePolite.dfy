/** Callers whose runs spare every pin: they want no brick that is published and not yet given back, and keep their
    hands off this pipeline's entries in the cache. */
module PipelinePolite {
  import opened BrickKeys
  import opened PipelineSpec
  import opened PipelineInv
  import opened PipelineSteps
  import opened PipelineRuns
  import opened PipelinePins
  import LruSpec

  ghost predicate Mine(y: System, k: Key) {
    k in y.pipe.tracked || Holds(y.pipe.world.held, k)
  }

  ghost predicate Polite(y: System, ev: Event) {
    match ev
    case Submits(wanted) => forall r | r in wanted :: !Holds(y.pipe.world.held, r.key)
    case OthersInsert(e) => !Mine(y, e.key)
    case OthersUnpin(k) => !Mine(y, k)
    case _ => true
  }

  ghost predicate KeysDistinct(l: seq<Brick>) {
    forall i, j :: 0 <= i < j < |l| ==> l[i].key != l[j].key
  }

  /** A key that is published and not released has no second life. */
  ghost predicate HeldOnce(y: System) {
    KeysDistinct(y.pipe.world.held) && forall b | b in y.pipe.world.held :: b.key !in y.pipe.tracked
  }

  // ---------- polite events give no key a second life ----------

  /** Pipeline steps that publish nothing and release nothing. */
  lemma OncePipe(y: System, y': System)
    requires HeldOnce(y) && y'.pipe.world.held == y.pipe.world.held
    requires forall k | k in y'.pipe.tracked :: k in y.pipe.tracked || !Holds(y.pipe.world.held, k)
    ensures HeldOnce(y')
  {
    forall b | b in y.pipe.world.held ensures b.key !in y'.pipe.tracked {
      var i :| 0 <= i < |y.pipe.world.held| && y.pipe.world.held[i] == b;
      assert Holds(y.pipe.world.held, b.key);
    }
  }

  lemma OnceSubmit(c: Config, y: System, wanted: seq<Request>)
    requires HeldOnce(y) && Polite(y, Submits(wanted))
    ensures HeldOnce(y.(pipe := Submit(c, y.pipe, wanted)))
  {
    var s, s1 := y.pipe, NewEpoch(y.pipe, wanted);
    var s', mid := Submit(c, s, wanted), BeforePump(s, wanted);
    hide HeldOnce, Pump, EnqueueAll, KeyPumped, Holds;
    PumpCalm(c, mid);
    SubmitBackdrop(s, wanted);
    forall k | k in s'.tracked ensures k in s.tracked || !Holds(s.world.held, k) {
      EnqueueAllKey(s1, wanted, k);
      assert k in mid.tracked;
    }
    OncePipe(y, y.(pipe := s'));
  }

  /** A published brick joins the held ones. */
  lemma OncePublish(c: Config, y: System, k: Key)
    requires SystemInv(c, y) && HeldOnce(y) && k in y.inserted
    ensures HeldOnce(y.(pipe := Publish(c, y.pipe, y.inserted[k]), inserted := y.inserted - {k}))
  {
    hide Inv, CacheOk, Pump;
    var s, b := y.pipe, y.inserted[k];
    PumpCalm(c, Deliver(c, EndDecode(s, k), b));
    assert k in s.tracked;
    var held' := s.world.held + [b];
    forall i, j | 0 <= i < j < |held'| ensures held'[i].key != held'[j].key {
      assert held'[i] in s.world.held;
    }
  }

  /** Removing a key from a list of distinct keys leaves distinct keys, without that one. */
  lemma {:induction false} MinusDistinct(l: seq<Brick>, k: Key)
    requires KeysDistinct(l)
    ensures KeysDistinct(Minus(l, k)) && forall b | b in Minus(l, k) :: b.key != k
  {
    if l != [] {
      var t := l[1..];
      forall i, j | 0 <= i < j < |t| ensures t[i].key != t[j].key {
        assert t[i] == l[i + 1] && t[j] == l[j + 1];
      }
      forall b | b in t ensures b.key != l[0].key {
        var i :| 0 <= i < |t| && t[i] == b;
        assert l[i + 1] == b;
      }
      assert KeysDistinct(t);
      if l[0].key != k {
        hide KeysDistinct;
        assert Minus(l, k) == [l[0]] + Minus(t, k);
        hide Minus;
        MinusDistinct(t, k);
        forall b ensures b in Minus(t, k) ==> b in t {
          MinusMembers(t, k, b);
        }
        ConsDistinct(l[0], Minus(t, k));
      }
    }
  }

  lemma ConsDistinct(b: Brick, r: seq<Brick>)
    requires KeysDistinct(r) && forall x | x in r :: x.key != b.key
    ensures KeysDistinct([b] + r)
  {
    var m := [b] + r;
    forall i, j | 0 <= i < j < |m| ensures m[i].key != m[j].key {
      assert m[j] == r[j - 1] && r[j - 1] in r;
      if i > 0 {
        assert m[i] == r[i - 1];
      }
    }
  }

  /** A released brick leaves the held ones. */
  lemma OnceRelease(y: System, y': System, k: Key)
    requires HeldOnce(y) && y'.pipe.tracked == y.pipe.tracked && y'.pipe.world.held == Minus(y.pipe.world.held, k)
    ensures HeldOnce(y')
  {
    MinusDistinct(y.pipe.world.held, k);
    forall b | b in y'.pipe.world.held ensures b in y.pipe.world.held {
      MinusMembers(y.pipe.world.held, k, b);
    }
  }

  lemma ReleaseMinus(c: Config, budget: nat, y: System, k: Key)
    requires Enabled(y, Releases(k))
    ensures var y' := Apply(c, budget, y, Releases(k));
            y'.pipe.tracked == y.pipe.tracked && y'.pipe.world.held == Minus(y.pipe.world.held, k)
  {
    DrainedIsHeld(y.pipe, k);
  }

  lemma OnceKept(c: Config, budget: nat, y: System, ev: Event)
    requires SystemInv(c, y) && HeldOnce(y) && Enabled(y, ev) && Polite(y, ev)
    ensures HeldOnce(Apply(c, budget, y, ev))
  {
    hide Core, NotStuck, CacheOk, InsertedOk, HeldOnce, Drained, Pump, Minus, LruSpec.Get, LruSpec.Insert, LruSpec.Repin;
    var y' := Apply(c, budget, y, ev);
    match ev {
      case Submits(wanted) => OnceSubmit(c, y, wanted);
      case Answers(k, o) => AnswerCalm(c, y.pipe, k, o); OncePipe(y, y');
      case DecodeFails(k) => PumpCalm(c, EndDecode(y.pipe, k)); OncePipe(y, y');
      case Publishes(k) => OncePublish(c, y, k);
      case Releases(k) => ReleaseMinus(c, budget, y, k); OnceRelease(y, y', k);
      case Unpins(k) => PumpCalm(c, GiveBack(c, y.pipe, k)); OncePipe(y, y');
      case _ => OncePipe(y, y');
    }
  }

  // ---------- polite events spare the pins ----------

  lemma HeldHas(y: System, b: Brick)
    requires b in y.pipe.world.held
    ensures Holds(y.pipe.world.held, b.key)
  {
    var i :| 0 <= i < |y.pipe.world.held| && y.pipe.world.held[i] == b;
  }

  lemma ReleaseSpares(y: System, k: Key)
    requires InsertedOk(y) && HeldOnce(y) && Enabled(y, Releases(k))
    ensures Spares(y, Releases(k))
  {
    var held := y.pipe.world.held;
    DrainedIsHeld(y.pipe, k);
    var i :| 0 <= i < |held| && held[i].key == k;
    assert held[i] in held;
    MinusDistinct(held, k);
  }

  lemma PoliteSpares(c: Config, y: System, ev: Event)
    requires SystemInv(c, y) && HeldOnce(y) && Enabled(y, ev) && Polite(y, ev)
    ensures Spares(y, ev)
  {
    if ev.Releases? {
      ReleaseSpares(y, ev.key);
    } else {
      if ev.Inserts? {
        JobFindsKey(c, y.pipe, ev.brick.key);
      }
      forall b | b in y.pipe.world.held ensures Holds(y.pipe.world.held, b.key) {
        HeldHas(y, b);
      }
      hide Inv, CacheOk, Holds, Twice, Minus;
    }
  }

  // ---------- whole runs ----------

  ghost predicate AllPolite(c: Config, budget: nat, y: System, run: seq<Event>)
    requires Allowed(c, budget, y, run)
    decreases |run|
  {
    run == [] || (Polite(y, run[0]) && AllPolite(c, budget, Apply(c, budget, y, run[0]), run[1..]))
  }

  lemma {:induction false} PoliteRunSpares(c: Config, budget: nat, y: System, run: seq<Event>)
    requires SystemInv(c, y) && HeldOnce(y) && c.Valid() && Allowed(c, budget, y, run) && AllPolite(c, budget, y, run)
    ensures AllSpare(c, budget, y, run) && HeldOnce(After(c, budget, y, run))
    decreases |run|
  {
    hide SystemInv, HeldOnce, Enabled, Polite, Spares, Apply;
    if run != [] {
      EventKeeps(c, budget, y, run[0]);
      OnceKept(c, budget, y, run[0]);
      PoliteSpares(c, y, run[0]);
      PoliteRunSpares(c, budget, Apply(c, budget, y, run[0]), run[1..]);
    }
  }

  /** In every state of every polite run each brick published and not released is in the cache, pinned. */
  lemma EveryPoliteRunKeepsPins(c: Config, budget: nat, run: seq<Event>)
    requires c.Valid() && Allowed(c, budget, START, run) && AllPolite(c, budget, START, run)
    ensures var y := After(c, budget, START, run);
            forall b | b in y.pipe.world.held :: Pinned(y.cache, b) && b.key !in y.pipe.tracked
  {
    InitInv(c);
    PoliteRunSpares(c, budget, START, run);
    EverySparingRunKeepsPins(c, budget, run);
    var y := After(c, budget, START, run);
    hide Pinned;
    forall b | b in y.pipe.world.held ensures Pinned(y.cache, b) {
      assert Owed(y, b);
    }
  }
}
