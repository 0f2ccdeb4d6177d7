/** From publishing to draining: every brick published is handed over once, in order. */
module PipelineFlow {
  import opened BrickKeys
  import opened PipelineSpec
  import opened PipelineInv
  import opened PipelineSteps
  import opened PipelineRuns
  import LruSpec

  // ---------- first in, first out ----------

  /** What one event hands over and what it publishes. */
  ghost function Out(y: System, ev: Event): seq<Brick> {
    if ev.Drains? then y.pipe.ready else []
  }

  ghost function In(y: System, ev: Event): seq<Brick>
    requires Enabled(y, ev)
  {
    if ev.Publishes? then [y.inserted[ev.key]] else []
  }

  /** What the drains of a run return, one after the other. */
  ghost function HandedOver(c: Config, budget: nat, y: System, run: seq<Event>): seq<Brick>
    requires Allowed(c, budget, y, run)
    decreases |run|
  {
    if run == [] then []
    else Out(y, run[0]) + HandedOver(c, budget, Apply(c, budget, y, run[0]), run[1..])
  }

  /** The bricks a run publishes, one after the other. */
  ghost function Published(c: Config, budget: nat, y: System, run: seq<Event>): seq<Brick>
    requires Allowed(c, budget, y, run)
    decreases |run|
  {
    if run == [] then []
    else In(y, run[0]) + Published(c, budget, Apply(c, budget, y, run[0]), run[1..])
  }

  /** Nothing but publishing and draining touches the ready bricks, nothing but those and releasing the held ones. */
  lemma ReadyKept(c: Config, budget: nat, y: System, ev: Event)
    requires SystemInv(c, y) && Enabled(y, ev) && !ev.Publishes? && !ev.Drains?
    ensures Apply(c, budget, y, ev).pipe.ready == y.pipe.ready
    ensures !ev.Releases? ==> Apply(c, budget, y, ev).pipe.world.held == y.pipe.world.held
  {
    hide Core, NotStuck, CacheOk, Pump, EnqueueAll, Drained;
    match ev {
      case Submits(wanted) => SubmitBackdrop(y.pipe, wanted); PumpCalm(c, BeforePump(y.pipe, wanted));
      case Answers(k, o) => AnswerCalm(c, y.pipe, k, o);
      case DecodeFails(k) => PumpCalm(c, EndDecode(y.pipe, k));
      case Unpins(k) => PumpCalm(c, GiveBack(c, y.pipe, k));
      case _ =>
    }
  }

  lemma PublishAdds(c: Config, budget: nat, y: System, k: Key)
    requires SystemInv(c, y) && Enabled(y, Publishes(k))
    ensures var y' := Apply(c, budget, y, Publishes(k));
            && y'.pipe.ready == y.pipe.ready + [y.inserted[k]]
            && y'.pipe.world.held == y.pipe.world.held + [y.inserted[k]]
  {
    hide Inv, CacheOk, Pump;
    PumpCalm(c, Deliver(c, EndDecode(y.pipe, k), y.inserted[k]));
  }

  lemma FlowStep(c: Config, budget: nat, y: System, ev: Event)
    requires SystemInv(c, y) && Enabled(y, ev)
    ensures Out(y, ev) + Apply(c, budget, y, ev).pipe.ready == y.pipe.ready + In(y, ev)
  {
    if ev.Publishes? {
      PublishAdds(c, budget, y, ev.key);
    } else if !ev.Drains? {
      ReadyKept(c, budget, y, ev);
    }
    hide SystemInv;
  }

  /** The bricks that the drains of a run return, followed by those still ready, are those that were ready before it
      followed by those it publishes. */
  lemma {:induction false} FirstInFirstOut(c: Config, budget: nat, y: System, run: seq<Event>)
    requires SystemInv(c, y) && c.Valid() && Allowed(c, budget, y, run)
    ensures HandedOver(c, budget, y, run) + After(c, budget, y, run).pipe.ready
         == y.pipe.ready + Published(c, budget, y, run)
    decreases |run|
  {
    hide SystemInv, Enabled, Apply, In, Out;
    if run != [] {
      var y' := Apply(c, budget, y, run[0]);
      EventKeeps(c, budget, y, run[0]);
      FlowStep(c, budget, y, run[0]);
      FirstInFirstOut(c, budget, y', run[1..]);
      calc {
        HandedOver(c, budget, y, run) + After(c, budget, y, run).pipe.ready;
        Out(y, run[0]) + (HandedOver(c, budget, y', run[1..]) + After(c, budget, y', run[1..]).pipe.ready);
        (Out(y, run[0]) + y'.pipe.ready) + Published(c, budget, y', run[1..]);
        y.pipe.ready + Published(c, budget, y, run);
      }
    }
  }

  lemma EveryBrickHandedOver(c: Config, budget: nat, run: seq<Event>)
    requires c.Valid() && Allowed(c, budget, START, run)
    ensures HandedOver(c, budget, START, run) + After(c, budget, START, run).pipe.ready
         == Published(c, budget, START, run)
  {
    InitInv(c);
    FirstInFirstOut(c, budget, START, run);
  }

  // ---------- the bytes follow the bricks ----------

  /** The bytes a publishing charges and an unpin gives back: the size of a chunk of the brick's level. */
  ghost function Charged(c: Config, y: System, ev: Event): int
    requires Enabled(y, ev)
  {
    match ev
    case Publishes(k) => c.chunk(y.inserted[k].key.coord.level)
    case Unpins(k) => 0 - c.chunk(k.coord.level)
    case _ => 0
  }

  ghost function TotalCharged(c: Config, budget: nat, y: System, run: seq<Event>): int
    requires Allowed(c, budget, y, run)
    decreases |run|
  {
    if run == [] then 0
    else Charged(c, y, run[0]) + TotalCharged(c, budget, Apply(c, budget, y, run[0]), run[1..])
  }

  lemma BytesStep(c: Config, budget: nat, y: System, ev: Event)
    requires SystemInv(c, y) && c.Valid() && Enabled(y, ev)
    ensures Apply(c, budget, y, ev).pipe.readyBytes == y.pipe.readyBytes + Charged(c, y, ev)
  {
    hide Core, NotStuck, CacheOk, InsertedOk, Pump, EnqueueAll, Drained;
    match ev {
      case Submits(wanted) =>
        EnqueueBackdrop(NewEpoch(y.pipe, wanted), wanted);
        PumpCalm(c, BeforePump(y.pipe, wanted));
      case Answers(k, o) => CallbackFindsKey(c, y.pipe, k); PumpCalm(c, Erase(FetchReturned(y.pipe, k), k));
      case DecodeFails(k) => PumpCalm(c, EndDecode(y.pipe, k));
      case Publishes(k) => InsertedIsJob(c, y, k); PumpCalm(c, Deliver(c, EndDecode(y.pipe, k), y.inserted[k]));
      case Unpins(k) => UnpinExact(c, y.pipe, k); PumpCalm(c, GiveBack(c, y.pipe, k));
      case _ =>
    }
  }

  /** The ready bytes are what publishing charged less what unpins gave back. */
  lemma {:induction false} BytesBalance(c: Config, budget: nat, y: System, run: seq<Event>)
    requires SystemInv(c, y) && c.Valid() && Allowed(c, budget, y, run)
    ensures After(c, budget, y, run).pipe.readyBytes == y.pipe.readyBytes + TotalCharged(c, budget, y, run)
    decreases |run|
  {
    hide SystemInv, Enabled, Apply, Charged;
    if run != [] {
      EventKeeps(c, budget, y, run[0]);
      BytesStep(c, budget, y, run[0]);
      BytesBalance(c, budget, Apply(c, budget, y, run[0]), run[1..]);
    }
  }

  // ---------- what is ready is held ----------

  /** The bricks of key k in a list, in order. */
  ghost function Of(l: seq<Brick>, k: Key): seq<Brick> {
    if l == [] then [] else (if l[0].key == k then [l[0]] else []) + Of(l[1..], k)
  }

  ghost predicate EndsWith(l: seq<Brick>, tail: seq<Brick>) {
    |tail| <= |l| && l[|l| - |tail|..] == tail
  }

  /** Of each key the ready bricks are the youngest held ones. */
  ghost predicate ReadyIsHeld(s: State) {
    forall k :: EndsWith(Of(s.world.held, k), Of(s.ready, k))
  }

  lemma {:induction false} OfAppend(l: seq<Brick>, b: Brick, k: Key)
    ensures Of(l + [b], k) == Of(l, k) + if b.key == k then [b] else []
  {
    if l == [] {
      assert l + [b] == [b] && [b][1..] == [];
    } else {
      OfAppend(l[1..], b, k);
      assert (l + [b])[1..] == l[1..] + [b];
    }
  }

  lemma {:induction false} OfMinus(l: seq<Brick>, k: Key, j: Key)
    requires Holds(l, k)
    ensures Of(l, k) != [] && Of(Minus(l, k), j) == if j == k then Of(l, j)[1..] else Of(l, j)
  {
    if l[0].key != k {
      var i :| 0 <= i < |l| && l[i].key == k;
      assert l[1..][i - 1].key == k;
      OfMinus(l[1..], k, j);
      assert Minus(l, k)[1..] == Minus(l[1..], k);
    }
  }

  lemma {:induction false} OfTimes(l: seq<Brick>, k: Key)
    ensures |Of(l, k)| == Times(l, k)
  {
    if l != [] {
      OfTimes(l[1..], k);
    }
  }

  lemma {:induction false} OfCounts(l: seq<Brick>, b: Brick)
    ensures multiset(l)[b] == multiset(Of(l, b.key))[b]
  {
    if l != [] {
      OfCounts(l[1..], b);
      assert l == [l[0]] + l[1..];
    }
  }

  lemma ReadyReleased(s: State, s': State, k: Key)
    requires ReadyIsHeld(s) && Drained(s, k) && Holds(s.world.held, k)
    requires s'.ready == s.ready && s'.world.held == Minus(s.world.held, k)
    ensures ReadyIsHeld(s')
  {
    forall j ensures EndsWith(Of(s'.world.held, j), Of(s'.ready, j)) {
      assert EndsWith(Of(s.world.held, j), Of(s.ready, j));
      OfMinus(s.world.held, k, j);
      OfTimes(s.world.held, k);
      OfTimes(s.ready, k);
    }
  }

  lemma ReadyPublished(s: State, s': State, b: Brick)
    requires ReadyIsHeld(s) && s'.ready == s.ready + [b] && s'.world.held == s.world.held + [b]
    ensures ReadyIsHeld(s')
  {
    forall k ensures EndsWith(Of(s'.world.held, k), Of(s'.ready, k)) {
      assert EndsWith(Of(s.world.held, k), Of(s.ready, k));
      OfAppend(s.world.held, b, k);
      OfAppend(s.ready, b, k);
    }
  }

  lemma ReleaseApplied(c: Config, budget: nat, y: System, k: Key)
    requires Enabled(y, Releases(k))
    ensures Drained(y.pipe, k) && Holds(y.pipe.world.held, k)
    ensures Apply(c, budget, y, Releases(k)).pipe.world.held == Minus(y.pipe.world.held, k)
  {
    DrainedIsHeld(y.pipe, k);
  }

  lemma ReadyEvent(c: Config, budget: nat, y: System, ev: Event)
    requires SystemInv(c, y) && Enabled(y, ev) && ReadyIsHeld(y.pipe)
    ensures ReadyIsHeld(Apply(c, budget, y, ev).pipe)
  {
    var s, s' := y.pipe, Apply(c, budget, y, ev).pipe;
    if ev.Drains? {
      assert s'.ready == [];
      return;
    }
    hide Apply, SystemInv, Drained;
    match ev {
      case Publishes(k) =>
        PublishAdds(c, budget, y, k);
        hide ReadyIsHeld, Enabled;
        ReadyPublished(s, s', y.inserted[k]);
      case Releases(k) =>
        ReadyKept(c, budget, y, ev);
        ReleaseApplied(c, budget, y, k);
        hide ReadyIsHeld, Enabled;
        ReadyReleased(s, s', k);
      case _ =>
        hide Enabled;
        ReadyKept(c, budget, y, ev);
    }
  }

  lemma {:induction false} ReadyRun(c: Config, budget: nat, y: System, run: seq<Event>)
    requires SystemInv(c, y) && c.Valid() && Allowed(c, budget, y, run) && ReadyIsHeld(y.pipe)
    ensures ReadyIsHeld(After(c, budget, y, run).pipe)
    decreases |run|
  {
    hide SystemInv, Enabled, Apply, ReadyIsHeld;
    if run != [] {
      EventKeeps(c, budget, y, run[0]);
      ReadyEvent(c, budget, y, run[0]);
      ReadyRun(c, budget, Apply(c, budget, y, run[0]), run[1..]);
    }
  }

  /** In every state of every run each ready brick is held, as often as it is ready. */
  lemma ReadyAreHeld(c: Config, budget: nat, run: seq<Event>)
    requires c.Valid() && Allowed(c, budget, START, run)
    ensures var s := After(c, budget, START, run).pipe; multiset(s.ready) <= multiset(s.world.held)
  {
    InitInv(c);
    ReadyRun(c, budget, START, run);
    var s := After(c, budget, START, run).pipe;
    hide ReadyIsHeld;
    forall b ensures multiset(s.ready)[b] <= multiset(s.world.held)[b] {
      ReadyCounts(s, b);
    }
  }

  lemma ReadyCounts(s: State, b: Brick)
    requires ReadyIsHeld(s)
    ensures multiset(s.ready)[b] <= multiset(s.world.held)[b]
  {
    OfCounts(s.ready, b);
    OfCounts(s.world.held, b);
    var h, r := Of(s.world.held, b.key), Of(s.ready, b.key);
    assert EndsWith(h, r);
    hide ReadyIsHeld, Of;
    assert h == h[..|h| - |r|] + r;
  }
}
