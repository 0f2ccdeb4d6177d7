/** In which order the upload ring takes, uploads and frees, over every interleaving. */
module RingOrder {
  import opened Numbers
  import opened UploadRing

  // ---------- bricks are taken in the order they came ----------

  /** The bricks an event accepts: the one enqueued, unless 4096 wait already. */
  function Accepted(r: Ring, ev: Event): seq<Item> {
    if ev.Enqueues? && |r.pending| < 4096 then [ev.item] else []
  }

  /** The bricks workers start on between two states: those in the slots that have a writer now and had none. */
  ghost function Started(r: Ring, r': Ring): seq<Item> {
    if i :| i in r'.writers && i !in r.writers && i < |r'.slots| then [r'.slots[i].item] else []
  }

  ghost function AllAccepted(r: Ring, run: seq<Event>): seq<Item>
    requires Inv(r) && CanRun(r, run)
    decreases |run|
  {
    if run == [] then []
    else
      EventKeeps(r, run[0]);
      Accepted(r, run[0]) + AllAccepted(Apply(r, run[0]), run[1..])
  }

  ghost function AllStarted(r: Ring, run: seq<Event>): seq<Item>
    requires Inv(r) && CanRun(r, run)
    decreases |run|
  {
    if run == [] then []
    else
      EventKeeps(r, run[0]);
      Started(r, Apply(r, run[0])) + AllStarted(Apply(r, run[0]), run[1..])
  }

  ghost predicate CanRun(r: Ring, run: seq<Event>)
    requires Inv(r)
    decreases |run|
  {
    run == [] || (Enabled(r, run[0]) && (EventKeeps(r, run[0]); CanRun(Apply(r, run[0]), run[1..])))
  }

  ghost function After(r: Ring, run: seq<Event>): Ring
    requires Inv(r) && CanRun(r, run)
    decreases |run|
  {
    if run == [] then r
    else
      EventKeeps(r, run[0]);
      After(Apply(r, run[0]), run[1..])
  }

  /** The state after a run is the one the run leads to. */
  lemma {:induction false} AfterLeads(r: Ring, run: seq<Event>, r': Ring)
    requires Inv(r)
    ensures Leads(r, run, r') <==> CanRun(r, run) && r' == After(r, run)
    decreases |run|
  {
    hide Inv, Enabled, Apply;
    if run != [] && Enabled(r, run[0]) {
      EventKeeps(r, run[0]);
      AfterLeads(Apply(r, run[0]), run[1..], r');
    }
  }

  lemma TakeStarts(r: Ring)
    requires Inv(r) && r.jobs > 0
    ensures Started(r, Take(r)) + Take(r).pending == r.pending
  {
    var i, r' := FirstFree(r.slots, |r.slots|), Take(r);
    hide Load, FirstFree;
    if r.pending != [] && i < |r.slots| {
      assert i !in r.writers;
      assert forall j | j in r'.writers && j !in r.writers :: j == i;
      assert i in r'.writers;
      assert Started(r, r') == [r.pending[0]];
    } else {
      assert Started(r, r') == [];
    }
  }

  lemma OrderStep(r: Ring, ev: Event)
    requires Inv(r) && Enabled(r, ev)
    ensures Started(r, Apply(r, ev)) + Apply(r, ev).pending == r.pending + Accepted(r, ev)
  {
    hide Load, Inv, SetAll, ItemsOf, NextBatch, FirstFree;
    match ev {
      case Takes => TakeStarts(r);
      case _ =>
    }
  }

  /** The bricks that workers start on, in order, followed by those waiting, are those that waited before the run
      followed by those it accepts, in order. */
  lemma {:induction false} OldestFirst(r: Ring, run: seq<Event>)
    requires Inv(r) && CanRun(r, run)
    ensures AllStarted(r, run) + After(r, run).pending == r.pending + AllAccepted(r, run)
    decreases |run|
  {
    hide Inv, Enabled, Apply, Started, Accepted;
    if run != [] {
      var ev, r1 := run[0], Apply(r, run[0]);
      EventKeeps(r, ev);
      OrderStep(r, ev);
      OldestFirst(r1, run[1..]);
      calc {
        AllStarted(r, run) + After(r, run).pending;
        Started(r, r1) + (AllStarted(r1, run[1..]) + After(r1, run[1..]).pending);
        (Started(r, r1) + r1.pending) + AllAccepted(r1, run[1..]);
        r.pending + AllAccepted(r, run);
      }
    }
  }

  lemma EveryBrickInTurn(n: nat, run: seq<Event>)
    requires (StartInv(n); CanRun(Start(n), run))
    ensures AllStarted(Start(n), run) + After(Start(n), run).pending == AllAccepted(Start(n), run)
  {
    StartInv(n);
    OldestFirst(Start(n), run);
  }

  // ---------- slots are freed in the order they were sent ----------

  /** The slots an event sends to the GPU, and those it frees. */
  ghost function Sent(r: Ring, ev: Event): seq<nat>
    requires Inv(r) && Enabled(r, ev)
  {
    if ev.Selects? then Batch(Apply(r, ev).drain) else []
  }

  ghost function Freed(r: Ring, ev: Event): seq<nat>
    requires Enabled(r, ev)
  {
    if ev.Recycles? then r.fences[0] else []
  }

  predicate Flies(r: Ring, i: nat) {
    i < |r.slots| && r.slots[i].state == InFlight
  }

  /** Exactly the slots sent take off and exactly those freed land, free; what a slot holds never changes in flight. */
  lemma FlightsMove(r: Ring, ev: Event, i: nat)
    requires Inv(r) && Enabled(r, ev)
    ensures var r' := Apply(r, ev);
            && (i in Sent(r, ev) <==> !Flies(r, i) && Flies(r', i))
            && (i in Freed(r, ev) <==> Flies(r, i) && !Flies(r', i))
            && (i in Freed(r, ev) ==> i < |r'.slots| && r'.slots[i].state == Free)
            && (Flies(r, i) && Flies(r', i) ==> r'.slots[i].item == r.slots[i].item)
  {
    hide Load, ItemsOf, FirstFree, SetAll, ReadyUpTo, Limit;
    match ev {
      case Recycles =>
        RecycleOwners(r);
        assert i in r.fences[0] ==> Flies(r, i) by {
          if i in r.fences[0] {
            var j :| 0 <= j < |r.fences[0]| && r.fences[0][j] == i;
          }
        }
      case Selects(budget) =>
        var ids := NextBatch(r, budget);
        assert i in ids ==> i < |r.slots| && r.slots[i].state == Ready by {
          if i in ids {
            var j :| 0 <= j < |ids| && ids[j] == i;
            assert r.slots[ids[j]].state == Ready;
          }
        }
      case _ =>
    }
  }

  lemma FlightStep(r: Ring, ev: Event)
    requires Inv(r) && Enabled(r, ev)
    ensures Freed(r, ev) + Guarded(Apply(r, ev)) == Guarded(r) + Sent(r, ev)
  {
    hide Load, Inv, SetAll, ItemsOf, FirstFree, ReadyUpTo;
    match ev {
      case EndsDrain => FlatAppend(r.fences, r.drain.batch);
      case Recycles => RecycleKeeps(r);
      case _ =>
    }
  }

  ghost function AllSent(r: Ring, run: seq<Event>): seq<nat>
    requires Inv(r) && CanRun(r, run)
    decreases |run|
  {
    if run == [] then []
    else
      EventKeeps(r, run[0]);
      Sent(r, run[0]) + AllSent(Apply(r, run[0]), run[1..])
  }

  ghost function AllFreed(r: Ring, run: seq<Event>): seq<nat>
    requires Inv(r) && CanRun(r, run)
    decreases |run|
  {
    if run == [] then []
    else
      EventKeeps(r, run[0]);
      Freed(r, run[0]) + AllFreed(Apply(r, run[0]), run[1..])
  }

  /** Slots come free in the order in which they were sent to the GPU. */
  lemma {:induction false} FirstSentFirstFreed(r: Ring, run: seq<Event>)
    requires Inv(r) && CanRun(r, run)
    ensures AllFreed(r, run) + Guarded(After(r, run)) == Guarded(r) + AllSent(r, run)
    decreases |run|
  {
    hide Inv, Enabled, Apply, Sent, Freed, Guarded;
    if run != [] {
      var ev, r1 := run[0], Apply(r, run[0]);
      EventKeeps(r, ev);
      FlightStep(r, ev);
      FirstSentFirstFreed(r1, run[1..]);
      calc {
        AllFreed(r, run) + Guarded(After(r, run));
        Freed(r, ev) + (AllFreed(r1, run[1..]) + Guarded(After(r1, run[1..])));
        (Freed(r, ev) + Guarded(r1)) + AllSent(r1, run[1..]);
        Guarded(r) + AllSent(r, run);
      }
    }
  }

  // ---------- which slots a drain sends ----------

  /** A drain sends ready slots, lowest first, as many as the budget allows; a negative budget allows all. */
  lemma BatchExact(r: Ring, budget: int)
    ensures var ids := NextBatch(r, budget);
            && (forall i, j :: 0 <= i < j < |ids| ==> ids[i] < ids[j])
            && (forall i | i in ids :: i < |r.slots| && r.slots[i].state == Ready)
            && (budget >= 0 ==> |ids| <= budget)
            && forall i: nat | i < |r.slots| && r.slots[i].state == Ready && i !in ids ::
                 0 <= budget == |ids| && forall j | j in ids :: j < i
  {
    var limit := if budget < 0 then |r.slots| else budget;
    ReadyExact(r.slots, |r.slots|, limit);
    var ids := ReadyUpTo(r.slots, |r.slots|, limit);
    forall i: nat | i < |r.slots| && r.slots[i].state == Ready && i !in ids ensures budget >= 0 {
      if budget < 0 {
        RisingShort(ids, |r.slots|, i);
      }
    }
  }

  lemma {:induction false} ReadyExact(slots: seq<Slot>, n: nat, limit: nat)
    requires n <= |slots|
    ensures var ids := ReadyUpTo(slots, n, limit);
            && (forall i, j :: 0 <= i < j < |ids| ==> ids[i] < ids[j])
            && (forall i | i in ids :: i < n && slots[i].state == Ready)
            && forall i: nat | i < n && slots[i].state == Ready && i !in ids :: |ids| == limit && forall j | j in ids :: j < i
  {
    if n > 0 {
      ReadyExact(slots, n - 1, limit);
    }
  }

  /** A rising list of numbers below n that leaves one out is shorter than n. */
  lemma RisingShort(ids: seq<nat>, n: nat, out: nat)
    requires (forall i, j :: 0 <= i < j < |ids| ==> ids[i] < ids[j]) && (forall i | i in ids :: i < n)
    requires out < n && out !in ids
    ensures |ids| < n
  {
    if |ids| >= n {
      RisingBelow(ids, out);
      RisingUnder(ids, n, out);
      assert false;
    }
  }

  lemma {:induction false} RisingUnder(ids: seq<nat>, n: nat, i: nat)
    requires (forall i, j :: 0 <= i < j < |ids| ==> ids[i] < ids[j]) && (forall i | i in ids :: i < n)
    requires i < |ids|
    ensures ids[i] + |ids| <= n + i
    decreases |ids| - i
  {
    assert ids[i] in ids;
    if i < |ids| - 1 {
      RisingUnder(ids, n, i + 1);
    }
  }

  /** The busy slots counted are those that are not free. */
  lemma {:induction false} BusyCount(slots: seq<Slot>)
    ensures Busy(slots) == |set i | 0 <= i < |slots| && slots[i].state != Free|
  {
    var s := set i | 0 <= i < |slots| && slots[i].state != Free;
    if slots != [] {
      var n := |slots| - 1;
      BusyCount(slots[..n]);
      var t := set i | 0 <= i < n && slots[..n][i].state != Free;
      assert s == t + if slots[n].state != Free then {n} else {};
    }
  }
}
