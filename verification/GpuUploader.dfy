/** The uploader object: each locked section, and each step of the render thread, on its own fields. */
module GpuUploaders {
  import opened BrickKeys
  import opened UploadRing
  import RingOrder

  class GpuUploader {
    var slots: seq<Slot>
    var pending: seq<Item>
    var fences: seq<seq<nat>>
    ghost var jobs: nat
    ghost var kicks: nat
    ghost var writers: set<nat>
    ghost var drain: Drain
    ghost var accepted: multiset<Item>
    ghost var handed: multiset<Item>

    ghost function View(): Ring
      reads this
    {
      Ring(slots, pending, fences, jobs, kicks, writers, drain, accepted, handed)
    }

    ghost predicate Valid()
      reads this
    {
      Inv(View())
    }

    /** An initialised ring: all slots free, nothing waiting. */
    constructor (slotCount: nat)
      ensures Valid() && View() == Start(slotCount)
    {
      slots := seq(slotCount, _ => Slot(Free, Item(Key(0, Coord(0, 0, 0, 0)), false, 0, 255)));
      pending, fences := [], [];
      jobs, kicks, writers, drain, accepted, handed := 0, 0, {}, Idle, multiset{}, multiset{};
      new;
      StartInv(slotCount);
    }

    /** Queues a brick unless the queue is saturated; the caller then owes the pool a job. */
    method Enqueue(item: Item) returns (ok: bool)
      requires Valid()
      modifies this
      ensures Valid() && View() == UploadRing.Enqueue(old(View()), item)
      ensures ok <==> |old(pending)| < 4096
      ensures pending == if ok then old(pending) + [item] else old(pending)
    {
      hide Inv;
      EnqueueKeeps(View(), item);
      if |pending| >= MAX_PENDING {
        return false;
      }
      pending := pending + [item];
      kicks := kicks + 1;
      accepted := accepted + multiset{item};
      ok := true;
    }

    method KickWorkers()
      requires Valid() && kicks > 0
      modifies this
      ensures Valid() && View() == Post(old(View()))
    {
      hide Inv;
      PostKeeps(View());
      kicks, jobs := kicks - 1, jobs + 1;
    }

    /** A worker's locked look for work: the slot it claimed, with the brick to assemble, or none. */
    method TakeWork() returns (found: bool, slot: nat, item: Item)
      requires Valid() && jobs > 0
      modifies this
      ensures Valid() && View() == Take(old(View()))
      ensures found <==> old(pending) != [] && HasFree(old(slots))
      ensures found ==> slot in writers && slot < |slots| && slots[slot] == Slot(Writing, item)
      ensures if found then old(pending) == [item] + pending else pending == old(pending)
    {
      hide Inv, FirstFree, HasFree;
      TakeKeeps(View());
      found, slot, item := false, 0, Item(Key(0, Coord(0, 0, 0, 0)), false, 0, 255);
      if pending == [] {
        jobs := jobs - 1;
        return;
      }
      while slot < |slots| && slots[slot].state != Free
        invariant slot <= |slots| && forall j :: 0 <= j < slot ==> slots[j].state != Free
        invariant View() == old(View())
      {
        slot := slot + 1;
      }
      FirstFreeIs(slots, |slots|, slot);
      jobs := jobs - 1;
      if slot == |slots| {
        return;
      }
      found, item := true, pending[0];
      pending := pending[1..];
      slots := slots[slot := Slot(Writing, item)];
      writers := writers + {slot};
    }

    /** The worker's slot is assembled; the worker goes round again. */
    method FinishWork(slot: nat)
      requires Valid() && slot in writers
      modifies this
      ensures slot < |old(slots)|
      ensures Valid() && View() == Finish(old(View()), slot)
    {
      hide Inv;
      FinishKeeps(View(), slot);
      slots := slots[slot := slots[slot].(state := Ready)];
      writers := writers - {slot};
      jobs := jobs + 1;
    }

    method BeginDrain()
      requires Valid() && drain == Idle
      modifies this
      ensures Valid() && View() == UploadRing.BeginDrain(old(View()))
    {
      hide Inv;
      BeginDrainKeeps(View());
      drain := Recycling(false);
    }

    /** The oldest fence has signalled. */
    method RecycleFront()
      requires Valid() && drain.Recycling? && fences != []
      modifies this
      ensures Below(old(fences)[0], |old(slots)|)
      ensures Valid() && View() == Recycle(old(View()))
    {
      hide Inv;
      RecycleKeeps(View());
      var ids := fences[0];
      SetStates(ids, Free);
      fences := fences[1..];
      drain := Recycling(true);
    }

    method SetStates(ids: seq<nat>, state: SlotState)
      requires Below(ids, |slots|)
      modifies this
      ensures View() == old(View()).(slots := SetAll(old(slots), ids, state))
    {
      for j := 0 to |ids|
        invariant View() == old(View()).(slots := SetAll(old(slots), ids[..j], state))
      {
        assert ids[..j + 1][..j] == ids[..j];
        slots := slots[ids[j] := slots[ids[j]].(state := state)];
      }
      assert ids[..|ids|] == ids;
    }

    /** Picks the slots to upload this time; the caller hands each to the cache from its slot. */
    method SelectBatch(budget: int) returns (batch: seq<nat>)
      requires Valid() && drain.Recycling?
      modifies this
      ensures Valid() && View() == Select(old(View()), budget)
      ensures batch == NextBatch(old(View()), budget) && drain.Uploading? && batch == drain.batch
      ensures forall i :: 0 <= i < |batch| ==> batch[i] < |old(slots)| && old(slots)[batch[i]].state == Ready
    {
      hide Inv;
      SelectKeeps(View(), budget);
      var limit := Limit(budget, |slots|);
      batch := [];
      ghost var was := slots;
      var i := 0;
      while i < |slots| && |batch| < limit
        invariant i <= |slots| && View() == old(View()) && was == slots
        invariant batch == ReadyUpTo(slots, i, limit)
      {
        if slots[i].state == Ready {
          batch := batch + [i];
        }
        i := i + 1;
      }
      ReadySaturated(slots, i, |slots|, limit);
      SetStates(batch, InFlight);
      handed := handed + ItemsOf(was, batch);
      drain := Uploading(drain.freed, batch);
    }

    /** A fence goes in behind the batch; freed or used slots call for a worker. */
    method EndDrain(batch: seq<nat>) returns (uploaded: nat)
      requires Valid() && drain.Uploading? && batch == drain.batch
      modifies this
      ensures Valid() && View() == UploadRing.EndDrain(old(View()))
      ensures uploaded == |batch|
    {
      hide Inv;
      EndDrainKeeps(View());
      uploaded := |batch|;
      if batch != [] {
        fences := fences + [batch];
      }
      if drain.freed || batch != [] {
        jobs := jobs + 1;
      }
      drain := Idle;
    }

    method PendingCount() returns (n: nat)
      ensures n == |pending| + |set i | 0 <= i < |slots| && slots[i].state != Free|
    {
      n := 0;
      for i := 0 to |slots|
        invariant n == Busy(slots[..i])
      {
        assert slots[..i + 1][..i] == slots[..i];
        if slots[i].state != Free {
          n := n + 1;
        }
      }
      assert slots[..|slots|] == slots;
      RingOrder.BusyCount(slots);
      n := |pending| + n;
    }
  }

  lemma {:induction false} FirstFreeIs(slots: seq<Slot>, n: nat, i: nat)
    requires i <= n <= |slots| && (i < n ==> slots[i].state == Free)
    requires forall j :: 0 <= j < i ==> slots[j].state != Free
    ensures FirstFree(slots, n) == i
    ensures n == |slots| ==> (HasFree(slots) <==> i < n)
  {
    var f := FirstFree(slots, n);
    hide FirstFree;
  }

  /** Once the limit is reached or the end, looking further adds nothing. */
  lemma {:induction false} ReadySaturated(slots: seq<Slot>, i: nat, n: nat, limit: nat)
    requires i <= n <= |slots| && (i == n || |ReadyUpTo(slots, i, limit)| >= limit)
    ensures ReadyUpTo(slots, n, limit) == ReadyUpTo(slots, i, limit)
  {
    if i < n {
      ReadySaturated(slots, i, n - 1, limit);
    }
  }
}
