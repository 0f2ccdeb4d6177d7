/** The upload ring shared by enqueuers, assembly workers and the render thread, as a value with its atomic steps. */
module UploadRing {
  import opened BrickKeys
  import opened Numbers

  datatype Item = Item(key: Key, pinned: bool, minVal: nat, maxVal: nat)

  datatype SlotState = Free | Writing | Ready | InFlight

  datatype Slot = Slot(state: SlotState, item: Item)

  /** Where the render thread is in its drain: not draining, recycling fenced slots, or uploading a batch. */
  datatype Drain = Idle | Recycling(freed: bool) | Uploading(freed: bool, batch: seq<nat>)

  /** `jobs` counts worker jobs queued or about to look for work, `kicks` jobs about to be posted, `writers` the
      slots a worker is filling; `accepted` and `handed` remember what came in and what went to the cache. */
  datatype Ring = Ring(slots: seq<Slot>, pending: seq<Item>, fences: seq<seq<nat>>,
                       jobs: nat, kicks: nat, writers: set<nat>, drain: Drain,
                       accepted: multiset<Item>, handed: multiset<Item>)

  const MAX_PENDING := 4096

  // ---------- what the slots hold ----------

  predicate Loaded(s: Slot) {
    s.state == Writing || s.state == Ready
  }

  function Share(s: Slot, x: Item): nat {
    if Loaded(s) && s.item == x then 1 else 0
  }

  /** How often brick x is in the ring without the cache having been given it. */
  function Load(slots: seq<Slot>, x: Item): nat {
    if slots == [] then 0 else Load(slots[..|slots| - 1], x) + Share(slots[|slots| - 1], x)
  }

  lemma {:induction false} LoadUpdate(slots: seq<Slot>, i: nat, s: Slot, x: Item)
    requires i < |slots|
    ensures Load(slots[i := s], x) + Share(slots[i], x) == Load(slots, x) + Share(s, x)
  {
    hide Share;
    var n := |slots| - 1;
    if i == n {
      assert slots[i := s][..n] == slots[..n];
    } else {
      LoadUpdate(slots[..n], i, s, x);
      assert slots[i := s][..n] == slots[..n][i := s];
    }
  }

  lemma {:induction false} LoadSame(a: seq<Slot>, b: seq<Slot>, x: Item)
    requires |a| == |b| && forall i :: 0 <= i < |a| ==> Share(a[i], x) == Share(b[i], x)
    ensures Load(a, x) == Load(b, x)
  {
    if a != [] {
      LoadSame(a[..|a| - 1], b[..|b| - 1], x);
    }
  }

  function Flat(batches: seq<seq<nat>>): seq<nat> {
    if batches == [] then [] else batches[0] + Flat(batches[1..])
  }

  lemma {:induction false} FlatAppend(a: seq<seq<nat>>, b: seq<nat>)
    ensures Flat(a + [b]) == Flat(a) + b
  {
    if a == [] {
      assert a + [b] == [b];
      assert [b][1..] == [];
    } else {
      FlatAppend(a[1..], b);
      assert (a + [b])[1..] == a[1..] + [b];
    }
  }

  function Batch(d: Drain): seq<nat> {
    if d.Uploading? then d.batch else []
  }

  /** The slots the GPU may still be reading: those behind a fence and those of the current batch. */
  function Guarded(r: Ring): seq<nat> {
    Flat(r.fences) + Batch(r.drain)
  }

  predicate Below(ids: seq<nat>, n: nat) {
    forall j :: 0 <= j < |ids| ==> ids[j] < n
  }

  // ---------- the invariants ----------

  ghost predicate FlightOk(slots: seq<Slot>, guarded: seq<nat>) {
    forall i: nat | i < |slots| :: slots[i].state == InFlight <==> i in guarded
  }

  ghost predicate WritersOk(slots: seq<Slot>, writers: set<nat>) {
    && (forall i | i in writers :: i < |slots|)
    && (forall i: nat | i < |slots| :: slots[i].state == Writing <==> i in writers)
  }

  /** Each in-flight slot belongs to exactly one batch, each slot being written to one worker. */
  ghost predicate OwnersOk(r: Ring) {
    && Distinct(Guarded(r)) && Below(Guarded(r), |r.slots|)
    && FlightOk(r.slots, Guarded(r)) && WritersOk(r.slots, r.writers)
  }

  /** Every accepted brick waits, or is in the ring, or was handed over: once each. */
  ghost predicate Conserved(r: Ring) {
    forall x: Item :: r.accepted[x] == multiset(r.pending)[x] + Load(r.slots, x) + r.handed[x]
  }

  predicate WillKick(d: Drain) {
    match d
    case Idle => false
    case Recycling(freed) => freed
    case Uploading(freed, batch) => freed || batch != []
  }

  ghost predicate HasFree(slots: seq<Slot>) {
    exists i :: 0 <= i < |slots| && slots[i].state == Free
  }

  /** Work that could proceed has a worker job queued, running or about to be posted. */
  ghost predicate NoLostWakeup(r: Ring) {
    r.pending != [] && HasFree(r.slots) ==> r.jobs > 0 || r.writers != {} || r.kicks > 0 || WillKick(r.drain)
  }

  ghost predicate Inv(r: Ring) {
    OwnersOk(r) && Conserved(r) && NoLostWakeup(r)
  }

  // ---------- the steps ----------

  function Start(n: nat): Ring {
    Ring(seq(n, _ => Slot(Free, Item(Key(0, Coord(0, 0, 0, 0)), false, 0, 255))), [], [], 0, 0, {}, Idle,
         multiset{}, multiset{})
  }

  /** enqueue, under the lock: the kick follows once the lock is released. */
  function Enqueue(r: Ring, item: Item): Ring {
    if |r.pending| >= MAX_PENDING then r
    else r.(pending := r.pending + [item], kicks := r.kicks + 1, accepted := r.accepted + multiset{item})
  }

  function Post(r: Ring): Ring
    requires r.kicks > 0
  {
    r.(kicks := r.kicks - 1, jobs := r.jobs + 1)
  }

  /** Index of the first free slot among the first n, or n. */
  function FirstFree(slots: seq<Slot>, n: nat): (i: nat)
    requires n <= |slots|
    ensures i <= n
    ensures i < n ==> slots[i].state == Free
    ensures forall j :: 0 <= j < i ==> slots[j].state != Free
  {
    if n == 0 then 0
    else
      var i := FirstFree(slots, n - 1);
      if i < n - 1 then i else if slots[n - 1].state == Free then n - 1 else n
  }

  /** The worker claims slot i for the oldest brick. */
  function Claim(r: Ring, i: nat): Ring
    requires r.jobs > 0 && r.pending != [] && i < |r.slots|
  {
    r.(jobs := r.jobs - 1, writers := r.writers + {i}, pending := r.pending[1..],
       slots := r.slots[i := Slot(Writing, r.pending[0])])
  }

  /** A worker looks for work, under the lock: it ends, or claims the first free slot for the oldest brick. */
  function Take(r: Ring): Ring
    requires r.jobs > 0
  {
    var i := FirstFree(r.slots, |r.slots|);
    if r.pending == [] || i == |r.slots| then r.(jobs := r.jobs - 1) else Claim(r, i)
  }

  /** A worker has filled its slot; it goes round to look for more. */
  function Finish(r: Ring, i: nat): Ring
    requires i in r.writers && i < |r.slots|
  {
    r.(jobs := r.jobs + 1, writers := r.writers - {i}, slots := r.slots[i := r.slots[i].(state := Ready)])
  }

  function BeginDrain(r: Ring): Ring {
    r.(drain := Recycling(false))
  }

  /** The slots with those listed put into a state, one after the other. */
  function SetAll(slots: seq<Slot>, ids: seq<nat>, state: SlotState): (r: seq<Slot>)
    requires Below(ids, |slots|)
    ensures |r| == |slots|
    ensures forall j: nat | j < |slots| :: r[j] == if j in ids then slots[j].(state := state) else slots[j]
  {
    if ids == [] then slots
    else
      var n := |ids| - 1;
      assert ids == ids[..n] + [ids[n]];
      var r := SetAll(slots, ids[..n], state);
      r[ids[n] := r[ids[n]].(state := state)]
  }

  /** The oldest fence has signalled: its slots are free again. */
  function Recycle(r: Ring): Ring
    requires r.fences != [] && Below(r.fences[0], |r.slots|)
  {
    r.(slots := SetAll(r.slots, r.fences[0], Free), fences := r.fences[1..], drain := Recycling(true))
  }

  /** The first ready slots among the first n, at most `limit` of them. */
  function ReadyUpTo(slots: seq<Slot>, n: nat, limit: nat): (ids: seq<nat>)
    requires n <= |slots|
    ensures |ids| <= limit && Below(ids, n)
    ensures forall j :: 0 <= j < |ids| ==> slots[ids[j]].state == Ready
    ensures Distinct(ids)
  {
    if n == 0 then []
    else
      var ids := ReadyUpTo(slots, n - 1, limit);
      if |ids| < limit && slots[n - 1].state == Ready then ids + [n - 1] else ids
  }

  /** A negative budget reads as no limit. */
  function Limit(budget: int, slots: nat): nat {
    if budget < 0 then slots else budget
  }

  function ItemsOf(slots: seq<Slot>, ids: seq<nat>): multiset<Item>
    requires Below(ids, |slots|)
  {
    if ids == [] then multiset{}
    else ItemsOf(slots, ids[..|ids| - 1]) + multiset{slots[ids[|ids| - 1]].item}
  }

  function NextBatch(r: Ring, budget: int): (ids: seq<nat>)
    ensures Below(ids, |r.slots|)
  {
    ReadyUpTo(r.slots, |r.slots|, Limit(budget, |r.slots|))
  }

  /** The batch goes to the cache; its slots stay guarded until the fence behind it signals. */
  function Select(r: Ring, budget: int): Ring
    requires r.drain.Recycling?
  {
    var ids := NextBatch(r, budget);
    r.(slots := SetAll(r.slots, ids, InFlight), drain := Uploading(r.drain.freed, ids),
       handed := r.handed + ItemsOf(r.slots, ids))
  }

  /** The fence goes in behind a non-empty batch; freed or used slots call for a worker. */
  function EndDrain(r: Ring): Ring
    requires r.drain.Uploading?
  {
    r.(fences := if r.drain.batch == [] then r.fences else r.fences + [r.drain.batch],
       jobs := r.jobs + (if r.drain.freed || r.drain.batch != [] then 1 else 0), drain := Idle)
  }

  // ---------- what they keep ----------

  /** Sending distinct ready slots off takes exactly their bricks out of the ring's load. */
  lemma {:induction false} LaunchLoad(slots: seq<Slot>, ids: seq<nat>, x: Item)
    requires Below(ids, |slots|) && Distinct(ids) && forall j :: 0 <= j < |ids| ==> slots[ids[j]].state == Ready
    ensures Load(slots, x) == Load(SetAll(slots, ids, InFlight), x) + ItemsOf(slots, ids)[x]
  {
    if ids != [] {
      var n := |ids| - 1;
      LaunchLoad(slots, ids[..n], x);
      var r := SetAll(slots, ids[..n], InFlight);
      assert ids[n] !in ids[..n];
      assert r[ids[n]] == slots[ids[n]];
      hide Load;
      LoadUpdate(r, ids[n], r[ids[n]].(state := InFlight), x);
    }
  }

  lemma EnqueueKeeps(r: Ring, item: Item)
    requires Inv(r)
    ensures Inv(Enqueue(r, item))
  {
    hide Load;
    assert Guarded(Enqueue(r, item)) == Guarded(r);
  }

  lemma PostKeeps(r: Ring)
    requires Inv(r) && r.kicks > 0
    ensures Inv(Post(r))
  {
    hide Load;
    assert Guarded(Post(r)) == Guarded(r);
  }

  /** A slot outside the guarded ones changes hands. */
  lemma OwnersMove(r: Ring, r': Ring, i: nat, s: Slot)
    requires OwnersOk(r) && i < |r.slots| && r'.slots == r.slots[i := s] && Guarded(r') == Guarded(r)
    requires r.slots[i].state != InFlight && s.state != InFlight
    requires r'.writers == if s.state == Writing then r.writers + {i} else r.writers - {i}
    ensures OwnersOk(r')
  {
    hide Guarded;
  }

  lemma ClaimKeeps(r: Ring, i: nat)
    requires Inv(r) && r.jobs > 0 && r.pending != [] && i < |r.slots| && r.slots[i].state == Free
    ensures Inv(Claim(r, i))
  {
    hide Load;
    var r' := Claim(r, i);
    assert Guarded(r') == Guarded(r);
    OwnersMove(r, r', i, Slot(Writing, r.pending[0]));
    hide OwnersOk, Guarded;
    assert r.pending == [r.pending[0]] + r.pending[1..];
    forall x: Item ensures r'.accepted[x] == multiset(r'.pending)[x] + Load(r'.slots, x) + r'.handed[x] {
      LoadUpdate(r.slots, i, Slot(Writing, r.pending[0]), x);
    }
  }

  lemma TakeKeeps(r: Ring)
    requires Inv(r) && r.jobs > 0
    ensures Inv(Take(r))
  {
    var i := FirstFree(r.slots, |r.slots|);
    hide Load, FirstFree;
    if r.pending != [] && i < |r.slots| {
      ClaimKeeps(r, i);
    } else {
      assert Guarded(Take(r)) == Guarded(r);
      assert i == |r.slots| ==> !HasFree(r.slots);
    }
  }

  lemma FinishKeeps(r: Ring, i: nat)
    requires Inv(r) && i in r.writers
    ensures i < |r.slots| && Inv(Finish(r, i))
  {
    hide Load;
    var s' := r.slots[i].(state := Ready);
    var r' := Finish(r, i);
    assert Guarded(r') == Guarded(r);
    OwnersMove(r, r', i, s');
    forall x: Item ensures Load(r'.slots, x) == Load(r.slots, x) {
      LoadUpdate(r.slots, i, s', x);
    }
    hide OwnersOk, Guarded;
  }

  lemma BeginDrainKeeps(r: Ring)
    requires Inv(r) && r.drain == Idle
    ensures Inv(BeginDrain(r))
  {
    hide Load;
    assert Guarded(BeginDrain(r)) == Guarded(r);
  }

  /** The first batch and the rest of the guarded slots have nothing in common. */
  lemma HeadApart(head: seq<nat>, rest: seq<nat>, n: nat)
    requires Distinct(head + rest) && Below(head + rest, n)
    ensures Below(head, n) && Distinct(rest) && Below(rest, n)
    ensures forall i | i in head :: i !in rest
  {
    var g := head + rest;
    forall a | 0 <= a < |head| ensures head[a] < n && head[a] !in rest {
      assert g[a] == head[a];
      forall b | 0 <= b < |rest| ensures rest[b] != head[a] {
        assert g[|head| + b] == rest[b];
      }
    }
    forall a | 0 <= a < |rest| ensures rest[a] == g[|head| + a] {
    }
  }

  lemma FlightShrinks(slots: seq<Slot>, head: seq<nat>, rest: seq<nat>)
    requires FlightOk(slots, head + rest) && Below(head, |slots|) && forall i | i in head :: i !in rest
    ensures FlightOk(SetAll(slots, head, Free), rest) && AllIn(slots, head, InFlight)
  {
    hide SetAll;
    forall i: nat ensures i in head + rest <==> i in head || i in rest {
    }
  }

  lemma RecycleOwners(r: Ring)
    requires OwnersOk(r) && r.drain.Recycling? && r.fences != []
    ensures Below(r.fences[0], |r.slots|) && AllIn(r.slots, r.fences[0], InFlight) && OwnersOk(Recycle(r))
  {
    hide FlightOk, WritersOk, Distinct, SetAll;
    var head, rest := r.fences[0], Flat(r.fences[1..]);
    assert Guarded(r) == head + rest;
    HeadApart(head, rest, |r.slots|);
    FlightShrinks(r.slots, head, rest);
    WritersKept(r.slots, r.writers, head, InFlight, Free);
    assert Guarded(Recycle(r)) == rest;
  }

  lemma RecycleKeeps(r: Ring)
    requires Inv(r) && r.drain.Recycling? && r.fences != []
    ensures Below(r.fences[0], |r.slots|) && Inv(Recycle(r))
  {
    hide Load, OwnersOk, Flat;
    RecycleOwners(r);
    var head, r' := r.fences[0], Recycle(r);
    forall x: Item ensures Load(r'.slots, x) == Load(r.slots, x) {
      forall i | 0 <= i < |r.slots| ensures Share(r.slots[i], x) == Share(r'.slots[i], x) {
        if i in head {
          var j :| 0 <= j < |head| && head[j] == i;
        }
      }
      LoadSame(r.slots, r'.slots, x);
    }
  }

  predicate AllIn(slots: seq<Slot>, ids: seq<nat>, state: SlotState)
    requires Below(ids, |slots|)
  {
    forall j :: 0 <= j < |ids| ==> slots[ids[j]].state == state
  }

  lemma ReadyUnguarded(slots: seq<Slot>, g: seq<nat>, ids: seq<nat>)
    requires FlightOk(slots, g) && Below(ids, |slots|) && AllIn(slots, ids, Ready)
    ensures forall j :: 0 <= j < |ids| ==> ids[j] !in g
  {
  }

  lemma DistinctJoin(g: seq<nat>, ids: seq<nat>)
    requires Distinct(g) && Distinct(ids) && forall j :: 0 <= j < |ids| ==> ids[j] !in g
    ensures Distinct(g + ids)
  {
    forall a, b | 0 <= a < b < |g + ids| ensures (g + ids)[a] != (g + ids)[b] {
      if a < |g| <= b {
        assert g[a] in g && (g + ids)[b] == ids[b - |g|];
      }
    }
  }

  lemma FlightGrows(slots: seq<Slot>, g: seq<nat>, ids: seq<nat>)
    requires FlightOk(slots, g) && Below(ids, |slots|)
    ensures FlightOk(SetAll(slots, ids, InFlight), g + ids)
  {
    hide SetAll;
    forall i: nat ensures i in g + ids <==> i in g || i in ids {
    }
  }

  lemma WritersKept(slots: seq<Slot>, writers: set<nat>, ids: seq<nat>, from: SlotState, to: SlotState)
    requires WritersOk(slots, writers) && Below(ids, |slots|) && AllIn(slots, ids, from) && from != Writing && to != Writing
    ensures WritersOk(SetAll(slots, ids, to), writers)
  {
    hide SetAll;
    forall i: nat | i < |slots| && i in ids ensures slots[i].state == from {
      var j :| 0 <= j < |ids| && ids[j] == i;
    }
  }

  lemma SelectOwners(r: Ring, budget: int)
    requires OwnersOk(r) && r.drain.Recycling?
    ensures OwnersOk(Select(r, budget))
  {
    hide FlightOk, WritersOk, Distinct, SetAll, ReadyUpTo, ItemsOf;
    var g, ids := Guarded(r), NextBatch(r, budget);
    assert AllIn(r.slots, ids, Ready);
    ReadyUnguarded(r.slots, g, ids);
    DistinctJoin(g, ids);
    FlightGrows(r.slots, g, ids);
    WritersKept(r.slots, r.writers, ids, Ready, InFlight);
    assert Guarded(Select(r, budget)) == g + ids;
  }

  lemma NoneFreed(slots: seq<Slot>, ids: seq<nat>)
    requires Below(ids, |slots|)
    ensures HasFree(SetAll(slots, ids, InFlight)) ==> HasFree(slots)
  {
    var r := SetAll(slots, ids, InFlight);
    hide SetAll;
    if HasFree(r) {
      var i :| 0 <= i < |r| && r[i].state == Free;
      assert slots[i].state == Free;
    }
  }

  lemma SelectKeeps(r: Ring, budget: int)
    requires Inv(r) && r.drain.Recycling?
    ensures Inv(Select(r, budget))
  {
    hide OwnersOk, Load, SetAll, ItemsOf, ReadyUpTo, HasFree;
    SelectOwners(r, budget);
    var ids, r' := NextBatch(r, budget), Select(r, budget);
    NoneFreed(r.slots, ids);
    forall x: Item ensures Load(r.slots, x) == Load(r'.slots, x) + ItemsOf(r.slots, ids)[x] {
      LaunchLoad(r.slots, ids, x);
    }
  }

  lemma EndDrainKeeps(r: Ring)
    requires Inv(r) && r.drain.Uploading?
    ensures Inv(EndDrain(r))
  {
    hide Load;
    FlatAppend(r.fences, r.drain.batch);
    assert Guarded(EndDrain(r)) == Guarded(r);
  }

  // ---------- every interleaving ----------

  datatype Event =
    | Enqueues(item: Item)
    | Posts
    | Takes
    | Finishes(slot: nat)
    | BeginsDrain
    | Recycles               // a fence signals, oldest first
    | Selects(budget: int)
    | EndsDrain

  ghost predicate Enabled(r: Ring, ev: Event) {
    match ev
    case Enqueues(_) => true
    case Posts => r.kicks > 0
    case Takes => r.jobs > 0
    case Finishes(i) => i in r.writers
    case BeginsDrain => r.drain == Idle
    case Recycles => r.drain.Recycling? && r.fences != []
    case Selects(_) => r.drain.Recycling?
    case EndsDrain => r.drain.Uploading?
  }

  ghost function Apply(r: Ring, ev: Event): Ring
    requires Inv(r) && Enabled(r, ev)
  {
    match ev
    case Enqueues(item) => Enqueue(r, item)
    case Posts => Post(r)
    case Takes => Take(r)
    case Finishes(i) => FinishKeeps(r, i); Finish(r, i)
    case BeginsDrain => BeginDrain(r)
    case Recycles => RecycleKeeps(r); Recycle(r)
    case Selects(budget) => Select(r, budget)
    case EndsDrain => EndDrain(r)
  }

  lemma EventKeeps(r: Ring, ev: Event)
    requires Inv(r) && Enabled(r, ev)
    ensures Inv(Apply(r, ev))
  {
    hide Inv;
    match ev
    case Enqueues(item) => EnqueueKeeps(r, item);
    case Posts => PostKeeps(r);
    case Takes => TakeKeeps(r);
    case Finishes(i) => FinishKeeps(r, i);
    case BeginsDrain => BeginDrainKeeps(r);
    case Recycles => RecycleKeeps(r);
    case Selects(budget) => SelectKeeps(r, budget);
    case EndsDrain => EndDrainKeeps(r);
  }

  /** run is an interleaving that can happen from r, and r' is where it leads. */
  ghost predicate Leads(r: Ring, run: seq<Event>, r': Ring)
    requires Inv(r)
    decreases |run|
  {
    if run == [] then r' == r
    else
      && Enabled(r, run[0])
      && (EventKeeps(r, run[0]); Leads(Apply(r, run[0]), run[1..], r'))
  }

  lemma {:induction false} RunKeeps(r: Ring, run: seq<Event>, r': Ring)
    requires Inv(r) && Leads(r, run, r')
    ensures Inv(r')
    decreases |run|
  {
    if run != [] {
      EventKeeps(r, run[0]);
      RunKeeps(Apply(r, run[0]), run[1..], r');
    }
  }

  lemma StartInv(n: nat)
    ensures Inv(Start(n))
  {
    forall x: Item ensures Load(Start(n).slots, x) == 0 {
      LoadNone(Start(n).slots, x);
    }
  }

  lemma {:induction false} LoadNone(slots: seq<Slot>, x: Item)
    requires forall i :: 0 <= i < |slots| ==> !Loaded(slots[i])
    ensures Load(slots, x) == 0
  {
    if slots != [] {
      LoadNone(slots[..|slots| - 1], x);
    }
  }

  /** In every interleaving from a fresh ring: slots have single owners, every accepted brick is handed to the
      cache at most once and none is lost, and no wakeup is lost. */
  lemma EveryInterleavingIsSafe(n: nat, run: seq<Event>, r: Ring)
    requires (StartInv(n); Leads(Start(n), run, r))
    ensures OwnersOk(r) && Conserved(r) && NoLostWakeup(r)
    ensures r.handed <= r.accepted
  {
    StartInv(n);
    RunKeeps(Start(n), run, r);
  }

  /** Once workers and render thread are quiet and bricks still wait, no slot is free, and a next drain finds
      a batch to upload or a fence to wait for. */
  lemma QuietMeansFull(r: Ring)
    requires Inv(r) && r.jobs == 0 && r.kicks == 0 && r.writers == {} && r.drain == Idle
    requires r.pending != [] && r.slots != []
    ensures forall i :: 0 <= i < |r.slots| ==> r.slots[i].state == Ready || r.slots[i].state == InFlight
    ensures r.fences != [] || ReadyUpTo(r.slots, |r.slots|, 1) != []
  {
    forall i: nat | i < |r.slots| ensures r.slots[i].state == Ready || r.slots[i].state == InFlight {
      assert r.slots[i].state != Free;
    }
    if r.slots[0].state == Ready {
      ReadyFound(r.slots, |r.slots|, 0);
    } else {
      assert 0 in Guarded(r);
    }
  }

  lemma {:induction false} ReadyFound(slots: seq<Slot>, n: nat, i: nat)
    requires i < n <= |slots| && slots[i].state == Ready
    ensures ReadyUpTo(slots, n, 1) != []
  {
    if i < n - 1 {
      ReadyFound(slots, n - 1, i);
    }
  }

  function Busy(slots: seq<Slot>): nat {
    if slots == [] then 0 else Busy(slots[..|slots| - 1]) + if slots[|slots| - 1].state != Free then 1 else 0
  }

  lemma {:induction false} NotBusy(slots: seq<Slot>)
    requires Busy(slots) == 0
    ensures forall i :: 0 <= i < |slots| ==> slots[i].state == Free
  {
    if slots != [] {
      NotBusy(slots[..|slots| - 1]);
    }
  }

  /** When the pending count reads zero every accepted brick has been handed over exactly once. */
  lemma NothingPending(r: Ring)
    requires Inv(r) && |r.pending| + Busy(r.slots) == 0
    ensures r.accepted == r.handed
  {
    NotBusy(r.slots);
    forall x: Item ensures r.accepted[x] == r.handed[x] {
      LoadNone(r.slots, x);
    }
  }
}
