/** What every critical section of the fetch pipeline keeps. */
module PipelineInv {
  import opened BrickKeys
  import opened PipelineSpec

  predicate InPhase(s: State, k: Key, p: Phase) {
    k in s.tracked && s.tracked[k].phase == p
  }

  // ---------- the invariants ----------

  predicate HasEntry(h: set<HeapEntry>, k: Key, priority: real) {
    exists e :: e in h && e.key == k && e.priority == priority
  }

  /** Every queued key has a heap entry carrying its current priority; sequence numbers identify entries. */
  ghost predicate HeapOk(s: State) {
    && (forall k | InPhase(s, k, Queued) :: HasEntry(s.heap, k, s.tracked[k].priority))
    && (forall e | e in s.heap :: e.seqNo < s.nextSeq)
    && (forall e, f | e in s.heap && f in s.heap && e.seqNo == f.seqNo :: e == f)
  }

  /** One outstanding read per fetching key, one decode job per decoding key, nothing else. */
  ghost predicate LivesOk(s: State) {
    && (forall k :: s.world.fetches[k] == if InPhase(s, k, Fetching) then 1 else 0)
    && (forall k :: s.world.jobs[k] == if InPhase(s, k, Decoding) then 1 else 0)
    && (forall k | k in s.tracked :: s.tracked[k].stop == NoSource <==> s.tracked[k].phase != Fetching)
    && s.inflight == s.callbacks == |s.world.fetches|
    && s.decodes == |s.world.jobs|
  }

  /** A key's epoch names the last submit that wanted it. */
  ghost predicate LastWanted(submits: seq<set<Key>>, k: Key, epoch: nat) {
    && 1 <= epoch <= |submits| && k in submits[epoch - 1]
    && forall j :: epoch <= j < |submits| ==> k !in submits[j]
  }

  ghost predicate EpochsOk(s: State) {
    && |s.world.submits| == s.epoch
    && (forall k | k in s.tracked :: LastWanted(s.world.submits, k, s.tracked[k].epoch) && Fits(k))
  }

  function Bytes(c: Config, l: seq<Brick>): nat {
    if l == [] then 0 else c.chunk(l[0].key.coord.level) + Bytes(c, l[1..])
  }

  /** The pinned bytes are those of the bricks published and not yet given back. */
  ghost predicate BytesOk(c: Config, s: State) {
    s.readyBytes == Bytes(c, s.world.held) + Bytes(c, s.world.releasing)
  }

  /** The bounds the three caps really enforce. */
  ghost predicate BoundsOk(c: Config, s: State) {
    && 0 <= s.inflight <= c.maxInflight && 0 <= s.decodes
    && s.inflight + s.decodes <= c.maxInflight + c.maxQueued - 1
    && s.readyBytes + (s.inflight + s.decodes) * c.largest
         < c.maxReadyBytes + (c.maxInflight + c.maxQueued - 1) * c.largest
  }

  ghost predicate Core(c: Config, s: State) {
    HeapOk(s) && LivesOk(s) && EpochsOk(s) && BytesOk(c, s) && BoundsOk(c, s)
  }

  /** Whenever the mutex is free: pending work has something under way that will pump again. */
  ghost predicate NotStuck(c: Config, s: State) {
    (exists k :: InPhase(s, k, Queued)) ==>
      s.inflight > 0 || s.decodes > 0 || s.readyBytes >= c.maxReadyBytes
  }

  ghost predicate Inv(c: Config, s: State) {
    Core(c, s) && NotStuck(c, s)
  }

  lemma InitInv(c: Config)
    requires c.Valid()
    ensures Inv(c, EMPTY)
  {
    assert 0 <= (c.maxInflight + c.maxQueued - 1) * c.largest;
  }

  // ---------- pump ----------

  /** Queued keys keep their entries when no key joins them and no entry leaves. */
  lemma HeapKept(s: State, s': State)
    requires HeapOk(s) && s'.heap == s.heap && s'.nextSeq == s.nextSeq
    requires forall k | InPhase(s', k, Queued) :: InPhase(s, k, Queued) && s'.tracked[k].priority == s.tracked[k].priority
    ensures HeapOk(s')
  {
  }

  lemma EraseKeeps(c: Config, s: State, k: Key)
    requires Core(c, s) && !InPhase(s, k, Fetching) && !InPhase(s, k, Decoding)
    ensures Core(c, Erase(s, k))
  {
    hide HeapOk, BytesOk, BoundsOk, LastWanted;
    HeapKept(s, Erase(s, k));
    BytesKept(c, s, Erase(s, k));
  }

  lemma BytesKept(c: Config, s: State, s': State)
    requires BytesOk(c, s) && BoundsOk(c, s)
    requires s'.readyBytes == s.readyBytes && s'.world.held == s.world.held && s'.world.releasing == s.world.releasing
    requires s'.inflight == s.inflight && s'.decodes == s.decodes
    ensures BytesOk(c, s') && BoundsOk(c, s')
  {
  }

  lemma IssueLives(s: State, k: Key)
    requires LivesOk(s) && InPhase(s, k, Queued)
    ensures LivesOk(Issue(s, k))
  {
  }

  lemma IssueBounds(c: Config, s: State, k: Key)
    requires BoundsOk(c, s) && k in s.tracked
    requires s.inflight < c.maxInflight && s.decodes < c.maxQueued && s.readyBytes < c.maxReadyBytes
    ensures BoundsOk(c, Issue(s, k))
  {
    MulMono(s.inflight + 1 + s.decodes, c.maxInflight + c.maxQueued - 1, c.largest);
  }

  lemma IssueKeeps(c: Config, s: State, k: Key)
    requires Core(c, s) && InPhase(s, k, Queued)
    requires s.inflight < c.maxInflight && s.decodes < c.maxQueued && s.readyBytes < c.maxReadyBytes
    ensures Core(c, Issue(s, k))
  {
    hide HeapOk, LivesOk, BoundsOk, LastWanted, Bytes;
    HeapKept(s, Issue(s, k));
    IssueLives(s, k);
    IssueBounds(c, s, k);
  }

  lemma MulMono(a: int, b: int, m: nat)
    requires a <= b
    ensures a * m <= b * m
  {
  }

  /** An entry that carries no queued key's current priority can go. */
  lemma DropKeeps(c: Config, s: State, e: HeapEntry)
    requires Core(c, s)
    requires !(InPhase(s, e.key, Queued) && s.tracked[e.key].priority == e.priority)
    ensures Core(c, s.(heap := s.heap - {e}))
  {
    var s' := s.(heap := s.heap - {e});
    forall k | InPhase(s', k, Queued) ensures HasEntry(s'.heap, k, s'.tracked[k].priority) {
      assert InPhase(s, k, Queued);
      var f :| f in s.heap && f.key == k && f.priority == s.tracked[k].priority;
      assert f in s'.heap;
    }
  }

  lemma PoppedKeeps(c: Config, s: State, e: HeapEntry)
    requires Core(c, s) && MayIssue(c, s) && e in s.heap
    ensures Core(c, Popped(s, e))
  {
    hide LivesOk, EpochsOk, BytesOk, BoundsOk, HeapOk;
    if InPhase(s, e.key, Queued) && s.tracked[e.key].priority == e.priority {
      if s.tracked[e.key].epoch + 1 < s.epoch {
        EraseKeeps(c, s, e.key);
        DropKeeps(c, Erase(s, e.key), e);
        assert Popped(s, e) == Erase(s, e.key).(heap := s.heap - {e});
      } else {
        IssueKeeps(c, s, e.key);
        DropKeeps(c, Issue(s, e.key), e);
        assert Popped(s, e) == Issue(s, e.key).(heap := s.heap - {e});
      }
    } else {
      DropKeeps(c, s, e);
    }
  }

  /** Pumping keeps the invariants and stops only at a cap or with nothing queued. */
  lemma {:induction false} PumpKeeps(c: Config, s: State)
    requires Core(c, s) && c.Valid()
    ensures Core(c, Pump(c, s)) && !MayIssue(c, Pump(c, s))
    ensures NotStuck(c, Pump(c, s))
    decreases |s.heap|
  {
    hide LivesOk, EpochsOk, BytesOk;
    if MayIssue(c, s) {
      PoppedKeeps(c, s, Top(s.heap));
      assert Popped(s, Top(s.heap)).heap == s.heap - {Top(s.heap)};
      PumpKeeps(c, Popped(s, Top(s.heap)));
    } else if exists k :: InPhase(s, k, Queued) {
      var k :| InPhase(s, k, Queued);
      assert HasEntry(s.heap, k, s.tracked[k].priority);
    }
  }

  // ---------- what a pump does to each key ----------

  /** Fields no pump touches. */
  ghost predicate SameBackdrop(s: State, s': State) {
    && s'.epoch == s.epoch && s'.nextSeq == s.nextSeq && s'.decodes == s.decodes && s'.ready == s.ready
    && s'.readyBytes == s.readyBytes && s'.world.jobs == s.world.jobs && s'.world.submits == s.world.submits
    && s'.world.held == s.world.held && s'.world.releasing == s.world.releasing
  }

  /** A key is left alone, or was queued and is fetched now, or was queued, out of date and is gone. */
  ghost predicate KeyPumped(s: State, s': State, k: Key) {
    if k !in s.tracked then k !in s'.tracked
    else
      || (k in s'.tracked && s'.tracked[k] == s.tracked[k])
      || (InPhase(s, k, Queued) && s.tracked[k].epoch + 1 >= s.epoch
          && k in s'.tracked && s'.tracked[k] == s.tracked[k].(phase := Fetching, stop := Armed))
      || (InPhase(s, k, Queued) && s.tracked[k].epoch + 1 < s.epoch && k !in s'.tracked)
  }

  lemma {:induction false} PumpEffect(c: Config, s: State)
    ensures SameBackdrop(s, Pump(c, s))
    ensures forall k :: KeyPumped(s, Pump(c, s), k)
    decreases |s.heap|
  {
    if MayIssue(c, s) {
      var s1 := Popped(s, Top(s.heap));
      assert s1.heap == s.heap - {Top(s.heap)};
      PumpEffect(c, s1);
      forall k ensures KeyPumped(s, Pump(c, s), k) {
        assert KeyPumped(s, s1, k) && KeyPumped(s1, Pump(c, s1), k);
      }
    }
  }

  /** The reads a pump issues, in order. */
  ghost function NewReads(c: Config, s: State): seq<Key>
    decreases |s.heap|
  {
    if MayIssue(c, s) then
      var s1 := Popped(s, Top(s.heap));
      assert s1.heap == s.heap - {Top(s.heap)};
      Added(s, s1) + NewReads(c, s1)
    else []
  }

  ghost function Added(s: State, s': State): seq<Key> {
    if |s.world.issued| <= |s'.world.issued| then s'.world.issued[|s.world.issued|..] else []
  }

  lemma {:induction false} NewReadsLogged(c: Config, s: State)
    ensures Pump(c, s).world.issued == s.world.issued + NewReads(c, s)
    decreases |s.heap|
  {
    if MayIssue(c, s) {
      var s1 := Popped(s, Top(s.heap));
      assert s1.heap == s.heap - {Top(s.heap)};
      NewReadsLogged(c, s1);
      assert s1.world.issued == s.world.issued + Added(s, s1);
    }
  }

  function Rank(s: State, k: Key): real {
    if k in s.tracked then s.tracked[k].priority else 0.0
  }

  /** The heap entry carries key k's current priority. */
  predicate Live(s: State, e: HeapEntry, k: Key) {
    e in s.heap && e.key == k && e.priority == Rank(s, k)
  }

  /** Key k goes before q: it ranks higher, or as high and was given that priority earlier. */
  ghost predicate Before(s: State, k: Key, q: Key) {
    || Rank(s, q) < Rank(s, k)
    || (Rank(s, q) == Rank(s, k) && exists e | Live(s, e, k) :: forall f | Live(s, f, q) :: e.seqNo < f.seqNo)
  }

  /** Key k goes before every other queued key. */
  ghost predicate Foremost(s: State, k: Key) {
    InPhase(s, k, Queued) && forall q | InPhase(s, q, Queued) && q != k :: Before(s, k, q)
  }

  /** An issued key is the foremost of the queued ones, for all the stale entries in the heap. */
  lemma NoInversion(s: State, e: HeapEntry)
    requires HeapOk(s) && IsTop(s.heap, e) && Popped(s, e).world.issued != s.world.issued
    ensures Foremost(s, e.key) && Popped(s, e) == Issue(s.(heap := s.heap - {e}), e.key)
  {
    assert InPhase(s, e.key, Queued) && Live(s, e, e.key);
    forall q | InPhase(s, q, Queued) && q != e.key ensures Before(s, e.key, q) {
      assert HasEntry(s.heap, q, s.tracked[q].priority);
      var f :| f in s.heap && f.key == q && f.priority == s.tracked[q].priority;
      assert !e.Below(f);
      forall g | Live(s, g, q) && Rank(s, q) == Rank(s, e.key) ensures e.seqNo < g.seqNo {
        assert !e.Below(g);
      }
    }
  }

  /** Exactly the newly fetching keys are read, each once, each going before the later ones and every key left
      queued. */
  ghost predicate InOrder(s: State, s': State, l: seq<Key>) {
    && (forall k :: k in l <==> InPhase(s, k, Queued) && InPhase(s', k, Fetching))
    && (forall i, j :: 0 <= i < j < |l| ==> l[i] != l[j] && Before(s, l[i], l[j]))
    && (forall k, q | k in l && InPhase(s', q, Queued) :: Before(s, k, q))
  }

  /** Popping an entry that is live for neither key leaves their order. */
  lemma BeforeKept(s: State, s1: State, e: HeapEntry, k: Key, q: Key)
    requires s1.heap == s.heap - {e} && Rank(s1, k) == Rank(s, k) && Rank(s1, q) == Rank(s, q)
    requires !Live(s, e, k) && !Live(s, e, q) && Before(s1, k, q)
    ensures Before(s, k, q)
  {
    assert forall f :: Live(s, f, q) <==> Live(s1, f, q);
    assert forall f :: Live(s, f, k) <==> Live(s1, f, k);
  }

  lemma OrderSkipped(s: State, s1: State, s': State, l: seq<Key>, e: HeapEntry)
    requires s1 == Popped(s, e) && s1.world.issued == s.world.issued
    requires InOrder(s1, s', l) && forall k :: KeyPumped(s1, s', k)
    ensures InOrder(s, s', l)
  {
    hide Before;
    forall k ensures k in l <==> InPhase(s, k, Queued) && InPhase(s', k, Fetching) {
      assert KeyPumped(s1, s', k);
    }
    forall k | k in l || InPhase(s', k, Queued) ensures Rank(s1, k) == Rank(s, k) && !Live(s, e, k) {
      assert KeyPumped(s1, s', k);
      assert InPhase(s1, k, Queued);
    }
    assert s1.heap == s.heap - {e};
    hide Live, Rank;
    forall k, q | Before(s1, k, q) && k in l && (q in l || InPhase(s', q, Queued)) ensures Before(s, k, q) {
      BeforeKept(s, s1, e, k, q);
    }
  }

  lemma OrderIssued(s: State, s1: State, s': State, l: seq<Key>, e: HeapEntry)
    requires Foremost(s, e.key) && s1 == Issue(s.(heap := s.heap - {e}), e.key)
    requires InOrder(s1, s', l) && forall k :: KeyPumped(s1, s', k)
    ensures InOrder(s, s', [e.key] + l)
  {
    var m := [e.key] + l;
    hide Before;
    forall k ensures k in m <==> InPhase(s, k, Queued) && InPhase(s', k, Fetching) {
      assert KeyPumped(s1, s', k);
      assert k in m <==> k == e.key || k in l;
    }
    forall k | k in l || InPhase(s', k, Queued)
      ensures k != e.key && InPhase(s, k, Queued) && Rank(s1, k) == Rank(s, k) && !Live(s, e, k)
    {
      assert KeyPumped(s1, s', k);
      assert InPhase(s1, k, Queued);
    }
    hide Live, Rank, InPhase;
    forall k, q | Before(s1, k, q) && k in l && (q in l || InPhase(s', q, Queued)) ensures Before(s, k, q) {
      BeforeKept(s, s1, e, k, q);
    }
    forall i, j | 0 <= i < j < |m| ensures m[i] != m[j] && Before(s, m[i], m[j]) {
      assert m[j] == l[j - 1];
      assert i > 0 ==> m[i] == l[i - 1];
    }
  }

  lemma {:induction false} PumpOrder(c: Config, s: State)
    requires Core(c, s) && c.Valid()
    ensures InOrder(s, Pump(c, s), NewReads(c, s))
    decreases |s.heap|
  {
    if MayIssue(c, s) {
      var e := Top(s.heap);
      var s1 := Popped(s, e);
      assert s1.heap == s.heap - {e};
      PoppedKeeps(c, s, e);
      hide LivesOk, EpochsOk, BytesOk, BoundsOk, InOrder, KeyPumped, Foremost;
      PumpOrder(c, s1);
      PumpEffect(c, s1);
      if s1.world.issued == s.world.issued {
        OrderSkipped(s, s1, Pump(c, s), NewReads(c, s1), e);
        assert NewReads(c, s) == NewReads(c, s1);
      } else {
        NoInversion(s, e);
        OrderIssued(s, s1, Pump(c, s), NewReads(c, s1), e);
        assert Added(s, s1) == [e.key];
      }
    }
  }
}
