/** The fetch pipeline as a value and its critical sections as functions on it. */
module PipelineSpec {
  import opened BrickKeys

  /** Admission caps; `chunk` gives the decoded bytes of a chunk per level, `largest` bounds them. */
  datatype Config = Config(maxInflight: nat, maxQueued: nat, maxReadyBytes: nat, chunk: nat -> nat, largest: nat) {
    ghost predicate Valid() {
      maxInflight >= 1 && maxQueued >= 1 && maxReadyBytes >= 1 && forall l :: chunk(l) <= largest
    }
  }

  datatype Phase = Queued | Fetching | Decoding

  /** The cancellation source of a fetch: none yet, not triggered, triggered. */
  datatype Stop = NoSource | Armed | Requested

  datatype Tracked = Tracked(priority: real, epoch: nat, phase: Phase, stop: Stop)

  datatype HeapEntry = HeapEntry(priority: real, seqNo: nat, key: Key) {
    /** Lower priority sorts below; among equals the later entry does. */
    predicate Below(o: HeapEntry) {
      if priority != o.priority then priority < o.priority else seqNo > o.seqNo
    }
  }

  datatype Brick = Brick(key: Key, isFill: bool, voxelBytes: nat)

  /** How the store answers a read. */
  datatype Outcome = Data | NotFound | Cancelled | Failed

  /** What happens outside the pipeline's own fields: reads the store still owes an answer, decode jobs
      not finished, every read ever issued, the key set of every submit, the bricks published and still
      pinned, and the bricks whose pin is dropped but whose bytes are not yet given back. */
  datatype World = World(fetches: multiset<Key>, jobs: multiset<Key>, issued: seq<Key>, submits: seq<set<Key>>,
                         held: seq<Brick>, releasing: seq<Brick>)

  datatype State = State(epoch: nat, nextSeq: nat, heap: set<HeapEntry>, tracked: map<Key, Tracked>,
                         inflight: int, callbacks: int, decodes: int, ready: seq<Brick>, readyBytes: nat,
                         world: World)

  const EMPTY := State(0, 0, {}, map[], 0, 0, 0, [], 0, World(multiset{}, multiset{}, [], [], [], []))

  // ---------- submit ----------

  function Enqueue(s: State, r: Request): State {
    if r.key !in s.tracked then
      s.(tracked := s.tracked[r.key := Tracked(r.priority, s.epoch, Queued, NoSource)],
         heap := s.heap + {HeapEntry(r.priority, s.nextSeq, r.key)},
         nextSeq := s.nextSeq + 1)
    else
      var t := s.tracked[r.key].(epoch := s.epoch);
      if t.phase == Queued && t.priority != r.priority then
        s.(tracked := s.tracked[r.key := t.(priority := r.priority)],
           heap := s.heap + {HeapEntry(r.priority, s.nextSeq, r.key)},
           nextSeq := s.nextSeq + 1)
      else
        s.(tracked := s.tracked[r.key := t])
  }

  function EnqueueAll(s: State, wanted: seq<Request>): State {
    if wanted == [] then s else Enqueue(EnqueueAll(s, wanted[..|wanted| - 1]), wanted[|wanted| - 1])
  }

  function KeysOf(wanted: seq<Request>): set<Key> {
    set r | r in wanted :: r.key
  }

  function PackedOf(wanted: seq<Request>): set<nat> {
    set r | r in wanted :: Packed(r.key)
  }

  function StopIf(k: Key, t: Tracked, wanted: set<nat>): Tracked {
    if t.phase == Fetching && t.stop != NoSource && Packed(k) !in wanted then t.(stop := Requested) else t
  }

  function StopUnwanted(s: State, wanted: set<nat>): State {
    s.(tracked := map k | k in s.tracked :: StopIf(k, s.tracked[k], wanted))
  }

  function NewEpoch(s: State, wanted: seq<Request>): State {
    s.(epoch := s.epoch + 1, world := s.world.(submits := s.world.submits + [KeysOf(wanted)]))
  }

  ghost function Submit(c: Config, s: State, wanted: seq<Request>): State {
    Pump(c, StopUnwanted(EnqueueAll(NewEpoch(s, wanted), wanted), PackedOf(wanted)))
  }

  // ---------- pump ----------

  ghost predicate IsTop(h: set<HeapEntry>, e: HeapEntry) {
    e in h && forall f :: f in h ==> !e.Below(f)
  }

  lemma {:induction false} TopExists(h: set<HeapEntry>)
    requires h != {}
    ensures exists e :: IsTop(h, e)
  {
    var e :| e in h;
    if h == {e} {
      assert IsTop(h, e);
    } else {
      TopExists(h - {e});
      var f :| IsTop(h - {e}, f);
      var top := if f.Below(e) then e else f;
      forall g | g in h ensures !top.Below(g) {
        assert g == e || g in h - {e};
      }
      assert IsTop(h, top);
    }
  }

  ghost function Top(h: set<HeapEntry>): (e: HeapEntry)
    requires h != {}
    ensures IsTop(h, e)
  {
    TopExists(h);
    var e :| IsTop(h, e);
    e
  }

  function Issue(s: State, k: Key): State
    requires k in s.tracked
  {
    s.(tracked := s.tracked[k := s.tracked[k].(phase := Fetching, stop := Armed)],
       inflight := s.inflight + 1, callbacks := s.callbacks + 1,
       world := s.world.(fetches := s.world.fetches + multiset{k}, issued := s.world.issued + [k]))
  }

  function Erase(s: State, k: Key): State {
    s.(tracked := s.tracked - {k})
  }

  /** What becomes of the entry popped off the heap. */
  function Handle(s: State, e: HeapEntry): State {
    if e.key !in s.tracked then s                                        // dropped earlier
    else if s.tracked[e.key].phase != Queued then s                      // duplicate
    else if e.priority != s.tracked[e.key].priority then s               // superseded
    else if s.tracked[e.key].epoch + 1 < s.epoch then Erase(s, e.key)    // no longer wanted
    else Issue(s, e.key)
  }

  function Popped(s: State, e: HeapEntry): State {
    Handle(s.(heap := s.heap - {e}), e)
  }

  predicate MayIssue(c: Config, s: State) {
    s.inflight < c.maxInflight && s.decodes < c.maxQueued && s.readyBytes < c.maxReadyBytes && s.heap != {}
  }

  ghost function Pump(c: Config, s: State): State
    decreases |s.heap|
  {
    if MayIssue(c, s) then
      var e := Top(s.heap);
      assert Popped(s, e).heap == s.heap - {e};
      Pump(c, Popped(s, e))
    else s
  }

  // ---------- completions ----------

  ghost function FetchDone(c: Config, s: State, k: Key, o: Outcome): State {
    var s1 := s.(inflight := s.inflight - 1, callbacks := s.callbacks - 1,
                 world := s.world.(fetches := s.world.fetches - multiset{k}));
    if k !in s.tracked then Pump(c, s1)
    else if o == Cancelled || o == Failed then Pump(c, Erase(s1, k))
    else StartDecode(s1, k)
  }

  function StartDecode(s: State, k: Key): State
    requires k in s.tracked
  {
    s.(tracked := s.tracked[k := s.tracked[k].(phase := Decoding, stop := NoSource)],
       decodes := s.decodes + 1, world := s.world.(jobs := s.world.jobs + multiset{k}))
  }

  function EndDecode(s: State, k: Key): State {
    Erase(s.(decodes := s.decodes - 1, world := s.world.(jobs := s.world.jobs - multiset{k})), k)
  }

  ghost function DecodeFailed(c: Config, s: State, k: Key): State {
    Pump(c, EndDecode(s, k))
  }

  function Deliver(c: Config, s: State, b: Brick): State {
    s.(readyBytes := s.readyBytes + c.chunk(b.key.coord.level), ready := s.ready + [b],
       world := s.world.(held := s.world.held + [b]))
  }

  ghost function Publish(c: Config, s: State, b: Brick): State {
    Pump(c, Deliver(c, EndDecode(s, b.key), b))
  }

  function Drain(s: State): State {
    s.(ready := [])
  }

  // ---------- unpin, in its two halves ----------

  /** The list without its first brick of key k. */
  function Minus(l: seq<Brick>, k: Key): seq<Brick> {
    if l == [] then [] else if l[0].key == k then l[1..] else [l[0]] + Minus(l[1..], k)
  }

  function FirstOf(l: seq<Brick>, k: Key): (b: Brick)
    requires exists i :: 0 <= i < |l| && l[i].key == k
    ensures b in l && b.key == k
  {
    if l[0].key == k then l[0]
    else
      assert exists i :: 0 <= i < |l[1..]| && l[1..][i].key == k by {
        var i :| 0 <= i < |l| && l[i].key == k;
        assert l[1..][i - 1].key == k;
      }
      FirstOf(l[1..], k)
  }

  predicate Holds(l: seq<Brick>, k: Key) {
    exists i :: 0 <= i < |l| && l[i].key == k
  }

  /** How many bricks of the list have key k. */
  function Times(l: seq<Brick>, k: Key): nat {
    if l == [] then 0 else (if l[0].key == k then 1 else 0) + Times(l[1..], k)
  }

  /** A brick of this key was drained and is not yet given back. */
  predicate Drained(s: State, k: Key) {
    Times(s.world.held, k) > Times(s.ready, k)
  }

  /** The pin is dropped in the cache; the pipeline has not been told. */
  function Release(s: State, k: Key): State
    requires Holds(s.world.held, k)
  {
    s.(world := s.world.(held := Minus(s.world.held, k),
                         releasing := s.world.releasing + [FirstOf(s.world.held, k)]))
  }

  ghost function Unpin(c: Config, s: State, k: Key): State {
    Pump(c, GiveBack(c, s, k))
  }

  function GiveBack(c: Config, s: State, k: Key): State {
    var bytes := c.chunk(k.coord.level);
    s.(readyBytes := if s.readyBytes > bytes then s.readyBytes - bytes else 0,
       world := s.world.(releasing := Minus(s.world.releasing, k)))
  }
}
