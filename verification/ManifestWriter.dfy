/** The tool that writes the manifest: per-brick ranges, the parallel scan of a level, and the file. */
module ManifestWriters {
  import opened Grid
  import opened Numbers
  import opened Manifests

  type word = w: nat | w < 0x1_0000

  /** What the store has for a brick: nothing, something that does not read or decode, or its voxels. */
  datatype Chunk = Absent | Unreadable | Bytes(bytes: seq<byte>) | Words(words: seq<word>)

  // ---------- one brick ----------

  /** The brick's densities in the 8-bit domain. */
  function Densities(c: Chunk): seq<byte> {
    match c
    case Bytes(bs) => bs
    case Words(ws) => seq(|ws|, i requires 0 <= i < |ws| => ws[i] / 256)
    case _ => []
  }

  predicate Decodes(c: Chunk) {
    c.Bytes? || c.Words?
  }

  function Lowest(vs: seq<byte>): byte {
    if vs == [] then 255 else Min(Lowest(vs[..|vs| - 1]), vs[|vs| - 1])
  }

  function Highest(vs: seq<byte>): byte {
    if vs == [] then 0 else Max(Highest(vs[..|vs| - 1]), vs[|vs| - 1])
  }

  /** The pair recorded for a brick. */
  function Pair(c: Chunk, scan: bool, fill: byte): MinMax {
    if c.Absent? then MinMax(fill, fill)
    else if !scan || c.Unreadable? then MinMax(0, 255)
    else MinMax(Lowest(Densities(c)), Highest(Densities(c)))
  }

  lemma {:induction false} Bounds(vs: seq<byte>)
    ensures forall v | v in vs :: Lowest(vs) <= v <= Highest(vs)
    ensures vs != [] ==> Lowest(vs) in vs && Highest(vs) in vs
  {
    if vs != [] {
      var rest, last := vs[..|vs| - 1], vs[|vs| - 1];
      Bounds(rest);
      assert Lowest(vs) == Min(Lowest(rest), last) && Highest(vs) == Max(Highest(rest), last);
      hide Lowest, Highest;
      assert last in vs && forall v | v in rest :: v in vs;
      forall v | v in vs ensures Lowest(vs) <= v <= Highest(vs) {
        if v != last {
          assert v in rest;
        }
      }
      if rest == [] {
        NoBounds();
      }
    }
  }

  lemma NoBounds()
    ensures Lowest([]) == 255 && Highest([]) == 0
  {
  }

  /** The stored voxels are all fill in the 8-bit domain, where a word counts by its high byte. */
  ghost predicate OnlyFill(c: Chunk, fill: byte) {
    match c
    case Bytes(bs) => bs != [] && forall b | b in bs :: b == fill
    case Words(ws) => ws != [] && forall w | w in ws :: w / 256 == fill
    case _ => false
  }

  lemma OnlyFillIff(c: Chunk, fill: byte)
    ensures OnlyFill(c, fill) <==> Densities(c) != [] && forall v | v in Densities(c) :: v == fill
  {
    if c.Words? {
      var ws, vs := c.words, Densities(c);
      forall w | w in ws ensures w / 256 in vs {
        var i :| 0 <= i < |ws| && ws[i] == w;
        assert vs[i] == w / 256;
      }
      forall v | v in vs ensures exists w :: w in ws && v == w / 256 {
        var i :| 0 <= i < |vs| && vs[i] == v;
        assert ws[i] in ws;
      }
    }
  }

  /** A brick is recorded as empty exactly when it is absent or was found to hold nothing but fill in the 8-bit domain. */
  lemma EmptyIff(c: Chunk, scan: bool, fill: byte)
    ensures IsEmpty(fill, Pair(c, scan, fill)) <==> c.Absent? || (scan && OnlyFill(c, fill))
  {
    Bounds(Densities(c));
    OnlyFillIff(c, fill);
  }

  /** The fill byte that the tool keeps of a 16-bit volume's fill value. */
  function Narrowed(v: word): byte {
    v % 256
  }

  ghost predicate Uniform(ws: seq<word>, v: word) {
    ws != [] && forall w | w in ws :: w == v
  }

  /** A 16-bit chunk of nothing but the fill value is recorded as empty exactly if that value's two bytes are equal. */
  lemma UniformIsEmptyIff(ws: seq<word>, v: word)
    requires Uniform(ws, v)
    ensures IsEmpty(Narrowed(v), Pair(Words(ws), true, Narrowed(v))) <==> v / 256 == v % 256
  {
    EmptyIff(Words(ws), true, Narrowed(v));
    assert ws[0] in ws;
  }

  /** A 16-bit chunk recorded as empty is uniform fill exactly if its low bytes are the fill value's, and the high bytes
      of the fill value are its low ones. */
  lemma EmptyIsUniformIff(ws: seq<word>, v: word)
    requires IsEmpty(Narrowed(v), Pair(Words(ws), true, Narrowed(v)))
    ensures Uniform(ws, v) <==> v / 256 == v % 256 && forall w | w in ws :: w % 256 == v % 256
  {
    EmptyIff(Words(ws), true, Narrowed(v));
    assert ws[0] in ws;
    forall w | w in ws ensures w == v <==> v / 256 == v % 256 && w % 256 == v % 256 {
    }
  }

  /** Whatever the fill value, some 16-bit chunk is recorded as empty without being uniform fill. */
  lemma HighBytesMislead(v: word) returns (ws: seq<word>)
    ensures IsEmpty(Narrowed(v), Pair(Words(ws), true, Narrowed(v))) && !Uniform(ws, v)
  {
    var f: nat := Narrowed(v);
    ws := [256 * f, 256 * f + 1];
    EmptyIff(Words(ws), true, Narrowed(v));
    assert ws[0] in ws && ws[1] in ws;
  }

  /** A brick is recorded as invisible under a cutoff exactly when nothing in it, as far as is known, is above it. */
  lemma InvisibleIff(c: Chunk, scan: bool, fill: byte, threshold: byte)
    ensures IsInvisible(threshold, Pair(c, scan, fill))
       <==> if c.Absent? then fill <= threshold
            else if scan && Decodes(c) then forall v | v in Densities(c) :: v <= threshold
            else threshold == 255
  {
    var vs := Densities(c);
    Bounds(vs);
    if vs != [] && Highest(vs) > threshold {
      assert Highest(vs) in vs;
    }
  }

  /** A brick that is there but was not looked into may hold anything; one that was is recorded with its extremes. */
  lemma PairIs(c: Chunk, scan: bool, fill: byte)
    requires !c.Absent?
    ensures !scan || !Decodes(c) ==> Pair(c, scan, fill) == MinMax(0, 255)
    ensures scan && Decodes(c) && Densities(c) != [] ==>
              var p, vs := Pair(c, scan, fill), Densities(c);
              p.min in vs && p.max in vs && forall v | v in vs :: p.min <= v <= p.max
  {
    Bounds(Densities(c));
  }

  method RangeOf(c: Chunk, scan: bool, fill: byte) returns (p: MinMax)
    ensures p == Pair(c, scan, fill)
  {
    if c.Absent? {
      return MinMax(fill, fill);
    }
    if !scan {
      return MinMax(0, 255);
    }
    var lo: byte, hi: byte := 255, 0;
    var ok := false;
    ghost var vs := Densities(c);
    match c {
      case Bytes(bs) =>
        ok := true;
        for k := 0 to |bs|
          invariant lo == Lowest(bs[..k]) && hi == Highest(bs[..k])
        {
          assert bs[..k + 1][..k] == bs[..k];
          lo, hi := Min(lo, bs[k]), Max(hi, bs[k]);
        }
        assert bs[..|bs|] == vs;
      case Words(ws) =>
        ok := true;
        for k := 0 to |ws|
          invariant lo == Lowest(vs[..k]) && hi == Highest(vs[..k])
        {
          assert vs[..k + 1][..k] == vs[..k];
          var v := ws[k] / 256;
          lo, hi := Min(lo, v), Max(hi, v);
        }
        assert vs[..|ws|] == vs;
      case _ =>
    }
    p := MinMax(if ok then lo else 0, if ok then hi else 255);
  }

  // ---------- the parallel scan of a level ----------

  /** A scan worker: about to draw a slice, about to write one byte of a pair, or done. */
  datatype Worker = Idle | Busy(c: Cell, high: bool) | Finished

  /** `nextZ` counts the slices drawn; `writes` counts the writes to each byte. */
  datatype Scan = Scan(nextZ: nat, workers: seq<Worker>, data: seq<byte>, writes: seq<nat>)

  function Half(p: MinMax, high: bool): byte {
    if high then p.max else p.min
  }

  function Place(d: Dims, c: Cell, high: bool): nat {
    Offset(d, c) + if high then 1 else 0
  }

  predicate Sized(d: Dims) {
    d.z < WORD && d.y < WORD && d.x < WORD && 2 * d.Count() < SIZE
  }

  lemma PlaceFits(d: Dims, c: Cell, high: bool)
    requires Sized(d) && c.Inside(d)
    ensures Place(d, c, high) < 2 * d.Count()
  {
    hide Index, At, Dims.Count;
    AtIndex(d, c);
  }

  lemma PlaceInjective(d: Dims, c: Cell, high: bool, c': Cell, high': bool)
    requires Sized(d) && c.Inside(d) && c'.Inside(d) && Place(d, c, high) == Place(d, c', high')
    ensures c == c' && high == high'
  {
    hide Index, At, Dims.Count;
    AtIndex(d, c);
    AtIndex(d, c');
  }

  /** The worker's next move: draw a slice from the shared counter, or go on with the rows of its own. */
  function Advance(d: Dims, nextZ: nat, k: Worker): Worker
    requires !k.Finished?
  {
    if k.Idle? then
      var z := nextZ % WORD;
      if z >= d.z then Finished else Busy(Cell(z, 0, 0), false)
    else if k.c.y >= d.y then Idle
    else if k.c.x >= d.x then Busy(Cell(k.c.z, k.c.y + 1, 0), false)
    else if !k.high then Busy(k.c, true)
    else Busy(Cell(k.c.z, k.c.y, k.c.x + 1), false)
  }

  predicate Writes(d: Dims, k: Worker) {
    k.Busy? && k.c.y < d.y && k.c.x < d.x
  }

  /** One move of worker w, in the order of the nested loops. */
  function Step(d: Dims, pair: Cell -> MinMax, s: Scan, w: nat): Scan
    requires w < |s.workers| && !s.workers[w].Finished?
    requires var k := s.workers[w];
             Writes(d, k) ==> Place(d, k.c, k.high) < |s.data| == |s.writes|
  {
    var k := s.workers[w];
    var s' := s.(workers := s.workers[w := Advance(d, s.nextZ, k)]);
    if k.Idle? then s'.(nextZ := s.nextZ + 1)
    else if Writes(d, k) then
      var i := Place(d, k.c, k.high);
      s'.(data := s.data[i := Half(pair(k.c), k.high)], writes := s.writes[i := s.writes[i] + 1])
    else s'
  }

  /** Worker k has left this byte of its slice behind. */
  predicate Passed(k: Worker, c: Cell, high: bool) {
    k.Busy? && k.c.z == c.z ==>
      c.y < k.c.y || (c.y == k.c.y && (c.x < k.c.x || (c.x == k.c.x && !high && k.high)))
  }

  predicate Done(nextZ: nat, workers: seq<Worker>, c: Cell, high: bool) {
    c.z < nextZ && forall w :: 0 <= w < |workers| ==> Passed(workers[w], c, high)
  }

  function Sum(ws: seq<Worker>, f: Worker -> nat): nat {
    if ws == [] then 0 else Sum(ws[..|ws| - 1], f) + f(ws[|ws| - 1])
  }

  lemma {:induction false} SumUpdate(ws: seq<Worker>, w: nat, k: Worker, f: Worker -> nat)
    requires w < |ws|
    ensures Sum(ws[w := k], f) + f(ws[w]) == Sum(ws, f) + f(k)
  {
    var n := |ws| - 1;
    if w == n {
      assert ws[w := k][..n] == ws[..n];
    } else {
      SumUpdate(ws[..n], w, k, f);
      assert ws[w := k][..n] == ws[..n][w := k];
    }
  }

  function Ended(): Worker -> nat {
    (k: Worker) => if k.Finished? then 1 else 0
  }

  lemma {:induction false} EndedBelow(ws: seq<Worker>)
    ensures Sum(ws, Ended()) <= |ws|
    ensures forall w | 0 <= w < |ws| && !ws[w].Finished? :: Sum(ws, Ended()) < |ws|
  {
    if ws != [] {
      EndedBelow(ws[..|ws| - 1]);
    }
  }

  predicate WorkerOk(d: Dims, nextZ: nat, k: Worker) {
    match k
    case Idle => true
    case Busy(c, high) => c.z < nextZ && c.z < d.z && c.y <= d.y && c.x <= d.x && (c.y == d.y ==> c.x == 0)
                          && (high ==> c.y < d.y && c.x < d.x)
    case Finished => nextZ > d.z
  }

  ghost predicate WorkersOk(d: Dims, nextZ: nat, ws: seq<Worker>) {
    && (forall w :: 0 <= w < |ws| ==> WorkerOk(d, nextZ, ws[w]))
    && (forall v, w :: 0 <= v < w < |ws| && ws[v].Busy? && ws[w].Busy? ==> ws[v].c.z != ws[w].c.z)
    && nextZ <= d.z + Sum(ws, Ended())
  }

  /** A byte holds its half of the pair, written once, or has not been touched. */
  predicate ByteOk(pair: Cell -> MinMax, c: Cell, high: bool, done: bool, v: byte, writes: nat) {
    if done then v == Half(pair(c), high) && writes == 1 else v == 0 && writes == 0
  }

  ghost predicate ScanInv(d: Dims, pair: Cell -> MinMax, s: Scan)
    requires Sized(d)
  {
    && |s.data| == |s.writes| == 2 * d.Count()
    && WorkersOk(d, s.nextZ, s.workers)
    && forall c: Cell, high: bool | c.Inside(d) ::
         (PlaceFits(d, c, high);
          var i := Place(d, c, high);
          ByteOk(pair, c, high, Done(s.nextZ, s.workers, c, high), s.data[i], s.writes[i]))
  }

  function Drawn(nextZ: nat, k: Worker): nat {
    if k.Idle? then nextZ + 1 else nextZ
  }

  lemma AdvanceKeeps(d: Dims, nextZ: nat, ws: seq<Worker>, w: nat)
    requires w < |ws| && !ws[w].Finished? && d.z + |ws| <= WORD && WorkersOk(d, nextZ, ws)
    ensures WorkersOk(d, Drawn(nextZ, ws[w]), ws[w := Advance(d, nextZ, ws[w])])
    ensures ws[w].Idle? ==> nextZ < WORD
  {
    EndedBelow(ws);
    SumUpdate(ws, w, Advance(d, nextZ, ws[w]), Ended());
  }

  /** A move leaves behind the byte it writes, and no other. */
  lemma DoneAfter(d: Dims, nextZ: nat, ws: seq<Worker>, w: nat, c: Cell, high: bool)
    requires w < |ws| && !ws[w].Finished? && d.z + |ws| <= WORD && WorkersOk(d, nextZ, ws) && c.Inside(d)
    ensures Done(Drawn(nextZ, ws[w]), ws[w := Advance(d, nextZ, ws[w])], c, high)
       <==> Done(nextZ, ws, c, high) || (Writes(d, ws[w]) && ws[w].c == c && ws[w].high == high)
    ensures Writes(d, ws[w]) && ws[w].c == c && ws[w].high == high ==> !Done(nextZ, ws, c, high)
  {
    var k, k', ws' := ws[w], Advance(d, nextZ, ws[w]), ws[w := Advance(d, nextZ, ws[w])];
    AdvanceKeeps(d, nextZ, ws, w);
    assert WorkerOk(d, nextZ, k);
    assert Passed(k', c, high) <==> (Passed(k, c, high) && (k.Idle? && k'.Busy? ==> c.z != nextZ))
                                    || (Writes(d, k) && k.c == c && k.high == high);
    assert ws'[w] == k';
    forall v | 0 <= v < |ws| && v != w ensures ws'[v] == ws[v] {
    }
    if Writes(d, k) && k.c == c && k.high == high {
      assert !Passed(k, c, high);
      forall v | 0 <= v < |ws| && v != w ensures Passed(ws[v], c, high) {
        assert WorkerOk(d, nextZ, ws[v]);
      }
    }
  }

  lemma StepKeeps(d: Dims, pair: Cell -> MinMax, s: Scan, w: nat)
    requires Sized(d) && d.z + |s.workers| <= WORD && ScanInv(d, pair, s)
    requires w < |s.workers| && !s.workers[w].Finished?
    ensures Writes(d, s.workers[w]) ==> Place(d, s.workers[w].c, s.workers[w].high) < |s.data| == |s.writes|
    ensures ScanInv(d, pair, Step(d, pair, s, w))
  {
    hide Dims.Count, Place, Done, Advance, Sized;
    var k := s.workers[w];
    AdvanceKeeps(d, s.nextZ, s.workers, w);
    assert Writes(d, k) ==> k.c.Inside(d);
    if Writes(d, k) {
      PlaceFits(d, k.c, k.high);
    }
    var s' := Step(d, pair, s, w);
    hide WorkersOk;
    forall c: Cell, high: bool | c.Inside(d)
      ensures Place(d, c, high) < |s'.data|
      ensures ByteOk(pair, c, high, Done(s'.nextZ, s'.workers, c, high), s'.data[Place(d, c, high)],
                     s'.writes[Place(d, c, high)])
    {
      PlaceFits(d, c, high);
      DoneAfter(d, s.nextZ, s.workers, w, c, high);
      if Writes(d, k) && Place(d, c, high) == Place(d, k.c, k.high) {
        PlaceInjective(d, c, high, k.c, k.high);
      }
    }
  }

  /** Moves that finish the row the worker is in. */
  function RowMoves(d: Dims, c: Cell, high: bool): nat {
    if c.x >= d.x then 1 else 2 * (d.x - c.x) + if high then 0 else 1
  }

  function SliceMoves(d: Dims, rows: nat): nat {
    rows * (2 * d.x + 1)
  }

  /** Moves a worker still has in its slice. */
  function MovesLeft(d: Dims, k: Worker): nat {
    match k
    case Finished => 0
    case Idle => 1
    case Busy(c, high) => if c.y >= d.y then 2 else 2 + SliceMoves(d, d.y - c.y - 1) + RowMoves(d, c, high)
  }

  function Rate(d: Dims): Worker -> nat {
    (k: Worker) => MovesLeft(d, k)
  }

  /** Bounds the moves left: whole slices not drawn yet, and what each worker has to do. */
  function Fuel(d: Dims, nextZ: nat, ws: seq<Worker>): nat {
    (if nextZ < d.z then d.z - nextZ else 0) * (SliceMoves(d, d.y) + 2) + Sum(ws, Rate(d))
  }

  lemma NextRow(d: Dims, rows: nat)
    requires rows > 0
    ensures SliceMoves(d, rows) == SliceMoves(d, rows - 1) + 2 * d.x + 1
  {
  }

  lemma NextSlice(n: nat, b: nat)
    requires n > 0
    ensures n * b == (n - 1) * b + b
  {
  }

  lemma MovesDrop(d: Dims, nextZ: nat, k: Worker)
    requires k.Busy? && WorkerOk(d, nextZ, k)
    ensures MovesLeft(d, Advance(d, nextZ, k)) < MovesLeft(d, k)
  {
    hide SliceMoves;
    if k.c.y + 1 < d.y {
      NextRow(d, d.y - k.c.y - 1);
    }
  }

  lemma NewSlice(d: Dims, z: nat)
    ensures MovesLeft(d, Busy(Cell(z, 0, 0), false)) == SliceMoves(d, d.y) + 2
  {
    if d.y > 0 {
      NextRow(d, d.y);
    }
  }

  /** Every move uses up fuel, so every schedule ends. */
  lemma StepBurns(d: Dims, nextZ: nat, ws: seq<Worker>, w: nat)
    requires w < |ws| && !ws[w].Finished? && d.z + |ws| <= WORD && WorkersOk(d, nextZ, ws)
    ensures Fuel(d, Drawn(nextZ, ws[w]), ws[w := Advance(d, nextZ, ws[w])]) < Fuel(d, nextZ, ws)
  {
    var k, k' := ws[w], Advance(d, nextZ, ws[w]);
    AdvanceKeeps(d, nextZ, ws, w);
    SumUpdate(ws, w, k', Rate(d));
    assert WorkerOk(d, nextZ, k);
    assert MovesLeft(d, Idle) == 1 && MovesLeft(d, Finished) == 0;
    hide MovesLeft, SliceMoves, Sum, WorkersOk;
    if k.Idle? {
      NewSlice(d, nextZ);
      if nextZ < d.z {
        NextSlice(d.z - nextZ, SliceMoves(d, d.y) + 2);
      }
    } else {
      MovesDrop(d, nextZ, k);
    }
  }

  /** The level's data holds the pair of every brick of its grid. */
  ghost predicate Records(l: Level, pair: Cell -> MinMax) {
    && Sized(l.grid) && LevelOk(l)
    && forall c: Cell | c.Inside(l.grid) :: Readable(l, c) && Lookup(l, c) == pair(c)
  }

  predicate AllFinished(ws: seq<Worker>) {
    forall w :: 0 <= w < |ws| ==> ws[w].Finished?
  }

  /** Once all workers are done every byte has been written exactly once, and the data records the pairs. */
  lemma ScanComplete(d: Dims, pair: Cell -> MinMax, s: Scan)
    requires Sized(d) && ScanInv(d, pair, s) && s.workers != [] && AllFinished(s.workers)
    ensures forall i :: 0 <= i < |s.writes| ==> s.writes[i] == 1
    ensures Records(Level(d, s.data), pair)
  {
    hide Index, At, Dims.Count;
    assert WorkerOk(d, s.nextZ, s.workers[0]);
    forall c: Cell, high: bool | c.Inside(d)
      ensures Place(d, c, high) < |s.data| && s.data[Place(d, c, high)] == Half(pair(c), high)
      ensures s.writes[Place(d, c, high)] == 1
    {
      PlaceFits(d, c, high);
    }
    forall c: Cell | c.Inside(d) ensures Readable(Level(d, s.data), c) && Lookup(Level(d, s.data), c) == pair(c) {
      AtIndex(d, c);
      assert Place(d, c, true) == Offset(d, c) + 1 && Place(d, c, false) == Offset(d, c);
    }
    forall i | 0 <= i < |s.writes| ensures s.writes[i] == 1 {
      IndexAt(d, i / 2);
      assert Place(d, At(d, i / 2), i % 2 == 1) == i;
    }
  }

  /** The workers in any order the scheduler picks; the result is the same in all of them. */
  method ScanLevel(d: Dims, pair: Cell -> MinMax, threads: nat) returns (data: seq<byte>)
    requires Sized(d) && threads > 0 && d.z + threads <= WORD
    ensures Records(Level(d, data), pair)
  {
    hide ScanInv, WorkersOk, Records, Fuel, Advance, Place, Dims.Count, Sized;
    var nextZ, workers: seq<Worker> := 0, seq(threads, _ => Idle);
    data := Zeros(2 * d.Count());
    ghost var writes := seq(|data|, _ => 0);
    ScanStarts(d, pair, Scan(nextZ, workers, data, writes));
    while exists w :: 0 <= w < |workers| && !workers[w].Finished?
      invariant |workers| == threads
      invariant ScanInv(d, pair, Scan(nextZ, workers, data, writes))
      decreases Fuel(d, nextZ, workers)
    {
      var w: nat :| w < |workers| && !workers[w].Finished?;
      ghost var s := Scan(nextZ, workers, data, writes);
      StepKeeps(d, pair, s, w);
      ScanParts(d, pair, s);
      StepBurns(d, nextZ, workers, w);
      var k := workers[w];
      workers := workers[w := Advance(d, nextZ, k)];
      if k.Idle? {
        nextZ := nextZ + 1;
      } else if k.c.y < d.y && k.c.x < d.x {
        var i := Place(d, k.c, k.high);
        data := data[i := Half(pair(k.c), k.high)];
        writes := writes[i := writes[i] + 1];
      }
      assert Scan(nextZ, workers, data, writes) == Step(d, pair, s, w);
    }
    ScanComplete(d, pair, Scan(nextZ, workers, data, writes));
  }

  function Zeros(n: nat): (s: seq<byte>)
    ensures |s| == n && forall i :: 0 <= i < n ==> s[i] == 0
  {
    seq(n, _ => 0)
  }

  lemma ScanParts(d: Dims, pair: Cell -> MinMax, s: Scan)
    requires Sized(d) && ScanInv(d, pair, s)
    ensures WorkersOk(d, s.nextZ, s.workers)
  {
  }

  lemma ScanStarts(d: Dims, pair: Cell -> MinMax, s: Scan)
    requires Sized(d) && s.nextZ == 0 && |s.data| == |s.writes| == 2 * d.Count()
    requires forall w :: 0 <= w < |s.workers| ==> s.workers[w] == Idle
    requires forall i :: 0 <= i < |s.data| ==> s.data[i] == 0 && s.writes[i] == 0
    ensures ScanInv(d, pair, s)
  {
    hide Dims.Count, Place, Sized;
    forall c: Cell, high: bool | c.Inside(d)
      ensures Place(d, c, high) < |s.data|
      ensures ByteOk(pair, c, high, Done(s.nextZ, s.workers, c, high), s.data[Place(d, c, high)],
                     s.writes[Place(d, c, high)])
    {
      PlaceFits(d, c, high);
    }
  }

  // ---------- the file ----------

  lemma {:induction false} LevelsBytesJoin(a: seq<Level>, b: seq<Level>)
    ensures LevelsBytes(a + b) == LevelsBytes(a) + LevelsBytes(b)
  {
    hide LevelBytes;
    if a == [] {
      assert a + b == b;
    } else {
      LevelsBytesJoin(a[1..], b);
      assert (a + b)[0] == a[0] && (a + b)[1..] == a[1..] + b;
      var h, m, t := LevelBytes(a[0]), LevelsBytes(a[1..]), LevelsBytes(b);
      hide LevelsBytes;
      assert h + (m + t) == h + m + t;
    }
  }

  lemma NoLevels()
    ensures LevelsBytes([]) == []
  {
  }

  lemma LevelsBytesOne(ls: seq<Level>, l: Level)
    ensures LevelsBytes(ls + [l]) == LevelsBytes(ls) + LevelHeader(l.grid) + l.data
  {
    LevelsBytesJoin(ls, [l]);
    assert LevelsBytes([l]) == LevelBytes(l) + LevelsBytes([l][1..]);
  }

  /** The pairs the tool records for one level of the store. */
  function Pairs(chunk: (nat, Cell) -> Chunk, level: nat, scan: bool, fill: byte): Cell -> MinMax {
    (c: Cell) => Pair(chunk(level, c), scan, fill)
  }

  /** The level that holds the pair of every brick of its grid. */
  function LevelFor(d: Dims, pair: Cell -> MinMax): Level {
    Level(d, seq<byte>(2 * d.Count(), j requires 0 <= j < 2 * d.Count() =>
                                        (PositiveFactors(d); Half(pair(At(d, j / 2)), j % 2 == 1))))
  }

  lemma LevelForGrid(d: Dims, pair: Cell -> MinMax)
    ensures LevelFor(d, pair).grid == d
  {
  }

  /** It is the one level of its grid that records the pairs. */
  lemma RecordsIff(l: Level, pair: Cell -> MinMax)
    requires Sized(l.grid)
    ensures Records(l, pair) <==> l == LevelFor(l.grid, pair)
  {
    hide Index, At, Dims.Count;
    var d, m := l.grid, LevelFor(l.grid, pair);
    if Records(l, pair) {
      forall j | 0 <= j < |l.data| ensures l.data[j] == m.data[j] {
        IndexAt(d, j / 2);
        assert Lookup(l, At(d, j / 2)) == pair(At(d, j / 2));
      }
      assert l.data == m.data;
    }
    if l == m {
      forall c: Cell | c.Inside(d) ensures Readable(l, c) && Lookup(l, c) == pair(c) {
        AtIndex(d, c);
      }
    }
  }

  ghost predicate AllSized(grids: seq<Dims>) {
    forall i :: 0 <= i < |grids| ==> Sized(grids[i])
  }

  /** The levels a file should have. */
  function LevelsFor(grids: seq<Dims>, chunk: (nat, Cell) -> Chunk, scan: bool, fill: byte): (ls: seq<Level>)
    ensures |ls| == |grids|
  {
    seq(|grids|, i requires 0 <= i < |grids| => LevelFor(grids[i], Pairs(chunk, i, scan, fill)))
  }

  lemma LevelsForOk(grids: seq<Dims>, chunk: (nat, Cell) -> Chunk, scan: bool, fill: byte)
    requires AllSized(grids)
    ensures LevelsOk(LevelsFor(grids, chunk, scan, fill))
  {
    hide Dims.Count;
  }

  /** The tool: header, then every level's grid and data. The level count goes out as one byte. */
  method WriteManifest(grids: seq<Dims>, chunk: (nat, Cell) -> Chunk, scan: bool, fill: byte, threads: nat)
    returns (file: seq<byte>)
    requires threads > 0 && AllSized(grids) && forall i :: 0 <= i < |grids| ==> grids[i].z + threads <= WORD
    ensures file == Header(fill, |grids| % 256, 0) + LevelsBytes(LevelsFor(grids, chunk, scan, fill))
  {
    hide Encoded, Records, Sized, Pairs, LevelFor, LevelsBytes;
    assert LevelsBytes([]) == [] by { NoLevels(); }
    ghost var levels := LevelsFor(grids, chunk, scan, fill);
    file := MAGIC + Encoded(1, 4) + Encoded(fill, 1) + Encoded(|grids| % 256, 1) + Encoded(0, 2);
    for li := 0 to |grids|
      invariant file == Header(fill, |grids| % 256, 0) + LevelsBytes(levels[..li])
    {
      var grid := grids[li];
      file := file + Encoded(grid.z, 4) + Encoded(grid.y, 4) + Encoded(grid.x, 4);
      var data := ScanLevel(grid, Pairs(chunk, li, scan, fill), threads);
      file := file + data;
      RecordsIff(Level(grid, data), Pairs(chunk, li, scan, fill));
      LevelsBytesOne(levels[..li], Level(grid, data));
      assert levels[..li + 1] == levels[..li] + [Level(grid, data)];
    }
    assert levels[..|grids|] == levels;
  }

  /** What the tool writes parses back: the fill and the levels, all of them exactly when there are fewer than 256. */
  lemma WrittenReadsBack(fill: byte, levels: seq<Level>)
    requires LevelsOk(levels)
    ensures var n := |levels| % 256;
            Parsed(Header(fill, n, 0) + LevelsBytes(levels)) == Ok(Manifest(fill, levels[..n]))
    ensures levels[..|levels| % 256] == levels <==> |levels| < 256
  {
    hide Header, LevelsBytes, Parsed;
    var n := |levels| % 256;
    var m := Manifest(fill, levels[..n]);
    LevelsBytesJoin(levels[..n], levels[n..]);
    assert levels == levels[..n] + levels[n..];
    RoundTrip(m, 0, LevelsBytes(levels[n..]));
    assert Header(fill, n, 0) + LevelsBytes(levels) == Serialised(m, 0) + LevelsBytes(levels[n..]);
  }

  /** 256 levels are written and none is read back. */
  lemma CountLoses(chunk: (nat, Cell) -> Chunk, scan: bool, fill: byte) returns (grids: seq<Dims>)
    ensures |grids| == 256 && AllSized(grids)
    ensures Parsed(Header(fill, |grids| % 256, 0) + LevelsBytes(LevelsFor(grids, chunk, scan, fill))) == Ok(Manifest(fill, []))
  {
    grids := seq(256, _ => Dims(1, 1, 1));
    var levels := LevelsFor(grids, chunk, scan, fill);
    LevelsForOk(grids, chunk, scan, fill);
    hide Parsed, Header, LevelsBytes, LevelsFor, LevelsOk;
    WrittenReadsBack(fill, levels);
    assert levels[..0] == [];
  }

  /** From store to lookup: a brick reads as empty exactly when the store has nothing for it or the scan saw nothing
      but fill in the 8-bit domain, and as invisible only if nothing the scan saw in it is above the cutoff. */
  lemma {:induction false} CullingIsSound(grids: seq<Dims>, chunk: (nat, Cell) -> Chunk, scan: bool, fill: byte,
                                         i: nat, c: Cell, threshold: byte)
    requires |grids| < 256 && AllSized(grids) && i < |grids| && c.Inside(grids[i])
    ensures var levels := LevelsFor(grids, chunk, scan, fill);
            && Parsed(Header(fill, |grids|, 0) + LevelsBytes(levels)) == Ok(Manifest(fill, levels))
            && Readable(levels[i], c)
            && var k, p := chunk(i, c), Lookup(levels[i], c);
               && (IsEmpty(fill, p) <==> k.Absent? || (scan && OnlyFill(k, fill)))
               && (IsInvisible(threshold, p) && Decodes(k) ==> forall v | v in Densities(k) :: v <= threshold)
  {
    hide Header, LevelsBytes, Parsed, Lookup, Readable, LevelFor, LevelsOk;
    LevelsForOk(grids, chunk, scan, fill);
    LevelForGrid(grids[i], Pairs(chunk, i, scan, fill));
    RecordsIff(LevelFor(grids[i], Pairs(chunk, i, scan, fill)), Pairs(chunk, i, scan, fill));
    WrittenReadsBack(fill, LevelsFor(grids, chunk, scan, fill));
    EmptyIff(chunk(i, c), scan, fill);
    InvisibleIff(chunk(i, c), scan, fill, threshold);
  }
}
