/** The manifest sidecar: its bytes, the parser over them, and the lookups on what it parsed. */
module Manifests {
  import opened Grid
  import opened Numbers

  const WORD := 0x1_0000_0000
  const SIZE := 0x1_0000_0000_0000_0000
  const MAGIC: seq<byte> := [83, 86, 77, 70]

  datatype Level = Level(grid: Dims, data: seq<byte>)

  datatype Manifest = Manifest(fill: byte, levels: seq<Level>)

  datatype MinMax = MinMax(min: byte, max: byte)

  datatype Error =
    | TooShort
    | BadMagic
    | HeaderTruncated
    | BadVersion(version: nat)
    | LevelHeaderTruncated(level: nat)
    | LevelDataTruncated(level: nat)

  datatype Result<T> = Ok(value: T) | Err(error: Error)

  // ---------- little-endian words ----------

  function Pow256(width: nat): nat {
    if width == 0 then 1 else 256 * Pow256(width - 1)
  }

  function Encoded(v: nat, width: nat): (s: seq<byte>)
    ensures |s| == width
  {
    if width == 0 then [] else [v % 256] + Encoded(v / 256, width - 1)
  }

  function Decoded(s: seq<byte>): nat {
    if s == [] then 0 else s[0] + 256 * Decoded(s[1..])
  }

  /** A word that fits its width is read back from its bytes. */
  lemma {:induction false} DecodeEncoded(v: nat, width: nat)
    requires v < Pow256(width)
    ensures Decoded(Encoded(v, width)) == v
  {
    if width > 0 {
      DecodeEncoded(v / 256, width - 1);
      assert Encoded(v, width)[1..] == Encoded(v / 256, width - 1);
    }
  }

  lemma WordSplit(b: byte, v: nat)
    ensures (b + 256 * v) % 256 == b && (b + 256 * v) / 256 == v
  {
  }

  /** Every run of bytes is the encoding of the word read from it. */
  lemma {:induction false} EncodeDecoded(s: seq<byte>)
    ensures Decoded(s) < Pow256(|s|)
    ensures Encoded(Decoded(s), |s|) == s
  {
    if s != [] {
      var v := Decoded(s[1..]);
      EncodeDecoded(s[1..]);
      WordSplit(s[0], v);
      assert s == [s[0]] + s[1..];
    }
  }

  lemma Widths()
    ensures Pow256(1) == 256 && Pow256(2) == 0x1_0000 && Pow256(4) == WORD
  {
    assert Pow256(2) == 256 * Pow256(1) && Pow256(3) == 256 * Pow256(2) && Pow256(4) == 256 * Pow256(3);
  }

  // ---------- the layout ----------

  /** Bytes of a level's data, as the parser's machine word computes them. */
  function DataSize(d: Dims): nat {
    2 * d.Count() % SIZE
  }

  predicate LevelOk(l: Level) {
    l.grid.z < WORD && l.grid.y < WORD && l.grid.x < WORD && |l.data| == DataSize(l.grid)
  }

  predicate LevelsOk(ls: seq<Level>) {
    forall i :: 0 <= i < |ls| ==> LevelOk(ls[i])
  }

  predicate ManifestOk(m: Manifest) {
    |m.levels| < 256 && LevelsOk(m.levels)
  }

  function LevelHeader(d: Dims): (s: seq<byte>)
    ensures |s| == 12
  {
    Encoded(d.z, 4) + Encoded(d.y, 4) + Encoded(d.x, 4)
  }

  function LevelBytes(l: Level): seq<byte> {
    LevelHeader(l.grid) + l.data
  }

  function LevelsBytes(ls: seq<Level>): seq<byte> {
    if ls == [] then [] else LevelBytes(ls[0]) + LevelsBytes(ls[1..])
  }

  function Header(fill: byte, count: byte, reserved: nat): (s: seq<byte>)
    ensures |s| == 12
  {
    MAGIC + Encoded(1, 4) + Encoded(fill, 1) + Encoded(count, 1) + Encoded(reserved, 2)
  }

  function Serialised(m: Manifest, reserved: nat): seq<byte>
    requires |m.levels| < 256
  {
    Header(m.fill, |m.levels|, reserved) + LevelsBytes(m.levels)
  }

  // ---------- what the parser makes of bytes ----------

  function GridOf(s: seq<byte>): Dims
    requires |s| >= 12
  {
    Dims(Decoded(s[0..4]), Decoded(s[4..8]), Decoded(s[8..12]))
  }

  /** Levels i to count - 1, read from the front of s. */
  function ParsedLevels(s: seq<byte>, i: nat, count: nat): Result<seq<Level>>
    requires i <= count
    decreases count - i
  {
    if i == count then Ok([])
    else if |s| < 12 then Err(LevelHeaderTruncated(i))
    else
      var grid := GridOf(s);
      var n := DataSize(grid);
      if |s| - 12 < n then Err(LevelDataTruncated(i))
      else
        match ParsedLevels(s[12 + n..], i + 1, count)
        case Ok(rest) => Ok([Level(grid, s[12..12 + n])] + rest)
        case Err(e) => Err(e)
  }

  function Parsed(s: seq<byte>): Result<Manifest> {
    if |s| < 4 then Err(TooShort)
    else if s[..4] != MAGIC then Err(BadMagic)
    else if |s| < 12 then Err(HeaderTruncated)
    else if Decoded(s[4..8]) != 1 then Err(BadVersion(Decoded(s[4..8])))
    else
      var count := Decoded(s[9..10]);
      match ParsedLevels(s[12..], 0, count)
      case Ok(levels) => Ok(Manifest(s[8], levels))
      case Err(e) => Err(e)
  }

  // ---------- the parser and the layout are inverse ----------

  /** A stretch of bytes is known by the word read from it. */
  lemma SameWord(a: seq<byte>, b: seq<byte>)
    requires |a| == |b| && Decoded(a) == Decoded(b)
    ensures a == b
  {
    EncodeDecoded(a);
    EncodeDecoded(b);
  }

  lemma LevelHeaderParts(d: Dims)
    requires d.z < WORD && d.y < WORD && d.x < WORD
    ensures var h := LevelHeader(d);
            Decoded(h[..4]) == d.z && Decoded(h[4..8]) == d.y && Decoded(h[8..12]) == d.x
  {
    Widths();
    DecodeEncoded(d.z, 4);
    DecodeEncoded(d.y, 4);
    DecodeEncoded(d.x, 4);
    hide Encoded, Decoded, Pow256;
    var h := LevelHeader(d);
    assert h[..4] == Encoded(d.z, 4) && h[4..8] == Encoded(d.y, 4) && h[8..12] == Encoded(d.x, 4);
  }

  lemma ThreeWords(h: seq<byte>, s: seq<byte>)
    requires |h| == 12 <= |s|
    ensures h <= s <==> (h[..4] == s[..4] && h[4..8] == s[4..8] && h[8..12] == s[8..12])
  {
    assert h == h[..4] + h[4..8] + h[8..12];
    assert s[..12] == s[..4] + s[4..8] + s[8..12];
    if h <= s {
      assert s[..12] == h;
      assert forall a: nat, b: nat | a <= b <= 12 :: s[..12][a..b] == s[a..b];
    }
  }

  lemma HeaderRead(d: Dims, s: seq<byte>)
    requires |s| >= 12
    ensures GridOf(s).z < WORD && GridOf(s).y < WORD && GridOf(s).x < WORD
    ensures d.z < WORD && d.y < WORD && d.x < WORD ==> (GridOf(s) == d <==> LevelHeader(d) <= s)
  {
    Widths();
    EncodeDecoded(s[..4]);
    EncodeDecoded(s[4..8]);
    EncodeDecoded(s[8..12]);
    assert s[0..4] == s[..4];
    hide Encoded, Decoded, Pow256, LevelHeader;
    if d.z < WORD && d.y < WORD && d.x < WORD {
      var h := LevelHeader(d);
      LevelHeaderParts(d);
      ThreeWords(h, s);
      if GridOf(s) == d {
        SameWord(s[..4], h[..4]);
        SameWord(s[4..8], h[4..8]);
        SameWord(s[8..12], h[8..12]);
      }
    }
  }

  lemma PrefixSplit(a: seq<byte>, b: seq<byte>, s: seq<byte>)
    ensures a + b <= s <==> a <= s && b <= s[|a|..]
  {
    if a <= s && b <= s[|a|..] {
      assert s == a + s[|a|..];
    }
    if a + b <= s {
      assert (a + b)[..|a|] == a && (a + b)[|a|..] == b;
      assert s[|a|..][..|b|] == s[|a|..|a| + |b|];
    }
  }

  /** One level is at the front of s exactly when the parser reads it there and the rest follows. */
  lemma LevelRead(l: Level, rest: seq<byte>, s: seq<byte>)
    requires |s| >= 12
    ensures LevelOk(l) && LevelBytes(l) + rest <= s
       <==> (var n := DataSize(GridOf(s));
             |s| - 12 >= n && l == Level(GridOf(s), s[12..12 + n]) && rest <= s[12 + n..])
  {
    hide Encoded, Decoded, Pow256, DataSize;
    var n := DataSize(GridOf(s));
    HeaderRead(l.grid, s);
    hide GridOf, LevelHeader;
    PrefixSplit(LevelBytes(l), rest, s);
    PrefixSplit(LevelHeader(l.grid), l.data, s);
    if |l.data| == n <= |s| - 12 {
      assert s[12..][..n] == s[12..12 + n];
    }
  }

  lemma {:induction false} ParsedLevelsIff(s: seq<byte>, i: nat, count: nat, ls: seq<Level>)
    requires i <= count
    ensures ParsedLevels(s, i, count) == Ok(ls)
       <==> |ls| == count - i && LevelsOk(ls) && LevelsBytes(ls) <= s
    decreases count - i
  {
    hide GridOf, LevelHeader, DataSize, LevelOk;
    if i < count && |s| >= 12 {
      var n := DataSize(GridOf(s));
      if ls != [] {
        LevelRead(ls[0], LevelsBytes(ls[1..]), s);
        assert ls == [ls[0]] + ls[1..];
      }
      if |s| - 12 >= n {
        var r := ParsedLevels(s[12 + n..], i + 1, count);
        if ls != [] {
          ParsedLevelsIff(s[12 + n..], i + 1, count, ls[1..]);
          assert r.Ok? ==> ([Level(GridOf(s), s[12..12 + n])] + r.value)[1..] == r.value;
        }
      }
    }
  }

  lemma HeaderParts(fill: byte, count: byte, reserved: nat)
    requires reserved < 0x1_0000
    ensures var h := Header(fill, count, reserved);
            && h[..4] == MAGIC && Decoded(h[4..8]) == 1 && Decoded(h[8..9]) == fill && Decoded(h[9..10]) == count
            && Decoded(h[10..12]) == reserved
  {
    Widths();
    DecodeEncoded(1, 4);
    DecodeEncoded(fill, 1);
    DecodeEncoded(count, 1);
    DecodeEncoded(reserved, 2);
    hide Encoded, Decoded, Pow256;
    var h := Header(fill, count, reserved);
    assert h[..4] == MAGIC && h[4..8] == Encoded(1, 4) && h[8..9] == Encoded(fill, 1) && h[9..10] == Encoded(count, 1)
        && h[10..12] == Encoded(reserved, 2);
  }

  lemma TwelveBytes(h: seq<byte>, s: seq<byte>)
    requires |h| == 12 <= |s|
    ensures h <= s <==> (h[..4] == s[..4] && h[4..8] == s[4..8] && h[8..9] == s[8..9] && h[9..10] == s[9..10]
                         && h[10..12] == s[10..12])
  {
    assert h == h[..4] + h[4..8] + h[8..9] + h[9..10] + h[10..12];
    assert s[..12] == s[..4] + s[4..8] + s[8..9] + s[9..10] + s[10..12];
    if h <= s {
      assert s[..12] == h;
      assert forall a: nat, b: nat | a <= b <= 12 :: s[..12][a..b] == s[a..b];
    }
  }

  lemma MagicRead(fill: byte, count: byte, reserved: nat, s: seq<byte>)
    requires |s| >= 12 && reserved < 0x1_0000
    ensures Header(fill, count, reserved) <= s
       <==> (s[..4] == MAGIC && Decoded(s[4..8]) == 1 && s[8] == fill && Decoded(s[9..10]) == count
             && Decoded(s[10..12]) == reserved)
  {
    assert Decoded(s[8..9]) == s[8];
    HeaderParts(fill, count, reserved);
    var h := Header(fill, count, reserved);
    hide Encoded, Decoded, Pow256, Header;
    TwelveBytes(h, s);
    if Decoded(s[4..8]) == 1 && s[8] == fill && Decoded(s[9..10]) == count && Decoded(s[10..12]) == reserved {
      SameWord(s[4..8], h[4..8]);
      SameWord(s[8..9], h[8..9]);
      SameWord(s[9..10], h[9..10]);
      SameWord(s[10..12], h[10..12]);
    }
  }

  /** The parser accepts exactly the bytes that begin with a serialised manifest, and returns that manifest;
      what the reserved field holds and what follows the last level do not matter. */
  lemma ParsedIff(s: seq<byte>, m: Manifest)
    ensures Parsed(s) == Ok(m)
       <==> ManifestOk(m) && exists reserved :: 0 <= reserved < 0x1_0000 && Serialised(m, reserved) <= s
  {
    hide LevelsBytes, LevelsOk, ParsedLevels, Decoded;
    if |s| >= 12 {
      Widths();
      EncodeDecoded(s[9..10]);
      EncodeDecoded(s[10..12]);
      var count, got := Decoded(s[9..10]), Decoded(s[10..12]);
      hide Pow256, Encoded;
      ParsedLevelsIff(s[12..], 0, count, m.levels);
      if |m.levels| < 256 {
        forall reserved: nat | reserved < 0x1_0000
          ensures Serialised(m, reserved) <= s
             <==> Header(m.fill, |m.levels|, reserved) <= s && LevelsBytes(m.levels) <= s[12..]
        {
          PrefixSplit(Header(m.fill, |m.levels|, reserved), LevelsBytes(m.levels), s);
          MagicRead(m.fill, |m.levels|, reserved, s);
        }
        MagicRead(m.fill, |m.levels|, got, s);
        if Parsed(s) == Ok(m) {
          assert Serialised(m, got) <= s;
        }
      }
    } else if |m.levels| < 256 {
      forall reserved: nat ensures |Serialised(m, reserved)| >= 12 {
      }
    }
  }

  /** Reading back what was written gives the manifest, whatever follows it. */
  lemma RoundTrip(m: Manifest, reserved: nat, rest: seq<byte>)
    requires ManifestOk(m) && reserved < 0x1_0000
    ensures Parsed(Serialised(m, reserved) + rest) == Ok(m)
  {
    hide Parsed, Serialised;
    ParsedIff(Serialised(m, reserved) + rest, m);
  }

  /** After the levels read so far, these bytes have no further level, and this is why. */
  predicate Stops(s: seq<byte>, i: nat, e: Error) {
    if |s| < 12 then e == LevelHeaderTruncated(i)
    else |s| - 12 < DataSize(GridOf(s)) && e == LevelDataTruncated(i)
  }

  ghost predicate StopsAfter(s: seq<byte>, ls: seq<Level>, i: nat, e: Error) {
    LevelsOk(ls) && LevelsBytes(ls) <= s && Stops(s[|LevelsBytes(ls)|..], i + |ls|, e)
  }

  lemma OneMore(s: seq<byte>, l: Level, ls: seq<Level>, i: nat, e: Error)
    requires LevelOk(l) && LevelBytes(l) + LevelsBytes(ls) <= s
    requires StopsAfter(s[|LevelBytes(l)|..], ls, i + 1, e)
    ensures StopsAfter(s, [l] + ls, i, e)
  {
    hide Stops, LevelOk, LevelBytes;
    assert ([l] + ls)[1..] == ls;
    var a, b := |LevelBytes(l)|, |LevelsBytes(ls)|;
    assert s[a..][b..] == s[a + b..];
  }

  lemma StopsHere(s: seq<byte>, i: nat, e: Error)
    requires Stops(s, i, e)
    ensures StopsAfter(s, [], i, e)
  {
    hide Stops;
    assert s[0..] == s;
  }

  lemma StopsLater(s: seq<byte>, ls: seq<Level>, i: nat, e: Error)
    requires |s| >= 12 && |s| - 12 >= DataSize(GridOf(s))
    requires StopsAfter(s[12 + DataSize(GridOf(s))..], ls, i + 1, e)
    ensures StopsAfter(s, [Level(GridOf(s), s[12..12 + DataSize(GridOf(s))])] + ls, i, e)
  {
    var l := Level(GridOf(s), s[12..12 + DataSize(GridOf(s))]);
    LevelRead(l, LevelsBytes(ls), s);
    hide Stops, LevelHeader, DataSize, GridOf, LevelsOk;
    OneMore(s, l, ls, i, e);
  }

  /** A level error names the first level that is not there: all before it are, and the rest is too short for it. */
  lemma {:induction false} ParsedLevelsErr(s: seq<byte>, i: nat, count: nat)
    requires i <= count && ParsedLevels(s, i, count).Err?
    ensures exists ls :: |ls| < count - i && StopsAfter(s, ls, i, ParsedLevels(s, i, count).error)
    decreases count - i
  {
    hide GridOf, DataSize, StopsAfter;
    var e := ParsedLevels(s, i, count).error;
    if |s| < 12 || |s| - 12 < DataSize(GridOf(s)) {
      StopsHere(s, i, e);
    } else {
      var n := DataSize(GridOf(s));
      ParsedLevelsErr(s[12 + n..], i + 1, count);
      var ls :| |ls| < count - i - 1 && StopsAfter(s[12 + n..], ls, i + 1, e);
      StopsLater(s, ls, i, e);
      assert |[Level(GridOf(s), s[12..12 + n])] + ls| < count - i;
    }
  }

  // ---------- the parser's loop ----------

  /** Takes a little-endian word off the front of the input, if it is long enough. */
  method ReadWord(input: seq<byte>, width: nat) returns (ok: bool, word: nat, rest: seq<byte>)
    ensures ok <==> |input| >= width
    ensures ok ==> word < Pow256(width) && input == Encoded(word, width) + rest
    ensures !ok ==> word == 0 && rest == input
  {
    if |input| < width {
      return false, 0, input;
    }
    EncodeDecoded(input[..width]);
    return true, Decoded(input[..width]), input[width..];
  }

  /** There is one way to take a word off the front. */
  lemma WordRead(input: seq<byte>, width: nat, word: nat, rest: seq<byte>)
    requires word < Pow256(width) && input == Encoded(word, width) + rest
    ensures width <= |input| && word == Decoded(input[..width]) && rest == input[width..]
  {
    DecodeEncoded(word, width);
  }

  /** What a run of levels read so far makes of the outcome for the remaining ones. */
  function Behind(ls: seq<Level>, r: Result<seq<Level>>): Result<seq<Level>> {
    match r
    case Ok(rest) => Ok(ls + rest)
    case Err(e) => Err(e)
  }

  lemma BehindNone(r: Result<seq<Level>>)
    ensures Behind([], r) == r
  {
    if r.Ok? {
      assert [] + r.value == r.value;
    }
  }

  lemma BehindOne(ls: seq<Level>, l: Level, r: Result<seq<Level>>)
    ensures Behind(ls, Behind([l], r)) == Behind(ls + [l], r)
  {
    if r.Ok? {
      assert ls + ([l] + r.value) == ls + [l] + r.value;
    }
  }

  lemma ThreeWordsRead(s: seq<byte>, z: nat, y: nat, x: nat, rest: seq<byte>)
    requires z < WORD && y < WORD && x < WORD && s == Encoded(z, 4) + (Encoded(y, 4) + (Encoded(x, 4) + rest))
    ensures |s| >= 12 && GridOf(s) == Dims(z, y, x) && rest == s[12..]
  {
    Widths();
    WordRead(s, 4, z, Encoded(y, 4) + (Encoded(x, 4) + rest));
    WordRead(s[4..], 4, y, Encoded(x, 4) + rest);
    WordRead(s[4..][4..], 4, x, rest);
    assert s[4..][..4] == s[4..8] && s[4..][4..][..4] == s[8..12] && s[4..][4..][4..] == s[12..];
  }

  method ParseLevels(input: seq<byte>, count: nat) returns (r: Result<seq<Level>>)
    ensures r == ParsedLevels(input, 0, count)
  {
    Widths();
    hide Decoded, Encoded, Pow256, DataSize;
    var s, levels := input, [];
    BehindNone(ParsedLevels(s, 0, count));
    for i := 0 to count
      invariant Behind(levels, ParsedLevels(s, i, count)) == ParsedLevels(input, 0, count)
    {
      ghost var s0 := s;
      var ok, z, y, x;
      ok, z, s := ReadWord(s, 4);
      if ok {
        ok, y, s := ReadWord(s, 4);
        if ok {
          ok, x, s := ReadWord(s, 4);
        }
      }
      if !ok {
        return Err(LevelHeaderTruncated(i));
      }
      ThreeWordsRead(s0, z, y, x, s);
      var n := DataSize(Dims(z, y, x));
      if |s| < n {
        return Err(LevelDataTruncated(i));
      }
      var l := Level(Dims(z, y, x), s[..n]);
      BehindOne(levels, l, ParsedLevels(s[n..], i + 1, count));
      levels, s := levels + [l], s[n..];
      assert l == Level(GridOf(s0), s0[12..12 + n]) && s == s0[12 + n..];
    }
    assert levels + [] == levels;
    return Ok(levels);
  }

  lemma HeaderFields(s: seq<byte>, version: nat, fill: nat, count: nat, reserved: nat, rest: seq<byte>)
    requires |s| >= 4 && version < WORD && fill < 256 && count < 256 && reserved < 0x1_0000
    requires s[4..] == Encoded(version, 4) + (Encoded(fill, 1) + (Encoded(count, 1) + (Encoded(reserved, 2) + rest)))
    ensures |s| >= 12 && version == Decoded(s[4..8]) && fill == s[8] && count == Decoded(s[9..10]) && rest == s[12..]
  {
    Widths();
    WordRead(s[4..], 4, version, Encoded(fill, 1) + (Encoded(count, 1) + (Encoded(reserved, 2) + rest)));
    WordRead(s[8..], 1, fill, Encoded(count, 1) + (Encoded(reserved, 2) + rest));
    WordRead(s[9..], 1, count, Encoded(reserved, 2) + rest);
    WordRead(s[10..], 2, reserved, rest);
    hide Encoded, Decoded, Pow256;
    assert s[4..][..4] == s[4..8] && s[8..][..1] == s[8..9] && s[9..][..1] == s[9..10];
    FillRead(s);
  }

  method Parse(bytes: seq<byte>) returns (r: Result<Manifest>)
    ensures r == Parsed(bytes)
  {
    hide Decoded, Encoded, Pow256, ParsedLevels;
    if |bytes| < 4 {
      return Err(TooShort);
    }
    var s := bytes[4..];
    if bytes[..4] != MAGIC {
      return Err(BadMagic);
    }
    Widths();
    var ok, version, fill, count, reserved;
    ok, version, s := ReadWord(s, 4);
    if ok {
      ok, fill, s := ReadWord(s, 1);
      if ok {
        ok, count, s := ReadWord(s, 1);
        if ok {
          ok, reserved, s := ReadWord(s, 2);
        }
      }
    }
    if !ok {
      return Err(HeaderTruncated);
    }
    HeaderFields(bytes, version, fill, count, reserved, s);
    if version != 1 {
      return Err(BadVersion(version));
    }
    var levels := ParseLevels(s, count);
    match levels
    case Ok(ls) => return Ok(Manifest(fill, ls));
    case Err(e) => return Err(e);
  }

  lemma FillRead(s: seq<byte>)
    requires |s| >= 9
    ensures Decoded(s[8..9]) == s[8]
  {
    assert Decoded(s[8..9]) == s[8] + 256 * Decoded(s[8..9][1..]);
  }

  // ---------- lookups ----------

  predicate HasLevel(m: Manifest, level: int) {
    0 <= level < |m.levels| && m.levels[level].data != []
  }

  /** Where a brick's pair starts in its level's data, in machine words. */
  function Offset(d: Dims, c: Cell): nat {
    2 * Index(d, c) % SIZE
  }

  predicate Readable(l: Level, c: Cell) {
    c.Inside(l.grid) ==> Offset(l.grid, c) + 1 < |l.data|
  }

  function Lookup(l: Level, c: Cell): MinMax
    requires Readable(l, c)
  {
    if c.Inside(l.grid) then MinMax(l.data[Offset(l.grid, c)], l.data[Offset(l.grid, c) + 1]) else MinMax(0, 255)
  }

  /** Absent, or nothing but fill. */
  predicate IsEmpty(fill: byte, p: MinMax) {
    p.min == p.max == fill
  }

  /** Nothing above the cutoff. */
  predicate IsInvisible(threshold: byte, p: MinMax) {
    p.max <= threshold
  }

  /** An accepted level can be read at every brick of its grid exactly when its size does not wrap. */
  lemma ReadableIff(l: Level)
    requires LevelOk(l)
    ensures (forall c: Cell :: Readable(l, c)) <==> 2 * l.grid.Count() < SIZE
  {
    var d, n := l.grid, l.grid.Count();
    hide Dims.Count, Index, At;
    if 2 * n < SIZE {
      forall c: Cell ensures Readable(l, c) {
        if c.Inside(d) {
          AtIndex(d, c);
        }
      }
    } else {
      var k := SIZE / 2 - 1;
      IndexAt(d, k);
      assert Offset(d, At(d, k)) == SIZE - 2;
      assert !Readable(l, At(d, k));
    }
  }

  const WIDE := Dims(0xffff_ffff, 0x8000_0001, 1)

  /** 2^32 - 1 by 2^31 + 1 bricks wrap to 2^32 - 2 bytes: the file parses, and a brick of its grid is out of reach. */
  lemma WrapLoses() returns (file: seq<byte>, m: Manifest, c: Cell)
    ensures Parsed(file) == Ok(m) && HasLevel(m, 0) && m.levels[0].grid == WIDE
    ensures c.Inside(WIDE) && !Readable(m.levels[0], c)
  {
    var l := Level(WIDE, seq(0xffff_fffe, _ => 0));
    m, c := Manifest(0, [l]), Cell(0xffff_fffe, 1, 0);
    assert WIDE.Count() == 0x8000_0000_7fff_ffff;
    assert Offset(WIDE, c) == 0xffff_ffff_ffff_fffe;
    assert l.data[0] == 0;
    file := Serialised(m, 0);
    assert file + [] == file;
    hide Parsed, Serialised, Offset;
    RoundTrip(m, 0, []);
  }

  // ---------- the format, byte by byte ----------

  /** The value of a 32-bit word stored at position i. */
  function WordAt(s: seq<byte>, i: nat): nat
    requires i + 4 <= |s|
  {
    var a: nat, b: nat, c: nat, d: nat := s[i], s[i + 1], s[i + 2], s[i + 3];
    a + 0x100 * b + 0x1_0000 * c + 0x100_0000 * d
  }

  lemma DecodedWord(s: seq<byte>, i: nat)
    requires i + 4 <= |s|
    ensures Decoded(s[i..i + 4]) == WordAt(s, i)
  {
    var w := s[i..i + 4];
    assert w[1..][1..] == w[2..] && w[2..][1..] == w[3..] && w[3..][1..] == [];
    assert Decoded(w[3..]) == w[3] && Decoded(w[2..]) == w[2] + 256 * Decoded(w[3..]);
    assert Decoded(w[1..]) == w[1] + 256 * Decoded(w[2..]);
  }

  /** What the first bytes of a file must be, and what is said if they are not. */
  lemma HeaderErrors(s: seq<byte>)
    ensures Parsed(s) == Err(TooShort) <==> |s| < 4
    ensures Parsed(s) == Err(BadMagic) <==> |s| >= 4 && s[..4] != [0x53, 0x56, 0x4d, 0x46]
    ensures Parsed(s) == Err(HeaderTruncated) <==> 4 <= |s| < 12 && s[..4] == [0x53, 0x56, 0x4d, 0x46]
    ensures forall v :: Parsed(s) == Err(BadVersion(v))
              <==> |s| >= 12 && s[..4] == [0x53, 0x56, 0x4d, 0x46] && v == WordAt(s, 4) != 1
  {
    if |s| >= 12 {
      DecodedWord(s, 4);
      if Parsed(s).Err? && s[..4] == MAGIC && WordAt(s, 4) == 1 {
        LevelErrors(s[12..], 0, Decoded(s[9..10]));
      }
    }
  }

  lemma {:induction false} LevelErrors(s: seq<byte>, i: nat, count: nat)
    requires i <= count
    ensures var r := ParsedLevels(s, i, count); r.Err? ==> r.error.LevelHeaderTruncated? || r.error.LevelDataTruncated?
    decreases count - i
  {
    if i < count && |s| >= 12 && |s| - 12 >= DataSize(GridOf(s)) {
      LevelErrors(s[12 + DataSize(GridOf(s))..], i + 1, count);
    }
  }

  /** A file of one level, laid out byte by byte: magic, version, fill, level count, two reserved bytes, the grid with its
      slowest axis first, and a pair of bytes for every brick. */
  lemma OneLevelFile(s: seq<byte>)
    requires |s| >= 24 && s[..4] == [0x53, 0x56, 0x4d, 0x46] && WordAt(s, 4) == 1 && s[9] == 1
    requires |s| == 24 + 2 * (WordAt(s, 12) * WordAt(s, 16) * WordAt(s, 20)) < 0x1_0000_0000_0000_0000
    ensures Parsed(s) == Ok(Manifest(s[8], [Level(Dims(WordAt(s, 12), WordAt(s, 16), WordAt(s, 20)), s[24..])]))
  {
    DecodedWord(s, 4);
    var t := s[12..];
    DecodedWord(t, 0);
    DecodedWord(t, 4);
    DecodedWord(t, 8);
    assert WordAt(t, 0) == WordAt(s, 12) && WordAt(t, 4) == WordAt(s, 16) && WordAt(t, 8) == WordAt(s, 20);
    assert s[9..10] == [s[9]] && [s[9]][1..] == [];
    assert Decoded(s[9..10]) == 1;
    hide Decoded, WordAt;
    var grid := GridOf(t);
    var n := DataSize(grid);
    assert n == |t| - 12 && t[12..12 + n] == s[24..];
    assert ParsedLevels(t[12 + n..], 1, 1) == Ok([]);
    assert ParsedLevels(t, 0, 1) == Ok([Level(grid, s[24..])] + []);
    assert [Level(grid, s[24..])] + [] == [Level(grid, s[24..])];
  }

  /** A brick's pair: minimum then maximum, bricks in the order of x, then y, then z; any other place is unknown. */
  lemma PairAt(l: Level, c: Cell)
    requires LevelOk(l) && 2 * l.grid.Count() < 0x1_0000_0000_0000_0000
    ensures Readable(l, c)
    ensures var i := 2 * ((c.z * l.grid.y + c.y) * l.grid.x + c.x);
            if c.z < l.grid.z && c.y < l.grid.y && c.x < l.grid.x
            then i + 1 < |l.data| && Lookup(l, c) == MinMax(l.data[i], l.data[i + 1])
            else Lookup(l, c) == MinMax(0, 255)
  {
    hide At, Dims.Count;
    if c.Inside(l.grid) {
      AtIndex(l.grid, c);
      assert Index(l.grid, c) == (c.z * l.grid.y + c.y) * l.grid.x + c.x;
    }
    hide Index;
  }
}
