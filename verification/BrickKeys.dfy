/** Brick identities and their packed 64-bit form. */
module BrickKeys {
  import opened Grid

  datatype Coord = Coord(level: nat, z: nat, y: nat, x: nat)

  datatype Key = Key(volumeId: nat, coord: Coord)

  /** A brick asked for; the higher the priority the sooner it is fetched. */
  datatype Request = Request(key: Key, priority: real)

  const VOLUMES := 0x100
  const LEVELS := 0x10
  const AXIS := 0x2_0000

  /** The fields fit the widths the packing reserves for them. */
  predicate Fits(k: Key) {
    k.volumeId < VOLUMES && k.coord.level < LEVELS && k.coord.z < AXIS && k.coord.y < AXIS && k.coord.x < AXIS
  }

  /** The key with every field cut down to its width. */
  function Masked(k: Key): Key {
    Key(k.volumeId % VOLUMES, Coord(k.coord.level % LEVELS, k.coord.z % AXIS, k.coord.y % AXIS, k.coord.x % AXIS))
  }

  /** volumeId:8 | level:4 | z:17 | y:17 | x:17; the fields do not overlap, so the bitwise or is a sum. */
  function Packed(k: Key): nat {
    var m := Masked(k);
    m.volumeId * 0x80_0000_0000_0000 + m.coord.level * 0x8_0000_0000_0000
    + m.coord.z * 0x4_0000_0000 + m.coord.y * 0x2_0000 + m.coord.x
  }

  function Unpacked(p: nat): Key {
    Key(p / 0x80_0000_0000_0000 % VOLUMES,
        Coord(p / 0x8_0000_0000_0000 % LEVELS, p / 0x4_0000_0000 % AXIS, p / 0x2_0000 % AXIS, p % AXIS))
  }

  /** x lowest, in 17 bits, as y and z; then 4 bits of level and 8 of the volume. */
  lemma PackedIs(k: Key)
    requires Fits(k)
    ensures Packed(k) == k.coord.x + 0x2_0000 * k.coord.y + 0x4_0000_0000 * k.coord.z + 0x8_0000_0000_0000 * k.coord.level
                         + 0x80_0000_0000_0000 * k.volumeId
  {
  }

  /** On machine words: shifting the masked fields into place and or-ing them adds them up. */
  lemma OrIsSum(v: bv64, l: bv64, z: bv64, y: bv64, x: bv64)
    ensures ((v & 0xff) << 55) | ((l & 0xf) << 51) | ((z & 0x1ffff) << 34) | ((y & 0x1ffff) << 17) | (x & 0x1ffff)
         == (v & 0xff) * 0x80_0000_0000_0000 + (l & 0xf) * 0x8_0000_0000_0000
            + (z & 0x1ffff) * 0x4_0000_0000 + (y & 0x1ffff) * 0x2_0000 + (x & 0x1ffff)
  {
  }

  /** Unpacking undoes packing up to the masks, and the packed form fits 63 bits. */
  lemma UnpackPacked(k: Key)
    ensures Packed(k) < 0x8000_0000_0000_0000
    ensures Unpacked(Packed(k)) == Masked(k)
  {
    var m := Masked(k);
    FieldsOf(m.volumeId, m.coord.level, m.coord.z, m.coord.y, m.coord.x, Packed(k));
  }

  lemma FieldsOf(v: nat, l: nat, z: nat, y: nat, x: nat, p: nat)
    requires v < VOLUMES && l < LEVELS && z < AXIS && y < AXIS && x < AXIS
    requires p == v * 0x80_0000_0000_0000 + l * 0x8_0000_0000_0000 + z * 0x4_0000_0000 + y * 0x2_0000 + x
    ensures p < 0x8000_0000_0000_0000
    ensures p / 0x80_0000_0000_0000 % VOLUMES == v && p / 0x8_0000_0000_0000 % LEVELS == l
    ensures p / 0x4_0000_0000 % AXIS == z && p / 0x2_0000 % AXIS == y && p % AXIS == x
  {
    var vl := v * LEVELS + l;
    var vlz := vl * AXIS + z;
    var vlzy := vlz * AXIS + y;
    DivModUnique(vlzy, x, AXIS);
    DivModUnique(vlz, y, AXIS);
    DivModUnique(vlz, y * 0x2_0000 + x, 0x4_0000_0000);
    DivModUnique(vl, z, AXIS);
    DivModUnique(vl, z * 0x4_0000_0000 + y * 0x2_0000 + x, 0x8_0000_0000_0000);
    DivModUnique(v, l, LEVELS);
    DivModUnique(v, l * 0x8_0000_0000_0000 + z * 0x4_0000_0000 + y * 0x2_0000 + x, 0x80_0000_0000_0000);
  }

  /** Two keys pack alike exactly when they agree after masking; keys that fit pack alike only when equal. */
  lemma PackedInjective(a: Key, b: Key)
    ensures Packed(a) == Packed(b) <==> Masked(a) == Masked(b)
    ensures Fits(a) && Fits(b) ==> (Packed(a) == Packed(b) <==> a == b)
  {
    hide Unpacked, Packed, Masked, Fits;
    PackedOfMasked(a);
    PackedOfMasked(b);
    UnpackPacked(a);
    UnpackPacked(b);
  }

  lemma MaskedTwice(k: Key)
    ensures Masked(Masked(k)) == Masked(k)
    ensures Fits(k) ==> Masked(k) == k
  {
  }

  lemma PackedOfMasked(k: Key)
    ensures Packed(Masked(k)) == Packed(k)
    ensures Fits(k) ==> Masked(k) == k
  {
    hide Masked, Fits;
    MaskedTwice(k);
  }
}
