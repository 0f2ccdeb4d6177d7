/** Row-major indexing of a 3D grid, shared by the voxel array, the page-table
    directories, the tile pool, the slot pool and the manifest. */
module Grid {

  /** Extents of a grid, slowest axis first. */
  datatype Dims = Dims(z: nat, y: nat, x: nat) {
    function Count(): nat {
      z * y * x
    }
  }

  /** A cell of a grid. */
  datatype Cell = Cell(z: nat, y: nat, x: nat) {
    predicate Inside(d: Dims) {
      z < d.z && y < d.y && x < d.x
    }
  }

  function Index(d: Dims, c: Cell): nat {
    (c.z * d.y + c.y) * d.x + c.x
  }

  /** The cell an index stands for, as the source recovers it by division. */
  function At(d: Dims, i: nat): Cell
    requires d.y > 0 && d.x > 0
  {
    MulPositive(d.x, d.y);
    Cell(i / (d.x * d.y), (i / d.x) % d.y, i % d.x)
  }

  lemma MulPositive(a: nat, b: nat)
    requires a > 0 && b > 0
    ensures a * b > 0
  {
  }

  /** a * d + b determines a and b when b < d. */
  lemma QuotientUnique(a: nat, b: nat, a': nat, b': nat, d: nat)
    requires b < d && b' < d
    requires a * d + b == a' * d + b'
    ensures a == a' && b == b'
  {
    assert (a - a') * d == b' - b;
    if a > a' {
      MulMonotone(1, a - a', d);
    } else if a < a' {
      MulMonotone(a + 1, a', d);
    }
  }

  lemma DivStep(n: nat, d: nat)
    requires d > 0
    ensures n == (n / d) * d + n % d && n % d < d
  {
  }

  lemma DivModUnique(a: nat, b: nat, d: nat)
    requires b < d
    ensures (a * d + b) / d == a && (a * d + b) % d == b
  {
    var n := a * d + b;
    DivStep(n, d);
    QuotientUnique(n / d, n % d, a, b, d);
  }

  lemma MulMonotone(a: nat, b: nat, c: nat)
    requires a <= b
    ensures a * c <= b * c
  {
  }

  /** p rows of length a, q of them in a block of b rows. */
  lemma Nested(q: nat, p: nat, r: nat, a: nat, b: nat)
    requires p < b && r < a
    ensures (q * b + p) * a + r == q * (a * b) + (p * a + r)
    ensures p * a + r < a * b
  {
    assert (q * b + p) * a == q * b * a + p * a;
    assert q * b * a == q * (a * b);
    MulMonotone(p, b - 1, a);
    assert (b - 1) * a == a * b - a;
  }

  lemma Nest(i: nat, a: nat, b: nat, q: nat, p: nat, r: nat)
    requires p < b && r < a && i == (q * b + p) * a + r
    ensures a * b > 0 && i / (a * b) == q
  {
    MulPositive(a, b);
    Nested(q, p, r, a, b);
    DivModUnique(q, p * a + r, a * b);
  }

  /** Dividing twice is dividing by the product. */
  lemma DivDiv(i: nat, a: nat, b: nat)
    requires a > 0 && b > 0
    ensures a * b > 0 && i / (a * b) == i / a / b
  {
    var j := i / a;
    DivStep(i, a);
    DivStep(j, b);
    Nest(i, a, b, j / b, j % b, i % a);
  }

  lemma RowsFit(z: nat, y: nat, dz: nat, dy: nat)
    requires z < dz && y < dy
    ensures z * dy + y < dz * dy
  {
    MulMonotone(z + 1, dz, dy);
    assert (z + 1) * dy == z * dy + dy;
  }

  lemma IndexFits(d: Dims, c: Cell)
    requires c.Inside(d)
    ensures Index(d, c) < d.Count()
  {
    RowsFit(c.z, c.y, d.z, d.y);
    RowsFit(c.z * d.y + c.y, c.x, d.z * d.y, d.x);
  }

  /** Index and At are inverse on the cells inside the grid. */
  lemma AtIndex(d: Dims, c: Cell)
    requires c.Inside(d)
    ensures Index(d, c) < d.Count()
    ensures At(d, Index(d, c)) == c
  {
    hide Dims.Count;
    IndexFits(d, c);
    DivModUnique(c.z * d.y + c.y, c.x, d.x);
    DivModUnique(c.z, c.y, d.y);
    Nest(Index(d, c), d.x, d.y, c.z, c.y, c.x);
  }

  lemma PositiveFactors(d: Dims)
    requires d.Count() > 0
    ensures d.z > 0 && d.y > 0 && d.x > 0
  {
  }

  lemma IndexAt(d: Dims, i: nat)
    requires i < d.Count()
    ensures d.y > 0 && d.x > 0
    ensures At(d, i).Inside(d)
    ensures Index(d, At(d, i)) == i
  {
    PositiveFactors(d);
    var row := i / d.x;
    DivDiv(i, d.x, d.y);
    DivStep(i, d.x);
    DivStep(row, d.y);
    var z := row / d.y;
    if z >= d.z {
      MulMonotone(d.z, z, d.y);
      MulMonotone(d.z * d.y, row, d.x);
    }
  }

  lemma IndexInjective(d: Dims, a: Cell, b: Cell)
    requires a.Inside(d) && b.Inside(d)
    requires Index(d, a) == Index(d, b)
    ensures a == b
  {
    AtIndex(d, a);
    AtIndex(d, b);
  }

  /** Scan order: slowest axis first. */
  predicate Before(a: Cell, b: Cell) {
    a.z < b.z || (a.z == b.z && (a.y < b.y || (a.y == b.y && a.x < b.x)))
  }

  lemma Ordered(a: nat, b: nat, a': nat, b': nat, d: nat)
    requires a < a' && b < d
    ensures a * d + b < a' * d + b'
  {
    MulMonotone(a + 1, a', d);
    assert (a + 1) * d == a * d + d;
  }

  lemma IndexOrdered(d: Dims, a: Cell, b: Cell)
    requires a.Inside(d) && b.Inside(d) && Before(a, b)
    ensures Index(d, a) < Index(d, b)
  {
    var ra, rb := a.z * d.y + a.y, b.z * d.y + b.y;
    if a.z < b.z {
      Ordered(a.z, a.y, b.z, b.y, d.y);
    }
    if ra < rb {
      Ordered(ra, a.x, rb, b.x, d.x);
    }
  }
}
