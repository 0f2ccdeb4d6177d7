/** Small numeric vocabulary shared by the modules. */
module Numbers {

  type byte = b: nat | b < 256

  function Min(a: nat, b: nat): (r: nat)
    ensures r <= a && r <= b && (r == a || r == b)
  {
    if a < b then a else b
  }

  function Max(a: nat, b: nat): (r: nat)
    ensures r >= a && r >= b && (r == a || r == b)
  {
    if a > b then a else b
  }

  function Clamp(v: int, lo: int, hi: int): (r: int)
    requires lo <= hi
    ensures lo <= r <= hi
  {
    if v < lo then lo else if v > hi then hi else v
  }

  function Apart(a: int, b: int): nat {
    if a < b then b - a else a - b
  }

  /** Of all the values in range none is nearer. */
  lemma ClampNearest(v: int, lo: int, hi: int, w: int)
    requires lo <= w <= hi
    ensures Apart(v, Clamp(v, lo, hi)) <= Apart(v, w)
    ensures Apart(v, Clamp(v, lo, hi)) == Apart(v, w) ==> w == Clamp(v, lo, hi)
  {
  }

  function CeilDiv(a: nat, b: nat): nat
    requires b > 0
  {
    (a + b - 1) / b
  }

  ghost predicate Distinct(s: seq<nat>) {
    forall i, j :: 0 <= i < j < |s| ==> s[i] != s[j]
  }

  lemma {:induction false} RisingBelow(l: seq<nat>, i: nat)
    requires i < |l| && forall j, k :: 0 <= j < k < |l| ==> l[j] < l[k]
    ensures i <= l[i]
  {
    if i > 0 {
      RisingBelow(l, i - 1);
    }
  }
}
