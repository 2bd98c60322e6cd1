/** Numeric helpers shared by every entity of the simulation: the clamp the
    source writes as `Math.max(lo, Math.min(hi, v))`, JavaScript's `Math.abs`
    and `Math.sign`, the square root the host supplies, and the running total
    of frame deltas that every countdown consumes. */
module Geometry {

  datatype Option<T> = None | Some(value: T)

  function Min(a: real, b: real): real { if a <= b then a else b }

  function Max(a: real, b: real): real { if a >= b then a else b }

  function Abs(v: real): real { if v < 0.0 then -v else v }

  /** `Math.sign`: -1, 0 or 1. */
  function Sign(v: real): real { if v < 0.0 then -1.0 else if v > 0.0 then 1.0 else 0.0 }

  /** A possible result of Phaser's `Math.Between(lo, hi)`, which is
      `Math.floor(Math.random() * (hi - lo + 1) + lo)` (for `lo <= hi + 1`):
      a whole number strictly between `lo - 1` and `hi + 1`, that is from
      `lo` to `hi` when both are whole. */
  predicate BetweenOutcome(v: real, lo: real, hi: real) {
    v == v.Floor as real && lo - 1.0 < v < hi + 1.0
  }

  /** `Math.max(lo, Math.min(hi, v))`: the result never falls below `lo`, it
      stays inside `[lo, hi]` whenever that interval is non-empty, and a value
      already inside is returned untouched. */
  function Clamp(v: real, lo: real, hi: real): (r: real)
    ensures lo <= r
    ensures lo <= hi ==> r <= hi
    ensures lo <= v <= hi ==> r == v
    ensures v < lo ==> r == lo
    ensures lo <= hi < v ==> r == hi
  {
    Max(lo, Min(hi, v))
  }

  /** `Math.sqrt`, supplied by the host and taken as a parameter: it returns
      the non-negative root of a non-negative argument. */
  ghost predicate IsSquareRoot(sqrt: real -> real) {
    forall v {:trigger sqrt(v)} :: 0.0 <= v ==> 0.0 <= sqrt(v) && sqrt(v) * sqrt(v) == v
  }

  lemma SquareNonNegative(a: real)
    ensures a * a >= 0.0
  {
    if a < 0.0 {
      assert a * a == (-a) * (-a);
    }
  }

  /** A non-negative value below `m` has its square below `m * m`. */
  lemma SquareBelow(s: real, m: real)
    requires 0.0 <= s <= m
    ensures s * s <= m * m
  {
    assert s * s <= s * m by { MulLeft(s, s, m); }
    assert s * m <= m * m by { MulRight(s, m, m); }
  }

  lemma MulLeft(a: real, b: real, c: real)
    requires a >= 0.0 && b <= c
    ensures a * b <= a * c
  {
    assert a * c - a * b == a * (c - b);
  }

  lemma MulRight(a: real, b: real, c: real)
    requires c >= 0.0 && a <= b
    ensures a * c <= b * c
  {
    assert b * c - a * c == (b - a) * c;
  }

  /** The total of a sequence of frame deltas. */
  function Sum(ds: seq<real>): real {
    if ds == [] then 0.0 else ds[0] + Sum(ds[1..])
  }

  /** The length of `(dx, dy)`, `Math.sqrt(dx * dx + dy * dy)`, with the
      square root as a parameter. */
  function Dist(dx: real, dy: real, sqrt: real -> real): real {
    sqrt(dx * dx + dy * dy)
  }

  /** `Dist` of equal offsets is equal, however the offsets are written. */
  lemma DistCongruent(dx: real, dy: real, ex: real, ey: real, sqrt: real -> real)
    requires dx == ex && dy == ey
    ensures Dist(dx, dy, sqrt) == Dist(ex, ey, sqrt)
  {
  }

  /** Two non-negative numbers with the same square are equal. */
  lemma RootUnique(a: real, b: real)
    requires 0.0 <= a && 0.0 <= b && a * a == b * b
    ensures a == b
  {
    var sum := a + b;
    var diff := a - b;
    assert diff * sum == a * a - b * b;
    if sum != 0.0 {
      assert diff == (diff * sum) / sum;
    }
  }

  /** Scaling a vector by `k` scales its length by `|k|`. */
  lemma DistScaled(dx: real, dy: real, k: real, sqrt: real -> real)
    requires IsSquareRoot(sqrt)
    ensures Dist(k * dx, k * dy, sqrt) == Abs(k) * Dist(dx, dy, sqrt)
  {
    SquareNonNegative(dx);
    SquareNonNegative(dy);
    SquareNonNegative(k * dx);
    SquareNonNegative(k * dy);
    var d := Dist(dx, dy, sqrt);
    var e := Dist(k * dx, k * dy, sqrt);
    ScaledSquares(k, dx, dy);
    AbsSquare(k, d);
    MulLeft(Abs(k), 0.0, d);
    RootUnique(e, Abs(k) * d);
  }

  lemma ScaledSquares(k: real, dx: real, dy: real)
    ensures (k * dx) * (k * dx) + (k * dy) * (k * dy) == (k * k) * (dx * dx + dy * dy)
  {
  }

  lemma AbsSquare(k: real, d: real)
    ensures (Abs(k) * d) * (Abs(k) * d) == (k * k) * (d * d)
  {
  }

  /** No element occurs twice. */
  ghost predicate Distinct<T>(s: seq<T>) {
    forall i, j :: 0 <= i < j < |s| ==> s[i] != s[j]
  }

  ghost predicate NonNegative(ds: seq<real>) {
    forall k :: 0 <= k < |ds| ==> ds[k] >= 0.0
  }

  lemma {:induction false} SumNonNegative(ds: seq<real>)
    requires NonNegative(ds)
    ensures Sum(ds) >= 0.0
  {
    if ds != [] {
      SumNonNegative(ds[1..]);
    }
  }
}
