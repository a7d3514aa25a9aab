/** Cartesian 3-vectors over the reals, the model of numpy arrays of shape (3,). */
module Vec {

  datatype Vec3 = Vec3(x: real, y: real, z: real)

  const Zero := Vec3(0.0, 0.0, 0.0)

  /** Component `a` (0 = x, 1 = y, 2 = z). */
  function Coord(v: Vec3, a: nat): real
    requires a < 3
  {
    if a == 0 then v.x else if a == 1 then v.y else v.z
  }

  function Add(u: Vec3, v: Vec3): Vec3
  {
    Vec3(u.x + v.x, u.y + v.y, u.z + v.z)
  }

  function Sub(u: Vec3, v: Vec3): Vec3
  {
    Vec3(u.x - v.x, u.y - v.y, u.z - v.z)
  }

  function Scale(c: real, v: Vec3): Vec3
  {
    Vec3(c * v.x, c * v.y, c * v.z)
  }

  /** Component-wise product (numpy's `*` on two 3-vectors). */
  function Mul(u: Vec3, v: Vec3): Vec3
  {
    Vec3(u.x * v.x, u.y * v.y, u.z * v.z)
  }

  function Dot(u: Vec3, v: Vec3): real
  {
    u.x * v.x + u.y * v.y + u.z * v.z
  }

  function MinR(a: real, b: real): real { if a <= b then a else b }
  function MaxR(a: real, b: real): real { if a <= b then b else a }
  function Abs(a: real): real { if a < 0.0 then -a else a }

  /** Component-wise minimum and maximum (numpy `min(axis=0)` on two rows). */
  function VMin(u: Vec3, v: Vec3): Vec3 { Vec3(MinR(u.x, v.x), MinR(u.y, v.y), MinR(u.z, v.z)) }
  function VMax(u: Vec3, v: Vec3): Vec3 { Vec3(MaxR(u.x, v.x), MaxR(u.y, v.y), MaxR(u.z, v.z)) }

  /** Component-wise `u <= v`. */
  predicate Le(u: Vec3, v: Vec3)
  {
    u.x <= v.x && u.y <= v.y && u.z <= v.z
  }

  /** Inclusive box test `lo <= p <= hi` on every axis. */
  predicate InBox(p: Vec3, lo: Vec3, hi: Vec3)
  {
    Le(lo, p) && Le(p, hi)
  }

  /** Midpoint `0.5 * (u + v)`. */
  function Mid(u: Vec3, v: Vec3): (r: Vec3)
    ensures Le(u, v) ==> InBox(r, u, v)
  {
    Scale(0.5, Add(u, v))
  }

  /** Sum of a sequence of vectors, left to right. */
  function Sum(s: seq<Vec3>): Vec3
  {
    if s == [] then Zero else Add(Sum(s[..|s| - 1]), s[|s| - 1])
  }

  /** Mean of a non-empty sequence of vectors (numpy `mean(axis=0)`). */
  function Mean(s: seq<Vec3>): Vec3
    requires |s| > 0
  {
    Scale(1.0 / (|s| as real), Sum(s))
  }

  /** `m * c` as `m` repeated additions, so that the induction below stays linear. */
  function Times(m: nat, c: real): real
  {
    if m == 0 then 0.0 else Times(m - 1, c) + c
  }

  lemma {:induction false} TimesIsProduct(m: nat, c: real)
    ensures Times(m, c) == m as real * c
  {
    if m > 0 {
      TimesIsProduct(m - 1, c);
      assert (m - 1) as real * c + c == m as real * c;
    }
  }

  /** `|s| * lo <= Sum(s) <= |s| * hi` on one axis when every point is in the box. */
  lemma {:induction false} SumBoundsAxis(s: seq<Vec3>, lo: Vec3, hi: Vec3, a: nat)
    requires a < 3
    requires forall i :: 0 <= i < |s| ==> InBox(s[i], lo, hi)
    ensures Times(|s|, Coord(lo, a)) <= Coord(Sum(s), a) <= Times(|s|, Coord(hi, a))
  {
    if s != [] {
      var n := |s| - 1;
      var init := s[..n];
      SumBoundsAxis(init, lo, hi, a);
      assert |init| == n;
      assert Coord(Sum(s), a) == Coord(Sum(init), a) + Coord(s[n], a);
      assert InBox(s[n], lo, hi);
    }
  }

  lemma SignOfProduct(q: real, n: real)
    requires n > 0.0 && q * n >= 0.0
    ensures q >= 0.0
  {
  }

  lemma DivideBounds(n: real, lo: real, s: real, hi: real)
    requires n > 0.0 && n * lo <= s <= n * hi
    ensures lo <= 1.0 / n * s <= hi
  {
    var q := 1.0 / n * s;
    assert q * n == s;
    assert (q - lo) * n == s - n * lo;
    assert (hi - q) * n == n * hi - s;
    SignOfProduct(q - lo, n);
    SignOfProduct(hi - q, n);
  }

  /** One axis of the mean: `n * lo <= t <= n * hi` gives `lo <= t / n <= hi`. */
  lemma AxisMean(n: nat, lo: real, t: real, hi: real)
    requires n > 0 && Times(n, lo) <= t <= Times(n, hi)
    ensures lo <= 1.0 / (n as real) * t <= hi
  {
    TimesIsProduct(n, lo);
    TimesIsProduct(n, hi);
    DivideBounds(n as real, lo, t, hi);
  }

  lemma {:induction false} MeanComponents(s: seq<Vec3>)
    requires |s| > 0
    ensures Mean(s) == Vec3(1.0 / (|s| as real) * Sum(s).x, 1.0 / (|s| as real) * Sum(s).y, 1.0 / (|s| as real) * Sum(s).z)
  {
  }

  /** The bound of `MeanInBox` on each axis, one lemma per axis to keep the arithmetic apart. */
  lemma {:induction false} MeanBoundX(s: seq<Vec3>, lo: Vec3, hi: Vec3)
    requires |s| > 0
    requires forall i :: 0 <= i < |s| ==> InBox(s[i], lo, hi)
    ensures lo.x <= 1.0 / (|s| as real) * Sum(s).x <= hi.x
  {
    SumBoundsAxis(s, lo, hi, 0);
    AxisMean(|s|, lo.x, Sum(s).x, hi.x);
  }

  lemma {:induction false} MeanBoundY(s: seq<Vec3>, lo: Vec3, hi: Vec3)
    requires |s| > 0
    requires forall i :: 0 <= i < |s| ==> InBox(s[i], lo, hi)
    ensures lo.y <= 1.0 / (|s| as real) * Sum(s).y <= hi.y
  {
    SumBoundsAxis(s, lo, hi, 1);
    AxisMean(|s|, lo.y, Sum(s).y, hi.y);
  }

  lemma {:induction false} MeanBoundZ(s: seq<Vec3>, lo: Vec3, hi: Vec3)
    requires |s| > 0
    requires forall i :: 0 <= i < |s| ==> InBox(s[i], lo, hi)
    ensures lo.z <= 1.0 / (|s| as real) * Sum(s).z <= hi.z
  {
    SumBoundsAxis(s, lo, hi, 2);
    AxisMean(|s|, lo.z, Sum(s).z, hi.z);
  }

  /** The mean of points that all lie in a box lies in that box. */
  lemma {:induction false} MeanInBox(s: seq<Vec3>, lo: Vec3, hi: Vec3)
    requires |s| > 0
    requires forall i :: 0 <= i < |s| ==> InBox(s[i], lo, hi)
    ensures InBox(Mean(s), lo, hi)
  {
    MeanComponents(s);
    MeanBoundX(s, lo, hi);
    MeanBoundY(s, lo, hi);
    MeanBoundZ(s, lo, hi);
  }

  /** `a * s <= b * s` for `a <= b` and `s >= 0`. */
  lemma MulMonotone(a: real, b: real, s: real)
    requires a <= b && s >= 0.0
    ensures a * s <= b * s
  {
    assert b * s - a * s == (b - a) * s;
  }
}
