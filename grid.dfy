/**
 * The global histogram grid of loading: the bounding box of the first
 * frame's cell, the N x N x N grid over it (origin, spacing `lengths / N`,
 * centre), the N + 1 edges per axis of `np.linspace`, and the bin counts of
 * `np.histogramdd`.
 */
module Grid {
  import opened Wrappers
  import opened Vec
  import opened Field

  /** The 3 x 3 cell matrix; its rows are the cell vectors. */
  datatype Cell = Cell(a: Vec3, b: Vec3, c: Vec3)

  /** `np.dot([i, j, k], cell)` for `i, j, k` in `{0, 1}`: the sum of the selected cell vectors. */
  function Corner(cell: Cell, i: bool, j: bool, k: bool): Vec3
  {
    Add(Add(if i then cell.a else Zero, if j then cell.b else Zero), if k then cell.c else Zero)
  }

  /** The 8 corners, `for i in (0, 1) for j in (0, 1) for k in (0, 1)`. */
  function Corners(cell: Cell): (r: seq<Vec3>)
    ensures |r| == 8
  {
    [Corner(cell, false, false, false), Corner(cell, false, false, true),
     Corner(cell, false, true, false), Corner(cell, false, true, true),
     Corner(cell, true, false, false), Corner(cell, true, false, true),
     Corner(cell, true, true, false), Corner(cell, true, true, true)]
  }

  /** `points.min(axis=0)`: below every point, and reached on every axis. */
  function Lower(s: seq<Vec3>): (r: Vec3)
    requires |s| > 0
    ensures forall i :: 0 <= i < |s| ==> Le(r, s[i])
    ensures (exists i :: 0 <= i < |s| && r.x == s[i].x) && (exists i :: 0 <= i < |s| && r.y == s[i].y)
    ensures exists i :: 0 <= i < |s| && r.z == s[i].z
  {
    if |s| == 1 then s[0]
    else
      var m := Lower(s[..|s| - 1]);
      assert forall i :: 0 <= i < |s| - 1 ==> s[..|s| - 1][i] == s[i];
      VMin(m, s[|s| - 1])
  }

  /** `points.max(axis=0)`: above every point, and reached on every axis. */
  function Upper(s: seq<Vec3>): (r: Vec3)
    requires |s| > 0
    ensures forall i :: 0 <= i < |s| ==> Le(s[i], r)
    ensures (exists i :: 0 <= i < |s| && r.x == s[i].x) && (exists i :: 0 <= i < |s| && r.y == s[i].y)
    ensures exists i :: 0 <= i < |s| && r.z == s[i].z
  {
    if |s| == 1 then s[0]
    else
      var m := Upper(s[..|s| - 1]);
      assert forall i :: 0 <= i < |s| - 1 ==> s[..|s| - 1][i] == s[i];
      VMax(m, s[|s| - 1])
  }

  /** `global_min`, `global_max`: the tightest box around the cell's corners. */
  datatype Box = Box(lo: Vec3, hi: Vec3)

  function CellBox(cell: Cell): (b: Box)
    ensures Le(b.lo, b.hi)
    ensures forall i :: 0 <= i < 8 ==> InBox(Corners(cell)[i], b.lo, b.hi)
  {
    BoxAround(Corners(cell))
  }

  function BoxAround(cs: seq<Vec3>): (b: Box)
    requires |cs| > 0
    ensures Le(b.lo, b.hi)
    ensures forall i :: 0 <= i < |cs| ==> InBox(cs[i], b.lo, b.hi)
  {
    var lo, hi := Lower(cs), Upper(cs);
    assert Le(lo, cs[0]) && Le(cs[0], hi);
    Box(lo, hi)
  }

  /** When two of the points bound all the others, they are the box. */
  lemma BoxAroundTight(cs: seq<Vec3>, lo: Vec3, hi: Vec3)
    requires lo in cs && hi in cs
    requires forall i :: 0 <= i < |cs| ==> InBox(cs[i], lo, hi)
    ensures BoxAround(cs) == Box(lo, hi)
  {
    var b := BoxAround(cs);
    var i :| 0 <= i < |cs| && cs[i] == lo;
    var j :| 0 <= j < |cs| && cs[j] == hi;
    assert Le(b.lo, cs[i]) && Le(cs[j], b.hi);
  }

  // ---------------------------------------------------------------------
  // Grid metadata
  // ---------------------------------------------------------------------

  /** `global_cell_origin`, `global_spacing`, `global_cell_center`. */
  datatype Geometry = Geometry(origin: Vec3, spacing: Vec3, center: Vec3)

  function MakeGeometry(box: Box, n: nat): (g: Geometry)
    requires n >= 1
    ensures g.origin == box.lo
  {
    var lengths := Sub(box.hi, box.lo);
    Geometry(box.lo,
             Vec3(lengths.x / n as real, lengths.y / n as real, lengths.z / n as real),
             Add(box.lo, Vec3(lengths.x / 2.0, lengths.y / 2.0, lengths.z / 2.0)))
  }

  /** N steps of the spacing lead from the minimum to the maximum, and the centre is the midpoint. */
  lemma GeometrySpansBox(box: Box, n: nat)
    requires n >= 1 && Le(box.lo, box.hi)
    ensures var g := MakeGeometry(box, n);
      && Add(g.origin, Scale(n as real, g.spacing)) == box.hi
      && g.center == Mid(box.lo, box.hi)
      && Le(Zero, g.spacing)
  {
    var g := MakeGeometry(box, n);
    var N := n as real;
    var d := Sub(box.hi, box.lo);
    assert N * (d.x / N) == d.x && N * (d.y / N) == d.y && N * (d.z / N) == d.z;
  }

  // ---------------------------------------------------------------------
  // np.linspace(lo, hi, n + 1)
  // ---------------------------------------------------------------------

  function Edge(lo: real, hi: real, n: nat, k: nat): real
    requires n >= 1
  {
    if k == n then hi else lo + (k as real) * ((hi - lo) / (n as real))
  }

  function Edges(lo: real, hi: real, n: nat): (e: seq<real>)
    requires n >= 1
    ensures |e| == n + 1 && e[0] == lo && e[n] == hi
    ensures forall k :: 0 <= k <= n ==> e[k] == Edge(lo, hi, n, k)
  {
    seq(n + 1, k requires 0 <= k <= n => Edge(lo, hi, n, k))
  }

  predicate NonDecreasing(e: seq<real>)
  {
    forall i, j :: 0 <= i < j < |e| ==> e[i] <= e[j]
  }

  lemma ScaledStep(i: real, j: real, w: real)
    requires 0.0 <= i <= j && w >= 0.0
    ensures i * w <= j * w
  {
    assert j * w - i * w == (j - i) * w;
  }

  /** Neighbouring edges are one spacing apart. */
  lemma EdgesEvenlySpaced(lo: real, hi: real, n: nat, k: nat)
    requires n >= 1 && k < n
    ensures Edges(lo, hi, n)[k + 1] - Edges(lo, hi, n)[k] == (hi - lo) / n as real
  {
    var w := (hi - lo) / n as real;
    assert (n as real) * w == hi - lo;
    assert ((k + 1) as real) * w == (k as real) * w + w;
  }

  lemma EdgeBelowHi(lo: real, hi: real, n: nat, i: nat)
    requires n >= 1 && lo <= hi && i <= n
    ensures Edge(lo, hi, n, i) <= hi
  {
    var w := (hi - lo) / n as real;
    assert (n as real) * w == hi - lo;
    ScaledStep(i as real, n as real, w);
  }

  /** With `lo <= hi` the edges never decrease. */
  lemma EdgesSorted(lo: real, hi: real, n: nat)
    requires n >= 1 && lo <= hi
    ensures NonDecreasing(Edges(lo, hi, n))
  {
    var e := Edges(lo, hi, n);
    var w := (hi - lo) / n as real;
    forall i, j | 0 <= i < j <= n ensures e[i] <= e[j] {
      if j == n {
        EdgeBelowHi(lo, hi, n, i);
      } else {
        ScaledStep(i as real, j as real, w);
      }
    }
  }

  // ---------------------------------------------------------------------
  // np.histogramdd: which bin a coordinate falls into
  // ---------------------------------------------------------------------

  /** `np.searchsorted(edges, x, side='right')` on sorted edges: how many edges are `<= x`. */
  function CountAtMost(e: seq<real>, x: real): (c: nat)
    ensures c <= |e|
  {
    if |e| == 0 then 0 else (if e[0] <= x then 1 else 0) + CountAtMost(e[1..], x)
  }

  lemma {:induction false} CountNone(e: seq<real>, x: real)
    requires forall k :: 0 <= k < |e| ==> x < e[k]
    ensures CountAtMost(e, x) == 0
  {
    if |e| > 0 { CountNone(e[1..], x); }
  }

  /** On sorted edges the edges `<= x` are exactly the first `CountAtMost` ones. */
  lemma {:induction false} CountIsPrefix(e: seq<real>, x: real)
    requires NonDecreasing(e)
    ensures forall k :: 0 <= k < CountAtMost(e, x) ==> e[k] <= x
    ensures forall k :: CountAtMost(e, x) <= k < |e| ==> x < e[k]
  {
    if |e| > 0 {
      if e[0] <= x {
        CountIsPrefix(e[1..], x);
        assert forall k :: 1 <= k < |e| ==> e[k] == e[1..][k - 1];
      } else {
        CountNone(e[1..], x);
      }
    }
  }

  /**
   * The bin of `x`: `searchsorted(..., 'right')`, moved one bin left when `x`
   * is the last edge; bins `1..n` are kept (as `0..n-1`), the others are outliers.
   */
  function BinIndex(e: seq<real>, x: real): Option<nat>
    requires |e| >= 2
  {
    var n := |e| - 1;
    var c := CountAtMost(e, x);
    var shifted := if x == e[n] then c - 1 else c;
    if 1 <= shifted <= n then Some(shifted - 1) else None
  }

  /**
   * A coordinate is binned iff it lies in the closed range, and then in the
   * bin whose half-open interval holds it (the last bin also holds `hi`).
   */
  lemma BinIndexSound(lo: real, hi: real, n: nat, x: real)
    requires n >= 1 && lo <= hi
    ensures BinIndex(Edges(lo, hi, n), x).Some? <==> lo <= x <= hi
    ensures match BinIndex(Edges(lo, hi, n), x)
      case None => true
      case Some(b) =>
        (b < n && Edges(lo, hi, n)[b] <= x && (x < Edges(lo, hi, n)[b + 1] || (b == n - 1 && x == hi)))
  {
    var e := Edges(lo, hi, n);
    EdgesSorted(lo, hi, n);
    CountIsPrefix(e, x);
  }

  // ---------------------------------------------------------------------
  // Bin counts
  // ---------------------------------------------------------------------

  /** The bin of a position, or `None` when it is outside the box on some axis. */
  function Bin3(p: Vec3, box: Box, n: nat): Option<(nat, nat, nat)>
    requires n >= 1
  {
    match (BinIndex(Edges(box.lo.x, box.hi.x, n), p.x),
           BinIndex(Edges(box.lo.y, box.hi.y, n), p.y),
           BinIndex(Edges(box.lo.z, box.hi.z, n), p.z))
    case (Some(i), Some(j), Some(k)) => Some((i, j, k))
    case _ => None
  }

  lemma Bin3Sound(p: Vec3, box: Box, n: nat)
    requires n >= 1 && Le(box.lo, box.hi)
    ensures Bin3(p, box, n).Some? <==> InBox(p, box.lo, box.hi)
    ensures Bin3(p, box, n).Some? ==>
      (Bin3(p, box, n).value.0 < n && Bin3(p, box, n).value.1 < n && Bin3(p, box, n).value.2 < n)
  {
    BinIndexSound(box.lo.x, box.hi.x, n, p.x);
    BinIndexSound(box.lo.y, box.hi.y, n, p.y);
    BinIndexSound(box.lo.z, box.hi.z, n, p.z);
  }

  /** `np.histogramdd(positions, bins=(xedges, yedges, zedges))[0]`. */
  function Histogram(ps: seq<Vec3>, box: Box, n: nat): (h: Field3<nat>)
    requires n >= 1 && Le(box.lo, box.hi)
    ensures Shaped(h, n, n, n)
  {
    if |ps| == 0 then Fill(n, n, n, 0)
    else
      var h := Histogram(ps[..|ps| - 1], box, n);
      var p := ps[|ps| - 1];
      Bin3Sound(p, box, n);
      match Bin3(p, box, n)
      case None => h
      case Some((i, j, k)) => Bump(h, i, j, k)
  }

  /** How many positions lie in the closed box. */
  function CountInBox(ps: seq<Vec3>, box: Box): nat
  {
    if |ps| == 0 then 0
    else CountInBox(ps[..|ps| - 1], box) + (if InBox(ps[|ps| - 1], box.lo, box.hi) then 1 else 0)
  }

  /** How many positions fall into bin `(i, j, k)`. */
  function CountInBin(ps: seq<Vec3>, box: Box, n: nat, i: nat, j: nat, k: nat): nat
    requires n >= 1
  {
    if |ps| == 0 then 0
    else
      var here := if Bin3(ps[|ps| - 1], box, n) == Some((i, j, k)) then 1 else 0;
      CountInBin(ps[..|ps| - 1], box, n, i, j, k) + here
  }

  /** Count conservation: the bins together hold exactly the positions inside the box. */
  lemma {:induction false} HistogramTotal(ps: seq<Vec3>, box: Box, n: nat)
    requires n >= 1 && Le(box.lo, box.hi)
    ensures Sum3(Histogram(ps, box, n)) == CountInBox(ps, box)
  {
    if |ps| == 0 {
      Sum3Zero(n, n, n);
    } else {
      HistogramTotal(ps[..|ps| - 1], box, n);
      Bin3Sound(ps[|ps| - 1], box, n);
    }
  }

  /** Each bin holds the number of positions that fall into it. */
  lemma {:induction false} HistogramAt(ps: seq<Vec3>, box: Box, n: nat, i: nat, j: nat, k: nat)
    requires n >= 1 && Le(box.lo, box.hi) && i < n && j < n && k < n
    ensures Histogram(ps, box, n)[i][j][k] == CountInBin(ps, box, n, i, j, k)
  {
    if |ps| > 0 {
      HistogramAt(ps[..|ps| - 1], box, n, i, j, k);
      Bin3Sound(ps[|ps| - 1], box, n);
    }
  }

  /** Adding positions never lowers a bin. */
  lemma {:induction false} HistogramGrows(ps: seq<Vec3>, qs: seq<Vec3>, box: Box, n: nat, i: nat, j: nat, k: nat)
    requires n >= 1 && Le(box.lo, box.hi) && i < n && j < n && k < n
    ensures Histogram(ps, box, n)[i][j][k] <= Histogram(ps + qs, box, n)[i][j][k]
    decreases |qs|
  {
    if |qs| > 0 {
      var last := |qs| - 1;
      assert (ps + qs)[..|ps + qs| - 1] == ps + qs[..last];
      HistogramGrows(ps, qs[..last], box, n, i, j, k);
      HistogramAt(ps + qs, box, n, i, j, k);
      HistogramAt(ps + qs[..last], box, n, i, j, k);
    } else {
      assert ps + qs == ps;
    }
  }
}
