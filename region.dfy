/**
 * The region of interest: the six slider indices, their physical bounds
 * `origin + index * spacing`, the voxel-grid dimensions, the voxel-centre
 * coordinates, the matching sub-array of a density field, and the
 * inclusive-box filter on averaged positions.
 */
module Region {
  import opened Vec
  import opened Field
  import opened Grid

  /** `_get_roi_indices`: the six slider values, in grid-cell units. */
  datatype RoiIndices = RoiIndices(xmin: int, xmax: int, ymin: int, ymax: int, zmin: int, zmax: int)

  /** Every index in `[0, n - 1]` and every minimum at most its maximum. */
  predicate ValidRoi(r: RoiIndices, n: nat)
  {
    && 0 <= r.xmin <= r.xmax < n
    && 0 <= r.ymin <= r.ymax < n
    && 0 <= r.zmin <= r.zmax < n
  }

  /** `inner` selects a sub-box of `outer`. */
  predicate Within(inner: RoiIndices, outer: RoiIndices)
  {
    && outer.xmin <= inner.xmin && inner.xmax <= outer.xmax
    && outer.ymin <= inner.ymin && inner.ymax <= outer.ymax
    && outer.zmin <= inner.zmin && inner.zmax <= outer.zmax
  }

  function MinCorner(r: RoiIndices): Vec3 { Vec3(r.xmin as real, r.ymin as real, r.zmin as real) }
  function MaxCorner(r: RoiIndices): Vec3 { Vec3(r.xmax as real, r.ymax as real, r.zmax as real) }

  // ---------------------------------------------------------------------
  // _compute_physical_bounds
  // ---------------------------------------------------------------------

  /** `origin + index * spacing` on each axis, for the minimum and the maximum slider. */
  function PhysicalBounds(r: RoiIndices, g: Geometry): (b: Box)
    ensures b.lo == Add(g.origin, Mul(MinCorner(r), g.spacing))
    ensures b.hi == Add(g.origin, Mul(MaxCorner(r), g.spacing))
  {
    Box(Vec3(PhysicalAt(g, r.xmin, 0), PhysicalAt(g, r.ymin, 1), PhysicalAt(g, r.zmin, 2)),
        Vec3(PhysicalAt(g, r.xmax, 0), PhysicalAt(g, r.ymax, 1), PhysicalAt(g, r.zmax, 2)))
  }

  /** `origin + index * spacing` on axis `a`. */
  function PhysicalAt(g: Geometry, index: int, a: nat): real
    requires a < 3
  {
    Coord(g.origin, a) + (index as real) * Coord(g.spacing, a)
  }

  /** `PhysicalAt` grows with the index when the spacing is non-negative. */
  lemma PhysicalAtMonotone(g: Geometry, i: int, j: int, a: nat)
    requires a < 3 && i <= j && Coord(g.spacing, a) >= 0.0
    ensures PhysicalAt(g, i, a) <= PhysicalAt(g, j, a)
  {
    MulMonotone(i as real, j as real, Coord(g.spacing, a));
  }

  /** A nested index box gives a nested physical box; in particular minimum <= maximum. */
  lemma PhysicalBoundsNested(inner: RoiIndices, outer: RoiIndices, g: Geometry)
    requires Le(Zero, g.spacing) && Within(inner, outer)
    ensures Le(PhysicalBounds(outer, g).lo, PhysicalBounds(inner, g).lo)
    ensures Le(PhysicalBounds(inner, g).hi, PhysicalBounds(outer, g).hi)
  {
    PhysicalAtMonotone(g, outer.xmin, inner.xmin, 0);
    PhysicalAtMonotone(g, outer.ymin, inner.ymin, 1);
    PhysicalAtMonotone(g, outer.zmin, inner.zmin, 2);
    PhysicalAtMonotone(g, inner.xmax, outer.xmax, 0);
    PhysicalAtMonotone(g, inner.ymax, outer.ymax, 1);
    PhysicalAtMonotone(g, inner.zmax, outer.zmax, 2);
  }

  lemma PhysicalBoundsOrdered(r: RoiIndices, g: Geometry, n: nat)
    requires Le(Zero, g.spacing) && ValidRoi(r, n)
    ensures Le(PhysicalBounds(r, g).lo, PhysicalBounds(r, g).hi)
  {
    PhysicalAtMonotone(g, r.xmin, r.xmax, 0);
    PhysicalAtMonotone(g, r.ymin, r.ymax, 1);
    PhysicalAtMonotone(g, r.zmin, r.zmax, 2);
  }

  // ---------------------------------------------------------------------
  // _compute_grid_coordinates
  // ---------------------------------------------------------------------

  /** `astype(int)`: truncation toward zero. */
  function Trunc(v: real): int
  {
    if v >= 0.0 then v.Floor else -((-v).Floor)
  }

  /** `((roi_max - roi_min) / spacing + 1).astype(int)` on one axis. */
  function AxisDim(lo: real, hi: real, s: real): int
    requires s != 0.0
  {
    Trunc((hi - lo) / s + 1.0)
  }

  /** One axis: from `o + a*s` to `o + b*s` in steps of `s` there are `b - a + 1` voxels. */
  lemma AxisDimExact(o: real, a: int, b: int, s: real)
    requires s > 0.0 && a <= b
    ensures AxisDim(o + (a as real) * s, o + (b as real) * s, s) == b - a + 1
  {
    var lo, hi := o + (a as real) * s, o + (b as real) * s;
    assert hi - lo == ((b - a) as real) * s;
    assert (hi - lo) / s == (b - a) as real;
    assert (hi - lo) / s + 1.0 == (b - a + 1) as real;
  }

  /** The voxel count along one axis of the region, as computed from its physical bounds. */
  function RegionAxisDim(o: real, a: int, b: int, s: real): (d: nat)
    requires s > 0.0 && a <= b
    ensures d == b - a + 1
  {
    AxisDimExact(o, a, b, s);
    AxisDim(o + (a as real) * s, o + (b as real) * s, s)
  }

  /** `np.linspace(a, b, num)`: the last point is `b` exactly. */
  function Linspace(a: real, b: real, num: nat): (r: seq<real>)
    ensures |r| == num
    ensures num >= 1 ==> r[0] == a
    ensures num >= 2 ==> r[num - 1] == b
  {
    seq(num, k requires 0 <= k < num =>
      if num == 1 || k == 0 then a
      else if k == num - 1 then b
      else a + (k as real) * ((b - a) / ((num - 1) as real)))
  }

  /**
   * One axis of the voxel-centre grid as the source writes it:
   * `np.linspace(roi_min + s/2, roi_max - s/2, dims)`.
   */
  function AxisCentresAsWritten(lo: real, hi: real, s: real, d: nat): (c: seq<real>)
    ensures |c| == d
    ensures d >= 1 ==> c[0] == lo + s / 2.0
    ensures d >= 2 ==> c[d - 1] == hi - s / 2.0
  {
    Linspace(lo + s / 2.0, hi - s / 2.0, d)
  }

  /**
   * One axis of the voxel-centre grid as intended: the centre of voxel `k`
   * of the region is `roi_min + (k + 1/2) * s`.
   */
  function AxisCentres(lo: real, s: real, d: nat): (c: seq<real>)
    ensures |c| == d
    ensures forall k :: 0 <= k < d ==> c[k] == lo + (k as real + 0.5) * s
  {
    seq(d, k requires 0 <= k < d => lo + (k as real + 0.5) * s)
  }

  /** Each intended centre lies strictly inside its own voxel, one spacing after the previous one. */
  lemma AxisCentresInsideVoxels(lo: real, s: real, d: nat, k: nat)
    requires s > 0.0 && k < d
    ensures var c := AxisCentres(lo, s, d);
      && lo + (k as real) * s < c[k] < lo + ((k + 1) as real) * s
      && (k + 1 < d ==> c[k + 1] - c[k] == s)
  {
    assert (k as real + 0.5) * s == (k as real) * s + 0.5 * s;
    assert ((k + 1) as real) * s == (k as real) * s + s;
    assert ((k + 1) as real + 0.5) * s == (k as real + 0.5) * s + s;
  }

  /** The intended centres are those of the whole grid: `origin + (index + 1/2) * spacing`. */
  lemma AxisCentresOnGlobalGrid(origin: real, imin: int, s: real, d: nat, k: nat)
    requires k < d
    ensures AxisCentres(origin + (imin as real) * s, s, d)[k] == origin + ((imin + k) as real + 0.5) * s
  {
    assert (imin as real) * s + (k as real + 0.5) * s == ((imin + k) as real + 0.5) * s;
  }

  /**
   * The source's centres are wrong: with two voxels of unit size starting at 0
   * both "centres" are 0.5, where the voxels' centres are 0.5 and 1.5.
   */
  lemma AsWrittenCentresCollide()
    ensures AxisCentresAsWritten(0.0, 1.0, 1.0, 2) == [0.5, 0.5]
    ensures AxisCentres(0.0, 1.0, 2) == [0.5, 1.5]
  {
    var w := AxisCentresAsWritten(0.0, 1.0, 1.0, 2);
    assert w[0] == 0.5 && w[1] == 0.5;
    var c := AxisCentres(0.0, 1.0, 2);
    assert c[0] == 0.5 && c[1] == 1.5;
  }

  /**
   * In general the source's last centre is that of the voxel before the last:
   * `roi_max` is the lower face of voxel `imax`, yet the grid ends half a
   * spacing below it.
   */
  lemma AsWrittenLastCentreOneVoxelShort(lo: real, s: real, d: nat)
    requires d >= 2
    ensures var hi := lo + ((d - 1) as real) * s;
      AxisCentresAsWritten(lo, hi, s, d)[d - 1] == AxisCentres(lo, s, d)[d - 2]
  {
    assert ((d - 1) as real) * s - s / 2.0 == (((d - 2) as real) + 0.5) * s;
  }

  /** numpy's `meshgrid(xs, ys, zs, indexing='ij')`, as one array of points. */
  function MeshGrid(xs: seq<real>, ys: seq<real>, zs: seq<real>): (m: Field3<Vec3>)
    ensures Shaped(m, |xs|, |ys|, |zs|)
    ensures forall i, j, k :: 0 <= i < |xs| && 0 <= j < |ys| && 0 <= k < |zs| ==>
      m[i][j][k] == Vec3(xs[i], ys[j], zs[k])
  {
    seq(|xs|, i requires 0 <= i < |xs| =>
      seq(|ys|, j requires 0 <= j < |ys| =>
        seq(|zs|, k requires 0 <= k < |zs| => Vec3(xs[i], ys[j], zs[k]))))
  }

  /** The dimensions of the region's voxel grid, from its physical bounds: one voxel per selected index. */
  function GridDims(r: RoiIndices, g: Geometry, n: nat): (d: (nat, nat, nat))
    requires ValidRoi(r, n)
    requires g.spacing.x > 0.0 && g.spacing.y > 0.0 && g.spacing.z > 0.0
    ensures d == (r.xmax - r.xmin + 1, r.ymax - r.ymin + 1, r.zmax - r.zmin + 1)
  {
    (RegionAxisDim(g.origin.x, r.xmin, r.xmax, g.spacing.x),
     RegionAxisDim(g.origin.y, r.ymin, r.ymax, g.spacing.y),
     RegionAxisDim(g.origin.z, r.zmin, r.zmax, g.spacing.z))
  }

  /** The region's voxel centres (the intended ones), shaped as the region's sub-array. */
  function GridCoordinates(r: RoiIndices, g: Geometry, n: nat): (m: Field3<Vec3>)
    requires ValidRoi(r, n)
    requires g.spacing.x > 0.0 && g.spacing.y > 0.0 && g.spacing.z > 0.0
    ensures Shaped(m, r.xmax - r.xmin + 1, r.ymax - r.ymin + 1, r.zmax - r.zmin + 1)
  {
    var b := PhysicalBounds(r, g);
    var d := GridDims(r, g, n);
    MeshGrid(AxisCentres(b.lo.x, g.spacing.x, d.0), AxisCentres(b.lo.y, g.spacing.y, d.1),
             AxisCentres(b.lo.z, g.spacing.z, d.2))
  }

  /**
   * Entry `[i][j][k]` of the region's coordinates is the centre of voxel
   * `(i, j, k)` of the region, counted from its physical lower corner.
   */
  lemma GridCoordinatesAt(r: RoiIndices, g: Geometry, n: nat, i: nat, j: nat, k: nat)
    requires ValidRoi(r, n)
    requires g.spacing.x > 0.0 && g.spacing.y > 0.0 && g.spacing.z > 0.0
    requires i <= r.xmax - r.xmin && j <= r.ymax - r.ymin && k <= r.zmax - r.zmin
    ensures var lo, s := PhysicalBounds(r, g).lo, g.spacing;
      GridCoordinates(r, g, n)[i][j][k]
        == Vec3(lo.x + (i as real + 0.5) * s.x, lo.y + (j as real + 0.5) * s.y, lo.z + (k as real + 0.5) * s.z)
  {
    var s := g.spacing;
    var b := PhysicalBounds(r, g);
    var d := GridDims(r, g, n);
    var xs, ys, zs := AxisCentres(b.lo.x, s.x, d.0), AxisCentres(b.lo.y, s.y, d.1), AxisCentres(b.lo.z, s.z, d.2);
    assert GridCoordinates(r, g, n) == MeshGrid(xs, ys, zs);
    assert GridCoordinates(r, g, n)[i][j][k] == Vec3(xs[i], ys[j], zs[k]);
  }

  /** `data[xmin:xmax+1, ymin:ymax+1, zmin:zmax+1]` of an n x n x n field. */
  function RegionOf<T>(data: Field3<T>, r: RoiIndices, n: nat): (sub: Field3<T>)
    requires Shaped(data, n, n, n) && ValidRoi(r, n)
    ensures Shaped(sub, r.xmax - r.xmin + 1, r.ymax - r.ymin + 1, r.zmax - r.zmin + 1)
    ensures forall i, j, k :: 0 <= i <= r.xmax - r.xmin && 0 <= j <= r.ymax - r.ymin && 0 <= k <= r.zmax - r.zmin ==>
      sub[i][j][k] == data[r.xmin + i][r.ymin + j][r.zmin + k]
  {
    SubArray(data, n, n, n, r.xmin, r.xmax, r.ymin, r.ymax, r.zmin, r.zmax)
  }

  // ---------------------------------------------------------------------
  // The inclusive-box filter of _visualise_averages
  // ---------------------------------------------------------------------

  /** `points[keep(points)]`: the points that pass, in their original order. */
  function Filter(s: seq<Vec3>, keep: Vec3 -> bool): (r: seq<Vec3>)
    ensures |r| <= |s|
    ensures forall x :: x in r <==> x in s && keep(x)
  {
    if |s| == 0 then []
    else
      var rest := Filter(s[..|s| - 1], keep);
      assert forall x :: x in s <==> x in s[..|s| - 1] || x == s[|s| - 1] by {
        assert s == s[..|s| - 1] + [s[|s| - 1]];
      }
      if keep(s[|s| - 1]) then rest + [s[|s| - 1]] else rest
  }

  /** A weaker test keeps at least as many points. */
  lemma {:induction false} FilterWeaker(s: seq<Vec3>, p: Vec3 -> bool, q: Vec3 -> bool)
    requires forall x :: p(x) ==> q(x)
    ensures |Filter(s, p)| <= |Filter(s, q)|
  {
    if |s| > 0 { FilterWeaker(s[..|s| - 1], p, q); }
  }

  /** `in_roi`: every coordinate `>= roi_min` and `<= roi_max`. */
  function InRoi(points: seq<Vec3>, b: Box): (r: seq<Vec3>)
    ensures forall x :: x in r <==> x in points && InBox(x, b.lo, b.hi)
    ensures |r| <= |points|
  {
    Filter(points, p => InBox(p, b.lo, b.hi))
  }

  /** Shrinking the region never increases the number of averaged points shown. */
  lemma ShrinkingRoiKeepsFewer(points: seq<Vec3>, inner: RoiIndices, outer: RoiIndices, g: Geometry)
    requires Le(Zero, g.spacing) && Within(inner, outer)
    ensures |InRoi(points, PhysicalBounds(inner, g))| <= |InRoi(points, PhysicalBounds(outer, g))|
  {
    var bi, bo := PhysicalBounds(inner, g), PhysicalBounds(outer, g);
    PhysicalBoundsNested(inner, outer, g);
    FilterWeaker(points, p => InBox(p, bi.lo, bi.hi), p => InBox(p, bo.lo, bo.hi));
  }
}
