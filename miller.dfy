/**
 * Miller-plane slicing: the slicing parameters read from the controls, the
 * slab test `|(p - c) . n - d| < t / 2`, and its three uses — the voxel
 * mask, the filter on averaged positions and the focal point.
 */
module Miller {
  import opened Wrappers
  import opened Vec
  import opened Field
  import opened Grid
  import opened Region

  /** What the slicing controls hold: the check box, h, k, l, thickness and offset. */
  datatype MillerControls = MillerControls(useMiller: bool, h: int, k: int, l: int, thickness: real, offset: real)

  /** `_get_miller_parameters`: the controls plus the unit normal `n`, when there is one. */
  datatype MillerParams = MillerParams(controls: MillerControls, n: Option<Vec3>)

  function Hkl(c: MillerControls): Vec3 { Vec3(c.h as real, c.k as real, c.l as real) }

  function SquaredLength(c: MillerControls): int { c.h * c.h + c.k * c.k + c.l * c.l }

  /** `norm` stands for `sqrt(h^2 + k^2 + l^2)`. */
  predicate IsNorm(c: MillerControls, norm: real)
  {
    norm >= 0.0 && norm * norm == SquaredLength(c) as real
  }

  lemma SquaresVanish(h: int, k: int, l: int)
    ensures h * h + k * k + l * l == 0 <==> h == 0 && k == 0 && l == 0
  {
    assert h * h >= 0 && k * k >= 0 && l * l >= 0;
  }

  lemma PositiveSquare(a: real)
    requires a > 0.0
    ensures a * a > 0.0
  {
  }

  lemma PositiveAsReal(x: int)
    requires x as real > 0.0
    ensures x > 0
  {
  }

  /** The norm is positive exactly when some index is non-zero. */
  lemma NormPositive(c: MillerControls, norm: real)
    requires IsNorm(c, norm)
    ensures norm > 0.0 <==> (c.h, c.k, c.l) != (0, 0, 0)
  {
    SquaresVanish(c.h, c.k, c.l);
    if norm > 0.0 {
      var sq := SquaredLength(c);
      PositiveSquare(norm);
      calc {
        sq as real;
      ==
        norm * norm;
      >
        0.0;
      }
      PositiveAsReal(sq);
    } else {
      assert norm == 0.0;
      assert SquaredLength(c) == 0;
    }
  }

  lemma UnitAfterScaling(a: real, b: real, c: real, norm: real)
    requires norm > 0.0 && norm * norm == a * a + b * b + c * c
    ensures var q := 1.0 / norm; (q * a) * (q * a) + (q * b) * (q * b) + (q * c) * (q * c) == 1.0
  {
    var q := 1.0 / norm;
    assert (q * a) * (q * a) + (q * b) * (q * b) + (q * c) * (q * c) == (q * q) * (a * a + b * b + c * c);
    assert q * norm == 1.0;
    assert (q * q) * (norm * norm) == (q * norm) * (q * norm);
  }

  function GetMillerParameters(c: MillerControls, norm: real): (p: MillerParams)
    requires IsNorm(c, norm)
    ensures p.controls == c
    ensures p.n.Some? <==> c.useMiller && (c.h, c.k, c.l) != (0, 0, 0)
    ensures p.n.Some? ==> Dot(p.n.value, p.n.value) == 1.0
    ensures p.n.Some? ==> norm > 0.0 && Scale(norm, p.n.value) == Hkl(c)
  {
    NormPositive(c, norm);
    if c.useMiller && norm > 0.0 then
      var n := Scale(1.0 / norm, Hkl(c));
      UnitAfterScaling(c.h as real, c.k as real, c.l as real, norm);
      assert norm * (1.0 / norm) == 1.0;
      MillerParams(c, Some(n))
    else
      MillerParams(c, None)
  }

  /** Slicing is in effect: the check box is ticked and the normal exists. */
  predicate Active(p: MillerParams) { p.controls.useMiller && p.n.Some? }

  /** The slab test, one formula for the voxel mask, the averaged points and the focal-point samples. */
  predicate InSlab(x: Vec3, c: Vec3, n: Vec3, thickness: real, offset: real): (b: bool)
    ensures b ==> thickness > 0.0
    ensures Dot(Sub(x, c), n) == offset ==> (b <==> thickness > 0.0)
  {
    Abs(Dot(Sub(x, c), n) - offset) < thickness / 2.0
  }

  /** The slab test with the parameters' normal, thickness and offset. */
  predicate KeepPoint(p: MillerParams, c: Vec3, x: Vec3)
    requires Active(p)
  {
    InSlab(x, c, p.n.value, p.controls.thickness, p.controls.offset)
  }

  // ---------------------------------------------------------------------
  // _compute_miller_mask
  // ---------------------------------------------------------------------

  function MillerMask(coords: Field3<Vec3>, c: Vec3, p: MillerParams): (m: Option<Field3<bool>>)
    ensures m.None? <==> !Active(p)
    ensures m.Some? ==> |m.value| == |coords|
    ensures m.Some? ==> forall i :: 0 <= i < |coords| ==> |m.value[i]| == |coords[i]|
    ensures m.Some? ==> forall i, j :: 0 <= i < |coords| && 0 <= j < |coords[i]| ==>
      |m.value[i][j]| == |coords[i][j]|
    ensures m.Some? ==> forall i, j, k :: 0 <= i < |coords| && 0 <= j < |coords[i]| && 0 <= k < |coords[i][j]| ==>
      (m.value[i][j][k] <==> InSlab(coords[i][j][k], c, p.n.value, p.controls.thickness, p.controls.offset))
  {
    if !Active(p) then None
    else Some(Map3(coords, x => InSlab(x, c, p.n.value, p.controls.thickness, p.controls.offset)))
  }

  // ---------------------------------------------------------------------
  // The Miller filter of _visualise_averages
  // ---------------------------------------------------------------------

  function SlabPoints(points: seq<Vec3>, c: Vec3, p: MillerParams): (r: seq<Vec3>)
    ensures !Active(p) ==> r == points
    ensures Active(p) ==> forall x :: x in r <==> x in points && KeepPoint(p, c, x)
    ensures |r| <= |points|
  {
    if Active(p) then Filter(points, x => InSlab(x, c, p.n.value, p.controls.thickness, p.controls.offset))
    else points
  }

  /** A voxel centre survives the point filter exactly when the voxel mask keeps it. */
  lemma MaskAgreesWithPointFilter(coords: Field3<Vec3>, c: Vec3, p: MillerParams, i: nat, j: nat, k: nat)
    requires Active(p)
    requires i < |coords| && j < |coords[i]| && k < |coords[i][j]|
    ensures coords[i][j][k] in SlabPoints(Flatten(coords), c, p) <==> MillerMask(coords, c, p).value[i][j][k]
  {
    FlattenContains(coords, coords[i][j][k]);
  }

  /** A thicker slab keeps every point a thinner one keeps. */
  lemma ThickerSlabKeepsMore(x: Vec3, c: Vec3, n: Vec3, t1: real, t2: real, offset: real)
    requires t1 <= t2 && InSlab(x, c, n, t1, offset)
    ensures InSlab(x, c, n, t2, offset)
  {
  }

  /** Increasing the thickness never drops a kept averaged point. */
  lemma ThickerSlabKeepsMorePoints(points: seq<Vec3>, c: Vec3, p: MillerParams, thicker: real)
    requires Active(p) && p.controls.thickness <= thicker
    ensures var q := p.(controls := p.controls.(thickness := thicker));
      forall x :: x in SlabPoints(points, c, p) ==> x in SlabPoints(points, c, q)
    ensures var q := p.(controls := p.controls.(thickness := thicker));
      |SlabPoints(points, c, p)| <= |SlabPoints(points, c, q)|
  {
    var q := p.(controls := p.controls.(thickness := thicker));
    var n, t, d := p.n.value, p.controls.thickness, p.controls.offset;
    FilterWeaker(points, x => InSlab(x, c, n, t, d), x => InSlab(x, c, n, thicker, d));
  }

  /** Reversing the normal and the offset together selects the same slab. */
  lemma FlippedNormal(x: Vec3, c: Vec3, n: Vec3, t: real, d: real)
    ensures InSlab(x, c, n, t, d) <==> InSlab(x, c, Scale(-1.0, n), t, -d)
  {
    var q := Sub(x, c);
    assert Dot(q, Scale(-1.0, n)) == -Dot(q, n);
  }

  /** With all three indices zero there is no normal: no mask and no point filtering. */
  lemma ZeroIndicesDisableSlicing(c: MillerControls, norm: real, coords: Field3<Vec3>, centre: Vec3, points: seq<Vec3>)
    requires IsNorm(c, norm) && c.h == 0 && c.k == 0 && c.l == 0
    ensures var p := GetMillerParameters(c, norm);
      && p.n == None
      && MillerMask(coords, centre, p) == None
      && SlabPoints(points, centre, p) == points
  {
  }

  /** The (1 0 0) slab of thickness 2 through the centre keeps exactly the points with `|x - cx| < 1`. */
  lemma SlabAcrossX(x: Vec3, centre: Vec3)
    ensures var p := GetMillerParameters(MillerControls(true, 1, 0, 0, 2.0, 0.0), 1.0);
      && p.n == Some(Vec3(1.0, 0.0, 0.0))
      && (KeepPoint(p, centre, x) <==> centre.x - 1.0 < x.x < centre.x + 1.0)
  {
    var p := GetMillerParameters(MillerControls(true, 1, 0, 0, 2.0, 0.0), 1.0);
    assert p.n.value == Vec3(1.0, 0.0, 0.0);
    assert Dot(Sub(x, centre), Vec3(1.0, 0.0, 0.0)) == x.x - centre.x;
  }

  // ---------------------------------------------------------------------
  // _compute_focal_point
  // ---------------------------------------------------------------------

  /** Unit-cube samples, one coordinate per axis. */
  predicate UnitSamples(samples: seq<Vec3>)
  {
    forall i :: 0 <= i < |samples| ==> InBox(samples[i], Zero, Vec3(1.0, 1.0, 1.0))
  }

  /** `origin + (imin + u * (imax - imin)) * spacing` on one axis. */
  function SampleAxis(o: real, a: int, b: int, s: real, u: real): real
  {
    o + ((a as real) + u * ((b - a) as real)) * s
  }

  lemma SampleAxisBetween(o: real, a: int, b: int, s: real, u: real)
    requires a <= b && s >= 0.0 && 0.0 <= u <= 1.0
    ensures o + (a as real) * s <= SampleAxis(o, a, b, s, u) <= o + (b as real) * s
  {
    var w := (b - a) as real;
    MulMonotone(0.0, u, w);
    MulMonotone(u, 1.0, w);
    MulMonotone(a as real, (a as real) + u * w, s);
    MulMonotone((a as real) + u * w, b as real, s);
  }

  /** `SampleAxisBetween` on axis `ax` of the geometry. */
  lemma SampleBetween(g: Geometry, a: int, b: int, ax: nat, u: real)
    requires ax < 3 && a <= b && Coord(g.spacing, ax) >= 0.0 && 0.0 <= u <= 1.0
    ensures PhysicalAt(g, a, ax) <= SampleAxis(Coord(g.origin, ax), a, b, Coord(g.spacing, ax), u) <= PhysicalAt(g, b, ax)
  {
    var o, s := Coord(g.origin, ax), Coord(g.spacing, ax);
    assert PhysicalAt(g, a, ax) == o + (a as real) * s;
    assert PhysicalAt(g, b, ax) == o + (b as real) * s;
    SampleAxisBetween(o, a, b, s, u);
  }

  /** A random sample of the focal-point search, scaled into the region. */
  function SamplePoint(r: RoiIndices, g: Geometry, u: Vec3): Vec3
  {
    Vec3(SampleAxis(g.origin.x, r.xmin, r.xmax, g.spacing.x, u.x),
         SampleAxis(g.origin.y, r.ymin, r.ymax, g.spacing.y, u.y),
         SampleAxis(g.origin.z, r.zmin, r.zmax, g.spacing.z, u.z))
  }

  /** Every scaled sample lies in the region's physical box. */
  lemma SamplePointInRoi(r: RoiIndices, g: Geometry, n: nat, u: Vec3)
    requires ValidRoi(r, n) && Le(Zero, g.spacing) && InBox(u, Zero, Vec3(1.0, 1.0, 1.0))
    ensures var b := PhysicalBounds(r, g); InBox(SamplePoint(r, g, u), b.lo, b.hi)
  {
    SampleBetween(g, r.xmin, r.xmax, 0, u.x);
    SampleBetween(g, r.ymin, r.ymax, 1, u.y);
    SampleBetween(g, r.zmin, r.zmax, 2, u.z);
  }

  function SamplePoints(r: RoiIndices, g: Geometry, samples: seq<Vec3>): (ps: seq<Vec3>)
    ensures |ps| == |samples|
    ensures forall i :: 0 <= i < |samples| ==> ps[i] == SamplePoint(r, g, samples[i])
  {
    seq(|samples|, i requires 0 <= i < |samples| => SamplePoint(r, g, samples[i]))
  }

  /**
   * The view's focal point: the mean of the samples inside the slab when
   * slicing is in effect and some sample is kept, else the region's midpoint.
   */
  function FocalPoint(r: RoiIndices, g: Geometry, p: MillerParams, samples: seq<Vec3>): (f: Vec3)
    ensures var b := PhysicalBounds(r, g); !Active(p) ==> f == Mid(b.lo, b.hi)
    ensures var b := PhysicalBounds(r, g);
      Active(p) && SlabPoints(SamplePoints(r, g, samples), g.center, p) == [] ==> f == Mid(b.lo, b.hi)
    ensures var kept := SlabPoints(SamplePoints(r, g, samples), g.center, p);
      Active(p) && |kept| > 0 ==> f == Mean(kept)
  {
    var b := PhysicalBounds(r, g);
    var kept := SlabPoints(SamplePoints(r, g, samples), g.center, p);
    if Active(p) && |kept| > 0 then Mean(kept) else Mid(b.lo, b.hi)
  }

  /** Whichever branch is taken, the focal point lies inside the region's physical box. */
  lemma FocalPointInRoi(r: RoiIndices, g: Geometry, n: nat, p: MillerParams, samples: seq<Vec3>)
    requires ValidRoi(r, n) && Le(Zero, g.spacing) && UnitSamples(samples)
    ensures var b := PhysicalBounds(r, g); InBox(FocalPoint(r, g, p, samples), b.lo, b.hi)
  {
    var b := PhysicalBounds(r, g);
    PhysicalBoundsOrdered(r, g, n);
    var ps := SamplePoints(r, g, samples);
    var kept := SlabPoints(ps, g.center, p);
    if Active(p) && |kept| > 0 {
      forall i | 0 <= i < |kept| ensures InBox(kept[i], b.lo, b.hi) {
        assert kept[i] in ps;
        var j :| 0 <= j < |ps| && ps[j] == kept[i];
        SamplePointInRoi(r, g, n, samples[j]);
      }
      MeanInBox(kept, b.lo, b.hi);
    }
  }
}
