/**
 * The `DensityVisualiser` object: its six region sliders, the data computed
 * at load time, the single-slot Miller-mask cache, and the data paths of
 * one visualisation update.
 */
module Visualiser {
  import opened Wrappers
  import opened Vec
  import opened Field
  import opened SliceSpec
  import opened Species
  import opened Trajectory
  import opened Grid
  import opened Region
  import opened Miller
  import opened Transfer

  /** `GRID_RESOLUTION`: bins per axis of the global histogram grid. */
  const GridResolution: nat := 200

  // ---------------------------------------------------------------------
  // The region sliders
  // ---------------------------------------------------------------------

  datatype Axis = X | Y | Z

  function Lo(r: RoiIndices, a: Axis): int
  {
    match a
    case X => r.xmin
    case Y => r.ymin
    case Z => r.zmin
  }

  function Hi(r: RoiIndices, a: Axis): int
  {
    match a
    case X => r.xmax
    case Y => r.ymax
    case Z => r.zmax
  }

  /** The slider pair of each axis lies in `[0, n - 1]`, minimum first. */
  lemma ValidRoiByAxis(r: RoiIndices, n: nat)
    ensures ValidRoi(r, n) <==> forall a: Axis :: 0 <= Lo(r, a) <= Hi(r, a) < n
  {
    assert 0 <= Lo(r, X) <= Hi(r, X) < n && 0 <= Lo(r, Y) <= Hi(r, Y) < n && 0 <= Lo(r, Z) <= Hi(r, Z) < n
      ==> ValidRoi(r, n);
  }

  /** `update_*_min(v)`: the minimum becomes `v` and drags the maximum up to it. */
  function MoveMin(r: RoiIndices, a: Axis, v: int): (s: RoiIndices)
    ensures Lo(s, a) == v
    ensures Hi(s, a) == if v > Hi(r, a) then v else Hi(r, a)
    ensures forall b: Axis :: b != a ==> Lo(s, b) == Lo(r, b) && Hi(s, b) == Hi(r, b)
  {
    match a
    case X => r.(xmin := v, xmax := if v > r.xmax then v else r.xmax)
    case Y => r.(ymin := v, ymax := if v > r.ymax then v else r.ymax)
    case Z => r.(zmin := v, zmax := if v > r.zmax then v else r.zmax)
  }

  /** `update_*_max(v)`: the maximum becomes `v` and drags the minimum down to it. */
  function MoveMax(r: RoiIndices, a: Axis, v: int): (s: RoiIndices)
    ensures Hi(s, a) == v
    ensures Lo(s, a) == if v < Lo(r, a) then v else Lo(r, a)
    ensures forall b: Axis :: b != a ==> Lo(s, b) == Lo(r, b) && Hi(s, b) == Hi(r, b)
  {
    match a
    case X => r.(xmax := v, xmin := if v < r.xmin then v else r.xmin)
    case Y => r.(ymax := v, ymin := if v < r.ymin then v else r.ymin)
    case Z => r.(zmax := v, zmin := if v < r.zmin then v else r.zmin)
  }

  /** Moving a slider to a value in range keeps every pair ordered and in range. */
  lemma MovesKeepRoiValid(r: RoiIndices, a: Axis, v: int, n: nat)
    requires ValidRoi(r, n) && 0 <= v < n
    ensures ValidRoi(MoveMin(r, a, v), n) && ValidRoi(MoveMax(r, a, v), n)
  {
    ValidRoiByAxis(r, n);
    ValidRoiByAxis(MoveMin(r, a, v), n);
    ValidRoiByAxis(MoveMax(r, a, v), n);
  }

  /** Within the current maximum a minimum move touches nothing else; moving twice is moving once. */
  lemma MoveMinIdempotent(r: RoiIndices, a: Axis, v: int)
    ensures MoveMin(MoveMin(r, a, v), a, v) == MoveMin(r, a, v)
    ensures v <= Hi(r, a) ==> Hi(MoveMin(r, a, v), a) == Hi(r, a)
  {
  }

  lemma MoveMaxIdempotent(r: RoiIndices, a: Axis, v: int)
    ensures MoveMax(MoveMax(r, a, v), a, v) == MoveMax(r, a, v)
    ensures v >= Lo(r, a) ==> Lo(MoveMax(r, a, v), a) == Lo(r, a)
  {
  }

  // ---------------------------------------------------------------------
  // Loaded data
  // ---------------------------------------------------------------------

  /** One frame as the trajectory reader gives it: labels, positions and the cell. */
  datatype Atoms = Atoms(symbols: seq<string>, positions: seq<Vec3>, cell: Cell)

  /** `histogram_data` of one species. */
  datatype HistogramData = HistogramData(data: Field3<real>, sortedData: seq<real>, origin: Vec3, spacing: Vec3,
                                         globalMin: real, globalMax: real)

  /** `atom_data[atype]`: the trajectory of the species and, once computed, its histogram. */
  datatype AtomEntry = AtomEntry(globalPositions: seq<Vec3>, individualAverages: seq<Vec3>,
                                 histogram: Option<HistogramData>)

  /** Why loading fails: a bad slice specification, a zero step the list slice rejects (`ValueError: slice step cannot be zero`), no frame to read, or frames `np.stack` cannot stack. */
  datatype LoadError = BadSlice(reason: SliceError) | ZeroStep | NoFrames | FramesDiffer

  /** `gaussian_filter` keeps the shape of the grid. */
  ghost predicate ShapePreserving(smooth: Field3<nat> -> Field3<real>, n: nat)
  {
    forall h: Field3<nat> {:trigger smooth(h)} :: Shaped(h, n, n, n) ==> Shaped(smooth(h), n, n, n)
  }

  /**
   * The histogram of one species: counts binned over the cell box, smoothed,
   * and the minimum, maximum and sorted values of the smoothed grid.
   */
  function MakeHistogramData(positions: seq<Vec3>, box: Box, g: Geometry, n: nat,
                             smooth: Field3<nat> -> Field3<real>): (hd: HistogramData)
    requires n >= 1 && Le(box.lo, box.hi) && ShapePreserving(smooth, n)
    ensures Shaped(hd.data, n, n, n)
    ensures hd.data == smooth(Histogram(positions, box, n))
    ensures hd.origin == box.lo && hd.spacing == g.spacing
  {
    Summarise(smooth(Histogram(positions, box, n)), box.lo, g.spacing, n)
  }

  /** A smoothed grid with its sorted values, its extremes and where it sits. */
  function Summarise(smoothed: Field3<real>, origin: Vec3, spacing: Vec3, n: nat): HistogramData
    requires n >= 1 && Shaped(smoothed, n, n, n)
  {
    HistogramData(smoothed, Sort(Flatten(smoothed)), origin, spacing,
                  FieldMin(smoothed, n, n, n), FieldMax(smoothed, n, n, n))
  }

  /**
   * The sorted values are the grid's values in ascending order, from the
   * stored minimum to the stored maximum, and every voxel lies between the two.
   */
  lemma HistogramDataSummaries(positions: seq<Vec3>, box: Box, g: Geometry, n: nat,
                               smooth: Field3<nat> -> Field3<real>, i: nat, j: nat, k: nat)
    requires n >= 1 && Le(box.lo, box.hi) && ShapePreserving(smooth, n) && i < n && j < n && k < n
    ensures var hd := MakeHistogramData(positions, box, g, n, smooth);
      && Ascending(hd.sortedData) && multiset(hd.sortedData) == multiset(Flatten(hd.data))
      && |hd.sortedData| == n * n * n
      && hd.sortedData[0] == hd.globalMin && hd.sortedData[|hd.sortedData| - 1] == hd.globalMax
      && hd.globalMin <= hd.data[i][j][k] <= hd.globalMax
  {
    var hd := MakeHistogramData(positions, box, g, n, smooth);
    EntryInFlatten(hd.data, n, n, n, 0, 0, 0);
    SortedEnds(Flatten(hd.data), hd.sortedData);
    FlattenLength(hd.data, n, n, n);
  }

  /** What the stacked positions of the frames are. */
  function Stack(frames: seq<Atoms>): (pos: Tensor)
    ensures |pos| == |frames| && forall f :: 0 <= f < |frames| ==> pos[f] == frames[f].positions
  {
    seq(|frames|, f requires 0 <= f < |frames| => frames[f].positions)
  }

  /** Every frame has as many atoms as the first one. */
  predicate SameAtomCount(frames: seq<Atoms>)
    requires |frames| > 0
  {
    forall f :: 0 <= f < |frames| ==> |frames[f].positions| == |frames[0].positions|
  }

  /** The per-species entry loading produces, histogram included. */
  function LoadedEntry(frames: seq<Atoms>, table: RenameTable, t: string, n: nat,
                       smooth: Field3<nat> -> Field3<real>): AtomEntry
    requires |frames| > 0 && SameAtomCount(frames) && |frames[0].symbols| == |frames[0].positions|
    requires n >= 1 && ShapePreserving(smooth, n)
  {
    Filled(LoadedTrajectory(frames, table, t), true, CellBox(frames[0].cell),
           MakeGeometry(CellBox(frames[0].cell), n), n, smooth)
  }

  /** The trajectory of species `t` extracted from all frames, indexed by the first frame. */
  function LoadedTrajectory(frames: seq<Atoms>, table: RenameTable, t: string): SpeciesTrajectory
    requires |frames| > 0 && SameAtomCount(frames) && |frames[0].symbols| == |frames[0].positions|
  {
    Extract(Stack(frames), IndicesOf(MappedSymbols(table, frames[0].symbols), t), |frames[0].positions|)
  }

  /** A species' entry before its histogram is computed. */
  function Bare(tr: SpeciesTrajectory): AtomEntry
  {
    AtomEntry(tr.globalPositions, tr.individualAverages, None)
  }

  /** A species' entry with or without its histogram. */
  function Filled(tr: SpeciesTrajectory, done: bool, box: Box, g: Geometry, n: nat,
                  smooth: Field3<nat> -> Field3<real>): AtomEntry
    requires n >= 1 && Le(box.lo, box.hi) && ShapePreserving(smooth, n)
  {
    AtomEntry(tr.globalPositions, tr.individualAverages,
              if done then Some(MakeHistogramData(tr.globalPositions, box, g, n, smooth)) else None)
  }

  lemma FilledShaped(tr: SpeciesTrajectory, box: Box, g: Geometry, n: nat, smooth: Field3<nat> -> Field3<real>)
    requires n >= 1 && Le(box.lo, box.hi) && ShapePreserving(smooth, n)
    ensures Filled(tr, true, box, g, n, smooth).histogram.Some?
    ensures Shaped(Filled(tr, true, box, g, n, smooth).histogram.value.data, n, n, n)
  {
  }

  /**
   * The `for atype in unique_types` loop of loading: each species' entry
   * gains the histogram of its positions over the common grid.
   */
  method ComputeHistograms(speciesData: map<string, SpeciesTrajectory>, uniqueTypes: seq<string>, box: Box,
                           g: Geometry, n: nat, smooth: Field3<nat> -> Field3<real>)
    returns (entries: map<string, AtomEntry>)
    requires n >= 1 && Le(box.lo, box.hi) && ShapePreserving(smooth, n)
    requires forall t :: t in speciesData <==> t in uniqueTypes
    ensures entries.Keys == speciesData.Keys
    ensures forall t :: t in entries ==> entries[t] == Filled(speciesData[t], true, box, g, n, smooth)
    ensures forall t :: t in entries ==> entries[t].histogram.Some? && Shaped(entries[t].histogram.value.data, n, n, n)
  {
    entries := map t | t in speciesData :: Bare(speciesData[t]);
    for i := 0 to |uniqueTypes|
      invariant entries.Keys == speciesData.Keys
      invariant forall t :: t in entries ==> entries[t] == Filled(speciesData[t], t in uniqueTypes[..i], box, g, n, smooth)
    {
      var atype := uniqueTypes[i];
      var positions := entries[atype].globalPositions;
      var hd := MakeHistogramData(positions, box, g, n, smooth);
      assert entries[atype].(histogram := Some(hd)) == Filled(speciesData[atype], true, box, g, n, smooth);
      entries := entries[atype := entries[atype].(histogram := Some(hd))];
      assert uniqueTypes[..i + 1] == uniqueTypes[..i] + [atype];
    }
    assert uniqueTypes[..|uniqueTypes|] == uniqueTypes;
    forall t | t in entries ensures entries[t].histogram.Some? && Shaped(entries[t].histogram.value.data, n, n, n) {
      FilledShaped(speciesData[t], box, g, n, smooth);
    }
  }

  lemma FilledIsLoaded(frames: seq<Atoms>, table: RenameTable, t: string, n: nat,
                       smooth: Field3<nat> -> Field3<real>, tr: SpeciesTrajectory)
    requires |frames| > 0 && SameAtomCount(frames) && |frames[0].symbols| == |frames[0].positions|
    requires n >= 1 && ShapePreserving(smooth, n)
    requires tr == Extract(Stack(frames), IndicesOf(MappedSymbols(table, frames[0].symbols), t), |frames[0].positions|)
    ensures var box := CellBox(frames[0].cell);
      Filled(tr, true, box, MakeGeometry(box, n), n, smooth) == LoadedEntry(frames, table, t, n, smooth)
  {
  }

  /**
   * What loading leaves behind: the sorted mapped species of the first
   * frame, the grid over the first frame's cell and, for every species, its
   * loaded entry.
   */
  predicate Precomputed(table: RenameTable, frames: seq<Atoms>, n: nat, smooth: Field3<nat> -> Field3<real>,
                        species: seq<string>, atomData: map<string, AtomEntry>, geometry: Geometry)
    requires |frames| > 0 && SameAtomCount(frames) && |frames[0].symbols| == |frames[0].positions|
    requires n >= 1 && ShapePreserving(smooth, n)
  {
    && species == UniqueSorted(MappedSymbols(table, frames[0].symbols))
    && geometry == MakeGeometry(CellBox(frames[0].cell), n)
    && forall t :: t in atomData ==> atomData[t] == LoadedEntry(frames, table, t, n, smooth)
  }

  /**
   * The body of loading once the frames are known to agree: index the
   * species of the first frame, extract each species' trajectory, build the
   * grid over the first frame's cell and fill in each species' histogram.
   */
  method Precompute(table: RenameTable, frames: seq<Atoms>, n: nat, smooth: Field3<nat> -> Field3<real>)
    returns (uniqueTypes: seq<string>, entries: map<string, AtomEntry>, g: Geometry)
    requires |frames| > 0 && SameAtomCount(frames) && |frames[0].symbols| == |frames[0].positions|
    requires n >= 1 && ShapePreserving(smooth, n)
    ensures Precomputed(table, frames, n, smooth, uniqueTypes, entries, g)
    ensures forall t :: t in entries <==> t in uniqueTypes
    ensures forall t :: t in entries ==> entries[t].histogram.Some? && Shaped(entries[t].histogram.value.data, n, n, n)
  {
    var first := frames[0];
    var symbolsFirst := MappedSymbols(table, first.symbols);
    uniqueTypes := UniqueSorted(symbolsFirst);
    var indicesMap := IndexMap(symbolsFirst);
    var positionsArray := Stack(frames);
    var atoms := |first.positions|;
    assert forall t :: t in indicesMap ==> IndicesBelow(indicesMap[t], atoms) by {
      forall t | t in indicesMap ensures IndicesBelow(indicesMap[t], atoms) {
        assert indicesMap[t] == IndicesOf(symbolsFirst, t);
      }
    }
    var speciesData := ProcessFrames(positionsArray, atoms, indicesMap, uniqueTypes);
    var box := CellBox(first.cell);
    g := MakeGeometry(box, n);
    entries := ComputeHistograms(speciesData, uniqueTypes, box, g, n, smooth);
    forall t | t in entries ensures entries[t] == LoadedEntry(frames, table, t, n, smooth) {
      assert indicesMap[t] == IndicesOf(symbolsFirst, t);
      FilledIsLoaded(frames, table, t, n, smooth, speciesData[t]);
    }
  }

  // ---------------------------------------------------------------------
  // The Miller-mask cache
  // ---------------------------------------------------------------------

  /** `_cached_miller_mask`, `_cached_miller_params` (with the norm they used) and `_cached_roi_indices`. */
  datatype MaskCache = MaskCache(mask: Option<Field3<bool>>, params: MillerParams, norm: real, roi: RoiIndices)

  /** The key comparison on the scalar slicing parameters and the region. */
  function NeedRecalc(cache: Option<MaskCache>, controls: MillerControls, roi: RoiIndices): (b: bool)
    ensures !b <==> cache.Some? && cache.value.params.controls == controls && cache.value.roi == roi
  {
    cache.None? || cache.value.params.controls != controls || cache.value.roi != roi
  }

  /** The outcome of Python's `!=` on the two parameter dictionaries. */
  datatype Comparison = Same | Different | RaisesValueError

  /**
   * `self._cached_miller_params != miller_params` as written: the entries are
   * compared in insertion order, and the `'n'` entries, when present, are
   * numpy arrays whose element-wise comparison has no single truth value.
   */
  function ParamsCompareAsWritten(cached: MillerParams, current: MillerParams): (r: Comparison)
    ensures r == Different <==> cached.controls != current.controls
    ensures r == Same <==> cached.controls == current.controls && cached.n.None? && current.n.None?
  {
    var a, b := cached.controls, current.controls;
    if a.useMiller != b.useMiller || a.h != b.h || a.k != b.k || a.l != b.l
       || a.thickness != b.thickness || a.offset != b.offset then Different
    else if cached.n.None? && current.n.None? then Same
    else RaisesValueError
  }

  /** `need_recalc` as written: `None` where evaluating it raises. */
  function NeedRecalcAsWritten(cache: Option<MaskCache>, current: MillerParams, roi: RoiIndices): (r: Option<bool>)
    ensures r.None? <==> (cache.Some? && cache.value.params.controls == current.controls
                          && (cache.value.params.n.Some? || current.n.Some?))
    ensures r == Some(false) <==> (cache.Some? && cache.value.params.controls == current.controls
                                   && cache.value.params.n.None? && current.n.None? && cache.value.roi == roi)
  {
    if cache.None? then Some(true)
    else match ParamsCompareAsWritten(cache.value.params, current)
      case Different => Some(true)
      case Same => Some(cache.value.roi != roi)
      case RaisesValueError => None
  }

  /**
   * With slicing on and a non-zero (h k l), the update after the one that
   * filled the cache raises whenever the slicing controls are unchanged,
   * whatever the region.
   */
  lemma CacheHitRaisesAsWritten(c: MillerControls, norm: real, mask: Option<Field3<bool>>,
                                cachedRoi: RoiIndices, roi: RoiIndices)
    requires IsNorm(c, norm) && c.useMiller && (c.h, c.k, c.l) != (0, 0, 0)
    ensures var p := GetMillerParameters(c, norm);
      NeedRecalcAsWritten(Some(MaskCache(mask, p, norm, cachedRoi)), p, roi) == None
  {
  }

  /** Wherever the source's comparison does not raise, it agrees with the scalar-key comparison. */
  lemma NeedRecalcAgrees(cache: Option<MaskCache>, c: MillerControls, norm: real, roi: RoiIndices)
    requires IsNorm(c, norm)
    requires cache.Some? ==> (IsNorm(cache.value.params.controls, cache.value.norm)
      && cache.value.params == GetMillerParameters(cache.value.params.controls, cache.value.norm))
    ensures var p := GetMillerParameters(c, norm);
      NeedRecalcAsWritten(cache, p, roi).Some? ==> NeedRecalcAsWritten(cache, p, roi).value == NeedRecalc(cache, c, roi)
  {
    if cache.Some? && cache.value.params.controls == c {
      NormUnique(c, cache.value.norm, norm);
    }
  }

  /** The square root is unique, so equal controls give equal parameters. */
  lemma NormUnique(c: MillerControls, a: real, b: real)
    requires IsNorm(c, a) && IsNorm(c, b)
    ensures a == b
  {
    if a < b {
      SquareIncreasing(a, b);
    } else if b < a {
      SquareIncreasing(b, a);
    }
  }

  lemma SquareIncreasing(a: real, b: real)
    requires 0.0 <= a < b
    ensures a * a < b * b
  {
    MulMonotone(a, b, a);
    var d := b - a;
    assert b * b - b * a == b * d;
    PositiveProduct(b, d);
    calc {
      a * a;
    <=
      b * a;
    <
      b * b;
    }
  }

  lemma PositiveProduct(a: real, b: real)
    requires a > 0.0 && b > 0.0
    ensures a * b > 0.0
  {
  }

  /** `region_data` of one update. */
  datatype RegionData = RegionData(roi: RoiIndices, bounds: Box, coords: Field3<Vec3>, params: MillerParams,
                                   focal: Vec3, mask: Option<Field3<bool>>)

  /** The region data computed from scratch, with no cache. */
  function FreshRegionData(roi: RoiIndices, g: Geometry, n: nat, params: MillerParams, samples: seq<Vec3>): (rd: RegionData)
    requires ValidRoi(roi, n) && g.spacing.x > 0.0 && g.spacing.y > 0.0 && g.spacing.z > 0.0
    ensures rd.roi == roi && rd.params == params
    ensures Shaped(rd.coords, roi.xmax - roi.xmin + 1, roi.ymax - roi.ymin + 1, roi.zmax - roi.zmin + 1)
    ensures rd.mask.Some? <==> Active(params)
    ensures rd.mask.Some? ==> Shaped(rd.mask.value, roi.xmax - roi.xmin + 1, roi.ymax - roi.ymin + 1, roi.zmax - roi.zmin + 1)
    ensures UnitSamples(samples) ==> InBox(rd.focal, rd.bounds.lo, rd.bounds.hi)
  {
    var coords := GridCoordinates(roi, g, n);
    var rd := RegionData(roi, PhysicalBounds(roi, g), coords, params, FocalPoint(roi, g, params, samples),
                         MillerMask(coords, g.center, params));
    if UnitSamples(samples) then FocalPointInRoi(roi, g, n, params, samples); rd else rd
  }

  /** The mask built from the grid coordinates of a region has the region's shape. */
  lemma MaskShaped(r: RoiIndices, g: Geometry, n: nat, p: MillerParams)
    requires ValidRoi(r, n) && g.spacing.x > 0.0 && g.spacing.y > 0.0 && g.spacing.z > 0.0
    ensures var m := MillerMask(GridCoordinates(r, g, n), g.center, p);
      m.Some? ==> Shaped(m.value, r.xmax - r.xmin + 1, r.ymax - r.ymin + 1, r.zmax - r.zmin + 1)
  {
  }

  /** The region's part of a non-negative histogram is non-negative. */
  lemma RegionNonNegative(data: Field3<real>, n: nat, roi: RoiIndices)
    requires Shaped(data, n, n, n) && ValidRoi(roi, n) && NonNegative(data, n, n, n)
    ensures NonNegative(RegionOf(data, roi, n), roi.xmax - roi.xmin + 1, roi.ymax - roi.ymin + 1, roi.zmax - roi.zmin + 1)
  {
    var sub := RegionOf(data, roi, n);
    forall a, b, c | 0 <= a <= roi.xmax - roi.xmin && 0 <= b <= roi.ymax - roi.ymin && 0 <= c <= roi.zmax - roi.zmin
      ensures sub[a][b][c] >= 0.0
    {
      assert sub[a][b][c] == data[roi.xmin + a][roi.ymin + b][roi.zmin + c];
    }
  }

  /**
   * `_visualise_averages`' points: the averaged positions inside the region's
   * physical bounds and, while slicing is in effect, inside the slab.
   */
  function AveragesView(averages: seq<Vec3>, rd: RegionData, center: Vec3): (r: seq<Vec3>)
    ensures forall x :: x in r <==> (x in averages && InBox(x, rd.bounds.lo, rd.bounds.hi)
      && (Active(rd.params) ==> KeepPoint(rd.params, center, x)))
    ensures |r| <= |averages|
  {
    var inside := InRoi(averages, rd.bounds);
    SlabPoints(inside, center, rd.params)
  }

  /** What the atom-type controls hold: the display mode and the two density sliders. */
  datatype Mode = Hidden | HistogramMode | AveragedPositions
  datatype AtomSettings = AtomSettings(mode: Mode, densityLower: int, densityUpper: int)

  /** What one species contributes to the scene. */
  datatype Rendered = Volume(density: Field3<Option<real>>) | Spheres(points: seq<Vec3>)

  /** The density volume `_visualise_histogram` hands to the renderer. */
  function HistogramVolume(hd: HistogramData, rd: RegionData, n: nat, ui: AtomSettings, gamma: real -> real): (v: Field3<Option<real>>)
    requires Shaped(hd.data, n, n, n) && ValidRoi(rd.roi, n)
    requires rd.mask.Some? ==> Shaped(rd.mask.value, rd.roi.xmax - rd.roi.xmin + 1, rd.roi.ymax - rd.roi.ymin + 1, rd.roi.zmax - rd.roi.zmin + 1)
  {
    DensityVolume(RegionOf(hd.data, rd.roi, n), rd.mask,
                  rd.roi.xmax - rd.roi.xmin + 1, rd.roi.ymax - rd.roi.ymin + 1, rd.roi.zmax - rd.roi.zmin + 1,
                  ui.densityLower, ui.densityUpper, gamma)
  }

  /**
   * What one species adds to the scene: nothing when hidden, its density
   * volume in histogram mode, and in averaged-positions mode the points
   * left by the region and the slab, unless none are.
   */
  function Render(entry: AtomEntry, ui: AtomSettings, rd: RegionData, n: nat, center: Vec3, gamma: real -> real): (r: Option<Rendered>)
    requires entry.histogram.Some? && Shaped(entry.histogram.value.data, n, n, n) && ValidRoi(rd.roi, n)
    requires rd.mask.Some? ==> Shaped(rd.mask.value, rd.roi.xmax - rd.roi.xmin + 1, rd.roi.ymax - rd.roi.ymin + 1, rd.roi.zmax - rd.roi.zmin + 1)
    ensures ui.mode == Hidden ==> r.None?
    ensures (r.Some? && r.value.Volume?) <==> ui.mode == HistogramMode
  {
    match ui.mode
    case Hidden => None
    case HistogramMode => Some(Volume(HistogramVolume(entry.histogram.value, rd, n, ui, gamma)))
    case AveragedPositions =>
      if |AveragesView(entry.individualAverages, rd, center)| == 0 then None
      else Some(Spheres(AveragesView(entry.individualAverages, rd, center)))
  }

  /**
   * Shown spheres are averaged positions of the species that lie inside the
   * region's bounds and, while slicing is in effect, inside the slab; a
   * species shown as spheres has at least one.
   */
  lemma RenderedPointsInRegion(entry: AtomEntry, ui: AtomSettings, rd: RegionData, n: nat, center: Vec3,
                               gamma: real -> real, x: Vec3)
    requires entry.histogram.Some? && Shaped(entry.histogram.value.data, n, n, n) && ValidRoi(rd.roi, n)
    requires rd.mask.Some? ==> Shaped(rd.mask.value, rd.roi.xmax - rd.roi.xmin + 1, rd.roi.ymax - rd.roi.ymin + 1, rd.roi.zmax - rd.roi.zmin + 1)
    requires Render(entry, ui, rd, n, center, gamma).Some? && Render(entry, ui, rd, n, center, gamma).value.Spheres?
    ensures ui.mode == AveragedPositions && Render(entry, ui, rd, n, center, gamma).value.points != []
    ensures x in Render(entry, ui, rd, n, center, gamma).value.points <==>
      (x in entry.individualAverages && InBox(x, rd.bounds.lo, rd.bounds.hi)
       && (Active(rd.params) ==> KeepPoint(rd.params, center, x)))
  {
  }

  /** In averaged-positions mode a species is left out of the scene exactly when no mean position is kept. */
  lemma AveragedShownUnlessEmpty(entry: AtomEntry, ui: AtomSettings, rd: RegionData, n: nat, center: Vec3,
                                 gamma: real -> real)
    requires entry.histogram.Some? && Shaped(entry.histogram.value.data, n, n, n) && ValidRoi(rd.roi, n)
    requires rd.mask.Some? ==> Shaped(rd.mask.value, rd.roi.xmax - rd.roi.xmin + 1, rd.roi.ymax - rd.roi.ymin + 1, rd.roi.zmax - rd.roi.zmin + 1)
    requires ui.mode == AveragedPositions
    ensures Render(entry, ui, rd, n, center, gamma).None? <==> AveragesView(entry.individualAverages, rd, center) == []
  {
  }

  /**
   * The `for atype, ui in self.atom_settings_widgets.items()` loop of an
   * update: `species` is the order of the controls.
   */
  method RenderSpecies(species: seq<string>, atomData: map<string, AtomEntry>, settings: map<string, AtomSettings>,
                       rd: RegionData, n: nat, center: Vec3, gamma: real -> real)
    returns (scene: map<string, Rendered>)
    requires ValidRoi(rd.roi, n)
    requires rd.mask.Some? ==> Shaped(rd.mask.value, rd.roi.xmax - rd.roi.xmin + 1, rd.roi.ymax - rd.roi.ymin + 1, rd.roi.zmax - rd.roi.zmin + 1)
    requires forall t :: t in species ==> t in settings && t in atomData
    requires forall t :: t in atomData ==> atomData[t].histogram.Some? && Shaped(atomData[t].histogram.value.data, n, n, n)
    ensures forall t :: t in scene <==> t in species && Render(atomData[t], settings[t], rd, n, center, gamma).Some?
    ensures forall t :: t in scene ==> scene[t] == Render(atomData[t], settings[t], rd, n, center, gamma).value
  {
    scene := map[];
    for i := 0 to |species|
      invariant forall t :: t in scene <==> t in species[..i] && Render(atomData[t], settings[t], rd, n, center, gamma).Some?
      invariant forall t :: t in scene ==> scene[t] == Render(atomData[t], settings[t], rd, n, center, gamma).value
    {
      var atype := species[i];
      var shown := Render(atomData[atype], settings[atype], rd, n, center, gamma);
      if shown.Some? {
        scene := scene[atype := shown.value];
      }
      assert species[..i + 1] == species[..i] + [atype];
    }
    assert species[..|species|] == species;
  }

  class DensityVisualiser {
    /** `grid_resolution`. */
    const n: nat
    /** `atom_type_map`. */
    const atomTypeMap: RenameTable

    var xmin: int
    var xmax: int
    var ymin: int
    var ymax: int
    var zmin: int
    var zmax: int

    var species: seq<string>
    var atomData: map<string, AtomEntry>
    var geometry: Geometry

    var cache: Option<MaskCache>

    /** `_get_roi_indices`. */
    function Indices(): RoiIndices
      reads this
    {
      RoiIndices(xmin, xmax, ymin, ymax, zmin, zmax)
    }

    /** Everything loading sets. */
    function Loaded(): (seq<string>, map<string, AtomEntry>, Geometry)
      reads this
    {
      (species, atomData, geometry)
    }

    /** The stored mask is the mask of the stored region and parameters. */
    ghost predicate CacheFaithful(c: MaskCache)
      reads this
    {
      && ValidRoi(c.roi, n)
      && geometry.spacing.x > 0.0 && geometry.spacing.y > 0.0 && geometry.spacing.z > 0.0
      && IsNorm(c.params.controls, c.norm)
      && c.params == GetMillerParameters(c.params.controls, c.norm)
      && c.mask == MillerMask(GridCoordinates(c.roi, geometry, n), geometry.center, c.params)
    }

    ghost predicate Valid()
      reads this
    {
      && n >= 1
      && ValidRoi(Indices(), n)
      && (forall t :: t in atomData <==> t in species)
      && (forall t :: t in atomData ==> atomData[t].histogram.Some? && Shaped(atomData[t].histogram.value.data, n, n, n))
      && (cache.Some? ==> CacheFaithful(cache.value))
    }

    /** The region sliders start at `0` (minima) and `n - 1` (maxima); nothing is loaded yet. */
    constructor (table: RenameTable)
      ensures Valid()
      ensures n == GridResolution && atomTypeMap == table
      ensures Indices() == RoiIndices(0, GridResolution - 1, 0, GridResolution - 1, 0, GridResolution - 1)
      ensures species == [] && atomData == map[] && cache == None
    {
      n := GridResolution;
      atomTypeMap := table;
      xmin, xmax := 0, GridResolution - 1;
      ymin, ymax := 0, GridResolution - 1;
      zmin, zmax := 0, GridResolution - 1;
      species := [];
      atomData := map[];
      geometry := Geometry(Zero, Zero, Zero);
      cache := None;
    }

    method UpdateXMin(v: int)
      requires Valid() && 0 <= v < n
      modifies this
      ensures Valid()
      ensures Indices() == MoveMin(old(Indices()), X, v)
      ensures Loaded() == old(Loaded()) && cache == old(cache)
    {
      MovesKeepRoiValid(Indices(), X, v, n);
      xmin := v;
      if v > xmax {
        xmax := v;
      }
    }

    method UpdateXMax(v: int)
      requires Valid() && 0 <= v < n
      modifies this
      ensures Valid()
      ensures Indices() == MoveMax(old(Indices()), X, v)
      ensures Loaded() == old(Loaded()) && cache == old(cache)
    {
      MovesKeepRoiValid(Indices(), X, v, n);
      xmax := v;
      if v < xmin {
        xmin := v;
      }
    }

    method UpdateYMin(v: int)
      requires Valid() && 0 <= v < n
      modifies this
      ensures Valid()
      ensures Indices() == MoveMin(old(Indices()), Y, v)
      ensures Loaded() == old(Loaded()) && cache == old(cache)
    {
      MovesKeepRoiValid(Indices(), Y, v, n);
      ymin := v;
      if v > ymax {
        ymax := v;
      }
    }

    method UpdateYMax(v: int)
      requires Valid() && 0 <= v < n
      modifies this
      ensures Valid()
      ensures Indices() == MoveMax(old(Indices()), Y, v)
      ensures Loaded() == old(Loaded()) && cache == old(cache)
    {
      MovesKeepRoiValid(Indices(), Y, v, n);
      ymax := v;
      if v < ymin {
        ymin := v;
      }
    }

    method UpdateZMin(v: int)
      requires Valid() && 0 <= v < n
      modifies this
      ensures Valid()
      ensures Indices() == MoveMin(old(Indices()), Z, v)
      ensures Loaded() == old(Loaded()) && cache == old(cache)
    {
      MovesKeepRoiValid(Indices(), Z, v, n);
      zmin := v;
      if v > zmax {
        zmax := v;
      }
    }

    method UpdateZMax(v: int)
      requires Valid() && 0 <= v < n
      modifies this
      ensures Valid()
      ensures Indices() == MoveMax(old(Indices()), Z, v)
      ensures Loaded() == old(Loaded()) && cache == old(cache)
    {
      MovesKeepRoiValid(Indices(), Z, v, n);
      zmax := v;
      if v < zmin {
        zmin := v;
      }
    }
  
    /**
     * `load_and_precompute` on frames the reader has already selected: parse
     * the slice specification, index the species of the first frame, extract
     * each species' trajectory, build the grid over the first frame's cell
     * and fill in each species' histogram.
     */
    method LoadAndPrecompute(input: SliceInput, frames: seq<Atoms>, smooth: Field3<nat> -> Field3<real>)
      returns (err: Option<LoadError>)
      requires Valid() && cache.None?
      requires forall f :: 0 <= f < |frames| ==> |frames[f].symbols| == |frames[f].positions|
      requires ShapePreserving(smooth, n)
      modifies this
      ensures Valid() && cache == None && Indices() == old(Indices())
      ensures Parse(input).Err? ==> err == Some(BadSlice(Parse(input).error))
      ensures Parse(input).Ok? && Parse(input).value.step == Some(0) ==> err == Some(ZeroStep)
      ensures Parse(input).Ok? && Parse(input).value.step != Some(0) && |frames| == 0 ==> err == Some(NoFrames)
      ensures Parse(input).Ok? && Parse(input).value.step != Some(0) && |frames| > 0 && !SameAtomCount(frames) ==>
        err == Some(FramesDiffer)
      ensures err.Some? ==> Loaded() == old(Loaded())
      ensures err.None? ==> Parse(input).Ok? && Parse(input).value.step != Some(0) && |frames| > 0 && SameAtomCount(frames)
      ensures err.None? ==> (|frames| > 0 && SameAtomCount(frames)
        && Precomputed(atomTypeMap, frames, n, smooth, species, atomData, geometry))
    {
      var parsed := Parse(input);
      if parsed.Err? {
        return Some(BadSlice(parsed.error));
      }
      if parsed.value.step == Some(0) {
        return Some(ZeroStep);
      }
      if |frames| == 0 {
        return Some(NoFrames);
      }
      if !SameAtomCount(frames) {
        return Some(FramesDiffer);
      }
      var uniqueTypes, entries, g := Precompute(atomTypeMap, frames, n, smooth);
      Install(uniqueTypes, entries, g);
      err := None;
    }

    /** The assignments that end loading: `self.atom_data` and the geometry, and the species. */
    method Install(uniqueTypes: seq<string>, entries: map<string, AtomEntry>, g: Geometry)
      requires Valid() && cache.None?
      requires forall t :: t in entries <==> t in uniqueTypes
      requires forall t :: t in entries ==> entries[t].histogram.Some? && Shaped(entries[t].histogram.value.data, n, n, n)
      modifies this
      ensures Valid() && cache == None && Indices() == old(Indices())
      ensures species == uniqueTypes && atomData == entries && geometry == g
    {
      atomData, geometry, species := entries, g, uniqueTypes;
    }

    /**
     * `_precompute_region_data`: the region's bounds, voxel centres, slicing
     * parameters and focal point, and the slab mask, which is taken from the
     * cache when the slicing controls and the region are those it was built
     * for and recomputed (and cached) otherwise.
     */
    method PrecomputeRegionData(controls: MillerControls, norm: real, samples: seq<Vec3>) returns (rd: RegionData)
      requires Valid() && IsNorm(controls, norm)
      requires geometry.spacing.x > 0.0 && geometry.spacing.y > 0.0 && geometry.spacing.z > 0.0
      modifies this
      ensures Valid() && Indices() == old(Indices()) && Loaded() == old(Loaded())
      ensures rd == FreshRegionData(Indices(), geometry, n, GetMillerParameters(controls, norm), samples)
      ensures (!controls.useMiller || !NeedRecalc(old(cache), controls, Indices())) ==> cache == old(cache)
      ensures controls.useMiller && NeedRecalc(old(cache), controls, Indices()) ==>
        cache == Some(MaskCache(rd.mask, rd.params, norm, rd.roi))
    {
      var roi := Indices();
      var bounds := PhysicalBounds(roi, geometry);
      var coords := GridCoordinates(roi, geometry, n);
      var params := GetMillerParameters(controls, norm);
      var focal := FocalPoint(roi, geometry, params, samples);
      var mask: Option<Field3<bool>> := None;
      if controls.useMiller {
        if NeedRecalc(cache, controls, roi) {
          mask := MillerMask(coords, geometry.center, params);
          cache := Some(MaskCache(mask, params, norm, roi));
        } else {
          NormUnique(controls, cache.value.norm, norm);
          mask := cache.value.mask;
        }
      }
      rd := RegionData(roi, bounds, coords, params, focal, mask);
    }

    /**
     * `update_visualisation`: the region data of this update, then for each
     * species in the order of its controls a density volume (histogram
     * mode) or the averaged positions left by the region and the slab
     * (averaged-positions mode, shown only when some remain); hidden species
     * add nothing.
     */
    method UpdateVisualisation(controls: MillerControls, norm: real, samples: seq<Vec3>,
                               settings: map<string, AtomSettings>, gamma: real -> real)
      returns (rd: RegionData, scene: map<string, Rendered>)
      requires Valid() && IsNorm(controls, norm)
      requires geometry.spacing.x > 0.0 && geometry.spacing.y > 0.0 && geometry.spacing.z > 0.0
      requires forall t :: t in species ==> t in settings
      modifies this
      ensures Valid() && Indices() == old(Indices()) && Loaded() == old(Loaded())
      ensures rd == FreshRegionData(Indices(), geometry, n, GetMillerParameters(controls, norm), samples)
      ensures (!controls.useMiller || !NeedRecalc(old(cache), controls, Indices())) ==> cache == old(cache)
      ensures controls.useMiller && NeedRecalc(old(cache), controls, Indices()) ==>
        cache == Some(MaskCache(rd.mask, rd.params, norm, rd.roi))
      ensures forall t :: t in scene <==> t in species && Render(atomData[t], settings[t], rd, n, geometry.center, gamma).Some?
      ensures forall t :: t in scene ==> scene[t] == Render(atomData[t], settings[t], rd, n, geometry.center, gamma).value
    {
      rd := PrecomputeRegionData(controls, norm, samples);
      MaskShaped(rd.roi, geometry, n, rd.params);
      scene := RenderSpecies(species, atomData, settings, rd, n, geometry.center, gamma);
    }
  }
}
