# DensMD density engine in Dafny

DensMD shows molecular-dynamics trajectories as per-species density clouds. It
loads the frames and indexes the species of the first frame. For every species
it extracts all positions and each atom's mean position. It bins the positions
into an N x N x N grid over the cell's bounding box, and lets the user cut out a
box-shaped region of interest (ROI) and a Miller-plane slab.

This project models the deterministic engine under the Qt and VTK wiring of
`run_densmd.py` (class `DensityVisualiser`), and proves properties of that model:

- `SliceSpec`: the frame-slice string (`"start:stop:step"`), with Python's
  `str.split` and `int` written out, and its inverse.
- `Species`: symbol renaming through `atom_type_map`, the sorted unique species
  and the per-species index lists.
- `Trajectory`: `_process_frames`, i.e. flattened positions and per-atom means.
- `Grid`: the cell box from the 8 corners, spacing and centre, and the `N + 1`
  edges. It also models `np.histogramdd` binning, including its closed last bin.
- `Field`: 3-D fields as nested sequences, the sub-array slice, and the
  histogram's sorted values and extremes.
- `Region`: physical bounds of the ROI, voxel-grid dimensions, voxel centres,
  the sub-array and the inclusive box filter.
- `Miller`: `_get_miller_parameters`, the slab test `abs((p - c) . n - d) < t/2`
  and its three uses: the voxel mask, the point filter and the focal point.
- `Transfer`: masking, `_histogram_normalise_gamma` and the density-slider
  threshold of `_visualise_histogram`.
- `Visualiser`: the `DensityVisualiser` class. It holds the six ROI sliders, the
  loaded data and the single-slot Miller-mask cache. Its operations are loading,
  the slider handlers, `_precompute_region_data` and the data path of
  `update_visualisation`.

The model follows the code in these points, which a reader might expect otherwise:

- The grid spacing is `cell_lengths / N` (run_densmd.py:885), so `N` voxels
  exactly cover the cell box.
- Normalisation takes the minimum and maximum over the whole masked sub-array.
  Masked voxels are already set to 0 at that point (run_densmd.py:1275-1278, 959).
- The threshold is `clip((v - lower) / (upper - lower), 0, 1)` for
  `lower <= upper`, and 0 otherwise (run_densmd.py:1281). The gamma curve is
  applied before it, inside `_histogram_normalise_gamma`.

In two points the model follows the code's stated intent instead of its
letter. Each is recorded under "## Findings", with the code as written
modelled beside it:

- Voxel centres. The docstring of `_compute_grid_coordinates`
  (run_densmd.py:1135, 1142) promises the ROI's voxel centres, that is
  `roi_min + (k + 0.5) * spacing`. The `linspace` call that follows
  (run_densmd.py:1148-1150) gives other points on every axis with two or more
  voxels. The model's `GridCoordinates`, and with it the slab mask, uses the
  voxel centres; `AxisCentresAsWritten` is the code's version.
- Mask cache. The cache is reused when the scalar slicing controls and the
  ROI are unchanged. As written, the dictionary comparison at run_densmd.py:1083
  raises `ValueError` in that case once a normal exists;
  `NeedRecalcAsWritten` is the code's version.

Mapping from the source's quantities to the model:

- Floating-point values are Dafny `real`.
- `np.isclose` is exact with `atol = 1e-8` and `rtol = 1e-5`.
- `astype(int)` truncates toward zero.
- `sqrt(h^2 + k^2 + l^2)` is a parameter `norm` with `norm >= 0` and
  `norm * norm == h^2 + k^2 + l^2`.
- The Gaussian filter is a shape-preserving parameter `smooth`.
- The gamma curve `x ** 0.5` is a parameter `gamma`.
- The random samples of the focal-point search are a parameter with values in `[0, 1]^3`.
- The numbers read from the controls are parameters: the Miller controls, the
  two density sliders and the display mode.

## Model

| member | source | states |
|---|---|---|
| Species.MappedSymbols | run_densmd.py:778-789 | One label per atom; with no table the labels are unchanged; a label in the table becomes its image, any other label stays as it is |
| Species.UniqueSorted | run_densmd.py:854 | `sorted(set(symbols))`: strictly increasing in Python's string order and containing exactly the labels that occur |
| Species.Insert | run_densmd.py:854 | Inserting into a strictly sorted list keeps it strictly sorted and adds exactly the new label |
| Species.LexTotal | run_densmd.py:854 | Python's string order is total, so sorting the species is well defined |
| Species.LexTransitive | run_densmd.py:854 | Python's string order is transitive |
| Species.IndicesOf | run_densmd.py:857-860 | The index list of a species holds every atom with that label and only such atoms, in strictly ascending order |
| Species.IndexMap | run_densmd.py:857-860 | `indices_map` has a key for exactly the labels that occur |
| Species.IndexMapPartition | run_densmd.py:857-860 | Atom `i` is in the list of species `t` if and only if its label is `t` |
| Species.IndexListsNonEmpty | run_densmd.py:857-860 | Every species has at least one atom |
| Species.EveryAtomListedOnce | run_densmd.py:852-860 | The lengths of all index lists add up to the number of atoms, so each atom is listed once |
| Species.IndexCountsAddUp | run_densmd.py:857-860 | For distinct species, the lengths of their index lists add up to the number of atoms labelled with one of them |
| SliceSpec.Split | run_densmd.py:830 | `str.split(':')` gives at least one part and no part contains a colon |
| SliceSpec.JoinSplit | run_densmd.py:830 | Joining the parts of a split with the separator gives back the string |
| SliceSpec.SplitJoin | run_densmd.py:830 | Splitting a join of colon-free parts gives back the parts |
| SliceSpec.ParseParts | run_densmd.py:831 | Empty parts become `None` and other parts their `int` value; it fails exactly when some non-empty part is not an integer literal |
| SliceSpec.SliceOf | run_densmd.py:832 | `slice(*nums)`: one argument is the stop, two are start and stop, three add the step, and more than three is an error |
| SliceSpec.Parse | run_densmd.py:829-834 | A slice object passes through; a value that is neither a string nor a slice is rejected; an accepted string has at most three parts |
| SliceSpec.ParseShowInt | run_densmd.py:831 | `int` reads back every integer written in decimal |
| SliceSpec.ParseFormat | run_densmd.py:829-832 | Writing any slice as `start:stop:step` and parsing it gives the slice back |
| SliceSpec.EveryTenthFrame | run_densmd.py:821-832 | `"::10"` parses to `slice(None, None, 10)` |
| SliceSpec.WholeTrajectory | run_densmd.py:829-832 | `":"` parses to `slice(None, None)` |
| SliceSpec.LoneNumberIsStop | run_densmd.py:829-832 | `"5"` parses to `slice(5)`, a stop |
| SliceSpec.FourFieldsRejected | run_densmd.py:832 | `":::"` gives four arguments, which `slice` rejects |
| Trajectory.Pick | run_densmd.py:935 | `frame[indices]` holds, at `j`, the atom `indices[j]` of the frame |
| Trajectory.GlobalPositionsLength | run_densmd.py:935-937 | The flattened positions have frames x indices rows |
| Trajectory.GlobalPositionsAt | run_densmd.py:935-937 | Row `f * n + j` of the flattened positions is atom `indices[j]` of frame `f` |
| Trajectory.Track | run_densmd.py:939 | The trajectory of one atom has one position per frame, that atom's position in the frame |
| Trajectory.IndividualAverages | run_densmd.py:939 | One mean per listed atom, the mean of that atom's positions over all frames |
| Trajectory.Extract | run_densmd.py:935-939 | What `_process_frames` stores for one species: its flattened positions, and one mean per listed atom, the mean of that atom's positions over all frames |
| Trajectory.AverageStaysInBox | run_densmd.py:939 | An atom that stays in a box on every frame has its mean in that box |
| Trajectory.AverageOfStillAtom | run_densmd.py:939 | An atom that never moves is averaged to its position |
| Trajectory.ProcessFrames | run_densmd.py:916-944 | The result has one entry per species of `indices_map`, holding that species' flattened positions and atom means |
| Vec.MeanInBox | run_densmd.py:939 | The mean of points that all lie in a box lies in that box |
| Vec.Mid | run_densmd.py:1226 | The midpoint of an ordered box lies in the box |
| Grid.Lower | run_densmd.py:879 | `corners.min(axis=0)`: below every corner and attained on every axis |
| Grid.Upper | run_densmd.py:880 | `corners.max(axis=0)`: above every corner and attained on every axis |
| Grid.CellBox | run_densmd.py:875-880 | The cell box is ordered and holds all 8 corners of the cell |
| Grid.BoxAroundTight | run_densmd.py:877-880 | When two of the points bound all of them, the box is exactly those two points |
| Grid.GeometrySpansBox | run_densmd.py:881-886 | `origin + N * spacing` is the box's maximum, the centre is the box midpoint and the spacing is non-negative |
| Grid.Edges | run_densmd.py:891-893 | `np.linspace(min, max, N + 1)`: `N + 1` edges from the minimum to the maximum |
| Grid.EdgesEvenlySpaced | run_densmd.py:891-893 | Consecutive edges are `(max - min) / N` apart |
| Grid.EdgesSorted | run_densmd.py:891-893 | The edges are non-decreasing |
| Grid.BinIndexSound | run_densmd.py:894 | A value gets a bin if and only if it lies in `[min, max]`; its bin `b` has `edge[b] <= x < edge[b + 1]`, or `x == max` in the last bin |
| Grid.Bin3Sound | run_densmd.py:894 | A position is binned if and only if it lies in the closed cell box, into a bin inside the grid |
| Grid.Histogram | run_densmd.py:894 | `np.histogramdd` over the `N + 1` edges of each axis: an `N x N x N` field of counts. What each count is is stated by `Grid.HistogramAt` and `Grid.HistogramTotal` |
| Grid.HistogramTotal | run_densmd.py:894 | The counts add up to the number of positions inside the closed box |
| Grid.HistogramAt | run_densmd.py:894 | Each count is the number of positions whose bin is that voxel |
| Grid.HistogramGrows | run_densmd.py:894 | Adding positions never lowers a count |
| Field.Bump | run_densmd.py:894 | Counting one position raises exactly one count, by one |
| Field.SeqMin | run_densmd.py:899 | The minimum is one of the values and below all of them |
| Field.SeqMax | run_densmd.py:900 | The maximum is one of the values and above all of them |
| Field.InsertAscending | run_densmd.py:901 | Insertion keeps a sequence ascending and adds one copy of the value |
| Field.Sort | run_densmd.py:901 | `np.sort`: ascending and a permutation of its input |
| Field.SortedEnds | run_densmd.py:899-901 | A sorted permutation starts at the minimum and ends at the maximum |
| Field.FlattenContains | run_densmd.py:901 | `ravel()` holds exactly the voxels' values |
| Field.FlattenLength | run_densmd.py:901 | `ravel()` has `dx * dy * dz` values |
| Field.SubArray | run_densmd.py:1268-1272 | The slice `[x0:x1+1, y0:y1+1, z0:z1+1]` has the ROI's shape and holds the shifted voxels |
| Visualiser.MakeHistogramData | run_densmd.py:894-910 | `histogram_data['data']` is the smoothed histogram of the positions over the cell box; origin and spacing are the grid's |
| Visualiser.HistogramDataSummaries | run_densmd.py:899-910 | `sorted_data` is the sorted permutation of the N^3 smoothed values; it starts at `global_min` and ends at `global_max`, which bound every voxel |
| Visualiser.Stack | run_densmd.py:865 | `np.stack` has one row of positions per frame |
| Visualiser.ComputeHistograms | run_densmd.py:889-910 | After the loop every species' entry holds its trajectory and the histogram of its own positions, and no other key appears |
| Visualiser.Precompute | run_densmd.py:852-910 | The species are the sorted mapped labels of the first frame, the grid is the first cell's, and each species' entry is its loaded trajectory and histogram |
| Visualiser.FilledIsLoaded | run_densmd.py:889-910 | The entry the histogram loop fills for a species is the one loading promises for it |
| Visualiser.DensityVisualiser.LoadAndPrecompute | run_densmd.py:791-914 | A bad slice specification, a zero slice step (which the list slice at line 841 rejects), an empty trajectory or frames of different atom counts are errors that change nothing; otherwise the loaded state is the one `Precompute` states, and the class invariant holds |
| Visualiser.DensityVisualiser.Install | run_densmd.py:851-910 | Storing the species, the entries and the grid keeps the class invariant, leaves the sliders alone and leaves the cache empty |
| Visualiser.MoveMin | run_densmd.py:606-620 | The minimum becomes `v`, the maximum becomes `max(old maximum, v)`, and the other axes are unchanged |
| Visualiser.MoveMax | run_densmd.py:622-636 | The maximum becomes `v`, the minimum becomes `min(old minimum, v)`, and the other axes are unchanged |
| Visualiser.MovesKeepRoiValid | run_densmd.py:606-700 | Any in-range slider move keeps every pair in `[0, N - 1]` with minimum <= maximum |
| Visualiser.ValidRoiByAxis | run_densmd.py:207-220 | A region is valid if and only if on every axis `0 <= min <= max < N` |
| Visualiser.MoveMinIdempotent | run_densmd.py:606-620 | Moving a minimum twice is moving it once, and a move that stays below the maximum leaves it alone |
| Visualiser.MoveMaxIdempotent | run_densmd.py:622-636 | Moving a maximum twice is moving it once, and a move that stays above the minimum leaves it alone |
| Visualiser.DensityVisualiser.constructor | run_densmd.py:174-220 | The grid resolution is `GRID_RESOLUTION` (200); the minimum sliders start at 0 and the maximum sliders at `N - 1`; nothing is loaded and nothing is cached |
| Visualiser.DensityVisualiser.UpdateXMin | run_densmd.py:606-620 | `update_x_min`: the region becomes `MoveMin` on X; the loaded data and the cache are unchanged; the invariant holds |
| Visualiser.DensityVisualiser.UpdateXMax | run_densmd.py:622-636 | `update_x_max`: the region becomes `MoveMax` on X, the rest is unchanged |
| Visualiser.DensityVisualiser.UpdateYMin | run_densmd.py:638-652 | `update_y_min`: the region becomes `MoveMin` on Y, the rest is unchanged |
| Visualiser.DensityVisualiser.UpdateYMax | run_densmd.py:654-668 | `update_y_max`: the region becomes `MoveMax` on Y, the rest is unchanged |
| Visualiser.DensityVisualiser.UpdateZMin | run_densmd.py:670-684 | `update_z_min`: the region becomes `MoveMin` on Z, the rest is unchanged |
| Visualiser.DensityVisualiser.UpdateZMax | run_densmd.py:686-700 | `update_z_max`: the region becomes `MoveMax` on Z, the rest is unchanged |
| Visualiser.NeedRecalc | run_densmd.py:1079-1085 | The cache is reused exactly when it is filled and was built for the same slicing controls and the same ROI |
| Visualiser.NeedRecalcAgrees | run_densmd.py:1079-1085 | Wherever the source's comparison gives an answer, it is the scalar-key answer |
| Visualiser.CacheHitRaisesAsWritten | run_densmd.py:1079-1085 | As written, with slicing on and non-zero `(h, k, l)`, an update whose slicing controls equal the cached ones raises, whatever the ROI |
| Visualiser.ParamsCompareAsWritten | run_densmd.py:1083 | `!=` on the two parameter dictionaries: different exactly when some control differs; equal exactly when the controls agree and neither side has a normal; otherwise it raises |
| Visualiser.NeedRecalcAsWritten | run_densmd.py:1079-1085 | `need_recalc` as written raises exactly when a cache exists with the same controls and either side has a normal. The cached mask is reused only when the controls agree, no normal exists and the ROI is the cached one |
| Visualiser.NormUnique | run_densmd.py:1178 | The square root is unique, so equal controls give equal parameters |
| Visualiser.FreshRegionData | run_densmd.py:1042-1103 | Region data computed from scratch carries the ROI and the parameters. Its coordinates have the ROI's shape. A mask exists exactly when slicing is in effect, and then has the ROI's shape. For samples in `[0, 1]^3` the focal point lies in the ROI's physical box |
| Visualiser.DensityVisualiser.PrecomputeRegionData | run_densmd.py:1042-1103 | The region data is what a fresh computation gives, the mask included; on a hit the cache is untouched, on a miss it holds the new mask, parameters and ROI, and with slicing off it is untouched |
| Visualiser.MaskShaped | run_densmd.py:1088 | The slab mask built from the ROI's voxel centres has the sub-array's shape |
| Visualiser.RegionNonNegative | run_densmd.py:1268-1272 | The ROI's part of a non-negative histogram is non-negative |
| Visualiser.AveragesView | run_densmd.py:1317-1336 | A mean position is shown if and only if it lies in the closed ROI box and, while slicing is in effect, in the slab |
| Visualiser.RenderedPointsInRegion | run_densmd.py:1308-1339 | A species drawn as spheres is in averaged-positions mode, has at least one point, and its points are exactly the kept mean positions |
| Visualiser.Render | run_densmd.py:991-999 | A hidden species adds nothing, and a species is drawn as a density volume exactly in histogram mode |
| Visualiser.AveragedShownUnlessEmpty | run_densmd.py:1323-1339 | In averaged-positions mode a species is left out of the scene exactly when no mean position survives the ROI and the slab |
| Visualiser.RenderSpecies | run_densmd.py:991-999 | The scene holds exactly the species with something to show, each with what its mode shows |
| Visualiser.DensityVisualiser.UpdateVisualisation | run_densmd.py:970-1002 | One update computes the region data as `_precompute_region_data` does and shows every species as its mode says; the mask cache is replaced by the fresh mask exactly when slicing is on and `NeedRecalc` holds, and is otherwise unchanged; the sliders and the loaded data are unchanged |
| Region.PhysicalAtMonotone | run_densmd.py:1119-1129 | `origin + index * spacing` grows with the index |
| Region.PhysicalBounds | run_densmd.py:1105-1131 | The ROI's physical box is `origin + [xmin, ymin, zmin] * spacing` to `origin + [xmax, ymax, zmax] * spacing`, element-wise |
| Region.PhysicalBoundsOrdered | run_densmd.py:1105-1131 | The physical bounds of a valid ROI are ordered |
| Region.PhysicalBoundsNested | run_densmd.py:1105-1131 | A sub-box of slider indices gives a sub-box of physical bounds |
| Region.AxisDimExact | run_densmd.py:1145 | `(max - min) / spacing + 1` truncated is exactly `imax - imin + 1` over the reals |
| Region.RegionAxisDim | run_densmd.py:1145 | The voxel count along an axis is `imax - imin + 1` |
| Region.GridDims | run_densmd.py:1145 | The voxel-grid dimensions are `imax - imin + 1` per axis |
| Region.Linspace | run_densmd.py:1148-1150 | `np.linspace(a, b, num)` has `num` points from `a` to `b` |
| Region.AxisCentresAsWritten | run_densmd.py:1148-1150 | The code's centres along one axis: `dims` points from `roi_min + s/2` to `roi_max - s/2` |
| Region.AxisCentres | run_densmd.py:1147-1152 | The `k`-th voxel centre is `lo + (k + 0.5) * spacing` |
| Region.AxisCentresInsideVoxels | run_densmd.py:1147-1152 | Each centre lies strictly inside its voxel, and neighbours are one spacing apart |
| Region.AxisCentresOnGlobalGrid | run_densmd.py:1147-1152 | The ROI's centres are the global grid's centres `origin + (index + 0.5) * spacing` |
| Region.AsWrittenCentresCollide | run_densmd.py:1148-1150 | The source's centres for a two-voxel axis coincide at 0.5, where they should be 0.5 and 1.5 |
| Region.AsWrittenLastCentreOneVoxelShort | run_densmd.py:1148-1150 | The source's last centre is the centre of the last voxel but one |
| Region.MeshGrid | run_densmd.py:1147-1152 | `np.meshgrid(..., indexing='ij')` puts `(xs[i], ys[j], zs[k])` at `[i][j][k]` |
| Region.GridCoordinates | run_densmd.py:1133-1152 | The voxel-centre grid has the ROI's shape. Its entries are stated by `Region.GridCoordinatesAt` |
| Region.GridCoordinatesAt | run_densmd.py:1133-1152 | The voxel centre at `[i][j][k]` is `roi_min + (index + 0.5) * spacing` on each axis |
| Region.RegionOf | run_densmd.py:1268-1272 | `sub_data` has the ROI's shape and holds the histogram's voxels shifted by the ROI minimum |
| Region.Filter | run_densmd.py:1328 | Boolean indexing keeps exactly the points that pass |
| Region.InRoi | run_densmd.py:1323-1328 | A point is kept if and only if it lies in the closed box |
| Region.ShrinkingRoiKeepsFewer | run_densmd.py:1119-1129 | A smaller ROI never keeps more averaged positions |
| Miller.NormPositive | run_densmd.py:1178-1179 | The norm is positive exactly when `(h, k, l)` is not zero |
| Miller.UnitAfterScaling | run_densmd.py:1179 | `(h, k, l) / norm` is a unit vector |
| Miller.GetMillerParameters | run_densmd.py:1154-1181 | The parameters carry the controls; a normal exists exactly when slicing is on and `(h, k, l)` is non-zero, and it is a unit vector in the direction of `(h, k, l)` |
| Miller.ZeroIndicesDisableSlicing | run_densmd.py:1177-1179 | `h = k = l = 0` gives no normal, no mask and no point filtering |
| Miller.MillerMask | run_densmd.py:1228-1250 | No mask unless slicing is in effect; otherwise a mask of the grid's shape that is true exactly at the voxel centres inside the slab |
| Miller.SlabPoints | run_densmd.py:1331-1336 | With slicing off, all points; otherwise exactly the points inside the slab |
| Miller.InSlab | run_densmd.py:1248-1250 | The slab test `abs((x - c) . n - offset) < thickness / 2`: a kept point needs a positive thickness, and a point on the offset plane is kept exactly when the thickness is positive |
| Miller.MaskAgreesWithPointFilter | run_densmd.py:1248-1250 | A voxel centre is in the mask if and only if the point filter keeps it: both sites use one slab test |
| Miller.ThickerSlabKeepsMore | run_densmd.py:1250 | A thicker slab keeps every point a thinner one keeps |
| Miller.ThickerSlabKeepsMorePoints | run_densmd.py:1336 | Raising the thickness never drops a kept averaged position |
| Miller.FlippedNormal | run_densmd.py:1248 | Negating the normal and the offset selects the same slab |
| Miller.SlabAcrossX | run_densmd.py:1177-1179 | `(1 0 0)` with thickness 2 and offset 0 keeps exactly the points with `abs(x - centre.x) < 1` |
| Miller.SamplePointInRoi | run_densmd.py:1205-1209 | Every scaled random sample lies in the ROI's physical box |
| Miller.SamplePoints | run_densmd.py:1205-1209 | One scaled point per random sample |
| Miller.FocalPoint | run_densmd.py:1199-1226 | With slicing in effect and some sample inside the slab, the focal point is the mean of those samples; otherwise it is the ROI's midpoint |
| Miller.FocalPointInRoi | run_densmd.py:1199-1226 | Whichever branch is taken, the focal point lies in the ROI's physical box |
| Transfer.ApplyMask | run_densmd.py:1275 | `np.where(mask, sub, 0)`: masked-out voxels become 0, the others keep their value; no mask changes nothing |
| Transfer.FieldMin | run_densmd.py:959 | `image.min()`: below every voxel and attained |
| Transfer.FieldMax | run_densmd.py:959 | `image.max()`: above every voxel and attained |
| Transfer.RescaleInUnit | run_densmd.py:962 | `(v - min) / (max - min)` lies in `[0, 1]` |
| Transfer.NormaliseGamma | run_densmd.py:959-964 | A flat field (`isclose(max, min)`) becomes all zeros; otherwise each voxel becomes `gamma((v - min) / (max - min))` |
| Transfer.NormalisedInUnit | run_densmd.py:959-964 | With a curve that maps `[0, 1]` into itself, normalised values lie in `[0, 1]` |
| Transfer.NormalisedExtremes | run_densmd.py:959-964 | Unless the field is flat, a minimal voxel goes to `gamma(0)` and a maximal one to `gamma(1)` |
| Transfer.MaskedVoxelIsDarkest | run_densmd.py:1275-1278 | On a non-negative field a masked voxel normalises to the darkest value |
| Transfer.Clip | run_densmd.py:1281 | `np.clip(x, 0, 1)` lies in `[0, 1]` and fixes the values already there |
| Transfer.Threshold | run_densmd.py:1279-1281 | Inverted sliders give 0; the result is in `[0, 1]`; it is NaN exactly when the sliders are equal and the value is at them |
| Transfer.ThresholdMonotone | run_densmd.py:1281 | For `lower < upper` the threshold is monotone in the value |
| Transfer.ThresholdEnds | run_densmd.py:1281 | For `lower < upper` values at or below the lower slider give 0 and at or above the upper slider give 1 |
| Transfer.ThresholdStep | run_densmd.py:1281 | Equal sliders give a step: 0 below, 1 above |
| Transfer.ThresholdField | run_densmd.py:1281 | The threshold is applied voxel by voxel |
| Transfer.DensityVolume | run_densmd.py:1275-1281 | The shown volume has the sub-array's shape. Its voxels are stated by `Transfer.VolumeVoxel` and `Transfer.DensityVolumeAt` |
| Transfer.VolumeVoxel | run_densmd.py:1275-1281 | A voxel of the shown volume is the threshold of the normalised masked voxel |
| Transfer.DensityVolumeAt | run_densmd.py:1275-1281 | Every shown voxel lies in `[0, 1]` or is NaN; inverted sliders show 0; NaN needs equal sliders |
| Transfer.MaskedVoxelTransparent | run_densmd.py:1275-1281 | With ordered sliders and `gamma(0) = 0`, a voxel the slab removes is shown as 0 |
| Transfer.PeakVoxelOpaque | run_densmd.py:1278-1281 | Without a mask, a peak voxel of a non-flat field is shown as 1 |

## Left out

- The Qt window, the widgets and their labels, signal wiring, `cleanup`, and visibility toggling are presentation only.
- `schedule_update` and the QTimer debounce and rotation timers are event-loop timing. An update is one call of `UpdateVisualisation`.
- Reading the trajectory (`pickle.load`, `ase.io.read`) happens in foreign readers, and the frames arrive already selected by the slice. The model checks the slice specification. It also rejects a zero step, as the list slice `self.frames[frames_slice]` at run_densmd.py:841 does with `ValueError: slice step cannot be zero`. Which frames a non-zero slice selects, and what `ase.io.read` would do with a zero step, are not modelled.
- `print` and `tqdm` are console output.
- The Gaussian filter is the parameter `smooth`, assumed only to keep the grid's shape.
- `sqrt` is the parameter `norm`, and the gamma power is the parameter `gamma`. Both are transcendental floating-point operations.
- `np.random.random` is nondeterministic. The samples are a parameter, and the model proves the focal point lies in the ROI for any samples in `[0, 1]^3`.
- Floating-point rounding, overflow and NaN propagation are not modelled. The one NaN the data path produces, at equal density sliders, is modelled as `None`.
- PyVista and VTK are rendering code and are not modelled. This covers volume and mesh building, the opacity transfer function, colour maps and every camera method. The model stops at the numbers handed to them.
- A cell with a zero-length axis gives zero spacing and a division by zero in the source. `PrecomputeRegionData` and `UpdateVisualisation` require a positive spacing.
- Visualiser.DensityVisualiser.PrecomputeRegionData: departs from the code in two places, following its stated intent (see "## Findings"). The voxel centres behind the slab mask are `roi_min + (k + 0.5) * spacing`, not the points of the `linspace` at run_densmd.py:1148-1150, so on an axis of two or more voxels the mask can differ from the program's. The cached mask is reused when the scalar controls and the ROI are unchanged, where the comparison at run_densmd.py:1083 raises `ValueError` once a normal exists. `UpdateVisualisation` inherits both departures.
- Visualiser.DensityVisualiser.UpdateVisualisation: states the shown volume through `Render`. The volume's properties (in `[0, 1]`, masked voxels transparent, peak voxels opaque) are proved on `Transfer.DensityVolume` over any sub-array, not restated for the rendered scene.
- SliceSpec.ParseParts: Python's `int` also accepts non-ASCII Unicode digits and whitespace. The model accepts ASCII digits, underscores between digits, a sign and ASCII whitespace only.

## Findings

| source | as written | input that shows it | evidently intended | confidence | as-written member | corrected member |
|---|---|---|---|---|---|---|
| run_densmd.py:1148-1150 | The voxel centres are `linspace(roi_min + s/2, roi_max - s/2, dims)`. `roi_max` is the minimum corner of the last voxel, so `dims` centres are squeezed into a span one voxel too short. | An axis with `imin = 0`, `imax = 1` and spacing 1 gives centres `[0.5, 0.5]`. Both voxels get the same centre, so the slab mask tests one point twice. | The centre of voxel `k` is `roi_min + (k + 0.5) * s`, on the global grid of centres. | high (not executed) | Region.AsWrittenCentresCollide | Region.AxisCentresInsideVoxels |
| run_densmd.py:1083 | `self._cached_miller_params != miller_params` compares two dicts whose `'n'` entries are separate numpy arrays. | Slicing on, `(h, k, l) = (1, 0, 0)`, and a second update with unchanged controls. Every scalar entry is equal, so the comparison reaches the arrays. Their element-wise result has no truth value, so the update raises `ValueError` instead of reusing the mask. | The mask is reused when the scalar controls and the ROI are unchanged, and recomputed otherwise. | high (not executed) | Visualiser.CacheHitRaisesAsWritten | Visualiser.DensityVisualiser.PrecomputeRegionData |
