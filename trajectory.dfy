/**
 * Per-species trajectory extraction (`_process_frames`): from the stacked
 * frames x atoms position tensor and each species' index list, the positions
 * of all frames flattened row-major, and the mean position of each atom.
 */
module Trajectory {
  import opened Vec

  /** `positions_array`: one row of atom positions per frame. */
  type Tensor = seq<seq<Vec3>>

  /** Every frame has `atoms` positions (what `np.stack` needs). */
  predicate Rectangular(pos: Tensor, atoms: nat)
  {
    forall f :: 0 <= f < |pos| ==> |pos[f]| == atoms
  }

  predicate IndicesBelow(idx: seq<nat>, atoms: nat)
  {
    forall j :: 0 <= j < |idx| ==> idx[j] < atoms
  }

  /** `frame[indices]`. */
  function Pick(frame: seq<Vec3>, idx: seq<nat>): (r: seq<Vec3>)
    requires IndicesBelow(idx, |frame|)
    ensures |r| == |idx| && forall j :: 0 <= j < |idx| ==> r[j] == frame[idx[j]]
  {
    seq(|idx|, j requires 0 <= j < |idx| => frame[idx[j]])
  }

  /** `positions_array[:, indices, :].reshape(-1, 3)`. */
  function GlobalPositions(pos: Tensor, idx: seq<nat>, atoms: nat): (r: seq<Vec3>)
    requires Rectangular(pos, atoms) && IndicesBelow(idx, atoms)
  {
    if |pos| == 0 then []
    else GlobalPositions(pos[..|pos| - 1], idx, atoms) + Pick(pos[|pos| - 1], idx)
  }

  lemma {:induction false} GlobalPositionsLength(pos: Tensor, idx: seq<nat>, atoms: nat)
    requires Rectangular(pos, atoms) && IndicesBelow(idx, atoms)
    ensures |GlobalPositions(pos, idx, atoms)| == |pos| * |idx|
  {
    if |pos| > 0 {
      GlobalPositionsLength(pos[..|pos| - 1], idx, atoms);
      assert (|pos| - 1) * |idx| + |idx| == |pos| * |idx|;
    }
  }

  lemma RowOffsets(f: nat, frames: nat, n: nat, j: nat)
    requires f < frames && j < n
    ensures f * n + j < frames * n
    ensures f < frames - 1 ==> f * n + j < (frames - 1) * n
    ensures f == frames - 1 ==> f * n + j - (frames - 1) * n == j
  {
    assert f * n + j < f * n + n == (f + 1) * n;
    if f < frames - 1 {
      assert (f + 1) * n <= (frames - 1) * n;
    }
    assert (f + 1) * n <= frames * n;
  }

  /** Row `f * n + j` of the flattened positions is atom `indices[j]` in frame `f`. */
  lemma {:induction false} GlobalPositionsAt(pos: Tensor, idx: seq<nat>, atoms: nat, f: nat, j: nat)
    requires Rectangular(pos, atoms) && IndicesBelow(idx, atoms)
    requires f < |pos| && j < |idx|
    ensures |GlobalPositions(pos, idx, atoms)| == |pos| * |idx|
    ensures f * |idx| + j < |pos| * |idx|
    ensures GlobalPositions(pos, idx, atoms)[f * |idx| + j] == pos[f][idx[j]]
  {
    var n, last := |idx|, |pos| - 1;
    GlobalPositionsLength(pos, idx, atoms);
    GlobalPositionsLength(pos[..last], idx, atoms);
    RowOffsets(f, |pos|, n, j);
    if f < last {
      GlobalPositionsAt(pos[..last], idx, atoms, f, j);
    }
  }

  /** The positions of atom `a` over all frames. */
  function Track(pos: Tensor, atoms: nat, a: nat): (r: seq<Vec3>)
    requires Rectangular(pos, atoms) && a < atoms
    ensures |r| == |pos| && forall f :: 0 <= f < |pos| ==> r[f] == pos[f][a]
  {
    seq(|pos|, f requires 0 <= f < |pos| => pos[f][a])
  }

  /** `np.mean(positions_array[:, indices, :], axis=0)`. */
  function IndividualAverages(pos: Tensor, idx: seq<nat>, atoms: nat): (r: seq<Vec3>)
    requires |pos| > 0 && Rectangular(pos, atoms) && IndicesBelow(idx, atoms)
    ensures |r| == |idx|
    ensures forall j :: 0 <= j < |idx| ==> r[j] == Mean(Track(pos, atoms, idx[j]))
  {
    seq(|idx|, j requires 0 <= j < |idx| => Mean(Track(pos, atoms, idx[j])))
  }

  /** An atom that stays in a box on every frame has its average in that box. */
  lemma AverageStaysInBox(pos: Tensor, idx: seq<nat>, atoms: nat, j: nat, lo: Vec3, hi: Vec3)
    requires |pos| > 0 && Rectangular(pos, atoms) && IndicesBelow(idx, atoms) && j < |idx|
    requires forall f :: 0 <= f < |pos| ==> InBox(pos[f][idx[j]], lo, hi)
    ensures InBox(IndividualAverages(pos, idx, atoms)[j], lo, hi)
  {
    MeanInBox(Track(pos, atoms, idx[j]), lo, hi);
  }

  /** An atom that never moves is averaged to where it sits. */
  lemma AverageOfStillAtom(pos: Tensor, idx: seq<nat>, atoms: nat, j: nat, p: Vec3)
    requires |pos| > 0 && Rectangular(pos, atoms) && IndicesBelow(idx, atoms) && j < |idx|
    requires forall f :: 0 <= f < |pos| ==> pos[f][idx[j]] == p
    ensures IndividualAverages(pos, idx, atoms)[j] == p
  {
    var t := Track(pos, atoms, idx[j]);
    assert forall f :: 0 <= f < |t| ==> InBox(t[f], p, p);
    MeanInBox(t, p, p);
  }

  /** What `_process_frames` stores per species. */
  datatype SpeciesTrajectory = SpeciesTrajectory(globalPositions: seq<Vec3>, individualAverages: seq<Vec3>)

  function Extract(pos: Tensor, idx: seq<nat>, atoms: nat): (t: SpeciesTrajectory)
    requires |pos| > 0 && Rectangular(pos, atoms) && IndicesBelow(idx, atoms)
    ensures |t.individualAverages| == |idx|
    ensures forall j :: 0 <= j < |idx| ==> t.individualAverages[j] == Mean(Track(pos, atoms, idx[j]))
  {
    SpeciesTrajectory(GlobalPositions(pos, idx, atoms), IndividualAverages(pos, idx, atoms))
  }

  /**
   * `_process_frames`: one entry per species of `indicesMap`, visited in the
   * order of `species` (the insertion order of the dictionary).
   */
  method ProcessFrames(pos: Tensor, atoms: nat, indicesMap: map<string, seq<nat>>, species: seq<string>)
    returns (results: map<string, SpeciesTrajectory>)
    requires |pos| > 0 && Rectangular(pos, atoms)
    requires forall t :: t in indicesMap ==> IndicesBelow(indicesMap[t], atoms)
    requires forall t :: t in species <==> t in indicesMap
    ensures results.Keys == indicesMap.Keys
    ensures forall t :: t in results ==> results[t] == Extract(pos, indicesMap[t], atoms)
  {
    results := map[];
    for i := 0 to |species|
      invariant forall t :: t in results <==> t in species[..i]
      invariant forall t :: t in results ==> t in indicesMap && results[t] == Extract(pos, indicesMap[t], atoms)
    {
      var atype := species[i];
      var indices := indicesMap[atype];
      var trajectories := Extract(pos, indices, atoms);
      results := results[atype := trajectories];
      assert species[..i + 1] == species[..i] + [atype];
    }
    assert species[..|species|] == species;
  }
}
