/**
 * Three-dimensional numpy arrays as nested sequences indexed `[i][j][k]`
 * (x, y, z), with the whole-array operations the density pipeline uses:
 * shape, `ravel`, sums of counts, `min`/`max`, `np.sort`, element-wise maps
 * and the `[x0:x1+1, y0:y1+1, z0:z1+1]` sub-array.
 */
module Field {

  type Field3<T> = seq<seq<seq<T>>>

  predicate Shaped<T>(f: Field3<T>, dx: nat, dy: nat, dz: nat)
  {
    |f| == dx && forall i :: 0 <= i < dx ==>
      |f[i]| == dy && forall j :: 0 <= j < dy ==> |f[i][j]| == dz
  }

  /** Every element of a d-shaped array is at least 0. */
  predicate NonNegative(f: Field3<real>, dx: nat, dy: nat, dz: nat)
    requires Shaped(f, dx, dy, dz)
  {
    forall i, j, k :: 0 <= i < dx && 0 <= j < dy && 0 <= k < dz ==> f[i][j][k] >= 0.0
  }

  /** An array of the given shape with every element `v` (`np.zeros`, `np.full`). */
  function Fill<T>(dx: nat, dy: nat, dz: nat, v: T): (f: Field3<T>)
    ensures Shaped(f, dx, dy, dz)
    ensures forall i, j, k :: 0 <= i < dx && 0 <= j < dy && 0 <= k < dz ==> f[i][j][k] == v
  {
    seq(dx, i => FillPlane(dy, dz, v))
  }

  function FillPlane<T>(dy: nat, dz: nat, v: T): (p: seq<seq<T>>)
    ensures |p| == dy && forall j :: 0 <= j < dy ==> p[j] == FillRow(dz, v)
  {
    seq(dy, j => FillRow(dz, v))
  }

  function FillRow<T>(dz: nat, v: T): (r: seq<T>)
    ensures |r| == dz && forall k :: 0 <= k < dz ==> r[k] == v
  {
    seq(dz, k => v)
  }

  /** Element-wise application of `g`. */
  function Map3<T, U>(f: Field3<T>, g: T -> U): (r: Field3<U>)
    ensures |r| == |f|
    ensures forall i :: 0 <= i < |f| ==> |r[i]| == |f[i]| && forall j :: 0 <= j < |f[i]| ==>
      |r[i][j]| == |f[i][j]| && forall k :: 0 <= k < |f[i][j]| ==> r[i][j][k] == g(f[i][j][k])
  {
    seq(|f|, i requires 0 <= i < |f| =>
      seq(|f[i]|, j requires 0 <= j < |f[i]| =>
        seq(|f[i][j]|, k requires 0 <= k < |f[i][j]| => g(f[i][j][k]))))
  }

  /** `f[x0:x1+1, y0:y1+1, z0:z1+1]`. */
  function SubArray<T>(f: Field3<T>, dx: nat, dy: nat, dz: nat,
                       x0: nat, x1: nat, y0: nat, y1: nat, z0: nat, z1: nat): (r: Field3<T>)
    requires Shaped(f, dx, dy, dz)
    requires x0 <= x1 < dx && y0 <= y1 < dy && z0 <= z1 < dz
    ensures Shaped(r, x1 - x0 + 1, y1 - y0 + 1, z1 - z0 + 1)
    ensures forall i, j, k :: 0 <= i <= x1 - x0 && 0 <= j <= y1 - y0 && 0 <= k <= z1 - z0 ==>
      r[i][j][k] == f[x0 + i][y0 + j][z0 + k]
  {
    seq(x1 - x0 + 1, i requires 0 <= i <= x1 - x0 =>
      seq(y1 - y0 + 1, j requires 0 <= j <= y1 - y0 =>
        seq(z1 - z0 + 1, k requires 0 <= k <= z1 - z0 => f[x0 + i][y0 + j][z0 + k])))
  }

  // ---------------------------------------------------------------------
  // ravel (C order)
  // ---------------------------------------------------------------------

  function Concat<T>(s: seq<seq<T>>): seq<T>
  {
    if |s| == 0 then [] else Concat(s[..|s| - 1]) + s[|s| - 1]
  }

  function Flatten<T>(f: Field3<T>): seq<T>
  {
    Concat(seq(|f|, i requires 0 <= i < |f| => Concat(f[i])))
  }

  lemma {:induction false} ConcatContains<T>(s: seq<seq<T>>, x: T)
    ensures x in Concat(s) <==> exists i, k :: 0 <= i < |s| && 0 <= k < |s[i]| && s[i][k] == x
  {
    if |s| > 0 {
      var n := |s| - 1;
      ConcatContains(s[..n], x);
      if x in Concat(s) && x !in Concat(s[..n]) {
        var k :| 0 <= k < |s[n]| && s[n][k] == x;
        assert s[n][k] == x;
      }
      if exists i, k :: 0 <= i < |s| && 0 <= k < |s[i]| && s[i][k] == x {
        var i, k :| 0 <= i < |s| && 0 <= k < |s[i]| && s[i][k] == x;
        if i < n {
          assert s[..n][i][k] == x;
        } else {
          assert x in s[n];
        }
      }
    }
  }

  /** `ravel` keeps exactly the elements of the array. */
  lemma FlattenContains<T>(f: Field3<T>, x: T)
    ensures x in Flatten(f) <==>
      exists i, j, k :: 0 <= i < |f| && 0 <= j < |f[i]| && 0 <= k < |f[i][j]| && f[i][j][k] == x
  {
    var rows := seq(|f|, i requires 0 <= i < |f| => Concat(f[i]));
    ConcatContains(rows, x);
    forall i | 0 <= i < |f| ensures x in rows[i] <==>
      exists j, k :: 0 <= j < |f[i]| && 0 <= k < |f[i][j]| && f[i][j][k] == x
    {
      ConcatContains(f[i], x);
    }
    if x in Flatten(f) {
      var i, m :| 0 <= i < |rows| && 0 <= m < |rows[i]| && rows[i][m] == x;
      assert x in rows[i];
    }
    if exists i, j, k :: 0 <= i < |f| && 0 <= j < |f[i]| && 0 <= k < |f[i][j]| && f[i][j][k] == x {
      var i, j, k :| 0 <= i < |f| && 0 <= j < |f[i]| && 0 <= k < |f[i][j]| && f[i][j][k] == x;
      assert x in rows[i];
      var m :| 0 <= m < |rows[i]| && rows[i][m] == x;
    }
  }

  lemma {:induction false} ConcatLength<T>(s: seq<seq<T>>, w: nat)
    requires forall i :: 0 <= i < |s| ==> |s[i]| == w
    ensures |Concat(s)| == |s| * w
  {
    if |s| > 0 {
      ConcatLength(s[..|s| - 1], w);
      assert (|s| - 1) * w + w == |s| * w;
    }
  }

  /** `ravel` of a dx x dy x dz array has dx * dy * dz elements. */
  lemma FlattenLength<T>(f: Field3<T>, dx: nat, dy: nat, dz: nat)
    requires Shaped(f, dx, dy, dz)
    ensures |Flatten(f)| == dx * dy * dz
  {
    var rows := seq(|f|, i requires 0 <= i < |f| => Concat(f[i]));
    forall i | 0 <= i < |f| ensures |rows[i]| == dy * dz {
      ConcatLength(f[i], dz);
    }
    ConcatLength(rows, dy * dz);
    assert dx * (dy * dz) == dx * dy * dz;
  }

  // ---------------------------------------------------------------------
  // Sums of counts
  // ---------------------------------------------------------------------

  function Sum1(s: seq<nat>): nat
  {
    if |s| == 0 then 0 else Sum1(s[..|s| - 1]) + s[|s| - 1]
  }

  function Sum2(s: seq<seq<nat>>): nat
  {
    if |s| == 0 then 0 else Sum2(s[..|s| - 1]) + Sum1(s[|s| - 1])
  }

  function Sum3(s: Field3<nat>): nat
  {
    if |s| == 0 then 0 else Sum3(s[..|s| - 1]) + Sum2(s[|s| - 1])
  }

  lemma {:induction false} Sum1Update(s: seq<nat>, i: nat, v: nat)
    requires i < |s|
    ensures Sum1(s[i := v]) + s[i] == Sum1(s) + v
  {
    var n := |s| - 1;
    if i < n {
      assert s[i := v][..n] == s[..n][i := v];
      Sum1Update(s[..n], i, v);
    } else {
      assert s[i := v][..n] == s[..n];
    }
  }

  lemma {:induction false} Sum2Update(s: seq<seq<nat>>, i: nat, v: seq<nat>)
    requires i < |s|
    ensures Sum2(s[i := v]) + Sum1(s[i]) == Sum2(s) + Sum1(v)
  {
    var n := |s| - 1;
    if i < n {
      assert s[i := v][..n] == s[..n][i := v];
      Sum2Update(s[..n], i, v);
    } else {
      assert s[i := v][..n] == s[..n];
    }
  }

  lemma {:induction false} Sum3Update(s: Field3<nat>, i: nat, v: seq<seq<nat>>)
    requires i < |s|
    ensures Sum3(s[i := v]) + Sum2(s[i]) == Sum3(s) + Sum2(v)
  {
    var n := |s| - 1;
    if i < n {
      assert s[i := v][..n] == s[..n][i := v];
      Sum3Update(s[..n], i, v);
    } else {
      assert s[i := v][..n] == s[..n];
    }
  }

  /** Add one to the count at `[i][j][k]`. */
  function Bump(h: Field3<nat>, i: nat, j: nat, k: nat): (r: Field3<nat>)
    requires i < |h| && j < |h[i]| && k < |h[i][j]|
    ensures Sum3(r) == Sum3(h) + 1
    ensures |r| == |h|
    ensures forall a :: 0 <= a < |h| ==> |r[a]| == |h[a]|
    ensures forall a, b :: 0 <= a < |h| && 0 <= b < |h[a]| ==> |r[a][b]| == |h[a][b]|
    ensures forall a, b, c :: 0 <= a < |h| && 0 <= b < |h[a]| && 0 <= c < |h[a][b]| ==>
      r[a][b][c] == if a == i && b == j && c == k then h[a][b][c] + 1 else h[a][b][c]
  {
    var row := h[i][j][k := h[i][j][k] + 1];
    var plane := h[i][j := row];
    Sum1Update(h[i][j], k, h[i][j][k] + 1);
    Sum2Update(h[i], j, row);
    Sum3Update(h, i, plane);
    h[i := plane]
  }

  lemma {:induction false} Sum1Zero(n: nat)
    ensures Sum1(FillRow<nat>(n, 0)) == 0
  {
    if n > 0 {
      var r := FillRow<nat>(n, 0);
      assert r[..n - 1] == FillRow<nat>(n - 1, 0);
      Sum1Zero(n - 1);
      assert Sum1(r) == Sum1(r[..n - 1]) + r[n - 1];
    }
  }

  lemma {:induction false} Sum2Zero(m: nat, n: nat)
    ensures Sum2(FillPlane<nat>(m, n, 0)) == 0
  {
    if m > 0 {
      var p := FillPlane<nat>(m, n, 0);
      assert p[..m - 1] == FillPlane<nat>(m - 1, n, 0);
      Sum2Zero(m - 1, n);
      Sum1Zero(n);
      assert Sum2(p) == Sum2(p[..m - 1]) + Sum1(p[m - 1]);
    }
  }

  lemma {:induction false} Sum3Zero(l: nat, m: nat, n: nat)
    ensures Sum3(Fill<nat>(l, m, n, 0)) == 0
  {
    if l > 0 {
      var f := Fill<nat>(l, m, n, 0);
      assert f[..l - 1] == Fill<nat>(l - 1, m, n, 0);
      assert f[l - 1] == FillPlane<nat>(m, n, 0);
      Sum3Zero(l - 1, m, n);
      Sum2Zero(m, n);
      assert Sum3(f) == Sum3(f[..l - 1]) + Sum2(f[l - 1]);
    }
  }

  // ---------------------------------------------------------------------
  // min / max of a non-empty sequence of reals
  // ---------------------------------------------------------------------

  function SeqMin(s: seq<real>): (r: real)
    requires |s| > 0
    ensures r in s && forall i :: 0 <= i < |s| ==> r <= s[i]
  {
    if |s| == 1 then s[0]
    else
      var m := SeqMin(s[..|s| - 1]);
      assert forall i :: 0 <= i < |s| - 1 ==> s[..|s| - 1][i] == s[i];
      if s[|s| - 1] < m then s[|s| - 1] else m
  }

  function SeqMax(s: seq<real>): (r: real)
    requires |s| > 0
    ensures r in s && forall i :: 0 <= i < |s| ==> s[i] <= r
  {
    if |s| == 1 then s[0]
    else
      var m := SeqMax(s[..|s| - 1]);
      assert forall i :: 0 <= i < |s| - 1 ==> s[..|s| - 1][i] == s[i];
      if s[|s| - 1] > m then s[|s| - 1] else m
  }

  // ---------------------------------------------------------------------
  // np.sort
  // ---------------------------------------------------------------------

  predicate Ascending(s: seq<real>)
  {
    forall i, j :: 0 <= i < j < |s| ==> s[i] <= s[j]
  }

  function InsertAscending(s: seq<real>, x: real): (r: seq<real>)
    requires Ascending(s)
    ensures Ascending(r) && multiset(r) == multiset(s) + multiset{x}
  {
    if |s| == 0 then [x]
    else if x <= s[0] then [x] + s
    else
      var rest := InsertAscending(s[1..], x);
      assert s == [s[0]] + s[1..];
      LowerBoundKept(s[1..], x, rest, s[0]);
      [s[0]] + rest
  }

  lemma LowerBoundKept(s: seq<real>, x: real, r: seq<real>, b: real)
    requires multiset(r) == multiset(s) + multiset{x}
    requires b <= x && forall i :: 0 <= i < |s| ==> b <= s[i]
    ensures forall j :: 0 <= j < |r| ==> b <= r[j]
  {
    forall j | 0 <= j < |r| ensures b <= r[j] {
      assert r[j] in multiset(r);
      assert r[j] in multiset(s) || r[j] == x;
    }
  }

  /** `np.sort`: ascending, and a permutation of the input. */
  function Sort(s: seq<real>): (r: seq<real>)
    ensures Ascending(r) && multiset(r) == multiset(s)
  {
    if |s| == 0 then []
    else
      assert s == s[..|s| - 1] + [s[|s| - 1]];
      InsertAscending(Sort(s[..|s| - 1]), s[|s| - 1])
  }

  /** A sorted permutation starts at the minimum and ends at the maximum. */
  lemma SortedEnds(s: seq<real>, r: seq<real>)
    requires |s| > 0 && Ascending(r) && multiset(r) == multiset(s)
    ensures |r| == |s| && r[0] == SeqMin(s) && r[|r| - 1] == SeqMax(s)
  {
    assert |r| == |s| by { assert |multiset(r)| == |multiset(s)|; }
    var lo, hi := SeqMin(s), SeqMax(s);
    assert r[0] in multiset(s) && r[|r| - 1] in multiset(s);
    assert r[0] in s && r[|r| - 1] in s;
    assert lo in multiset(r) && hi in multiset(r);
    var a :| 0 <= a < |r| && r[a] == lo;
    var b :| 0 <= b < |r| && r[b] == hi;
    assert r[0] <= r[a] && r[b] <= r[|r| - 1];
  }
}
