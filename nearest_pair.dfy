/**
 * `_get_min_indices`: the pair of groups to merge next.
 *
 * The source overwrites the diagonal of the distance matrix with +inf in place
 * (`np.fill_diagonal`), takes the overall minimum, forms the boolean matrix
 * "entry == minimum", multiplies it by the vector of column labels (so each
 * row yields the SUM of the labels of its matching columns), drops the rows
 * whose sum is 0 and returns the first remaining row's label with its sum.
 * Entries are extended reals so that +inf can be written into the matrix.
 */
module NearestPair {
  import opened Wrappers
  import opened Extended

  /** An n-by-n grid of entries. */
  predicate IsSquare(g: seq<seq<Ext>>, n: nat) {
    |g| == n && forall i :: 0 <= i < n ==> |g[i]| == n
  }

  predicate IsSymmetric(g: seq<seq<Ext>>)
    requires IsSquare(g, |g|)
  {
    forall i, j :: 0 <= i < |g| && 0 <= j < |g| ==> g[i][j] == g[j][i]
  }

  /** What `fill_diagonal` leaves behind: +inf on the diagonal and a real everywhere else. */
  predicate IsMasked(g: seq<seq<Ext>>)
    requires IsSquare(g, |g|)
  {
    forall i, j :: 0 <= i < |g| && 0 <= j < |g| ==> (g[i][j].Inf? <==> i == j)
  }

  /** Column labels that are distinct, ascending and nonnegative, as the merge loop keeps them. */
  predicate IsAscending(labels: seq<int>) {
    (forall i :: 0 <= i < |labels| ==> 0 <= labels[i]) &&
    (forall i, j :: 0 <= i < j < |labels| ==> labels[i] < labels[j])
  }

  /** The contents of a two-dimensional array, row by row. */
  function Grid(m: array2<Ext>): (g: seq<seq<Ext>>)
    reads m
    ensures |g| == m.Length0 && forall i :: 0 <= i < m.Length0 ==> |g[i]| == m.Length1
    ensures forall i, j :: 0 <= i < m.Length0 && 0 <= j < m.Length1 ==> g[i][j] == m[i, j]
  {
    seq(m.Length0, i requires 0 <= i < m.Length0 reads m =>
      seq(m.Length1, j requires 0 <= j < m.Length1 reads m => m[i, j]))
  }

  /** `np.fill_diagonal(distances.values, math.inf)`: the diagonal becomes +inf, nothing else changes. */
  method FillDiagonal(m: array2<Ext>)
    requires m.Length0 == m.Length1
    modifies m
    ensures forall i, j :: 0 <= i < m.Length0 && 0 <= j < m.Length1 ==>
              m[i, j] == if i == j then Inf else old(m[i, j])
  {
    for k := 0 to m.Length0
      invariant forall i, j :: 0 <= i < m.Length0 && 0 <= j < m.Length1 ==>
                  m[i, j] == if i == j && i < k then Inf else old(m[i, j])
    {
      m[k, k] := Inf;
    }
  }

  /** The smallest entry of a row (+inf for an empty row). */
  function RowMin(row: seq<Ext>): (m: Ext)
    ensures forall j :: 0 <= j < |row| ==> Le(m, row[j])
    ensures |row| > 0 ==> m in row
  {
    if |row| == 0 then Inf else Min(row[0], RowMin(row[1..]))
  }

  /** `distances.min().min()`: the smallest entry of the whole grid. */
  function GridMin(g: seq<seq<Ext>>): (m: Ext)
    ensures forall i, j :: 0 <= i < |g| && 0 <= j < |g[i]| ==> Le(m, g[i][j])
  {
    if |g| == 0 then Inf
    else
      var rest := GridMin(g[1..]);
      assert forall i :: 1 <= i < |g| ==> g[i] == g[1..][i - 1];
      Min(RowMin(g[0]), rest)
  }

  /** The minimum of a grid without empty rows is one of its entries. */
  lemma {:induction false} GridMinAttained(g: seq<seq<Ext>>)
    requires |g| > 0 && forall i :: 0 <= i < |g| ==> |g[i]| > 0
    ensures exists i, j :: 0 <= i < |g| && 0 <= j < |g[i]| && g[i][j] == GridMin(g)
  {
    if |g| == 1 || GridMin(g) == RowMin(g[0]) {
      if |g| == 1 {
        assert GridMin(g[1..]) == Inf;
      }
      var j :| 0 <= j < |g[0]| && g[0][j] == RowMin(g[0]);
      assert g[0][j] == GridMin(g);
    } else {
      GridMinAttained(g[1..]);
      var i, j :| 0 <= i < |g[1..]| && 0 <= j < |g[1..][i]| && g[1..][i][j] == GridMin(g[1..]);
      assert g[i + 1][j] == GridMin(g);
    }
  }

  /** One row of `(distances == min_distance).dot(distances.columns)`. */
  function RowLabelSum(row: seq<Ext>, labels: seq<int>, m: Ext): int
    requires |row| == |labels|
  {
    if |row| == 0 then 0
    else (if row[0] == m then labels[0] else 0) + RowLabelSum(row[1..], labels[1..], m)
  }

  /** The position of the first row at or after `p` whose label sum is not 0 (`min_indices[min_indices != 0]`). */
  function FirstHit(g: seq<seq<Ext>>, labels: seq<int>, m: Ext, p: nat): (r: Option<nat>)
    requires IsSquare(g, |labels|) && p <= |g|
    ensures r.Some? ==> p <= r.value < |g| && RowLabelSum(g[r.value], labels, m) != 0
    ensures r.Some? ==> forall q :: p <= q < r.value ==> RowLabelSum(g[q], labels, m) == 0
    ensures r.None? ==> forall q :: p <= q < |g| ==> RowLabelSum(g[q], labels, m) == 0
    decreases |g| - p
  {
    if p == |g| then None
    else if RowLabelSum(g[p], labels, m) != 0 then Some(p)
    else FirstHit(g, labels, m, p + 1)
  }

  /**
   * The value `_get_min_indices` returns for a grid whose diagonal has already
   * been masked: the label of the first row with a nonzero label sum, and that
   * sum; `None` where the source's `min_indices.index[0]` raises IndexError.
   */
  function MinIndices(labels: seq<int>, g: seq<seq<Ext>>): Option<(int, int)>
    requires IsSquare(g, |labels|)
  {
    var m := GridMin(g);
    match FirstHit(g, labels, m, 0)
    case None => None
    case Some(p) => Some((labels[p], RowLabelSum(g[p], labels, m)))
  }

  /** `_get_min_indices(distances)` on the array of `distances.values`, which it masks in place. */
  method GetMinIndices(labels: seq<int>, m: array2<Ext>) returns (r: Option<(int, int)>)
    requires m.Length0 == m.Length1 == |labels|
    modifies m
    ensures forall i, j :: 0 <= i < m.Length0 && 0 <= j < m.Length1 ==>
              m[i, j] == if i == j then Inf else old(m[i, j])
    ensures IsSquare(Grid(m), |labels|) && r == MinIndices(labels, Grid(m))
  {
    FillDiagonal(m);
    r := MinIndices(labels, Grid(m));
  }

  // ---- label sums ----

  lemma {:induction false} RowLabelSumNonnegative(row: seq<Ext>, labels: seq<int>, m: Ext)
    requires |row| == |labels| && forall j :: 0 <= j < |labels| ==> 0 <= labels[j]
    ensures 0 <= RowLabelSum(row, labels, m)
  {
    if |row| > 0 {
      RowLabelSumNonnegative(row[1..], labels[1..], m);
    }
  }

  /** With nonnegative labels, a row's sum is at least the label of each column that matches. */
  lemma {:induction false} RowLabelSumAtLeast(row: seq<Ext>, labels: seq<int>, m: Ext, j: nat)
    requires |row| == |labels| && forall k :: 0 <= k < |labels| ==> 0 <= labels[k]
    requires j < |row| && row[j] == m
    ensures labels[j] <= RowLabelSum(row, labels, m)
  {
    if j == 0 {
      RowLabelSumNonnegative(row[1..], labels[1..], m);
    } else {
      RowLabelSumAtLeast(row[1..], labels[1..], m, j - 1);
    }
  }

  /** A nonzero sum needs a matching column. */
  lemma {:induction false} RowLabelSumHit(row: seq<Ext>, labels: seq<int>, m: Ext)
    requires |row| == |labels| && RowLabelSum(row, labels, m) != 0
    ensures exists j :: 0 <= j < |row| && row[j] == m
  {
    if row[0] != m {
      RowLabelSumHit(row[1..], labels[1..], m);
      var j :| 0 <= j < |row[1..]| && row[1..][j] == m;
      assert row[j + 1] == m;
    }
  }

  /** A row whose only matching column is `j` sums to that column's label. */
  lemma {:induction false} RowLabelSumSingle(row: seq<Ext>, labels: seq<int>, m: Ext, j: nat)
    requires |row| == |labels| && j < |row| && row[j] == m
    requires forall k :: 0 <= k < |row| && k != j ==> row[k] != m
    ensures RowLabelSum(row, labels, m) == labels[j]
  {
    if j == 0 {
      RowLabelSumNone(row[1..], labels[1..], m);
    } else {
      RowLabelSumSingle(row[1..], labels[1..], m, j - 1);
    }
  }

  lemma {:induction false} RowLabelSumNone(row: seq<Ext>, labels: seq<int>, m: Ext)
    requires |row| == |labels| && forall k :: 0 <= k < |row| ==> row[k] != m
    ensures RowLabelSum(row, labels, m) == 0
  {
    if |row| > 0 {
      RowLabelSumNone(row[1..], labels[1..], m);
    }
  }

  // ---- properties of the selected pair ----

  /**
   * On a masked symmetric grid with ascending nonnegative labels and at least
   * two rows, a pair is always found, its first component is the label of a row
   * that attains the minimum, and its second component is larger than the
   * first (so the source never merges a group with itself).
   */
  lemma PairIsOrdered(labels: seq<int>, g: seq<seq<Ext>>)
    requires 2 <= |labels| && IsSquare(g, |labels|) && IsMasked(g) && IsSymmetric(g)
    requires IsAscending(labels)
    ensures MinIndices(labels, g).Some?
    ensures var (a, b) := MinIndices(labels, g).value;
      exists p, q :: 0 <= p < q < |labels| && a == labels[p] && g[p][q] == GridMin(g) &&
        labels[q] <= b && a < b
  {
    var n := |labels|;
    var m := GridMin(g);
    GridMinAttained(g);
    var i, j :| 0 <= i < n && 0 <= j < n && g[i][j] == m;
    assert Le(m, g[0][1]);
    assert m.Fin? && i != j;
    RowLabelSumAtLeast(g[i], labels, m, j);
    RowLabelSumAtLeast(g[j], labels, m, i);
    assert 0 < labels[i] || 0 < labels[j];
    assert FirstHit(g, labels, m, 0).Some?;
    var p := FirstHit(g, labels, m, 0).value;
    RowLabelSumHit(g[p], labels, m);
    var q :| 0 <= q < n && g[p][q] == m;
    if q < p {
      RowLabelSumAtLeast(g[q], labels, m, p);
    }
    RowLabelSumAtLeast(g[p], labels, m, q);
  }

  /**
   * When the minimum is attained only at (p, q) and (q, p), with p < q and
   * ascending labels, the result is (labels[p], labels[q]): the smaller label
   * first, and the entry there is the minimum.
   */
  lemma UniqueMinimum(labels: seq<int>, g: seq<seq<Ext>>, p: nat, q: nat)
    requires IsSquare(g, |labels|) && IsAscending(labels) && p < q < |labels|
    requires g[p][q] == g[q][p]
    requires forall i, j :: 0 <= i < |g| && 0 <= j < |g| && !(i == p && j == q) && !(i == q && j == p) ==>
               Le(g[p][q], g[i][j]) && g[i][j] != g[p][q]
    ensures GridMin(g) == g[p][q]
    ensures MinIndices(labels, g) == Some((labels[p], labels[q])) && labels[p] < labels[q]
  {
    var n := |labels|;
    var m := GridMin(g);
    GridMinAttained(g);
    var i, j :| 0 <= i < n && 0 <= j < n && g[i][j] == m;
    if !(i == p && j == q) && !(i == q && j == p) {
      LeAntisymmetric(m, g[p][q]);
    }
    assert m == g[p][q];
    forall r | 0 <= r < p
      ensures RowLabelSum(g[r], labels, m) == 0
    {
      RowLabelSumNone(g[r], labels, m);
    }
    RowLabelSumSingle(g[p], labels, m, q);
    assert 0 <= labels[p] < labels[q];
    FirstHitAt(g, labels, m, 0, p);
  }

  /** The first row at or after `from` with a nonzero label sum is the hit. */
  lemma {:induction false} FirstHitAt(g: seq<seq<Ext>>, labels: seq<int>, m: Ext, from: nat, p: nat)
    requires IsSquare(g, |labels|) && from <= p < |g|
    requires forall r :: from <= r < p ==> RowLabelSum(g[r], labels, m) == 0
    requires RowLabelSum(g[p], labels, m) != 0
    ensures FirstHit(g, labels, m, from) == Some(p)
    decreases p - from
  {
    if from < p {
      FirstHitAt(g, labels, m, from + 1, p);
    }
  }

  /** Masks the diagonal of a grid, as `fill_diagonal` does. */
  function Masked(g: seq<seq<real>>): (r: seq<seq<Ext>>)
    ensures |r| == |g| && forall i :: 0 <= i < |g| ==> |r[i]| == |g[i]|
    ensures forall i, j :: 0 <= i < |g| && 0 <= j < |g[i]| ==> r[i][j] == if i == j then Inf else Fin(g[i][j])
  {
    seq(|g|, i requires 0 <= i < |g| =>
      seq(|g[i]|, j requires 0 <= j < |g[i]| => if i == j then Inf else Fin(g[i][j])))
  }

  // ---- the source's test and its tie rule ----

  function TestDistances(): seq<seq<real>> {
    [[0.0, 0.3, 1.4, 0.1],
     [0.3, 0.0, 0.8, 0.7],
     [1.4, 0.8, 0.0, 1.7],
     [0.1, 0.7, 1.7, 0.0]]
  }

  /** The source's test: the closest pair of the four assets is (0, 3). */
  lemma TestMinIndices()
    ensures MinIndices([0, 1, 2, 3], Masked(TestDistances())) == Some((0, 3))
  {
    var g := Masked(TestDistances());
    UniqueMinimum([0, 1, 2, 3], g, 0, 3);
  }

  /**
   * The tie rule: row 0 is equally close to columns 1 and 2, so the row yields
   * the label sum 1 + 2 = 3, and the pair returned is (0, 3) although 3 is the
   * farthest column from row 0.
   */
  lemma TieYieldsLabelSum()
    ensures MinIndices([0, 1, 2, 3], Masked([[0.0, 0.2, 0.2, 0.9],
                                             [0.2, 0.0, 0.5, 0.6],
                                             [0.2, 0.5, 0.0, 0.7],
                                             [0.9, 0.6, 0.7, 0.0]])) == Some((0, 3))
  {
    var g := Masked([[0.0, 0.2, 0.2, 0.9], [0.2, 0.0, 0.5, 0.6], [0.2, 0.5, 0.0, 0.7], [0.9, 0.6, 0.7, 0.0]]);
    assert GridMin(g) == Fin(0.2);
    assert g[0] == [Inf, Fin(0.2), Fin(0.2), Fin(0.9)];
    assert RowLabelSum([Inf, Fin(0.2), Fin(0.2), Fin(0.9)], [0, 1, 2, 3], Fin(0.2)) == 3;
  }

  /** A row whose only match is the column labelled 0 is skipped: here row 1 gives (1, 0) in position but is dropped. */
  lemma ZeroLabelRowIsSkipped()
    ensures MinIndices([0, 1], Masked([[0.0, 0.4], [0.1, 0.0]])) == None
  {
    var g := Masked([[0.0, 0.4], [0.1, 0.0]]);
    assert GridMin(g) == Fin(0.1);
    assert g[0] == [Inf, Fin(0.4)] && g[1] == [Fin(0.1), Inf];
    assert RowLabelSum([Inf, Fin(0.4)], [0, 1], Fin(0.1)) == 0;
    assert RowLabelSum([Fin(0.1), Inf], [0, 1], Fin(0.1)) == 0;
  }
}
