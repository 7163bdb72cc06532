/**
 * The correlation-to-distance transform (`_corr_to_distance`) and the labelled
 * square matrices it works on.
 *
 * A pandas frame whose index and columns carry the same labels is a `Frame`:
 * `labels` are the row and column labels and `cells[i][j]` is the entry of row
 * `labels[i]` and column `labels[j]`. Dafny cannot compute a square root of a
 * `real`, so the square root is a parameter `sqrt`, required to be one.
 */
module Distance {

  datatype Frame<L> = Frame(labels: seq<L>, cells: seq<seq<real>>) {

    /** As many rows as labels, and every row as long as the label list. */
    predicate IsSquare() {
      |cells| == |labels| && forall i :: 0 <= i < |cells| ==> |cells[i]| == |labels|
    }

    predicate IsSymmetric()
      requires IsSquare()
    {
      forall i, j :: 0 <= i < |cells| && 0 <= j < |cells| ==> cells[i][j] == cells[j][i]
    }

    predicate HasDiagonal(x: real)
      requires IsSquare()
    {
      forall i :: 0 <= i < |cells| ==> cells[i][i] == x
    }

    /** Every entry lies in [lo, hi]. */
    predicate Bounded(lo: real, hi: real)
      requires IsSquare()
    {
      forall i, j :: 0 <= i < |cells| && 0 <= j < |cells| ==> lo <= cells[i][j] <= hi
    }
  }

  /** An n-by-n symmetric matrix of reals, as a correlation or distance matrix is. */
  predicate IsSymmetricMatrix(cells: seq<seq<real>>, n: nat) {
    && |cells| == n && (forall i :: 0 <= i < n ==> |cells[i]| == n)
    && (forall i, j :: 0 <= i < n && 0 <= j < n ==> cells[i][j] == cells[j][i])
  }

  /** `sqrt` returns the nonnegative square root of every nonnegative real. */
  ghost predicate IsSqrt(sqrt: real -> real) {
    forall x :: 0.0 <= x ==> 0.0 <= sqrt(x) && sqrt(x) * sqrt(x) == x
  }

  /** The relation between one correlation and its distance: d >= 0 and d * d == 2 (1 - c). */
  ghost predicate IsDistanceOf(c: real, d: real) {
    0.0 <= d && d * d == 2.0 * (1.0 - c)
  }

  /**
   * `np.sqrt(2 * (-corr_matrix.subtract(1)))`: the same labels and shape, and
   * every entry c <= 1 becomes the nonnegative square root of 2 (1 - c).
   * (For c > 1 numpy yields NaN; here the entry is whatever `sqrt` gives.)
   */
  function CorrToDistance<L>(corr: Frame<L>, sqrt: real -> real): (dist: Frame<L>)
    requires IsSqrt(sqrt)
    ensures dist.labels == corr.labels && |dist.cells| == |corr.cells|
    ensures forall i :: 0 <= i < |corr.cells| ==> |dist.cells[i]| == |corr.cells[i]|
    ensures corr.IsSquare() ==> dist.IsSquare()
    ensures forall i, j :: 0 <= i < |corr.cells| && 0 <= j < |corr.cells[i]| && corr.cells[i][j] <= 1.0 ==>
              IsDistanceOf(corr.cells[i][j], dist.cells[i][j])
  {
    Frame(corr.labels,
          seq(|corr.cells|, i requires 0 <= i < |corr.cells| =>
            seq(|corr.cells[i]|, j requires 0 <= j < |corr.cells[i]| =>
              sqrt(2.0 * -(corr.cells[i][j] - 1.0)))))
  }

  /** The relation determines the distance: two nonnegative roots of one square are equal. */
  lemma DistanceIsUnique(c: real, d1: real, d2: real)
    requires IsDistanceOf(c, d1) && IsDistanceOf(c, d2)
    ensures d1 == d2
  {
    assert (d1 - d2) * (d1 + d2) == d1 * d1 - d2 * d2;
    if d1 + d2 != 0.0 {
      ZeroFactor(d1 - d2, d1 + d2);
    }
  }

  /** A zero product with a nonzero factor has a zero other factor. */
  lemma ZeroFactor(x: real, y: real)
    requires x * y == 0.0 && y != 0.0
    ensures x == 0.0
  {
  }

  /** A unit diagonal (every asset is perfectly correlated with itself) gives a zero diagonal. */
  lemma UnitDiagonalGivesZeroDiagonal<L>(corr: Frame<L>, sqrt: real -> real)
    requires IsSqrt(sqrt) && corr.IsSquare() && corr.HasDiagonal(1.0)
    ensures CorrToDistance(corr, sqrt).HasDiagonal(0.0)
  {
    var dist := CorrToDistance(corr, sqrt);
    forall i | 0 <= i < |dist.cells|
      ensures dist.cells[i][i] == 0.0
    {
      DistanceIsUnique(1.0, dist.cells[i][i], 0.0);
    }
  }

  /** A symmetric correlation matrix gives a symmetric distance matrix. */
  lemma SymmetricGivesSymmetric<L>(corr: Frame<L>, sqrt: real -> real)
    requires IsSqrt(sqrt) && corr.IsSquare() && corr.IsSymmetric()
    ensures CorrToDistance(corr, sqrt).IsSquare() && CorrToDistance(corr, sqrt).IsSymmetric()
  {
  }

  /** Correlations in [-1, 1] give distances in [0, 2]. */
  lemma DistanceRange<L>(corr: Frame<L>, sqrt: real -> real)
    requires IsSqrt(sqrt) && corr.IsSquare() && corr.Bounded(-1.0, 1.0)
    ensures CorrToDistance(corr, sqrt).Bounded(0.0, 2.0)
  {
    var dist := CorrToDistance(corr, sqrt);
    forall i, j | 0 <= i < |dist.cells| && 0 <= j < |dist.cells|
      ensures 0.0 <= dist.cells[i][j] <= 2.0
    {
      var d := dist.cells[i][j];
      assert d * d <= 4.0;
      assert (2.0 - d) * (2.0 + d) == 4.0 - d * d;
    }
  }

  /** Between nonnegative reals, order of squares is order of the values. */
  lemma SquareBracket(d: real, lo: real, hi: real)
    requires 0.0 <= d && 0.0 <= lo && 0.0 <= hi
    requires lo * lo < d * d < hi * hi
    ensures lo < d < hi
  {
    assert (d - lo) * (d + lo) == d * d - lo * lo;
    assert (hi - d) * (hi + d) == hi * hi - d * d;
  }

  /** The correlation matrix of the distance-transform test. */
  function TestCorrelations(): Frame<int> {
    Frame([0, 1, 2], [[1.0, 0.5, -0.6], [0.5, 1.0, 0.0], [-0.6, 0.0, 1.0]])
  }

  /**
   * The test's expected distances: 0 on the diagonal, exactly 1 for correlation
   * 0.5, and 1.78885438 and 1.41421356 to within 1e-6 for -0.6 and 0.
   */
  lemma TestDistances(sqrt: real -> real)
    requires IsSqrt(sqrt)
    ensures var d := CorrToDistance(TestCorrelations(), sqrt).cells;
      && d[0][0] == d[1][1] == d[2][2] == 0.0
      && d[0][1] == d[1][0] == 1.0
      && 1.78885438 - 0.000001 < d[0][2] == d[2][0] < 1.78885438 + 0.000001
      && 1.41421356 - 0.000001 < d[1][2] == d[2][1] < 1.41421356 + 0.000001
  {
    var corr := TestCorrelations();
    var d := CorrToDistance(corr, sqrt).cells;
    assert corr.IsSquare();
    UnitDiagonalGivesZeroDiagonal(corr, sqrt);
    SymmetricGivesSymmetric(corr, sqrt);
    DistanceIsUnique(0.5, d[0][1], 1.0);
    assert IsDistanceOf(-0.6, d[0][2]);
    SquareBracket(d[0][2], 1.78885438 - 0.000001, 1.78885438 + 0.000001);
    assert IsDistanceOf(0.0, d[1][2]);
    SquareBracket(d[1][2], 1.41421356 - 0.000001, 1.41421356 + 0.000001);
  }
}
