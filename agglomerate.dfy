/**
 * `get_best_grouping`: agglomerative clustering driven by a cost function.
 *
 * Starting from one group per asset, the loop records the live grouping with
 * its cost, stops once two groups remain, and otherwise merges the two
 * groups whose (averaged) return columns are closest: the second group's
 * members are appended to the first group's list, the second group is
 * removed, and the first group's column becomes the mean of the two columns.
 * Finally the first recorded grouping of least cost is returned.
 *
 * The dict snapshots taken at line 80 are shallow copies: they share the
 * member lists with the live dict. Each list object is created once, under
 * the key of its group, and never replaced, so the lists are modelled as a
 * heap `lists` indexed by that key, and a dict (live or recorded) as the set
 * of keys it holds. What a snapshot contains at some moment is `View(lists,
 * keys)` for the lists of that moment.
 */
module Agglomerate {
  import opened Wrappers
  import opened Distance
  import opened Extended
  import opened NearestPair
  import opened Groupings

  /** `grouping[group_2]` raises KeyError: the label sum found is not a live group. */
  datatype Error = MissingGroup(key: int)

  datatype Result<T> = Ok(value: T) | Err(error: Error)

  /** One entry of `all_groupings`: a snapshot of the dict (its keys) and the cost recorded for it. */
  datatype Record = Record(keys: set<int>, cost: real)

  /** `returns.corr()`, from a pairwise correlation of two return columns. */
  function CorrFrame<L>(labels: seq<L>, series: seq<seq<real>>, corr: (seq<real>, seq<real>) -> real): (f: Frame<L>)
    requires |labels| == |series|
    ensures f.labels == labels && f.IsSquare()
    ensures forall i, j :: 0 <= i < |series| && 0 <= j < |series| ==> f.cells[i][j] == corr(series[i], series[j])
  {
    Frame(labels, seq(|series|, i requires 0 <= i < |series| =>
                    seq(|series|, j requires 0 <= j < |series| => corr(series[i], series[j]))))
  }

  /** A correlation treats its two columns alike, as Pearson's does. */
  ghost predicate IsSymmetricCorr(corr: (seq<real>, seq<real>) -> real) {
    forall u, w :: corr(u, w) == corr(w, u)
  }

  lemma CorrFrameSymmetric<L>(labels: seq<L>, series: seq<seq<real>>, corr: (seq<real>, seq<real>) -> real)
    requires |labels| == |series| && IsSymmetricCorr(corr)
    ensures CorrFrame(labels, series, corr).IsSymmetric()
  {
    var f := CorrFrame(labels, series, corr);
    forall i, j | 0 <= i < |series| && 0 <= j < |series|
      ensures f.cells[i][j] == f.cells[j][i]
    {
      assert corr(series[i], series[j]) == corr(series[j], series[i]);
    }
  }

  /** Line 92: `0.5 * (returns[group_1] + returns[group_2])`, row by row. */
  function Average(u: seq<real>, w: seq<real>): (r: seq<real>)
    requires |u| == |w|
    ensures |r| == |u|
  {
    seq(|u|, t requires 0 <= t < |u| => 0.5 * (u[t] + w[t]))
  }

  /** The averaged column lies, row by row, between the two columns it replaces. */
  lemma AverageBetween(u: seq<real>, w: seq<real>, t: nat)
    requires |u| == |w| && t < |u|
    ensures var a := Average(u, w)[t];
      (u[t] <= w[t] ==> u[t] <= a <= w[t]) && (w[t] <= u[t] ==> w[t] <= a <= u[t])
    ensures u[t] == w[t] ==> Average(u, w)[t] == u[t]
  {
  }

  /** The position of a label among the column labels. */
  function IndexOf(s: seq<int>, x: int): (p: nat)
    requires x in s
    ensures p < |s| && s[p] == x
    ensures forall q :: 0 <= q < p ==> s[q] != x
  {
    if s[0] == x then 0 else 1 + IndexOf(s[1..], x)
  }

  /** `drop(group_2, axis=1)` on one list of columns. */
  function RemoveAt<T>(s: seq<T>, p: nat): (r: seq<T>)
    requires p < |s|
    ensures |r| == |s| - 1
    ensures forall q :: 0 <= q < p ==> r[q] == s[q]
    ensures forall q :: p <= q < |r| ==> r[q] == s[q + 1]
  {
    s[..p] + s[p + 1..]
  }

  /** The grouping a dict holding the keys `keys` shows, given the current member lists. */
  function View(lists: map<int, seq<string>>, keys: set<int>): (g: Grouping)
    requires keys <= lists.Keys
    ensures g.Keys == keys
    ensures forall k :: k in keys ==> g[k] == lists[k]
  {
    map k | k in keys :: lists[k]
  }

  /** `s` starts with `p`. */
  predicate IsPrefix(p: seq<string>, s: seq<string>) {
    |p| <= |s| && s[..|p|] == p
  }

  /** Lines 90-91 on the heap of lists: the dict after the merge shows the merged grouping. */
  lemma MergeView(lists: map<int, seq<string>>, keys: set<int>, g1: int, g2: int)
    requires keys <= lists.Keys && g1 in keys && g2 in keys && g1 != g2
    ensures View(lists[g1 := lists[g1] + lists[g2]], keys - {g2}) == Merge(View(lists, keys), g1, g2)
  {
  }

  /** Ascending labels without one of them are ascending and hold the other labels. */
  lemma RemoveLabel(cols: seq<int>, keys: set<int>, x: int)
    requires IsAscending(cols) && (forall k :: k in keys <==> k in cols) && x in keys
    ensures var r := RemoveAt(cols, IndexOf(cols, x));
      IsAscending(r) && forall k :: k in keys - {x} <==> k in r
  {
    var p := IndexOf(cols, x);
    var r := RemoveAt(cols, p);
    forall k | k in r
      ensures k in keys - {x}
    {
      RemovedHolds(cols, p, k);
    }
    forall k | k in keys - {x}
      ensures k in r
    {
      KeptIsHeld(cols, p, k);
    }
  }

  lemma RemovedHolds(cols: seq<int>, p: nat, k: int)
    requires IsAscending(cols) && p < |cols| && k in RemoveAt(cols, p)
    ensures k in cols && k != cols[p]
  {
    var r := RemoveAt(cols, p);
    var q :| 0 <= q < |r| && r[q] == k;
    if q >= p {
      assert cols[q + 1] == k;
    } else {
      assert cols[q] == k;
    }
  }

  lemma KeptIsHeld(cols: seq<int>, p: nat, k: int)
    requires IsAscending(cols) && p < |cols| && k in cols && k != cols[p]
    ensures k in RemoveAt(cols, p)
  {
    var r := RemoveAt(cols, p);
    var q :| 0 <= q < |cols| && cols[q] == k;
    if q < p {
      assert r[q] == k;
    } else {
      assert r[q - 1] == k;
    }
  }

  /**
   * `_get_min_indices` on the masked distances of the current columns finds
   * a pair, whose first label is a live group with a smaller label than the
   * second.
   */
  lemma NextPair(cols: seq<int>, cells: seq<seq<real>>, m: array2<Ext>)
    requires 2 <= |cols| && IsAscending(cols)
    requires IsSymmetricMatrix(cells, |cols|)
    requires m.Length0 == m.Length1 == |cols|
    requires forall i, j :: 0 <= i < |cols| && 0 <= j < |cols| ==>
               m[i, j] == if i == j then Inf else Fin(cells[i][j])
    ensures Grid(m) == Masked(cells) && MinIndices(cols, Grid(m)).Some?
    ensures var (a, b) := MinIndices(cols, Grid(m)).value; a in cols && a < b
  {
    var g := Grid(m);
    SameCells(g, Masked(cells));
    assert IsSquare(g, |cols|);
    assert IsMasked(g);
    assert IsSymmetric(g);
    PairIsOrdered(cols, g);
  }

  /** Two matrices with the same shape and the same cells are equal. */
  lemma SameCells(g: seq<seq<Ext>>, h: seq<seq<Ext>>)
    requires |g| == |h| && forall i :: 0 <= i < |g| ==> |g[i]| == |h[i]|
    requires forall i, j :: 0 <= i < |g| && 0 <= j < |g[i]| ==> g[i][j] == h[i][j]
    ensures g == h
  {
    forall i | 0 <= i < |g|
      ensures g[i] == h[i]
    {
      assert forall j :: 0 <= j < |g[i]| ==> g[i][j] == h[i][j];
    }
  }

  /** The recorded costs. */
  function Costs(records: seq<Record>): (c: seq<real>)
    ensures |c| == |records| && forall t :: 0 <= t < |records| ==> c[t] == records[t].cost
  {
    seq(|records|, t requires 0 <= t < |records| => records[t].cost)
  }

  /** `at` is the first position of a least cost. */
  predicate IsFirstMinimum(costs: seq<real>, at: nat) {
    at < |costs| &&
    (forall t :: 0 <= t < |costs| ==> costs[at] <= costs[t]) &&
    (forall t :: 0 <= t < at ==> costs[at] < costs[t])
  }

  /** There is exactly one first minimum. */
  lemma FirstMinimumUnique(costs: seq<real>, a: nat, b: nat)
    requires IsFirstMinimum(costs, a) && IsFirstMinimum(costs, b)
    ensures a == b
  {
    assert costs[a] <= costs[b] <= costs[a];
    if a < b {
      assert false;
    } else if b < a {
      assert false;
    }
  }

  /**
   * Lines 95-99: the scan that keeps the first record of least cost, replacing
   * it only on a strictly smaller cost.
   */
  method SelectBest(records: seq<Record>) returns (best: Record, ghost at: nat)
    requires |records| > 0
    ensures IsFirstMinimum(Costs(records), at) && best == records[at]
  {
    best, at := records[0], 0;
    var minCost := records[0].cost;
    for t := 0 to |records|
      invariant at < |records| && best == records[at] && minCost == best.cost
      invariant forall u :: 0 <= u < t ==> minCost <= records[u].cost
      invariant forall u :: 0 <= u < at ==> minCost < records[u].cost
      invariant at <= t
    {
      if records[t].cost < minCost {
        best, at := records[t], t;
        minCost := records[t].cost;
      }
    }
  }

  /** Line 72: the distances between the original columns, labelled by asset name. */
  function AllDistances(names: seq<string>, columns: seq<seq<real>>, corr: (seq<real>, seq<real>) -> real,
                        sqrt: real -> real): (f: Frame<string>)
    requires |names| == |columns| && IsSqrt(sqrt)
    ensures f.labels == names && f.IsSquare()
    ensures forall i, j :: 0 <= i < |names| && 0 <= j < |names| && corr(columns[i], columns[j]) <= 1.0 ==>
      IsDistanceOf(corr(columns[i], columns[j]), f.cells[i][j])
  {
    CorrToDistance(CorrFrame(names, columns, corr), sqrt)
  }

  /** Every column has the same number of rows. */
  predicate IsRectangular(columns: seq<seq<real>>) {
    forall i, j :: 0 <= i < |columns| && 0 <= j < |columns| ==> |columns[i]| == |columns[j]|
  }

  /**
   * The state of the merge loop at the head of an iteration: `lists` holds one
   * list per original position, the live dict holds `keys`, the columns carry
   * the live keys in ascending order (`cols`) over `rows` rows, and the live
   * grouping is a partition of the names.
   */
  ghost predicate IsLive(names: seq<string>, lists: map<int, seq<string>>, keys: set<int>,
                         cols: seq<int>, series: seq<seq<real>>, rows: nat) {
    (forall k :: k in lists <==> 0 <= k < |names|) && keys <= lists.Keys &&
    IsAscending(cols) && |cols| == |keys| && (forall k :: k in keys <==> k in cols) &&
    |series| == |cols| && (forall i :: 0 <= i < |series| ==> |series[i]| == rows) &&
    IsPartition(View(lists, keys), names)
  }

  /** Lines 71-73 set up a live state. */
  lemma InitialLive(names: seq<string>, columns: seq<seq<real>>)
    requires 0 < |names| == |columns| && IsRectangular(columns)
    ensures IsLive(names, Singletons(names), Singletons(names).Keys, Positions(|names|), columns, |columns[0]|)
    ensures View(Singletons(names), Singletons(names).Keys) == Singletons(names)
    ensures |Singletons(names).Keys| == |names|
  {
    var cols := Positions(|names|);
    SingletonsSize(names);
    SingletonsPartition(names);
    forall k | 0 <= k < |names|
      ensures k in cols
    {
      assert cols[k] == k;
    }
    assert View(Singletons(names), Singletons(names).Keys) == Singletons(names);
    assert IsAscending(cols);
    assert forall i :: 0 <= i < |columns| ==> |columns[i]| == |columns[0]|;
  }

  /**
   * Lines 86-93, one merge: the closest pair of the current columns is found,
   * and unless its second label is not a live group, that group is merged
   * into the first, in the member lists, the dict and the columns.
   */
  method MergeClosest(ghost names: seq<string>, lists: map<int, seq<string>>, keys: set<int>,
                      cols: seq<int>, series: seq<seq<real>>, ghost rows: nat,
                      corr: (seq<real>, seq<real>) -> real, sqrt: real -> real)
    returns (r: Result<(int, int)>, lists': map<int, seq<string>>, keys': set<int>,
             cols': seq<int>, series': seq<seq<real>>)
    requires IsLive(names, lists, keys, cols, series, rows) && 2 <= |keys|
    requires IsSqrt(sqrt) && IsSymmetricCorr(corr)
    ensures var pair := Closest(Columns(cols, series), corr, sqrt);
      pair.Some? && pair.value.0 in keys && pair.value.0 < pair.value.1 &&
      (if pair.value.1 in keys then r == Ok(pair.value) else r == Err(MissingGroup(pair.value.1)))
    ensures r.Err? ==> lists' == lists && keys' == keys && cols' == cols && series' == series
    ensures r.Ok? ==>
      var (g1, g2) := r.value;
      lists' == lists[g1 := lists[g1] + lists[g2]] && keys' == keys - {g2} &&
      Columns(cols', series') == MergedColumns(Columns(cols, series), g1, g2) &&
      IsLive(names, lists', keys', cols', series', rows) &&
      View(lists', keys') == Merge(View(lists, keys), g1, g2)
  {
    var g1, g2 := ClosestPair(cols, Distances(cols, series, corr, sqrt));
    if g2 !in keys {
      return Err(MissingGroup(g2)), lists, keys, cols, series;
    }
    r := Ok((g1, g2));
    lists', keys', cols', series' := Absorb(names, lists, keys, cols, series, rows, g1, g2);
  }

  /** Line 86: `_corr_to_distance(returns.corr())` on the current columns, a symmetric square matrix. */
  function Distances(cols: seq<int>, series: seq<seq<real>>,
                     corr: (seq<real>, seq<real>) -> real, sqrt: real -> real): (cells: seq<seq<real>>)
    requires |cols| == |series| && IsSqrt(sqrt) && IsSymmetricCorr(corr)
    ensures IsSymmetricMatrix(cells, |cols|)
  {
    CorrFrameSymmetric(cols, series, corr);
    SymmetricGivesSymmetric(CorrFrame(cols, series, corr), sqrt);
    CorrToDistance(CorrFrame(cols, series, corr), sqrt).cells
  }

  /** Line 87: the labels of the closest pair, given the distances `cells` of the current columns. */
  method ClosestPair(cols: seq<int>, cells: seq<seq<real>>) returns (g1: int, g2: int)
    requires 2 <= |cols| && IsAscending(cols)
    requires IsSymmetricMatrix(cells, |cols|)
    ensures MinIndices(cols, Masked(cells)) == Some((g1, g2))
    ensures g1 in cols && g1 < g2
  {
    var width := |cols|;
    var m := new Ext[width, width]((i, j) requires 0 <= i < width && 0 <= j < width => Fin(cells[i][j]));
    var pair := GetMinIndices(cols, m);
    NextPair(cols, cells, m);
    g1, g2 := pair.value.0, pair.value.1;
  }

  /** Lines 90-93: group `g1` absorbs group `g2`, in the member lists, the dict and the columns. */
  method Absorb(ghost names: seq<string>, lists: map<int, seq<string>>, keys: set<int>,
                cols: seq<int>, series: seq<seq<real>>, ghost rows: nat, g1: int, g2: int)
    returns (lists': map<int, seq<string>>, keys': set<int>, cols': seq<int>, series': seq<seq<real>>)
    requires IsLive(names, lists, keys, cols, series, rows)
    requires g1 in keys && g2 in keys && g1 != g2
    ensures lists' == lists[g1 := lists[g1] + lists[g2]] && keys' == keys - {g2}
    ensures Columns(cols', series') == MergedColumns(Columns(cols, series), g1, g2)
    ensures IsLive(names, lists', keys', cols', series', rows)
    ensures View(lists', keys') == Merge(View(lists, keys), g1, g2)
  {
    MergeView(lists, keys, g1, g2);
    MergeKeepsPartition(names, lists, keys, g1, g2);
    RemoveLabel(cols, keys, g2);
    var p1, p2 := IndexOf(cols, g1), IndexOf(cols, g2);
    MergeColumns(series, p1, p2, rows);
    lists' := lists[g1 := lists[g1] + lists[g2]];
    keys' := keys - {g2};
    series' := RemoveAt(series[p1 := Average(series[p1], series[p2])], p2);
    cols' := RemoveAt(cols, p2);
  }

  /** Lines 90-91 keep the live grouping a partition of the names. */
  lemma {:induction false} MergeKeepsPartition(names: seq<string>, lists: map<int, seq<string>>, keys: set<int>, g1: int, g2: int)
    requires keys <= lists.Keys && g1 in keys && g2 in keys && g1 != g2
    requires IsPartition(View(lists, keys), names)
    ensures IsPartition(View(lists[g1 := lists[g1] + lists[g2]], keys - {g2}), names)
  {
    MergeView(lists, keys, g1, g2);
    MergePreservesMembers(View(lists, keys), g1, g2);
  }

  /** Lines 92-93 leave one column fewer, each with the same number of rows. */
  lemma {:induction false} MergeColumns(series: seq<seq<real>>, p1: nat, p2: nat, rows: nat)
    requires p1 < |series| && p2 < |series| && forall i :: 0 <= i < |series| ==> |series[i]| == rows
    ensures var r := RemoveAt(series[p1 := Average(series[p1], series[p2])], p2);
      |r| == |series| - 1 && forall i :: 0 <= i < |r| ==> |r[i]| == rows
  {
    var s := series[p1 := Average(series[p1], series[p2])];
    assert forall i :: 0 <= i < |s| ==> |s[i]| == rows;
  }

  /** The return columns of one round: their labels and their values. */
  datatype Columns = Columns(labels: seq<int>, series: seq<seq<real>>)

  /** Line 73: the labels 0..n-1 given to the original columns. */
  function Positions(n: nat): (r: seq<int>)
    ensures |r| == n && forall i :: 0 <= i < n ==> r[i] == i
  {
    seq(n, i => i)
  }

  /** Every label has one column, and every column as many rows as the others. */
  predicate IsTable(c: Columns) {
    |c.labels| == |c.series| && IsRectangular(c.series)
  }

  /** The column labelled `k`. */
  function ColumnOf(c: Columns, k: int): seq<real>
    requires |c.labels| == |c.series| && k in c.labels
  {
    c.series[IndexOf(c.labels, k)]
  }

  /** Lines 92-93: group `g1`'s column becomes the mean of the two columns and group `g2`'s is dropped. */
  function MergedColumns(c: Columns, g1: int, g2: int): (r: Columns)
    requires IsTable(c) && g1 in c.labels && g2 in c.labels
    ensures IsTable(r) && |r.labels| == |c.labels| - 1
  {
    var p1, p2 := IndexOf(c.labels, g1), IndexOf(c.labels, g2);
    var s := c.series[p1 := Average(c.series[p1], c.series[p2])];
    assert forall i :: 0 <= i < |s| ==> |s[i]| == |c.series[p1]|;
    Columns(RemoveAt(c.labels, p2), RemoveAt(s, p2))
  }

  /**
   * After a merge the columns carry every label but `g2`; `g1`'s column is
   * the mean of the two merged columns and every other column is unchanged.
   */
  lemma {:induction false} MergedColumnsAt(c: Columns, g1: int, g2: int, k: int)
    requires IsTable(c) && IsAscending(c.labels)
    requires g1 in c.labels && g2 in c.labels && g1 != g2
    ensures k in MergedColumns(c, g1, g2).labels <==> k in c.labels && k != g2
    ensures k in c.labels && k != g2 ==>
      ColumnOf(MergedColumns(c, g1, g2), k) ==
        if k == g1 then Average(ColumnOf(c, g1), ColumnOf(c, g2)) else ColumnOf(c, k)
  {
    var keys := set j | j in c.labels;
    MergedLabels(c, keys, g1, g2);
    if k in c.labels && k != g2 {
      MergedColumnOf(c, g1, g2, k);
    }
  }

  lemma {:induction false} MergedColumnOf(c: Columns, g1: int, g2: int, k: int)
    requires IsTable(c) && IsAscending(c.labels)
    requires g1 in c.labels && g2 in c.labels && g1 != g2 && k in c.labels && k != g2
    ensures k in MergedColumns(c, g1, g2).labels
    ensures ColumnOf(MergedColumns(c, g1, g2), k) ==
      if k == g1 then Average(ColumnOf(c, g1), ColumnOf(c, g2)) else ColumnOf(c, k)
  {
    IndexAfterRemove(c.labels, IndexOf(c.labels, g2), IndexOf(c.labels, k));
    ColumnAfterRemove(c, g1, g2, k);
  }

  /** The column of `k` after the merge, once its new position is known. */
  lemma ColumnAfterRemove(c: Columns, g1: int, g2: int, k: int)
    requires IsTable(c) && g1 in c.labels && g2 in c.labels && k in c.labels && k != g2
    requires var p2, q := IndexOf(c.labels, g2), IndexOf(c.labels, k);
      IndexOf(RemoveAt(c.labels, p2), k) == if q < p2 then q else q - 1
    ensures k in MergedColumns(c, g1, g2).labels
    ensures ColumnOf(MergedColumns(c, g1, g2), k) ==
      if k == g1 then Average(ColumnOf(c, g1), ColumnOf(c, g2)) else ColumnOf(c, k)
  {
    var r := MergedColumns(c, g1, g2);
    var p1, p2, q := IndexOf(c.labels, g1), IndexOf(c.labels, g2), IndexOf(c.labels, k);
    var s := c.series[p1 := Average(c.series[p1], c.series[p2])];
    assert r.labels == RemoveAt(c.labels, p2) && r.series == RemoveAt(s, p2);
  }

  /** Removing one ascending label shifts the positions of the later ones down by one. */
  lemma {:induction false} IndexAfterRemove(cols: seq<int>, p: nat, q: nat)
    requires IsAscending(cols) && p < |cols| && q < |cols| && p != q
    ensures IndexOf(RemoveAt(cols, p), cols[q]) == if q < p then q else q - 1
  {
    var o := if q < p then q else q - 1;
    assert RemoveAt(cols, p)[o] == cols[q];
  }

  /** Lines 86-87: `_get_min_indices` of the distances between the columns `c`. */
  function Closest(c: Columns, corr: (seq<real>, seq<real>) -> real, sqrt: real -> real): Option<(int, int)>
    requires |c.labels| == |c.series| && IsSqrt(sqrt) && IsSymmetricCorr(corr)
  {
    MinIndices(c.labels, Masked(Distances(c.labels, c.series, corr, sqrt)))
  }

  /** Lines 92-93 for one pair, when both of its groups still have columns. */
  function Step(c: Columns, pair: (int, int)): (r: Columns)
    requires IsTable(c)
    ensures IsTable(r)
  {
    if pair.0 in c.labels && pair.1 in c.labels then MergedColumns(c, pair.0, pair.1) else c
  }

  /**
   * The columns of each round: `States(columns, ms)[t]` are those left by the
   * first t of the merges `ms`, starting from the original columns labelled
   * 0..N-1 (line 73).
   */
  function States(columns: seq<seq<real>>, ms: seq<(int, int)>): (s: seq<Columns>)
    requires IsRectangular(columns)
    ensures |s| == |ms| + 1 && s[0] == Columns(Positions(|columns|), columns)
    ensures forall t :: 0 <= t < |s| ==> IsTable(s[t])
    decreases |ms|
  {
    if |ms| == 0 then [Columns(Positions(|columns|), columns)]
    else
      var before := States(columns, ms[..|ms| - 1]);
      before + [Step(before[|ms| - 1], ms[|ms| - 1])]
  }

  /** One more merge appends one more round's columns and leaves the earlier ones alone. */
  lemma {:induction false} StatesExtend(columns: seq<seq<real>>, ms: seq<(int, int)>, pair: (int, int))
    requires IsRectangular(columns)
    ensures States(columns, ms + [pair]) == States(columns, ms) + [Step(States(columns, ms)[|ms|], pair)]
  {
    assert (ms + [pair])[..|ms|] == ms;
  }

  /** Each round's columns are the previous round's merged by that round's pair. */
  lemma {:induction false} StatesStep(columns: seq<seq<real>>, ms: seq<(int, int)>, t: nat)
    requires IsRectangular(columns) && t < |ms|
    ensures States(columns, ms)[t + 1] == Step(States(columns, ms)[t], ms[t])
  {
    var init := ms[..|ms| - 1];
    if t < |init| {
      StatesStep(columns, init, t);
      assert init[t] == ms[t];
    }
  }

  /**
   * Lines 86-87 in every round: the last merge of `ms` is the closest pair of
   * the columns left by the merges before it, and so on back to the first.
   */
  ghost predicate IsClosestRun(columns: seq<seq<real>>, corr: (seq<real>, seq<real>) -> real, sqrt: real -> real,
                               ms: seq<(int, int)>)
    decreases |ms|
  {
    IsRectangular(columns) && IsSqrt(sqrt) && IsSymmetricCorr(corr) &&
    (|ms| > 0 ==>
      var init := ms[..|ms| - 1];
      IsClosestRun(columns, corr, sqrt, init) && Closest(States(columns, init)[|init|], corr, sqrt) == Some(ms[|ms| - 1]))
  }

  /** Merging the closest pair of the columns left by `ms` continues the run. */
  lemma {:induction false} ClosestRunExtends(columns: seq<seq<real>>, corr: (seq<real>, seq<real>) -> real,
                                             sqrt: real -> real, ms: seq<(int, int)>, pair: (int, int))
    requires IsClosestRun(columns, corr, sqrt, ms)
    requires Closest(States(columns, ms)[|ms|], corr, sqrt) == Some(pair)
    ensures IsClosestRun(columns, corr, sqrt, ms + [pair])
  {
    assert (ms + [pair])[..|ms|] == ms;
  }

  /**
   * The columns and member lists left by the merges `ms`, each of which was
   * the closest pair of its round.
   */
  ghost predicate IsColumnState(names: seq<string>, columns: seq<seq<real>>,
                                corr: (seq<real>, seq<real>) -> real, sqrt: real -> real,
                                ms: seq<(int, int)>, now: Columns, lists: map<int, seq<string>>) {
    IsClosestRun(columns, corr, sqrt, ms) && now == States(columns, ms)[|ms|] && lists == Replay(names, ms)
  }

  /** Line 90: one more merge of two groups extends their member lists once more. */
  lemma {:induction false} ReplayExtends(names: seq<string>, ms: seq<(int, int)>, g1: int, g2: int)
    requires g1 in Replay(names, ms) && g2 in Replay(names, ms)
    ensures var lists := Replay(names, ms); Replay(names, ms + [(g1, g2)]) == lists[g1 := lists[g1] + lists[g2]]
  {
    var ms' := ms + [(g1, g2)];
    assert ms'[..|ms'| - 1] == ms && ms'[|ms'| - 1] == (g1, g2);
  }

  /** The columns' labels are the keys `keys`, in ascending order. */
  ghost predicate Carries(c: Columns, keys: set<int>) {
    IsAscending(c.labels) && forall k :: k in c.labels <==> k in keys
  }

  /**
   * The columns of round t, those left by its first t merges, carry the keys
   * of round t's grouping in ascending order.
   */
  lemma {:induction false} RoundColumns(names: seq<string>, history: seq<Grouping>, merges: seq<(int, int)>,
                                        columns: seq<seq<real>>, t: nat)
    requires IsMergeRun(names, history, merges)
    requires |columns| == |names| && IsRectangular(columns) && t < |history|
    ensures Carries(States(columns, merges)[t], history[t].Keys)
    decreases t, 1
  {
    if t == 0 {
      FirstRoundColumns(names, columns, merges);
    } else {
      LaterRoundColumns(names, history, merges, columns, t);
    }
  }

  /** `RoundColumns` for a round after the first: the previous round's columns, merged. */
  lemma {:induction false} LaterRoundColumns(names: seq<string>, history: seq<Grouping>, merges: seq<(int, int)>,
                                             columns: seq<seq<real>>, t: nat)
    requires IsMergeRun(names, history, merges)
    requires |columns| == |names| && IsRectangular(columns) && 0 < t < |history|
    ensures Carries(States(columns, merges)[t], history[t].Keys)
    decreases t, 0
  {
    RoundColumns(names, history, merges, columns, t - 1);
    CarriesNext(names, history, merges, columns, t - 1);
  }

  /** Round t's merge takes the columns carrying round t's keys to those carrying round t + 1's. */
  lemma CarriesNext(names: seq<string>, history: seq<Grouping>, merges: seq<(int, int)>,
                    columns: seq<seq<real>>, t: nat)
    requires IsMergeRun(names, history, merges)
    requires IsRectangular(columns) && t < |merges|
    requires Carries(States(columns, merges)[t], history[t].Keys)
    ensures Carries(States(columns, merges)[t + 1], history[t + 1].Keys)
  {
    var c, g1, g2 := States(columns, merges)[t], merges[t].0, merges[t].1;
    assert IsMergeStep(history[t], history[t + 1], merges[t]);
    StatesStep(columns, merges, t);
    MergedLabels(c, history[t].Keys, g1, g2);
  }

  /** Line 73: the original columns, round 0 of any merges, carry the singleton keys 0..N-1 in ascending order. */
  lemma {:induction false} FirstRoundColumns(names: seq<string>, columns: seq<seq<real>>, ms: seq<(int, int)>)
    requires |columns| == |names| && IsRectangular(columns)
    ensures Carries(States(columns, ms)[0], Singletons(names).Keys)
  {
    var c := States(columns, ms)[0];
    forall k
      ensures k in c.labels <==> k in Singletons(names)
    {
      if 0 <= k < |names| {
        assert c.labels[k] == k;
      }
    }
  }

  /** Lines 92-93 keep the labels ascending and drop exactly the label of the absorbed group. */
  lemma {:induction false} MergedLabels(b: Columns, keys: set<int>, g1: int, g2: int)
    requires IsTable(b) && Carries(b, keys)
    requires g1 in keys && g2 in keys && g1 != g2
    ensures Carries(MergedColumns(b, g1, g2), keys - {g2})
  {
    RemoveLabel(b.labels, keys, g2);
  }

  /** Merging round t's columns by `merges[t]`, two of its groups, gives the columns of round t + 1. */
  lemma {:induction false} RoundMerge(names: seq<string>, history: seq<Grouping>, merges: seq<(int, int)>,
                                      columns: seq<seq<real>>, t: nat)
    requires IsMergeRun(names, history, merges)
    requires |columns| == |names| && IsRectangular(columns) && t < |merges|
    ensures var c, (g1, g2) := States(columns, merges)[t], merges[t];
      Carries(c, history[t].Keys) && g1 in history[t] && g2 in history[t] && g1 < g2 &&
      States(columns, merges)[t + 1] == MergedColumns(c, g1, g2)
  {
    RoundColumns(names, history, merges, columns, t);
    assert IsMergeStep(history[t], history[t + 1], merges[t]);
    StatesStep(columns, merges, t);
  }

  /** Round t's columns carry its grouping's keys in the order in which the dict holds them. */
  lemma {:induction false} RoundLabelsAreSortedKeys(names: seq<string>, history: seq<Grouping>, merges: seq<(int, int)>,
                                                    columns: seq<seq<real>>, t: nat)
    requires IsMergeRun(names, history, merges)
    requires |columns| == |names| && IsRectangular(columns) && t < |history|
    ensures States(columns, merges)[t].labels == SortedKeys(history[t].Keys)
  {
    RoundColumns(names, history, merges, columns, t);
    AscendingUnique(States(columns, merges)[t].labels, SortedKeys(history[t].Keys));
  }

  /** Line 90 for each of the merges `ms` in turn, starting from the singleton lists. */
  function Replay(names: seq<string>, ms: seq<(int, int)>): map<int, seq<string>>
    decreases |ms|
  {
    if |ms| == 0 then Singletons(names)
    else
      var lists, (g1, g2) := Replay(names, ms[..|ms| - 1]), ms[|ms| - 1];
      if g1 in lists && g2 in lists then lists[g1 := lists[g1] + lists[g2]] else lists
  }

  /** One merge of the loop: group `pair.0` absorbs the larger-keyed group `pair.1`. */
  predicate IsMergeStep(before: Grouping, after: Grouping, pair: (int, int)) {
    pair.0 in before && pair.1 in before && pair.0 < pair.1 && after == Merge(before, pair.0, pair.1)
  }

  /**
   * The loop so far, once a round has been recorded: round t saw the
   * partition `history[t]` into `|names| - t` groups and recorded its keys
   * with its cost as `records[t]`, and the merge `merges[t]` turned it into
   * `history[t + 1]`. Each group a round held still has its list, which has
   * only grown since.
   */
  ghost predicate IsRun(names: seq<string>, d: Frame<string>, cost: (Frame<string>, Grouping) -> real,
                        records: seq<Record>, history: seq<Grouping>, merges: seq<(int, int)>,
                        lists: map<int, seq<string>>) {
    |records| == |history| && IsMergeRun(names, history, merges) &&
    forall t :: 0 <= t < |history| ==>
      |history[t]| == |names| - t && IsPartition(history[t], names) &&
      records[t] == Record(history[t].Keys, cost(d, history[t])) && history[t].Keys <= lists.Keys &&
      forall k :: k in history[t] ==> IsPrefix(history[t][k], lists[k])
  }

  /**
   * The merges of the loop so far: round 0 saw the singletons, and the merge
   * `merges[t]` turned round t's grouping into round t + 1's.
   */
  ghost predicate IsMergeRun(names: seq<string>, history: seq<Grouping>, merges: seq<(int, int)>) {
    |history| == |merges| + 1 && history[0] == Singletons(names) &&
    forall t :: 0 <= t < |merges| ==> IsMergeStep(history[t], history[t + 1], merges[t])
  }

  /** Lines 79-80, first round: recording the singletons starts a run. */
  lemma {:induction false} RunStarts(names: seq<string>, d: Frame<string>, cost: (Frame<string>, Grouping) -> real,
                  lists: map<int, seq<string>>, keys: set<int>)
    requires keys <= lists.Keys && View(lists, keys) == Singletons(names)
    ensures IsRun(names, d, cost, [Record(keys, cost(d, View(lists, keys)))], [View(lists, keys)], [], lists)
  {
    SingletonsSize(names);
    SingletonsPartition(names);
    var g := View(lists, keys);
    forall k | k in g
      ensures IsPrefix(g[k], lists[k])
    {
      assert lists[k][..|lists[k]|] == lists[k];
    }
  }

  /** Lines 79-80, later rounds: recording the merged live grouping extends the run. */
  lemma {:induction false} RunRecords(names: seq<string>, d: Frame<string>, cost: (Frame<string>, Grouping) -> real,
                   records: seq<Record>, history: seq<Grouping>, merges: seq<(int, int)>,
                   lists: map<int, seq<string>>, keys: set<int>, pair: (int, int))
    requires IsRun(names, d, cost, records, history, merges, lists) && keys <= lists.Keys
    requires |keys| == |names| - |history| && IsPartition(View(lists, keys), names)
    requires IsMergeStep(history[|history| - 1], View(lists, keys), pair)
    ensures IsRun(names, d, cost, records + [Record(keys, cost(d, View(lists, keys)))],
                  history + [View(lists, keys)], merges + [pair], lists)
  {
    var g := View(lists, keys);
    forall k | k in g
      ensures IsPrefix(g[k], lists[k])
    {
      assert lists[k][..|lists[k]|] == lists[k];
    }
  }

  /** Line 90: extending one list keeps every recorded list a prefix of its list. */
  lemma {:induction false} RunExtends(names: seq<string>, d: Frame<string>, cost: (Frame<string>, Grouping) -> real,
                   records: seq<Record>, history: seq<Grouping>, merges: seq<(int, int)>,
                   lists: map<int, seq<string>>, g1: int, tail: seq<string>)
    requires IsRun(names, d, cost, records, history, merges, lists) && g1 in lists
    ensures IsRun(names, d, cost, records, history, merges, lists[g1 := lists[g1] + tail])
  {
    var lists' := lists[g1 := lists[g1] + tail];
    forall t, k | 0 <= t < |history| && k in history[t]
      ensures IsPrefix(history[t][k], lists'[k])
    {
      if k == g1 {
        assert IsPrefix(history[t][k], lists[k]);
        assert lists'[k][..|history[t][k]|] == lists[k][..|history[t][k]|];
      }
    }
  }

  /**
   * Lines 86-93 within the loop: a merge that keeps the run and the live state.
   * On `Err` the loop returns its own state at once, so of the outputs only
   * `lists'` is stated: the others are then unchanged too (`MergeClosest`
   * states it), but nothing reads them.
   */
  method MergeRound(ghost names: seq<string>, ghost columns: seq<seq<real>>, ghost d: Frame<string>,
                    ghost cost: (Frame<string>, Grouping) -> real,
                    ghost records: seq<Record>, ghost history: seq<Grouping>, ghost merges: seq<(int, int)>,
                    lists: map<int, seq<string>>, keys: set<int>, cols: seq<int>, series: seq<seq<real>>,
                    ghost rows: nat, corr: (seq<real>, seq<real>) -> real, sqrt: real -> real)
    returns (r: Result<(int, int)>, lists': map<int, seq<string>>, keys': set<int>,
             cols': seq<int>, series': seq<seq<real>>)
    requires IsLive(names, lists, keys, cols, series, rows) && 2 <= |keys|
    requires IsRun(names, d, cost, records, history, merges, lists)
    requires history[|history| - 1] == View(lists, keys)
    requires IsColumnState(names, columns, corr, sqrt, merges, Columns(cols, series), lists)
    ensures r.Err? ==>
      lists' == lists && r.error.key !in keys &&
      Closest(Columns(cols, series), corr, sqrt).Some? && Closest(Columns(cols, series), corr, sqrt).value.1 == r.error.key
    ensures r.Ok? ==>
      IsLive(names, lists', keys', cols', series', rows) && |keys'| == |keys| - 1 &&
      IsRun(names, d, cost, records, history, merges, lists') &&
      IsMergeStep(history[|history| - 1], View(lists', keys'), r.value) &&
      IsColumnState(names, columns, corr, sqrt, merges + [r.value], Columns(cols', series'), lists')
  {
    r, lists', keys', cols', series' := MergeClosest(names, lists, keys, cols, series, rows, corr, sqrt);
    if r.Ok? {
      RoundMerged(names, columns, d, cost, records, history, merges, lists, Columns(cols, series), corr, sqrt, r.value);
    }
  }

  /** Lines 86-93: merging the closest pair of the live columns extends the run and the closest run. */
  lemma {:induction false} RoundMerged(names: seq<string>, columns: seq<seq<real>>, d: Frame<string>,
                                       cost: (Frame<string>, Grouping) -> real, records: seq<Record>,
                                       history: seq<Grouping>, merges: seq<(int, int)>,
                                       lists: map<int, seq<string>>, now: Columns,
                                       corr: (seq<real>, seq<real>) -> real, sqrt: real -> real, pair: (int, int))
    requires IsRun(names, d, cost, records, history, merges, lists)
    requires IsColumnState(names, columns, corr, sqrt, merges, now, lists)
    requires IsTable(now) && pair.0 in now.labels && pair.1 in now.labels
    requires Closest(now, corr, sqrt) == Some(pair) && pair.0 in lists && pair.1 in lists
    ensures var lists' := lists[pair.0 := lists[pair.0] + lists[pair.1]];
      IsRun(names, d, cost, records, history, merges, lists') &&
      IsColumnState(names, columns, corr, sqrt, merges + [pair], MergedColumns(now, pair.0, pair.1), lists')
  {
    var (g1, g2) := pair;
    RunExtends(names, d, cost, records, history, merges, lists, g1, lists[g2]);
    ClosestRunExtends(columns, corr, sqrt, merges, pair);
    StatesExtend(columns, merges, pair);
    ReplayExtends(names, merges, g1, g2);
  }

  /**
   * The recorded part of the loop at the head of an iteration: nothing yet,
   * while the live grouping is still the singletons, and afterwards a run
   * whose last round was merged by `pending` into the live grouping.
   */
  ghost predicate IsHead(names: seq<string>, d: Frame<string>, cost: (Frame<string>, Grouping) -> real,
                         records: seq<Record>, history: seq<Grouping>, merges: seq<(int, int)>,
                         pending: (int, int), lists: map<int, seq<string>>, keys: set<int>)
    requires keys <= lists.Keys
  {
    |records| + |keys| == |names| &&
    (|records| == 0 ==> View(lists, keys) == Singletons(names) && history == [] && merges == []) &&
    (|records| > 0 ==>
       IsRun(names, d, cost, records, history, merges, lists) &&
       IsMergeStep(history[|history| - 1], View(lists, keys), pending))
  }

  /** Lines 79-80: recording the live grouping, a shallow copy, with its cost extends the run. */
  lemma {:induction false} RoundRecorded(names: seq<string>, d: Frame<string>, cost: (Frame<string>, Grouping) -> real,
                                         records: seq<Record>, history: seq<Grouping>, merges: seq<(int, int)>,
                                         pending: (int, int), lists: map<int, seq<string>>, keys: set<int>)
    requires keys <= lists.Keys && IsPartition(View(lists, keys), names)
    requires IsHead(names, d, cost, records, history, merges, pending, lists, keys)
    ensures IsRun(names, d, cost, records + [Record(keys, cost(d, View(lists, keys)))], history + [View(lists, keys)],
                  if |history| == 0 then [] else merges + [pending], lists)
    ensures |history| + 1 + |keys| == |names| + 1
  {
    if |records| == 0 {
      RunStarts(names, d, cost, lists, keys);
    } else {
      RunRecords(names, d, cost, records, history, merges, lists, keys, pending);
    }
  }

  /**
   * Lines 71 and 73-93: the merge loop, with `all_distances` (line 72) given
   * as `d`. It ends at two groups, or when a pair found names a group that is
   * not live (`failure`). `all` is `all_groupings`; the ghost results
   * `history[t]`, the grouping the cost function saw in round t, and
   * `merges[t]`, the closest pair of round t's columns and the pair merged
   * after it, expose the run.
   */
  method MergeLoop(names: seq<string>, columns: seq<seq<real>>, d: Frame<string>,
                   corr: (seq<real>, seq<real>) -> real, sqrt: real -> real,
                   cost: (Frame<string>, Grouping) -> real)
    returns (failure: Option<Error>, all: seq<Record>, ghost history: seq<Grouping>,
             ghost merges: seq<(int, int)>, lists: map<int, seq<string>>)
    requires 2 <= |names| == |columns| && IsRectangular(columns)
    requires IsSqrt(sqrt) && IsSymmetricCorr(corr)
    ensures IsRun(names, d, cost, all, history, merges, lists)
    ensures IsClosestRun(columns, corr, sqrt, merges) && lists == Replay(names, merges)
    ensures |history| <= |names| - 1
    ensures failure.None? ==>
              |history| == |names| - 1 && View(lists, history[|history| - 1].Keys) == history[|history| - 1]
    ensures failure.Some? ==>
              var last := States(columns, merges)[|merges|];
              failure.value.key !in history[|history| - 1] &&
              Closest(last, corr, sqrt).Some? && Closest(last, corr, sqrt).value.1 == failure.value.key
  {
    lists := Singletons(names);
    var keys := lists.Keys;
    var cols := Positions(|names|);
    var series := columns;
    ghost var rows := |columns[0]|;
    InitialLive(names, columns);
    all, history, merges := [], [], [];
    ghost var pending: (int, int) := (0, 0);
    ghost var done: seq<(int, int)> := [];
    while true
      invariant IsLive(names, lists, keys, cols, series, rows) && 2 <= |keys|
      invariant IsHead(names, d, cost, all, history, merges, pending, lists, keys)
      invariant done == if |history| == 0 then [] else merges + [pending]
      invariant IsColumnState(names, columns, corr, sqrt, done, Columns(cols, series), lists)
      decreases |keys|
    {
      RoundRecorded(names, d, cost, all, history, merges, pending, lists, keys);
      all := all + [Record(keys, cost(d, View(lists, keys)))];
      history, merges := history + [View(lists, keys)], done;
      if |keys| == 2 {
        return None, all, history, merges, lists;
      }
      var step, lists', keys', cols', series' :=
        MergeRound(names, columns, d, cost, all, history, merges, lists, keys, cols, series, rows, corr, sqrt);
      if step.Err? {
        return Some(step.error), all, history, merges, lists;
      }
      lists, keys, cols, series := lists', keys', cols', series';
      pending, done := step.value, merges + [step.value];
    }
  }

  /**
   * The shallow copy at line 80 on three assets: once group 1 is merged into
   * group 0, the first snapshot shows asset "b" twice, so an earlier
   * snapshot returned at line 101 need not be a partition.
   */
  lemma SnapshotSharesLists()
    ensures var lists := Singletons(["a", "b", "c"]);
      var first := View(lists[0 := lists[0] + lists[1]], lists.Keys);
      first == map[0 := ["a", "b"], 1 := ["b"], 2 := ["c"]] && !IsPartition(first, ["a", "b", "c"])
  {
    SharedView();
    RepeatedMember();
  }

  lemma SharedView()
    ensures var lists := Singletons(["a", "b", "c"]);
      View(lists[0 := lists[0] + lists[1]], lists.Keys) == map[0 := ["a", "b"], 1 := ["b"], 2 := ["c"]]
  {
    var lists := Singletons(["a", "b", "c"]);
    var first := View(lists[0 := lists[0] + lists[1]], lists.Keys);
    assert lists.Keys == {0, 1, 2};
    assert lists[0] == ["a"] && lists[1] == ["b"] && lists[2] == ["c"];
    var g: Grouping := map[0 := ["a", "b"], 1 := ["b"], 2 := ["c"]];
    assert first.Keys == g.Keys && first[0] == g[0] && first[1] == g[1] && first[2] == g[2];
  }

  lemma RepeatedMember()
    ensures |Members(map[0 := ["a", "b"], 1 := ["b"], 2 := ["c"]])| == 4
  {
    var g: Grouping := map[0 := ["a", "b"], 1 := ["b"], 2 := ["c"]];
    assert g - {0} == map[1 := ["b"], 2 := ["c"]];
    MembersPick(g, 0);
    TwoMembers();
  }

  lemma TwoMembers()
    ensures Members(map[1 := ["b"], 2 := ["c"]]) == multiset{"b", "c"}
  {
    MembersAdd(map[1 := ["b"]], 2, ["c"]);
    OneMember();
  }

  lemma OneMember()
    ensures Members(map[1 := ["b"]]) == multiset{"b"}
  {
    MembersAdd(map[], 1, ["b"]);
  }

  /**
   * `get_best_grouping(returns, cost_function)` for the return columns
   * `columns` named `names`. The ghost results expose the run: `records` is
   * `all_groupings` (snapshot keys and costs), `history[t]` the grouping the
   * cost function saw in round t, `merges[t]` the pair merged after it,
   * which was the closest pair of the columns left by the merges before it,
   * `best` the position selected,
   * and `final` the member lists when the function returns, which every
   * snapshot shares.
   */
  method GetBestGrouping(names: seq<string>, columns: seq<seq<real>>,
                         corr: (seq<real>, seq<real>) -> real, sqrt: real -> real,
                         cost: (Frame<string>, Grouping) -> real)
    returns (r: Result<Grouping>, ghost records: seq<Record>, ghost history: seq<Grouping>,
             ghost merges: seq<(int, int)>, ghost best: nat,
             ghost final: map<int, seq<string>>)
    requires 2 <= |names| == |columns| && IsRectangular(columns)
    requires IsSqrt(sqrt) && IsSymmetricCorr(corr)
    ensures IsRun(names, AllDistances(names, columns, corr, sqrt), cost, records, history, merges, final)
    ensures IsClosestRun(columns, corr, sqrt, merges) && final == Replay(names, merges)
    ensures |history| <= |names| - 1
    ensures r.Ok? ==> |history| == |names| - 1 && IsFirstMinimum(Costs(records), best)
    ensures r.Ok? ==> r.value == View(final, records[best].keys)
    ensures r.Ok? ==> View(final, history[|history| - 1].Keys) == history[|history| - 1]
    ensures r.Err? ==>
              var last := States(columns, merges)[|merges|];
              r.error.key !in history[|history| - 1] &&
              Closest(last, corr, sqrt).Some? && Closest(last, corr, sqrt).value.1 == r.error.key
  {
    var failure, all, lists;
    var allDistances := AllDistances(names, columns, corr, sqrt);
    failure, all, history, merges, lists := MergeLoop(names, columns, allDistances, corr, sqrt, cost);
    records, final, best := all, lists, 0;
    if failure.Some? {
      return Err(failure.value), records, history, merges, best, final;
    }
    // lines 95-101
    var chosen, at := SelectBest(all);
    r, best := Ok(View(lists, chosen.keys)), at;
  }
}
