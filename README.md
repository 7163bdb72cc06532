# Agglomerative asset clustering, modelled in Dafny

This project models `clustering.py`, a small hierarchical-clustering
pipeline for asset allocation. It has five parts:

- Correlations are turned into distances `sqrt(2 (1 - c))`.
- The closest pair of groups is picked from a labelled distance matrix after
  masking its diagonal with `+inf`.
- The silhouette cost of a grouping is Rousseeuw's silhouette coefficient,
  negated and averaged.
- `get_best_grouping` runs the merge loop. It starts from one group per asset
  and merges the closest pair until two groups remain, recording every
  grouping with its cost on the way.
- The first recorded grouping of least cost is then selected.

Values are Dafny `real`s, so the model is exact arithmetic, not IEEE floats.

Modules, one per file, in the order the program is built up:

| module | file | contents |
|---|---|---|
| `Wrappers` | `wrappers.dfy` | `Option` |
| `Extended` | `extended.dfy` | extended reals `Fin(v) \| Inf` with their order `Le` and `Min`, shared by the pair finder and the silhouette cost |
| `Distance` | `distance.dfy` | labelled frames, `_corr_to_distance` |
| `NearestPair` | `nearest_pair.dfy` | the in-place diagonal fill on an `array2`, `_get_min_indices` |
| `Groupings` | `groupings.dfy` | `Grouping = map<int, seq<string>>`, its members as a multiset, partitions, merging, the singletons, ascending key order |
| `Silhouette` | `silhouette.dfy` | `_get_avg_distance`, `_get_silhouette_cost` (loops as methods, proved against recursive specification functions) |
| `Agglomerate` | `agglomerate.dfy` | `get_best_grouping`: the merge loop, the shallow-copy snapshots and the selection scan |

How the model represents the program:

- **Square roots.** Dafny cannot compute a real square root, so `sqrt` is a
  parameter, required (`Distance.IsSqrt`) to give a nonnegative root of any
  nonnegative real. Each distance `d` for a correlation `c <= 1` is then
  characterised by `d >= 0 && d * d == 2 (1 - c)`.
- **Correlations.** `returns.corr()` is a pairwise function `corr` of two
  return columns. It is required to be symmetric, as Pearson's correlation
  is.
- **Cost function.** `cost_function` is an arbitrary function of the
  distance frame and the grouping.
- **Silhouette inputs.** The silhouette cost is modelled on its own. The
  distance table is a function from pairs of names to reals, and the dict's
  iteration order is the parameter `keys`.
- **Shared member lists.** The dict snapshots taken at line 80 are shallow
  copies, so they share their member lists with the live dict. Each list
  object is created once, under its group's key, and is never replaced.
  The lists are therefore a heap `lists: map<int, seq<string>>` indexed by
  that key, and a dict is the set of keys it holds. `View(lists, keys)` is
  what a dict shows for the lists at a given moment.
- **Rounds.** `States(columns, merges)` lists the return columns of every
  round: the original columns relabelled 0..N-1, and then each round's
  columns with the next pair merged (g1's column averaged with g2's, g2's
  dropped). `IsClosestRun` says that each merge is the closest pair of the
  round it merges, and `Replay` gives the member lists that the merges
  build. The merge loop's contract ties its merges, its columns and its
  lists to these three.
- **Results.** `GetBestGrouping` returns the grouping that the selected
  snapshot shows when the function returns.
- **Ties.** The closest-pair rule sums the labels of all columns hitting
  the minimum. An in-row tie can therefore yield a label that is not a live
  group, and `grouping[group_2]` then raises `KeyError`. The model returns
  that case as `Err(MissingGroup(key))`. It proves that the other failures
  cannot happen while two or more groups remain: `group_1 == group_2` and
  an empty filtered index.

## Model

| member | source | states |
|---|---|---|
| Distance.CorrToDistance | clustering.py:16-18 | keeps the labels and the shape (square stays square); every entry for a correlation c <= 1 is a d >= 0 with d*d == 2(1 - c) |
| Distance.DistanceIsUnique | clustering.py:18 | the relational description fixes the distance: two values satisfying it for the same c are equal |
| Distance.UnitDiagonalGivesZeroDiagonal | clustering.py:16-18 | a square correlation frame with unit diagonal gives a zero diagonal |
| Distance.SymmetricGivesSymmetric | clustering.py:16-18 | a symmetric square correlation frame gives a symmetric square distance frame |
| Distance.DistanceRange | clustering.py:16-18 | correlations in [-1, 1] give distances in [0, 2] |
| Distance.TestDistances | tests/test_clustering.py:8-19 | the unit test's frame: zero diagonal, 1 for 0.5, and 1.78885438 and 1.41421356 (within 1e-6) for -0.6 and 0 |
| NearestPair.FillDiagonal | clustering.py:23 | in place: every diagonal cell becomes Inf and every other cell keeps its old value |
| NearestPair.GridMin | clustering.py:24 | `distances.min().min()`: a lower bound (in the order Fin < Inf) of every cell of the grid; `GridMinAttained` states that it is also one of the cells |
| NearestPair.GridMinAttained | clustering.py:24 | on a grid without empty rows the minimum is attained: some cell equals `GridMin` |
| NearestPair.RowLabelSum | clustering.py:25 | one entry of `(distances == min_distance).dot(distances.columns)`: the sum of the labels of the columns whose cell in the row equals the minimum; its properties are `RowLabelSumNonnegative`, `RowLabelSumHit`, `RowLabelSumSingle` and `RowLabelSumNone` |
| NearestPair.MinIndices | clustering.py:21-27 | `_get_min_indices` on the masked grid: the label of the first row with a nonzero label sum, paired with that sum, or None (the IndexError) when every row sums to 0; what it returns is stated by `PairIsOrdered`, `UniqueMinimum` and `TieYieldsLabelSum` |
| NearestPair.GetMinIndices | clustering.py:21-27 | masks the diagonal of the array in place and returns `MinIndices` of the masked grid: the first row whose label sum of minimum-hitting columns is nonzero, paired with that sum, or None when no such row exists (the source's IndexError) |
| NearestPair.FirstHit | clustering.py:26-27 | finds the first row with a nonzero label sum: every earlier row sums to 0, and None means that all rows do |
| NearestPair.PairIsOrdered | clustering.py:24-27 | on a masked symmetric matrix with at least two ascending labels, a pair is found; its first part is the label of a row whose cell at a column labelled at most the second equals the minimum, and first < second |
| NearestPair.UniqueMinimum | clustering.py:24-27 | when the off-diagonal minimum is attained only at (p, q) and (q, p), p < q, the result is (labels[p], labels[q]), distinct and ascending, and the minimum is the distance at that entry |
| NearestPair.TestMinIndices | tests/test_clustering.py:21-32 | the unit test's matrix gives (0, 3) |
| NearestPair.TieYieldsLabelSum | clustering.py:25-27 | a first row hitting the minimum in two columns yields the sum of their labels |
| NearestPair.ZeroLabelRowIsSkipped | clustering.py:26 | a row whose only minimum lies in column label 0 is filtered out, and with no other row nothing is found |
| NearestPair.Masked | clustering.py:23 | the masked grid of a matrix: Inf on the diagonal, the value elsewhere |
| Groupings.Singletons | clustering.py:71 | keys exactly 0..N-1, key i holding the single name i |
| Groupings.SingletonsSize | clustering.py:71 | one group per name |
| Groupings.SingletonsPartition | clustering.py:71 | the initial grouping is a partition of the names |
| Groupings.Merge | clustering.py:90-91 | removes key g2, g1's list becomes g1's list followed by g2's, every other group is unchanged, one group fewer |
| Groupings.MergePreservesMembers | clustering.py:90-91 | merging keeps the multiset of members, so a partition stays a partition |
| Groupings.SortedKeys | clustering.py:53 | the keys of a dict in strictly ascending order, each once (the iteration order of a dict whose keys were inserted as 0..N-1 and then only removed) |
| Groupings.AscendingUnique | clustering.py:53 | an ascending sequence is determined by its elements |
| Groupings.FlattenMembers | clustering.py:46-51 | visiting every key once meets every member once |
| Silhouette.SumDistance | clustering.py:34 | `distances.loc[asset, group_assets].sum()`: the distances from the asset to the group's members added in list order; `SumDistanceNonnegative` bounds it |
| Silhouette.AvgDistance | clustering.py:30-38 | `_get_avg_distance`, defined exactly where the source's divisions are (`Averageable`: a nonempty group, and two or more members when the asset is one of them); `AvgDistanceDivides` and `AvgExcludesSelf` state its value |
| Silhouette.AvgDistanceDivides | clustering.py:34-38 | the summed distance over a group is divided by its size when the asset is outside it and by size - 1 when it is inside |
| Silhouette.AvgExcludesSelf | clustering.py:34-38 | with a zero self-distance, the average over a group holding the asset is the mean over the other members |
| Silhouette.SumDistanceNonnegative | clustering.py:34 | nonnegative distances give a nonnegative sum |
| Silhouette.TestAverages | tests/test_clustering.py:34-60 | the tests' averages 0.75 and 0.6 |
| Silhouette.MinOutGroupIsMinimum | clustering.py:52-58 | the min over the other groups' averages: Inf exactly when no other key is visited; otherwise a value attained by some other group and at most every other group's average |
| Silhouette.MinOutGroup | clustering.py:52-58 | `min_out_group` after the keys visited so far, starting from +inf; `MinOutGroupIsMinimum` states that it is the least other-group average |
| Silhouette.AssetSilhouette | clustering.py:60 | `(min_out_group - in_group) / max(min_out_group, in_group)` where both averages are defined and the max is nonzero (`AssetComputable`); `SilhouetteIsRousseeuw` and `SilhouetteBounded` state its meaning |
| Silhouette.GetAssetSilhouette | clustering.py:52-60 | the inner key loop computes the asset's silhouette `AssetSilhouette` |
| Silhouette.GetGroupSilhouettes | clustering.py:48-61 | the loop over one group's members appends `GroupSilhouettes`: [0] for a single-member group, each member's silhouette in order otherwise |
| Silhouette.AssetsSilhouettes | clustering.py:51-61 | the values the `for asset in assets` loop appends for the first y members of a group, one per member; `AssetsSilhouettesAt` states that entry t is member t's silhouette |
| Silhouette.GroupSilhouettes | clustering.py:48-61 | what one group adds to `all_silhouettes`: exactly one value per member; `GroupSilhouettesAt` states that it is 0 for a single-member group and each member's silhouette otherwise |
| Silhouette.AllSilhouettes | clustering.py:44-61 | `all_silhouettes` after the first x keys of the dict; `SilhouetteCount` and `OnePerMember` state that it holds one value per member of those groups, `AllSilhouettesNext` that each key appends its group's values |
| Silhouette.AllSilhouettesNext | clustering.py:46-61 | visiting one more key appends exactly that group's values |
| Silhouette.SilhouetteCost | clustering.py:63 | minus the mean of all collected values; `OnePerMember` (one value per member) and `CostBounded` (within [-1, 1]) state what it averages and where it lies |
| Silhouette.GetSilhouetteCost | clustering.py:41-64 | the nested loops compute `SilhouetteCost`: minus the mean of the collected values |
| Silhouette.SilhouetteCount | clustering.py:44-61 | the values collected over the first x keys are exactly as many as the members of those groups |
| Silhouette.AllSilhouettesNonempty | clustering.py:63 | a computable grouping collects at least one value, so the mean is defined |
| Silhouette.AssetsSilhouettesAt | clustering.py:51-61 | entry t of a group's collected values is the silhouette of its member t |
| Silhouette.GroupSilhouettesAt | clustering.py:48-61 | one value per member of a group: 0 for a single-member group's member, the member's silhouette otherwise |
| Silhouette.OnePerMember | clustering.py:46-61 | exactly one value is collected per member of the grouping |
| Silhouette.SilhouetteIsRousseeuw | clustering.py:60 | (b - a) / max(b, a) is Rousseeuw's case-wise silhouette: 1 - a/b, 0 or b/a - 1 |
| Silhouette.SilhouetteBounded | clustering.py:60 | with nonnegative distances a silhouette lies in [-1, 1] |
| Silhouette.AllSilhouettesBounded | clustering.py:44-61 | every collected value lies in [-1, 1] |
| Silhouette.SumBounded | clustering.py:63 | a sum of values in [-1, 1] is bounded by their count |
| Silhouette.CostBounded | clustering.py:63 | with nonnegative distances the cost lies in [-1, 1] |
| Silhouette.TestSilhouetteCost | tests/test_clustering.py:62-75 | the test grouping's cost is -8/21 (-0.38095238) |
| Silhouette.TestAllSilhouettes | tests/test_clustering.py:62-75 | the test grouping collects 2/3 and 6/7 for its two-member group and 0 for each single-member group |
| Agglomerate.AllDistances | clustering.py:72 | `_corr_to_distance(returns.corr())` on the original columns: a square frame labelled by the asset names whose cell (i, j), for a correlation c <= 1 of columns i and j, is the d >= 0 with d*d == 2(1 - c) |
| Agglomerate.CorrFrame | clustering.py:72 | `returns.corr()`: a square frame with the column labels whose cell (i, j) is corr of columns i and j |
| Agglomerate.CorrFrameSymmetric | clustering.py:72 | a symmetric correlation gives a symmetric frame |
| Agglomerate.Average | clustering.py:92 | the merged column has as many rows as its parts |
| Agglomerate.AverageBetween | clustering.py:92 | each averaged row lies between the two rows it replaces, and equals them when they agree |
| Agglomerate.IndexOf | clustering.py:93 | the first position of a label among the column labels |
| Agglomerate.RemoveAt | clustering.py:93 | dropping a column keeps the others in order |
| Agglomerate.View | clustering.py:80 | the grouping a dict with a given key set shows: exactly those keys, each with its current list |
| Agglomerate.MergeView | clustering.py:90-91 | extending g1's list and popping g2 shows `Merge` of the grouping shown before |
| Agglomerate.RemoveLabel | clustering.py:93 | dropping a label from ascending labels that equal the keys leaves ascending labels that equal the remaining keys |
| Agglomerate.NextPair | clustering.py:87 | after the mask, the grid is the masked distances, a pair is found, its first label is live and smaller than the second |
| Agglomerate.SelectBest | clustering.py:95-99 | the strict `<` scan returns the record at the first position of least cost |
| Agglomerate.FirstMinimumUnique | clustering.py:95-99 | the first least-cost position is unique |
| Agglomerate.Distances | clustering.py:86 | distances of the current columns form a symmetric square matrix |
| Agglomerate.ClosestPair | clustering.py:86-87 | the pair is `MinIndices` of the masked distances, its first label a column and smaller than the second |
| Agglomerate.InitialLive | clustering.py:71-73 | the initial state is live: singleton lists, keys 0..N-1, columns relabelled 0..N-1 in ascending order, a partition of the names |
| Agglomerate.Absorb | clustering.py:90-93 | g1's list is extended by g2's and g2 leaves the dict; the new columns are `MergedColumns` of the old (g1's column averaged with g2's, g2's dropped, the rest kept); the state stays live and shows `Merge` of the old grouping |
| Agglomerate.MergeKeepsPartition | clustering.py:90-91 | the merged live grouping is still a partition of the names |
| Agglomerate.MergeColumns | clustering.py:92-93 | one column fewer, every column with the same number of rows |
| Agglomerate.Positions | clustering.py:73 | the labels 0..N-1 that replace the asset names as column labels; `FirstRoundColumns` states that the relabelled columns carry the singleton keys in ascending order |
| Agglomerate.ColumnOf | clustering.py:92 | `returns[k]`: the column at the first position labelled k; `MergedColumnsAt` and `MergedColumnOf` state what it is after a merge |
| Agglomerate.MergedColumns | clustering.py:92-93 | the columns after a merge: still one column per label and all of one length, one column fewer |
| Agglomerate.MergedColumnsAt | clustering.py:92-93 | after a merge the labels are the old ones without g2; g1's column is the mean of g1's and g2's old columns and every other column is unchanged |
| Agglomerate.MergedColumnOf | clustering.py:92-93 | the column of a kept label after a merge: the average for g1, the old column otherwise |
| Agglomerate.ColumnAfterRemove | clustering.py:92-93 | once the kept label's new position is known, its column there is the average for g1 and the old column otherwise |
| Agglomerate.IndexAfterRemove | clustering.py:93 | dropping one of ascending labels moves every later label down by one position and keeps the earlier ones |
| Agglomerate.Step | clustering.py:92-93 | one merge of the columns, when both groups still have a column; a table stays a table |
| Agglomerate.States | clustering.py:73-93 | the columns of every round, one more than there are merges: round 0 is the original columns relabelled 0..N-1, and every round is a table (`StatesStep` links each round to the next) |
| Agglomerate.Closest | clustering.py:86-87 | the pair `_get_min_indices` picks from the masked distances of a round's columns |
| Agglomerate.IsClosestRun | clustering.py:86-87 | each merge is `Closest` of the columns the merges before it left, back to the first merge on the original columns |
| Agglomerate.Replay | clustering.py:90 | the member lists the merges build from the singletons, g1's list extended by g2's at each merge |
| Agglomerate.StatesExtend | clustering.py:92-93 | one more merge appends one more round and keeps the earlier rounds |
| Agglomerate.StatesStep | clustering.py:92-93 | round t + 1's columns are round t's merged by `ms[t]` |
| Agglomerate.ClosestRunExtends | clustering.py:86-87 | merging the closest pair of the last round's columns extends a closest run |
| Agglomerate.ReplayExtends | clustering.py:90 | one more merge of two present groups extends g1's list by g2's in the replayed lists |
| Agglomerate.FirstRoundColumns | clustering.py:71-73 | the relabelled original columns, which are round 0 of any sequence of merges, carry the singleton keys 0..N-1 in ascending order |
| Agglomerate.MergedLabels | clustering.py:93 | a merge keeps the labels ascending and drops exactly g2's |
| Agglomerate.RoundColumns | clustering.py:73-93 | in every run, round t's columns carry exactly round t's keys, in ascending order |
| Agglomerate.RoundMerge | clustering.py:86-93 | in every run, round t's pair is two of its keys, first smaller than second, and round t + 1's columns are round t's merged by that pair |
| Agglomerate.RoundLabelsAreSortedKeys | clustering.py:73-93 | round t's column labels are exactly `SortedKeys` of round t's grouping: the order in which its dict is iterated |
| Agglomerate.MergeClosest | clustering.py:86-93 | the pair found is `Closest` of the current columns, ordered, with a live first label; a non-live second label is the KeyError and changes nothing; otherwise the lists merge and the columns become `MergedColumns` of the old, and the state stays live |
| Agglomerate.RunStarts | clustering.py:79-80 | recording the singletons starts a run |
| Agglomerate.RunRecords | clustering.py:79-80 | recording a grouping obtained by one merge extends the run by one round with one group fewer |
| Agglomerate.RunExtends | clustering.py:90 | extending a list keeps every earlier snapshot's list a prefix of its current list |
| Agglomerate.MergeRound | clustering.py:86-93 | a merge inside the loop keeps the run and the live state and extends the closest run by the merged pair, with the new columns and lists those the merges so far leave (`IsColumnState`); or it reports the missing key of the closest pair and leaves the lists unchanged |
| Agglomerate.RoundMerged | clustering.py:86-93 | merging the closest pair of the current columns extends both the run and the closest run, and leaves `MergedColumns` of the current columns and the replayed lists |
| Agglomerate.RoundRecorded | clustering.py:79-80 | appending the live grouping (a shallow copy) with its cost to the records and the snapshots extends the run, and the round count and the number of groups still add up to N + 1 |
| Agglomerate.MergeLoop | clustering.py:71-93 | round t sees a partition into N - t groups, records its keys and cost, and is turned into round t + 1 by the merge `merges[t]`; each merge is the closest pair of the columns the merges before it left (`IsClosestRun`), and the lists are those the merges build (`Replay`); without KeyError exactly N - 1 rounds (sizes N down to 2), and the last snapshot shows the live grouping; a KeyError names the second part of the last columns' closest pair, a key not in the live grouping |
| Agglomerate.SnapshotSharesLists | clustering.py:80-90 | with three assets, the first snapshot shows "b" twice after the first merge, so it is no longer a partition |
| Agglomerate.GetBestGrouping | clustering.py:67-101 | a run of N - 1 rounds over the initial distances in which every merge is the closest pair of its round's averaged columns and the lists are the replayed merges; the result is what the first least-cost snapshot shows at the end; the last snapshot shows exactly its grouping; a KeyError reports the closest pair's second key, outside the live grouping |

## Left out

- Floating point: IEEE rounding, NaN and infinities in the data are not modelled; all values are exact reals.
- `np.sqrt` is a parameter required to be a square root; no particular numeric square root is modelled.
- `returns.corr()` is an abstract symmetric pairwise function of two columns; Pearson's formula is not modelled.
- pandas and numpy mechanics (`.dot`, `.loc`, `.drop`, `.min`, dtype inference) are modelled as sequences, maps and arrays.
- The cost function is an arbitrary parameter of `GetBestGrouping`. The silhouette cost is modelled separately, on a distance function over names; the label lookup that would make it an instance of that parameter is not part of this model.
- The relabelling of the caller's frame at line 73 and the in-place column write at line 92 on the caller's object are not modelled; the model works on its own copy of the columns.
- Agglomerate.Average: the averaged column is computed exactly as `0.5 * (a + b)` over reals, without float rounding.
- Silhouette.GetSilhouetteCost: requires the grouping to be computable (at least one member in all, every average defined, another group for every asset whose silhouette is taken, a nonzero `max`), because the source divides by zero or yields NaN there; those failures are not modelled.
- Silhouette.GetSilhouetteCost: the dict's iteration order is the parameter `keys` (any enumeration of the keys); `Agglomerate.RoundLabelsAreSortedKeys` proves that every round's columns carry its keys in `Groupings.SortedKeys` order, the order the merge loop's dicts have.
- Agglomerate.GetBestGrouping: requires at least two columns; with one column the source fails on an empty index, not modelled.
