/**
 * `_get_avg_distance` and `_get_silhouette_cost`: the silhouette-style cost
 * of a grouping.
 *
 * For every asset of a group with two or more members, `a` is its average
 * distance to the rest of its own group and `b` the smallest average
 * distance to another group; its silhouette is `(b - a) / max(b, a)`. The
 * member of a single-asset group scores 0. The cost is minus the mean of all
 * silhouettes, so a lower cost means tighter, better separated groups.
 *
 * The distance table is a function from pairs of asset names to reals, and
 * `keys` is the order in which the dict's keys are visited.
 */
module Silhouette {
  import opened Groupings
  import opened Extended

  /** `distances.loc[asset, group].sum()`. */
  function SumDistance(d: (string, string) -> real, asset: string, group: seq<string>): real
    decreases |group|
  {
    if |group| == 0 then 0.0
    else SumDistance(d, asset, group[..|group| - 1]) + d(asset, group[|group| - 1])
  }

  /** The inputs on which the source's divisions by `len` and `len - 1` are defined. */
  predicate Averageable(asset: string, group: seq<string>) {
    |group| > 0 && (asset in group ==> |group| > 1)
  }

  /**
   * `_get_avg_distance`: the summed distance is divided by the group size and,
   * when the asset belongs to the group, rescaled by `len / (len - 1)`.
   */
  function AvgDistance(d: (string, string) -> real, asset: string, group: seq<string>): real
    requires Averageable(asset, group)
  {
    var n := |group| as real;
    var avg := SumDistance(d, asset, group) / n;
    if asset in group then avg * (n / (n - 1.0)) else avg
  }

  /** The average divides by the number of OTHER members of the group. */
  lemma AvgDistanceDivides(d: (string, string) -> real, asset: string, group: seq<string>)
    requires Averageable(asset, group)
    ensures asset !in group ==> AvgDistance(d, asset, group) == SumDistance(d, asset, group) / |group| as real
    ensures asset in group ==> AvgDistance(d, asset, group) == SumDistance(d, asset, group) / (|group| - 1) as real
  {
    if asset in group {
      RescaleMean(SumDistance(d, asset, group), |group| as real);
    }
  }

  lemma RescaleMean(s: real, n: real)
    requires n > 1.0
    ensures s / n * (n / (n - 1.0)) == s / (n - 1.0)
  {
    calc {
      s / n * (n / (n - 1.0));
      == (s * n) / (n * (n - 1.0));
      == { assert n * (n - 1.0) != 0.0; }
      s / (n - 1.0);
    }
  }

  lemma {:induction false} SumDistanceAppend(d: (string, string) -> real, asset: string, u: seq<string>, w: seq<string>)
    ensures SumDistance(d, asset, u + w) == SumDistance(d, asset, u) + SumDistance(d, asset, w)
    decreases |w|
  {
    if |w| > 0 {
      var n := |w| - 1;
      assert (u + w)[..|u + w| - 1] == u + w[..n];
      SumDistanceAppend(d, asset, u, w[..n]);
    } else {
      assert u + w == u;
    }
  }

  /**
   * With a zero self-distance, the in-group average of an asset that occurs
   * once in its group is its mean distance to the OTHER members: the
   * `len / (len - 1)` rescaling removes the asset itself from the count.
   */
  lemma AvgExcludesSelf(d: (string, string) -> real, asset: string, before: seq<string>, after: seq<string>)
    requires d(asset, asset) == 0.0
    requires asset !in before + after && |before + after| > 0
    ensures AvgDistance(d, asset, before + [asset] + after)
         == SumDistance(d, asset, before + after) / |before + after| as real
  {
    var group := before + [asset] + after;
    assert asset in group by {
      assert group[|before|] == asset;
    }
    SumDistanceAppend(d, asset, before + [asset], after);
    SumDistanceAppend(d, asset, before, [asset]);
    SumDistanceAppend(d, asset, before, after);
    AvgDistanceDivides(d, asset, group);
    assert SumDistance(d, asset, [asset]) == 0.0 by {
      assert [asset][..0] == [];
    }
  }

  /** Averages of nonnegative distances are nonnegative. */
  lemma {:induction false} SumDistanceNonnegative(d: (string, string) -> real, asset: string, group: seq<string>)
    requires forall v :: v in group ==> 0.0 <= d(asset, v)
    ensures 0.0 <= SumDistance(d, asset, group)
    decreases |group|
  {
    if |group| > 0 {
      assert group[|group| - 1] in group;
      SumDistanceNonnegative(d, asset, group[..|group| - 1]);
    }
  }

  /**
   * The loop over `list(grouping)` keeping `min(min_out_group, avg)` over the
   * groups other than `i`, starting from +inf, after the keys `ks`.
   */
  function MinOutGroup(d: (string, string) -> real, g: Grouping, i: int, ks: seq<int>, asset: string): Ext
    requires forall p :: 0 <= p < |ks| ==> ks[p] in g && Averageable(asset, g[ks[p]])
    decreases |ks|
  {
    if |ks| == 0 then Inf
    else
      var j := ks[|ks| - 1];
      var m := MinOutGroup(d, g, i, ks[..|ks| - 1], asset);
      if j == i then m else Min(m, Fin(AvgDistance(d, asset, g[j])))
  }

  /**
   * `min_out_group` is the least average over the groups other than `i`
   * among `ks`, and stays +inf exactly when there is no such group.
   */
  lemma {:induction false} MinOutGroupIsMinimum(d: (string, string) -> real, g: Grouping, i: int, ks: seq<int>, asset: string)
    requires forall p :: 0 <= p < |ks| ==> ks[p] in g && Averageable(asset, g[ks[p]])
    ensures var b := MinOutGroup(d, g, i, ks, asset);
      && (b == Inf <==> forall p :: 0 <= p < |ks| ==> ks[p] == i)
      && (b.Fin? ==> exists p :: 0 <= p < |ks| && ks[p] != i && b.v == AvgDistance(d, asset, g[ks[p]]))
      && (forall p :: 0 <= p < |ks| && ks[p] != i ==> Le(b, Fin(AvgDistance(d, asset, g[ks[p]]))))
    decreases |ks|
  {
    if |ks| > 0 {
      var n := |ks| - 1;
      MinOutGroupIsMinimum(d, g, i, ks[..n], asset);
      var m := MinOutGroup(d, g, i, ks[..n], asset);
      assert forall p :: 0 <= p < n ==> ks[..n][p] == ks[p];
      if m.Fin? {
        var p :| 0 <= p < n && ks[..n][p] != i && m.v == AvgDistance(d, asset, g[ks[..n][p]]);
        assert ks[p] != i;
      }
    }
  }

  function Max(x: real, y: real): (m: real)
    ensures x <= m && y <= m && (m == x || m == y)
  {
    if x < y then y else x
  }

  /**
   * The inputs on which the source computes a real silhouette for `asset` of
   * group `i`: every group can be averaged, some other group exists (otherwise
   * `min_out_group` stays +inf) and `max(b, a)` is not zero.
   */
  predicate AssetComputable(d: (string, string) -> real, g: Grouping, keys: seq<int>, i: int, asset: string) {
    i in keys && i in g &&
    (forall p :: 0 <= p < |keys| ==> keys[p] in g && Averageable(asset, g[keys[p]])) &&
    MinOutGroup(d, g, i, keys, asset).Fin? &&
    Max(MinOutGroup(d, g, i, keys, asset).v, AvgDistance(d, asset, g[i])) != 0.0
  }

  /** Line 60: the silhouette of one asset of a group with two or more members. */
  function AssetSilhouette(d: (string, string) -> real, g: Grouping, keys: seq<int>, i: int, asset: string): real
    requires AssetComputable(d, g, keys, i, asset)
  {
    var a := AvgDistance(d, asset, g[i]);
    var b := MinOutGroup(d, g, i, keys, asset).v;
    (b - a) / Max(b, a)
  }

  predicate GroupComputable(d: (string, string) -> real, g: Grouping, keys: seq<int>, i: int) {
    i in g && (|g[i]| != 1 ==> forall t :: 0 <= t < |g[i]| ==> AssetComputable(d, g, keys, i, g[i][t]))
  }

  /** The silhouettes of the first `y` members of group `i`, in order. */
  function AssetsSilhouettes(d: (string, string) -> real, g: Grouping, keys: seq<int>, i: int, y: nat): (r: seq<real>)
    requires GroupComputable(d, g, keys, i) && |g[i]| != 1 && y <= |g[i]|
    ensures |r| == y
  {
    if y == 0 then [] else AssetsSilhouettes(d, g, keys, i, y - 1) + [AssetSilhouette(d, g, keys, i, g[i][y - 1])]
  }

  /**
   * Lines 48-61: what one group contributes to `all_silhouettes`, one value
   * per member.
   */
  function GroupSilhouettes(d: (string, string) -> real, g: Grouping, keys: seq<int>, i: int): (r: seq<real>)
    requires GroupComputable(d, g, keys, i)
    ensures |r| == |g[i]|
  {
    if |g[i]| == 1 then [0.0] else AssetsSilhouettes(d, g, keys, i, |g[i]|)
  }

  /** Every group of the enumeration `keys` yields its silhouettes. */
  predicate GroupsComputable(d: (string, string) -> real, g: Grouping, keys: seq<int>) {
    Enumerates(keys, g) && forall p :: 0 <= p < |keys| ==> GroupComputable(d, g, keys, keys[p])
  }

  /** `all_silhouettes` after the first `x` groups. */
  function AllSilhouettes(d: (string, string) -> real, g: Grouping, keys: seq<int>, x: nat): (r: seq<real>)
    requires GroupsComputable(d, g, keys) && x <= |keys|
  {
    if x == 0 then [] else AllSilhouettes(d, g, keys, x - 1) + GroupSilhouettes(d, g, keys, keys[x - 1])
  }

  /** One more group appends its silhouettes. */
  lemma AllSilhouettesNext(d: (string, string) -> real, g: Grouping, keys: seq<int>, x: nat)
    requires GroupsComputable(d, g, keys) && x < |keys|
    ensures GroupComputable(d, g, keys, keys[x])
    ensures AllSilhouettes(d, g, keys, x + 1) == AllSilhouettes(d, g, keys, x) + GroupSilhouettes(d, g, keys, keys[x])
  {
  }

  /** Exactly one silhouette per member of the groups visited so far. */
  lemma {:induction false} SilhouetteCount(d: (string, string) -> real, g: Grouping, keys: seq<int>, x: nat)
    requires GroupsComputable(d, g, keys) && x <= |keys|
    ensures |AllSilhouettes(d, g, keys, x)| == |Flatten(g, keys[..x])|
  {
    if x > 0 {
      SilhouetteCount(d, g, keys, x - 1);
      assert keys[..x][..x - 1] == keys[..x - 1];
    }
  }

  /** The inputs on which `_get_silhouette_cost` returns a real number. */
  predicate Computable(d: (string, string) -> real, g: Grouping, keys: seq<int>) {
    GroupsComputable(d, g, keys) && |Flatten(g, keys)| > 0
  }

  function Sum(s: seq<real>): real
    decreases |s|
  {
    if |s| == 0 then 0.0 else Sum(s[..|s| - 1]) + s[|s| - 1]
  }

  lemma AllSilhouettesNonempty(d: (string, string) -> real, g: Grouping, keys: seq<int>)
    requires Computable(d, g, keys)
    ensures |AllSilhouettes(d, g, keys, |keys|)| > 0
  {
    SilhouetteCount(d, g, keys, |keys|);
    assert keys[..|keys|] == keys;
  }

  /** Line 63: minus the mean silhouette. */
  function SilhouetteCost(d: (string, string) -> real, g: Grouping, keys: seq<int>): real
    requires Computable(d, g, keys)
  {
    var all := AllSilhouettes(d, g, keys, |keys|);
    AllSilhouettesNonempty(d, g, keys);
    -Sum(all) / |all| as real
  }

  /** Lines 52-60: the in-group and out-group averages of one asset, and its silhouette. */
  method GetAssetSilhouette(d: (string, string) -> real, g: Grouping, keys: seq<int>, i: int, asset: string)
    returns (silhouette: real)
    requires AssetComputable(d, g, keys, i, asset)
    ensures silhouette == AssetSilhouette(d, g, keys, i, asset)
  {
    var inGroup, minOut := Inf, Inf;
    var z := 0;
    while z < |keys|
      invariant 0 <= z <= |keys|
      invariant inGroup == (if i in keys[..z] then Fin(AvgDistance(d, asset, g[i])) else Inf)
      invariant minOut == MinOutGroup(d, g, i, keys[..z], asset)
    {
      var j := keys[z];
      var avg := AvgDistance(d, asset, g[j]);
      assert keys[..z + 1] == keys[..z] + [j];
      if i == j {
        inGroup := Fin(avg);
      } else {
        minOut := Min(minOut, Fin(avg));
      }
      z := z + 1;
    }
    assert keys[..z] == keys;
    silhouette := (minOut.v - inGroup.v) / Max(minOut.v, inGroup.v);
  }

  /** Lines 48-61: the values one group appends to `all_silhouettes`. */
  method GetGroupSilhouettes(d: (string, string) -> real, g: Grouping, keys: seq<int>, i: int)
    returns (values: seq<real>)
    requires GroupComputable(d, g, keys, i)
    ensures values == GroupSilhouettes(d, g, keys, i)
  {
    var assets := g[i];
    if |assets| == 1 {
      return [0.0];
    }
    values := [];
    var y := 0;
    while y < |assets|
      invariant 0 <= y <= |assets|
      invariant values == AssetsSilhouettes(d, g, keys, i, y)
    {
      var silhouette := GetAssetSilhouette(d, g, keys, i, assets[y]);
      values := values + [silhouette];
      y := y + 1;
    }
  }

  /**
   * `_get_silhouette_cost`, with the groups' contributions (lines 48-61) in
   * `GetGroupSilhouettes` and the loop over the keys (lines 53-58) in
   * `GetAssetSilhouette`.
   */
  method GetSilhouetteCost(d: (string, string) -> real, g: Grouping, keys: seq<int>) returns (cost: real)
    requires Computable(d, g, keys)
    ensures cost == SilhouetteCost(d, g, keys)
  {
    var all: seq<real> := [];
    var x := 0;
    while x < |keys|
      invariant 0 <= x <= |keys|
      invariant all == AllSilhouettes(d, g, keys, x)
    {
      AllSilhouettesNext(d, g, keys, x);
      var values := GetGroupSilhouettes(d, g, keys, keys[x]);
      all := all + values;
      x := x + 1;
    }
    AllSilhouettesNonempty(d, g, keys);
    cost := -Sum(all) / |all| as real;
  }

  /** Entry `t` of `AssetsSilhouettes` is the silhouette of member `t`. */
  lemma {:induction false} AssetsSilhouettesAt(d: (string, string) -> real, g: Grouping, keys: seq<int>, i: int, y: nat, t: nat)
    requires GroupComputable(d, g, keys, i) && |g[i]| != 1 && t < y <= |g[i]|
    ensures AssetsSilhouettes(d, g, keys, i, y)[t] == AssetSilhouette(d, g, keys, i, g[i][t])
  {
    if t < y - 1 {
      AssetsSilhouettesAt(d, g, keys, i, y - 1, t);
    }
  }

  /**
   * One value per member of group `i`: 0 for the member of a single-asset
   * group, the member's silhouette otherwise.
   */
  lemma GroupSilhouettesAt(d: (string, string) -> real, g: Grouping, keys: seq<int>, i: int, t: nat)
    requires GroupComputable(d, g, keys, i) && t < |g[i]|
    ensures |GroupSilhouettes(d, g, keys, i)| == |g[i]|
    ensures |g[i]| == 1 ==> GroupSilhouettes(d, g, keys, i)[t] == 0.0
    ensures |g[i]| != 1 ==> GroupSilhouettes(d, g, keys, i)[t] == AssetSilhouette(d, g, keys, i, g[i][t])
  {
    if |g[i]| != 1 {
      AssetsSilhouettesAt(d, g, keys, i, |g[i]|, t);
    }
  }

  /** The cost averages exactly one silhouette per member of the grouping. */
  lemma OnePerMember(d: (string, string) -> real, g: Grouping, keys: seq<int>)
    requires GroupsComputable(d, g, keys)
    ensures |AllSilhouettes(d, g, keys, |keys|)| == |Members(g)|
  {
    SilhouetteCount(d, g, keys, |keys|);
    assert keys[..|keys|] == keys;
    FlattenMembers(g, keys);
  }

  /** Rousseeuw's case-wise definition of the silhouette of `a` (own group) against `b` (nearest other group). */
  function Rousseeuw(a: real, b: real): real
    requires a < b ==> b != 0.0
    requires b < a ==> a != 0.0
  {
    if a < b then 1.0 - a / b else if a == b then 0.0 else b / a - 1.0
  }

  /** Line 60 computes Rousseeuw's silhouette. */
  lemma SilhouetteIsRousseeuw(d: (string, string) -> real, g: Grouping, keys: seq<int>, i: int, asset: string)
    requires AssetComputable(d, g, keys, i, asset)
    ensures var a, b := AvgDistance(d, asset, g[i]), MinOutGroup(d, g, i, keys, asset).v;
      AssetSilhouette(d, g, keys, i, asset) == Rousseeuw(a, b)
  {
    var a, b := AvgDistance(d, asset, g[i]), MinOutGroup(d, g, i, keys, asset).v;
    QuotientCases(a, b);
  }

  lemma QuotientCases(a: real, b: real)
    requires Max(b, a) != 0.0
    ensures (a < b ==> b != 0.0) && (b < a ==> a != 0.0)
    ensures (b - a) / Max(b, a) == Rousseeuw(a, b)
  {
    if a < b {
      assert Max(b, a) == b;
      DivideDifference(b, a, b);
    } else if b < a {
      assert Max(b, a) == a;
      DivideDifference(b, a, a);
    }
  }

  lemma DivideDifference(x: real, y: real, z: real)
    requires z != 0.0
    ensures (x - y) / z == x / z - y / z
  {
  }

  /** With nonnegative distances, a silhouette lies between -1 and 1. */
  lemma SilhouetteBounded(d: (string, string) -> real, g: Grouping, keys: seq<int>, i: int, asset: string)
    requires AssetComputable(d, g, keys, i, asset)
    requires forall u, v :: 0.0 <= d(u, v)
    ensures -1.0 <= AssetSilhouette(d, g, keys, i, asset) <= 1.0
  {
    var a := AvgDistance(d, asset, g[i]);
    var b := MinOutGroup(d, g, i, keys, asset).v;
    AvgNonnegative(d, asset, g[i]);
    MinOutGroupIsMinimum(d, g, i, keys, asset);
    var p :| 0 <= p < |keys| && keys[p] != i && b == AvgDistance(d, asset, g[keys[p]]);
    AvgNonnegative(d, asset, g[keys[p]]);
    QuotientBounded(a, b);
  }

  lemma AvgNonnegative(d: (string, string) -> real, asset: string, group: seq<string>)
    requires Averageable(asset, group)
    requires forall u, v :: 0.0 <= d(u, v)
    ensures 0.0 <= AvgDistance(d, asset, group)
  {
    SumDistanceNonnegative(d, asset, group);
    AvgDistanceDivides(d, asset, group);
  }

  lemma QuotientBounded(a: real, b: real)
    requires 0.0 <= a && 0.0 <= b && Max(b, a) != 0.0
    ensures -1.0 <= (b - a) / Max(b, a) <= 1.0
  {
    var m := Max(b, a);
    assert -m <= b - a <= m;
  }

  /** With nonnegative distances, every collected silhouette lies between -1 and 1. */
  lemma {:induction false} AllSilhouettesBounded(d: (string, string) -> real, g: Grouping, keys: seq<int>, x: nat)
    requires GroupsComputable(d, g, keys) && x <= |keys|
    requires forall u, v :: 0.0 <= d(u, v)
    ensures forall t :: 0 <= t < |AllSilhouettes(d, g, keys, x)| ==> -1.0 <= AllSilhouettes(d, g, keys, x)[t] <= 1.0
  {
    if x > 0 {
      AllSilhouettesBounded(d, g, keys, x - 1);
      var i := keys[x - 1];
      var prefix, group := AllSilhouettes(d, g, keys, x - 1), GroupSilhouettes(d, g, keys, i);
      forall t | 0 <= t < |group|
        ensures -1.0 <= group[t] <= 1.0
      {
        GroupSilhouettesAt(d, g, keys, i, t);
        if |g[i]| != 1 {
          SilhouetteBounded(d, g, keys, i, g[i][t]);
        }
      }
      assert AllSilhouettes(d, g, keys, x) == prefix + group;
    }
  }

  lemma {:induction false} SumBounded(s: seq<real>)
    requires forall t :: 0 <= t < |s| ==> -1.0 <= s[t] <= 1.0
    ensures -(|s| as real) <= Sum(s) <= |s| as real
    decreases |s|
  {
    if |s| > 0 {
      SumBounded(s[..|s| - 1]);
    }
  }

  /** With nonnegative distances the cost lies between -1 and 1. */
  lemma CostBounded(d: (string, string) -> real, g: Grouping, keys: seq<int>)
    requires Computable(d, g, keys)
    requires forall u, v :: 0.0 <= d(u, v)
    ensures -1.0 <= SilhouetteCost(d, g, keys) <= 1.0
  {
    var all := AllSilhouettes(d, g, keys, |keys|);
    AllSilhouettesNonempty(d, g, keys);
    AllSilhouettesBounded(d, g, keys, |keys|);
    SumBounded(all);
    MeanBounded(Sum(all), |all| as real);
  }

  lemma MeanBounded(s: real, n: real)
    requires n > 0.0 && -n <= s <= n
    ensures -1.0 <= -s / n <= 1.0
  {
    assert -s / n == (-s) * (1.0 / n);
  }

  /** The distance table of the unit tests, over the names `asset_0` .. `asset_3`. */
  function TestIndex(a: string): nat {
    if a == "asset_0" then 0 else if a == "asset_1" then 1 else if a == "asset_2" then 2 else 3
  }

  function TestDistance(a: string, b: string): real {
    var m := [[0.0, 0.3, 1.4, 0.1],
              [0.3, 0.0, 0.8, 0.7],
              [1.4, 0.8, 0.0, 1.7],
              [0.1, 0.7, 1.7, 0.0]];
    m[TestIndex(a)][TestIndex(b)]
  }

  lemma TestIndices()
    ensures TestIndex("asset_0") == 0 && TestIndex("asset_1") == 1
    ensures TestIndex("asset_2") == 2 && TestIndex("asset_3") == 3
  {
    assert "asset_1"[6] != "asset_0"[6];
    assert "asset_2"[6] != "asset_0"[6] && "asset_2"[6] != "asset_1"[6];
    assert "asset_3"[6] != "asset_0"[6] && "asset_3"[6] != "asset_1"[6] && "asset_3"[6] != "asset_2"[6];
  }

  /** The two averages the unit tests expect: 0.75 inside a group and 0.6 outside. */
  lemma TestAverages()
    ensures AvgDistance(TestDistance, "asset_1", ["asset_1", "asset_2", "asset_3"]) == 0.75
    ensures AvgDistance(TestDistance, "asset_1", ["asset_0", "asset_2", "asset_3"]) == 0.6
  {
    var inside, outside := ["asset_1", "asset_2", "asset_3"], ["asset_0", "asset_2", "asset_3"];
    TestIndices();
    assert inside[..2] == ["asset_1", "asset_2"] && inside[..2][..1] == ["asset_1"];
    assert SumDistance(TestDistance, "asset_1", ["asset_1"]) == 0.0;
    assert SumDistance(TestDistance, "asset_1", ["asset_1", "asset_2"]) == 0.8;
    assert SumDistance(TestDistance, "asset_1", inside) == 1.5;
    assert "asset_1" in inside;
    AvgDistanceDivides(TestDistance, "asset_1", inside);
    assert outside[..2] == ["asset_0", "asset_2"] && outside[..2][..1] == ["asset_0"];
    assert SumDistance(TestDistance, "asset_1", ["asset_0"]) == 0.3;
    assert SumDistance(TestDistance, "asset_1", ["asset_0", "asset_2"]) == 1.1;
    assert SumDistance(TestDistance, "asset_1", outside) == 1.8;
    assert "asset_1" !in outside;
    AvgDistanceDivides(TestDistance, "asset_1", outside);
  }

  /** The grouping of the unit test of the cost: `{0: [asset_0, asset_3], 1: [asset_1], 2: [asset_2]}`. */
  function TestGrouping(): Grouping {
    map[0 := ["asset_0", "asset_3"], 1 := ["asset_1"], 2 := ["asset_2"]]
  }

  /** The averages of `asset` against the three test groups, given the two sums over group 0. */
  lemma TestAssetAverages(asset: string, row: nat, own: real, toA1: real, toA2: real)
    requires asset in ["asset_0", "asset_3"] && row == TestIndex(asset)
    requires own == TestDistance(asset, "asset_0") + TestDistance(asset, "asset_3")
    requires toA1 == TestDistance(asset, "asset_1") && toA2 == TestDistance(asset, "asset_2")
    ensures Averageable(asset, TestGrouping()[0]) && Averageable(asset, TestGrouping()[1]) && Averageable(asset, TestGrouping()[2])
    ensures AvgDistance(TestDistance, asset, TestGrouping()[0]) == own
    ensures AvgDistance(TestDistance, asset, TestGrouping()[1]) == toA1
    ensures AvgDistance(TestDistance, asset, TestGrouping()[2]) == toA2
  {
    var g := TestGrouping();
    TestIndices();
    assert asset in g[0];
    assert asset !in g[1] && asset !in g[2];
    assert g[0][..1] == ["asset_0"];
    assert SumDistance(TestDistance, asset, g[0]) == own;
    assert SumDistance(TestDistance, asset, g[1]) == toA1 by {
      assert g[1][..0] == [];
    }
    assert SumDistance(TestDistance, asset, g[2]) == toA2 by {
      assert g[2][..0] == [];
    }
    AvgDistanceDivides(TestDistance, asset, g[0]);
    AvgDistanceDivides(TestDistance, asset, g[1]);
    AvgDistanceDivides(TestDistance, asset, g[2]);
  }

  /** The nearest other group of a member of group 0 is the nearer of groups 1 and 2. */
  lemma TestMinOutGroup(asset: string)
    requires forall j :: j in TestGrouping() ==> Averageable(asset, TestGrouping()[j])
    ensures MinOutGroup(TestDistance, TestGrouping(), 0, [0, 1, 2], asset)
         == Min(Fin(AvgDistance(TestDistance, asset, TestGrouping()[1])), Fin(AvgDistance(TestDistance, asset, TestGrouping()[2])))
  {
    var keys: seq<int> := [0, 1, 2];
    assert keys[..2] == [0, 1] && keys[..2][..1] == [0] && keys[..2][..1][..0] == [];
    assert MinOutGroup(TestDistance, TestGrouping(), 0, [0], asset) == Inf;
  }

  lemma TestAssetSilhouettes()
    ensures AssetComputable(TestDistance, TestGrouping(), [0, 1, 2], 0, "asset_0")
    ensures AssetComputable(TestDistance, TestGrouping(), [0, 1, 2], 0, "asset_3")
    ensures AssetSilhouette(TestDistance, TestGrouping(), [0, 1, 2], 0, "asset_0") == 2.0 / 3.0
    ensures AssetSilhouette(TestDistance, TestGrouping(), [0, 1, 2], 0, "asset_3") == 6.0 / 7.0
  {
    var g, keys: seq<int> := TestGrouping(), [0, 1, 2];
    TestIndices();
    TestAssetAverages("asset_0", 0, 0.1, 0.3, 1.4);
    TestMinOutGroup("asset_0");
    TestAssetAverages("asset_3", 3, 0.1, 0.7, 1.7);
    TestMinOutGroup("asset_3");
  }

  lemma TestGroupsComputable()
    ensures GroupsComputable(TestDistance, TestGrouping(), [0, 1, 2])
  {
    var g, keys: seq<int> := TestGrouping(), [0, 1, 2];
    TestAssetSilhouettes();
    TestEnumerates();
    assert GroupComputable(TestDistance, g, keys, 0) by {
      assert g[0] == ["asset_0", "asset_3"];
    }
    assert GroupComputable(TestDistance, g, keys, 1) && GroupComputable(TestDistance, g, keys, 2);
  }

  lemma TestEnumerates()
    ensures Enumerates([0, 1, 2], TestGrouping())
  {
    assert TestGrouping().Keys == {0, 1, 2};
  }

  lemma TestAllSilhouettes()
    ensures GroupsComputable(TestDistance, TestGrouping(), [0, 1, 2])
    ensures AllSilhouettes(TestDistance, TestGrouping(), [0, 1, 2], 3) == [2.0 / 3.0, 6.0 / 7.0, 0.0, 0.0]
  {
    var g, keys: seq<int> := TestGrouping(), [0, 1, 2];
    TestAssetSilhouettes();
    TestGroupsComputable();
    assert AssetsSilhouettes(TestDistance, g, keys, 0, 2) == [2.0 / 3.0, 6.0 / 7.0];
    assert AllSilhouettes(TestDistance, g, keys, 1) == [2.0 / 3.0, 6.0 / 7.0];
  }

  /** The unit test of the cost: -8/21, that is -0.38095238... */
  lemma TestSilhouetteCost()
    ensures Computable(TestDistance, TestGrouping(), [0, 1, 2])
    ensures SilhouetteCost(TestDistance, TestGrouping(), [0, 1, 2]) == -8.0 / 21.0
  {
    var g, keys: seq<int> := TestGrouping(), [0, 1, 2];
    TestAllSilhouettes();
    SilhouetteCount(TestDistance, g, keys, 3);
    assert keys[..3] == keys;
    TestSum();
  }

  lemma TestSum()
    ensures Sum([2.0 / 3.0, 6.0 / 7.0, 0.0, 0.0]) == 32.0 / 21.0
  {
    var all := [2.0 / 3.0, 6.0 / 7.0, 0.0, 0.0];
    assert all[..3] == [2.0 / 3.0, 6.0 / 7.0, 0.0] && all[..3][..2] == [2.0 / 3.0, 6.0 / 7.0];
    assert all[..3][..2][..1] == [2.0 / 3.0] && all[..3][..2][..1][..0] == [];
    assert Sum([2.0 / 3.0]) == 2.0 / 3.0;
    assert Sum([2.0 / 3.0, 6.0 / 7.0]) == 2.0 / 3.0 + 6.0 / 7.0;
    assert Sum([2.0 / 3.0, 6.0 / 7.0, 0.0]) == 2.0 / 3.0 + 6.0 / 7.0;
  }
}
