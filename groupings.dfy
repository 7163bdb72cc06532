/**
 * Groupings: the source's `Grouping = Dict[int, List[str]]`, a map from group
 * id to the ordered list of asset names in that group.
 */
module Groupings {

  type Grouping = map<int, seq<string>>

  /** All member names of a grouping, counted with multiplicity. */
  ghost function Members(g: Grouping): multiset<string>
    decreases |g|
  {
    if |g.Keys| == 0 then multiset{}
    else
      HasElement(g.Keys);
      var k :| k in g.Keys;
      multiset(g[k]) + Members(g - {k})
  }

  /** A non-empty set has an element. */
  lemma HasElement(s: set<int>)
    requires s != {}
    ensures exists x :: x in s
  {
    if forall x :: x !in s {
      assert false;
    }
  }

  /** `Members` does not depend on which key it takes apart first. */
  lemma {:induction false} MembersPick(g: Grouping, k: int)
    requires k in g
    ensures Members(g) == multiset(g[k]) + Members(g - {k})
    decreases |g|
  {
    assert g.Keys != {};
    var k' :| k' in g && Members(g) == multiset(g[k']) + Members(g - {k'});
    if k' != k {
      var h := g - {k'} - {k};
      assert g - {k} - {k'} == h;
      MembersPick(g - {k'}, k);
      MembersPick(g - {k}, k');
      assert (g - {k'})[k] == g[k] && (g - {k})[k'] == g[k'];
    }
  }

  /** A new group adds its members to those of the others. */
  lemma MembersAdd(g: Grouping, k: int, v: seq<string>)
    requires k !in g
    ensures Members(g[k := v]) == multiset(v) + Members(g)
  {
    MembersPick(g[k := v], k);
    assert g[k := v] - {k} == g;
  }

  /** Every original name sits in exactly one group, as often as it occurs among the names. */
  ghost predicate IsPartition(g: Grouping, names: seq<string>) {
    Members(g) == multiset(names)
  }

  /** `{i: [asset] for i, asset in enumerate(columns)}`. */
  function Singletons(names: seq<string>): (g: Grouping)
    ensures forall k :: k in g <==> 0 <= k < |names|
    ensures forall i :: 0 <= i < |names| ==> g[i] == [names[i]]
  {
    map i | 0 <= i < |names| :: [names[i]]
  }

  /** There are as many singleton groups as names. */
  lemma {:induction false} SingletonsSize(names: seq<string>)
    ensures |Singletons(names)| == |names|
    decreases |names|
  {
    if |names| > 0 {
      var n := |names| - 1;
      SingletonsSize(names[..n]);
      assert Singletons(names) == Singletons(names[..n])[n := [names[n]]];
    }
  }

  /** The initial grouping is a partition of the names. */
  lemma {:induction false} SingletonsPartition(names: seq<string>)
    ensures IsPartition(Singletons(names), names)
    decreases |names|
  {
    if |names| > 0 {
      var n := |names| - 1;
      var g, h := Singletons(names), Singletons(names[..n]);
      calc {
        Members(g);
        == { MembersPick(g, n); }
        multiset(g[n]) + Members(g - {n});
        == { SingletonsDropLast(names); }
        multiset([names[n]]) + Members(h);
        == { SingletonsPartition(names[..n]); }
        multiset([names[n]]) + multiset(names[..n]);
        == { MultisetOfSnoc(names); }
        multiset(names);
      }
    }
  }

  lemma MultisetOfSnoc<T>(s: seq<T>)
    requires |s| > 0
    ensures multiset(s) == multiset(s[..|s| - 1]) + multiset([s[|s| - 1]])
  {
    assert s == s[..|s| - 1] + [s[|s| - 1]];
  }

  lemma SingletonsDropLast(names: seq<string>)
    requires |names| > 0
    ensures Singletons(names) - {|names| - 1} == Singletons(names[..|names| - 1])
  {
    var n := |names| - 1;
    var g, h := Singletons(names) - {n}, Singletons(names[..n]);
    assert forall k :: k in g <==> k in h;
    assert forall k :: k in h ==> g[k] == h[k];
  }

  /** Lines 90-91: `grouping[g1].extend(grouping[g2])` then `grouping.pop(g2)`. */
  function Merge(g: Grouping, g1: int, g2: int): (r: Grouping)
    requires g1 in g && g2 in g && g1 != g2
    ensures r.Keys == g.Keys - {g2}
    ensures |r| == |g| - 1
    ensures r[g1] == g[g1] + g[g2]
    ensures forall k :: k in r && k != g1 ==> r[k] == g[k]
  {
    (g - {g2})[g1 := g[g1] + g[g2]]
  }

  /** Merging two groups keeps every name, so a partition stays a partition. */
  lemma MergePreservesMembers(g: Grouping, g1: int, g2: int)
    requires g1 in g && g2 in g && g1 != g2
    ensures Members(Merge(g, g1, g2)) == Members(g)
  {
    var r := Merge(g, g1, g2);
    MembersPick(r, g1);
    MembersPick(g, g2);
    MembersPick(g - {g2}, g1);
    MergeRest(g, g1, g2);
    assert multiset(r[g1]) == multiset(g[g1]) + multiset(g[g2]);
  }

  /** Apart from the merged group, a merge leaves the other groups as they were. */
  lemma MergeRest(g: Grouping, g1: int, g2: int)
    requires g1 in g && g2 in g && g1 != g2
    ensures Merge(g, g1, g2) - {g1} == g - {g2} - {g1} && (g - {g2})[g1] == g[g1]
  {
    assert Merge(g, g1, g2) - {g1} == g - {g2} - {g1};
  }

  /**
   * The keys of a grouping in ascending order; this is the order in which the
   * source iterates over a grouping, since its keys are inserted as 0..N-1 and
   * afterwards only removed.
   */
  function SortedKeys(s: set<int>): (r: seq<int>)
    ensures forall i, j :: 0 <= i < j < |r| ==> r[i] < r[j]
    ensures forall k :: k in r <==> k in s
    ensures |r| == |s|
    decreases s
  {
    if s == {} then []
    else
      SmallestExists(s);
      var k :| IsSmallest(k, s);
      [k] + SortedKeys(s - {k})
  }

  predicate IsSmallest(k: int, s: set<int>) {
    k in s && forall j :: j in s ==> k <= j
  }

  lemma SmallestExists(s: set<int>)
    requires s != {}
    ensures exists k :: IsSmallest(k, s)
  {
    var k := Smallest(s);
  }

  lemma {:induction false} Smallest(s: set<int>) returns (k: int)
    requires s != {}
    ensures IsSmallest(k, s)
    decreases s
  {
    HasElement(s);
    var x :| x in s;
    if s == {x} {
      k := x;
    } else {
      var y := Smallest(s - {x});
      k := if x <= y then x else y;
      forall j | j in s
        ensures k <= j
      {
        if j != x {
          assert j in s - {x};
        }
      }
    }
  }

  /** An ascending sequence is determined by its set of elements. */
  lemma {:induction false} AscendingUnique(a: seq<int>, b: seq<int>)
    requires forall i, j :: 0 <= i < j < |a| ==> a[i] < a[j]
    requires forall i, j :: 0 <= i < j < |b| ==> b[i] < b[j]
    requires forall k :: k in a <==> k in b
    ensures a == b
    decreases |a|
  {
    if |a| > 0 {
      assert a[0] in a;
    }
    if |b| > 0 {
      assert b[0] in b;
    }
    if |a| > 0 && |b| > 0 {
      assert a[0] in b && b[0] in a;
      var j :| 0 <= j < |b| && b[j] == a[0];
      var i :| 0 <= i < |a| && a[i] == b[0];
      assert b[0] <= b[j] && a[0] <= a[i];
      forall k
        ensures k in a[1..] <==> k in b[1..]
      {
        if k in a[1..] {
          var i :| 1 <= i < |a| && a[i] == k;
          assert k in b && k != b[0];
        }
        if k in b[1..] {
          var i :| 1 <= i < |b| && b[i] == k;
          assert k in a && k != a[0];
        }
      }
      AscendingUnique(a[1..], b[1..]);
    }
  }

  /** `keys` lists every key of `g` exactly once: the order in which a loop over the dict visits it. */
  predicate Enumerates(keys: seq<int>, g: Grouping) {
    (forall p :: 0 <= p < |keys| ==> keys[p] in g) &&
    (forall k :: k in g ==> k in keys) &&
    (forall p :: 0 <= p < |keys| ==> keys[p] !in keys[..p])
  }

  /** The member lists of the keys `ks`, one after the other. */
  function Flatten(g: Grouping, ks: seq<int>): (r: seq<string>)
    requires forall p :: 0 <= p < |ks| ==> ks[p] in g
    decreases |ks|
  {
    if |ks| == 0 then [] else Flatten(g, ks[..|ks| - 1]) + g[ks[|ks| - 1]]
  }

  /** Two groupings that agree on `ks` flatten `ks` alike. */
  lemma {:induction false} FlattenAgree(g: Grouping, h: Grouping, ks: seq<int>)
    requires forall p :: 0 <= p < |ks| ==> ks[p] in g && ks[p] in h && g[ks[p]] == h[ks[p]]
    ensures Flatten(g, ks) == Flatten(h, ks)
    decreases |ks|
  {
    if |ks| > 0 {
      FlattenAgree(g, h, ks[..|ks| - 1]);
    }
  }

  /** Without its last key, an enumeration enumerates the rest of the grouping. */
  lemma EnumeratesDropLast(g: Grouping, keys: seq<int>)
    requires Enumerates(keys, g) && |keys| > 0
    ensures Enumerates(keys[..|keys| - 1], g - {keys[|keys| - 1]})
  {
    var n := |keys| - 1;
    var ks, h := keys[..n], g - {keys[n]};
    forall k | k in h
      ensures k in ks
    {
      var p :| 0 <= p < |keys| && keys[p] == k;
      assert ks[p] == k;
    }
  }

  /** Visiting every key once meets every member once. */
  lemma {:induction false} FlattenMembers(g: Grouping, keys: seq<int>)
    requires Enumerates(keys, g)
    ensures multiset(Flatten(g, keys)) == Members(g)
    decreases |keys|
  {
    if |keys| > 0 {
      var n := |keys| - 1;
      var ks, h := keys[..n], g - {keys[n]};
      EnumeratesDropLast(g, keys);
      FlattenMembers(h, ks);
      FlattenAgree(g, h, ks);
      MembersPick(g, keys[n]);
      assert Flatten(g, keys) == Flatten(h, ks) + g[keys[n]];
    }
  }
}
