/**
 * Greedy nets over the points 0 to n - 1 and a relation `near`: partitions of the points around centres,
 * each point at the earliest centre in range.
 */
module GreedyNet {
  import opened Common

  /** A group lists indices of points in order. */
  ghost predicate Increasing(group: seq<nat>, n: nat) {
    && (forall a, b :: 0 <= a < b < |group| ==> group[a] < group[b])
    && (forall a :: 0 <= a < |group| ==> group[a] < n)
  }

  /** The centre of a group is its first index. */
  function Centre(group: seq<nat>): nat {
    if group == [] then 0 else group[0]
  }

  /** Index `j` is in group `g`. */
  ghost predicate In(groups: seq<seq<nat>>, g: nat, j: nat) {
    g < |groups| && j in groups[g]
  }

  ghost predicate Grouped(groups: seq<seq<nat>>, j: nat) {
    exists g: nat :: In(groups, g, j)
  }

  /** Groups are in order, and so are their centres. */
  ghost predicate Ordered(groups: seq<seq<nat>>, n: nat) {
    && (forall g :: 0 <= g < |groups| ==> groups[g] != [] && Increasing(groups[g], n))
    && (forall g, h :: 0 <= g < h < |groups| ==> Centre(groups[g]) < Centre(groups[h]))
  }

  /** No index is in two groups. */
  ghost predicate Disjoint(groups: seq<seq<nat>>) {
    forall g: nat, h: nat, j: nat :: In(groups, g, j) && In(groups, h, j) ==> g == h
  }

  /** Every point of a group is its centre or near it. */
  ghost predicate WithinReach(near: (nat, nat) -> bool, groups: seq<seq<nat>>) {
    forall g: nat, j: nat :: In(groups, g, j) && j != Centre(groups[g]) ==> near(Centre(groups[g]), j)
  }

  /** No point of a group is near an earlier centre. */
  ghost predicate Earliest(near: (nat, nat) -> bool, groups: seq<seq<nat>>) {
    forall g: nat, h: nat, j: nat :: In(groups, h, j) && g < h ==> !near(Centre(groups[g]), j)
  }

  /** A greedy net: a partition of the points around centres, each point at the earliest centre in range. */
  ghost predicate Net(n: nat, near: (nat, nat) -> bool, groups: seq<seq<nat>>) {
    && Ordered(groups, n) && Disjoint(groups)
    && WithinReach(near, groups) && Earliest(near, groups)
    && forall j: nat :: j < n ==> Grouped(groups, j)
  }

  /** Centres are at least the threshold apart. */
  lemma CentresAreApart(n: nat, near: (nat, nat) -> bool, groups: seq<seq<nat>>, g: nat, h: nat)
    requires Net(n, near, groups)
    requires g < |groups| && h < |groups| && g != h
    requires forall i: nat, j: nat :: near(i, j) <==> near(j, i)
    ensures !near(Centre(groups[g]), Centre(groups[h]))
  {
    assert In(groups, g, Centre(groups[g])) && In(groups, h, Centre(groups[h]));
  }

  /** The net of the points is unique: any two nets put every point at the same centre. */
  lemma {:induction false} NetIsUnique(n: nat, near: (nat, nat) -> bool, a: seq<seq<nat>>, b: seq<seq<nat>>,
                                       j: nat, g: nat, h: nat)
    requires Net(n, near, a) && Net(n, near, b)
    requires In(a, g, j) && In(b, h, j)
    ensures Centre(a[g]) == Centre(b[h])
    decreases j, 1
  {
    CentreIsLeast(n, a, g, j);
    CentreIsLeast(n, b, h, j);
    NoEarlierCentre(n, near, a, b, j, g, h);
    NoEarlierCentre(n, near, b, a, j, h, g);
  }

  /** If the first net had an earlier centre for a point than the second, the second would use it too. */
  lemma {:induction false} NoEarlierCentre(n: nat, near: (nat, nat) -> bool, a: seq<seq<nat>>, b: seq<seq<nat>>,
                                           j: nat, g: nat, h: nat)
    requires Net(n, near, a) && Net(n, near, b)
    requires In(a, g, j) && In(b, h, j) && Centre(b[h]) <= j
    ensures Centre(a[g]) >= Centre(b[h])
    decreases j, 0
  {
    var centre := Centre(a[g]);
    if centre < Centre(b[h]) {
      assert In(a, g, centre) && Grouped(b, centre);
      var k: nat :| In(b, k, centre);
      NetIsUnique(n, near, a, b, centre, g, k);
      assert false;
    }
  }

  lemma CentreIsLeast(n: nat, groups: seq<seq<nat>>, g: nat, j: nat)
    requires Ordered(groups, n) && In(groups, g, j)
    ensures Centre(groups[g]) <= j
  {
    var a: nat :| a < |groups[g]| && groups[g][a] == j;
  }

  // ------------------------------------------------------------------ building a net

  /** The group made around point `i` from the free points before `end`. */
  ghost predicate GroupOf(n: nat, near: (nat, nat) -> bool, i: nat, used: set<nat>, group: seq<nat>, end: nat) {
    && group != [] && Centre(group) == i && Increasing(group, n)
    && (forall a :: 0 < a < |group| ==> group[a] < end && near(i, group[a]))
    && (forall a :: 0 <= a < |group| ==> group[a] !in used)
    && (forall j: nat :: j < end && j != i && j !in used && near(i, j) ==> j in group)
  }

  lemma GroupStarts(n: nat, near: (nat, nat) -> bool, i: nat, used: set<nat>)
    requires i < n && i !in used
    ensures GroupOf(n, near, i, used, [i], 0)
  {
  }

  /** The group after looking at point `j`. */
  lemma GroupLooksAt(n: nat, near: (nat, nat) -> bool, i: nat, used: set<nat>, group: seq<nat>, j: nat)
    requires j < n && (forall k: nat :: k < i ==> k in used)
    requires GroupOf(n, near, i, used, group, j)
    ensures GroupOf(n, near, i, used,
                    if j != i && j !in used && near(i, j) then group + [j] else group, j + 1)
    ensures j !in group || j == i
  {
  }

  /** The points in groups are the used ones, and no free point is near a centre. */
  ghost predicate Partial(n: nat, near: (nat, nat) -> bool, groups: seq<seq<nat>>, used: set<nat>, i: nat) {
    && Ordered(groups, n) && Disjoint(groups)
    && WithinReach(near, groups) && Earliest(near, groups)
    && (forall j: nat :: j in used <==> Grouped(groups, j))
    && (forall g :: 0 <= g < |groups| ==> Centre(groups[g]) < i)
    && (forall j: nat :: j < i ==> j in used)
    && NoneMissed(n, near, groups, used)
  }

  ghost predicate NoneMissed(n: nat, near: (nat, nat) -> bool, groups: seq<seq<nat>>, used: set<nat>) {
    forall g: nat, j: nat :: g < |groups| && j < n && near(Centre(groups[g]), j) ==> j in used
  }

  lemma GroupedAppend(groups: seq<seq<nat>>, group: seq<nat>, j: nat)
    ensures Grouped(groups + [group], j) <==> Grouped(groups, j) || j in group
  {
    if j in group {
      assert In(groups + [group], |groups|, j);
    }
    if Grouped(groups, j) {
      var k: nat :| In(groups, k, j);
      assert In(groups + [group], k, j);
    }
    if Grouped(groups + [group], j) {
      var k: nat :| In(groups + [group], k, j);
      assert k < |groups| ==> In(groups, k, j);
    }
  }

  lemma InAppend(groups: seq<seq<nat>>, group: seq<nat>)
    ensures forall g: nat, j: nat :: In(groups + [group], g, j) <==> In(groups, g, j) || (g == |groups| && j in group)
  {
  }

  lemma OrderedMore(groups: seq<seq<nat>>, group: seq<nat>, n: nat)
    requires Ordered(groups, n) && group != [] && Increasing(group, n)
    requires forall g :: 0 <= g < |groups| ==> Centre(groups[g]) < Centre(group)
    ensures Ordered(groups + [group], n)
  {
  }

  lemma DisjointMore(groups: seq<seq<nat>>, group: seq<nat>)
    requires Disjoint(groups) && forall j :: j in group ==> !Grouped(groups, j)
    ensures Disjoint(groups + [group])
  {
    InAppend(groups, group);
    forall g: nat, h: nat, j: nat | In(groups + [group], g, j) && In(groups + [group], h, j) ensures g == h {
      assert In(groups, g, j) ==> Grouped(groups, j);
      assert In(groups, h, j) ==> Grouped(groups, j);
    }
  }

  lemma GreedyMore(n: nat, near: (nat, nat) -> bool, groups: seq<seq<nat>>, used: set<nat>, i: nat, group: seq<nat>)
    requires Partial(n, near, groups, used, i)
    requires GroupOf(n, near, i, used, group, n)
    ensures WithinReach(near, groups + [group]) && Earliest(near, groups + [group])
  {
    var all := groups + [group];
    InAppend(groups, group);
    forall g: nat, j: nat | In(all, g, j) && j != Centre(all[g]) ensures near(Centre(all[g]), j) {
      if g < |groups| {
        assert In(groups, g, j);
      }
    }
    forall g: nat, h: nat, j: nat | In(all, h, j) && g < h ensures !near(Centre(all[g]), j) {
      if h < |groups| {
        assert In(groups, h, j);
      }
    }
  }

  lemma NoneMissedMore(n: nat, near: (nat, nat) -> bool, groups: seq<seq<nat>>, used: set<nat>, i: nat, group: seq<nat>)
    requires NoneMissed(n, near, groups, used)
    requires GroupOf(n, near, i, used, group, n)
    ensures NoneMissed(n, near, groups + [group], used + Elements(group))
  {
    assert i == group[0] && i in group;
  }

  /** One group more: its points are used up, and no free point is left in reach of its centre. */
  lemma OneMoreGroup(n: nat, near: (nat, nat) -> bool, groups: seq<seq<nat>>, used: set<nat>, i: nat, group: seq<nat>)
    requires Partial(n, near, groups, used, i)
    requires GroupOf(n, near, i, used, group, n)
    ensures Partial(n, near, groups + [group], used + Elements(group), i + 1)
  {
    OrderedMore(groups, group, n);
    assert forall j :: j in group ==> j !in used;
    DisjointMore(groups, group);
    GreedyMore(n, near, groups, used, i, group);
    NoneMissedMore(n, near, groups, used, i, group);
    forall j: nat ensures Grouped(groups + [group], j) <==> Grouped(groups, j) || j in group {
      GroupedAppend(groups, group, j);
    }
    assert i == group[0];
  }

  lemma NothingYet(n: nat, near: (nat, nat) -> bool)
    ensures Partial(n, near, [], {}, 0)
  {
  }

  lemma UsedAlready(n: nat, near: (nat, nat) -> bool, groups: seq<seq<nat>>, used: set<nat>, i: nat)
    requires Partial(n, near, groups, used, i)
    ensures i in used ==> Partial(n, near, groups, used, i + 1)
    ensures i == n ==> Net(n, near, groups)
    ensures forall j: nat :: j < i ==> j in used
  {
  }

  /** The points of a group, in its order. */
  ghost predicate Selects<T>(points: seq<T>, group: seq<nat>, taken: seq<T>) {
    && |taken| == |group|
    && forall a :: 0 <= a < |group| ==> group[a] < |points| && taken[a] == points[group[a]]
  }

  lemma SelectsMore<T>(points: seq<T>, group: seq<nat>, taken: seq<T>, j: nat)
    requires Selects(points, group, taken) && j < |points|
    ensures Selects(points, group + [j], taken + [points[j]])
  {
  }

  /** The inner loop's state before it looks at point `j`. */
  ghost predicate Gathering<T>(points: seq<T>, near: (nat, nat) -> bool, i: nat, used: set<nat>, group: seq<nat>,
                               taken: seq<T>, nowUsed: set<nat>, j: nat)
  {
    && GroupOf(|points|, near, i, used, group, j)
    && Selects(points, group, taken)
    && nowUsed == used + Elements(group) - {i}
  }

  lemma GatheringStarts<T>(points: seq<T>, near: (nat, nat) -> bool, i: nat, used: set<nat>)
    requires i < |points| && i !in used
    ensures Gathering(points, near, i, used, [i], [points[i]], used, 0)
  {
    GroupStarts(|points|, near, i, used);
  }

  lemma GatheringLooksAt<T>(points: seq<T>, near: (nat, nat) -> bool, i: nat, used: set<nat>, group: seq<nat>,
                            taken: seq<T>, nowUsed: set<nat>, j: nat)
    requires j < |points| && i !in used && (forall k: nat :: k < i ==> k in used)
    requires Gathering(points, near, i, used, group, taken, nowUsed, j)
    ensures if j != i && j !in nowUsed && near(i, j)
      then Gathering(points, near, i, used, group + [j], taken + [points[j]], nowUsed + {j}, j + 1)
      else Gathering(points, near, i, used, group, taken, nowUsed, j + 1)
  {
    GroupLooksAt(|points|, near, i, used, group, j);
    ElementsAppend(group, j);
    SelectsMore(points, group, taken, j);
  }

  lemma GatheringEnds<T>(points: seq<T>, near: (nat, nat) -> bool, i: nat, used: set<nat>, group: seq<nat>,
                         taken: seq<T>, nowUsed: set<nat>)
    requires Gathering(points, near, i, used, group, taken, nowUsed, |points|)
    ensures GroupOf(|points|, near, i, used, group, |points|) && Selects(points, group, taken)
    ensures nowUsed + {i} == used + Elements(group)
  {
    assert i == group[0];
  }

  // ------------------------------------------------------------------ sizes

  /** The indices in the first `k` groups. */
  ghost function Listed(groups: seq<seq<nat>>, k: nat): set<nat>
    requires k <= |groups|
  {
    if k == 0 then {} else Listed(groups, k - 1) + Elements(groups[k - 1])
  }

  function SizeOf(groups: seq<seq<nat>>, k: nat): nat
    requires k <= |groups|
  {
    if k == 0 then 0 else SizeOf(groups, k - 1) + |groups[k - 1]|
  }

  lemma {:induction false} ListedMeaning(groups: seq<seq<nat>>, k: nat, j: nat)
    requires k <= |groups|
    ensures j in Listed(groups, k) <==> exists g: nat :: g < k && In(groups, g, j)
  {
    if k > 0 {
      ListedMeaning(groups, k - 1, j);
      if j in groups[k - 1] {
        assert In(groups, k - 1, j);
      }
    }
  }

  lemma NextIsDisjoint(groups: seq<seq<nat>>, k: nat)
    requires Disjoint(groups) && k < |groups|
    ensures Listed(groups, k) !! Elements(groups[k])
  {
    forall j: nat | j in Elements(groups[k]) ensures j !in Listed(groups, k) {
      ListedMeaning(groups, k, j);
      assert In(groups, k, j);
    }
  }

  /** Disjoint groups hold as many indices together as one by one. */
  lemma {:induction false} SizesAddUp(groups: seq<seq<nat>>, n: nat, k: nat)
    requires Ordered(groups, n) && Disjoint(groups) && k <= |groups|
    ensures |Listed(groups, k)| == SizeOf(groups, k)
    decreases k, n
  {
    if k > 0 {
      SizesAddUp(groups, n, k - 1);
      assert Increasing(groups[k - 1], n);
      NoDuplicatesSize(groups[k - 1]);
      NextIsDisjoint(groups, k - 1);
    }
  }

  /** The groups of a net hold `n` indices in all. */
  lemma NetSize(n: nat, near: (nat, nat) -> bool, groups: seq<seq<nat>>)
    requires Net(n, near, groups)
    ensures SizeOf(groups, |groups|) == n
  {
    var all: seq<nat> := seq(n, j requires 0 <= j < n => j);
    forall j: nat ensures j in Listed(groups, |groups|) <==> j in Elements(all) {
      ListedMeaning(groups, |groups|, j);
      if j < n {
        assert Grouped(groups, j) && all[j] == j;
      }
      if j in Listed(groups, |groups|) {
        var g: nat :| In(groups, g, j);
        var a :| 0 <= a < |groups[g]| && groups[g][a] == j;
        assert Increasing(groups[g], n) && all[j] == j;
      }
    }
    NoDuplicatesSize(all);
    assert Listed(groups, |groups|) == Elements(all);
    SizesAddUp(groups, n, |groups|);
  }
}

/** Greedy clustering of points: every cluster is made around the first point not used by earlier ones. */
module Geo {
  import opened Common
  import opened GreedyNet

  datatype Point = Point(lat: real, lon: real)

  datatype Cluster = Cluster(center: Point, points: seq<Point>, radius: real)

  function Square(x: real): real {
    x * x
  }

  /** The Euclidean distance between two points, in degrees, is below the threshold. */
  predicate Near(p: Point, q: Point, threshold: real) {
    threshold > 0.0 && Square(p.lat - q.lat) + Square(p.lon - q.lon) < Square(threshold)
  }

  /** The number is the Euclidean distance of the points, as the hypotenuse over their coordinates. */
  ghost predicate IsDistance(p: Point, q: Point, dist: real) {
    dist >= 0.0 && dist * dist == (p.lat - q.lat) * (p.lat - q.lat) + (p.lon - q.lon) * (p.lon - q.lon)
  }

  lemma ProductIsPositive(x: real, y: real)
    requires x > 0.0 && y > 0.0
    ensures x * y > 0.0
  {
  }

  lemma SquaresCompare(a: real, b: real)
    requires a >= 0.0 && b >= 0.0
    ensures a < b <==> a * a < b * b
  {
    assert b * b - a * a == (b - a) * (b + a);
    if a < b {
      ProductIsPositive(b - a, b + a);
    } else if b < a {
      ProductIsPositive(a - b, b + a);
    }
  }

  /** Points are near each other exactly if their distance is below the threshold. */
  lemma NearMeaning(p: Point, q: Point, threshold: real, dist: real)
    requires IsDistance(p, q, dist)
    ensures Near(p, q, threshold) <==> dist < threshold
  {
    if threshold > 0.0 {
      SquaresCompare(dist, threshold);
    }
  }

  lemma NearIsSymmetric(p: Point, q: Point, threshold: real)
    ensures Near(p, q, threshold) <==> Near(q, p, threshold)
  {
    assert Square(p.lat - q.lat) == Square(q.lat - p.lat);
    assert Square(p.lon - q.lon) == Square(q.lon - p.lon);
  }

  /** The points at two indices are near each other. */
  predicate NearAt(points: seq<Point>, threshold: real, i: nat, j: nat) {
    i < |points| && j < |points| && Near(points[i], points[j], threshold)
  }

  function NearIn(points: seq<Point>, threshold: real): (nat, nat) -> bool {
    (i: nat, j: nat) => NearAt(points, threshold, i, j)
  }

  /** The cluster of a group: its centre, its points, and a radius for its size. */
  ghost predicate Describes(points: seq<Point>, cluster: Cluster, group: seq<nat>) {
    && group != [] && Selects(points, group, cluster.points)
    && cluster.center == points[Centre(group)]
    && cluster.radius == |group| as real * 0.01
  }

  ghost predicate AllDescribed(points: seq<Point>, clusters: seq<Cluster>, groups: seq<seq<nat>>) {
    |clusters| == |groups| && forall g :: 0 <= g < |clusters| ==> Describes(points, clusters[g], groups[g])
  }

  lemma NearInIsSymmetric(points: seq<Point>, threshold: real)
    ensures forall i: nat, j: nat :: NearIn(points, threshold)(i, j) <==> NearIn(points, threshold)(j, i)
  {
    forall i: nat, j: nat ensures NearIn(points, threshold)(i, j) <==> NearIn(points, threshold)(j, i) {
      if i < |points| && j < |points| {
        NearIsSymmetric(points[i], points[j], threshold);
      }
    }
  }

  /** The points taken around point `i`, and the indices used afterwards, are those of one group. */
  ghost predicate Gathered(points: seq<Point>, threshold: real, i: nat, used: set<nat>, group: seq<nat>,
                           taken: seq<Point>, nowUsed: set<nat>)
  {
    && GroupOf(|points|, NearIn(points, threshold), i, used, group, |points|)
    && Selects(points, group, taken)
    && nowUsed == used + Elements(group)
  }

  lemma DescribedMore(points: seq<Point>, clusters: seq<Cluster>, groups: seq<seq<nat>>, cluster: Cluster,
                      group: seq<nat>)
    requires AllDescribed(points, clusters, groups) && Describes(points, cluster, group)
    ensures AllDescribed(points, clusters + [cluster], groups + [group])
  {
  }

  lemma DescribesGathered(points: seq<Point>, threshold: real, i: nat, used: set<nat>, group: seq<nat>,
                          taken: seq<Point>, nowUsed: set<nat>)
    requires i < |points| && Gathered(points, threshold, i, used, group, taken, nowUsed)
    ensures Describes(points, Cluster(points[i], taken, |taken| as real * 0.01), group)
  {
  }

  /** The clusters are those of a greedy net over the points. */
  ghost predicate GreedyClusters(points: seq<Point>, threshold: real, clusters: seq<Cluster>) {
    exists groups :: Net(|points|, NearIn(points, threshold), groups) && AllDescribed(points, clusters, groups)
  }

  /** The inner loop: takes every free point near point `i`. */
  method Gather(points: seq<Point>, threshold: real, i: nat, used: set<nat>)
    returns (taken: seq<Point>, nowUsed: set<nat>, ghost group: seq<nat>)
    requires i < |points| && i !in used && forall j: nat :: j < i ==> j in used
    ensures Gathered(points, threshold, i, used, group, taken, nowUsed)
  {
    var near := NearIn(points, threshold);
    group := [i];
    taken, nowUsed := [points[i]], used;
    GatheringStarts(points, near, i, used);
    for j := 0 to |points|
      invariant Gathering(points, near, i, used, group, taken, nowUsed, j)
    {
      GatheringLooksAt(points, near, i, used, group, taken, nowUsed, j);
      if i == j || j in nowUsed {
        continue;
      }
      if near(i, j) {
        taken := taken + [points[j]];
        nowUsed := nowUsed + {j};
        group := group + [j];
      }
    }
    GatheringEnds(points, near, i, used, group, taken, nowUsed);
    nowUsed := nowUsed + {i};
  }

  method ClusterGeoPoints(points: seq<Point>, threshold: real) returns (clusters: seq<Cluster>)
    ensures GreedyClusters(points, threshold, clusters)
  {
    ghost var n, near := |points|, NearIn(points, threshold);
    ghost var groups: seq<seq<nat>> := [];
    clusters := [];
    var used: set<nat> := {};
    NothingYet(n, near);
    for i := 0 to |points|
      invariant Partial(n, near, groups, used, i)
      invariant AllDescribed(points, clusters, groups)
    {
      UsedAlready(n, near, groups, used, i);
      if i in used {
        continue;
      }
      var taken, nowUsed;
      ghost var group;
      taken, nowUsed, group := Gather(points, threshold, i, used);
      OneMoreGroup(n, near, groups, used, i, group);
      DescribesGathered(points, threshold, i, used, group, taken, nowUsed);
      DescribedMore(points, clusters, groups, Cluster(points[i], taken, |taken| as real * 0.01), group);
      clusters := clusters + [Cluster(points[i], taken, |taken| as real * 0.01)];
      groups := groups + [group];
      used := nowUsed;
    }
    UsedAlready(n, near, groups, used, n);
  }

  // ------------------------------------------------------------------ what the caller gets

  /** The number of points in the first `k` clusters. */
  function TotalSize(clusters: seq<Cluster>, k: nat): nat
    requires k <= |clusters|
  {
    if k == 0 then 0 else TotalSize(clusters, k - 1) + |clusters[k - 1].points|
  }

  lemma {:induction false} SizesAgree(points: seq<Point>, clusters: seq<Cluster>, groups: seq<seq<nat>>, k: nat)
    requires AllDescribed(points, clusters, groups) && k <= |groups|
    ensures TotalSize(clusters, k) == SizeOf(groups, k)
    decreases k
  {
    if k > 0 {
      SizesAgree(points, clusters, groups, k - 1);
      assert Describes(points, clusters[k - 1], groups[k - 1]);
    }
  }

  /** Together the clusters have as many points as were given. */
  lemma ClustersAddUp(points: seq<Point>, threshold: real, clusters: seq<Cluster>)
    requires GreedyClusters(points, threshold, clusters)
    ensures TotalSize(clusters, |clusters|) == |points|
  {
    var groups :| Net(|points|, NearIn(points, threshold), groups) && AllDescribed(points, clusters, groups);
    SizesAgree(points, clusters, groups, |groups|);
    NetSize(|points|, NearIn(points, threshold), groups);
  }

  /** A cluster begins with its centre, and its radius is a hundredth of a degree for each of its points. */
  lemma ClusterShape(points: seq<Point>, threshold: real, clusters: seq<Cluster>, c: nat)
    requires GreedyClusters(points, threshold, clusters) && c < |clusters|
    ensures clusters[c].points != [] && clusters[c].points[0] == clusters[c].center
    ensures clusters[c].radius == |clusters[c].points| as real / 100.0
  {
    var groups :| Net(|points|, NearIn(points, threshold), groups) && AllDescribed(points, clusters, groups);
    assert Describes(points, clusters[c], groups[c]);
  }

  /** Each point is in a cluster. */
  lemma ClustersCover(points: seq<Point>, threshold: real, clusters: seq<Cluster>, j: nat)
    requires GreedyClusters(points, threshold, clusters) && j < |points|
    ensures exists c :: 0 <= c < |clusters| && points[j] in clusters[c].points
  {
    var groups :| Net(|points|, NearIn(points, threshold), groups) && AllDescribed(points, clusters, groups);
    assert Grouped(groups, j);
    var g: nat :| In(groups, g, j);
    var a :| 0 <= a < |groups[g]| && groups[g][a] == j;
    assert Describes(points, clusters[g], groups[g]) && clusters[g].points[a] == points[j];
  }

  /** Members are at their centre or nearer to it than the threshold. */
  lemma MembersAreNear(points: seq<Point>, threshold: real, clusters: seq<Cluster>, c: nat, p: Point, dist: real)
    requires GreedyClusters(points, threshold, clusters) && c < |clusters| && p in clusters[c].points
    requires IsDistance(clusters[c].center, p, dist)
    ensures p == clusters[c].center || dist < threshold
  {
    MembersAreInReach(points, threshold, clusters, c, p);
    NearMeaning(clusters[c].center, p, threshold, dist);
  }

  lemma MembersAreInReach(points: seq<Point>, threshold: real, clusters: seq<Cluster>, c: nat, p: Point)
    requires GreedyClusters(points, threshold, clusters) && c < |clusters| && p in clusters[c].points
    ensures p == clusters[c].center || Near(clusters[c].center, p, threshold)
  {
    var near := NearIn(points, threshold);
    var groups :| Net(|points|, near, groups) && AllDescribed(points, clusters, groups);
    var a :| 0 <= a < |clusters[c].points| && clusters[c].points[a] == p;
    assert Describes(points, clusters[c], groups[c]) && In(groups, c, groups[c][a]);
    assert near(Centre(groups[c]), groups[c][a]) <==> NearAt(points, threshold, Centre(groups[c]), groups[c][a]);
  }

  /** No two centres are nearer to each other than the threshold. */
  lemma ClusterCentresAreApart(points: seq<Point>, threshold: real, clusters: seq<Cluster>, c: nat, d: nat,
                               dist: real)
    requires GreedyClusters(points, threshold, clusters) && c < |clusters| && d < |clusters| && c != d
    requires IsDistance(clusters[c].center, clusters[d].center, dist)
    ensures dist >= threshold
  {
    CentresAreOutOfReach(points, threshold, clusters, c, d);
    NearMeaning(clusters[c].center, clusters[d].center, threshold, dist);
  }

  lemma CentresAreOutOfReach(points: seq<Point>, threshold: real, clusters: seq<Cluster>, c: nat, d: nat)
    requires GreedyClusters(points, threshold, clusters) && c < |clusters| && d < |clusters| && c != d
    ensures !Near(clusters[c].center, clusters[d].center, threshold)
  {
    var near := NearIn(points, threshold);
    var groups :| Net(|points|, near, groups) && AllDescribed(points, clusters, groups);
    NearInIsSymmetric(points, threshold);
    CentresAreApart(|points|, near, groups, c, d);
    assert Describes(points, clusters[c], groups[c]) && Describes(points, clusters[d], groups[d]);
  }
}
