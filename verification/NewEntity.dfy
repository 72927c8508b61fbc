/**
 * What one item of evidence about a new entity does to the score. It can lower it, because depth is an average
 * over entities; this module says exactly when.
 */
module NewEntity {
  import opened Common
  import opened Critique
  import opened Evidence

  // ------------------------------------------------------------------ the marks in whole numbers

  /** The findings that count towards depth: at most five per entity on average. */
  function Capped(n: nat, kept: int): int {
    if kept <= 5 * n then kept else 5 * n
  }

  /** The marks of `n` entities, `empty` of them empty, with `kept` findings in all, times `n`. */
  function Points(n: nat, empty: nat, kept: int): int {
    55 * (n - empty) + 8 * Capped(n, kept) - 10 * (empty * n)
  }

  function Times(x: real, n: nat): real {
    x * n as real
  }

  function UnroundedMarks(fs: seq<EntityFindings>): real {
    Unrounded(Coverage(fs), Depth(fs), EmptyCount(fs))
  }

  lemma CappedDepth(n: nat, kept: int, depth: real)
    requires n >= 1 && depth == kept as real / n as real
    ensures Min(depth, 5.0) * n as real == Capped(n, kept) as real
  {
    assert depth * n as real == kept as real;
    if depth <= 5.0 {
      assert depth * n as real <= 5.0 * n as real;
    } else {
      assert depth * n as real > 5.0 * n as real;
    }
    assert 5.0 * n as real == (5 * n) as real;
  }

  lemma Scaled(coverage: real, depth: real, empty: real, n: real)
    ensures (coverage * 55.0 + depth * 8.0 - empty * 10.0) * n ==
      55.0 * (coverage * n) + 8.0 * (depth * n) - 10.0 * (empty * n)
  {
  }

  lemma QuotientTimes(a: real, n: real)
    requires n > 0.0
    ensures a / n * n == a
  {
  }

  lemma ProductOfReals(a: nat, b: nat)
    ensures (a * b) as real == a as real * b as real
  {
  }

  lemma MarksTimesSize(coverage: real, depth: real, n: nat, empty: nat, kept: int)
    requires n >= 1 && coverage == (n - empty) as real / n as real && depth == kept as real / n as real
    ensures Times(Unrounded(coverage, depth, empty), n) == Points(n, empty, kept) as real
  {
    QuotientTimes((n - empty) as real, n as real);
    CappedDepth(n, kept, depth);
    Scaled(coverage, Min(depth, 5.0), empty as real, n as real);
    ProductOfReals(empty, n);
  }

  lemma MarksArePoints(fs: seq<EntityFindings>)
    requires fs != []
    ensures Times(UnroundedMarks(fs), |fs|) == Points(|fs|, EmptyCount(fs), KeptTotal(fs)) as real
  {
    EmptyAtMostAll(fs);
    MarksTimesSize(Coverage(fs), Depth(fs), |fs|, EmptyCount(fs), KeptTotal(fs));
  }

  lemma RealProducts(a: int, b: int)
    ensures (a * b) as real == a as real * b as real
  {
  }

  /** Rounding half up, in whole numbers. */
  lemma RoundedQuotient(x: real, n: nat, p: int)
    requires n >= 1 && Times(x, n) == p as real
    ensures Round(x) == (2 * p + n) / (2 * n)
  {
    var q, m := (2 * p + n) / (2 * n), 2 * n;
    assert 2 * p + n == q * m + (2 * p + n) % m;
    RealProducts(q, m);
    assert m as real == 2.0 * n as real;
    var over := x + 0.5 - q as real;
    assert over * m as real == 2.0 * (x * n as real) + n as real - q as real * m as real;
    assert over * m as real == ((2 * p + n) % m) as real;
    assert m as real * -over == -(over * m as real);
    SignOfProduct(m as real, -over);
    assert m as real * (1.0 - over) == m as real - over * m as real;
    SignOfProduct(m as real, 1.0 - over);
  }

  lemma RoundOfCap(x: real)
    ensures Rounded(x) == if Round(x) >= 95 then 95 else if Round(x) < 0 then 0 else Round(x)
  {
  }

  /**
   * The score in whole numbers. Of n entities, e with nothing listed and nothing kept and k findings kept in all, the
   * marks are 55 (n - e) + 8 min(k, 5 n) - 10 e n, over n; the score is rounded half up and kept between 0 and 95.
   */
  lemma ScoreInWholeNumbers(fs: seq<EntityFindings>)
    requires fs != []
    ensures var n, e, k := |fs|, |EmptyAt(fs, |fs|)|, KeptTotal(fs);
      var p := 55 * (n - e) + 8 * (if k <= 5 * n then k else 5 * n) - 10 * (e * n);
      var rounded := (2 * p + n) / (2 * n);
      Score(fs) == if rounded >= 95 then 95 else if rounded < 0 then 0 else rounded
  {
    EmptyCountMeaning(fs);
    MarksArePoints(fs);
    RoundedQuotient(UnroundedMarks(fs), |fs|, Points(|fs|, EmptyCount(fs), KeptTotal(fs)));
    RoundOfCap(UnroundedMarks(fs));
  }

  /** Comparing two quotients by cross multiplication. */
  lemma CompareQuotients(x: real, n: nat, p: int, y: real, m: nat, q: int)
    requires n >= 1 && m >= 1 && Times(x, n) == p as real && Times(y, m) == q as real
    ensures y < x <==> n * q < m * p
  {
    var a, b := n as real, m as real;
    assert (n * q) as real == a * (y * b) && (m * p) as real == b * (x * a);
    assert a * (y * b) == (a * b) * y && b * (x * a) == (a * b) * x;
    assert a * b > 0.0;
    SignOfProduct(a * b, x - y);
    assert (a * b) * (x - y) == (a * b) * x - (a * b) * y;
  }

  lemma SignOfProduct(a: real, x: real)
    requires a > 0.0
    ensures a * x > 0.0 <==> x > 0.0
  {
  }

  // ------------------------------------------------------------------ one more entity with one finding

  /**
   * Whether the marks of `n` entities fall when a new one comes with one finding: the empty entities weigh less
   * in the coverage, the findings kept so far weigh less in the depth.
   */
  predicate MarksFall(n: nat, empty: nat, kept: int) {
    if kept <= 5 * n then 8 * (kept - n) > 55 * empty else 8 * (n * (5 * n + 4 - kept)) > 55 * empty
  }

  lemma Expand(n: int, a: int, c: int, m: int)
    ensures n * (55 * a + 8 * c - 10 * m) == 55 * (n * a) + 8 * (n * c) - 10 * (n * m)
  {
  }

  lemma CoverageTerms(n: int, e: int)
    ensures n * (n + 1 - e) - (n + 1) * (n - e) == e
    ensures n * (e * (n + 1)) == (n + 1) * (e * n)
  {
    assert n * (n + 1 - e) == n * n + n - n * e;
    assert (n + 1) * (n - e) == n * n - n * e + n - e;
  }

  lemma DepthTerms(n: nat, kept: int)
    ensures n * Capped(n + 1, kept + 1) - (n + 1) * Capped(n, kept) ==
      if kept <= 5 * n then n - kept else if kept <= 5 * n + 4 then -(n * (5 * n + 4 - kept)) else 0
  {
    if kept <= 5 * n {
      assert n * (kept + 1) - (n + 1) * kept == n - kept;
    } else if kept <= 5 * n + 4 {
      assert n * (kept + 1) - (n + 1) * (5 * n) == -(n * (5 * n + 4 - kept));
    } else {
      assert n * (5 * (n + 1)) - (n + 1) * (5 * n) == 0;
    }
  }

  lemma NotPositive(n: nat, x: int)
    ensures x <= 0 ==> n * x <= 0
  {
  }

  lemma PointsFall(n: nat, empty: nat, kept: int)
    ensures n * Points(n + 1, empty, kept + 1) < (n + 1) * Points(n, empty, kept) <==> MarksFall(n, empty, kept)
  {
    Expand(n, n + 1 - empty, Capped(n + 1, kept + 1), empty * (n + 1));
    Expand(n + 1, n - empty, Capped(n, kept), empty * n);
    CoverageTerms(n, empty);
    DepthTerms(n, kept);
    NotPositive(n, 5 * n + 4 - kept);
  }

  lemma RoundedBelow(s: int, x: real)
    requires 0 <= s <= 95
    ensures Rounded(x) < s <==> s > 0 && 2.0 * x < (2 * s - 1) as real
  {
  }

  lemma BelowTimes(x: real, t: int, n: nat, p: int)
    requires n >= 1 && Times(x, n) == p as real
    ensures 2.0 * x < t as real <==> 2 * p < t * n
  {
    var a := n as real;
    SignOfProduct(a, t as real - 2.0 * x);
    assert (t * n) as real == t as real * a;
    assert a * (t as real - 2.0 * x) == t as real * a - 2.0 * (x * a);
    assert (2 * p) as real == 2.0 * p as real;
  }

  lemma HalfWay(s: int, x: real, n: nat, p: int)
    requires 0 <= s <= 95 && n >= 1 && Times(x, n) == p as real
    ensures Rounded(x) < s <==> s > 0 && 2 * p < (2 * s - 1) * n
  {
    RoundedBelow(s, x);
    BelowTimes(x, 2 * s - 1, n, p);
  }

  lemma RoundedMonotone(x: real, y: real)
    requires x <= y
    ensures Rounded(x) <= Rounded(y)
  {
  }

  /** The same for the bare numbers: `x` are the marks before and `y` those after. */
  lemma MarksAfterOneMore(x: real, y: real, n: nat, empty: nat, kept: int)
    requires n >= 1 && Times(x, n) == Points(n, empty, kept) as real
    requires Times(y, n + 1) == Points(n + 1, empty, kept + 1) as real
    ensures y < x <==> MarksFall(n, empty, kept)
    ensures y < x ==> Rounded(y) <= Rounded(x)
    ensures y >= x ==> Rounded(x) <= Rounded(y)
  {
    CompareQuotients(x, n, Points(n, empty, kept), y, n + 1, Points(n + 1, empty, kept + 1));
    PointsFall(n, empty, kept);
    if y < x {
      RoundedMonotone(y, x);
    } else {
      RoundedMonotone(x, y);
    }
  }

  /** The findings with the new entity. */
  function WithNew(fs: seq<EntityFindings>, entity: string): seq<EntityFindings> {
    fs + [EntityFindings(entity, Some(1), Some(1))]
  }

  lemma CountsWithNew(fs: seq<EntityFindings>, entity: string)
    ensures var gs := WithNew(fs, entity);
      |gs| == |fs| + 1 && EmptyCount(gs) == EmptyCount(fs) && KeptTotal(gs) == KeptTotal(fs) + 1
  {
    OneMore(fs, EntityFindings(entity, Some(1), Some(1)));
  }

  /** With the new entity the marks fall exactly as `MarksFall` says, and only then can the score fall. */
  lemma MarksFallExactly(fs: seq<EntityFindings>, entity: string)
    ensures fs != [] ==>
      (UnroundedMarks(WithNew(fs, entity)) < UnroundedMarks(fs) <==> MarksFall(|fs|, EmptyCount(fs), KeptTotal(fs)))
    ensures !MarksFall(|fs|, EmptyCount(fs), KeptTotal(fs)) ==> Score(fs) <= Score(WithNew(fs, entity))
    ensures MarksFall(|fs|, EmptyCount(fs), KeptTotal(fs)) ==> Score(WithNew(fs, entity)) <= Score(fs)
  {
    var gs := WithNew(fs, entity);
    CountsWithNew(fs, entity);
    MarksArePoints(gs);
    if fs == [] {
      ScoreRange(gs);
    } else {
      MarksArePoints(fs);
      MarksAfterOneMore(UnroundedMarks(fs), UnroundedMarks(gs), |fs|, EmptyCount(fs), KeptTotal(fs));
    }
  }

  lemma BelowScore(s: int, gs: seq<EntityFindings>)
    requires 0 <= s <= 95 && gs != []
    ensures Score(gs) < s <==> s > 0 && 2 * Points(|gs|, EmptyCount(gs), KeptTotal(gs)) < (2 * s - 1) * |gs|
  {
    MarksArePoints(gs);
    HalfWay(s, UnroundedMarks(gs), |gs|, Points(|gs|, EmptyCount(gs), KeptTotal(gs)));
  }

  /** What rounding leaves of it: the score falls exactly when the new marks are below the old score's half-way mark. */
  lemma ScoreFallsExactly(fs: seq<EntityFindings>, entity: string)
    ensures var s, n := Score(fs), |fs| + 1;
      Score(WithNew(fs, entity)) < s <==>
        s > 0 && 2 * Points(n, EmptyCount(fs), KeptTotal(fs) + 1) < (2 * s - 1) * n
  {
    CountsWithNew(fs, entity);
    ScoreRange(fs);
    BelowScore(Score(fs), WithNew(fs, entity));
  }

  // ------------------------------------------------------------------ in terms of evidence

  lemma FilingNewEntity(evidence: seq<Item>, item: Item, seeds: seq<Seed>)
    requires !AboutKnown(item, ToFindings(evidence, seeds))
    ensures ToFindings(evidence + [item], seeds) == WithNew(ToFindings(evidence, seeds), item.entity)
  {
    var all := evidence + [item];
    assert all[..|all| - 1] == evidence;
    NewGroup(FileAll(Opened(seeds), evidence), item);
  }

  lemma NewGroup(groups: Groups, item: Item)
    requires !AboutKnown(item, Counted(groups))
    ensures Counted(File(groups, item)) == WithNew(Counted(groups), item.entity)
  {
    forall i | 0 <= i < |groups| ensures groups[i].0 != item.entity {
      assert Counted(groups)[i].entity == groups[i].0;
    }
  }

  /**
   * An item about an entity that is not among the findings lowers the marks exactly when the findings kept so
   * far outweigh the empty entities, as `MarksFall` says; only then can the score fall, and it does exactly when
   * the new marks are below the half-way mark of the old score.
   */
  lemma NewEntityLowersScore(evidence: seq<Item>, item: Item, seeds: seq<Seed>)
    requires !AboutKnown(item, ToFindings(evidence, seeds))
    ensures var fs, gs := ToFindings(evidence, seeds), ToFindings(evidence + [item], seeds);
      var n, empty, kept := |fs|, EmptyCount(fs), KeptTotal(fs);
      && |gs| == n + 1 && EmptyCount(gs) == empty && KeptTotal(gs) == kept + 1
      && (fs != [] ==> (UnroundedMarks(gs) < UnroundedMarks(fs) <==> MarksFall(n, empty, kept)))
      && (!MarksFall(n, empty, kept) ==> Score(fs) <= Score(gs))
      && (Score(gs) < Score(fs) <==>
            Score(fs) > 0 && 2 * Points(n + 1, empty, kept + 1) < (2 * Score(fs) - 1) * (n + 1))
  {
    var fs := ToFindings(evidence, seeds);
    FilingNewEntity(evidence, item, seeds);
    CountsWithNew(fs, item.entity);
    MarksFallExactly(fs, item.entity);
    ScoreFallsExactly(fs, item.entity);
  }

  /** `k` items of evidence about one entity, under different keys. */
  function Hits(entity: string, k: nat): (r: seq<Item>)
    ensures |r| == k
  {
    if k == 0 then [] else Hits(entity, k - 1) + [Item(Digits(k), entity, "hit", "source", "")]
  }

  lemma {:induction false} FindingsOfHits(entity: string, k: nat)
    requires entity != "*" && k >= 1
    ensures ToFindings(Hits(entity, k), []) == [EntityFindings(entity, Some(k), Some(k))]
    ensures exists items :: |items| == k && FileAll([], Hits(entity, k)) == [(entity, items)]
    decreases k, entity
  {
    var item := Item(Digits(k), entity, "hit", "source", "");
    var before := Hits(entity, k - 1);
    assert Hits(entity, k)[..k - 1] == before;
    if k == 1 {
      assert FileAll([], Hits(entity, k)) == [(entity, [item])];
    } else {
      FindingsOfHits(entity, k - 1);
      var items :| |items| == k - 1 && FileAll([], before) == [(entity, items)];
      assert FileAll([], Hits(entity, k)) == [(entity, items + [item])];
    }
  }

  /** Five items about one entity score 95; a first item about another brings the score down to 79. */
  lemma FiveHitsThenStranger(entity: string, k: nat, item: Item)
    requires k == 5 && entity != "*" && item.entity !in {entity, "*"}
    ensures Score(ToFindings(Hits(entity, k), [])) == 95
    ensures Score(ToFindings(Hits(entity, k) + [item], [])) == 79
  {
    var f := EntityFindings(entity, Some(k), Some(k));
    FindingsOfHits(entity, k);
    FilingNewEntity(Hits(entity, k), item, []);
    OneMore([], f);
    assert [] + [f] == [f];
    CountsWithNew([f], item.entity);
    ScoreOfCounts([f], 1, 0, k);
    ScoreOfCounts(WithNew([f], item.entity), 2, 0, k + 1);
  }

  lemma ScoreOfCounts(fs: seq<EntityFindings>, n: nat, empty: nat, kept: int)
    requires |fs| == n >= 1 && EmptyCount(fs) == empty && KeptTotal(fs) == kept
    ensures Score(fs) == Marks((n - empty) as real / n as real, kept as real / n as real, empty)
  {
    EmptyAtMostAll(fs);
  }
}
