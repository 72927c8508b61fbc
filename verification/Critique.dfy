/** The deterministic critique's score of the findings, and the grouping of evidence into findings. */
module Critique {
  import opened Common
  import opened Evidence

  // ------------------------------------------------------------------ findings and their score

  /** What the score looks at in one entity's findings: both counts are optional. */
  datatype EntityFindings = EntityFindings(entity: string, listed: Option<nat>, keptCount: Option<int>)

  /** No findings listed and nothing kept. */
  predicate IsEmpty(f: EntityFindings) {
    (f.listed.None? || f.listed.value == 0) && (f.keptCount.None? || f.keptCount.value == 0)
  }

  function Kept(f: EntityFindings): int {
    if f.keptCount.Some? then f.keptCount.value else if f.listed.Some? then f.listed.value else 0
  }

  function EmptyCount(fs: seq<EntityFindings>): nat {
    if fs == [] then 0 else EmptyCount(fs[..|fs| - 1]) + (if IsEmpty(fs[|fs| - 1]) then 1 else 0)
  }

  function KeptTotal(fs: seq<EntityFindings>): int {
    if fs == [] then 0 else KeptTotal(fs[..|fs| - 1]) + Kept(fs[|fs| - 1])
  }

  function Min(a: real, b: real): real {
    if a <= b then a else b
  }

  /** Half-up rounding. */
  function Round(x: real): int {
    (x + 0.5).Floor
  }

  /** Share of entities with findings, in 0 to 1. */
  function Coverage(fs: seq<EntityFindings>): real {
    if fs == [] then 0.0 else (|fs| - EmptyCount(fs)) as real / |fs| as real
  }

  /** Findings kept per entity. */
  function Depth(fs: seq<EntityFindings>): real {
    KeptTotal(fs) as real / (if |fs| >= 1 then |fs| else 1) as real
  }

  /** The marks before the cap and the rounding: ten are taken off for every empty entity. */
  function Unrounded(coverage: real, depth: real, empty: nat): real {
    coverage * 55.0 + Min(depth, 5.0) * 8.0 - empty as real * 10.0
  }

  /** The marks as a score: capped at 95, rounded, and never negative. */
  function Rounded(marks: real): int {
    var score := Round(Min(95.0, marks));
    if score < 0 then 0 else score
  }

  /** The score of a coverage, a depth and a number of empty entities. */
  function Marks(coverage: real, depth: real, empty: nat): int {
    Rounded(Unrounded(coverage, depth, empty))
  }

  /** The score: coverage and depth, less ten for every empty entity - the only flag of high severity. */
  function Score(fs: seq<EntityFindings>): int {
    Marks(Coverage(fs), Depth(fs), EmptyCount(fs))
  }

  lemma {:induction false} EmptyAtMostAll(fs: seq<EntityFindings>)
    ensures EmptyCount(fs) <= |fs|
  {
    if fs != [] {
      EmptyAtMostAll(fs[..|fs| - 1]);
    }
  }

  lemma ScoreRange(fs: seq<EntityFindings>)
    ensures 0 <= Score(fs) <= 95
  {
  }

  lemma FullMarksMeans(coverage: real, depth: real, empty: nat)
    requires coverage <= 1.0 && (empty == 0 ==> coverage == 1.0)
    ensures Marks(coverage, depth, empty) == 95 <==> empty == 0 && depth >= 79.0 / 16.0
  {
  }

  /** Full marks: no entity is empty and the entities keep at least 79/16 findings on average. */
  lemma FullMarks(fs: seq<EntityFindings>)
    requires fs != []
    ensures Score(fs) == 95 <==> EmptyCount(fs) == 0 && 16 * KeptTotal(fs) >= 79 * |fs|
  {
    CoverageRange(fs);
    QuotientAtLeast(KeptTotal(fs) as real, |fs| as real, 79.0 / 16.0);
    SixteenthsAreExact(KeptTotal(fs), |fs|);
    FullMarksMeans(Coverage(fs), Depth(fs), EmptyCount(fs));
  }

  lemma SixteenthsAreExact(k: int, n: int)
    ensures k as real >= 79.0 / 16.0 * n as real <==> 16 * k >= 79 * n
  {
    assert (16 * k) as real == 16.0 * k as real && (79 * n) as real == 79.0 * n as real;
  }

  lemma CoverageRange(fs: seq<EntityFindings>)
    requires fs != []
    ensures Coverage(fs) <= 1.0 && (EmptyCount(fs) == 0 ==> Coverage(fs) == 1.0)
  {
    EmptyAtMostAll(fs);
    DivideMonotone((|fs| - EmptyCount(fs)) as real, |fs| as real, |fs| as real);
  }

  lemma QuotientAtLeast(a: real, n: real, q: real)
    requires n > 0.0
    ensures a / n >= q <==> a >= q * n
  {
    assert a == (a / n) * n;
    if a / n >= q {
      assert (a / n) * n >= q * n;
    } else {
      assert (a / n) * n < q * n;
    }
  }

  /** Evidence added: every entity is still there, none lost findings, none became empty. */
  ghost predicate Richer(fs: seq<EntityFindings>, gs: seq<EntityFindings>) {
    && |fs| == |gs|
    && forall i :: 0 <= i < |fs| ==> Kept(fs[i]) <= Kept(gs[i]) && (IsEmpty(gs[i]) ==> IsEmpty(fs[i]))
  }

  lemma {:induction false} RicherCounts(fs: seq<EntityFindings>, gs: seq<EntityFindings>)
    requires Richer(fs, gs)
    ensures EmptyCount(gs) <= EmptyCount(fs) && KeptTotal(fs) <= KeptTotal(gs)
  {
    if fs != [] {
      RicherCounts(fs[..|fs| - 1], gs[..|gs| - 1]);
    }
  }

  lemma DivideMonotone(a: real, b: real, n: real)
    requires a <= b && n > 0.0
    ensures a / n <= b / n
  {
  }

  /** More evidence about the same entities never lowers the score. */
  lemma ScoreNeverDrops(fs: seq<EntityFindings>, gs: seq<EntityFindings>)
    requires Richer(fs, gs)
    ensures Score(fs) <= Score(gs)
  {
    RicherCounts(fs, gs);
    EmptyAtMostAll(fs);
    EmptyAtMostAll(gs);
    var n := if |fs| >= 1 then |fs| as real else 1.0;
    DivideMonotone((|fs| - EmptyCount(fs)) as real, (|gs| - EmptyCount(gs)) as real, n);
    DivideMonotone(KeptTotal(fs) as real, KeptTotal(gs) as real, n);
    assert Coverage(fs) <= Coverage(gs) && Depth(fs) <= Depth(gs);
    MarksMonotone(Coverage(fs), Depth(fs), EmptyCount(fs), Coverage(gs), Depth(gs), EmptyCount(gs));
  }

  lemma MarksMonotone(c: real, d: real, e: nat, c': real, d': real, e': nat)
    requires c <= c' && d <= d' && e' <= e
    ensures Marks(c, d, e) <= Marks(c', d', e')
  {
    var x, y := Unrounded(c, d, e), Unrounded(c', d', e');
    assert x <= y;
    RoundMonotone(Min(95.0, x), Min(95.0, y));
  }

  lemma RoundMonotone(x: real, y: real)
    requires x <= y
    ensures Round(x) <= Round(y)
  {
  }

  // ------------------------------------------------------------------ grouping evidence by entity

  /** A map in insertion order, as a list of entities with their items. */
  type Groups = seq<(string, seq<Item>)>

  function IndexOf(groups: Groups, entity: string): (i: nat)
    ensures i <= |groups| && (i < |groups| ==> groups[i].0 == entity)
    ensures forall j :: 0 <= j < i ==> groups[j].0 != entity
  {
    if groups == [] then 0
    else if groups[0].0 == entity then 0
    else
      var rest := IndexOf(groups[1..], entity);
      assert forall j :: 0 < j < 1 + rest ==> groups[j] == groups[1..][j - 1];
      1 + rest
  }

  /** Opens an entity for every seed value not seen before. */
  function Opened(seeds: seq<Seed>): Groups {
    if seeds == [] then []
    else
      var groups := Opened(seeds[..|seeds| - 1]);
      var value := seeds[|seeds| - 1].value;
      if IndexOf(groups, value) < |groups| then groups else groups + [(value, [])]
  }

  /** Files an item under its entity; items about everything (`*`) belong to no entity. */
  function File(groups: Groups, item: Item): Groups {
    if item.entity == "*" then groups
    else
      var i := IndexOf(groups, item.entity);
      if i < |groups| then groups[i := (item.entity, groups[i].1 + [item])] else groups + [(item.entity, [item])]
  }

  function FileAll(groups: Groups, evidence: seq<Item>): Groups {
    if evidence == [] then groups else File(FileAll(groups, evidence[..|evidence| - 1]), evidence[|evidence| - 1])
  }

  /** The findings of the evidence for the seeds, in order of first appearance. */
  function ToFindings(evidence: seq<Item>, seeds: seq<Seed>): seq<EntityFindings> {
    Counted(FileAll(Opened(seeds), evidence))
  }

  function Counted(groups: Groups): (r: seq<EntityFindings>)
    ensures |r| == |groups|
    ensures forall i :: 0 <= i < |groups| ==>
      r[i] == EntityFindings(groups[i].0, Some(|groups[i].1|), Some(|groups[i].1|))
  {
    seq(|groups|, i requires 0 <= i < |groups| =>
      EntityFindings(groups[i].0, Some(|groups[i].1|), Some(|groups[i].1|)))
  }

  // ------------------------------------------------------------------ what the findings are

  /** A list without later repetitions. */
  function Firsts(s: seq<string>): seq<string> {
    if s == [] then []
    else
      var before, last := Firsts(s[..|s| - 1]), s[|s| - 1];
      if last in before then before else before + [last]
  }

  lemma {:induction false} FirstsMeaning(s: seq<string>)
    ensures NoDuplicates(Firsts(s)) && forall x :: x in Firsts(s) <==> x in s
    ensures forall n :: 0 <= n <= |s| ==> Firsts(s[..n]) <= Firsts(s)
  {
    if s != [] {
      FirstsMeaning(s[..|s| - 1]);
      assert s == s[..|s| - 1] + [s[|s| - 1]];
      forall n | 0 <= n <= |s| ensures Firsts(s[..n]) <= Firsts(s) {
        if n < |s| {
          assert s[..|s| - 1][..n] == s[..n];
        } else {
          assert s[..n] == s;
        }
      }
    }
  }

  /** The entities in the order in which seeds and evidence mention them; `*` is no entity of evidence. */
  function Mentions(evidence: seq<Item>, seeds: seq<Seed>): seq<string> {
    if evidence != [] then
      var last := evidence[|evidence| - 1].entity;
      Mentions(evidence[..|evidence| - 1], seeds) + if last == "*" then [] else [last]
    else SeedValues(seeds)
  }

  function SeedValues(seeds: seq<Seed>): (r: seq<string>)
    ensures |r| == |seeds| && forall i :: 0 <= i < |seeds| ==> r[i] == seeds[i].value
  {
    seq(|seeds|, i requires 0 <= i < |seeds| => seeds[i].value)
  }

  /** How many items are filed under an entity. */
  function ItemsAbout(evidence: seq<Item>, entity: string): nat {
    if evidence == [] || entity == "*" then 0
    else
      ItemsAbout(evidence[..|evidence| - 1], entity) + if evidence[|evidence| - 1].entity == entity then 1 else 0
  }

  /** The items about an entity, by their positions. */
  ghost function AboutAt(evidence: seq<Item>, entity: string, n: nat): set<int>
    requires n <= |evidence|
  {
    set i | 0 <= i < n && evidence[i].entity == entity
  }

  lemma {:induction false} ItemsAboutMeaning(evidence: seq<Item>, entity: string)
    ensures ItemsAbout(evidence, entity) == if entity == "*" then 0 else |AboutAt(evidence, entity, |evidence|)|
  {
    if evidence != [] && entity != "*" {
      var n := |evidence| - 1;
      ItemsAboutMeaning(evidence[..n], entity);
      assert AboutAt(evidence[..n], entity, n) == AboutAt(evidence, entity, n);
      assert AboutAt(evidence, entity, n + 1) ==
        AboutAt(evidence, entity, n) + if evidence[n].entity == entity then {n} else {};
    }
  }

  function Names(groups: Groups): (r: seq<string>)
    ensures |r| == |groups| && forall i :: 0 <= i < |groups| ==> r[i] == groups[i].0
  {
    seq(|groups|, i requires 0 <= i < |groups| => groups[i].0)
  }

  lemma NameAt(groups: Groups, name: string)
    ensures IndexOf(groups, name) < |groups| <==> name in Names(groups)
  {
    if name in Names(groups) {
      var i :| 0 <= i < |groups| && Names(groups)[i] == name;
      assert groups[i].0 == name;
    }
  }

  lemma FirstsAppend(s: seq<string>, x: string)
    ensures Firsts(s + [x]) == if x in Firsts(s) then Firsts(s) else Firsts(s) + [x]
  {
    assert (s + [x])[..|s|] == s;
  }

  lemma NamesAppend(groups: Groups, name: string, items: seq<Item>)
    ensures Names(groups + [(name, items)]) == Names(groups) + [name]
  {
  }

  lemma SeedValuesAppend(seeds: seq<Seed>)
    requires seeds != []
    ensures SeedValues(seeds) == SeedValues(seeds[..|seeds| - 1]) + [seeds[|seeds| - 1].value]
  {
  }

  lemma {:induction false} OpenedNames(seeds: seq<Seed>)
    ensures Names(Opened(seeds)) == Firsts(SeedValues(seeds))
    ensures forall i :: 0 <= i < |Opened(seeds)| ==> Opened(seeds)[i].1 == []
  {
    if seeds != [] {
      var before, value := seeds[..|seeds| - 1], seeds[|seeds| - 1].value;
      OpenedNames(before);
      NameAt(Opened(before), value);
      NamesAppend(Opened(before), value, []);
      FirstsAppend(SeedValues(before), value);
      SeedValuesAppend(seeds);
    }
  }

  lemma FiledNames(groups: Groups, item: Item)
    ensures Names(File(groups, item)) ==
      if item.entity == "*" || item.entity in Names(groups) then Names(groups) else Names(groups) + [item.entity]
  {
    NameAt(groups, item.entity);
  }

  lemma {:induction false} NamesAndCounts(evidence: seq<Item>, seeds: seq<Seed>)
    ensures var groups := FileAll(Opened(seeds), evidence);
      && Names(groups) == Firsts(Mentions(evidence, seeds))
      && forall i :: 0 <= i < |groups| ==> |groups[i].1| == ItemsAbout(evidence, groups[i].0)
    decreases |evidence|
  {
    if evidence == [] {
      OpenedNames(seeds);
    } else {
      var before, item := evidence[..|evidence| - 1], evidence[|evidence| - 1];
      var groups, mentions := FileAll(Opened(seeds), before), Mentions(before, seeds);
      NamesAndCounts(before, seeds);
      NamesOneMore(groups, mentions, item);
      FirstsMeaning(mentions);
      if item.entity !in Names(groups) {
        UnmentionedHasNoItems(before, seeds, item.entity);
      }
      FiledCounts(groups, before, item);
      PrefixStep(evidence, |evidence| - 1);
    }
  }

  lemma NamesOneMore(groups: Groups, mentions: seq<string>, item: Item)
    requires Names(groups) == Firsts(mentions)
    ensures Names(File(groups, item)) == Firsts(mentions + if item.entity == "*" then [] else [item.entity])
  {
    FiledNames(groups, item);
    if item.entity == "*" {
      assert mentions + [] == mentions;
    } else {
      FirstsAppend(mentions, item.entity);
    }
  }

  lemma FiledCounts(groups: Groups, before: seq<Item>, item: Item)
    requires NoDuplicates(Names(groups))
    requires forall i :: 0 <= i < |groups| ==> |groups[i].1| == ItemsAbout(before, groups[i].0)
    requires item.entity !in Names(groups) ==> ItemsAbout(before, item.entity) == 0
    ensures var filed := File(groups, item);
      forall i :: 0 <= i < |filed| ==> |filed[i].1| == ItemsAbout(before + [item], filed[i].0)
  {
    var filed := File(groups, item);
    assert (before + [item])[..|before|] == before;
    NameAt(groups, item.entity);
    forall i | 0 <= i < |filed| ensures |filed[i].1| == ItemsAbout(before + [item], filed[i].0) {
      if i < |groups| {
        assert Names(groups)[i] == groups[i].0;
      }
    }
  }

  lemma {:induction false} UnmentionedHasNoItems(evidence: seq<Item>, seeds: seq<Seed>, entity: string)
    requires entity !in Mentions(evidence, seeds)
    ensures ItemsAbout(evidence, entity) == 0
  {
    if evidence != [] && entity != "*" {
      UnmentionedHasNoItems(evidence[..|evidence| - 1], seeds, entity);
    }
  }

  /**
   * The findings list every entity that a seed names or an item is about, once, in order of first mention, each with
   * the number of items about it.
   */
  lemma FindingsMeaning(evidence: seq<Item>, seeds: seq<Seed>)
    ensures var fs, mentions := ToFindings(evidence, seeds), Mentions(evidence, seeds);
      && |fs| == |Firsts(mentions)| && NoDuplicates(Firsts(mentions))
      && (forall entity :: entity in Firsts(mentions) <==>
            (exists s :: s in seeds && s.value == entity)
            || (entity != "*" && exists item :: item in evidence && item.entity == entity))
      && forall i :: 0 <= i < |fs| ==>
           var n := ItemsAbout(evidence, fs[i].entity);
           fs[i] == EntityFindings(Firsts(mentions)[i], Some(n), Some(n))
  {
    var groups, mentions := FileAll(Opened(seeds), evidence), Mentions(evidence, seeds);
    NamesAndCounts(evidence, seeds);
    FirstsMeaning(mentions);
    forall entity
      ensures entity in Firsts(mentions) <==>
        (exists s :: s in seeds && s.value == entity)
        || (entity != "*" && exists item :: item in evidence && item.entity == entity)
    {
      WhoIsMentioned(evidence, seeds, entity);
    }
    forall i | 0 <= i < |groups| ensures Names(groups)[i] == groups[i].0 {
    }
  }

  lemma {:induction false} WhoIsMentioned(evidence: seq<Item>, seeds: seq<Seed>, entity: string)
    ensures entity in Mentions(evidence, seeds) <==>
      (exists s :: s in seeds && s.value == entity)
      || (entity != "*" && exists item :: item in evidence && item.entity == entity)
    decreases |evidence|
  {
    if evidence == [] {
      var values := SeedValues(seeds);
      if entity in values {
        var i :| 0 <= i < |values| && values[i] == entity;
        assert seeds[i] in seeds;
      }
      if s :| s in seeds && s.value == entity {
        var i :| 0 <= i < |seeds| && seeds[i] == s;
        assert values[i] == entity;
      }
    } else {
      var before, last := evidence[..|evidence| - 1], evidence[|evidence| - 1];
      WhoIsMentioned(before, seeds, entity);
      assert evidence == before + [last];
      if item :| item in before && item.entity == entity {
        assert item in evidence;
      }
      assert last in evidence;
    }
  }

  /** The item's entity is already among the findings, or it is about no entity at all. */
  ghost predicate AboutKnown(item: Item, fs: seq<EntityFindings>) {
    item.entity == "*" || exists i :: 0 <= i < |fs| && fs[i].entity == item.entity
  }

  lemma FilingEnriches(groups: Groups, item: Item)
    requires AboutKnown(item, Counted(groups))
    ensures Richer(Counted(groups), Counted(File(groups, item)))
    ensures forall i :: 0 <= i < |groups| ==> File(groups, item)[i].0 == groups[i].0
  {
    if item.entity != "*" {
      var i :| 0 <= i < |groups| && Counted(groups)[i].entity == item.entity;
      assert groups[i].0 == item.entity;
      assert IndexOf(groups, item.entity) < |groups|;
    }
  }

  /** Evidence about entities already found never lowers the score. */
  lemma {:induction false} KnownEvidenceNeverLowersScore(evidence: seq<Item>, more: seq<Item>, seeds: seq<Seed>)
    requires forall item :: item in more ==> AboutKnown(item, ToFindings(evidence, seeds))
    ensures Score(ToFindings(evidence, seeds)) <= Score(ToFindings(evidence + more, seeds))
    ensures SameEntities(ToFindings(evidence, seeds), ToFindings(evidence + more, seeds))
    decreases |more|
  {
    if more == [] {
      assert evidence + more == evidence;
    } else {
      var n := |more| - 1;
      KnownEvidenceNeverLowersScore(evidence, more[..n], seeds);
      var before, all := evidence + more[..n], evidence + more;
      assert all[..|all| - 1] == before && all[|all| - 1] == more[n];
      var groups := FileAll(Opened(seeds), before);
      assert more[n] in more;
      KnownInSame(more[n], ToFindings(evidence, seeds), Counted(groups));
      FilingEnriches(groups, more[n]);
      ScoreNeverDrops(Counted(groups), Counted(File(groups, more[n])));
    }
  }

  ghost predicate SameEntities(fs: seq<EntityFindings>, gs: seq<EntityFindings>) {
    |fs| == |gs| && forall i :: 0 <= i < |fs| ==> gs[i].entity == fs[i].entity
  }

  lemma KnownInSame(item: Item, fs: seq<EntityFindings>, gs: seq<EntityFindings>)
    requires AboutKnown(item, fs) && SameEntities(fs, gs)
    ensures AboutKnown(item, gs)
  {
    if item.entity != "*" {
      var i :| 0 <= i < |fs| && fs[i].entity == item.entity;
      assert gs[i].entity == item.entity;
    }
  }

  /** The loops that fill the map: seeds first, then the evidence. */
  method ComputeFindings(evidence: seq<Item>, seeds: seq<Seed>) returns (findings: seq<EntityFindings>)
    ensures findings == ToFindings(evidence, seeds)
  {
    var byEntity: Groups := [];
    for i := 0 to |seeds|
      invariant byEntity == Opened(seeds[..i])
    {
      PrefixStep(seeds, i);
      if IndexOf(byEntity, seeds[i].value) == |byEntity| {
        byEntity := byEntity + [(seeds[i].value, [])];
      }
    }
    assert seeds[..|seeds|] == seeds;
    for i := 0 to |evidence|
      invariant byEntity == FileAll(Opened(seeds), evidence[..i])
    {
      PrefixStep(evidence, i);
      var item := evidence[i];
      if item.entity != "*" {
        var at := IndexOf(byEntity, item.entity);
        if at < |byEntity| {
          byEntity := byEntity[at := (item.entity, byEntity[at].1 + [item])];
        } else {
          byEntity := byEntity + [(item.entity, [item])];
        }
      }
    }
    assert evidence[..|evidence|] == evidence;
    return Counted(byEntity);
  }

  /** The number kept counts, or else the number listed; without either there is none. */
  lemma KeptOneMore(fs: seq<EntityFindings>, f: EntityFindings)
    ensures KeptTotal([]) == 0
    ensures KeptTotal(fs + [f]) == KeptTotal(fs) +
      if f.keptCount.Some? then f.keptCount.value else if f.listed.Some? then f.listed.value else 0
  {
    OneMore(fs, f);
  }

  /** Where nothing is listed and nothing kept. */
  ghost function EmptyAt(fs: seq<EntityFindings>, n: nat): set<int>
    requires n <= |fs|
  {
    set i | 0 <= i < n && (fs[i].listed.Some? ==> fs[i].listed.value == 0)
                       && (fs[i].keptCount.Some? ==> fs[i].keptCount.value == 0)
  }

  lemma {:induction false} EmptyCountMeaning(fs: seq<EntityFindings>)
    ensures EmptyCount(fs) == |EmptyAt(fs, |fs|)|
  {
    if fs != [] {
      var n := |fs| - 1;
      EmptyCountMeaning(fs[..n]);
      assert EmptyAt(fs[..n], n) == EmptyAt(fs, n);
      assert EmptyAt(fs, n + 1) == EmptyAt(fs, n) + if IsEmpty(fs[n]) then {n} else {};
    }
  }

  lemma OneMore(fs: seq<EntityFindings>, f: EntityFindings)
    ensures KeptTotal(fs + [f]) == KeptTotal(fs) + Kept(f)
    ensures EmptyCount(fs + [f]) == EmptyCount(fs) + (if IsEmpty(f) then 1 else 0)
  {
    assert (fs + [f])[..|fs|] == fs;
  }
}
