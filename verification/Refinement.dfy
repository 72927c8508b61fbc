/** Runs of the refinement loop: what each sweep records, when the loop stops, and what every run keeps. */
module Refinement {
  import opened Common
  import opened Evidence
  import opened Seeds

  datatype Reason =
    NoNewRefinements | DiminishingReturns | MaxSweeps | LlmConverged | BudgetExhausted | PolicyDenied | Error

  datatype SweepResult = SweepResult(items: seq<Item>, itemKeys: seq<string>, discovered: seq<Seed>)

  /** A sweep has converged exactly when it carries a reason. */
  datatype Summary = Summary(number: nat, seeds: seq<Seed>, result: SweepResult, newSeeds: nat, overlap: real,
                             reason: Option<Reason>)

  datatype Options = Options(maxSweeps: int, overlapThreshold: real, minConfidence: int, maxItems: int)

  /**
   * The loop's surroundings: the query, which may throw (`None`), the optional extractor of seeds, and the
   * folding of case and blanks in seed values.
   */
  datatype Env = Env(query: (seq<Seed>, nat) -> Option<SweepResult>,
                     extract: Option<(seq<Item>, seq<Seed>) -> seq<Seed>>,
                     fold: string -> string)

  // ------------------------------------------------------------------ item keys

  /** The key of item `i`: the one the result gives, or else one made of the sweep's number and `i`. */
  function ItemKey(result: SweepResult, number: nat, i: nat): string {
    if i < |result.itemKeys| then result.itemKeys[i] else Digits(number) + "-" + Digits(i)
  }

  /** A map in insertion order, as a list of entries. */
  type Entries = seq<(string, Item)>

  predicate HasEntry(entries: Entries, key: string) {
    exists j :: 0 <= j < |entries| && entries[j].0 == key
  }

  function Put(entries: Entries, key: string, item: Item): Entries {
    if HasEntry(entries, key) then entries else entries + [(key, item)]
  }

  /** The entries once the first `n` items of a sweep are filed. */
  function Filed(entries: Entries, result: SweepResult, number: nat, n: nat): Entries
    requires n <= |result.items|
  {
    if n == 0 then entries
    else Put(Filed(entries, result, number, n - 1), ItemKey(result, number, n - 1), result.items[n - 1])
  }

  ghost predicate DistinctEntries(entries: Entries) {
    forall i, j :: 0 <= i < j < |entries| ==> entries[i].0 != entries[j].0
  }

  /** Filing never changes an entry, and afterwards every key filed has one. */
  lemma {:induction false} FilingKeepsEntries(entries: Entries, result: SweepResult, number: nat, n: nat)
    requires n <= |result.items|
    ensures entries <= Filed(entries, result, number, n)
    ensures DistinctEntries(entries) ==> DistinctEntries(Filed(entries, result, number, n))
    ensures forall i :: 0 <= i < n ==> HasEntry(Filed(entries, result, number, n), ItemKey(result, number, i))
    decreases n, entries
  {
    if n > 0 {
      FilingKeepsEntries(entries, result, number, n - 1);
      var before, all := Filed(entries, result, number, n - 1), Filed(entries, result, number, n);
      assert HasEntry(all, ItemKey(result, number, n - 1)) by {
        if !HasEntry(before, ItemKey(result, number, n - 1)) {
          assert all[|before|].0 == ItemKey(result, number, n - 1);
        }
      }
      forall i | 0 <= i < n - 1 ensures HasEntry(all, ItemKey(result, number, i)) {
        assert HasEntry(before, ItemKey(result, number, i));
        var j :| 0 <= j < |before| && before[j].0 == ItemKey(result, number, i);
        assert all[j] == before[j];
      }
    }
  }

  /** How many of the first `n` keys were seen in earlier sweeps. */
  function SeenCount(seen: set<string>, keys: seq<string>, n: nat): (c: nat)
    requires n <= |keys|
    ensures c <= n
  {
    if n == 0 then 0 else SeenCount(seen, keys, n - 1) + (if keys[n - 1] in seen then 1 else 0)
  }

  /** The share of this sweep's keys that earlier sweeps had; 1 when there are none. */
  function OverlapRatio(seen: set<string>, keys: seq<string>): real {
    if keys == [] then 1.0 else SeenCount(seen, keys, |keys|) as real / |keys| as real
  }

  /** The positions of the first `n` keys that were seen before. */
  ghost function SeenAt(seen: set<string>, keys: seq<string>, n: nat): set<int>
    requires n <= |keys|
  {
    set i | 0 <= i < n && keys[i] in seen
  }

  lemma {:induction false} SeenCountMeaning(seen: set<string>, keys: seq<string>, n: nat)
    requires n <= |keys|
    ensures SeenCount(seen, keys, n) == |SeenAt(seen, keys, n)|
  {
    if n > 0 {
      SeenCountMeaning(seen, keys, n - 1);
      assert SeenAt(seen, keys, n) == SeenAt(seen, keys, n - 1) + if keys[n - 1] in seen then {n - 1} else {};
    }
  }

  lemma {:induction false} AllSeen(seen: set<string>, keys: seq<string>, n: nat)
    requires n <= |keys|
    ensures SeenCount(seen, keys, n) == n <==> forall i :: 0 <= i < n ==> keys[i] in seen
  {
    if n > 0 {
      AllSeen(seen, keys, n - 1);
    }
  }

  /**
   * The overlap is the share of the keys that were seen before, and full without any keys; so it is full exactly when
   * the sweep brought no key that is new.
   */
  lemma OverlapMeaning(seen: set<string>, keys: seq<string>)
    ensures OverlapRatio(seen, keys) ==
      if keys == [] then 1.0 else |set i | 0 <= i < |keys| && keys[i] in seen| as real / |keys| as real
    ensures 0.0 <= OverlapRatio(seen, keys) <= 1.0
    ensures OverlapRatio(seen, keys) == 1.0 <==> forall k :: k in keys ==> k in seen
  {
    if keys != [] {
      SeenCountMeaning(seen, keys, |keys|);
      assert SeenAt(seen, keys, |keys|) == set i | 0 <= i < |keys| && keys[i] in seen;
      AllSeen(seen, keys, |keys|);
      Share(SeenCount(seen, keys, |keys|), |keys|);
      assert forall i :: 0 <= i < |keys| ==> keys[i] in keys;
    }
  }

  lemma Share(c: nat, n: nat)
    requires 0 < n && c <= n
    ensures 0.0 <= c as real / n as real <= 1.0
    ensures c as real / n as real == 1.0 <==> c == n
  {
    var q := c as real / n as real;
    assert q * n as real == c as real;
    assert q < 0.0 ==> q * n as real < 0.0;
    assert q > 1.0 ==> q * n as real > n as real;
  }

  // ------------------------------------------------------------------ runs

  /** The seeds after `i` sweeps. */
  function SeedsAfter(fold: string -> string, initial: seq<Seed>, sweeps: seq<Summary>, i: nat): seq<Seed>
    requires i <= |sweeps|
  {
    if i == 0 then Deduped(fold, initial) else sweeps[i - 1].seeds
  }

  /** The item keys seen in the first `i` sweeps. */
  function KeysSeen(sweeps: seq<Summary>, i: nat): set<string>
    requires i <= |sweeps|
  {
    if i == 0 then {} else KeysSeen(sweeps, i - 1) + Elements(sweeps[i - 1].result.itemKeys)
  }

  /** The items of the first `i` sweeps, the first of every key. */
  function EntriesAfter(sweeps: seq<Summary>, i: nat): Entries
    requires i <= |sweeps|
  {
    if i == 0 then []
    else
      var result := sweeps[i - 1].result;
      Filed(EntriesAfter(sweeps, i - 1), result, i, |result.items|)
  }

  /** The seeds a sweep found: those the query discovered, or else those extracted from its items. */
  function Found(env: Env, result: SweepResult, seeds: seq<Seed>): seq<Seed> {
    if result.discovered != [] then result.discovered
    else if env.extract.Some? then env.extract.value(result.items, seeds)
    else []
  }

  /** What a sweep adds to the seeds before it. */
  function Additions(env: Env, o: Options, result: SweepResult, seeds: seq<Seed>): seq<Seed> {
    Added(env.fold, o.minConfidence, Keys(env.fold, seeds), Found(env, result, seeds))
  }

  /** The record of a sweep that started with `seeds` and left `entries` items. */
  function Summarised(env: Env, o: Options, seeds: seq<Seed>, overlap: real, entries: nat, number: nat,
                      result: SweepResult): Summary
  {
    if entries >= o.maxItems then Summary(number, seeds, result, 0, overlap, Some(BudgetExhausted))
    else
      var added := Additions(env, o, result, seeds);
      Summary(number, seeds + added, result, |added|, overlap,
              if added == [] then Some(NoNewRefinements)
              else if overlap >= o.overlapThreshold && number > 1 then Some(DiminishingReturns)
              else None)
  }

  ghost predicate SweepFits(env: Env, o: Options, initial: seq<Seed>, sweeps: seq<Summary>, i: nat)
    requires i < |sweeps|
  {
    var before := SeedsAfter(env.fold, initial, sweeps, i);
    var result := sweeps[i].result;
    && env.query(before, i + 1) == Some(result)
    && sweeps[i] == Summarised(env, o, before, OverlapRatio(KeysSeen(sweeps, i), result.itemKeys),
                               |EntriesAfter(sweeps, i + 1)|, i + 1, result)
  }

  /** The records of a run: every sweep fits those before it, and only the last may carry a reason. */
  ghost predicate IsRun(env: Env, o: Options, initial: seq<Seed>, sweeps: seq<Summary>) {
    && (forall i: nat :: i < |sweeps| ==> SweepFits(env, o, initial, sweeps, i))
    && (forall i: nat :: i + 1 < |sweeps| ==> sweeps[i].reason.None?)
  }

  /** Why a run with these records ended, and that it had to. */
  ghost predicate EndsWith(env: Env, o: Options, initial: seq<Seed>, sweeps: seq<Summary>, reason: Reason) {
    var n := |sweeps|;
    if n > 0 && sweeps[n - 1].reason.Some? then reason == sweeps[n - 1].reason.value
    else if n < o.maxSweeps then
      reason == Error && env.query(SeedsAfter(env.fold, initial, sweeps, n), n + 1) == None
    else reason == MaxSweeps
  }

  // ------------------------------------------------------------------ one more sweep

  lemma {:induction false} HistoryOfAppend(sweeps: seq<Summary>, s: Summary, i: nat)
    requires i <= |sweeps|
    ensures KeysSeen(sweeps + [s], i) == KeysSeen(sweeps, i)
    ensures EntriesAfter(sweeps + [s], i) == EntriesAfter(sweeps, i)
    decreases i, sweeps
  {
    if i > 0 {
      HistoryOfAppend(sweeps, s, i - 1);
      assert (sweeps + [s])[i - 1] == sweeps[i - 1];
    }
  }

  lemma RunExtends(env: Env, o: Options, initial: seq<Seed>, sweeps: seq<Summary>, s: Summary)
    requires IsRun(env, o, initial, sweeps) && (sweeps != [] ==> sweeps[|sweeps| - 1].reason.None?)
    requires var before := SeedsAfter(env.fold, initial, sweeps, |sweeps|);
      && env.query(before, |sweeps| + 1) == Some(s.result)
      && s == Summarised(env, o, before, OverlapRatio(KeysSeen(sweeps, |sweeps|), s.result.itemKeys),
                         |Filed(EntriesAfter(sweeps, |sweeps|), s.result, |sweeps| + 1, |s.result.items|)|,
                         |sweeps| + 1, s.result)
    ensures IsRun(env, o, initial, sweeps + [s])
    ensures KeysSeen(sweeps + [s], |sweeps| + 1) == KeysSeen(sweeps, |sweeps|) + Elements(s.result.itemKeys)
    ensures EntriesAfter(sweeps + [s], |sweeps| + 1) ==
      Filed(EntriesAfter(sweeps, |sweeps|), s.result, |sweeps| + 1, |s.result.items|)
  {
    var all := sweeps + [s];
    forall i: nat | i < |all| ensures SweepFits(env, o, initial, all, i) {
      HistoryOfAppend(sweeps, s, i);
      if i < |sweeps| {
        HistoryOfAppend(sweeps, s, i + 1);
        assert SweepFits(env, o, initial, sweeps, i);
        assert all[i] == sweeps[i];
      }
    }
    HistoryOfAppend(sweeps, s, |sweeps|);
  }

  // ------------------------------------------------------------------ what every run keeps

  /** The seeds never repeat a key, whatever the queries and the extractor return. */
  lemma {:induction false} SeedsStayDistinct(env: Env, o: Options, initial: seq<Seed>, sweeps: seq<Summary>, i: nat)
    requires IsRun(env, o, initial, sweeps) && i <= |sweeps|
    ensures DistinctKeys(env.fold, SeedsAfter(env.fold, initial, sweeps, i))
  {
    if i == 0 {
      DedupedMeaning(env.fold, initial);
    } else {
      SeedsStayDistinct(env, o, initial, sweeps, i - 1);
      assert SweepFits(env, o, initial, sweeps, i - 1);
      var before := SeedsAfter(env.fold, initial, sweeps, i - 1);
      var found := Found(env, sweeps[i - 1].result, before);
      AddedMeaning(env.fold, o.minConfidence, Keys(env.fold, before), found);
      AddingKeepsDistinct(env.fold, before, Additions(env, o, sweeps[i - 1].result, before));
    }
  }

  /** The seeds counted as new in the first `i` sweeps. */
  function NewSeedsTotal(sweeps: seq<Summary>, i: nat): nat
    requires i <= |sweeps|
  {
    if i == 0 then 0 else NewSeedsTotal(sweeps, i - 1) + sweeps[i - 1].newSeeds
  }

  /** The seed list only grows, and the summaries account for all of its growth. */
  lemma {:induction false} SeedsAccountedFor(env: Env, o: Options, initial: seq<Seed>, sweeps: seq<Summary>, i: nat)
    requires IsRun(env, o, initial, sweeps) && i <= |sweeps|
    ensures Deduped(env.fold, initial) <= SeedsAfter(env.fold, initial, sweeps, i)
    ensures |SeedsAfter(env.fold, initial, sweeps, i)| == |Deduped(env.fold, initial)| + NewSeedsTotal(sweeps, i)
  {
    if i > 0 {
      SeedsAccountedFor(env, o, initial, sweeps, i - 1);
      assert SweepFits(env, o, initial, sweeps, i - 1);
    }
  }

  /** A sweep that did not end the run found at least one new seed. */
  lemma {:induction false} SweepsFindSeeds(env: Env, o: Options, initial: seq<Seed>, sweeps: seq<Summary>, i: nat)
    requires IsRun(env, o, initial, sweeps) && i < |sweeps|
    ensures NewSeedsTotal(sweeps, i) >= i
  {
    if i > 0 {
      SweepsFindSeeds(env, o, initial, sweeps, i - 1);
      assert SweepFits(env, o, initial, sweeps, i - 1);
      assert sweeps[i - 1].reason.None?;
    }
  }

  lemma {:induction false} TotalGrows(sweeps: seq<Summary>, i: nat)
    requires i < |sweeps|
    ensures NewSeedsTotal(sweeps, i) <= NewSeedsTotal(sweeps, i + 1)
  {
  }

  /**
   * If all seed keys come from a finite pool, a run has at most one sweep more than the pool has keys that
   * the initial seeds lack, whatever the limit on sweeps.
   */
  lemma SweepsAreBounded(env: Env, o: Options, initial: seq<Seed>, sweeps: seq<Summary>, pool: set<string>)
    requires IsRun(env, o, initial, sweeps)
    requires Keys(env.fold, SeedsAfter(env.fold, initial, sweeps, |sweeps|)) <= pool
    ensures |sweeps| <= |pool - Keys(env.fold, initial)| + 1
  {
    SweepsWithinNewSeeds(env, o, initial, sweeps);
    SeedsFit(env, o, initial, sweeps, pool);
  }

  lemma SweepsWithinNewSeeds(env: Env, o: Options, initial: seq<Seed>, sweeps: seq<Summary>)
    requires IsRun(env, o, initial, sweeps)
    ensures |sweeps| <= NewSeedsTotal(sweeps, |sweeps|) + 1
  {
    if sweeps != [] {
      SweepsFindSeeds(env, o, initial, sweeps, |sweeps| - 1);
      TotalGrows(sweeps, |sweeps| - 1);
    }
  }

  /** The new seeds of a run are no more than the keys of the pool that the initial seeds lack. */
  lemma SeedsFit(env: Env, o: Options, initial: seq<Seed>, sweeps: seq<Summary>, pool: set<string>)
    requires IsRun(env, o, initial, sweeps)
    requires Keys(env.fold, SeedsAfter(env.fold, initial, sweeps, |sweeps|)) <= pool
    ensures NewSeedsTotal(sweeps, |sweeps|) <= |pool - Keys(env.fold, initial)|
  {
    var first, last := Deduped(env.fold, initial), SeedsAfter(env.fold, initial, sweeps, |sweeps|);
    SeedsStayDistinct(env, o, initial, sweeps, |sweeps|);
    SeedsAccountedFor(env, o, initial, sweeps, |sweeps|);
    GrowthFits(env.fold, first, last, pool);
    DedupedMeaning(env.fold, initial);
  }

  lemma GrowthFits(fold: string -> string, first: seq<Seed>, last: seq<Seed>, pool: set<string>)
    requires DistinctKeys(fold, last) && first <= last && Keys(fold, last) <= pool
    ensures |last| - |first| <= |pool - Keys(fold, first)|
  {
    var more := last[|first|..];
    assert last == first + more;
    KeysConcat(fold, first, more);
    KeysOfSuffixAreNew(fold, first, more);
    DistinctKeysFit(fold, more, pool - Keys(fold, first));
  }

  lemma KeysOfSuffixAreNew(fold: string -> string, first: seq<Seed>, more: seq<Seed>)
    requires DistinctKeys(fold, first + more)
    ensures DistinctKeys(fold, more) && Keys(fold, more) !! Keys(fold, first)
  {
    var all := first + more;
    forall i | 0 <= i < |more| ensures more[i] == all[|first| + i] {
    }
    forall s, t | s in first && t in more ensures SeedKey(fold, s) != SeedKey(fold, t) {
      var i :| 0 <= i < |first| && first[i] == s;
      var j :| 0 <= j < |more| && more[j] == t;
      assert all[i] == s && all[|first| + j] == t;
    }
  }

  /** Some sweep before the `i`-th had this item key. */
  ghost predicate SeenBefore(sweeps: seq<Summary>, i: nat, key: string)
    requires i <= |sweeps|
  {
    exists m :: 0 <= m < i && key in sweeps[m].result.itemKeys
  }

  lemma {:induction false} KeysSeenMeaning(sweeps: seq<Summary>, i: nat, key: string)
    requires i <= |sweeps|
    ensures key in KeysSeen(sweeps, i) <==> SeenBefore(sweeps, i, key)
  {
    if i > 0 {
      KeysSeenMeaning(sweeps, i - 1, key);
      assert key in sweeps[i - 1].result.itemKeys ==> SeenBefore(sweeps, i, key);
    }
  }

  /** Item `j` of sweep `m` is the item, and its key is the one given for it or made of their two numbers. */
  ghost predicate IsFiledAs(sweeps: seq<Summary>, m: int, j: int, key: string, item: Item) {
    && 0 <= m < |sweeps| && 0 <= j < |sweeps[m].result.items| && sweeps[m].result.items[j] == item
    && var keys := sweeps[m].result.itemKeys;
       key == if j < |keys| then keys[j] else Digits(m + 1) + "-" + Digits(j)
  }

  /** The item came under this key in one of the first `i` sweeps. */
  ghost predicate Brought(sweeps: seq<Summary>, i: nat, key: string, item: Item) {
    exists m, j :: m < i && IsFiledAs(sweeps, m, j, key, item)
  }

  /** The items of a run: one for every key that a sweep brought, and each under a key it came with. */
  lemma {:induction false} EntriesMeaning(sweeps: seq<Summary>, i: nat)
    requires i <= |sweeps|
    ensures DistinctEntries(EntriesAfter(sweeps, i))
    ensures forall e :: e in EntriesAfter(sweeps, i) ==> Brought(sweeps, i, e.0, e.1)
    ensures forall key, item :: Brought(sweeps, i, key, item) ==> HasEntry(EntriesAfter(sweeps, i), key)
  {
    if i > 0 {
      EntriesMeaning(sweeps, i - 1);
      var result := sweeps[i - 1].result;
      FilingKeepsEntries(EntriesAfter(sweeps, i - 1), result, i, |result.items|);
      forall e | e in EntriesAfter(sweeps, i) ensures Brought(sweeps, i, e.0, e.1) {
        FilingAddsItems(sweeps, i - 1, |result.items|, e);
      }
      forall key, item | Brought(sweeps, i, key, item) ensures HasEntry(EntriesAfter(sweeps, i), key) {
        BroughtIsFiled(sweeps, i, key, item);
      }
    }
  }

  lemma BroughtIsFiled(sweeps: seq<Summary>, i: nat, key: string, item: Item)
    requires 0 < i <= |sweeps| && Brought(sweeps, i, key, item)
    requires Brought(sweeps, i - 1, key, item) ==> HasEntry(EntriesAfter(sweeps, i - 1), key)
    ensures HasEntry(EntriesAfter(sweeps, i), key)
  {
    var before, all, result := EntriesAfter(sweeps, i - 1), EntriesAfter(sweeps, i), sweeps[i - 1].result;
    FilingKeepsEntries(before, result, i, |result.items|);
    var m, j :| m < i && IsFiledAs(sweeps, m, j, key, item);
    if m == i - 1 {
      assert key == ItemKey(result, i, j);
    } else {
      assert Brought(sweeps, i - 1, key, item);
      var k :| 0 <= k < |before| && before[k].0 == key;
      assert all[k] == before[k];
    }
  }

  lemma {:induction false} FilingAddsItems(sweeps: seq<Summary>, m: nat, n: nat, e: (string, Item))
    requires m < |sweeps| && n <= |sweeps[m].result.items|
    requires e in Filed(EntriesAfter(sweeps, m), sweeps[m].result, m + 1, n)
    ensures e in EntriesAfter(sweeps, m) || exists j :: IsFiledAs(sweeps, m, j, e.0, e.1)
    decreases n
  {
    if n > 0 && e !in EntriesAfter(sweeps, m) {
      if e in Filed(EntriesAfter(sweeps, m), sweeps[m].result, m + 1, n - 1) {
        FilingAddsItems(sweeps, m, n - 1, e);
      } else {
        assert IsFiledAs(sweeps, m, n - 1, e.0, e.1);
      }
    }
  }

  /**
   * What a sweep's record says: its number, the seeds it added, and why it ended the run, if it did. The budget
   * comes first, then the want of new seeds, and the overlap counts from the second sweep on.
   */
  lemma SweepMeaning(env: Env, o: Options, initial: seq<Seed>, sweeps: seq<Summary>, i: nat)
    requires IsRun(env, o, initial, sweeps) && i < |sweeps|
    ensures var s, before := sweeps[i], SeedsAfter(env.fold, initial, sweeps, i);
      && env.query(before, i + 1) == Some(s.result)
      && s.number == i + 1 && before <= s.seeds && s.newSeeds == |s.seeds| - |before|
    ensures var s, spent := sweeps[i], |EntriesAfter(sweeps, i + 1)| >= o.maxItems;
      && (s.reason == Some(BudgetExhausted) <==> spent) && (spent ==> s.newSeeds == 0)
      && (s.reason == Some(NoNewRefinements) <==> !spent && s.newSeeds == 0)
      && (s.reason == Some(DiminishingReturns) <==>
          !spent && s.newSeeds > 0 && i > 0 && s.overlap >= o.overlapThreshold)
      && s.reason in {None, Some(BudgetExhausted), Some(NoNewRefinements), Some(DiminishingReturns)}
  {
    assert SweepFits(env, o, initial, sweeps, i);
  }

  /** The overlap of a sweep is the share of its item keys that earlier sweeps had, and 1 without any. */
  lemma SweepOverlap(env: Env, o: Options, initial: seq<Seed>, sweeps: seq<Summary>, i: nat)
    requires IsRun(env, o, initial, sweeps) && i < |sweeps|
    ensures var keys := sweeps[i].result.itemKeys;
      sweeps[i].overlap ==
        if keys == [] then 1.0 else |set j | 0 <= j < |keys| && SeenBefore(sweeps, i, keys[j])| as real / |keys| as real
  {
    assert SweepFits(env, o, initial, sweeps, i);
    OverlapOfKeys(sweeps, i, sweeps[i].result.itemKeys);
  }

  lemma OverlapOfKeys(sweeps: seq<Summary>, i: nat, keys: seq<string>)
    requires i <= |sweeps|
    ensures OverlapRatio(KeysSeen(sweeps, i), keys) ==
      if keys == [] then 1.0 else |set j | 0 <= j < |keys| && SeenBefore(sweeps, i, keys[j])| as real / |keys| as real
  {
    OverlapMeaning(KeysSeen(sweeps, i), keys);
    forall key ensures key in KeysSeen(sweeps, i) <==> SeenBefore(sweeps, i, key) {
      KeysSeenMeaning(sweeps, i, key);
    }
    assert (set j | 0 <= j < |keys| && keys[j] in KeysSeen(sweeps, i)) ==
      set j | 0 <= j < |keys| && SeenBefore(sweeps, i, keys[j]);
  }

  /**
   * The seeds a sweep adds, among kinds without a colon: of what the query discovered - or, if that is nothing, of
   * what the extractor finds - every confident seed of a kind and value not there before, once and in order.
   */
  lemma SweepAdds(env: Env, o: Options, initial: seq<Seed>, sweeps: seq<Summary>, i: nat)
    requires IsRun(env, o, initial, sweeps) && i < |sweeps| && |EntriesAfter(sweeps, i + 1)| < o.maxItems
    ensures var s, before := sweeps[i], SeedsAfter(env.fold, initial, sweeps, i);
      var found := if s.result.discovered == [] && env.extract.Some? then env.extract.value(s.result.items, before)
                   else s.result.discovered;
      PlainKinds(before) && PlainKinds(found) ==>
        s.seeds == before + Firsts(env.fold, Newcomers(env.fold, o.minConfidence, before, found))
  {
    assert SweepFits(env, o, initial, sweeps, i);
    var before := SeedsAfter(env.fold, initial, sweeps, i);
    var found := Found(env, sweeps[i].result, before);
    if PlainKinds(before) && PlainKinds(found) {
      AddedIsNew(env.fold, o.minConfidence, before, found);
    }
  }

  /** What each reason says about the run; two of the declared reasons are never given. */
  lemma ReasonMeaning(env: Env, o: Options, initial: seq<Seed>, sweeps: seq<Summary>, reason: Reason)
    requires IsRun(env, o, initial, sweeps) && EndsWith(env, o, initial, sweeps, reason)
    ensures reason != LlmConverged && reason != PolicyDenied
    ensures var goesOn := sweeps == [] || sweeps[|sweeps| - 1].reason.None?;
      && (reason == MaxSweeps <==> goesOn && |sweeps| >= o.maxSweeps)
      && (reason == Error <==> goesOn && |sweeps| < o.maxSweeps)
    ensures reason == Error ==> env.query(SeedsAfter(env.fold, initial, sweeps, |sweeps|), |sweeps| + 1) == None
    ensures reason == BudgetExhausted <==> sweeps != [] && |EntriesAfter(sweeps, |sweeps|)| >= o.maxItems
    ensures reason == DiminishingReturns <==>
      && |sweeps| > 1 && |EntriesAfter(sweeps, |sweeps|)| < o.maxItems
      && sweeps[|sweeps| - 1].newSeeds > 0 && sweeps[|sweeps| - 1].overlap >= o.overlapThreshold
  {
    var n := |sweeps|;
    if n > 0 {
      assert SweepFits(env, o, initial, sweeps, n - 1);
    }
  }

  /**
   * Stopping for want of refinements means what it says: the item budget was not spent, and every confident
   * seed that the last sweep found was known before it.
   */
  lemma NoNewRefinementsMeaning(env: Env, o: Options, initial: seq<Seed>, sweeps: seq<Summary>, reason: Reason)
    requires IsRun(env, o, initial, sweeps) && EndsWith(env, o, initial, sweeps, reason)
    ensures reason == NoNewRefinements <==>
      && sweeps != []
      && |EntriesAfter(sweeps, |sweeps|)| < o.maxItems
      && (var before := SeedsAfter(env.fold, initial, sweeps, |sweeps| - 1);
          forall s :: s in Found(env, sweeps[|sweeps| - 1].result, before) && s.confidence >= o.minConfidence ==>
            SeedKey(env.fold, s) in Keys(env.fold, before))
    ensures sweeps != [] && |EntriesAfter(sweeps, |sweeps|)| < o.maxItems ==>
      var before := SeedsAfter(env.fold, initial, sweeps, |sweeps| - 1);
      var found := Found(env, sweeps[|sweeps| - 1].result, before);
      PlainKinds(before) && PlainKinds(found) ==>
        (reason == NoNewRefinements <==>
         forall s :: s in found && s.confidence >= o.minConfidence ==> HasSame(env.fold, before, s))
  {
    var n := |sweeps|;
    if n > 0 {
      var before := SeedsAfter(env.fold, initial, sweeps, n - 1);
      assert SweepFits(env, o, initial, sweeps, n - 1);
      NothingAdded(env.fold, o.minConfidence, before, Found(env, sweeps[n - 1].result, before));
    }
  }

  // ------------------------------------------------------------------ the engine's store

  /** The engine's evidence store after the first `i` sweeps. */
  function StoreAfter(sweeps: seq<Summary>, i: nat): seq<Item>
    requires i <= |sweeps|
  {
    if i == 0 then [] else Merged(StoreAfter(sweeps, i - 1), sweeps[i - 1].result.items)
  }

  lemma {:induction false} StoreOfAppend(sweeps: seq<Summary>, s: Summary, i: nat)
    requires i <= |sweeps|
    ensures StoreAfter(sweeps + [s], i) == StoreAfter(sweeps, i)
    decreases i, sweeps
  {
    if i > 0 {
      StoreOfAppend(sweeps, s, i - 1);
      assert (sweeps + [s])[i - 1] == sweeps[i - 1];
    }
  }

  // ------------------------------------------------------------------ the loop's state

  /** Everything a discovery run returns and leaves behind. */
  ghost predicate Discovered(env: Env, o: Options, initial: seq<Seed>, sweeps: seq<Summary>, items: Entries,
                             seeds: seq<Seed>, reason: Reason, store: seq<Item>)
  {
    && IsRun(env, o, initial, sweeps)
    && EndsWith(env, o, initial, sweeps, reason)
    && items == EntriesAfter(sweeps, |sweeps|)
    && seeds == SeedsAfter(env.fold, initial, sweeps, |sweeps|)
    && store == StoreAfter(sweeps, |sweeps|)
  }

  /** The state between two sweeps. */
  ghost predicate Underway(env: Env, o: Options, initial: seq<Seed>, sweeps: seq<Summary>, items: Entries,
                           seeds: seq<Seed>, seen: set<string>, store: seq<Item>)
  {
    && IsRun(env, o, initial, sweeps)
    && (sweeps != [] ==> sweeps[|sweeps| - 1].reason.None?)
    && items == EntriesAfter(sweeps, |sweeps|)
    && seeds == SeedsAfter(env.fold, initial, sweeps, |sweeps|)
    && seen == KeysSeen(sweeps, |sweeps|)
    && store == StoreAfter(sweeps, |sweeps|)
  }

  /** One more sweep on record: everything moves on together, or the run is over for the sweep's reason. */
  lemma NextSweep(env: Env, o: Options, initial: seq<Seed>, sweeps: seq<Summary>, items: Entries,
                  seeds: seq<Seed>, seen: set<string>, store: seq<Item>, result: SweepResult, s: Summary)
    requires Underway(env, o, initial, sweeps, items, seeds, seen, store)
    requires env.query(seeds, |sweeps| + 1) == Some(result)
    requires s == Summarised(env, o, seeds, OverlapRatio(seen, result.itemKeys),
                             |Filed(items, result, |sweeps| + 1, |result.items|)|, |sweeps| + 1, result)
    ensures var more := Filed(items, result, |sweeps| + 1, |result.items|);
      if s.reason.None? then
        Underway(env, o, initial, sweeps + [s], more, s.seeds, seen + Elements(result.itemKeys),
                 Merged(store, result.items))
      else
        Discovered(env, o, initial, sweeps + [s], more, s.seeds, s.reason.value, Merged(store, result.items))
  {
    RunExtends(env, o, initial, sweeps, s);
    StoreOfAppend(sweeps, s, |sweeps|);
  }

  /** A run also ends when a query throws, or when no sweeps are left. */
  lemma RunEnds(env: Env, o: Options, initial: seq<Seed>, sweeps: seq<Summary>, items: Entries,
                seeds: seq<Seed>, seen: set<string>, store: seq<Item>)
    requires Underway(env, o, initial, sweeps, items, seeds, seen, store)
    ensures |sweeps| < o.maxSweeps && env.query(seeds, |sweeps| + 1) == None ==>
      Discovered(env, o, initial, sweeps, items, seeds, Error, store)
    ensures |sweeps| >= o.maxSweeps ==> Discovered(env, o, initial, sweeps, items, seeds, MaxSweeps, store)
  {
  }

  /** Item keys line up with the keys of the items. */
  ghost predicate Aligned(items: seq<Item>, keys: seq<string>) {
    |keys| == |items| && forall i :: 0 <= i < |items| ==> keys[i] == items[i].key
  }

  /** A list of entries under the items' own keys, and the store with the same items. */
  ghost predicate Agree(entries: Entries, store: seq<Item>) {
    |entries| == |store| && forall i :: 0 <= i < |store| ==> entries[i] == (store[i].key, store[i])
  }

  lemma AgreeAfterPut(entries: Entries, store: seq<Item>, item: Item)
    requires Agree(entries, store)
    ensures Agree(Put(entries, item.key, item), if HasKey(store, item.key) then store else store + [item])
  {
    assert HasEntry(entries, item.key) <==> HasKey(store, item.key) by {
      if HasKey(store, item.key) {
        var i :| 0 <= i < |store| && store[i].key == item.key;
        assert entries[i].0 == item.key;
      }
    }
  }

  lemma {:induction false} AgreeAfterFiling(entries: Entries, store: seq<Item>, result: SweepResult, number: nat,
                                            n: nat)
    requires Agree(entries, store) && n <= |result.items| && Aligned(result.items, result.itemKeys)
    ensures Agree(Filed(entries, result, number, n), Merged(store, result.items[..n]))
    decreases n, number
  {
    if n > 0 {
      AgreeAfterFiling(entries, store, result, number, n - 1);
      PrefixStep(result.items, n - 1);
      AgreeAfterPut(Filed(entries, result, number, n - 1), Merged(store, result.items[..n - 1]), result.items[n - 1]);
    }
  }

  /**
   * When the item keys of every sweep are the keys of its items, the loop's items are the engine's evidence
   * store: the same items in the same order.
   */
  lemma {:induction false} StoresAgree(sweeps: seq<Summary>, i: nat)
    requires i <= |sweeps|
    requires forall k :: 0 <= k < i ==> Aligned(sweeps[k].result.items, sweeps[k].result.itemKeys)
    ensures Agree(EntriesAfter(sweeps, i), StoreAfter(sweeps, i))
  {
    if i > 0 {
      StoresAgree(sweeps, i - 1);
      var result := sweeps[i - 1].result;
      AgreeAfterFiling(EntriesAfter(sweeps, i - 1), StoreAfter(sweeps, i - 1), result, i, |result.items|);
      assert result.items[..|result.items|] == result.items;
    }
  }
}
