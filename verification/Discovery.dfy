/**
 * The refinement loop as the engine runs it: every query also files its items in the engine's own evidence
 * store.
 */
module Discovery {
  import opened Common
  import opened Evidence
  import opened Seeds
  import opened Refinement

  /** The keys of the items in a store. */
  function StoreKeys(store: seq<Item>): set<string> {
    set item | item in store :: item.key
  }

  lemma StoreKeysAppend(store: seq<Item>, item: Item)
    ensures StoreKeys(store + [item]) == StoreKeys(store) + {item.key}
  {
    assert forall x :: x in store + [item] <==> x in store || x == item;
    assert item in store + [item];
    forall k | k in StoreKeys(store) ensures k in StoreKeys(store + [item]) {
      var x :| x in store && x.key == k;
      assert x in store + [item];
    }
  }

  lemma StoreKeysMeaning(store: seq<Item>, key: string)
    ensures key in StoreKeys(store) <==> HasKey(store, key)
  {
    if HasKey(store, key) {
      var i :| 0 <= i < |store| && store[i].key == key;
      assert store[i] in store;
    }
  }

  class Engine {
    var evidenceStore: seq<Item>
    var evidenceKeys: set<string>

    ghost predicate Valid()
      reads this
    {
      evidenceKeys == StoreKeys(evidenceStore)
    }

    constructor ()
      ensures Valid() && evidenceStore == []
    {
      evidenceStore := [];
      evidenceKeys := {};
    }

    /** Files the items whose key is new. */
    method Keep(items: seq<Item>)
      requires Valid()
      modifies this
      ensures Valid() && evidenceStore == Merged(old(evidenceStore), items)
    {
      for i := 0 to |items|
        invariant Valid() && evidenceStore == Merged(old(evidenceStore), items[..i])
      {
        PrefixStep(items, i);
        StoreKeysMeaning(evidenceStore, items[i].key);
        if items[i].key !in evidenceKeys {
          StoreKeysAppend(evidenceStore, items[i]);
          evidenceKeys := evidenceKeys + {items[i].key};
          evidenceStore := evidenceStore + [items[i]];
        }
      }
      assert items[..|items|] == items;
    }

    /** The query the engine hands to the loop; when the discovery throws, nothing is filed. */
    method Query(env: Env, seeds: seq<Seed>, number: nat) returns (result: Option<SweepResult>)
      requires Valid()
      modifies this
      ensures Valid() && result == env.query(seeds, number)
      ensures evidenceStore ==
        if result.Some? then Merged(old(evidenceStore), result.value.items) else old(evidenceStore)
    {
      result := env.query(seeds, number);
      if result.Some? {
        Keep(result.value.items);
      }
    }

    method RunRefinementLoop(env: Env, o: Options, initial: seq<Seed>)
      returns (sweeps: seq<Summary>, allItems: Entries, allSeeds: seq<Seed>, reason: Reason)
      requires Valid() && evidenceStore == []
      modifies this
      ensures Valid() && Discovered(env, o, initial, sweeps, allItems, allSeeds, reason, evidenceStore)
      ensures |sweeps| <= (if o.maxSweeps > 0 then o.maxSweeps else 0)
      ensures PlainKinds(initial) ==> Firsts(env.fold, initial) <= allSeeds
    {
      sweeps, allItems, reason := [], [], MaxSweeps;
      allSeeds := DedupeSeeds(env.fold, initial);
      var activeSeeds := allSeeds;
      var usedSeedKeys := Keys(env.fold, allSeeds);
      var prevItemKeys: set<string> := {};
      var sweep := 1;
      while sweep <= o.maxSweeps
        invariant Valid() && |sweeps| == sweep - 1 && (sweep > 1 ==> sweep - 1 <= o.maxSweeps)
        invariant Underway(env, o, initial, sweeps, allItems, allSeeds, prevItemKeys, evidenceStore)
        invariant activeSeeds == allSeeds && usedSeedKeys == Keys(env.fold, allSeeds)
        invariant PlainKinds(initial) ==> Firsts(env.fold, initial) <= allSeeds
      {
        RunEnds(env, o, initial, sweeps, allItems, allSeeds, prevItemKeys, evidenceStore);
        ghost var items, seeds, seen, store := allItems, allSeeds, prevItemKeys, evidenceStore;
        var answer := Query(env, activeSeeds, sweep);
        if answer.None? {
          reason := Error;
          return;
        }
        var result := answer.value;
        allItems := FileItems(allItems, result, sweep);
        var summary;
        summary, usedSeedKeys :=
          Assess(env, o, result, activeSeeds, usedSeedKeys, prevItemKeys, |allItems|, sweep);
        NextSweep(env, o, initial, sweeps, items, seeds, seen, store, result, summary);
        sweeps := sweeps + [summary];
        activeSeeds, allSeeds := summary.seeds, summary.seeds;
        if summary.reason.Some? {
          reason := summary.reason.value;
          return;
        }
        prevItemKeys := prevItemKeys + Elements(result.itemKeys);
        sweep := sweep + 1;
      }
      RunEnds(env, o, initial, sweeps, allItems, allSeeds, prevItemKeys, evidenceStore);
    }
  }

  /**
   * The record of a sweep whose items are filed: over if the budget is spent, otherwise with the confident seeds
   * under new keys added, and over if there are none or the sweep overlaps too much with those before it.
   */
  method Assess(env: Env, o: Options, result: SweepResult, seeds: seq<Seed>, used: set<string>, seen: set<string>,
                entries: nat, number: nat) returns (summary: Summary, moreUsed: set<string>)
    requires used == Keys(env.fold, seeds)
    ensures summary == Summarised(env, o, seeds, OverlapRatio(seen, result.itemKeys), entries, number, result)
    ensures moreUsed == Keys(env.fold, summary.seeds)
  {
    var overlap := OverlapRatio(seen, result.itemKeys);
    if entries >= o.maxItems {
      return Summary(number, seeds, result, 0, overlap, Some(BudgetExhausted)), used;
    }
    var found := if result.discovered != [] then result.discovered
                 else if env.extract.Some? then env.extract.value(result.items, seeds)
                 else [];
    var filteredNew := NewSeeds(env.fold, o.minConfidence, used, found, seeds);
    KeysConcat(env.fold, seeds, filteredNew);
    var why := None;
    if filteredNew == [] {
      why := Some(NoNewRefinements);
    } else if overlap >= o.overlapThreshold && number > 1 {
      why := Some(DiminishingReturns);
    }
    return Summary(number, seeds + filteredNew, result, |filteredNew|, overlap, why),
           used + Keys(env.fold, filteredNew);
  }

  /** Files every item of a sweep under its key. */
  method FileItems(entries: Entries, result: SweepResult, number: nat) returns (filed: Entries)
    ensures filed == Filed(entries, result, number, |result.items|)
  {
    filed := entries;
    for i := 0 to |result.items|
      invariant filed == Filed(entries, result, number, i)
    {
      var key := ItemKey(result, number, i);
      if !HasEntry(filed, key) {
        filed := filed + [(key, result.items[i])];
      }
    }
  }

  /**
   * What discovery gives the engine, whatever ended it: seeds with distinct keys, the initial ones first, all
   * growth accounted for, and an evidence store equal to the loop's items when the tools keep keys and items
   * in line.
   */
  lemma {:induction false} DiscoveryMeaning(env: Env, o: Options, initial: seq<Seed>, sweeps: seq<Summary>,
                                            items: Entries,
                         seeds: seq<Seed>, reason: Reason, store: seq<Item>)
    requires Discovered(env, o, initial, sweeps, items, seeds, reason, store)
    ensures DistinctKeys(env.fold, seeds) && Deduped(env.fold, initial) <= seeds
    ensures |seeds| == |Deduped(env.fold, initial)| + NewSeedsTotal(sweeps, |sweeps|)
    ensures (forall k :: 0 <= k < |sweeps| ==> Aligned(sweeps[k].result.items, sweeps[k].result.itemKeys)) ==>
      Agree(items, store)
  {
    SeedsStayDistinct(env, o, initial, sweeps, |sweeps|);
    SeedsAccountedFor(env, o, initial, sweeps, |sweeps|);
    if forall k :: 0 <= k < |sweeps| ==> Aligned(sweeps[k].result.items, sweeps[k].result.itemKeys) {
      StoresAgree(sweeps, |sweeps|);
    }
  }

  /** The lists a toolkit sweep fills, and the keys it has seen. */
  class Collector {
    var items: seq<Item>
    var keys: seq<string>
    var seen: set<string>

    ghost predicate Valid()
      reads this
    {
      Aligned(items, keys) && NoDuplicates(keys) && seen == Elements(keys)
    }

    constructor ()
      ensures Valid() && items == []
    {
      items, keys, seen := [], [], {};
    }

    /** Keys stay in line with items and free of repeats; the items are those of an evidence store. */
    method PushItem(item: Item)
      requires Valid()
      modifies this
      ensures Valid() && items == Merged(old(items), [item])
      ensures items == if HasKey(old(items), item.key) then old(items) else old(items) + [item]
    {
      assert [item][..0] == [] && Merged(items, []) == items;
      assert item.key in seen <==> HasKey(items, item.key);
      if item.key in seen {
        return;
      }
      ElementsAppend(keys, item.key);
      seen := seen + {item.key};
      items := items + [item];
      keys := keys + [item.key];
    }
  }
}
