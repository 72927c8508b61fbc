/** Evidence items and seeds, and the store that keeps the first item of every key. */
module Evidence {

  datatype Item = Item(key: string, entity: string, title: string, source: string, snippet: string)

  datatype Seed = Seed(kind: string, value: string, confidence: int, source: string)

  predicate HasKey(store: seq<Item>, key: string) {
    exists i :: 0 <= i < |store| && store[i].key == key
  }

  /** The evidence store after more items arrive: only the first item of each key is kept. */
  function Merged(store: seq<Item>, added: seq<Item>): seq<Item> {
    if added == [] then store
    else
      var before := Merged(store, added[..|added| - 1]);
      var item := added[|added| - 1];
      if HasKey(before, item.key) then before else before + [item]
  }

  /** No two items of the store have the same key. */
  ghost predicate DistinctItems(store: seq<Item>) {
    forall i, j :: 0 <= i < j < |store| ==> store[i].key != store[j].key
  }

  lemma {:induction false} MergedGrows(store: seq<Item>, added: seq<Item>, i: nat)
    requires i <= |added|
    ensures store <= Merged(store, added[..i]) <= Merged(store, added)
    decreases |added|
  {
    if added == [] {
      assert added[..i] == [];
    } else {
      var n := |added| - 1;
      if i <= n {
        MergedGrows(store, added[..n], i);
        assert added[..n][..i] == added[..i];
      } else {
        MergedGrows(store, added[..n], n);
        assert added[..i] == added;
      }
    }
  }

  lemma {:induction false} MergedDistinct(store: seq<Item>, added: seq<Item>)
    requires DistinctItems(store)
    ensures DistinctItems(Merged(store, added))
    decreases |added|
  {
    if added != [] {
      MergedDistinct(store, added[..|added| - 1]);
    }
  }

  /** Merging leaves one item under every key, and never exchanges one that is there: the first of a key stays. */
  lemma MergedMeaning(store: seq<Item>, added: seq<Item>, i: nat)
    requires i < |added|
    ensures store <= Merged(store, added[..i]) <= Merged(store, added)
    ensures HasKey(Merged(store, added), added[i].key)
    ensures !HasKey(Merged(store, added[..i]), added[i].key) ==> added[i] in Merged(store, added)
    ensures DistinctItems(store) ==> DistinctItems(Merged(store, added))
  {
    MergedGrows(store, added, i);
    MergedGrows(store, added, i + 1);
    if DistinctItems(store) {
      MergedDistinct(store, added);
    }
    var before, after, all := Merged(store, added[..i]), Merged(store, added[..i + 1]), Merged(store, added);
    assert added[..i + 1][..i] == added[..i];
    assert after == if HasKey(before, added[i].key) then before else before + [added[i]];
    assert HasKey(after, added[i].key) by {
      if !HasKey(before, added[i].key) {
        assert after[|before|].key == added[i].key;
      }
    }
    var k :| 0 <= k < |after| && after[k].key == added[i].key;
    assert all[k] == after[k];
    if !HasKey(before, added[i].key) {
      assert all[|before|] == added[i];
    }
  }

  /** What merging appends: some of the added items, in order, none under a key seen before. */
  lemma {:induction false} MergedAppends(store: seq<Item>, added: seq<Item>)
    ensures |store| <= |Merged(store, added)|
    ensures Merged(store, added)[..|store|] == store
    ensures forall i :: |store| <= i < |Merged(store, added)| ==> Merged(store, added)[i] in added
    decreases added, store
  {
    if added != [] {
      MergedAppends(store, added[..|added| - 1]);
    }
  }
}
