/** The seeds of the refinement loop: their keys, and which of the discovered ones are new. */
module Seeds {
  import opened Common
  import opened Evidence

  /** A seed's identity: its type and its value, case and surrounding blanks folded away by `fold`. */
  function SeedKey(fold: string -> string, s: Seed): string {
    s.kind + ":" + fold(s.value)
  }

  /** The same seed: of the same kind, and with the same value up to case and surrounding blanks. */
  ghost predicate Same(fold: string -> string, s: Seed, t: Seed) {
    s.kind == t.kind && fold(s.value) == fold(t.value)
  }

  /** One kind is the other with a colon and more behind it, and exactly that is missing from its value. */
  ghost predicate Straddles(fold: string -> string, long: Seed, short: Seed) {
    exists x :: long.kind == short.kind + ":" + x && fold(short.value) == x + ":" + fold(long.value)
  }

  lemma KeyOfStraddling(a: string, b: string, x: string, p: string)
    requires a == b + ":" + x
    ensures a + ":" + p == b + ":" + (x + ":" + p)
  {
  }

  lemma SharedPrefix(a: string, p: string, b: string, q: string)
    requires a + ":" + p == b + ":" + q && |b| <= |a|
    ensures |a| == |b| ==> a == b && p == q
    ensures |b| < |a| ==> var x := a[|b| + 1..]; a == b + ":" + x && q == x + ":" + p
  {
    var s := a + ":" + p;
    assert a == s[..|a|] && p == s[|a| + 1..] && b == s[..|b|] && q == s[|b| + 1..];
    if |b| < |a| {
      assert s[|b|] == ':' && a == s[..|b|] + [s[|b|]] + s[|b| + 1..|a|];
      assert s[|b| + 1..] == s[|b| + 1..|a|] + [s[|a|]] + s[|a| + 1..];
    }
  }

  /** Two seeds share a key exactly if they are the same, or a colon in one of the kinds hides where it ends. */
  lemma KeyMeaning(fold: string -> string, s: Seed, t: Seed)
    ensures SeedKey(fold, s) == SeedKey(fold, t) <==> Same(fold, s, t) || Straddles(fold, s, t) || Straddles(fold, t, s)
  {
    if SeedKey(fold, s) == SeedKey(fold, t) {
      if |t.kind| <= |s.kind| {
        SharedPrefix(s.kind, fold(s.value), t.kind, fold(t.value));
      } else {
        SharedPrefix(t.kind, fold(t.value), s.kind, fold(s.value));
      }
    }
    if Straddles(fold, s, t) {
      var x :| s.kind == t.kind + ":" + x && fold(t.value) == x + ":" + fold(s.value);
      KeyOfStraddling(s.kind, t.kind, x, fold(s.value));
    }
    if Straddles(fold, t, s) {
      var x :| t.kind == s.kind + ":" + x && fold(s.value) == x + ":" + fold(t.value);
      KeyOfStraddling(t.kind, s.kind, x, fold(t.value));
    }
  }

  /** No kind holds a colon. */
  ghost predicate PlainKinds(seeds: seq<Seed>) {
    forall s :: s in seeds ==> ':' !in s.kind
  }

  lemma StraddlingNeedsColon(fold: string -> string, long: Seed, short: Seed)
    ensures Straddles(fold, long, short) ==> ':' in long.kind
  {
    if Straddles(fold, long, short) {
      var x :| long.kind == short.kind + ":" + x && fold(short.value) == x + ":" + fold(long.value);
      assert long.kind[|short.kind|] == ':';
    }
  }

  lemma PlainKeyMeaning(fold: string -> string, s: Seed, t: Seed)
    requires ':' !in s.kind && ':' !in t.kind
    ensures SeedKey(fold, s) == SeedKey(fold, t) <==> Same(fold, s, t)
  {
    KeyMeaning(fold, s, t);
    StraddlingNeedsColon(fold, s, t);
    StraddlingNeedsColon(fold, t, s);
  }

  ghost predicate HasSame(fold: string -> string, seeds: seq<Seed>, s: Seed) {
    exists t :: t in seeds && Same(fold, s, t)
  }

  lemma KnownMeaning(fold: string -> string, seeds: seq<Seed>, s: Seed)
    requires PlainKinds(seeds) && ':' !in s.kind
    ensures SeedKey(fold, s) in Keys(fold, seeds) <==> HasSame(fold, seeds, s)
  {
    forall t | t in seeds ensures SeedKey(fold, s) == SeedKey(fold, t) <==> Same(fold, s, t) {
      PlainKeyMeaning(fold, s, t);
    }
  }

  function Keys(fold: string -> string, seeds: seq<Seed>): set<string> {
    set s | s in seeds :: SeedKey(fold, s)
  }

  ghost predicate DistinctKeys(fold: string -> string, seeds: seq<Seed>) {
    forall i, j :: 0 <= i < j < |seeds| ==> SeedKey(fold, seeds[i]) != SeedKey(fold, seeds[j])
  }

  /** The first seed of every key. */
  function Deduped(fold: string -> string, seeds: seq<Seed>): seq<Seed> {
    if seeds == [] then []
    else
      var before := Deduped(fold, seeds[..|seeds| - 1]);
      var last := seeds[|seeds| - 1];
      if SeedKey(fold, last) in Keys(fold, before) then before else before + [last]
  }

  lemma KeysAppend(fold: string -> string, seeds: seq<Seed>, s: Seed)
    ensures Keys(fold, seeds + [s]) == Keys(fold, seeds) + {SeedKey(fold, s)}
  {
    assert forall t :: t in seeds + [s] <==> t in seeds || t == s;
    forall k | k in Keys(fold, seeds) + {SeedKey(fold, s)} ensures k in Keys(fold, seeds + [s]) {
      if k == SeedKey(fold, s) {
        assert s in seeds + [s];
      } else {
        var t :| t in seeds && SeedKey(fold, t) == k;
        assert t in seeds + [s];
      }
    }
  }

  lemma {:induction false} KeysConcat(fold: string -> string, a: seq<Seed>, b: seq<Seed>)
    ensures Keys(fold, a + b) == Keys(fold, a) + Keys(fold, b)
  {
    if b == [] {
      assert a + b == a;
    } else {
      var n := |b| - 1;
      ConcatLast(a, b);
      KeysConcat(fold, a, b[..n]);
      KeysAppend(fold, a + b[..n], b[n]);
      assert b == b[..n] + [b[n]];
      KeysAppend(fold, b[..n], b[n]);
    }
  }

  /** Deduplication loses no key, keeps no key twice, and keeps only seeds of the list. */
  lemma {:induction false} DedupedMeaning(fold: string -> string, seeds: seq<Seed>)
    ensures Keys(fold, Deduped(fold, seeds)) == Keys(fold, seeds)
    ensures DistinctKeys(fold, Deduped(fold, seeds))
    ensures forall s :: s in Deduped(fold, seeds) ==> s in seeds
  {
    if seeds != [] {
      var n := |seeds| - 1;
      DedupedMeaning(fold, seeds[..n]);
      var before := Deduped(fold, seeds[..n]);
      assert seeds == seeds[..n] + [seeds[n]];
      KeysAppend(fold, seeds[..n], seeds[n]);
      KeysAppend(fold, before, seeds[n]);
      forall i | 0 <= i < |before| ensures SeedKey(fold, before[i]) in Keys(fold, before) {
        assert before[i] in before;
      }
    }
  }

  /** Of the seeds under one key, the one kept is the first of the list. */
  lemma {:induction false} DedupedKeepsFirst(fold: string -> string, seeds: seq<Seed>, i: nat)
    requires i < |seeds|
    requires forall j :: 0 <= j < i ==> SeedKey(fold, seeds[j]) != SeedKey(fold, seeds[i])
    ensures seeds[i] in Deduped(fold, seeds)
  {
    var n := |seeds| - 1;
    var before := Deduped(fold, seeds[..n]);
    if i < n {
      DedupedKeepsFirst(fold, seeds[..n], i);
      assert seeds[i] in before;
    } else {
      DedupedMeaning(fold, seeds[..n]);
      assert SeedKey(fold, seeds[n]) !in Keys(fold, seeds[..n]);
      assert seeds[n] in before + [seeds[n]];
    }
  }

  /** The seeds that are not the same as an earlier one, in order. */
  ghost function Firsts(fold: string -> string, seeds: seq<Seed>): seq<Seed> {
    if seeds == [] then []
    else
      var earlier, last := seeds[..|seeds| - 1], seeds[|seeds| - 1];
      Firsts(fold, earlier) + if HasSame(fold, earlier, last) then [] else [last]
  }

  /** Among seeds whose kinds hold no colon, deduplication keeps the first of each kind and value, in order. */
  lemma {:induction false} DedupedIsFirsts(fold: string -> string, seeds: seq<Seed>)
    requires PlainKinds(seeds)
    ensures Deduped(fold, seeds) == Firsts(fold, seeds)
  {
    if seeds != [] {
      var n := |seeds| - 1;
      DedupedIsFirsts(fold, seeds[..n]);
      DedupedMeaning(fold, seeds[..n]);
      KnownMeaning(fold, seeds[..n], seeds[n]);
    }
  }

  method DedupeSeeds(fold: string -> string, seeds: seq<Seed>) returns (kept: seq<Seed>)
    ensures kept == Deduped(fold, seeds) && (PlainKinds(seeds) ==> kept == Firsts(fold, seeds))
  {
    kept := [];
    var seen: set<string> := {};
    for i := 0 to |seeds|
      invariant kept == Deduped(fold, seeds[..i]) && seen == Keys(fold, kept)
    {
      PrefixStep(seeds, i);
      var key := SeedKey(fold, seeds[i]);
      if key !in seen {
        KeysAppend(fold, kept, seeds[i]);
        seen := seen + {key};
        kept := kept + [seeds[i]];
      }
    }
    assert seeds[..|seeds|] == seeds;
    if PlainKinds(seeds) {
      DedupedIsFirsts(fold, seeds);
    }
  }

  predicate IsNew(fold: string -> string, minConfidence: int, known: set<string>, s: Seed) {
    s.confidence >= minConfidence && SeedKey(fold, s) !in known
  }

  /** The confident seeds under keys not known yet. */
  function Unknown(fold: string -> string, minConfidence: int, known: set<string>, found: seq<Seed>): seq<Seed> {
    if found == [] then []
    else
      var n := |found| - 1;
      var before := Unknown(fold, minConfidence, known, found[..n]);
      if IsNew(fold, minConfidence, known, found[n]) then before + [found[n]] else before
  }

  lemma {:induction false} UnknownMeaning(fold: string -> string, minConfidence: int, known: set<string>,
                                          found: seq<Seed>, s: Seed)
    ensures s in Unknown(fold, minConfidence, known, found) <==> s in found && IsNew(fold, minConfidence, known, s)
  {
    if found != [] {
      var n := |found| - 1;
      UnknownMeaning(fold, minConfidence, known, found[..n], s);
      assert found == found[..n] + [found[n]];
    }
  }

  /** What a sweep adds to the seeds. */
  function Added(fold: string -> string, minConfidence: int, known: set<string>, found: seq<Seed>): seq<Seed> {
    Deduped(fold, Unknown(fold, minConfidence, known, found))
  }

  /** The confident seeds that are not the same as one there is already, in order. */
  ghost function Newcomers(fold: string -> string, minConfidence: int, seeds: seq<Seed>, found: seq<Seed>): seq<Seed> {
    if found == [] then []
    else
      var last := found[|found| - 1];
      Newcomers(fold, minConfidence, seeds, found[..|found| - 1]) +
      if last.confidence >= minConfidence && !HasSame(fold, seeds, last) then [last] else []
  }

  lemma {:induction false} UnknownIsNewcomers(fold: string -> string, minConfidence: int, seeds: seq<Seed>,
                                              found: seq<Seed>)
    requires PlainKinds(seeds) && PlainKinds(found)
    ensures Unknown(fold, minConfidence, Keys(fold, seeds), found) == Newcomers(fold, minConfidence, seeds, found)
    ensures forall s :: s in Newcomers(fold, minConfidence, seeds, found) ==> s in found
  {
    if found != [] {
      var n := |found| - 1;
      UnknownIsNewcomers(fold, minConfidence, seeds, found[..n]);
      KnownMeaning(fold, seeds, found[n]);
    }
  }

  /** Among seeds whose kinds hold no colon, a sweep adds the first of every confident newcomer. */
  lemma AddedIsNew(fold: string -> string, minConfidence: int, seeds: seq<Seed>, found: seq<Seed>)
    requires PlainKinds(seeds) && PlainKinds(found)
    ensures Added(fold, minConfidence, Keys(fold, seeds), found) ==
      Firsts(fold, Newcomers(fold, minConfidence, seeds, found))
  {
    UnknownIsNewcomers(fold, minConfidence, seeds, found);
    DedupedIsFirsts(fold, Newcomers(fold, minConfidence, seeds, found));
  }

  /** A sweep adds one seed for every new key, none under a known one, and only confident ones it found. */
  lemma AddedMeaning(fold: string -> string, minConfidence: int, known: set<string>, found: seq<Seed>)
    ensures var added := Added(fold, minConfidence, known, found);
      && DistinctKeys(fold, added)
      && Keys(fold, added) !! known
      && (forall s :: s in added ==> s in found && s.confidence >= minConfidence)
      && (forall s :: s in found && IsNew(fold, minConfidence, known, s) ==> SeedKey(fold, s) in Keys(fold, added))
  {
    var unknown := Unknown(fold, minConfidence, known, found);
    DedupedMeaning(fold, unknown);
    forall s ensures s in unknown <==> s in found && IsNew(fold, minConfidence, known, s) {
      UnknownMeaning(fold, minConfidence, known, found, s);
    }
  }

  /**
   * A sweep adds nothing exactly when the keys of all confident discoveries were there already: among kinds without a
   * colon, when the same seeds were there.
   */
  lemma NothingAdded(fold: string -> string, minConfidence: int, seeds: seq<Seed>, found: seq<Seed>)
    ensures Added(fold, minConfidence, Keys(fold, seeds), found) == [] <==>
      forall s :: s in found && s.confidence >= minConfidence ==> SeedKey(fold, s) in Keys(fold, seeds)
    ensures PlainKinds(seeds) && PlainKinds(found) ==>
      (Added(fold, minConfidence, Keys(fold, seeds), found) == [] <==>
       forall s :: s in found && s.confidence >= minConfidence ==> HasSame(fold, seeds, s))
  {
    var added := Added(fold, minConfidence, Keys(fold, seeds), found);
    AddedMeaning(fold, minConfidence, Keys(fold, seeds), found);
    if added != [] {
      assert added[0] in added && SeedKey(fold, added[0]) in Keys(fold, added);
    }
    if PlainKinds(seeds) && PlainKinds(found) {
      forall s | s in found ensures SeedKey(fold, s) in Keys(fold, seeds) <==> HasSame(fold, seeds, s) {
        KnownMeaning(fold, seeds, s);
      }
    }
  }

  /** Adding keeps the keys distinct. */
  lemma AddingKeepsDistinct(fold: string -> string, seeds: seq<Seed>, added: seq<Seed>)
    requires DistinctKeys(fold, seeds) && DistinctKeys(fold, added)
    requires Keys(fold, added) !! Keys(fold, seeds)
    ensures DistinctKeys(fold, seeds + added)
  {
    forall i, j | 0 <= i < j < |seeds + added|
      ensures SeedKey(fold, (seeds + added)[i]) != SeedKey(fold, (seeds + added)[j])
    {
      if i < |seeds| <= j {
        assert seeds[i] in seeds && added[j - |seeds|] in added;
        assert SeedKey(fold, seeds[i]) in Keys(fold, seeds);
        assert SeedKey(fold, added[j - |seeds|]) in Keys(fold, added);
      }
    }
  }

  /** No more seeds than keys. */
  lemma DistinctKeysFit(fold: string -> string, seeds: seq<Seed>, pool: set<string>)
    requires DistinctKeys(fold, seeds) && Keys(fold, seeds) <= pool
    ensures |seeds| <= |pool|
  {
    var keys := seq(|seeds|, i requires 0 <= i < |seeds| => SeedKey(fold, seeds[i]));
    forall k | k in keys ensures k in pool {
      var i :| 0 <= i < |seeds| && SeedKey(fold, seeds[i]) == k;
      assert seeds[i] in seeds;
    }
    Pigeonhole(keys, pool);
  }

  method NewSeeds(fold: string -> string, minConfidence: int, known: set<string>, found: seq<Seed>,
                  ghost seeds: seq<Seed>) returns (added: seq<Seed>)
    requires known == Keys(fold, seeds)
    ensures added == Added(fold, minConfidence, known, found)
    ensures PlainKinds(seeds) && PlainKinds(found) ==>
      added == Firsts(fold, Newcomers(fold, minConfidence, seeds, found))
  {
    var unknown: seq<Seed> := [];
    for i := 0 to |found|
      invariant unknown == Unknown(fold, minConfidence, known, found[..i])
    {
      PrefixStep(found, i);
      if found[i].confidence >= minConfidence && SeedKey(fold, found[i]) !in known {
        unknown := unknown + [found[i]];
      }
    }
    assert found[..|found|] == found;
    added := DedupeSeeds(fold, unknown);
    if PlainKinds(seeds) && PlainKinds(found) {
      AddedIsNew(fold, minConfidence, seeds, found);
    }
  }
}
