/**
 * The memory store with expiring entries. It drops expired entries when it happens to look at them; nothing
 * but its raw size tells it from a store that never drops any.
 */
module Expiry {
  import opened Common

  datatype Entry<V> = Entry(value: V, scope: string, expiresAt: Option<real>, metadata: map<string, V>)

  /** An entry is still good at its very last moment. */
  predicate Expired<V>(e: Entry<V>, now: real) {
    e.expiresAt.Some? && now > e.expiresAt.value
  }

  /** No scope, or the empty one, lets every entry through. */
  predicate InScope<V>(e: Entry<V>, scope: Option<string>) {
    scope == None || scope == Some("") || e.scope == scope.value
  }

  // ------------------------------------------------------------------ what can be asked of entries

  function Recalled<V>(entries: map<string, Entry<V>>, key: string, scope: Option<string>, now: real): Option<V> {
    if key in entries && InScope(entries[key], scope) && !Expired(entries[key], now)
    then Some(entries[key].value)
    else None
  }

  function All<V>(entries: map<string, Entry<V>>, scope: Option<string>, now: real): map<string, V> {
    map k | k in entries && !Expired(entries[k], now) && InScope(entries[k], scope) :: entries[k].value
  }

  function Metadata<V>(entries: map<string, Entry<V>>, key: string, now: real): Option<map<string, V>> {
    if key in entries && !Expired(entries[key], now) then Some(entries[key].metadata) else None
  }

  function Active<V>(entries: map<string, Entry<V>>, now: real): set<string> {
    set k | k in entries && !Expired(entries[k], now)
  }

  lemma AllOneMore<V>(entries: map<string, Entry<V>>, todo: set<string>, key: string, scope: Option<string>, now: real)
    requires key in todo && key in entries
    ensures var before, after := All(entries - todo, scope, now), All(entries - (todo - {key}), scope, now);
      after == if !Expired(entries[key], now) && InScope(entries[key], scope) then before[key := entries[key].value]
               else before
  {
  }

  /** The entry has no end, or the end has not passed. */
  ghost predicate Lasts<V>(e: Entry<V>, now: real) {
    e.expiresAt.None? || now <= e.expiresAt.value
  }

  /** A recall answers the value of an entry that is there, lets the scope through and has not passed its end. */
  lemma RecalledMeaning<V>(entries: map<string, Entry<V>>, key: string, scope: Option<string>, now: real)
    ensures Recalled(entries, key, scope, now).Some? <==>
      && key in entries && Lasts(entries[key], now)
      && (scope.None? || scope.value == "" || scope.value == entries[key].scope)
    ensures Recalled(entries, key, scope, now).Some? ==>
      Recalled(entries, key, scope, now).value == entries[key].value
  {
  }

  /** What was stored at `now` for `ttl` seconds is recalled up to and including `now + ttl`, and not later. */
  lemma StoredUntilTtl<V>(entries: map<string, Entry<V>>, key: string, value: V, ttl: Option<int>, stored: string,
                          metadata: map<string, V>, now: real, scope: Option<string>, later: real)
    requires key in entries
    requires entries[key] == Entry(value, stored, if ttl.None? then None else Some(now + ttl.value as real), metadata)
    ensures Recalled(entries, key, scope, later) ==
      if (scope.None? || scope.value == "" || scope.value == stored) && (ttl.None? || later - now <= ttl.value as real)
      then Some(value) else None
  {
    RecalledMeaning(entries, key, scope, later);
  }

  // ------------------------------------------------------------------ dropping what has expired

  /** The first map is the second without some entries that had expired by then. */
  ghost predicate DropsOnlyExpired<V>(entries: map<string, Entry<V>>, full: map<string, Entry<V>>, now: real) {
    && (forall k :: k in entries ==> k in full && entries[k] == full[k])
    && (forall k :: k in full && k !in entries ==> Expired(full[k], now))
  }

  /** Dropping expired entries is invisible from then on: every question has the same answer. */
  lemma DroppingIsInvisible<V>(entries: map<string, Entry<V>>, full: map<string, Entry<V>>, past: real, now: real)
    requires DropsOnlyExpired(entries, full, past) && past <= now
    ensures forall key, scope :: Recalled(entries, key, scope, now) == Recalled(full, key, scope, now)
    ensures forall scope :: All(entries, scope, now) == All(full, scope, now)
    ensures forall key :: Metadata(entries, key, now) == Metadata(full, key, now)
    ensures Active(entries, now) == Active(full, now)
  {
  }

  /** Conversely, dropping an entry that is still good shows at once. */
  lemma DroppingLiveEntryShows<V>(full: map<string, Entry<V>>, key: string, now: real)
    requires key in full && !Expired(full[key], now)
    ensures Recalled(full - {key}, key, None, now) != Recalled(full, key, None, now)
    ensures Active(full - {key}, now) != Active(full, now)
  {
    assert key in Active(full, now) && key !in Active(full - {key}, now);
  }

  /** The raw size lies between the number of good entries and the number ever kept. */
  lemma SizeBetween<V>(entries: map<string, Entry<V>>, full: map<string, Entry<V>>, now: real)
    requires DropsOnlyExpired(entries, full, now)
    ensures |Active(full, now)| <= |entries| <= |full|
  {
    assert Active(full, now) <= entries.Keys <= full.Keys;
    SubsetSize(Active(full, now), entries.Keys);
    SubsetSize(entries.Keys, full.Keys);
  }
}

module Memory {
  import opened Common
  import opened Expiry

  const CLEANUP_INTERVAL := 60.0

  /** The store; `kept` is what a store that never drops anything would hold. */
  class MemoryStore<V> {
    var entries: map<string, Entry<V>>
    var lastCleanup: real
    ghost var kept: map<string, Entry<V>>
    ghost var clock: real

    ghost predicate Valid()
      reads this
    {
      DropsOnlyExpired(entries, kept, clock)
    }

    constructor (now: real)
      ensures Valid() && clock == now && kept == map[]
    {
      entries, lastCleanup, kept, clock := map[], now, map[], now;
    }

    /** Drops every expired entry; returns how many. */
    method Cleanup(now: real) returns (dropped: nat)
      requires Valid() && clock <= now
      modifies this
      ensures Valid() && clock == now && kept == old(kept)
      ensures entries.Keys == Active(kept, now) && lastCleanup == now
      ensures entries.Keys == set k | k in kept && Lasts(kept[k], now)
      ensures dropped == |old(entries)| - |entries|
    {
      var good := map k | k in entries && !Expired(entries[k], now) :: entries[k];
      assert good.Keys <= entries.Keys;
      SubsetSize(good.Keys, entries.Keys);
      dropped := |entries| - |good|;
      DroppingIsInvisible(entries, kept, clock, now);
      entries, lastCleanup, clock := good, now, now;
    }

    /**
     * Stores a value that can be serialized, for `ttl` seconds or for ever, and cleans up when the last
     * cleanup is long past; `later` is the clock when that is checked.
     */
    method Store(serializable: V -> bool, key: string, value: V, ttl: Option<int>, scope: string,
                 metadata: Option<map<string, V>>, now: real, later: real) returns (ok: bool)
      requires Valid() && clock <= now <= later
      modifies this
      ensures Valid() && ok == serializable(value) && clock == (if ok then later else old(clock))
      ensures kept == if ok then old(kept)[key := Entry(value, scope,
                                    if ttl.None? then None else Some(now + ttl.value as real),
                                    if metadata.None? then map[] else metadata.value)]
                      else old(kept)
      ensures ok ==> if later - old(lastCleanup) > 60.0 then entries.Keys == set k | k in kept && Lasts(kept[k], later)
        else entries == old(entries)[key := kept[key]]
      ensures lastCleanup == if ok && later - old(lastCleanup) > 60.0 then later else old(lastCleanup)
    {
      ok := serializable(value);
      if !ok {
        return;
      }
      var expiresAt := if ttl.None? then None else Some(now + ttl.value as real);
      var meta := if metadata.None? then map[] else metadata.value;
      var entry := Entry(value, scope, expiresAt, meta);
      entries := entries[key := entry];
      kept := kept[key := entry];
      clock := later;
      if later - lastCleanup > CLEANUP_INTERVAL {
        var _ := Cleanup(later);
      }
    }

    /** Looks a value up, dropping the entry if it has expired. */
    method Recall(key: string, scope: Option<string>, now: real) returns (value: Option<V>)
      requires Valid() && clock <= now
      modifies this
      ensures Valid() && clock == now && kept == old(kept)
      ensures value == Recalled(kept, key, scope, now)
      ensures value.Some? <==>
        && key in kept && Lasts(kept[key], now)
        && (scope.None? || scope.value == "" || scope.value == kept[key].scope)
      ensures value.Some? ==> value.value == kept[key].value
    {
      DroppingIsInvisible(entries, kept, clock, now);
      clock := now;
      if key !in entries {
        return None;
      }
      var entry := entries[key];
      if scope.Some? && scope.value != "" && entry.scope != scope.value {
        return None;
      }
      if Expired(entry, now) {
        entries := entries - {key};
        return None;
      }
      return Some(entry.value);
    }

    /**
     * Deletes an entry. The answer tells whether the entry was still there: for a good entry always, for an
     * expired one only if nothing dropped it before.
     */
    method Forget(key: string) returns (existed: bool)
      requires Valid()
      modifies this
      ensures Valid() && clock == old(clock) && kept == old(kept) - {key}
      ensures key in Active(old(kept), clock) ==> existed
      ensures existed ==> key in old(kept)
    {
      existed := key in entries;
      entries := entries - {key};
      kept := kept - {key};
    }

    method Clear()
      requires Valid()
      modifies this
      ensures Valid() && clock == old(clock) && kept == map[]
    {
      entries, kept := map[], map[];
    }

    /** Takes over decoded entries, expired ones included. */
    method Restore(data: map<string, Entry<V>>)
      requires Valid()
      modifies this
      ensures Valid() && clock == old(clock) && kept == old(kept) + data
    {
      entries := entries + data;
      kept := kept + data;
    }

    /** Every good entry in scope. */
    method GetAll(scope: Option<string>, now: real) returns (result: map<string, V>)
      requires Valid() && clock <= now
      ensures result == All(kept, scope, now)
      ensures forall k :: k in result <==>
        && k in kept && Lasts(kept[k], now)
        && (scope.None? || scope.value == "" || scope.value == kept[k].scope)
      ensures forall k :: k in result ==> result[k] == kept[k].value
    {
      DroppingIsInvisible(entries, kept, clock, now);
      result := map[];
      var todo := entries.Keys;
      while todo != {}
        invariant todo <= entries.Keys
        invariant result == All(entries - todo, scope, now)
      {
        var key :| key in todo;
        AllOneMore(entries, todo, key, scope, now);
        todo := todo - {key};
        if Expired(entries[key], now) {
          continue;
        }
        if scope.Some? && scope.value != "" && entries[key].scope != scope.value {
          continue;
        }
        result := result[key := entries[key].value];
      }
      assert entries - todo == entries;
    }

    method ActiveSize(now: real) returns (size: nat)
      requires Valid() && clock <= now
      ensures size == |Active(kept, now)| == |set k | k in kept && Lasts(kept[k], now)|
    {
      DroppingIsInvisible(entries, kept, clock, now);
      assert Active(kept, now) == set k | k in kept && Lasts(kept[k], now);
      size := |Active(entries, now)|;
    }

    method GetMetadata(key: string, now: real) returns (metadata: Option<map<string, V>>)
      requires Valid() && clock <= now
      ensures metadata == Metadata(kept, key, now)
      ensures metadata == if key in kept && Lasts(kept[key], now) then Some(kept[key].metadata) else None
    {
      DroppingIsInvisible(entries, kept, clock, now);
      if key !in entries || Expired(entries[key], now) {
        return None;
      }
      return Some(entries[key].metadata);
    }

    /** The number of entries not dropped yet. */
    method Size() returns (size: nat)
      requires Valid()
      ensures |Active(kept, clock)| <= size <= |kept|
    {
      SizeBetween(entries, kept, clock);
      size := |entries|;
    }
  }
}
