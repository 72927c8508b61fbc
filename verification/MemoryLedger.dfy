/**
 * The audit ledger in memory. It keeps a reference to the metadata of every append, so what it verifies depends
 * on what callers have done to their metadata since.
 */
module MemoryLedger {
  import opened Common
  import opened CanonicalJson
  import opened AuditLedger

  /** The entry that follows the kept ones: the next number, the last hash, and its own hash. */
  function NextEntry(kept: seq<Kept>, input: EntryInput, h: Hashing): Entry {
    var previousHash := if kept == [] then Genesis else kept[|kept| - 1].bare.hash;
    var unsigned := Entry(input, |kept| + 1, previousHash, "");
    unsigned.(hash := HashEntry(unsigned, h))
  }

  lemma NextEntryFits(kept: seq<Kept>, appended: seq<Entry>, input: EntryInput, metadata: Option<MetadataObject>,
                      h: Hashing)
    requires Grown(appended, h) && KeepsAll(kept, appended)
    requires input.metadata.Some? ==> WellFormed(input.metadata.value)
    requires metadata.Some? <==> input.metadata.Some?
    ensures var e := NextEntry(kept, input, h);
      && e == NewEntry(appended, input, h)
      && Grown(appended + [e], h) && KeepsAll(kept + [Kept(WithMetadata(e, None), metadata)], appended + [e])
  {
    KeptHash(kept, appended);
    GrownByOne(appended, input, h);
    KeepsOneMore(kept, appended, metadata, NewEntry(appended, input, h));
  }

  class Ledger {
    const h: Hashing
    var kept: seq<Kept>
    /** The entries as they were when they were appended. */
    ghost var appended: seq<Entry>

    /** In every run of appends: what was appended was a valid chain, and is kept up to its metadata. */
    ghost predicate Valid()
      reads this
    {
      Ideal(h) && Grown(appended, h) && KeepsAll(kept, appended)
    }

    /** The entries with their metadata as it is at the moment. */
    ghost function Entries(): seq<Entry>
      reads this, Objects(kept)
    {
      PresentAll(kept)
    }

    constructor (h: Hashing)
      requires Ideal(h)
      ensures Valid() && this.h == h && appended == []
    {
      this.h := h;
      kept, appended := [], [];
    }

    /** Appends the next entry, hashed with the metadata as it is now, and keeps the metadata object. */
    method Append(input: EntryInput, metadata: Option<MetadataObject>) returns (entry: Entry)
      requires Valid() && input.metadata == None && (metadata.Some? ==> WellFormed(metadata.value.json))
      modifies this
      ensures Valid() && appended == old(appended) + [entry]
      ensures entry == NewEntry(old(appended),
        input.(metadata := if metadata.Some? then Some(metadata.value.json) else None), h)
      ensures kept == old(kept) + [Kept(WithMetadata(entry, None), metadata)]
      ensures entry.input == input.(metadata := if metadata.Some? then Some(metadata.value.json) else None)
      ensures entry.sequence == |old(kept)| + 1 && entry.hash == HashEntry(entry, h)
      ensures entry.previousHash == if old(kept) == [] then "GENESIS" else old(kept)[|old(kept)| - 1].bare.hash
    {
      var given := input.(metadata := if metadata.Some? then Some(metadata.value.json) else None);
      entry := NextEntry(kept, given, h);
      NextEntryFits(kept, appended, given, metadata, h);
      kept := kept + [Kept(WithMetadata(entry, None), metadata)];
      appended := appended + [entry];
    }

    /**
     * A ledger grown by appends verifies exactly while every metadata object has the sorted form it had when it was
     * appended - in particular if nobody touched any; otherwise the report is the number of the first entry whose
     * metadata changed.
     */
    method Verify() returns (v: Verdict)
      requires Valid() && AllGood(Entries())
      ensures |old(Entries())| == |appended| && v == ReportOn(appended, old(Entries()), h.le)
    {
      var entries := PresentAll(kept);
      PresentIsKept(kept, appended);
      KeptIsAged(appended, kept, entries, h);
      v := VerifyAged(appended, entries, h);
    }
  }

  /** The verification loop over entries that may have been touched since they were appended. */
  method VerifyAged(ghost appended: seq<Entry>, entries: seq<Entry>, h: Hashing) returns (v: Verdict)
    requires Aged(appended, entries, h)
    ensures v == ReportOn(appended, entries, h.le)
  {
    v := VerifyEntries(entries, h);
    WhatVerifyFinds(appended, entries, h, v);
  }
}
