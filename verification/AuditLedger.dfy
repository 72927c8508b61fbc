/**
 * The hash-chained audit ledger, in memory and persisted to a file. An entry's hash covers the
 * canonical text of everything else in the entry, including the hash of the entry before it.
 */
module AuditLedger {
  import opened Common
  import opened CanonicalJson
  import opened JsonFiles
  import opened JsonReader
  import opened JsonValue

  /** What a caller records. `Some(Undefined)` is a metadata property that is present but undefined. */
  datatype EntryInput = EntryInput(
    actorId: string, action: string, resourceType: string, resourceId: string, occurredAt: string,
    metadata: Option<Json>)

  datatype Entry = Entry(input: EntryInput, sequence: int, previousHash: string, hash: string)

  /** The digest function and the collation the printer sorts with. */
  datatype Hashing = Hashing(digest: string -> string, le: Collation)

  const Genesis := "GENESIS"

  /** The ideal digest: collision-free, ASCII, and never the genesis marker. The collation may be any. */
  ghost predicate Ideal(h: Hashing) {
    && (forall x, y :: h.digest(x) == h.digest(y) ==> x == y)
    && (forall x :: NotGenesis(h.digest(x)))
    && (forall x :: Ascii(h.digest(x)))
  }

  ghost predicate NotGenesis(s: string) {
    s != Genesis
  }

  ghost predicate Ascii(s: string) {
    forall i :: 0 <= i < |s| ==> s[i] as int < 0x80
  }

  // ------------------------------------------------------------------ what is hashed

  function Decimal(n: int): string {
    if n < 0 then "-" + Digits(-n) else Digits(n)
  }

  function FixedMembers(e: Entry): seq<Member<Json>> {
    [Member("actorId", String(e.input.actorId)),
     Member("action", String(e.input.action)),
     Member("resourceType", String(e.input.resourceType)),
     Member("resourceId", String(e.input.resourceId)),
     Member("occurredAt", String(e.input.occurredAt)),
     Member("sequence", Number(Decimal(e.sequence))),
     Member("previousHash", String(e.previousHash))]
  }

  function MetadataMember(e: Entry): seq<Member<Json>> {
    if e.input.metadata.Some? then [Member("metadata", e.input.metadata.value)] else []
  }

  /** The entry without its hash, as the object that is printed. */
  function UnsignedMembers(e: Entry): seq<Member<Json>> {
    FixedMembers(e) + MetadataMember(e)
  }

  function UnsignedJson(e: Entry): Json {
    Object(UnsignedMembers(e))
  }

  function HashEntry(e: Entry, h: Hashing): string {
    h.digest(Stable(UnsignedJson(e), h.le))
  }

  ghost predicate GoodMetadata(e: Entry) {
    e.input.metadata.Some? ==> WellFormed(e.input.metadata.value)
  }

  /** The same entry, up to the order of keys inside the metadata where the collation puts them in order again. */
  ghost predicate SameEntry(a: Entry, b: Entry, le: Collation) {
    && a.(input := a.input.(metadata := None)) == b.(input := b.input.(metadata := None))
    && (a.input.metadata.None? <==> b.input.metadata.None?)
    && (a.input.metadata.Some? && b.input.metadata.Some? ==>
          Normal(a.input.metadata.value, le) == Normal(b.input.metadata.value, le))
  }

  ghost predicate SameEntries(a: seq<Entry>, b: seq<Entry>, le: Collation) {
    |a| == |b| && forall i :: 0 <= i < |a| ==> SameEntry(a[i], b[i], le)
  }

  /** Same entries have metadata with the same meaning; if the collation tells names apart, that is all it takes. */
  lemma SameEntryMeaning(a: Entry, b: Entry, le: Collation)
    requires GoodMetadata(a) && GoodMetadata(b) && a.input.metadata.Some? && b.input.metadata.Some?
    requires WithMetadata(a, None) == WithMetadata(b, None)
    ensures SameEntry(a, b, le) ==> Meaning(a.input.metadata.value) == Meaning(b.input.metadata.value)
    ensures TotalPreorder(le) && TellsNamesApart(le) ==>
      (SameEntry(a, b, le) <==> Meaning(a.input.metadata.value) == Meaning(b.input.metadata.value))
  {
    var x, y := a.input.metadata.value, b.input.metadata.value;
    MeaningOfNormal(x, le);
    MeaningOfNormal(y, le);
    if TotalPreorder(le) && TellsNamesApart(le) && Meaning(x) == Meaning(y) {
      MeaningDeterminesNormal(x, y, le);
    }
  }

  lemma DecimalIsInjective(m: int, n: int)
    requires Decimal(m) == Decimal(n)
    ensures m == n
  {
    DigitsAreNumberChars(if m < 0 then -m else m);
    DigitsAreNumberChars(if n < 0 then -n else n);
    assert m < 0 <==> Decimal(m)[0] == '-';
    assert n < 0 <==> Decimal(n)[0] == '-';
    if m < 0 {
      Cancel("-", Digits(-m), Digits(-n));
      DigitsInjective(-m, -n);
    } else {
      DigitsInjective(m, n);
    }
  }

  lemma UnsignedKeys(e: Entry)
    ensures DistinctKeys(UnsignedMembers(e)) && Enumerable(UnsignedMembers(e))
  {
    var ms := UnsignedMembers(e);
    forall i, j | 0 <= i < j < |ms| ensures ms[i].key != ms[j].key {
      assert |ms[i].key| != |ms[j].key| || ms[i].key[0] != ms[j].key[0];
    }
    NamesInAnyOrder(ms);
  }

  lemma DecimalIsToken(n: int)
    ensures WellFormed(Number(Decimal(n)))
  {
    DigitsAreNumberChars(if n < 0 then -n else n);
  }

  lemma FixedIsWellFormed(e: Entry)
    ensures forall m :: m in FixedMembers(e) ==> WellFormed(m.value)
  {
    DecimalIsToken(e.sequence);
    forall m | m in FixedMembers(e) && !m.value.String? ensures m.value == Number(Decimal(e.sequence)) {
    }
  }

  lemma UnsignedIsWellFormed(e: Entry)
    requires GoodMetadata(e)
    ensures DistinctKeys(UnsignedMembers(e)) && WellFormed(UnsignedJson(e))
  {
    var ms := UnsignedMembers(e);
    UnsignedKeys(e);
    FixedIsWellFormed(e);
    forall m | m in ms ensures WellFormed(m.value) {
      assert m in FixedMembers(e) || m in MetadataMember(e);
    }
  }

  lemma MembersAt(e: Entry)
    ensures var ms := UnsignedMembers(e);
      && |ms| == (if e.input.metadata.Some? then 8 else 7)
      && ms[0].value == String(e.input.actorId) && ms[1].value == String(e.input.action)
      && ms[2].value == String(e.input.resourceType) && ms[3].value == String(e.input.resourceId)
      && ms[4].value == String(e.input.occurredAt) && ms[5].value == Number(Decimal(e.sequence))
      && ms[6].value == String(e.previousHash)
      && (e.input.metadata.Some? ==> ms[7] == Member("metadata", e.input.metadata.value))
  {
  }

  lemma OtherKeys(e: Entry, i: nat)
    requires i < 7
    ensures UnsignedMembers(e)[i].key != "metadata"
  {
    var k := UnsignedMembers(e)[i].key;
    assert |k| != |"metadata"| || k[0] != "metadata"[0];
  }

  lemma SameMemberMeaning(a: Entry, b: Entry, i: nat)
    requires GoodMetadata(a) && GoodMetadata(b) && i < 7
    requires MeaningMembers(UnsignedMembers(a)) == MeaningMembers(UnsignedMembers(b))
    ensures Meaning(UnsignedMembers(a)[i].value) == Meaning(UnsignedMembers(b)[i].value)
  {
    UnsignedIsWellFormed(a);
    UnsignedIsWellFormed(b);
    SameKeyAt(a, b, i);
    MeaningOfMember(UnsignedMembers(a), i);
    MeaningOfMember(UnsignedMembers(b), i);
  }

  lemma SameKeyAt(a: Entry, b: Entry, i: nat)
    requires i < 7
    ensures UnsignedMembers(a)[i].key == UnsignedMembers(b)[i].key
  {
    assert UnsignedMembers(a)[i] == FixedMembers(a)[i] && UnsignedMembers(b)[i] == FixedMembers(b)[i];
  }

  lemma MetadataKey(e: Entry)
    requires GoodMetadata(e)
    ensures var m := MeaningMembers(UnsignedMembers(e));
      "metadata" in m <==> e.input.metadata.Some?
  {
    var ms := UnsignedMembers(e);
    UnsignedIsWellFormed(e);
    MembersAt(e);
    MeaningKeys(ms, "metadata");
    if e.input.metadata.None? {
      forall i | 0 <= i < |ms| ensures ms[i].key != "metadata" {
        OtherKeys(e, i);
      }
    }
  }

  /** Equal sorted forms of the unsigned parts hold equal sorted forms of the metadata. */
  lemma SortedMetadata(a: Entry, b: Entry, le: Collation)
    requires GoodMetadata(a) && GoodMetadata(b) && a.input.metadata.Some? && b.input.metadata.Some?
    requires Normal(UnsignedJson(a), le) == Normal(UnsignedJson(b), le)
    ensures Normal(a.input.metadata.value, le) == Normal(b.input.metadata.value, le)
  {
    UnsignedIsWellFormed(b);
    MembersAt(a);
    MembersAt(b);
    SortedUnderKey(UnsignedMembers(a), UnsignedMembers(b), 7, 7, le);
  }

  /** Unsigned parts with the same meaning agree in everything but the metadata. */
  lemma SameFields(a: Entry, b: Entry)
    requires GoodMetadata(a) && GoodMetadata(b) && a.hash == b.hash
    requires MeaningMembers(UnsignedMembers(a)) == MeaningMembers(UnsignedMembers(b))
    ensures a.(input := a.input.(metadata := None)) == b.(input := b.input.(metadata := None))
  {
    MembersAt(a);
    MembersAt(b);
    SameMemberMeaning(a, b, 0);
    SameMemberMeaning(a, b, 1);
    SameMemberMeaning(a, b, 2);
    SameMemberMeaning(a, b, 3);
    SameMemberMeaning(a, b, 4);
    SameMemberMeaning(a, b, 5);
    SameMemberMeaning(a, b, 6);
    DecimalIsInjective(a.sequence, b.sequence);
  }

  /** Entries whose unsigned parts have the same sorted form are the same entry, apart from the stored hash. */
  lemma SortedFormDeterminesEntry(a: Entry, b: Entry, le: Collation)
    requires GoodMetadata(a) && GoodMetadata(b) && a.hash == b.hash
    requires Normal(UnsignedJson(a), le) == Normal(UnsignedJson(b), le)
    requires Meaning(UnsignedJson(a)) == Meaning(UnsignedJson(b))
    ensures SameEntry(a, b, le)
  {
    SameFields(a, b);
    MetadataKey(a);
    MetadataKey(b);
    if a.input.metadata.Some? {
      SortedMetadata(a, b, le);
    }
  }

  lemma SameEntrySameForm(a: Entry, b: Entry, le: Collation)
    requires SameEntry(a, b, le)
    ensures Normal(UnsignedJson(a), le) == Normal(UnsignedJson(b), le)
  {
    var ms, ns := UnsignedMembers(a), UnsignedMembers(b);
    assert FixedMembers(a) == FixedMembers(b);
    assert NormalMembers(ms, le) == NormalMembers(ns, le);
  }

  /** Equal hashes mean equal entries, and conversely. */
  lemma HashDeterminesEntry(a: Entry, b: Entry, h: Hashing)
    requires Ideal(h) && GoodMetadata(a) && GoodMetadata(b) && a.hash == b.hash
    ensures HashEntry(a, h) == HashEntry(b, h) <==> SameEntry(a, b, h.le)
  {
    UnsignedIsWellFormed(a);
    UnsignedIsWellFormed(b);
    StableTellsSortedForms(UnsignedJson(a), UnsignedJson(b), h.le);
    if SameEntry(a, b, h.le) {
      SameEntrySameForm(a, b, h.le);
    }
    if HashEntry(a, h) == HashEntry(b, h) {
      SortedFormDeterminesEntry(a, b, h.le);
    }
  }

  /** Everything in an entry but its hash, as the meaning of a JSON object. */
  function EntryMeaning(e: Entry): map<string, Value> {
    var fixed := map[
      "actorId" := VString(e.input.actorId),
      "action" := VString(e.input.action),
      "resourceType" := VString(e.input.resourceType),
      "resourceId" := VString(e.input.resourceId),
      "occurredAt" := VString(e.input.occurredAt),
      "sequence" := VNumber(Decimal(e.sequence)),
      "previousHash" := VString(e.previousHash)];
    if e.input.metadata.Some? then fixed["metadata" := Meaning(e.input.metadata.value)] else fixed
  }

  lemma UnsignedMeaning(e: Entry)
    requires GoodMetadata(e)
    ensures MeaningMembers(UnsignedMembers(e)) == EntryMeaning(e)
  {
    forall key
      ensures key in MeaningMembers(UnsignedMembers(e)) <==> key in EntryMeaning(e)
      ensures key in EntryMeaning(e) ==> MeaningMembers(UnsignedMembers(e))[key] == EntryMeaning(e)[key]
    {
      MeaningUnderKey(e, key);
    }
  }

  lemma MeaningUnderKey(e: Entry, key: string)
    requires GoodMetadata(e)
    ensures var m := MeaningMembers(UnsignedMembers(e));
      (key in m <==> key in EntryMeaning(e)) && (key in m ==> m[key] == EntryMeaning(e)[key])
  {
    var ms := UnsignedMembers(e);
    UnsignedKeys(e);
    MeaningKeys(ms, key);
    KeyAt(e, key);
    if i :| 0 <= i < |ms| && ms[i].key == key {
      MeaningOfMember(ms, i);
      ValueAt(e, i);
    }
  }

  lemma KeyAt(e: Entry, key: string)
    ensures var ms := UnsignedMembers(e);
      (exists i :: 0 <= i < |ms| && ms[i].key == key) <==> key in EntryMeaning(e)
  {
    var ms := UnsignedMembers(e);
    assert ms[0].key == "actorId" && ms[1].key == "action" && ms[2].key == "resourceType";
    assert ms[3].key == "resourceId" && ms[4].key == "occurredAt" && ms[5].key == "sequence";
    assert ms[6].key == "previousHash" && (e.input.metadata.Some? ==> ms[7].key == "metadata");
  }

  lemma ValueAt(e: Entry, i: nat)
    requires i < |UnsignedMembers(e)|
    ensures var m := UnsignedMembers(e)[i]; m.key in EntryMeaning(e) && EntryMeaning(e)[m.key] == Meaning(m.value)
  {
    UnsignedKeys(e);
  }

  /**
   * What a hash covers: the digest is taken of a text that reads, by the grammar of JSON, as an object with the
   * fields of the entry under their names, and nothing else.
   */
  lemma WhatIsHashed(e: Entry, h: Hashing) returns (text: string, v: Json)
    requires GoodMetadata(e)
    ensures HashEntry(e, h) == h.digest(text) && ReadValue(text) == Some((v, ""))
    ensures Meaning(v) == VObject(EntryMeaning(e))
  {
    text, v := Stable(UnsignedJson(e), h.le), Normal(UnsignedJson(e), h.le);
    UnsignedIsWellFormed(e);
    StableIsRead(UnsignedJson(e), h.le, "");
    assert text + "" == text;
    MeaningOfNormal(UnsignedJson(e), h.le);
    UnsignedMeaning(e);
  }

  // ------------------------------------------------------------------ verification

  /** The number of UTF-16 code units and of UTF-8 bytes of a string. */
  function Utf16Length(s: string): nat {
    if s == "" then 0 else (if s[0] as int < 0x10000 then 1 else 2) + Utf16Length(s[1..])
  }

  function Utf8Length(s: string): nat {
    if s == "" then 0
    else
      var c := s[0] as int;
      (if c < 0x80 then 1 else if c < 0x800 then 2 else if c < 0x10000 then 3 else 4) + Utf8Length(s[1..])
  }

  datatype Comparison = Equal | Different | Raises

  /**
   * The timing-safe comparison: strings of different length differ; strings of the same length whose
   * UTF-8 encodings have different lengths make it raise instead.
   */
  function CompareHashes(expected: string, actual: string): Comparison {
    if Utf16Length(expected) != Utf16Length(actual) then Different
    else if Utf8Length(expected) != Utf8Length(actual) then Raises
    else if expected == actual then Equal
    else Different
  }

  lemma {:induction false} AsciiLengths(s: string)
    requires Ascii(s)
    ensures Utf16Length(s) == Utf8Length(s) == |s|
  {
    if s != "" {
      AsciiLengths(s[1..]);
    }
  }

  lemma {:induction false} LongerInBytes(s: string)
    ensures Utf16Length(s) <= Utf8Length(s)
    ensures Utf16Length(s) == Utf8Length(s) <==> Ascii(s)
  {
    if s != "" {
      LongerInBytes(s[1..]);
      assert Ascii(s) <==> s[0] as int < 0x80 && Ascii(s[1..]);
    }
  }

  /**
   * Against a digest, which is ASCII, the comparison finds equal exactly the same text, and raises exactly on a text
   * of the same number of UTF-16 units that is not ASCII.
   */
  lemma ComparisonMeaning(expected: string, actual: string)
    requires Ascii(expected)
    ensures CompareHashes(expected, actual) == Equal <==> expected == actual
    ensures CompareHashes(expected, actual) == Raises <==> Utf16Length(actual) == |expected| && !Ascii(actual)
  {
    AsciiLengths(expected);
    LongerInBytes(actual);
  }

  datatype Verdict = Valid | BrokenAt(sequence: int) | Raised

  ghost predicate EntryOk(e: Entry, previous: string, h: Hashing) {
    e.hash == HashEntry(e, h) && e.previousHash == previous
  }

  function LastHash(entries: seq<Entry>): string {
    if entries == [] then Genesis else entries[|entries| - 1].hash
  }

  /** Every entry carries the hash of its own contents and of the entry before it. */
  ghost predicate Chained(entries: seq<Entry>, h: Hashing) {
    forall i :: 0 <= i < |entries| ==> EntryOk(entries[i], LastHash(entries[..i]), h)
  }

  /** `k` is the first entry that does not fit, and `v` is the report about it. */
  ghost predicate FirstFault(entries: seq<Entry>, k: nat, v: Verdict, h: Hashing) {
    && k < |entries|
    && Chained(entries[..k], h)
    && !EntryOk(entries[k], LastHash(entries[..k]), h)
    && v == if CompareHashes(HashEntry(entries[k], h), entries[k].hash) == Raises then Raised
            else BrokenAt(entries[k].sequence)
  }

  lemma {:induction false} ChainedPrefix(entries: seq<Entry>, k: nat, h: Hashing)
    requires k <= |entries| && Chained(entries, h)
    ensures Chained(entries[..k], h)
  {
    forall i | 0 <= i < k ensures EntryOk(entries[..k][i], LastHash(entries[..k][..i]), h) {
      assert entries[..k][..i] == entries[..i];
    }
  }

  lemma ChainedAppend(entries: seq<Entry>, e: Entry, h: Hashing)
    ensures Chained(entries + [e], h) <==> Chained(entries, h) && EntryOk(e, LastHash(entries), h)
  {
    var more := entries + [e];
    assert more[..|entries|] == entries;
    if Chained(more, h) {
      ChainedPrefix(more, |entries|, h);
      assert EntryOk(more[|entries|], LastHash(more[..|entries|]), h);
    }
    if Chained(entries, h) && EntryOk(e, LastHash(entries), h) {
      forall i | 0 <= i < |more| ensures EntryOk(more[i], LastHash(more[..i]), h) {
        assert i < |entries| ==> more[..i] == entries[..i] && more[i] == entries[i];
      }
    }
  }

  /**
   * The head commits to the ledger: among ledgers with the same last hash, those that verify are
   * exactly those that hold the same entries. Any edit, insertion, removal or reordering below the
   * last entry therefore makes verification fail.
   */
  lemma {:induction false} HeadCommitsToLedger(a: seq<Entry>, b: seq<Entry>, h: Hashing)
    requires Ideal(h) && Chained(a, h) && LastHash(a) == LastHash(b)
    requires forall e :: e in a ==> GoodMetadata(e)
    requires forall e :: e in b ==> GoodMetadata(e)
    ensures Chained(b, h) <==> SameEntries(a, b, h.le)
  {
    if SameEntries(a, b, h.le) {
      SameEntriesChain(a, b, h);
    }
    if Chained(b, h) {
      EqualHeadsEqualLedgers(a, b, h);
    }
  }

  lemma {:induction false} EqualHeadsEqualLedgers(a: seq<Entry>, b: seq<Entry>, h: Hashing)
    requires Ideal(h) && Chained(a, h) && Chained(b, h) && LastHash(a) == LastHash(b)
    requires forall e :: e in a ==> GoodMetadata(e)
    requires forall e :: e in b ==> GoodMetadata(e)
    ensures SameEntries(a, b, h.le)
    decreases |a|
  {
    GenesisIsNoHash(a, h);
    GenesisIsNoHash(b, h);
    if a != [] {
      var m, n := |a| - 1, |b| - 1;
      assert a[m] in a && b[n] in b;
      assert EntryOk(a[m], LastHash(a[..m]), h) && EntryOk(b[n], LastHash(b[..n]), h);
      HashDeterminesEntry(a[m], b[n], h);
      ChainedPrefix(a, m, h);
      ChainedPrefix(b, n, h);
      EqualHeadsEqualLedgers(a[..m], b[..n], h);
      SameEntriesAppend(a[..m], b[..n], a[m], b[n], h.le);
      PrefixStep(a, m);
      PrefixStep(b, n);
    }
  }

  lemma SameEntriesAppend(a: seq<Entry>, b: seq<Entry>, x: Entry, y: Entry, le: Collation)
    requires SameEntries(a, b, le) && SameEntry(x, y, le)
    ensures SameEntries(a + [x], b + [y], le)
  {
  }

  lemma GenesisIsNoHash(a: seq<Entry>, h: Hashing)
    requires Ideal(h) && Chained(a, h)
    ensures LastHash(a) == Genesis <==> a == []
  {
    if a != [] {
      assert EntryOk(a[|a| - 1], LastHash(a[..|a| - 1]), h);
    }
  }

  lemma {:induction false} SameEntriesChain(a: seq<Entry>, b: seq<Entry>, h: Hashing)
    requires Ideal(h) && Chained(a, h) && SameEntries(a, b, h.le)
    requires forall e :: e in a ==> GoodMetadata(e)
    requires forall e :: e in b ==> GoodMetadata(e)
    ensures Chained(b, h)
  {
    forall i | 0 <= i < |b| ensures EntryOk(b[i], LastHash(b[..i]), h) {
      assert a[i] in a && b[i] in b && SameEntry(a[i], b[i], h.le);
      assert EntryOk(a[i], LastHash(a[..i]), h);
      HashDeterminesEntry(a[i], b[i], h);
      if i > 0 {
        assert SameEntry(a[i - 1], b[i - 1], h.le);
        assert a[..i][i - 1] == a[i - 1] && b[..i][i - 1] == b[i - 1];
      }
    }
  }

  /** The verification loop, shared by the in-memory ledger and the persisted chain. */
  method VerifyEntries(entries: seq<Entry>, h: Hashing) returns (v: Verdict)
    ensures v == Valid <==> Chained(entries, h)
    ensures v != Valid ==> exists k: nat :: FirstFault(entries, k, v, h)
  {
    var previousHash := Genesis;
    for i := 0 to |entries|
      invariant Chained(entries[..i], h)
      invariant previousHash == LastHash(entries[..i])
    {
      var e := entries[i];
      var expected := HashEntry(e, h);
      var comparison := CompareHashes(expected, e.hash);
      PrefixStep(entries, i);
      ChainedAppend(entries[..i], e, h);
      assert Chained(entries, h) ==> EntryOk(e, LastHash(entries[..i]), h);
      if comparison == Raises {
        assert FirstFault(entries, i, Raised, h);
        return Raised;
      }
      if comparison != Equal || e.previousHash != previousHash {
        assert FirstFault(entries, i, BrokenAt(e.sequence), h);
        return BrokenAt(e.sequence);
      }
      previousHash := e.hash;
    }
    assert entries[..|entries|] == entries;
    return Valid;
  }

  // ------------------------------------------------------------------ the in-memory ledger

  function NewEntry(entries: seq<Entry>, input: EntryInput, h: Hashing): Entry {
    var unsigned := Entry(input, |entries| + 1, LastHash(entries), "");
    unsigned.(hash := HashEntry(unsigned, h))
  }

  lemma NewEntryFits(entries: seq<Entry>, input: EntryInput, h: Hashing)
    ensures EntryOk(NewEntry(entries, input, h), LastHash(entries), h)
  {
    var e := NewEntry(entries, input, h);
    assert UnsignedMembers(e) == UnsignedMembers(e.(hash := ""));
  }

  /** A metadata object: the ledger keeps the caller's reference, so the caller can still change it. */
  class MetadataObject {
    var json: Json

    constructor (json: Json)
      ensures this.json == json
    {
      this.json := json;
    }
  }

  /** An entry as the ledger keeps it: everything but the metadata, and a reference to the metadata if there is any. */
  datatype Kept = Kept(bare: Entry, metadata: Option<MetadataObject>)

  function WithMetadata(bare: Entry, metadata: Option<Json>): Entry {
    bare.(input := bare.input.(metadata := metadata))
  }

  /** The entry with its metadata as it is at the moment. */
  function Present(k: Kept): Entry
    reads if k.metadata.Some? then {k.metadata.value} else {}
  {
    WithMetadata(k.bare, if k.metadata.Some? then Some(k.metadata.value.json) else None)
  }

  ghost function Objects(kept: seq<Kept>): set<MetadataObject> {
    set k | k in kept && k.metadata.Some? :: k.metadata.value
  }

  function PresentAll(kept: seq<Kept>): (r: seq<Entry>)
    reads Objects(kept)
    ensures |r| == |kept| && forall i :: 0 <= i < |kept| ==> r[i] == Present(kept[i])
  {
    if kept == [] then []
    else
      var n := |kept| - 1;
      assert Objects(kept[..n]) <= Objects(kept);
      assert kept[n] in kept;
      PresentAll(kept[..n]) + [Present(kept[n])]
  }

  /** The kept entry with some metadata in the place of its own, then or now. */
  ghost predicate Keeps(k: Kept, e: Entry) {
    k.bare == WithMetadata(e, None) && (k.metadata.Some? <==> e.input.metadata.Some?)
  }

  ghost predicate KeepsAll(kept: seq<Kept>, appended: seq<Entry>) {
    |kept| == |appended| && forall i :: 0 <= i < |kept| ==> Keeps(kept[i], appended[i])
  }

  lemma PresentIsKept(kept: seq<Kept>, appended: seq<Entry>)
    requires KeepsAll(kept, appended)
    ensures KeepsAll(kept, PresentAll(kept))
  {
    var now := PresentAll(kept);
    forall i | 0 <= i < |kept| ensures Keeps(kept[i], now[i]) {
      assert Keeps(kept[i], appended[i]);
    }
  }

  ghost predicate AllGood(entries: seq<Entry>) {
    forall e :: e in entries ==> GoodMetadata(e)
  }

  /** The `k`-th entry is the first that is no longer the same. */
  ghost predicate FirstChange(appended: seq<Entry>, now: seq<Entry>, k: nat, le: Collation) {
    && k < |appended| == |now|
    && !SameEntry(appended[k], now[k], le)
    && forall i :: 0 <= i < k ==> SameEntry(appended[i], now[i], le)
  }

  ghost predicate Numbered(entries: seq<Entry>) {
    forall i :: 0 <= i < |entries| ==> entries[i].sequence == i + 1
  }

  /** The entries of a ledger grown by appends, as they were then. */
  ghost predicate Grown(entries: seq<Entry>, h: Hashing) {
    Chained(entries, h) && AllGood(entries) && Numbered(entries)
  }

  lemma GrownByOne(entries: seq<Entry>, input: EntryInput, h: Hashing)
    requires Grown(entries, h) && (input.metadata.Some? ==> WellFormed(input.metadata.value))
    ensures Grown(entries + [NewEntry(entries, input, h)], h)
  {
    NewEntryFits(entries, input, h);
    ChainedAppend(entries, NewEntry(entries, input, h), h);
  }

  /** `now` are the entries of a valid chain, but for what has become of their metadata. */
  ghost predicate Aged(appended: seq<Entry>, now: seq<Entry>, h: Hashing) {
    && Ideal(h) && Grown(appended, h) && AllGood(now)
    && |now| == |appended|
    && (forall i :: 0 <= i < |now| ==> WithMetadata(now[i], None) == WithMetadata(appended[i], None))
    && (forall i :: 0 <= i < |now| ==> (now[i].input.metadata.Some? <==> appended[i].input.metadata.Some?))
  }

  /**
   * Entries that differ from those of a valid chain in metadata only are a valid chain if and only if they are
   * the same entries.
   */
  lemma ChainedIffUnchanged(appended: seq<Entry>, now: seq<Entry>, h: Hashing)
    requires Aged(appended, now, h)
    ensures Chained(now, h) <==> SameEntries(appended, now, h.le)
  {
    if SameEntries(appended, now, h.le) {
      SameEntriesChain(appended, now, h);
    }
    if Chained(now, h) {
      forall i | 0 <= i < |now| ensures SameEntry(appended[i], now[i], h.le) {
        assert now[i] in now && appended[i] in appended;
        assert EntryOk(now[i], LastHash(now[..i]), h) && EntryOk(appended[i], LastHash(appended[..i]), h);
        HashDeterminesEntry(appended[i], now[i], h);
      }
    }
  }

  lemma AgedPrefix(appended: seq<Entry>, now: seq<Entry>, h: Hashing, k: nat)
    requires Aged(appended, now, h) && k <= |now|
    ensures Aged(appended[..k], now[..k], h)
  {
    ChainedPrefix(appended, k, h);
  }

  /** The first `k` entries are as they were. */
  ghost predicate UnchangedBefore(appended: seq<Entry>, now: seq<Entry>, k: nat, le: Collation)
    requires k <= |now| == |appended|
  {
    forall i :: 0 <= i < k ==> SameEntry(appended[i], now[i], le)
  }

  lemma UnchangedPrefix(appended: seq<Entry>, now: seq<Entry>, k: nat, le: Collation)
    requires k <= |now| == |appended|
    ensures UnchangedBefore(appended, now, k, le) <==> SameEntries(appended[..k], now[..k], le)
  {
    forall i | 0 <= i < k
      ensures SameEntry(appended[i], now[i], le) <==> SameEntry(appended[..k][i], now[..k][i], le)
    {
    }
  }

  lemma ChangeAt(appended: seq<Entry>, now: seq<Entry>, k: nat, le: Collation)
    requires k < |now| == |appended|
    requires UnchangedBefore(appended, now, k, le) && !UnchangedBefore(appended, now, k + 1, le)
    ensures FirstChange(appended, now, k, le)
  {
  }

  /** Where no fault was found, nothing has changed. */
  lemma UnchangedUpTo(appended: seq<Entry>, now: seq<Entry>, h: Hashing, k: nat)
    requires Aged(appended, now, h) && k <= |now|
    ensures Chained(now[..k], h) <==> UnchangedBefore(appended, now, k, h.le)
  {
    AgedPrefix(appended, now, h, k);
    ChainedIffUnchanged(appended[..k], now[..k], h);
    UnchangedPrefix(appended, now, k, h.le);
  }

  lemma FaultIsChange(appended: seq<Entry>, now: seq<Entry>, h: Hashing, k: nat)
    requires Aged(appended, now, h) && k < |now|
    requires Chained(now[..k], h) && !Chained(now[..k + 1], h)
    ensures FirstChange(appended, now, k, h.le)
  {
    UnchangedUpTo(appended, now, h, k);
    UnchangedUpTo(appended, now, h, k + 1);
    ChangeAt(appended, now, k, h.le);
  }

  lemma FaultBreaksChain(entries: seq<Entry>, k: nat, v: Verdict, h: Hashing)
    requires FirstFault(entries, k, v, h)
    ensures Chained(entries[..k], h) && !Chained(entries[..k + 1], h)
  {
    PrefixStep(entries, k);
    ChainedAppend(entries[..k], entries[k], h);
  }

  /** The first fault that verification finds is the first change, and the report is its number. */
  lemma FaultIsFirstChange(appended: seq<Entry>, now: seq<Entry>, h: Hashing, k: nat, v: Verdict)
    requires Aged(appended, now, h) && FirstFault(now, k, v, h)
    ensures FirstChange(appended, now, k, h.le) && v == BrokenAt(k + 1)
  {
    FaultBreaksChain(now, k, v, h);
    FaultIsChange(appended, now, h, k);
    ReportedNumber(appended, now, h, k, v);
  }

  lemma ReportedNumber(appended: seq<Entry>, now: seq<Entry>, h: Hashing, k: nat, v: Verdict)
    requires Aged(appended, now, h) && FirstFault(now, k, v, h)
    ensures v == BrokenAt(k + 1)
  {
    assert EntryOk(appended[k], LastHash(appended[..k]), h);
    NoRaise(now[k], appended[k], h);
  }

  /** The position of the first change from `k` on, or the number of entries if there is none. */
  ghost function FirstChangeFrom(appended: seq<Entry>, now: seq<Entry>, k: nat, le: Collation): nat
    requires |now| == |appended| && k <= |now|
    decreases |now| - k
  {
    if k == |now| || !SameEntry(appended[k], now[k], le) then k else FirstChangeFrom(appended, now, k + 1, le)
  }

  /**
   * The report on entries that were once these: valid if they all are the same, else the number of the first
   * change.
   */
  ghost function ReportOn(appended: seq<Entry>, now: seq<Entry>, le: Collation): Verdict
    requires |now| == |appended|
  {
    var k := FirstChangeFrom(appended, now, 0, le);
    if k == |now| then Verdict.Valid else BrokenAt(k + 1)
  }

  lemma {:induction false} FirstChangeFromIs(appended: seq<Entry>, now: seq<Entry>, j: nat, k: nat, le: Collation)
    requires |now| == |appended| && j <= k <= |now|
    requires k < |now| ==> !SameEntry(appended[k], now[k], le)
    requires forall i :: j <= i < k ==> SameEntry(appended[i], now[i], le)
    ensures FirstChangeFrom(appended, now, j, le) == k
    decreases k - j
  {
    if j < k {
      FirstChangeFromIs(appended, now, j + 1, k, le);
    }
  }

  lemma {:induction false} FirstChangeFromMeaning(appended: seq<Entry>, now: seq<Entry>, j: nat, le: Collation)
    requires |now| == |appended| && j <= |now|
    ensures var k := FirstChangeFrom(appended, now, j, le);
      && j <= k <= |now| && (k < |now| ==> !SameEntry(appended[k], now[k], le))
      && forall i :: j <= i < k ==> SameEntry(appended[i], now[i], le)
    decreases |now| - j
  {
    if j < |now| && SameEntry(appended[j], now[j], le) {
      FirstChangeFromMeaning(appended, now, j + 1, le);
    }
  }

  /** The report says valid exactly if every entry is the same, and otherwise names the first that does not. */
  lemma ReportMeaning(appended: seq<Entry>, now: seq<Entry>, le: Collation)
    requires |now| == |appended|
    ensures ReportOn(appended, now, le) == Verdict.Valid <==> SameEntries(appended, now, le)
    ensures forall k: nat :: ReportOn(appended, now, le) == BrokenAt(k + 1) <==> FirstChange(appended, now, k, le)
  {
    FirstChangeFromMeaning(appended, now, 0, le);
    forall k: nat | FirstChange(appended, now, k, le) ensures ReportOn(appended, now, le) == BrokenAt(k + 1) {
      FirstChangeFromIs(appended, now, 0, k, le);
    }
  }

  lemma WhatVerifyFinds(appended: seq<Entry>, now: seq<Entry>, h: Hashing, v: Verdict)
    requires Aged(appended, now, h)
    requires v == Verdict.Valid <==> Chained(now, h)
    requires v != Verdict.Valid ==> exists k: nat :: FirstFault(now, k, v, h)
    ensures v == ReportOn(appended, now, h.le)
  {
    ChainedIffUnchanged(appended, now, h);
    ReportMeaning(appended, now, h.le);
    if v != Verdict.Valid {
      var k: nat :| FirstFault(now, k, v, h);
      FaultIsFirstChange(appended, now, h, k, v);
    }
  }

  lemma KeepsOneMore(kept: seq<Kept>, appended: seq<Entry>, metadata: Option<MetadataObject>, e: Entry)
    requires KeepsAll(kept, appended) && (metadata.Some? <==> e.input.metadata.Some?)
    ensures KeepsAll(kept + [Kept(WithMetadata(e, None), metadata)], appended + [e])
  {
  }

  lemma KeptHash(kept: seq<Kept>, appended: seq<Entry>)
    requires KeepsAll(kept, appended)
    ensures LastHash(appended) == if kept == [] then Genesis else kept[|kept| - 1].bare.hash
  {
  }

  lemma KeptIsAged(appended: seq<Entry>, kept: seq<Kept>, now: seq<Entry>, h: Hashing)
    requires Ideal(h) && Grown(appended, h) && AllGood(now)
    requires KeepsAll(kept, appended) && KeepsAll(kept, now)
    ensures Aged(appended, now, h)
  {
    forall i | 0 <= i < |now|
      ensures WithMetadata(now[i], None) == WithMetadata(appended[i], None)
      ensures now[i].input.metadata.Some? <==> appended[i].input.metadata.Some?
    {
      assert Keeps(kept[i], appended[i]) && Keeps(kept[i], now[i]);
    }
  }

  // ------------------------------------------------------------------ the persisted chain

  /** An entry as it comes back from the chain file. */
  function Persisted(e: Entry): Entry {
    if e.input.metadata.None? then e
    else e.(input := e.input.(metadata :=
      if e.input.metadata.value.Undefined? then None else Some(RoundTrip(e.input.metadata.value))))
  }

  function PersistedAll(entries: seq<Entry>): (r: seq<Entry>)
    ensures |r| == |entries| && forall i :: 0 <= i < |entries| ==> r[i] == Persisted(entries[i])
  {
    seq(|entries|, i requires 0 <= i < |entries| => Persisted(entries[i]))
  }

  /** Undefined metadata is left out before hashing; anything undefined deeper down is not. */
  function WithoutUndefined(input: EntryInput): EntryInput {
    if input.metadata == Some(Undefined) then input.(metadata := None) else input
  }

  /** The entry that an append leaves in the chain file. */
  function StoredEntry(existing: seq<Entry>, input: EntryInput, h: Hashing): Entry {
    Persisted(NewEntry(existing, WithoutUndefined(input), h))
  }

  /**
   * The chain has one more entry: what was given, with the metadata as it comes back from the file; the next number;
   * the hash of the entry before it, or the genesis marker; and the hash of what was given under those.
   */
  ghost predicate AppendedAs(after: seq<Entry>, before: seq<Entry>, input: EntryInput, h: Hashing) {
    && |after| == |before| + 1 && after[..|before|] == before
    && var e := after[|before|];
      && e.input.(metadata := None) == input.(metadata := None)
      && e.input.metadata == (if input.metadata.None? || input.metadata.value.Undefined? then None
                              else Some(RoundTrip(input.metadata.value)))
      && e.sequence == |before| + 1
      && e.previousHash == (if before == [] then "GENESIS" else before[|before| - 1].hash)
      && e.hash == HashEntry(Entry(WithoutUndefined(input), e.sequence, e.previousHash, ""), h)
  }

  lemma StoredAs(existing: seq<Entry>, input: EntryInput, h: Hashing)
    ensures AppendedAs(existing + [StoredEntry(existing, input, h)], existing, input, h)
  {
  }

  /** The chain file after appending `inputs` one by one, each append reading and rewriting the whole file. */
  function StoredChain(inputs: seq<EntryInput>, h: Hashing): (r: seq<Entry>)
    ensures |r| == |inputs|
  {
    if inputs == [] then []
    else
      var existing := StoredChain(inputs[..|inputs| - 1], h);
      PersistedAll(existing + [NewEntry(existing, WithoutUndefined(inputs[|inputs| - 1]), h)])
  }

  /** Nothing undefined below the top of the metadata: what a caller can check before appending. */
  ghost predicate Clean(input: EntryInput) {
    input.metadata.Some? && !input.metadata.value.Undefined? ==> IsJson(input.metadata.value)
  }

  ghost predicate GoodInput(input: EntryInput) {
    input.metadata.Some? ==> WellFormed(input.metadata.value)
  }

  ghost predicate GoodInputs(inputs: seq<EntryInput>) {
    forall i :: 0 <= i < |inputs| ==> GoodInput(inputs[i])
  }

  ghost predicate AllClean(inputs: seq<EntryInput>) {
    forall i :: 0 <= i < |inputs| ==> Clean(inputs[i])
  }

  lemma GoodPrefix(inputs: seq<EntryInput>, k: nat)
    requires k <= |inputs| && GoodInputs(inputs)
    ensures GoodInputs(inputs[..k])
  {
  }

  lemma PersistedTwice(e: Entry)
    requires GoodMetadata(e)
    ensures Persisted(Persisted(e)) == Persisted(e)
  {
    if e.input.metadata.Some? && !e.input.metadata.value.Undefined? {
      RoundTripWellFormed(e.input.metadata.value);
      RoundTripOfJson(RoundTrip(e.input.metadata.value));
    }
  }

  /** Rewriting the file leaves the earlier entries as they were. */
  lemma {:induction false} StoredChainStep(inputs: seq<EntryInput>, h: Hashing)
    requires inputs != [] && GoodInputs(inputs)
    ensures var n := |inputs| - 1;
      var existing := StoredChain(inputs[..n], h);
      StoredChain(inputs, h) == existing + [StoredEntry(existing, inputs[n], h)]
    ensures forall e :: e in StoredChain(inputs, h) ==> Persisted(e) == e
    decreases |inputs|
  {
    var n := |inputs| - 1;
    var existing := StoredChain(inputs[..n], h);
    GoodPrefix(inputs, n);
    if n > 0 {
      StoredChainStep(inputs[..n], h);
    }
    PersistedAppend(existing, NewEntry(existing, WithoutUndefined(inputs[n]), h));
    PersistedTwice(NewEntry(existing, WithoutUndefined(inputs[n]), h));
  }

  lemma PersistedAppend(entries: seq<Entry>, e: Entry)
    requires forall x :: x in entries ==> Persisted(x) == x
    ensures PersistedAll(entries + [e]) == entries + [Persisted(e)]
  {
  }

  /** A stored entry carries the hash of its stored contents exactly when its metadata was clean. */
  lemma StoredEntryFits(existing: seq<Entry>, input: EntryInput, h: Hashing)
    requires Ideal(h) && GoodInput(input)
    ensures EntryOk(StoredEntry(existing, input, h), LastHash(existing), h) <==> Clean(input)
  {
    var clean := WithoutUndefined(input);
    var e := NewEntry(existing, clean, h);
    NewEntryFits(existing, clean, h);
    if clean.metadata.Some? {
      UnsignedIsWellFormed(e);
      UnsignedRoundTrip(e);
      UnsignedIsJson(e);
      StableSurvivesRoundTrip(UnsignedJson(e), h.le);
    }
  }

  lemma UnsignedRoundTrip(e: Entry)
    requires e.input.metadata.Some? && !e.input.metadata.value.Undefined?
    ensures UnsignedJson(Persisted(e)) == RoundTrip(UnsignedJson(e))
  {
    var fixed, v := FixedMembers(e), e.input.metadata.value;
    assert FixedMembers(Persisted(e)) == fixed;
    RoundTripOfMembers(fixed);
    RoundTripConcat(fixed, [Member("metadata", v)]);
    assert RoundTripMembers([Member("metadata", v)]) == [Member("metadata", RoundTrip(v))];
  }

  lemma UnsignedIsJson(e: Entry)
    requires e.input.metadata.Some?
    ensures IsJson(UnsignedJson(e)) <==> IsJson(e.input.metadata.value)
  {
    var ms, last := UnsignedMembers(e), Member("metadata", e.input.metadata.value);
    assert MetadataMember(e) == [last] && last in ms;
    forall m | m in ms && m != last ensures IsJson(m.value) {
      assert m in FixedMembers(e);
    }
  }

  lemma {:induction false} RoundTripConcat(a: seq<Member<Json>>, b: seq<Member<Json>>)
    ensures RoundTripMembers(a + b) == RoundTripMembers(a) + RoundTripMembers(b)
  {
    if a == [] {
      assert a + b == b;
    } else {
      assert (a + b)[0] == a[0] && (a + b)[1..] == a[1..] + b;
      RoundTripConcat(a[1..], b);
    }
  }

  /**
   * The persisted ledger verifies exactly when no append carried an undefined value inside its
   * metadata, and otherwise the first such append is the reported fault.
   */
  lemma {:induction false} StoredChainValidIffClean(inputs: seq<EntryInput>, h: Hashing)
    requires Ideal(h) && GoodInputs(inputs)
    ensures Chained(StoredChain(inputs, h), h) <==> AllClean(inputs)
    decreases |inputs|
  {
    if inputs != [] {
      var n := |inputs| - 1;
      var earlier := StoredChain(inputs[..n], h);
      GoodPrefix(inputs, n);
      StoredChainValidIffClean(inputs[..n], h);
      StoredChainStep(inputs, h);
      StoredEntryFits(earlier, inputs[n], h);
      ChainedAppend(earlier, StoredEntry(earlier, inputs[n], h), h);
      CleanAppend(inputs, n);
    }
  }

  lemma CleanAppend(inputs: seq<EntryInput>, n: nat)
    requires |inputs| == n + 1
    ensures AllClean(inputs) <==> AllClean(inputs[..n]) && Clean(inputs[n])
  {
    if AllClean(inputs[..n]) && Clean(inputs[n]) {
      forall i | 0 <= i < |inputs| ensures Clean(inputs[i]) {
        assert i < n ==> inputs[i] == inputs[..n][i];
      }
    }
  }

  /** The report names the position of the first unclean append, counted from one. */
  lemma {:induction false} StoredChainReport(inputs: seq<EntryInput>, h: Hashing, k: nat)
    requires Ideal(h) && GoodInputs(inputs)
    requires k < |inputs| && !Clean(inputs[k]) && AllClean(inputs[..k])
    ensures FirstFault(StoredChain(inputs, h), k, BrokenAt(k + 1), h)
  {
    var earlier := StoredChain(inputs[..k], h);
    GoodPrefix(inputs, k);
    StoredChainAt(inputs, k, h);
    StoredChainValidIffClean(inputs[..k], h);
    StoredEntryFits(earlier, inputs[k], h);
    var e := StoredEntry(earlier, inputs[k], h);
    NoRaise(e, NewEntry(earlier, WithoutUndefined(inputs[k]), h), h);
  }

  /** Two digests never make the comparison raise. */
  lemma NoRaise(e: Entry, original: Entry, h: Hashing)
    requires Ideal(h) && e.hash == h.digest(Stable(UnsignedJson(original.(hash := "")), h.le))
    ensures CompareHashes(HashEntry(e, h), e.hash) != Raises
  {
    AsciiLengths(HashEntry(e, h));
    AsciiLengths(e.hash);
  }

  lemma {:induction false} StoredChainAt(inputs: seq<EntryInput>, k: nat, h: Hashing)
    requires k < |inputs| && GoodInputs(inputs)
    ensures StoredChain(inputs, h)[..k] == StoredChain(inputs[..k], h)
    ensures StoredChain(inputs, h)[k] == StoredEntry(StoredChain(inputs[..k], h), inputs[k], h)
    decreases |inputs|
  {
    var n := |inputs| - 1;
    var existing := StoredChain(inputs[..n], h);
    StoredChainStep(inputs, h);
    PrefixOfAppend(existing, StoredEntry(existing, inputs[n], h), k);
    if k < n {
      GoodPrefix(inputs, n);
      StoredChainAt(inputs[..n], k, h);
      PrefixOfPrefix(inputs, n, k);
    }
  }

  /** Where the file system fails during an append, if it does. */
  datatype AppendFault = NoFault | BeforeSave | AfterSave

  /** The file-backed ledger: the parsed contents of the chain file, or nothing before the first append. */
  class WhoAudit {
    const h: Hashing
    var file: Option<seq<Entry>>

    ghost predicate Valid()
      reads this
    {
      file.Some? ==> forall e :: e in file.value ==> GoodMetadata(e) && Persisted(e) == e
    }

    constructor (h: Hashing)
      ensures this.h == h && Valid() && file == None
    {
      this.h := h;
      file := None;
    }

    function Chain(): seq<Entry>
      reads this
    {
      if file.Some? then file.value else []
    }

    /**
     * Reads the chain, appends one entry, writes the chain back and then a per-entry file. A failure
     * of that last write is reported to the caller although the entry is already in the chain.
     */
    method Append(input: EntryInput, fault: AppendFault) returns (r: Result<Entry, ()>)
      requires Valid() && GoodInput(input)
      modifies this
      ensures Valid()
      ensures r.Success? <==> fault == NoFault
      ensures fault == BeforeSave ==> Chain() == old(Chain())
      ensures fault != BeforeSave ==>
        Chain() == old(Chain()) + [StoredEntry(old(Chain()), input, h)]
      ensures r.Success? ==>
        r.value.sequence == |Chain()| && r.value == NewEntry(old(Chain()), WithoutUndefined(input), h)
      ensures fault != BeforeSave ==> AppendedAs(Chain(), old(Chain()), input, h)
    {
      var existing := Chain();
      var entry := NewEntry(existing, WithoutUndefined(input), h);
      if fault == BeforeSave {
        return Failure(());
      }
      PersistedTwice(entry);
      PersistedIsGood(entry);
      StoredAs(existing, input, h);
      file := Some(PersistedAll(existing + [entry]));
      assert Chain() == existing + [Persisted(entry)];
      if fault == AfterSave {
        return Failure(());
      }
      return Success(entry);
    }

    method Verify() returns (v: Verdict, count: nat)
      ensures v == Verdict.Valid <==> Chained(Chain(), h)
      ensures v != Verdict.Valid ==> exists k: nat :: FirstFault(Chain(), k, v, h)
      ensures count == |Chain()|
    {
      var entries := Chain();
      v := VerifyEntries(entries, h);
      count := |entries|;
    }
  }

  lemma PersistedIsGood(e: Entry)
    requires GoodMetadata(e)
    ensures GoodMetadata(Persisted(e))
  {
    if e.input.metadata.Some? {
      RoundTripWellFormed(e.input.metadata.value);
    }
  }
}
