/**
 * The canonical printer `stable` that audit hashes are computed over: values, string escaping, the
 * sort of object members by key, and the text. The string collation is a parameter, `le`.
 */
module CanonicalJson {
  import opened Common
  import opened JsonReader
  import opened JsonValue

  type Collation = (string, string) -> bool

  ghost predicate TotalPreorder(le: Collation) {
    && (forall a, b :: le(a, b) || le(b, a))
    && (forall a, b, c :: le(a, b) && le(b, c) ==> le(a, c))
  }

  /** The keys that look like array indices: numbers below 2^32 - 1 in decimal. */
  ghost predicate IsIndex(key: string, n: nat) {
    n < 0xFFFF_FFFF && key == Digits(n)
  }

  ghost predicate IndexKey(key: string) {
    exists n: nat :: IsIndex(key, n)
  }

  /** Whatever the order of insertion, an object lists its array indices first, in numeric order. */
  ghost predicate ListedBefore(a: string, b: string) {
    exists m: nat :: IsIndex(a, m) && (!IndexKey(b) || exists n: nat :: IsIndex(b, n) && m < n)
  }

  /** No two different strings compare as equal, array indices apart. */
  ghost predicate TellsNamesApart(le: Collation) {
    forall a, b :: le(a, b) && le(b, a) && !IndexKey(a) && !IndexKey(b) ==> a == b
  }

  predicate IsNumberChar(c: char) {
    '0' <= c <= '9' || c == '-' || c == '+' || c == '.' || c == 'e'
  }

  ghost predicate DistinctKeys<T>(ms: seq<Member<T>>) {
    forall i, j :: 0 <= i < j < |ms| ==> ms[i].key != ms[j].key
  }

  /** Members in an order in which an object can list them. */
  ghost predicate Enumerable<T>(ms: seq<Member<T>>) {
    forall i, j :: 0 <= i < j < |ms| ==> !ListedBefore(ms[j].key, ms[i].key)
  }

  /**
   * Values JavaScript can hold: number tokens are non-empty runs of number characters, keys are distinct and in an
   * order in which they can be listed.
   */
  ghost predicate WellFormed(v: Json) {
    match v
    case Number(t) => t != "" && forall i :: 0 <= i < |t| ==> IsNumberChar(t[i])
    case Array(xs) => forall x :: x in xs ==> WellFormed(x)
    case Object(ms) => DistinctKeys(ms) && Enumerable(ms) && forall m :: m in ms ==> WellFormed(m.value)
    case _ => true
  }

  /** A proper JSON value: no `Undefined` at any depth. */
  ghost predicate IsJson(v: Json) {
    match v
    case Undefined => false
    case Array(xs) => forall x :: x in xs ==> IsJson(x)
    case Object(ms) => forall m :: m in ms ==> IsJson(m.value)
    case _ => true
  }

  // ------------------------------------------------------------------ the printer

  const HexDigits := "0123456789abcdef"

  /** One character of a string token, escaped as JSON.stringify does (section 7 of RFC 8259). */
  function Escape(c: char): string {
    if c == '\"' then "\\\""
    else if c == '\\' then "\\\\"
    else if c == '\U{08}' then "\\b"
    else if c == '\U{0C}' then "\\f"
    else if c == '\n' then "\\n"
    else if c == '\r' then "\\r"
    else if c == '\t' then "\\t"
    else if c as int < 0x20 then "\\u00" + [HexDigits[c as int / 16], HexDigits[c as int % 16]]
    else [c]
  }

  function EscapeAll(s: string): string {
    if s == "" then "" else Escape(s[0]) + EscapeAll(s[1..])
  }

  function Quote(s: string): string {
    "\"" + EscapeAll(s) + "\""
  }

  function Join(parts: seq<string>): string {
    if parts == [] then ""
    else if |parts| == 1 then parts[0]
    else parts[0] + "," + Join(parts[1..])
  }

  /** Insertion before the first member whose key is not smaller: the stable sort by key. */
  function Insert<T>(m: Member<T>, sorted: seq<Member<T>>, le: Collation): seq<Member<T>> {
    if sorted == [] then [m]
    else if le(m.key, sorted[0].key) then [m] + sorted
    else [sorted[0]] + Insert(m, sorted[1..], le)
  }

  function SortByKey<T>(ms: seq<Member<T>>, le: Collation): seq<Member<T>> {
    if ms == [] then [] else Insert(ms[0], SortByKey(ms[1..], le), le)
  }

  function MemberTexts(ms: seq<Member<string>>): seq<string> {
    if ms == [] then [] else [Quote(ms[0].key) + ":" + ms[0].value] + MemberTexts(ms[1..])
  }

  /**
   * The canonical text. Members are printed and sorted by key. In an object `Undefined` prints as the
   * word itself; as an array element it prints as nothing, because that is how `join` renders it.
   */
  function Stable(v: Json, le: Collation): string {
    match v
    case Undefined => "undefined"
    case Null => "null"
    case Bool(b) => if b then "true" else "false"
    case Number(t) => t
    case String(s) => Quote(s)
    case Array(xs) => "[" + Join(StableItems(xs, le)) + "]"
    case Object(ms) => "{" + Join(MemberTexts(SortByKey(StableMembers(ms, le), le))) + "}"
  }

  function StableItems(xs: seq<Json>, le: Collation): seq<string> {
    if xs == [] then [] else [if xs[0].Undefined? then "" else Stable(xs[0], le)] + StableItems(xs[1..], le)
  }

  function StableMembers(ms: seq<Member<Json>>, le: Collation): seq<Member<string>> {
    if ms == [] then [] else [Member(ms[0].key, Stable(ms[0].value, le))] + StableMembers(ms[1..], le)
  }

  // ------------------------------------------------------------------ what a text can tell

  predicate HoldsUndefined(xs: seq<Json>) {
    |xs| == 1 && xs[0].Undefined?
  }

  datatype Value =
    | VUndefined
    | VNull
    | VBool(b: bool)
    | VNumber(token: string)
    | VString(s: string)
    | VArray(items: seq<Value>)
    | VObject(members: map<string, Value>)

  /**
   * The value up to the order of object keys. An array that holds just `Undefined` is identified with
   * the empty array: no text of `stable` tells them apart.
   */
  function Meaning(v: Json): Value {
    match v
    case Undefined => VUndefined
    case Null => VNull
    case Bool(b) => VBool(b)
    case Number(t) => VNumber(t)
    case String(s) => VString(s)
    case Array(xs) => if HoldsUndefined(xs) then VArray([]) else VArray(MeaningItems(xs))
    case Object(ms) => VObject(MeaningMembers(ms))
  }

  function MeaningItems(xs: seq<Json>): (r: seq<Value>)
    ensures |r| == |xs| && forall i :: 0 <= i < |xs| ==> r[i] == Meaning(xs[i])
  {
    if xs == [] then [] else [Meaning(xs[0])] + MeaningItems(xs[1..])
  }

  function MeaningMembers(ms: seq<Member<Json>>): map<string, Value> {
    if ms == [] then map[] else MeaningMembers(ms[1..])[ms[0].key := Meaning(ms[0].value)]
  }

  lemma {:induction false} MeaningOfMember(ms: seq<Member<Json>>, i: nat)
    requires i < |ms| && DistinctKeys(ms)
    ensures ms[i].key in MeaningMembers(ms) && MeaningMembers(ms)[ms[i].key] == Meaning(ms[i].value)
  {
    if i > 0 {
      MeaningOfMember(ms[1..], i - 1);
    }
  }

  lemma {:induction false} MeaningKeys(ms: seq<Member<Json>>, k: string)
    ensures k in MeaningMembers(ms) <==> exists i :: 0 <= i < |ms| && ms[i].key == k
  {
    if ms != [] {
      MeaningKeys(ms[1..], k);
      if k in MeaningMembers(ms[1..]) {
        var i :| 0 <= i < |ms[1..]| && ms[1..][i].key == k;
        assert ms[i + 1].key == k;
      }
      forall i | 0 <= i < |ms| && ms[i].key == k ensures k in MeaningMembers(ms) {
        assert i > 0 ==> ms[1..][i - 1].key == k;
      }
    }
  }

  // ------------------------------------------------------------------ normal forms

  /** The value with members sorted at every depth; the order in which `stable` prints it. */
  function Normal(v: Json, le: Collation): Json {
    match v
    case Array(xs) => if HoldsUndefined(xs) then Array([]) else Array(NormalItems(xs, le))
    case Object(ms) => Object(SortByKey(NormalMembers(ms, le), le))
    case _ => v
  }

  function NormalItems(xs: seq<Json>, le: Collation): (r: seq<Json>)
    ensures |r| == |xs| && forall i :: 0 <= i < |xs| ==> r[i] == Normal(xs[i], le)
  {
    if xs == [] then [] else [Normal(xs[0], le)] + NormalItems(xs[1..], le)
  }

  function NormalMembers(ms: seq<Member<Json>>, le: Collation): (r: seq<Member<Json>>)
    ensures |r| == |ms| && forall i :: 0 <= i < |ms| ==> r[i] == Member(ms[i].key, Normal(ms[i].value, le))
  {
    if ms == [] then [] else [Member(ms[0].key, Normal(ms[0].value, le))] + NormalMembers(ms[1..], le)
  }

  // ------------------------------------------------------------------ the sort

  lemma {:induction false} InsertPermutes<T>(m: Member<T>, s: seq<Member<T>>, le: Collation)
    ensures multiset(Insert(m, s, le)) == multiset{m} + multiset(s)
  {
    if s != [] && !le(m.key, s[0].key) {
      InsertPermutes(m, s[1..], le);
      assert s == [s[0]] + s[1..];
    }
  }

  lemma {:induction false} SortPermutes<T>(ms: seq<Member<T>>, le: Collation)
    ensures multiset(SortByKey(ms, le)) == multiset(ms)
  {
    if ms != [] {
      SortPermutes(ms[1..], le);
      InsertPermutes(ms[0], SortByKey(ms[1..], le), le);
      assert ms == [ms[0]] + ms[1..];
    }
  }

  /** In the order of the collation and, when that ties, in the order in which objects list them. */
  ghost predicate InOrder(a: string, b: string, le: Collation) {
    le(a, b) && (le(b, a) ==> !ListedBefore(b, a))
  }

  ghost predicate Ascending<T>(s: seq<Member<T>>, le: Collation) {
    forall i, j :: 0 <= i < j < |s| ==> InOrder(s[i].key, s[j].key, le)
  }

  /** Of two different keys, one of them an array index, one is always listed first. */
  lemma IndexIsListed(a: string, b: string)
    requires a != b && (IndexKey(a) || IndexKey(b))
    ensures ListedBefore(a, b) || ListedBefore(b, a)
  {
    if IndexKey(a) && IndexKey(b) {
      var m: nat :| IsIndex(a, m);
      var n: nat :| IsIndex(b, n);
      assert m != n;
    }
  }

  lemma InOrderBothWays(a: string, b: string, le: Collation)
    requires TellsNamesApart(le) && InOrder(a, b, le) && InOrder(b, a, le)
    ensures a == b
  {
    if a != b {
      IndexIsListed(a, b);
    }
  }

  lemma NameIsNoIndex(key: string)
    requires key != "" && 'a' <= key[0] <= 'z'
    ensures !IndexKey(key)
  {
    forall n: nat ensures !IsIndex(key, n) {
      DigitsAreNumberChars(n);
    }
  }

  /** Members under names may come in any order. */
  lemma NamesInAnyOrder<T>(ms: seq<Member<T>>)
    requires forall i :: 0 <= i < |ms| ==> ms[i].key != "" && 'a' <= ms[i].key[0] <= 'z'
    ensures Enumerable(ms)
  {
    forall i | 0 <= i < |ms| ensures !IndexKey(ms[i].key) {
      NameIsNoIndex(ms[i].key);
    }
  }

  /** Some place that holds `x` comes before one that holds `y`. */
  ghost predicate Follows<T>(ms: seq<Member<T>>, x: Member<T>, y: Member<T>) {
    exists i, j :: 0 <= i < j < |ms| && ms[i] == x && ms[j] == y
  }

  /** These two are in the order of the collation, and in that of the original list if they are tied. */
  ghost predicate InPlace<T>(ms: seq<Member<T>>, x: Member<T>, y: Member<T>, le: Collation) {
    le(x.key, y.key) && (le(y.key, x.key) ==> Follows(ms, x, y))
  }

  ghost predicate StablySorted<T>(s: seq<Member<T>>, ms: seq<Member<T>>, le: Collation) {
    forall i, j :: 0 <= i < j < |s| ==> InPlace(ms, s[i], s[j], le)
  }

  lemma FollowsInMore<T>(m: Member<T>, ms: seq<Member<T>>, x: Member<T>, y: Member<T>)
    ensures Follows(ms, x, y) ==> Follows([m] + ms, x, y)
    ensures y in ms ==> Follows([m] + ms, m, y)
  {
    var all := [m] + ms;
    if Follows(ms, x, y) {
      var i, j :| 0 <= i < j < |ms| && ms[i] == x && ms[j] == y;
      assert all[i + 1] == x && all[j + 1] == y;
    }
    if y in ms {
      var j :| 0 <= j < |ms| && ms[j] == y;
      assert all[0] == m && all[j + 1] == y;
    }
  }

  lemma {:induction false} InsertKeepsSorted<T>(m: Member<T>, s: seq<Member<T>>, ms: seq<Member<T>>, le: Collation)
    requires TotalPreorder(le) && StablySorted(s, ms, le) && forall x :: x in s ==> x in ms
    ensures StablySorted(Insert(m, s, le), [m] + ms, le)
  {
    var all := [m] + ms;
    forall i, j | 0 <= i < j < |s| ensures InPlace(all, s[i], s[j], le) {
      assert InPlace(ms, s[i], s[j], le);
      FollowsInMore(m, ms, s[i], s[j]);
    }
    if s != [] {
      if le(m.key, s[0].key) {
        forall j | 0 <= j < |s| ensures InPlace(all, m, s[j], le) {
          assert j > 0 ==> InPlace(ms, s[0], s[j], le);
          FollowsInMore(m, ms, m, s[j]);
        }
      } else {
        var tail := Insert(m, s[1..], le);
        InsertKeepsSorted(m, s[1..], ms, le);
        InsertPermutes(m, s[1..], le);
        forall j | 0 <= j < |tail| ensures InPlace(all, s[0], tail[j], le) {
          assert tail[j] in multiset(tail);
          if tail[j] != m {
            assert tail[j] in multiset(s[1..]);
            var i :| 0 <= i < |s[1..]| && s[1..][i] == tail[j];
            assert InPlace(all, s[0], s[i + 1], le);
          }
        }
      }
    }
  }

  /** The sort is a stable sort by key: in the order of the collation, tied members in their original order. */
  lemma {:induction false} SortIsStable<T>(ms: seq<Member<T>>, le: Collation)
    requires TotalPreorder(le)
    ensures multiset(SortByKey(ms, le)) == multiset(ms)
    ensures var s := SortByKey(ms, le);
      forall i, j :: 0 <= i < j < |s| ==>
        le(s[i].key, s[j].key) && (le(s[j].key, s[i].key) ==> Follows(ms, s[i], s[j]))
  {
    SortPermutes(ms, le);
    if ms != [] {
      var rest := SortByKey(ms[1..], le);
      SortIsStable(ms[1..], le);
      forall i, j | 0 <= i < j < |rest| ensures InPlace(ms[1..], rest[i], rest[j], le) {
      }
      forall x | x in rest ensures x in ms[1..] {
        SortKeepsMember(ms[1..], le, x);
      }
      InsertKeepsSorted(ms[0], rest, ms[1..], le);
      assert ms == [ms[0]] + ms[1..];
      var s := SortByKey(ms, le);
      forall i, j | 0 <= i < j < |s|
        ensures le(s[i].key, s[j].key) && (le(s[j].key, s[i].key) ==> Follows(ms, s[i], s[j]))
      {
        assert InPlace(ms, s[i], s[j], le);
      }
    }
  }

  lemma SortAscends<T>(ms: seq<Member<T>>, le: Collation)
    requires TotalPreorder(le) && Enumerable(ms)
    ensures Ascending(SortByKey(ms, le), le)
  {
    SortIsStable(ms, le);
  }

  /** Sorting keeps the members, and so the distinctness of their keys. */
  lemma SortKeepsMembers<T>(ms: seq<Member<T>>, le: Collation)
    ensures |SortByKey(ms, le)| == |ms|
    ensures forall m :: m in SortByKey(ms, le) <==> m in ms
    ensures DistinctKeys(ms) ==> DistinctKeys(SortByKey(ms, le))
  {
    var s := SortByKey(ms, le);
    SortPermutes(ms, le);
    assert |multiset(s)| == |multiset(ms)|;
    forall m ensures m in s <==> m in ms {
      assert m in s <==> m in multiset(s);
      assert m in ms <==> m in multiset(ms);
    }
    if DistinctKeys(ms) {
      forall i, j | 0 <= i < j < |s| ensures s[i].key != s[j].key {
        assert s[i] in multiset(s) && s[j] in multiset(s);
        assert s[i] in multiset(ms) && s[j] in multiset(ms);
        if s[i].key == s[j].key {
          SameKeySameMember(ms, s[i], s[j]);
          TwiceInSequence(s, i, j);
          OnceInSequence(ms, s[i]);
        }
      }
    }
  }

  lemma SameKeySameMember<T>(ms: seq<Member<T>>, a: Member<T>, b: Member<T>)
    requires DistinctKeys(ms) && a in ms && b in ms && a.key == b.key
    ensures a == b
  {
    var i :| 0 <= i < |ms| && ms[i] == a;
    var j :| 0 <= j < |ms| && ms[j] == b;
    assert i == j;
  }

  lemma TwiceInSequence<T>(s: seq<T>, i: nat, j: nat)
    requires i < j < |s| && s[i] == s[j]
    ensures multiset(s)[s[i]] >= 2
  {
    assert s == s[..i] + [s[i]] + s[i + 1..j] + [s[j]] + s[j + 1..];
  }

  lemma {:induction false} OnceInSequence<T>(ms: seq<Member<T>>, m: Member<T>)
    requires DistinctKeys(ms)
    ensures multiset(ms)[m] <= 1
  {
    if ms != [] {
      OnceInSequence(ms[1..], m);
      assert ms == [ms[0]] + ms[1..];
      if m == ms[0] {
        assert m !in ms[1..];
      }
    }
  }

  lemma TailMembers<T>(a: seq<Member<T>>)
    requires a != [] && DistinctKeys(a)
    ensures forall m :: m in a[1..] <==> m in a && m != a[0]
  {
    forall m ensures m in a[1..] <==> m in a && m != a[0] {
      assert a == [a[0]] + a[1..];
      if m in a[1..] {
        var i :| 0 <= i < |a[1..]| && a[1..][i] == m;
        assert a[i + 1] == m;
      }
    }
  }

  /** Two ascending lists without repeated keys and with the same members are the same list. */
  lemma {:induction false} SortedUnique<T(!new)>(a: seq<Member<T>>, b: seq<Member<T>>, le: Collation)
    requires TellsNamesApart(le) && Ascending(a, le) && Ascending(b, le) && DistinctKeys(a) && DistinctKeys(b)
    requires SameContents(a, b)
    ensures a == b
  {
    if a != [] {
      assert a[0] in b && b[0] in a;
      var i :| 0 <= i < |b| && b[i] == a[0];
      var j :| 0 <= j < |a| && a[j] == b[0];
      if i > 0 && j > 0 {
        InOrderBothWays(a[0].key, b[0].key, le);
      }
      assert i == 0;
      TailMembers(a);
      TailMembers(b);
      SortedUnique(a[1..], b[1..], le);
    }
  }

  // ------------------------------------------------------------------ printing onto a rest

  function EmitChars(s: string, rest: string): string {
    if s == "" then rest else Escape(s[0]) + EmitChars(s[1..], rest)
  }

  function EmitString(s: string, rest: string): string {
    "\"" + EmitChars(s, "\"" + rest)
  }

  /** The text of a value in its own member order, in front of `rest`. */
  function Emit(v: Json, rest: string): string
    decreases v, 1
  {
    match v
    case Undefined => "undefined" + rest
    case Null => "null" + rest
    case Bool(b) => (if b then "true" else "false") + rest
    case Number(t) => t + rest
    case String(s) => EmitString(s, rest)
    case Array(xs) => "[" + EmitItems(xs, true, "]" + rest)
    case Object(ms) => "{" + EmitMembers(ms, true, "}" + rest)
  }

  function EmitItem(v: Json, rest: string): string
    decreases v, 2
  {
    if v.Undefined? then rest else Emit(v, rest)
  }

  function EmitItems(xs: seq<Json>, first: bool, rest: string): string
    decreases xs, 0
  {
    if xs == [] then rest
    else (if first then "" else ",") + EmitItem(xs[0], EmitItems(xs[1..], false, rest))
  }

  function EmitMembers(ms: seq<Member<Json>>, first: bool, rest: string): string
    decreases ms, 0
  {
    if ms == [] then rest
    else (if first then "" else ",")
         + EmitString(ms[0].key, ":" + Emit(ms[0].value, EmitMembers(ms[1..], false, rest)))
  }

  lemma {:induction false} EmitCharsIsAppend(s: string, rest: string)
    ensures EmitChars(s, rest) == EscapeAll(s) + rest
  {
    if s != "" {
      EmitCharsIsAppend(s[1..], rest);
      ConcatAssociates(Escape(s[0]), EscapeAll(s[1..]), rest);
    }
  }

  lemma EmitStringIsQuote(s: string, rest: string)
    ensures EmitString(s, rest) == Quote(s) + rest
  {
    EmitCharsIsAppend(s, "\"" + rest);
  }

  function Closed(parts: seq<string>, first: bool, rest: string): string {
    if parts == [] then rest else (if first then "" else ",") + (parts[0] + Closed(parts[1..], false, rest))
  }

  lemma {:induction false} ClosedIsJoin(parts: seq<string>, rest: string)
    ensures Closed(parts, true, rest) == Join(parts) + rest
    ensures parts != [] ==> Closed(parts, false, rest) == "," + (Join(parts) + rest)
  {
    if |parts| > 1 {
      ClosedIsJoin(parts[1..], rest);
    }
  }

  /** Printing the sorted form onto a rest is the canonical text followed by the rest. */
  lemma {:induction false} EmitNormal(v: Json, le: Collation, rest: string)
    ensures Emit(Normal(v, le), rest) == Stable(v, le) + rest
    decreases v, 1
  {
    match v
    case String(s) => EmitStringIsQuote(s, rest);
    case Array(xs) =>
      if |xs| == 1 && xs[0].Undefined? {
        assert StableItems(xs, le) == [""];
        assert Stable(v, le) + rest == "[" + ("]" + rest);
      } else {
        EmitNormalItems(xs, le, true, "]" + rest);
        Bracketed("[", StableItems(xs, le), "]", rest);
      }
    case Object(ms) =>
      var nm, sm := SortByKey(NormalMembers(ms, le), le), SortByKey(StableMembers(ms, le), le);
      MembersRender(ms, le);
      SortRenders(NormalMembers(ms, le), StableMembers(ms, le), le);
      EmitRendered(nm, sm, true, "}" + rest);
      Bracketed("{", MemberTexts(sm), "}", rest);
    case _ =>
  }

  lemma Bracketed(open: string, parts: seq<string>, close: string, rest: string)
    ensures (open + Join(parts) + close) + rest == open + Closed(parts, true, close + rest)
  {
    ClosedIsJoin(parts, close + rest);
    FourParts(open, Join(parts), close, rest);
  }

  lemma {:induction false} EmitNormalItems(xs: seq<Json>, le: Collation, first: bool, rest: string)
    ensures EmitItems(NormalItems(xs, le), first, rest) == Closed(StableItems(xs, le), first, rest)
    decreases xs, 0
  {
    if xs != [] {
      var ns, parts, tail := NormalItems(xs, le), StableItems(xs, le), EmitItems(NormalItems(xs[1..], le), false, rest);
      EmitNormalItems(xs[1..], le, false, rest);
      ItemTails(xs, le);
      if !xs[0].Undefined? {
        EmitNormal(xs[0], le, tail);
      }
      assert EmitItem(ns[0], tail) == parts[0] + tail;
    }
  }

  lemma ItemTails(xs: seq<Json>, le: Collation)
    requires xs != []
    ensures NormalItems(xs, le)[1..] == NormalItems(xs[1..], le)
    ensures StableItems(xs, le)[1..] == StableItems(xs[1..], le)
  {
  }

  /** `sm` is the printed form of `nm`, member by member. */
  ghost predicate Renders(nm: seq<Member<Json>>, sm: seq<Member<string>>) {
    && |nm| == |sm|
    && forall i :: 0 <= i < |nm| ==> RendersMember(nm[i], sm[i])
  }

  ghost predicate RendersMember(n: Member<Json>, s: Member<string>) {
    n.key == s.key && forall rest :: Emit(n.value, rest) == s.value + rest
  }

  lemma {:induction false} MembersRender(ms: seq<Member<Json>>, le: Collation)
    ensures Renders(NormalMembers(ms, le), StableMembers(ms, le))
    decreases ms, 0
  {
    if ms != [] {
      MembersRender(ms[1..], le);
      forall rest ensures Emit(Normal(ms[0].value, le), rest) == Stable(ms[0].value, le) + rest {
        EmitNormal(ms[0].value, le, rest);
      }
    }
  }

  lemma {:induction false} InsertRenders(n: Member<Json>, s: Member<string>, nm: seq<Member<Json>>,
                                         sm: seq<Member<string>>, le: Collation)
    requires RendersMember(n, s) && Renders(nm, sm)
    ensures Renders(Insert(n, nm, le), Insert(s, sm, le))
  {
    if nm != [] {
      assert RendersMember(nm[0], sm[0]);
      if !le(n.key, nm[0].key) {
        InsertRenders(n, s, nm[1..], sm[1..], le);
      }
    }
  }

  lemma {:induction false} SortRenders(nm: seq<Member<Json>>, sm: seq<Member<string>>, le: Collation)
    requires Renders(nm, sm)
    ensures Renders(SortByKey(nm, le), SortByKey(sm, le))
  {
    if nm != [] {
      SortRenders(nm[1..], sm[1..], le);
      InsertRenders(nm[0], sm[0], SortByKey(nm[1..], le), SortByKey(sm[1..], le), le);
    }
  }

  lemma FourParts(a: string, b: string, c: string, d: string)
    ensures a + (b + (c + d)) == (a + b + c) + d
  {
  }

  lemma {:induction false} EmitRendered(nm: seq<Member<Json>>, sm: seq<Member<string>>, first: bool, rest: string)
    requires Renders(nm, sm)
    ensures EmitMembers(nm, first, rest) == Closed(MemberTexts(sm), first, rest)
  {
    if nm != [] {
      EmitRendered(nm[1..], sm[1..], false, rest);
      var tail := EmitMembers(nm[1..], false, rest);
      assert RendersMember(nm[0], sm[0]);
      EmitStringIsQuote(nm[0].key, ":" + Emit(nm[0].value, tail));
      assert MemberTexts(sm)[1..] == MemberTexts(sm[1..]);
      FourParts(Quote(sm[0].key), ":", sm[0].value, tail);
    }
  }

  // ------------------------------------------------------------------ reading the text

  lemma HexDigitIsRead(i: nat)
    requires i < 16
    ensures HexDigit(HexDigits[i]) == Some(i)
  {
  }

  lemma ControlIsRead(hi: nat, lo: nat, rest: string)
    requires hi < 2 && lo < 16
    ensures ReadChar("\\u00" + [HexDigits[hi], HexDigits[lo]] + rest) == Some(((hi * 16 + lo) as char, rest))
  {
    var s := "\\u00" + [HexDigits[hi], HexDigits[lo]] + rest;
    HexIsRead(hi, lo, rest);
    assert s[2..] == ['0', '0', HexDigits[hi], HexDigits[lo]] + rest && s[0] == '\\' && s[1] == 'u';
  }

  /** An escaped character is read back as that character, whatever follows it. */
  lemma EscapeIsRead(c: char, rest: string)
    ensures ReadChar(Escape(c) + rest) == Some((c, rest))
    ensures (Escape(c) + rest)[0] != '\"'
  {
    if |Escape(c)| == 6 {
      ControlIsRead(c as int / 16, c as int % 16, rest);
    } else {
      var s := Escape(c) + rest;
      assert s[0] == Escape(c)[0] && s[|Escape(c)|..] == rest;
      assert |Escape(c)| == 2 ==> s[1] == Escape(c)[1];
    }
  }

  lemma HexIsRead(hi: nat, lo: nat, rest: string)
    requires hi < 16 && lo < 16
    ensures ReadHex(['0', '0', HexDigits[hi], HexDigits[lo]] + rest) == Some(((hi * 16 + lo) as char, rest))
  {
    var s := ['0', '0', HexDigits[hi], HexDigits[lo]] + rest;
    HexDigitIsRead(hi);
    HexDigitIsRead(lo);
    assert s[..4] == ['0', '0', HexDigits[hi], HexDigits[lo]] && s[4..] == rest;
    assert s[0] == '0' && s[1] == '0' && s[2] == HexDigits[hi] && s[3] == HexDigits[lo];
  }

  /**
   * Of all the ways to write a character in a string, the printer takes the shortest; where there are several, it
   * takes the one with small hexadecimal letters.
   */
  lemma EscapeIsShortest(c: char, s: string)
    requires ReadChar(s) == Some((c, ""))
    ensures |Escape(c)| < |s| || Escape(c) == s ||
      (|s| == 6 && s[..2] == "\\u" && exists i :: 2 <= i < 6 && 'A' <= s[i] <= 'F')
  {
    if |s| <= 2 {
      ShortIsEscape(c, s);
    } else {
      LongIsHex(c, s);
      EscapeSize(c);
      if |Escape(c)| == 6 && forall i :: 2 <= i < 6 ==> !('A' <= s[i] <= 'F') {
        SixIsControl(c);
        HexIsSmall(s[2..], c);
        assert s == s[..2] + s[2..];
      }
    }
  }

  lemma SixIsControl(c: char)
    requires |Escape(c)| == 6
    ensures c as int < 0x20
    ensures Escape(c) == "\\u" + ['0', '0', HexDigits[c as int / 16], HexDigits[c as int % 16]]
  {
  }

  lemma EscapeSize(c: char)
    ensures |Escape(c)| <= 6
  {
  }

  lemma ShortIsEscape(c: char, s: string)
    requires ReadChar(s) == Some((c, "")) && |s| <= 2
    ensures |Escape(c)| < |s| || Escape(c) == s
  {
    if |s| == 1 {
      assert s == [c];
    } else {
      assert s == [s[0], s[1]];
    }
  }

  lemma LongIsHex(c: char, s: string)
    requires ReadChar(s) == Some((c, "")) && |s| > 2
    ensures |s| == 6 && s[0] == '\\' && s[1] == 'u' && ReadHex(s[2..]) == Some((c, "")) && s[..2] == "\\u"
  {
  }

  lemma HexIsSmall(t: string, c: char)
    requires ReadHex(t) == Some((c, "")) && c as int < 0x20
    requires forall i :: 0 <= i < 4 && i < |t| ==> !('A' <= t[i] <= 'F')
    ensures t == ['0', '0', HexDigits[c as int / 16], HexDigits[c as int % 16]]
  {
    assert |t| == 4;
    HexParts(HexDigit(t[0]).value, HexDigit(t[1]).value, HexDigit(t[2]).value, HexDigit(t[3]).value, c as int);
    SmallHexDigit(t[0]);
    SmallHexDigit(t[1]);
    SmallHexDigit(t[2]);
    SmallHexDigit(t[3]);
  }

  lemma HexParts(a: nat, b: nat, c: nat, d: nat, code: int)
    requires a < 16 && b < 16 && c < 16 && d < 16 && ((a * 16 + b) * 16 + c) * 16 + d == code < 0x20
    ensures a == b == 0 && c == code / 16 && d == code % 16
  {
  }

  lemma SmallHexDigit(d: char)
    requires HexDigit(d).Some? && !('A' <= d <= 'F')
    ensures HexDigit(d).value < 16 && d == HexDigits[HexDigit(d).value]
  {
  }

  /** An escaped character determines the character, whatever follows it. */
  lemma EscapeIsPrefixFree(c: char, d: char, x: string, y: string)
    requires Escape(c) + x == Escape(d) + y
    ensures c == d && x == y
  {
    EscapeIsRead(c, x);
    EscapeIsRead(d, y);
  }

  lemma {:induction false} CharsAreRead(s: string, rest: string)
    ensures ReadChars(EmitChars(s, "\"" + rest)) == Some((s, rest))
  {
    if s == "" {
      assert ("\"" + rest)[1..] == rest;
    } else {
      var others := EmitChars(s[1..], "\"" + rest);
      EscapeIsRead(s[0], others);
      CharsAreRead(s[1..], rest);
      assert s == [s[0]] + s[1..];
    }
  }

  lemma Cancel(p: string, x: string, y: string)
    requires p + x == p + y
    ensures x == y
  {
    assert (p + x)[|p|..] == x && (p + y)[|p|..] == y;
  }

  /** What may follow a value inside a text: nothing, a comma, or a closing bracket. */
  predicate Ends(rest: string) {
    rest == "" || rest[0] in {',', ']', '}'}
  }

  lemma NumberCharIsRead(c: char)
    ensures IsNumberChar(c) ==> c in "0123456789-+.eE"
    ensures c in {',', ']', '}'} ==> c !in "0123456789-+.eE"
  {
    var all := "0123456789-+.eE";
    assert all[10] == '-' && all[11] == '+' && all[12] == '.' && all[13] == 'e';
    if '0' <= c <= '9' {
      assert all[c as int - '0' as int] == c;
    }
  }

  lemma {:induction false} TokenLength(token: string, rest: string)
    requires Ends(rest) && forall i :: 0 <= i < |token| ==> IsNumberChar(token[i])
    ensures NumberLength(token + rest) == |token|
  {
    var s := token + rest;
    if token != "" {
      NumberCharIsRead(token[0]);
      TokenLength(token[1..], rest);
      assert s[1..] == token[1..] + rest && s[0] == token[0];
    } else {
      assert s == rest;
      if rest != "" {
        NumberCharIsRead(rest[0]);
      }
    }
  }

  lemma NumberOpensValue(s: string)
    requires s != "" && IsNumberChar(s[0])
    ensures ReadValue(s) == ReadNumber(s)
  {
    var c := s[0];
    assert c != '\"' && c != '[' && c != '{' && c != 'n' && c != 't' && c != 'f' && c != 'u';
  }

  lemma NumberIsRead(token: string, rest: string)
    requires Printable(Number(token)) && Ends(rest)
    ensures ReadValue(token + rest) == Some((Number(token), rest))
  {
    var s := token + rest;
    TokenLength(token, rest);
    assert s[..|token|] == token && s[|token|..] == rest && s[0] == token[0];
    NumberOpensValue(s);
  }

  lemma WordIsRead(word: string, v: Json, rest: string)
    requires word != ""
    ensures ReadWord(word + rest, word, v) == Some((v, rest))
  {
    assert (word + rest)[|word|..] == rest && word <= word + rest;
  }

  /** The sorted forms: no array holds just `Undefined`. */
  ghost predicate Printable(v: Json) {
    match v
    case Number(t) => t != "" && forall i :: 0 <= i < |t| ==> IsNumberChar(t[i])
    case Array(xs) => !(|xs| == 1 && xs[0].Undefined?) && forall x :: x in xs ==> Printable(x)
    case Object(ms) => forall m :: m in ms ==> Printable(m.value)
    case _ => true
  }

  /** The first character of a printed value tells its kind. */
  function Lead(v: Json): char
    requires v.Number? ==> v.token != ""
  {
    match v
    case Undefined => 'u'
    case Null => 'n'
    case Bool(b) => if b then 't' else 'f'
    case Number(t) => t[0]
    case String(_) => '\"'
    case Array(_) => '['
    case Object(_) => '{'
  }

  lemma EmitLead(v: Json, rest: string)
    requires Printable(v)
    ensures Emit(v, rest) != "" && Emit(v, rest)[0] == Lead(v)
    ensures Lead(v) !in {',', ']', '}'}
  {
  }

  lemma StringIsRead(s: string, rest: string)
    ensures ReadValue(EmitString(s, rest)) == Some((String(s), rest))
  {
    CharsAreRead(s, rest);
    assert EmitString(s, rest)[1..] == EmitChars(s, "\"" + rest);
  }

  lemma ArrayIsRead(xs: seq<Json>, rest: string)
    requires var body := EmitItems(xs, true, "]" + rest);
      xs != [] ==> body != "" && body[0] != ']' && ReadItems(body) == Some((xs, rest))
    ensures ReadValue("[" + EmitItems(xs, true, "]" + rest)) == Some((Array(xs), rest))
  {
    var body := EmitItems(xs, true, "]" + rest);
    var s := "[" + body;
    assert s[1..] == body && (body != "" ==> s[1] == body[0]);
    if xs == [] {
      assert s[2..] == rest;
    }
  }

  lemma ObjectIsRead(ms: seq<Member<Json>>, rest: string)
    requires var body := EmitMembers(ms, true, "}" + rest);
      ms != [] ==> body != "" && body[0] == '\"' && ReadMembers(body) == Some((ms, rest))
    ensures ReadValue("{" + EmitMembers(ms, true, "}" + rest)) == Some((Object(ms), rest))
  {
    var body := EmitMembers(ms, true, "}" + rest);
    var s := "{" + body;
    assert s[1..] == body && (body != "" ==> s[1] == body[0]);
    if ms == [] {
      assert s[2..] == rest;
    }
  }

  lemma WordsAreRead(rest: string)
    ensures ReadValue("null" + rest) == Some((Null, rest)) && ReadValue("undefined" + rest) == Some((Undefined, rest))
    ensures ReadValue("true" + rest) == Some((Bool(true), rest))
    ensures ReadValue("false" + rest) == Some((Bool(false), rest))
  {
    WordIsRead("null", Null, rest);
    WordIsRead("undefined", Undefined, rest);
    WordIsRead("true", Bool(true), rest);
    WordIsRead("false", Bool(false), rest);
  }

  /** A printed value is read back from any text it starts, with the rest of the text left. */
  lemma {:induction false} ValueIsRead(v: Json, rest: string)
    requires Printable(v) && Ends(rest)
    ensures ReadValue(Emit(v, rest)) == Some((v, rest))
    decreases v, 1
  {
    match v
    case Undefined => WordsAreRead(rest);
    case Null => WordsAreRead(rest);
    case Bool(_) => WordsAreRead(rest);
    case Number(t) => NumberIsRead(t, rest);
    case String(s) => StringIsRead(s, rest);
    case Array(xs) =>
      if xs != [] {
        ItemsAreRead(xs, rest);
        FirstItemIsNoBracket(xs, rest);
      }
      ArrayIsRead(xs, rest);
    case Object(ms) =>
      if ms != [] {
        MembersAreRead(ms, rest);
        FirstMember(ms, rest);
      }
      ObjectIsRead(ms, rest);
  }

  lemma TailOfItems(xs: seq<Json>, rest: string)
    ensures var tail := EmitItems(xs, false, "]" + rest);
      Ends(tail) && tail != "" && (if xs == [] then tail == "]" + rest
                                   else tail == "," + EmitItems(xs, true, "]" + rest))
  {
  }

  lemma FirstItemIsNoBracket(xs: seq<Json>, rest: string)
    requires xs != [] && Printable(Array(xs))
    ensures EmitItems(xs, true, "]" + rest) != "" && EmitItems(xs, true, "]" + rest)[0] != ']'
  {
    TailOfItems(xs[1..], rest);
    assert Printable(xs[0]);
    if !xs[0].Undefined? {
      EmitLead(xs[0], EmitItems(xs[1..], false, "]" + rest));
    }
  }

  lemma {:induction false} ItemIsRead(v: Json, rest: string)
    requires Printable(v) && Ends(rest) && rest != "" && rest[0] != '}'
    ensures ReadItem(EmitItem(v, rest)) == Some((v, rest))
    decreases v, 2
  {
    if !v.Undefined? {
      EmitLead(v, rest);
      ValueIsRead(v, rest);
    }
  }

  lemma {:induction false} ItemsAreRead(xs: seq<Json>, rest: string)
    requires xs != [] && forall x :: x in xs ==> Printable(x)
    ensures ReadItems(EmitItems(xs, true, "]" + rest)) == Some((xs, rest))
    decreases xs, 0
  {
    var tail := EmitItems(xs[1..], false, "]" + rest);
    TailOfItems(xs[1..], rest);
    ItemIsRead(xs[0], tail);
    assert xs == [xs[0]] + xs[1..] && "" + EmitItem(xs[0], tail) == EmitItem(xs[0], tail);
    if |xs| == 1 {
      assert xs == [xs[0]] && tail[1..] == rest;
    } else {
      ItemsAreRead(xs[1..], rest);
      assert tail[1..] == EmitItems(xs[1..], true, "]" + rest);
    }
  }

  lemma TailOfMembers(ms: seq<Member<Json>>, rest: string)
    ensures var tail := EmitMembers(ms, false, "}" + rest);
      Ends(tail) && tail != "" && (if ms == [] then tail == "}" + rest
                                   else tail == "," + EmitMembers(ms, true, "}" + rest))
  {
    if ms != [] {
      FirstMember(ms, rest);
    }
  }

  lemma FirstMember(ms: seq<Member<Json>>, rest: string)
    requires ms != []
    ensures var body := EmitString(ms[0].key, ":" + Emit(ms[0].value, EmitMembers(ms[1..], false, "}" + rest)));
      EmitMembers(ms, true, "}" + rest) == body && EmitMembers(ms, false, "}" + rest) == "," + body
  {
    var body := EmitString(ms[0].key, ":" + Emit(ms[0].value, EmitMembers(ms[1..], false, "}" + rest)));
    assert "" + body == body;
  }

  lemma {:induction false} MembersAreRead(ms: seq<Member<Json>>, rest: string)
    requires ms != [] && forall m :: m in ms ==> Printable(m.value)
    ensures ReadMembers(EmitMembers(ms, true, "}" + rest)) == Some((ms, rest))
    decreases ms, 0
  {
    var tail := EmitMembers(ms[1..], false, "}" + rest);
    TailOfMembers(ms[1..], rest);
    ValueIsRead(ms[0].value, tail);
    MemberIsRead(ms[0], tail);
    FirstMember(ms, rest);
    assert ms == [ms[0]] + ms[1..];
    if |ms| == 1 {
      assert ms == [ms[0]] && tail[1..] == rest;
    } else {
      MembersAreRead(ms[1..], rest);
      assert tail[1..] == EmitMembers(ms[1..], true, "}" + rest);
    }
  }

  lemma MemberIsRead(m: Member<Json>, rest: string)
    requires ReadValue(Emit(m.value, rest)) == Some((m.value, rest))
    ensures ReadMember(EmitString(m.key, ":" + Emit(m.value, rest))) == Some((m, rest))
  {
    var value := ":" + Emit(m.value, rest);
    CharsAreRead(m.key, value);
    assert EmitString(m.key, value)[1..] == EmitChars(m.key, "\"" + value);
    assert value[1..] == Emit(m.value, rest);
  }

  /** So the text of a sorted form and what follows it determine each other's ends. */
  lemma EmitInjective(a: Json, b: Json, x: string, y: string)
    requires Printable(a) && Printable(b) && Ends(x) && Ends(y)
    requires Emit(a, x) == Emit(b, y)
    ensures a == b && x == y
  {
    ValueIsRead(a, x);
    ValueIsRead(b, y);
  }

  /**
   * What the canonical text says: read by the grammar of JSON, in front of anything that may follow a value, it is
   * the value in sorted form, whatever the collation.
   */
  lemma StableIsRead(v: Json, le: Collation, rest: string)
    requires WellFormed(v) && Ends(rest)
    ensures ReadValue(Stable(v, le) + rest) == Some((Normal(v, le), rest))
  {
    EmitNormal(v, le, rest);
    NormalIsPrintable(v, le);
    ValueIsRead(Normal(v, le), rest);
  }

  // ------------------------------------------------------------------ the printer is canonical

  lemma {:induction false} NormalIsPrintable(v: Json, le: Collation)
    requires WellFormed(v)
    ensures Printable(Normal(v, le))
  {
    match v
    case Array(xs) =>
      forall i | 0 <= i < |xs| ensures Printable(NormalItems(xs, le)[i]) {
        NormalIsPrintable(xs[i], le);
      }
    case Object(ms) =>
      var nm := NormalMembers(ms, le);
      SortKeepsMembers(nm, le);
      forall m | m in SortByKey(nm, le) ensures Printable(m.value) {
        var i :| 0 <= i < |nm| && nm[i] == m;
        NormalIsPrintable(ms[i].value, le);
      }
    case _ =>
  }

  /** Sorting members changes nothing that the order of keys does not change. */
  lemma {:induction false} MeaningOfNormal(v: Json, le: Collation)
    requires WellFormed(v)
    ensures Meaning(Normal(v, le)) == Meaning(v)
  {
    match v
    case Array(xs) =>
      forall i | 0 <= i < |xs| ensures Meaning(NormalItems(xs, le)[i]) == Meaning(xs[i]) {
        NormalKeepsUndefined(xs[i], le);
        MeaningOfNormal(xs[i], le);
      }
    case Object(ms) =>
      forall m | m in ms ensures Meaning(Normal(m.value, le)) == Meaning(m.value) {
        MeaningOfNormal(m.value, le);
      }
      MeaningOfSorted(ms, le);
    case _ =>
  }

  lemma NormalKeepsUndefined(v: Json, le: Collation)
    ensures Normal(v, le).Undefined? <==> v.Undefined?
  {
  }

  lemma MeaningOfSorted(ms: seq<Member<Json>>, le: Collation)
    requires DistinctKeys(ms)
    requires forall m :: m in ms ==> Meaning(Normal(m.value, le)) == Meaning(m.value)
    ensures MeaningMembers(SortByKey(NormalMembers(ms, le), le)) == MeaningMembers(ms)
  {
    var sorted := SortByKey(NormalMembers(ms, le), le);
    SortKeepsMembers(NormalMembers(ms, le), le);
    forall k ensures k in MeaningMembers(sorted) <==> k in MeaningMembers(ms) {
      SortedKey(ms, le, k);
    }
    forall k | k in MeaningMembers(ms) ensures MeaningMembers(sorted)[k] == MeaningMembers(ms)[k] {
      SortedValue(ms, le, k);
    }
  }

  lemma SortedKey(ms: seq<Member<Json>>, le: Collation, k: string)
    requires DistinctKeys(ms)
    ensures k in MeaningMembers(SortByKey(NormalMembers(ms, le), le)) <==> k in MeaningMembers(ms)
  {
    var nm := NormalMembers(ms, le);
    var sorted := SortByKey(nm, le);
    SortKeepsMembers(nm, le);
    MeaningKeys(sorted, k);
    MeaningKeys(ms, k);
    if k in MeaningMembers(sorted) {
      var i :| 0 <= i < |sorted| && sorted[i].key == k;
      assert sorted[i] in nm;
      var j :| 0 <= j < |nm| && nm[j] == sorted[i];
      assert ms[j].key == k;
    }
    if k in MeaningMembers(ms) {
      var j :| 0 <= j < |ms| && ms[j].key == k;
      assert nm[j] in sorted;
      var i :| 0 <= i < |sorted| && sorted[i] == nm[j];
      assert sorted[i].key == k;
    }
  }

  lemma SortedValue(ms: seq<Member<Json>>, le: Collation, k: string)
    requires DistinctKeys(ms) && k in MeaningMembers(ms)
    requires forall m :: m in ms ==> Meaning(Normal(m.value, le)) == Meaning(m.value)
    ensures var sorted := SortByKey(NormalMembers(ms, le), le);
      k in MeaningMembers(sorted) && MeaningMembers(sorted)[k] == MeaningMembers(ms)[k]
  {
    var nm := NormalMembers(ms, le);
    var sorted := SortByKey(nm, le);
    SortKeepsMembers(nm, le);
    MeaningKeys(ms, k);
    var j :| 0 <= j < |ms| && ms[j].key == k;
    assert nm[j] in sorted;
    var i :| 0 <= i < |sorted| && sorted[i] == nm[j];
    MeaningOfMember(ms, j);
    MeaningOfMember(sorted, i);
  }

  /** Equal sorted forms of two objects hold the same sorted form under every key. */
  lemma SortedUnderKey(ms: seq<Member<Json>>, ns: seq<Member<Json>>, i: nat, j: nat, le: Collation)
    requires Normal(Object(ms), le) == Normal(Object(ns), le) && DistinctKeys(ns)
    requires i < |ms| && j < |ns| && ms[i].key == ns[j].key
    ensures Normal(ms[i].value, le) == Normal(ns[j].value, le)
  {
    var sortedMs, sortedNs := NormalMembers(ms, le), NormalMembers(ns, le);
    SortKeepsMember(sortedMs, le, sortedMs[i]);
    SortKeepsMember(sortedNs, le, sortedMs[i]);
    SameKeySameMember(sortedNs, sortedMs[i], sortedNs[j]);
  }

  /**
   * Unique decodability, for any collation: a canonical text in front of anything that may follow a
   * value determines the value, up to the order of keys, and the rest.
   */
  lemma StableIsUniquelyDecodable(a: Json, b: Json, le: Collation, x: string, y: string)
    requires WellFormed(a) && WellFormed(b) && Ends(x) && Ends(y)
    requires Stable(a, le) + x == Stable(b, le) + y
    ensures Normal(a, le) == Normal(b, le) && Meaning(a) == Meaning(b) && x == y
  {
    EmitNormal(a, le, x);
    EmitNormal(b, le, y);
    NormalIsPrintable(a, le);
    NormalIsPrintable(b, le);
    EmitInjective(Normal(a, le), Normal(b, le), x, y);
    MeaningOfNormal(a, le);
    MeaningOfNormal(b, le);
  }

  /** With a collation that tells names apart, values that agree up to the order of keys have the same sorted form. */
  lemma {:induction false} MeaningDeterminesNormal(a: Json, b: Json, le: Collation)
    requires WellFormed(a) && WellFormed(b) && TotalPreorder(le) && TellsNamesApart(le)
    requires Meaning(a) == Meaning(b)
    ensures Normal(a, le) == Normal(b, le)
    decreases a
  {
    match a
    case Array(xs) =>
      var ys := b.items;
      if !HoldsUndefined(xs) && !HoldsUndefined(ys) {
        var mx := MeaningItems(xs);
        assert mx == MeaningItems(ys);
        forall i | 0 <= i < |mx| ensures Normal(xs[i], le) == Normal(ys[i], le) {
          assert mx[i] == Meaning(xs[i]) && mx[i] == Meaning(ys[i]);
          MeaningDeterminesNormal(xs[i], ys[i], le);
        }
        assert NormalItems(xs, le) == NormalItems(ys, le);
      }
    case Object(ms) =>
      var ns := b.members;
      forall i, j | 0 <= i < |ms| && 0 <= j < |ns| && ms[i].key == ns[j].key
        ensures Normal(ms[i].value, le) == Normal(ns[j].value, le)
      {
        MeaningOfMember(ms, i);
        MeaningOfMember(ns, j);
        MeaningDeterminesNormal(ms[i].value, ns[j].value, le);
      }
      SameSortedMembers(ms, ns, le);
    case _ =>
  }

  lemma {:induction false} SameSortedMembers(ms: seq<Member<Json>>, ns: seq<Member<Json>>, le: Collation)
    requires TotalPreorder(le) && TellsNamesApart(le) && Enumerable(ms) && Enumerable(ns)
    requires DistinctKeys(ms) && DistinctKeys(ns) && MeaningMembers(ms) == MeaningMembers(ns)
    requires forall i, j :: 0 <= i < |ms| && 0 <= j < |ns| && ms[i].key == ns[j].key ==>
      Normal(ms[i].value, le) == Normal(ns[j].value, le)
    ensures SortByKey(NormalMembers(ms, le), le) == SortByKey(NormalMembers(ns, le), le)
  {
    SameMembers(ms, ns, le);
    SameMembers(ns, ms, le);
    SameSize(ms, ns);
    SortedFormsAgree(NormalMembers(ms, le), NormalMembers(ns, le), le);
  }

  ghost predicate SameContents<T(!new)>(a: seq<Member<T>>, b: seq<Member<T>>) {
    |a| == |b| && forall m :: m in a <==> m in b
  }

  lemma SortKeepsMember<T>(ms: seq<Member<T>>, le: Collation, m: Member<T>)
    ensures m in SortByKey(ms, le) <==> m in ms
  {
    SortPermutes(ms, le);
    assert m in SortByKey(ms, le) <==> m in multiset(SortByKey(ms, le));
    assert m in ms <==> m in multiset(ms);
  }

  lemma SortKeepsContents(ms: seq<Member<Json>>, le: Collation)
    requires DistinctKeys(ms)
    ensures DistinctKeys(SortByKey(ms, le)) && SameContents(SortByKey(ms, le), ms)
  {
    SortKeepsMembers(ms, le);
    forall m ensures m in SortByKey(ms, le) <==> m in ms {
      SortKeepsMember(ms, le, m);
    }
  }

  lemma SameContentsJoin<T(!new)>(s: seq<Member<T>>, a: seq<Member<T>>, b: seq<Member<T>>, t: seq<Member<T>>)
    requires SameContents(s, a) && SameContents(a, b) && SameContents(t, b)
    ensures SameContents(s, t)
  {
    forall m ensures m in s <==> m in t {
      assert m in s <==> m in a;
    }
  }

  lemma SortedFormsAgree(a: seq<Member<Json>>, b: seq<Member<Json>>, le: Collation)
    requires TotalPreorder(le) && TellsNamesApart(le) && DistinctKeys(a) && DistinctKeys(b)
    requires Enumerable(a) && Enumerable(b) && SameContents(a, b)
    ensures SortByKey(a, le) == SortByKey(b, le)
  {
    SortKeepsContents(a, le);
    SortKeepsContents(b, le);
    SameContentsJoin(SortByKey(a, le), a, b, SortByKey(b, le));
    SortAscends(a, le);
    SortAscends(b, le);
    SortedUnique(SortByKey(a, le), SortByKey(b, le), le);
  }

  lemma {:induction false} SameMembers(ms: seq<Member<Json>>, ns: seq<Member<Json>>, le: Collation)
    requires DistinctKeys(ms) && DistinctKeys(ns) && MeaningMembers(ms) == MeaningMembers(ns)
    requires forall i, j :: 0 <= i < |ms| && 0 <= j < |ns| && ms[i].key == ns[j].key ==>
      Normal(ms[i].value, le) == Normal(ns[j].value, le)
    ensures forall m :: m in NormalMembers(ms, le) ==> m in NormalMembers(ns, le)
  {
    forall m | m in NormalMembers(ms, le) ensures m in NormalMembers(ns, le) {
      var i :| 0 <= i < |ms| && NormalMembers(ms, le)[i] == m;
      var j := MatchingMember(ms, ns, i);
      assert NormalMembers(ns, le)[j] == m;
    }
  }

  lemma MatchingMember(ms: seq<Member<Json>>, ns: seq<Member<Json>>, i: nat) returns (j: nat)
    requires DistinctKeys(ms) && MeaningMembers(ms) == MeaningMembers(ns) && i < |ms|
    ensures j < |ns| && ns[j].key == ms[i].key
  {
    MeaningOfMember(ms, i);
    MeaningKeys(ns, ms[i].key);
    j :| 0 <= j < |ns| && ns[j].key == ms[i].key;
  }

  lemma {:induction false} SameSize(ms: seq<Member<Json>>, ns: seq<Member<Json>>)
    requires DistinctKeys(ms) && DistinctKeys(ns) && MeaningMembers(ms) == MeaningMembers(ns)
    ensures |ms| == |ns|
  {
    MeaningSize(ms);
    MeaningSize(ns);
  }

  lemma {:induction false} MeaningSize(ms: seq<Member<Json>>)
    requires DistinctKeys(ms)
    ensures |MeaningMembers(ms).Keys| == |ms|
  {
    if ms != [] {
      MeaningSize(ms[1..]);
      MeaningKeys(ms[1..], ms[0].key);
      assert MeaningMembers(ms).Keys == MeaningMembers(ms[1..]).Keys + {ms[0].key};
    }
  }

  /** Whatever the collation, two values print to the same text if and only if they have the same sorted form. */
  lemma StableTellsSortedForms(a: Json, b: Json, le: Collation)
    requires WellFormed(a) && WellFormed(b)
    ensures Stable(a, le) == Stable(b, le) <==> Normal(a, le) == Normal(b, le)
    ensures Normal(a, le) == Normal(b, le) ==> Meaning(a) == Meaning(b)
  {
    if Stable(a, le) == Stable(b, le) {
      StableIsUniquelyDecodable(a, b, le, "", "");
    }
    if Normal(a, le) == Normal(b, le) {
      MeaningOfNormal(a, le);
      MeaningOfNormal(b, le);
      EmitNormal(a, le, "");
      EmitNormal(b, le, "");
      assert Stable(a, le) + "" == Stable(a, le) && Stable(b, le) + "" == Stable(b, le);
    }
  }

  /**
   * Under a collation that tells names apart, two values print to the same text if and only if they are equal up to
   * the order of object keys.
   */
  lemma StableIsCanonical(a: Json, b: Json, le: Collation)
    requires WellFormed(a) && WellFormed(b) && TotalPreorder(le) && TellsNamesApart(le)
    ensures Stable(a, le) == Stable(b, le) <==> Meaning(a) == Meaning(b)
  {
    StableTellsSortedForms(a, b, le);
    if Meaning(a) == Meaning(b) {
      MeaningDeterminesNormal(a, b, le);
    }
  }

  ghost predicate Canonical(le: Collation) {
    forall a, b :: WellFormed(a) && WellFormed(b) && Meaning(a) == Meaning(b) ==> Stable(a, le) == Stable(b, le)
  }

  /**
   * Under a collation that calls two different names equal (as locale collations do) the printer is not canonical:
   * it is exactly when the collation tells names apart. Ties with an array index do no harm, because objects list
   * array indices first.
   */
  lemma CanonicalIffNamesApart(le: Collation)
    requires TotalPreorder(le)
    ensures Canonical(le) <==> TellsNamesApart(le)
  {
    if TellsNamesApart(le) {
      forall a, b | WellFormed(a) && WellFormed(b) && Meaning(a) == Meaning(b) ensures Stable(a, le) == Stable(b, le) {
        StableIsCanonical(a, b, le);
      }
    }
    if Canonical(le) {
      forall k, l | le(k, l) && le(l, k) && !IndexKey(k) && !IndexKey(l) ensures k == l {
        if k != l {
          TiedKeysBreakCanonicity(k, l, le);
        }
      }
    }
  }

  /** The witness: an object with two tied names, written in either order. */
  lemma TiedKeysBreakCanonicity(k: string, l: string, le: Collation)
    requires k != l && le(k, l) && le(l, k) && !IndexKey(k) && !IndexKey(l)
    ensures var a, b := Object([Member(k, Null), Member(l, Null)]), Object([Member(l, Null), Member(k, Null)]);
      WellFormed(a) && WellFormed(b) && Meaning(a) == Meaning(b) && Stable(a, le) != Stable(b, le)
  {
    var ms, ns := [Member(k, Null), Member(l, Null)], [Member(l, Null), Member(k, Null)];
    var a, b := Object(ms), Object(ns);
    TwoMembers(k, l);
    TwoMembers(l, k);
    assert MeaningMembers(ms) == MeaningMembers(ns);
    if Stable(a, le) == Stable(b, le) {
      StableIsUniquelyDecodable(a, b, le, "", "");
      SortOfTied(k, l, le);
      SortOfTied(l, k, le);
    }
  }

  lemma TwoMembers(k: string, l: string)
    requires k != l && !IndexKey(k) && !IndexKey(l)
    ensures WellFormed(Object([Member(k, Null), Member(l, Null)]))
    ensures MeaningMembers([Member(k, Null), Member(l, Null)]) == map[k := VNull, l := VNull]
  {
    var ms := [Member(k, Null), Member(l, Null)];
    assert ms[1..] == [Member(l, Null)] && ms[1..][1..] == [];
    assert MeaningMembers(ms[1..]) == map[l := VNull];
  }

  lemma SortOfTied(k: string, l: string, le: Collation)
    requires le(k, l)
    ensures Normal(Object([Member(k, Null), Member(l, Null)]), le) == Object([Member(k, Null), Member(l, Null)])
  {
    var ms := [Member(k, Null), Member(l, Null)];
    assert NormalMembers(ms, le) == ms;
    assert ms[1..] == [Member(l, Null)] && ms[1..][1..] == [];
    assert SortByKey(ms[1..], le) == [Member(l, Null)];
  }

  /** Outside JSON the text is not unique: an array of just `Undefined` prints as the empty array. */
  lemma UndefinedCollides(le: Collation)
    ensures WellFormed(Array([Undefined])) && WellFormed(Array([]))
    ensures Array([Undefined]) != Array([]) && Stable(Array([Undefined]), le) == Stable(Array([]), le) == "[]"
  {
    assert StableItems([Undefined], le) == [""];
  }
}
