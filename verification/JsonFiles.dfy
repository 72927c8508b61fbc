/** What writing a value to a JSON file and reading it back does to it. */
module JsonFiles {
  import opened CanonicalJson
  import opened JsonReader
  import opened JsonValue
  import opened Common

  /** JSON.stringify followed by JSON.parse: undefined members vanish, undefined elements become null. */
  function RoundTrip(v: Json): Json {
    match v
    case Array(xs) => Array(RoundTripItems(xs))
    case Object(ms) => Object(RoundTripMembers(ms))
    case _ => v
  }

  function RoundTripItems(xs: seq<Json>): (r: seq<Json>)
    ensures |r| == |xs|
    ensures forall i :: 0 <= i < |xs| ==> r[i] == if xs[i].Undefined? then Null else RoundTrip(xs[i])
  {
    if xs == [] then [] else [if xs[0].Undefined? then Null else RoundTrip(xs[0])] + RoundTripItems(xs[1..])
  }

  function RoundTripMembers(ms: seq<Member<Json>>): seq<Member<Json>> {
    if ms == [] then []
    else
      (if ms[0].value.Undefined? then [] else [Member(ms[0].key, RoundTrip(ms[0].value))]) + RoundTripMembers(ms[1..])
  }

  lemma {:induction false} RoundTripMembersMeaning(ms: seq<Member<Json>>, m: Member<Json>)
    ensures m in RoundTripMembers(ms) <==>
      exists i :: 0 <= i < |ms| && !ms[i].value.Undefined? && m == Member(ms[i].key, RoundTrip(ms[i].value))
  {
    if ms != [] {
      RoundTripMembersMeaning(ms[1..], m);
      if m in RoundTripMembers(ms[1..]) {
        var i :| 0 <= i < |ms[1..]| && !ms[1..][i].value.Undefined?
          && m == Member(ms[1..][i].key, RoundTrip(ms[1..][i].value));
        assert ms[i + 1] == ms[1..][i];
      }
      forall i | 0 <= i < |ms| && !ms[i].value.Undefined? && m == Member(ms[i].key, RoundTrip(ms[i].value))
        ensures m in RoundTripMembers(ms)
      {
        assert i > 0 ==> ms[1..][i - 1] == ms[i];
      }
    }
  }

  lemma OneMoreMember<T>(m: Member<T>, rest: seq<Member<T>>)
    requires DistinctKeys(rest) && Enumerable(rest)
    requires forall i :: 0 <= i < |rest| ==> rest[i].key != m.key && !ListedBefore(rest[i].key, m.key)
    ensures DistinctKeys([m] + rest) && Enumerable([m] + rest)
  {
  }

  lemma {:induction false} RoundTripKeysDistinct(ms: seq<Member<Json>>)
    requires DistinctKeys(ms) && Enumerable(ms)
    ensures DistinctKeys(RoundTripMembers(ms)) && Enumerable(RoundTripMembers(ms))
  {
    if ms != [] {
      var rest := RoundTripMembers(ms[1..]);
      RoundTripKeysDistinct(ms[1..]);
      forall j | 0 <= j < |rest| ensures rest[j].key != ms[0].key && !ListedBefore(rest[j].key, ms[0].key) {
        RoundTripMembersMeaning(ms[1..], rest[j]);
        var i :| 0 <= i < |ms[1..]| && rest[j].key == ms[1..][i].key;
        assert ms[i + 1].key == rest[j].key;
      }
      if !ms[0].value.Undefined? {
        OneMoreMember(Member(ms[0].key, RoundTrip(ms[0].value)), rest);
      }
    }
  }

  lemma {:induction false} RoundTripWellFormed(v: Json)
    requires WellFormed(v)
    ensures WellFormed(RoundTrip(v))
    ensures v.Undefined? || IsJson(RoundTrip(v))
  {
    match v
    case Array(xs) =>
      forall i | 0 <= i < |xs| ensures WellFormed(RoundTripItems(xs)[i]) && IsJson(RoundTripItems(xs)[i]) {
        RoundTripWellFormed(xs[i]);
      }
    case Object(ms) =>
      RoundTripKeysDistinct(ms);
      forall m | m in RoundTripMembers(ms) ensures WellFormed(m.value) && IsJson(m.value) {
        RoundTripMembersMeaning(ms, m);
        var i :| 0 <= i < |ms| && !ms[i].value.Undefined? && m == Member(ms[i].key, RoundTrip(ms[i].value));
        RoundTripWellFormed(ms[i].value);
      }
    case _ =>
  }

  lemma {:induction false} RoundTripOfJson(v: Json)
    requires IsJson(v)
    ensures RoundTrip(v) == v
  {
    match v
    case Array(xs) =>
      forall i | 0 <= i < |xs| ensures RoundTripItems(xs)[i] == xs[i] {
        RoundTripOfJson(xs[i]);
      }
      assert RoundTripItems(xs) == xs;
    case Object(ms) => RoundTripOfMembers(ms);
    case _ =>
  }

  lemma {:induction false} RoundTripOfMembers(ms: seq<Member<Json>>)
    requires forall m :: m in ms ==> IsJson(m.value)
    ensures RoundTripMembers(ms) == ms
  {
    if ms != [] {
      assert ms[0] in ms;
      RoundTripOfJson(ms[0].value);
      RoundTripOfMembers(ms[1..]);
      assert ms == [ms[0]] + ms[1..];
    }
  }

  /** A round trip that loses nothing but the order of keys shows that there was nothing undefined inside. */
  lemma {:induction false} FaithfulRoundTrip(v: Json)
    requires WellFormed(v) && !v.Undefined? && Meaning(RoundTrip(v)) == Meaning(v)
    ensures IsJson(v)
  {
    match v
    case Array(xs) =>
      assert |RoundTripItems(xs)| == |xs|;
      assert !HoldsUndefined(RoundTripItems(xs)) by {
        assert |xs| == 1 ==> !RoundTripItems(xs)[0].Undefined?;
      }
      assert MeaningItems(RoundTripItems(xs)) == Meaning(v).items;
      forall i | 0 <= i < |xs| ensures IsJson(xs[i]) {
        assert MeaningItems(RoundTripItems(xs))[i] == MeaningItems(xs)[i];
        assert !xs[i].Undefined?;
        FaithfulRoundTrip(xs[i]);
      }
    case Object(ms) =>
      RoundTripKeysDistinct(ms);
      forall i | 0 <= i < |ms| ensures IsJson(ms[i].value) {
        MemberSurvives(ms, i);
        FaithfulRoundTrip(ms[i].value);
      }
    case _ =>
  }

  lemma {:induction false} MemberSurvives(ms: seq<Member<Json>>, i: nat)
    requires i < |ms| && DistinctKeys(ms) && DistinctKeys(RoundTripMembers(ms))
    requires MeaningMembers(RoundTripMembers(ms)) == MeaningMembers(ms)
    ensures !ms[i].value.Undefined? && Meaning(RoundTrip(ms[i].value)) == Meaning(ms[i].value)
  {
    var rs := RoundTripMembers(ms);
    MeaningOfMember(ms, i);
    MeaningKeys(rs, ms[i].key);
    var j :| 0 <= j < |rs| && rs[j].key == ms[i].key;
    RoundTripMembersMeaning(ms, rs[j]);
    assert rs[j] in rs;
    var k :| 0 <= k < |ms| && !ms[k].value.Undefined? && rs[j] == Member(ms[k].key, RoundTrip(ms[k].value));
    assert k == i;
    MeaningOfMember(rs, j);
  }

  /** The canonical text survives writing to a file and reading back exactly for proper JSON values. */
  lemma {:induction false} StableSurvivesRoundTrip(v: Json, le: Collation)
    requires WellFormed(v) && !v.Undefined?
    ensures Stable(RoundTrip(v), le) == Stable(v, le) <==> IsJson(v)
  {
    if IsJson(v) {
      RoundTripOfJson(v);
    }
    if Stable(RoundTrip(v), le) == Stable(v, le) {
      RoundTripWellFormed(v);
      StableIsUniquelyDecodable(RoundTrip(v), v, le, "", "");
      FaithfulRoundTrip(v);
    }
  }

  // ------------------------------------------------------------------ the text of the file

  /** JSON.stringify: in arrays undefined is written as null, in objects it is not written. */
  function Stringify(v: Json): string {
    match v
    case Undefined => "null"
    case Null => "null"
    case Bool(b) => if b then "true" else "false"
    case Number(t) => t
    case String(s) => Quote(s)
    case Array(xs) => "[" + Join(StringifyItems(xs)) + "]"
    case Object(ms) => "{" + Join(StringifyMembers(ms)) + "}"
  }

  function StringifyItems(xs: seq<Json>): seq<string> {
    if xs == [] then [] else [Stringify(xs[0])] + StringifyItems(xs[1..])
  }

  function StringifyMembers(ms: seq<Member<Json>>): seq<string> {
    if ms == [] then []
    else
      (if ms[0].value.Undefined? then [] else [Quote(ms[0].key) + ":" + Stringify(ms[0].value)])
      + StringifyMembers(ms[1..])
  }

  lemma {:induction false} StringifyIsEmit(v: Json, rest: string)
    requires !v.Undefined?
    ensures Stringify(v) + rest == Emit(RoundTrip(v), rest)
    decreases v, 1
  {
    match v
    case String(s) => EmitStringIsQuote(s, rest);
    case Array(xs) =>
      StringifyItemsIsEmit(xs, true, "]" + rest);
      Bracketed("[", StringifyItems(xs), "]", rest);
    case Object(ms) =>
      StringifyMembersIsEmit(ms, true, "}" + rest);
      Bracketed("{", StringifyMembers(ms), "}", rest);
    case _ =>
  }

  lemma {:induction false} StringifyItemsIsEmit(xs: seq<Json>, first: bool, rest: string)
    ensures EmitItems(RoundTripItems(xs), first, rest) == Closed(StringifyItems(xs), first, rest)
    decreases xs, 0
  {
    if xs != [] {
      var tail := EmitItems(RoundTripItems(xs[1..]), false, rest);
      StringifyItemsIsEmit(xs[1..], false, rest);
      if !xs[0].Undefined? {
        StringifyIsEmit(xs[0], tail);
        StringifyKeepsDefined(xs[0]);
      }
      assert RoundTripItems(xs)[1..] == RoundTripItems(xs[1..]);
      assert StringifyItems(xs)[1..] == StringifyItems(xs[1..]);
      assert EmitItem(RoundTripItems(xs)[0], tail) == Stringify(xs[0]) + tail;
    }
  }

  lemma StringifyKeepsDefined(v: Json)
    ensures RoundTrip(v).Undefined? <==> v.Undefined?
  {
  }

  lemma {:induction false} StringifyMembersIsEmit(ms: seq<Member<Json>>, first: bool, rest: string)
    ensures EmitMembers(RoundTripMembers(ms), first, rest) == Closed(StringifyMembers(ms), first, rest)
    decreases ms, 0
  {
    if ms != [] {
      var key, value := ms[0].key, ms[0].value;
      if value.Undefined? {
        StringifyMembersIsEmit(ms[1..], first, rest);
        assert RoundTripMembers(ms) == RoundTripMembers(ms[1..]) && StringifyMembers(ms) == StringifyMembers(ms[1..]);
      } else {
        var tail := EmitMembers(RoundTripMembers(ms[1..]), false, rest);
        StringifyMembersIsEmit(ms[1..], false, rest);
        StringifyIsEmit(value, tail);
        EmitStringIsQuote(key, ":" + Emit(RoundTrip(value), tail));
        FourParts(Quote(key), ":", Stringify(value), tail);
        assert RoundTripMembers(ms)[1..] == RoundTripMembers(ms[1..]);
        assert StringifyMembers(ms)[1..] == StringifyMembers(ms[1..]);
      }
    }
  }

  lemma {:induction false} JsonIsPrintable(v: Json)
    requires WellFormed(v) && IsJson(v)
    ensures Printable(v)
  {
    match v
    case Array(xs) =>
      assert |xs| == 1 ==> xs[0] in xs;
      forall x | x in xs ensures Printable(x) {
        JsonIsPrintable(x);
      }
    case Object(ms) =>
      forall m | m in ms ensures Printable(m.value) {
        JsonIsPrintable(m.value);
      }
    case _ =>
  }

  /** What a file gives back: reading what JSON.stringify writes. */
  lemma RoundTripIsRead(v: Json, rest: string)
    requires WellFormed(v) && !v.Undefined? && Ends(rest)
    ensures ReadValue(Stringify(v) + rest) == Some((RoundTrip(v), rest))
  {
    StringifyIsEmit(v, rest);
    RoundTripWellFormed(v);
    JsonIsPrintable(RoundTrip(v));
    ValueIsRead(RoundTrip(v), rest);
  }
}
