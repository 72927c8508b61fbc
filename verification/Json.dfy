/** JSON values as JavaScript sees them. */
module JsonValue {

  datatype Member<T> = Member(key: string, value: T)

  /**
   * A value as JavaScript sees it. Objects keep their members in insertion order. `Undefined` is the
   * value that JSON has no notation for; a number is represented by its printed token.
   */
  datatype Json =
    | Undefined
    | Null
    | Bool(b: bool)
    | Number(token: string)
    | String(s: string)
    | Array(items: seq<Json>)
    | Object(members: seq<Member<Json>>)
}

/**
 * A reader of JSON text without insignificant white space, after the grammar of RFC 8259. It reads one value from the
 * front of a text and returns what follows. Two things that JSON lacks are read as `Undefined`: the word `undefined`,
 * and an array element of which nothing is written.
 */
module JsonReader {
  import opened Common
  import opened JsonValue

  type Read<T> = Option<(T, string)>

  // ------------------------------------------------------------------ strings (section 7 of RFC 8259)

  function HexDigit(c: char): Option<nat> {
    if '0' <= c <= '9' then Some(c as int - '0' as int)
    else if 'a' <= c <= 'f' then Some(c as int - 'a' as int + 10)
    else if 'A' <= c <= 'F' then Some(c as int - 'A' as int + 10)
    else None
  }

  /** The character of four hexadecimal digits; surrogates are none. */
  function ReadHex(s: string): Read<char> {
    if |s| < 4 then None
    else
      var a, b, c, d := HexDigit(s[0]), HexDigit(s[1]), HexDigit(s[2]), HexDigit(s[3]);
      if a.None? || b.None? || c.None? || d.None? then None
      else
        var code := ((a.value * 16 + b.value) * 16 + c.value) * 16 + d.value;
        if code < 0xD800 || 0xE000 <= code < 0x10000 then Some((code as char, s[4..])) else None
  }

  /** What a letter after a backslash stands for. */
  function Unescaped(letter: char): Option<char> {
    match letter
    case '\"' => Some('\"')
    case '\\' => Some('\\')
    case '/' => Some('/')
    case 'b' => Some('\U{08}')
    case 'f' => Some('\U{0C}')
    case 'n' => Some('\n')
    case 'r' => Some('\r')
    case 't' => Some('\t')
    case _ => None
  }

  /** One character of a string; control characters must be escaped. */
  function ReadChar(s: string): (r: Read<char>)
    ensures r.Some? ==> |r.value.1| < |s|
  {
    if s == "" || s[0] == '\"' || s[0] as int < 0x20 then None
    else if s[0] != '\\' then Some((s[0], s[1..]))
    else if |s| == 1 then None
    else if s[1] == 'u' then ReadHex(s[2..])
    else
      var c := Unescaped(s[1]);
      if c.Some? then Some((c.value, s[2..])) else None
  }

  /** The characters up to the closing quotation mark. */
  function ReadChars(s: string): (r: Read<string>)
    ensures r.Some? ==> |r.value.1| < |s|
    decreases |s|
  {
    if s != "" && s[0] == '\"' then Some(("", s[1..]))
    else
      var first := ReadChar(s);
      if first.None? then None
      else
        var others := ReadChars(first.value.1);
        if others.None? then None else Some(([first.value.0] + others.value.0, others.value.1))
  }

  // ------------------------------------------------------------------ numbers and words

  function NumberLength(s: string): (n: nat)
    ensures n <= |s|
  {
    if s == "" || s[0] !in "0123456789-+.eE" then 0 else 1 + NumberLength(s[1..])
  }

  /** The longest run of characters of which numbers are made. */
  function ReadNumber(s: string): (r: Read<Json>)
    ensures r.Some? ==> |r.value.1| < |s|
  {
    var n := NumberLength(s);
    if n == 0 then None else Some((Number(s[..n]), s[n..]))
  }

  function ReadWord(s: string, word: string, v: Json): (r: Read<Json>)
    requires word != ""
    ensures r.Some? ==> |r.value.1| < |s|
  {
    if word <= s then Some((v, s[|word|..])) else None
  }

  // ------------------------------------------------------------------ values

  function ReadValue(s: string): (r: Read<Json>)
    ensures r.Some? ==> |r.value.1| < |s|
    decreases |s|, 0
  {
    if s == "" then None
    else
      match s[0]
      case '\"' =>
        var chars := ReadChars(s[1..]);
        if chars.None? then None else Some((String(chars.value.0), chars.value.1))
      case '[' =>
        var items := if s[1..] != "" && s[1] == ']' then Some(([], s[2..])) else ReadItems(s[1..]);
        if items.None? then None else Some((Array(items.value.0), items.value.1))
      case '{' =>
        var members := if s[1..] != "" && s[1] == '}' then Some(([], s[2..])) else ReadMembers(s[1..]);
        if members.None? then None else Some((Object(members.value.0), members.value.1))
      case 'n' => ReadWord(s, "null", Null)
      case 't' => ReadWord(s, "true", Bool(true))
      case 'f' => ReadWord(s, "false", Bool(false))
      case 'u' => ReadWord(s, "undefined", Undefined)
      case _ => ReadNumber(s)
  }

  /** An array element, which may be missing. */
  function ReadItem(s: string): (r: Read<Json>)
    ensures r.Some? ==> |r.value.1| <= |s|
    decreases |s|, 1
  {
    if s != "" && s[0] in ",]" then Some((Undefined, s)) else ReadValue(s)
  }

  /** One or more elements, and the closing bracket. */
  function ReadItems(s: string): (r: Read<seq<Json>>)
    ensures r.Some? ==> |r.value.1| < |s|
    decreases |s|, 2
  {
    var first := ReadItem(s);
    if first.None? || first.value.1 == "" then None
    else
      var (v, rest) := first.value;
      if rest[0] == ']' then Some(([v], rest[1..]))
      else if rest[0] != ',' then None
      else
        var others := ReadItems(rest[1..]);
        if others.None? then None else Some(([v] + others.value.0, others.value.1))
  }

  /** A key, a colon and a value. */
  function ReadMember(s: string): (r: Read<Member<Json>>)
    ensures r.Some? ==> |r.value.1| < |s|
    decreases |s|, 1
  {
    if s == "" || s[0] != '\"' then None
    else
      var key := ReadChars(s[1..]);
      if key.None? || key.value.1 == "" || key.value.1[0] != ':' then None
      else
        var value := ReadValue(key.value.1[1..]);
        if value.None? then None else Some((Member(key.value.0, value.value.0), value.value.1))
  }

  /** One or more members, and the closing brace. */
  function ReadMembers(s: string): (r: Read<seq<Member<Json>>>)
    ensures r.Some? ==> |r.value.1| < |s|
    decreases |s|, 2
  {
    var first := ReadMember(s);
    if first.None? || first.value.1 == "" then None
    else
      var (m, rest) := first.value;
      if rest[0] == '}' then Some(([m], rest[1..]))
      else if rest[0] != ',' then None
      else
        var others := ReadMembers(rest[1..]);
        if others.None? then None else Some(([m] + others.value.0, others.value.1))
  }
}
