/** The line reader of the model client: newline-separated records arriving in arbitrary chunks. */
module Stream {
  import opened Common

  // ------------------------------------------------------------------ splitting at newlines

  /** The pieces between newlines; there is always at least one. */
  function Split(text: string): (pieces: seq<string>)
    ensures pieces != []
  {
    if text == "" then [""]
    else
      var rest := Split(text[1..]);
      if text[0] == '\n' then [""] + rest else PushFront(text[0], rest)
  }

  /** Puts a character in front of the first piece. */
  function PushFront(c: char, pieces: seq<string>): (r: seq<string>)
    requires pieces != []
    ensures |r| == |pieces| && r[0] == [c] + pieces[0] && forall i :: 0 < i < |r| ==> r[i] == pieces[i]
  {
    pieces[0 := [c] + pieces[0]]
  }

  function Join(pieces: seq<string>): string
    requires pieces != []
  {
    if |pieces| == 1 then pieces[0] else pieces[0] + "\n" + Join(pieces[1..])
  }

  ghost predicate OneLine(text: string) {
    '\n' !in text
  }

  ghost predicate AllOneLine(pieces: seq<string>) {
    forall i :: 0 <= i < |pieces| ==> OneLine(pieces[i])
  }

  lemma JoinOfPushFront(c: char, pieces: seq<string>)
    requires pieces != []
    ensures Join(PushFront(c, pieces)) == [c] + Join(pieces)
  {
    if |pieces| > 1 {
      assert PushFront(c, pieces)[1..] == pieces[1..];
      assert [c] + pieces[0] + "\n" + Join(pieces[1..]) == [c] + (pieces[0] + "\n" + Join(pieces[1..]));
    }
  }

  /** Splitting cuts at every newline and loses nothing else. */
  lemma {:induction false} JoinOfSplit(text: string)
    ensures Join(Split(text)) == text && AllOneLine(Split(text))
  {
    if text != "" {
      JoinOfSplit(text[1..]);
      var rest := Split(text[1..]);
      assert text == [text[0]] + text[1..];
      if text[0] == '\n' {
        assert ([""] + rest)[1..] == rest;
      } else {
        JoinOfPushFront(text[0], rest);
        assert OneLine(rest[0]);
      }
    }
  }

  /** Only one list of newline-free pieces joins to a text: its split. */
  lemma {:induction false} SplitOfJoin(pieces: seq<string>)
    requires pieces != [] && AllOneLine(pieces)
    ensures Split(Join(pieces)) == pieces
    decreases |pieces|
  {
    if |pieces| == 1 {
      SplitOneLine(pieces[0]);
    } else {
      SplitOfJoin(pieces[1..]);
      SplitAtNewline(pieces[0], Join(pieces[1..]));
      assert pieces == [pieces[0]] + pieces[1..];
    }
  }

  lemma {:induction false} SplitOneLine(text: string)
    requires OneLine(text)
    ensures Split(text) == [text]
  {
    if text != "" {
      assert text[0] in text;
      SplitOneLine(text[1..]);
      assert [text[0]] + text[1..] == text;
    }
  }

  lemma {:induction false} SplitAtNewline(line: string, rest: string)
    requires OneLine(line)
    ensures Split(line + "\n" + rest) == [line] + Split(rest)
  {
    var text := line + "\n" + rest;
    if line == "" {
      assert text[1..] == rest;
    } else {
      assert line[0] in line;
      SplitAtNewline(line[1..], rest);
      assert text[1..] == line[1..] + "\n" + rest;
      assert [line[0]] + line[1..] == line;
    }
  }

  function LastOf(pieces: seq<string>): string
    requires pieces != []
  {
    pieces[|pieces| - 1]
  }

  function AllButLast<T>(s: seq<T>): seq<T>
    requires s != []
  {
    s[..|s| - 1]
  }

  lemma SplitOfPushed(c: char, text: string, b: string)
    requires c != '\n'
    ensures Split([c] + text + b) == PushFront(c, Split(text + b))
  {
    assert ([c] + text + b)[1..] == text + b;
  }

  lemma PushFrontConcat(c: char, a: seq<string>, b: seq<string>)
    requires a != []
    ensures PushFront(c, a + b) == PushFront(c, a) + b
  {
  }

  lemma PushFrontParts(c: char, pieces: seq<string>)
    requires |pieces| > 1
    ensures AllButLast(PushFront(c, pieces)) == PushFront(c, AllButLast(pieces))
    ensures LastOf(PushFront(c, pieces)) == LastOf(pieces)
  {
  }

  /** Splitting a longer text: the complete lines stay, the last piece is split again with what follows. */
  lemma {:induction false} SplitConcat(a: string, b: string)
    ensures Split(a + b) == AllButLast(Split(a)) + Split(LastOf(Split(a)) + b)
  {
    if a == "" {
      assert a + b == b;
    } else {
      var c, rest := a[0], Split(a[1..]);
      SplitConcat(a[1..], b);
      assert (a + b)[1..] == a[1..] + b && (a + b)[0] == c;
      if c == '\n' {
        SplitConcatNewline(rest, Split(LastOf(rest) + b));
      } else if |rest| == 1 {
        SplitOfPushed(c, rest[0], b);
      } else {
        PushFrontParts(c, rest);
        PushFrontConcat(c, AllButLast(rest), Split(LastOf(rest) + b));
      }
    }
  }

  lemma SplitConcatNewline(rest: seq<string>, tail: seq<string>)
    requires rest != []
    ensures [""] + (AllButLast(rest) + tail) == AllButLast([""] + rest) + tail
    ensures LastOf([""] + rest) == LastOf(rest)
  {
  }

  // ------------------------------------------------------------------ records

  /** Space, tab, line ends and the other characters that JavaScript trims. */
  predicate Blank(c: char) {
    || '\t' <= c <= '\r' || c in [' ', '\U{A0}', '\U{1680}', '\U{2028}', '\U{2029}', '\U{202F}', '\U{205F}']
    || '\U{2000}' <= c <= '\U{200A}' || c in ['\U{3000}', '\U{FEFF}']
  }

  predicate IsBlank(line: string) {
    forall i :: 0 <= i < |line| ==> Blank(line[i])
  }

  /** The response of a line, when it is not blank, parses, and has a response that is not empty. */
  function Response(parse: string -> Option<string>, line: string): Option<string> {
    if IsBlank(line) || parse(line) == Some("") then None else parse(line)
  }

  /** The responses of some lines, in order. */
  function Responses(parse: string -> Option<string>, lines: seq<string>): seq<string> {
    if lines == [] then []
    else
      var before := Responses(parse, lines[..|lines| - 1]);
      var last := Response(parse, lines[|lines| - 1]);
      if last.Some? then before + [last.value] else before
  }

  lemma {:induction false} ResponsesConcat(parse: string -> Option<string>, a: seq<string>, b: seq<string>)
    ensures Responses(parse, a + b) == Responses(parse, a) + Responses(parse, b)
  {
    if b == [] {
      assert a + b == a;
    } else {
      ConcatLast(a, b);
      ResponsesConcat(parse, a, b[..|b| - 1]);
      assert (a + b)[..|a + b| - 1] == a + b[..|b| - 1];
    }
  }

  /** White space and line terminators, by their code points. */
  lemma BlankMeaning(c: char)
    ensures Blank(c) <==>
      c as int in {0x9, 0xA, 0xB, 0xC, 0xD, 0x20, 0xA0, 0x1680, 0x2028, 0x2029, 0x202F, 0x205F, 0x3000, 0xFEFF}
      || 0x2000 <= c as int <= 0x200A
  {
  }

  /** A line is passed on if it is not blank, parses, and its response is not empty. */
  lemma ResponsesOneMore(parse: string -> Option<string>, lines: seq<string>, line: string)
    ensures Responses(parse, []) == []
    ensures Responses(parse, lines + [line]) == Responses(parse, lines) +
      if (exists c :: c in line && !Blank(c)) && parse(line).Some? && parse(line).value != ""
      then [parse(line).value] else []
  {
    assert (lines + [line])[..|lines|] == lines;
  }

  /** The complete lines of a text: everything before its last newline. */
  function Lines(text: string): seq<string> {
    AllButLast(Split(text))
  }

  /** What follows the last newline is never read. */
  lemma UnterminatedLineIsNotRead(text: string, tail: string)
    requires OneLine(tail)
    ensures Lines(text + tail) == Lines(text)
  {
    SplitConcat(text, tail);
    JoinOfSplit(text);
    assert OneLine(LastOf(Split(text)));
    SplitOneLine(LastOf(Split(text)) + tail);
  }

  /** Every line that a newline ends is read. */
  lemma TerminatedLinesAreRead(lines: seq<string>)
    requires AllOneLine(lines)
    ensures Lines(Join(lines + [""])) == lines
  {
    SplitOfJoin(lines + [""]);
  }

  lemma {:induction false} FlattenConcat(a: seq<string>, b: seq<string>)
    ensures Flatten(a + b) == Flatten(a) + Flatten(b)
  {
    if b == [] {
      assert a + b == a;
    } else {
      ConcatLast(a, b);
      var before, last := b[..|b| - 1], b[|b| - 1];
      FlattenConcat(a, before);
      assert (a + b)[..|a + b| - 1] == a + before;
      ConcatAssociates(Flatten(a), Flatten(before), last);
    }
  }

  /** One chunk more: the lines so far, then those of the buffer with the chunk. */
  lemma ChunkStep(read: string, chunk: string)
    ensures var buffered := LastOf(Split(read)) + chunk;
      Lines(read + chunk) == Lines(read) + Lines(buffered) && LastOf(Split(read + chunk)) == LastOf(Split(buffered))
  {
    SplitConcat(read, chunk);
  }

  /**
   * Reads the chunks and passes each response on as it is found. What is passed on depends on the text
   * alone, not on where the chunks were cut, and the result is exactly what was passed on.
   */
  method ReadStream(chunks: seq<string>, parse: string -> Option<string>)
    returns (fullText: string, passedOn: seq<string>)
    ensures passedOn == Responses(parse, Lines(Flatten(chunks)))
    ensures fullText == Flatten(passedOn)
  {
    var buffer := "";
    fullText, passedOn := "", [];
    for c := 0 to |chunks|
      invariant buffer == LastOf(Split(Flatten(chunks[..c])))
      invariant passedOn == Responses(parse, Lines(Flatten(chunks[..c])))
      invariant fullText == Flatten(passedOn)
    {
      PrefixStep(chunks, c);
      ChunkStep(Flatten(chunks[..c]), chunks[c]);
      ResponsesConcat(parse, Lines(Flatten(chunks[..c])), Lines(buffer + chunks[c]));
      buffer := buffer + chunks[c];
      var lines := Split(buffer);
      buffer := lines[|lines| - 1];
      lines := lines[..|lines| - 1];
      var text, passed := ReadLines(lines, parse);
      FlattenConcat(passedOn, passed);
      fullText := fullText + text;
      passedOn := passedOn + passed;
    }
    assert chunks[..|chunks|] == chunks;
  }

  method ReadLines(lines: seq<string>, parse: string -> Option<string>) returns (text: string, passed: seq<string>)
    ensures passed == Responses(parse, lines) && text == Flatten(passed)
  {
    text, passed := "", [];
    for i := 0 to |lines|
      invariant passed == Responses(parse, lines[..i]) && text == Flatten(passed)
    {
      PrefixStep(lines, i);
      if IsBlank(lines[i]) {
        continue;
      }
      var parsed := parse(lines[i]);
      if parsed.Some? && parsed.value != "" {
        text := text + parsed.value;
        passed := passed + [parsed.value];
      }
    }
    assert lines[..|lines|] == lines;
  }
}
