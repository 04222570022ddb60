/** Text normalisation and paragraph chunking of the RAG pipeline's helpers:
    Python's `str.isspace`, `str.strip`, `str.lower` (ASCII), `str.split('\n')`
    and `str.join`, and the two helpers built from them. */
module Helpers {

  /** Python's `str.isspace` on one character: TAB, LF, VT, FF and CR, the
      four information separators, SPACE, NEXT LINE, NO-BREAK SPACE and the
      Unicode space, line and paragraph separators. */
  predicate IsSpace(c: char) {
    var n := c as int;
    || 0x09 <= n <= 0x0D
    || 0x1C <= n <= 0x20
    || n == 0x85
    || n == 0xA0
    || n == 0x1680
    || 0x2000 <= n <= 0x200A
    || n == 0x2028
    || n == 0x2029
    || n == 0x202F
    || n == 0x205F
    || n == 0x3000
  }

  /** A string made of whitespace only (the empty string included): what
      Python treats as falsy after `strip()`. */
  predicate Blank(s: string) {
    forall i :: 0 <= i < |s| ==> IsSpace(s[i])
  }

  /** The first index at or after `i` that holds a non-space, or `|s|`. */
  function SkipSpaces(s: string, i: nat): (j: nat)
    requires i <= |s|
    ensures i <= j <= |s|
    ensures forall k :: i <= k < j ==> IsSpace(s[k])
    ensures j < |s| ==> !IsSpace(s[j])
    decreases |s| - i
  {
    if i < |s| && IsSpace(s[i]) then SkipSpaces(s, i + 1) else i
  }

  /** The end of `s[lo..hi]` once its trailing whitespace is cut off. */
  function SkipSpacesBack(s: string, lo: nat, hi: nat): (j: nat)
    requires lo <= hi <= |s|
    ensures lo <= j <= hi
    ensures forall k :: j <= k < hi ==> IsSpace(s[k])
    ensures j > lo ==> !IsSpace(s[j - 1])
    decreases hi
  {
    if hi > lo && IsSpace(s[hi - 1]) then SkipSpacesBack(s, lo, hi - 1) else hi
  }

  /** Python's `s.strip()`: whitespace cut off at both ends.  The result is
      empty exactly for blank input and otherwise starts and ends with a
      non-space; `StripSlice` says that only surrounding whitespace goes. */
  function Strip(s: string): (r: string)
    ensures r == "" <==> Blank(s)
    ensures r != "" ==> !IsSpace(r[0]) && !IsSpace(r[|r| - 1])
  {
    var start := SkipSpaces(s, 0);
    s[start..SkipSpacesBack(s, start, |s|)]
  }

  /** Strip removes whitespace at the two ends and nothing else: its result
      is the run of `s` that starts at some `i`, and what lies before and
      after that run is whitespace. */
  lemma StripSlice(s: string) returns (i: nat)
    ensures i + |Strip(s)| <= |s|
    ensures forall k :: 0 <= k < |Strip(s)| ==> Strip(s)[k] == s[i + k]
    ensures forall k :: 0 <= k < i ==> IsSpace(s[k])
    ensures forall k :: i + |Strip(s)| <= k < |s| ==> IsSpace(s[k])
  {
    i := SkipSpaces(s, 0);
  }

  /** Stripping a newline-free string leaves it newline-free. */
  lemma StripNoNewline(s: string)
    requires '\n' !in s
    ensures '\n' !in Strip(s)
  {
    var i := StripSlice(s);
  }

  /** A string with no whitespace at either end is its own strip. */
  lemma StripOfTrimmed(s: string)
    requires s == "" || (!IsSpace(s[0]) && !IsSpace(s[|s| - 1]))
    ensures Strip(s) == s
  {
    assert s[0..|s|] == s;
  }

  /** Stripping twice is stripping once. */
  lemma StripIdempotent(s: string)
    ensures Strip(Strip(s)) == Strip(s)
  {
    StripOfTrimmed(Strip(s));
  }

  /** `str.lower` on one character, restricted to ASCII: 'A'..'Z' become
      'a'..'z', every other character is left alone. */
  function LowerChar(c: char): (d: char)
    ensures !('A' <= d <= 'Z')
    ensures IsSpace(d) <==> IsSpace(c)
    ensures 'A' <= c <= 'Z' ==> d as int == c as int + 32
    ensures !('A' <= c <= 'Z') ==> d == c
  {
    if 'A' <= c <= 'Z' then (c as int + 32) as char else c
  }

  /** `str.lower`, ASCII letters only, character by character. */
  function Lower(s: string): (r: string)
    ensures |r| == |s|
    ensures forall i :: 0 <= i < |s| ==> r[i] == LowerChar(s[i])
  {
    if s == "" then "" else [LowerChar(s[0])] + Lower(s[1..])
  }

  /** A string with no upper-case ASCII letter is its own lower-case form. */
  lemma LowerOfLowercase(s: string)
    requires forall i :: 0 <= i < |s| ==> !('A' <= s[i] <= 'Z')
    ensures Lower(s) == s
  {
  }

  /** `preprocess_text`: lower-case, then strip.  The result carries no
      surrounding whitespace and no upper-case ASCII letter, and is no
      longer than the input. */
  function PreprocessText(text: string): (r: string)
    ensures Strip(r) == r
    ensures forall i :: 0 <= i < |r| ==> !('A' <= r[i] <= 'Z')
    ensures |r| <= |text|
  {
    var lowered := Lower(text);
    var r := Strip(lowered);
    StripIdempotent(lowered);
    StripLowerHasNoUpper(text);
    r
  }

  /** Stripping only removes characters, so no upper-case letter reappears. */
  lemma StripLowerHasNoUpper(text: string)
    ensures forall i :: 0 <= i < |Strip(Lower(text))| ==> !('A' <= Strip(Lower(text))[i] <= 'Z')
  {
    var start := StripSlice(Lower(text));
  }

  /** Normalising a normalised query changes nothing. */
  lemma PreprocessTextIdempotent(text: string)
    ensures PreprocessText(PreprocessText(text)) == PreprocessText(text)
  {
    var r := PreprocessText(text);
    LowerOfLowercase(r);
  }

  /** Number of occurrences of `c` in `s`. */
  function Count(s: string, c: char): nat {
    multiset(s)[c]
  }

  /** The first index at or after `i` that holds a newline, or `|s|`. */
  function NextNewline(s: string, i: nat): (j: nat)
    requires i <= |s|
    ensures i <= j <= |s|
    ensures forall k :: i <= k < j ==> s[k] != '\n'
    ensures j < |s| ==> s[j] == '\n'
    decreases |s| - i
  {
    if i < |s| && s[i] != '\n' then NextNewline(s, i + 1) else i
  }

  /** Python's `s.split('\n')`: the pieces between newlines, in order; at
      least one, and none containing a newline. */
  function Split(s: string): (pieces: seq<string>)
    ensures pieces != []
    ensures NoNewlines(pieces)
    decreases |s|
  {
    var i := NextNewline(s, 0);
    if i == |s| then [s] else [s[..i]] + Split(s[i + 1..])
  }

  /** There is one more piece than there are newlines. */
  lemma {:induction false} SplitCount(s: string)
    ensures |Split(s)| == Count(s, '\n') + 1
    decreases |s|
  {
    var i := NextNewline(s, 0);
    if i == |s| {
      assert '\n' !in s;
    } else {
      SplitCount(s[i + 1..]);
      assert s == s[..i] + [s[i]] + s[i + 1..];
      assert '\n' !in s[..i];
    }
  }

  /** Python's `sep.join(parts)`. */
  function Join(parts: seq<string>, sep: string): string {
    if parts == [] then ""
    else if |parts| == 1 then parts[0]
    else parts[0] + sep + Join(parts[1..], sep)
  }

  /** Joining the pieces of a split with newlines gives back the text. */
  lemma {:induction false} JoinSplit(s: string)
    ensures Join(Split(s), "\n") == s
    decreases |s|
  {
    var i := NextNewline(s, 0);
    if i < |s| {
      var rest := s[i + 1..];
      JoinSplit(rest);
      assert Split(s) == [s[..i]] + Split(rest);
      assert Join(Split(s), "\n") == s[..i] + "\n" + Join(Split(rest), "\n");
      assert s == s[..i] + "\n" + rest;
    }
  }

  /** A line with no newline splits into itself. */
  lemma SplitOfLine(line: string)
    requires '\n' !in line
    ensures Split(line) == [line]
  {
    assert NextNewline(line, 0) == |line|;
  }

  /** The first newline is the one with none before it. */
  lemma NextNewlineIs(s: string, j: nat)
    requires j < |s| && s[j] == '\n'
    requires forall k :: 0 <= k < j ==> s[k] != '\n'
    ensures NextNewline(s, 0) == j
  {
  }

  /** Splitting at a newline splits the two sides separately. */
  lemma {:induction false} SplitAppend(a: string, b: string)
    ensures Split(a + "\n" + b) == Split(a) + Split(b)
    decreases |a|
  {
    var s := a + "\n" + b;
    var i := NextNewline(a, 0);
    assert forall k :: 0 <= k < |a| ==> s[k] == a[k];
    NextNewlineIs(s, i);
    if i == |a| {
      calc {
        Split(s);
        [s[..i]] + Split(s[i + 1..]);
        { assert s[..i] == a; assert s[i + 1..] == b; }
        [a] + Split(b);
      }
    } else {
      calc {
        Split(s);
        [s[..i]] + Split(s[i + 1..]);
        { assert s[..i] == a[..i]; assert s[i + 1..] == a[i + 1..] + "\n" + b; }
        [a[..i]] + Split(a[i + 1..] + "\n" + b);
        { SplitAppend(a[i + 1..], b); }
        [a[..i]] + (Split(a[i + 1..]) + Split(b));
        ([a[..i]] + Split(a[i + 1..])) + Split(b);
        Split(a) + Split(b);
      }
    }
  }

  /** Splitting a newline-join of newline-free pieces gives back the pieces. */
  lemma {:induction false} SplitJoin(pieces: seq<string>)
    requires pieces != []
    requires NoNewlines(pieces)
    ensures Split(Join(pieces, "\n")) == pieces
  {
    if |pieces| == 1 {
      SplitOfLine(pieces[0]);
    } else {
      SplitJoin(pieces[1..]);
      SplitOfLine(pieces[0]);
      SplitAppend(pieces[0], Join(pieces[1..], "\n"));
      assert pieces == [pieces[0]] + pieces[1..];
    }
  }

  /** No piece contains a newline. */
  predicate NoNewlines(pieces: seq<string>) {
    forall i :: 0 <= i < |pieces| ==> '\n' !in pieces[i]
  }

  /** A chunk as `chunk_text` returns it: non-empty, with a non-space at
      both ends (`IsChunkIff`: a non-empty string that is its own strip). */
  predicate IsChunk(c: string) {
    c != "" && !IsSpace(c[0]) && !IsSpace(c[|c| - 1])
  }

  lemma IsChunkIff(c: string)
    ensures IsChunk(c) <==> c != "" && Strip(c) == c
  {
    if IsChunk(c) {
      StripOfTrimmed(c);
    }
  }

  /** The comprehension of `chunk_text`: the stripped forms of the pieces
      that are not blank, in order.  Every piece kept is a chunk. */
  function KeepNonBlank(pieces: seq<string>): (r: seq<string>)
    ensures |r| <= |pieces|
    ensures forall i :: 0 <= i < |r| ==> IsChunk(r[i])
  {
    if pieces == [] then []
    else
      var rest := KeepNonBlank(pieces[1..]);
      var p := Strip(pieces[0]);
      if p == "" then rest else [p] + rest
  }

  /** Stripping adds no newline: when no piece has one, no kept piece has. */
  lemma {:induction false} KeepNonBlankNoNewlines(pieces: seq<string>)
    requires NoNewlines(pieces)
    ensures NoNewlines(KeepNonBlank(pieces))
  {
    if pieces != [] {
      var tail := pieces[1..];
      assert forall i :: 0 <= i < |tail| ==> tail[i] == pieces[i + 1];
      KeepNonBlankNoNewlines(tail);
      var rest := KeepNonBlank(tail);
      var p := Strip(pieces[0]);
      StripNoNewline(pieces[0]);
      if p != "" {
        var r := [p] + rest;
        assert forall i :: 1 <= i < |r| ==> r[i] == rest[i - 1];
      }
    }
  }

  /** Chunking keeps order: the chunks of a concatenation are the chunks of
      each part, one after the other. */
  lemma {:induction false} KeepNonBlankAppend(a: seq<string>, b: seq<string>)
    ensures KeepNonBlank(a + b) == KeepNonBlank(a) + KeepNonBlank(b)
  {
    if a == [] {
      assert a + b == b;
    } else {
      assert (a + b)[0] == a[0];
      assert (a + b)[1..] == a[1..] + b;
      KeepNonBlankAppend(a[1..], b);
    }
  }

  /** Pieces that are already non-empty and stripped are all kept, unchanged. */
  lemma {:induction false} KeepNonBlankOfChunks(chunks: seq<string>)
    requires forall i :: 0 <= i < |chunks| ==> IsChunk(chunks[i])
    ensures KeepNonBlank(chunks) == chunks
  {
    if chunks != [] {
      var tail := chunks[1..];
      forall i | 0 <= i < |tail| ensures IsChunk(tail[i]) {
        assert tail[i] == chunks[i + 1];
      }
      KeepNonBlankOfChunks(tail);
      StripOfTrimmed(chunks[0]);
      calc {
        KeepNonBlank(chunks);
        [Strip(chunks[0])] + KeepNonBlank(tail);
        [chunks[0]] + tail;
        chunks;
      }
    }
  }

  /** Nothing is kept exactly when every piece is blank. */
  lemma {:induction false} KeepNonBlankEmpty(pieces: seq<string>)
    ensures KeepNonBlank(pieces) == [] <==> forall i :: 0 <= i < |pieces| ==> Blank(pieces[i])
  {
    if pieces != [] {
      KeepNonBlankEmpty(pieces[1..]);
      assert forall i :: 1 <= i < |pieces| ==> pieces[i] == pieces[1..][i - 1];
    }
  }

  /** `chunk_text`: split on '\n', strip every piece and drop those left empty.
      Every chunk is non-empty, carries no surrounding whitespace and no
      newline, and there are at most one more chunks than newlines. */
  function ChunkText(text: string): (chunks: seq<string>)
    ensures |chunks| <= Count(text, '\n') + 1
    ensures forall i :: 0 <= i < |chunks| ==> IsChunk(chunks[i])
    ensures NoNewlines(chunks)
  {
    SplitCount(text);
    KeepNonBlankNoNewlines(Split(text));
    KeepNonBlank(Split(text))
  }

  /** Order: chunking two texts joined by a newline gives the chunks of the
      first followed by the chunks of the second. */
  lemma ChunkTextAppend(a: string, b: string)
    ensures ChunkText(a + "\n" + b) == ChunkText(a) + ChunkText(b)
  {
    SplitAppend(a, b);
    KeepNonBlankAppend(Split(a), Split(b));
  }

  /** A single line yields its stripped form, or nothing when it is blank. */
  lemma ChunkTextOfLine(line: string)
    requires '\n' !in line
    ensures ChunkText(line) == if Blank(line) then [] else [Strip(line)]
  {
    SplitOfLine(line);
  }

  /** Empty or whitespace-only text, and only such text, yields no chunk. */
  lemma ChunkTextEmpty(text: string)
    ensures ChunkText(text) == [] <==> Blank(text)
  {
    var pieces := Split(text);
    KeepNonBlankEmpty(pieces);
    JoinSplit(text);
    JoinBlank(pieces, "\n");
  }

  /** A join with a whitespace separator is blank exactly when every part is. */
  lemma {:induction false} JoinBlank(parts: seq<string>, sep: string)
    requires Blank(sep)
    ensures Blank(Join(parts, sep)) <==> forall i :: 0 <= i < |parts| ==> Blank(parts[i])
  {
    if |parts| > 1 {
      JoinBlank(parts[1..], sep);
      var rest := Join(parts[1..], sep);
      var whole := parts[0] + sep + rest;
      assert forall k :: 0 <= k < |parts[0]| ==> whole[k] == parts[0][k];
      assert forall k :: 0 <= k < |rest| ==> whole[|parts[0]| + |sep| + k] == rest[k];
      assert forall k :: 0 <= k < |sep| ==> whole[|parts[0]| + k] == sep[k];
      assert forall i :: 1 <= i < |parts| ==> parts[i] == parts[1..][i - 1];
      if forall i :: 0 <= i < |parts| ==> Blank(parts[i]) {
        forall k | 0 <= k < |whole| ensures IsSpace(whole[k]) {
          if k < |parts[0]| {
          } else if k < |parts[0]| + |sep| {
            assert whole[k] == sep[k - |parts[0]|];
          } else {
            assert whole[k] == rest[k - |parts[0]| - |sep|];
          }
        }
      }
    }
  }

  /** Re-joining the chunks with newlines and chunking again changes nothing. */
  lemma ChunkTextRejoin(text: string)
    ensures ChunkText(Join(ChunkText(text), "\n")) == ChunkText(text)
  {
    var chunks := ChunkText(text);
    if chunks == [] {
      assert Split("") == [""];
    } else {
      SplitJoin(chunks);
      KeepNonBlankOfChunks(chunks);
    }
  }

  /** Two paragraphs separated by a blank line give exactly the two
      paragraphs. */
  lemma ChunkTextBlankLineSeparated(a: string, b: string)
    requires IsChunk(a) && IsChunk(b)
    requires '\n' !in a && '\n' !in b
    ensures ChunkText(a + "\n\n" + b) == [a, b]
  {
    var rest := "\n" + b;
    assert rest == "" + "\n" + b;
    assert !Blank(a) by { assert !IsSpace(a[0]); }
    assert !Blank(b) by { assert !IsSpace(b[0]); }
    calc {
      ChunkText(a + "\n\n" + b);
      { assert a + "\n\n" + b == a + "\n" + rest; }
      ChunkText(a + "\n" + rest);
      { ChunkTextAppend(a, rest); }
      ChunkText(a) + ChunkText(rest);
      { ChunkTextAppend("", b); }
      ChunkText(a) + (ChunkText("") + ChunkText(b));
      { ChunkTextOfLine(""); ChunkTextOfLine(a); ChunkTextOfLine(b); StripOfTrimmed(a); StripOfTrimmed(b); }
      [a] + ([] + [b]);
    }
  }

  /** `read_docx` with the document reading left out: the paragraph texts
      joined by newlines. */
  function ReadDocx(paragraphs: seq<string>): string {
    Join(paragraphs, "\n")
  }

  /** The chunks of a document are the chunks of its paragraphs, one
      paragraph after the other. */
  lemma {:induction false} ChunkTextOfDocument(paragraphs: seq<string>)
    ensures ChunkText(ReadDocx(paragraphs)) == ChunksOfEach(paragraphs)
  {
    if paragraphs == [] {
      assert Split("") == [""];
    } else if |paragraphs| > 1 {
      ChunkTextOfDocument(paragraphs[1..]);
      ChunkTextAppend(paragraphs[0], ReadDocx(paragraphs[1..]));
    }
  }

  /** The chunks of every paragraph on its own, concatenated in order. */
  function ChunksOfEach(paragraphs: seq<string>): seq<string> {
    if paragraphs == [] then [] else ChunkText(paragraphs[0]) + ChunksOfEach(paragraphs[1..])
  }

  /** For paragraphs without line breaks, the chunks of the document are the
      stripped non-blank paragraphs, in order. */
  lemma {:induction false} ChunkTextOfParagraphs(paragraphs: seq<string>)
    requires NoNewlines(paragraphs)
    ensures ChunkText(ReadDocx(paragraphs)) == KeepNonBlank(paragraphs)
  {
    ChunkTextOfDocument(paragraphs);
    ChunksOfLines(paragraphs);
  }

  lemma {:induction false} ChunksOfLines(lines: seq<string>)
    requires NoNewlines(lines)
    ensures ChunksOfEach(lines) == KeepNonBlank(lines)
  {
    if lines != [] {
      var tail := lines[1..];
      assert forall i :: 0 <= i < |tail| ==> tail[i] == lines[i + 1];
      SplitOfLine(lines[0]);
      ChunksOfLines(tail);
      assert lines == [lines[0]] + tail;
      KeepNonBlankAppend([lines[0]], tail);
    }
  }
}
