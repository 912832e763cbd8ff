/**
 * How the manifest text reaches `manifest_get_main`: the loop of the routine
 * calls `fgets(mnfdata, JVMCFG_STDIO_BFR, mf)`, which stores at most
 * `JVMCFG_STDIO_BFR - 1` characters and stops after a newline.  `Chunks`
 * splits a file's text the same way; the buffer size is a parameter because
 * its value belongs to the JVM configuration.
 */
module LineReader {
  import opened Manifest

  /** The number of characters one `fgets` call takes from `text` when it
      may store at most `limit` of them. */
  function ChunkLen(text: string, limit: nat): (n: nat)
    requires limit >= 1 && text != []
    ensures 1 <= n <= limit && n <= |text|
    ensures forall t :: 0 <= t < n - 1 ==> text[t] != '\n'
    ensures n == |text| || n == limit || text[n - 1] == '\n'
  {
    if text[0] == '\n' || limit == 1 || |text| == 1 then 1
    else 1 + ChunkLen(text[1..], limit - 1)
  }

  /** The successive chunks `fgets` yields for a file holding `text`, with a
      buffer of `size` characters (one of them for the NUL). */
  function Chunks(text: string, size: nat): seq<string>
    requires size >= 2
    decreases |text|
  {
    if text == [] then []
    else
      var n := ChunkLen(text, size - 1);
      [text[..n]] + Chunks(text[n..], size)
  }

  /** The characters of a sequence of chunks, in order. */
  function Concat(chunks: seq<string>): string
  {
    if chunks == [] then [] else chunks[0] + Concat(chunks[1..])
  }

  /** A physical line of at most `size - 1` characters ending in its newline. */
  ghost predicate FitsBuffer(line: string, size: nat)
  {
    && 1 <= |line| <= size - 1
    && line[|line| - 1] == '\n'
    && forall t :: 0 <= t < |line| - 1 ==> line[t] != '\n'
  }

  /** Reading loses and reorders nothing: the chunks put back together are
      the text. */
  lemma {:induction false} ChunksConcat(text: string, size: nat)
    requires size >= 2
    ensures Concat(Chunks(text, size)) == text
    decreases |text|
  {
    if text != [] {
      var n := ChunkLen(text, size - 1);
      var rest := Chunks(text[n..], size);
      assert Chunks(text, size) == [text[..n]] + rest;
      assert ([text[..n]] + rest)[1..] == rest;
      ChunksConcat(text[n..], size);
      assert text[..n] + text[n..] == text;
    }
  }

  /** Every chunk is non-empty, fits the buffer, and holds a newline at most
      as its last character. */
  lemma {:induction false} ChunksBounded(text: string, size: nat, k: nat)
    requires size >= 2
    requires k < |Chunks(text, size)|
    ensures 1 <= |Chunks(text, size)[k]| <= size - 1
    ensures forall t :: 0 <= t < |Chunks(text, size)[k]| - 1 ==> Chunks(text, size)[k][t] != '\n'
    decreases |text|
  {
    var n := ChunkLen(text, size - 1);
    if k > 0 {
      ChunksBounded(text[n..], size, k - 1);
    }
  }

  /** When every line fits the buffer, the chunks are exactly the lines. */
  lemma {:induction false} FittingLinesAreChunks(lines: seq<string>, size: nat)
    requires size >= 2
    requires forall k :: 0 <= k < |lines| ==> FitsBuffer(lines[k], size)
    ensures Chunks(Concat(lines), size) == lines
  {
    if lines != [] {
      var line, text := lines[0], Concat(lines);
      assert text[..|line|] == line;
      ChunkLenOfLine(text, line, size);
      assert text[|line|..] == Concat(lines[1..]);
      FittingLinesAreChunks(lines[1..], size);
    }
  }

  /** `fgets` takes a whole fitting line. */
  lemma {:induction false} ChunkLenOfLine(text: string, line: string, size: nat)
    requires size >= 2 && FitsBuffer(line, size)
    requires |line| <= |text| && text[..|line|] == line
    ensures ChunkLen(text, size - 1) == |line|
  {
  }

  /** A line longer than the buffer reaches the routine in pieces: with a
      16-character buffer, `Main-Class: abcdef` is read as the chunks
      `Main-Class: abc` and `def`, newline included. */
  lemma LongLineIsSplit(text: string)
    requires text == "Main-Class: abcdef\n"
    ensures Chunks(text, 16) == ["Main-Class: abc", "def\n"]
  {
    var first, rest := text[..15], text[15..];
    assert ChunkLen(text, 15) == 15;
    assert ChunkLen(rest, 15) == 4;
    assert rest[..4] == rest && rest[4..] == [];
    assert Chunks(text, 16) == [first] + Chunks(rest, 16);
    assert Chunks(rest, 16) == [rest] + Chunks([], 16);
    assert first == "Main-Class: abc" && rest == "def\n";
  }

  /** ... and the class name the routine returns is the cut-off `abc`: the end
      of the chunk ends the name as white space would. */
  lemma CutLineGivesCutName(first: string, rest: string)
    requires first == "Main-Class: abc" && rest == "def\n"
    ensures MainClass(Readable([first, rest])) == Found("abc")
  {
    CStringOfNulFree(first);
    assert Matches(first);
    assert SpaceRunEnds(first, AttrLen, 12) && TokenRunEnds(first, 12, 15);
    FoundIsFirstToken(first, 12, 15);
    assert first[12..15] == "abc";
  }

  /** A cut can fall inside the white space after the attribute name: with
      a 16-character buffer, `Main-Class:     abc` is read as `Main-Class:`
      followed by four spaces, and then ` abc`. */
  lemma PaddingIsSplit(text: string)
    requires text == "Main-Class:     abc\n"
    ensures Chunks(text, 16) == ["Main-Class:    ", " abc\n"]
  {
    var first, rest := text[..15], text[15..];
    assert ChunkLen(text, 15) == 15;
    assert ChunkLen(rest, 15) == 5;
    assert rest[..5] == rest && rest[5..] == [];
    assert Chunks(text, 16) == [first] + Chunks(rest, 16);
    assert Chunks(rest, 16) == [rest] + Chunks([], 16);
    assert first == "Main-Class:    " && rest == " abc\n";
  }

  /** ... and then the first chunk holds no name, so the routine ends with
      the fatal manifest error although the line names a class. */
  lemma CutInPaddingIsMalformed(first: string, rest: string)
    requires first == "Main-Class:    " && rest == " abc\n"
    ensures MainClass(Readable([first, rest])) == Malformed
  {
    CStringOfNulFree(first);
    assert Matches(first);
    assert SpaceRunEnds(first, AttrLen, 15) && TokenRunEnds(first, 15, 15);
    FoundIsFirstToken(first, 15, 15);
  }

  /** A piece of `size - 1` characters without newline is a chunk of its
      own, whatever follows it. */
  lemma ChunksOfCut(a: string, b: string, size: nat)
    requires size >= 2 && |a| == size - 1 && b != []
    requires forall t :: 0 <= t < |a| ==> a[t] != '\n'
    ensures Chunks(a + b, size) == [a] + Chunks(b, size)
  {
    var text := a + b;
    assert forall t :: 0 <= t < |a| ==> text[t] == a[t];
    var n := ChunkLen(text, size - 1);
    assert n == size - 1;
    assert text[..n] == a && text[n..] == b;
  }

  /** A fitting last line is one chunk. */
  lemma ChunksOfLine(line: string, size: nat)
    requires size >= 2 && FitsBuffer(line, size)
    ensures Chunks(line, size) == [line]
  {
    ChunkLenOfLine(line, line, size);
    assert line[..|line|] == line && line[|line|..] == [];
  }

  /** A long line of another attribute can be cut right before the text
      `Main-Class:`: with a 16-character buffer, `X-Attr: abcdefgMain-Class: E`
      is read as `X-Attr: abcdefg` and `Main-Class: E`. */
  lemma OtherLineIsSplit(first: string, rest: string)
    requires first == "X-Attr: abcdefg" && rest == "Main-Class: E\n"
    ensures Chunks(first + rest, 16) == [first, rest]
  {
    assert forall t :: 0 <= t < |rest| - 1 ==> rest[t] != '\n';
    ChunksOfLine(rest, 16);
    assert forall t :: 0 <= t < |first| ==> first[t] != '\n';
    ChunksOfCut(first, rest, 16);
  }

  /** ... and the tail is examined as if it started a line: the routine takes
      its class name from the middle of another attribute's value. */
  lemma TailChunkIsMatched(first: string, rest: string)
    requires first == "X-Attr: abcdefg" && rest == "Main-Class: E\n"
    ensures MainClass(Readable([first, rest])) == Found("E")
  {
    MatchIgnoresNul(first);
    assert first[0] != MainClassAttr[0];
    assert !Matches(first);
    assert Resolve([first, rest]) == Resolve([rest]) by {
      assert [first, rest][1..] == [rest];
    }
    CStringOfNulFree(rest);
    assert Matches(rest);
    assert SpaceRunEnds(rest, AttrLen, 12) && TokenRunEnds(rest, 12, 13);
    FoundIsFirstToken(rest, 12, 13);
    assert rest[12..13] == "E";
  }
}
