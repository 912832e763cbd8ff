# Manifest `Main-Class` resolution and `StringWriter`, in Dafny

This project models two pieces of the Harmony sandbox and proves properties of
them.

**`manifest_get_main`** (module `Manifest`, file `manifest.dfy`) is the boot
JVM's routine that finds the entry point of an executable JAR. It reads the
manifest line by line. It skips every line that does not start, at column 0,
with the attribute name `Main-Class:`. On the first line that does, it skips
the white space after the name, takes the following run of non-white
characters as the class name and returns a fresh NUL-terminated copy of it.
There are three outcomes:

- `Absent`: the file cannot be opened, or no line starts with the name.
- `Found(name)`: a class name follows the attribute name.
- `Malformed`: only white space follows it. The routine reports a
  diagnostic and ends the process with `EXIT_MANIFEST_JAR`.

The functions `Resolve` and `MainClass` state the expected outcome.
`ManifestGetMain` follows the routine's `while` loop and its two `for` loops
and is proved equal to them. Ghost counters record that the manifest is
closed and the line buffer freed exactly once on every path. `C`-string
semantics come in through `CString`: `strlen` and `strncmp` stop at the first
NUL, so a chunk holding a NUL is handled as the C code would handle it.

Module `LineReader` (file `line_reader.dfy`) gives the chunks the routine
sees. They are what `fgets(mnfdata, JVMCFG_STDIO_BFR, mf)` returns: at most
`JVMCFG_STDIO_BFR - 1` characters, ending after a newline. The buffer size is
a parameter. When every line fits, the chunks are the lines. A longer line is
cut, and the routine then sees its tail as a line of its own. What that does
depends on where the cut falls:

- inside the class name: the routine returns the name cut at the end of the
  chunk (`LongLineIsSplit`, `CutLineGivesCutName`);
- inside the white space after `Main-Class:`: the first chunk holds no name,
  and the routine ends with the fatal manifest error (`PaddingIsSplit`,
  `CutInPaddingIsMalformed`);
- right before the text `Main-Class:` in another attribute's long line: the
  tail chunk starts with the attribute name and the routine takes its class
  name from there (`OtherLineIsSplit`, `TailChunkIsMatched`).

**`java.io.StringWriter`** (module `JavaIo`, file `string_writer.dfy`) is a
character sink whose state is one `StringBuffer`. The class keeps that buffer
as a `const` field, so `getBuffer()` provably returns the writer's own
buffer. Every `write` overload appends to it. An out-of-range write throws
and leaves the contents unchanged. Java `int` is the subset type `Int32` with
explicit wrap-around (`Wrap32`). Java `char` is `JChar`, a 16-bit code unit,
because Dafny's `char` excludes surrogates. Exceptions are `Status` and
`Result` values.

Where the Javadoc and the code disagree, the model follows the code.
`write(String, int, int)` is documented to throw
`ArrayIndexOutOfBoundsException`. The code lets `String.substring` reject the
range, and that method throws `StringIndexOutOfBoundsException`, so the model
reports that exception.

## Model

| member | source | states |
|---|---|---|
| `Manifest.ManifestGetMain` | sandbox/contribs/bootjvm/bootJVM/jvm/src/manifest.c:90-186 | the outcome is `MainClass(file)`; a heap copy is returned exactly on `Found`, fresh, holding the name followed by one NUL; when the file was opened it is closed once and the line buffer freed once, on every path, and neither happens when it could not be opened |
| `Manifest.SkipWhiteSpace` | sandbox/contribs/bootjvm/bootJVM/jvm/src/manifest.c:123-131 | the start index `i` satisfies `mclen <= i <= len`, every character in `[mclen, i)` is white space, and `i == len` or `line[i]` is not white space |
| `Manifest.FindTokenEnd` | sandbox/contribs/bootjvm/bootJVM/jvm/src/manifest.c:140-148 | the end index `j` satisfies `i <= j <= len`, no character in `[i, j)` is white space, and `j == len` or `line[j]` is white space |
| `Manifest.CopyValue` | sandbox/contribs/bootjvm/bootJVM/jvm/src/manifest.c:155-174 | the result is a fresh array of exactly `j - i + 1` characters holding `line[i..j)` followed by a NUL at index `j - i` |
| `Manifest.StartsWithAttr` | sandbox/contribs/bootjvm/bootJVM/jvm/src/manifest.c:101-115 | `strncmp(line, "Main-Class:", mclen) == 0` with `mclen` the length of the attribute name: the C string's first `mclen` characters are exactly the attribute name |
| `Manifest.Matches` | sandbox/contribs/bootjvm/bootJVM/jvm/src/manifest.c:110-115 | the chunk in the line buffer is acted on exactly when its C string starts with the attribute name |
| `Manifest.ExtractValue` | sandbox/contribs/bootjvm/bootJVM/jvm/src/manifest.c:123-177 | a matching line decides the outcome and is never `Absent`: `Malformed` when the two scans end at the same index, otherwise the characters between them |
| `Manifest.Resolve` | sandbox/contribs/bootjvm/bootJVM/jvm/src/manifest.c:104-184 | the chunks are examined in file order; the first matching one decides, and without one the result is `Absent` |
| `Manifest.MainClass` | sandbox/contribs/bootjvm/bootJVM/jvm/src/manifest.c:92-184 | a file that cannot be opened gives `Absent`; otherwise the outcome is that of its chunks |
| `Manifest.SkipSpaces` | sandbox/contribs/bootjvm/bootJVM/jvm/src/manifest.c:123-131 | the specification of the first scan: its result ends the white-space run after the attribute name, as above |
| `Manifest.TokenEnd` | sandbox/contribs/bootjvm/bootJVM/jvm/src/manifest.c:140-148 | the specification of the second scan: its result ends the non-white run, as above |
| `Manifest.SpaceRunUnique` | sandbox/contribs/bootjvm/bootJVM/jvm/src/manifest.c:123-131 | the end of a white-space run is determined by where the run starts, so the scan and its specification agree |
| `Manifest.TokenRunUnique` | sandbox/contribs/bootjvm/bootJVM/jvm/src/manifest.c:140-148 | the end of a token is determined by where it starts |
| `Manifest.CString` | sandbox/contribs/bootjvm/bootJVM/jvm/src/manifest.c:124 | the C string of a buffer, what `strlen` measures, is a prefix of it without NUL, followed in the buffer by a NUL if it is shorter |
| `Manifest.CStringOfNulFree` | sandbox/contribs/bootjvm/bootJVM/jvm/src/manifest.c:124 | a chunk without NUL is its own C string |
| `Manifest.CStringOfConcat` | sandbox/contribs/bootjvm/bootJVM/jvm/src/manifest.c:124 | NUL-free leading characters of a buffer belong to its C string |
| `Manifest.MatchIgnoresNul` | sandbox/contribs/bootjvm/bootJVM/jvm/src/manifest.c:110-115 | the `strncmp` test on the C string holds exactly when the chunk's first eleven characters are `Main-Class:`, case-sensitively and at column 0 |
| `Manifest.MalformedIffBlank` | sandbox/contribs/bootjvm/bootJVM/jvm/src/manifest.c:155-171 | a matching line gives the fatal manifest error exactly when nothing but white space follows the attribute name, and never gives `Absent` |
| `Manifest.FoundIsFirstToken` | sandbox/contribs/bootjvm/bootJVM/jvm/src/manifest.c:123-177 | with `i` and `j` characterised as the two scans end, a matching line gives `Malformed` when `i == j` and `Found(line[i..j))` otherwise |
| `Manifest.FoundNameIsToken` | sandbox/contribs/bootjvm/bootJVM/jvm/src/manifest.c:155-177 | a returned class name is non-empty and contains no white space |
| `Manifest.FirstMatchDecides` | sandbox/contribs/bootjvm/bootJVM/jvm/src/manifest.c:104-178 | the first matching chunk decides the outcome |
| `Manifest.AbsentIffNoMatch` | sandbox/contribs/bootjvm/bootJVM/jvm/src/manifest.c:104-184 | resolution is `Absent` exactly when no chunk matches, the empty file included |
| `Manifest.LaterChunksIgnored` | sandbox/contribs/bootjvm/bootJVM/jvm/src/manifest.c:104-178 | chunks after a matching one have no effect on the outcome |
| `Manifest.NonMatchingPrefixIgnored` | sandbox/contribs/bootjvm/bootJVM/jvm/src/manifest.c:110-115 | chunks that do not match can be put in front of a manifest without changing its outcome |
| `Manifest.NoFileNoEntryPoint` | sandbox/contribs/bootjvm/bootJVM/jvm/src/manifest.c:92-97 | a manifest that cannot be opened, and an empty one, give `Absent` |
| `Manifest.NameBetweenSpaces` | sandbox/contribs/bootjvm/bootJVM/jvm/src/manifest.c:123-177 | a line `Main-Class:`, any white space, a non-empty name without white space, then white space or the end of the line resolves to exactly that name |
| `Manifest.SurroundingSpaceExcluded` | sandbox/contribs/bootjvm/bootJVM/jvm/src/manifest.c:123-177 | `Main-Class:   com.acme.Main   \n` gives exactly `com.acme.Main` |
| `Manifest.FirstAttributeLineWins` | sandbox/contribs/bootjvm/bootJVM/jvm/src/manifest.c:104-178 | with `Main-Class: A` before `Main-Class: B`, the result is `A` |
| `Manifest.EmptyValueIsMalformed` | sandbox/contribs/bootjvm/bootJVM/jvm/src/manifest.c:161-171 | `Main-Class: \t\n` is the fatal manifest error |
| `Manifest.AttributeMustStartLine` | sandbox/contribs/bootjvm/bootJVM/jvm/src/manifest.c:110-115 | a lower-case attribute name and an indented one are both skipped |
| `LineReader.ChunkLen` | sandbox/contribs/bootjvm/bootJVM/jvm/src/manifest.c:104 | one `fgets` call takes between 1 and `JVMCFG_STDIO_BFR - 1` characters and stops right after the first newline |
| `LineReader.Chunks` | sandbox/contribs/bootjvm/bootJVM/jvm/src/manifest.c:104 | the successive contents of the line buffer that repeated `fgets(mnfdata, JVMCFG_STDIO_BFR, mf)` calls produce, until end of file |
| `LineReader.ChunksConcat` | sandbox/contribs/bootjvm/bootJVM/jvm/src/manifest.c:104 | the chunks read put back together are the file's text |
| `LineReader.ChunksBounded` | sandbox/contribs/bootjvm/bootJVM/jvm/src/manifest.c:104 | every chunk is non-empty, fits the buffer and holds a newline at most as its last character |
| `LineReader.FittingLinesAreChunks` | sandbox/contribs/bootjvm/bootJVM/jvm/src/manifest.c:104 | when every line fits the buffer, the chunks are exactly the lines |
| `LineReader.ChunkLenOfLine` | sandbox/contribs/bootjvm/bootJVM/jvm/src/manifest.c:104 | `fgets` takes a whole line that fits the buffer |
| `LineReader.LongLineIsSplit` | sandbox/contribs/bootjvm/bootJVM/jvm/src/manifest.c:104 | with a 16-character buffer, `Main-Class: abcdef\n` is read as `Main-Class: abc` and `def\n` |
| `LineReader.CutLineGivesCutName` | sandbox/contribs/bootjvm/bootJVM/jvm/src/manifest.c:140-149 | those chunks resolve to the class name `abc`: the end of a cut chunk ends the name as white space would |
| `LineReader.PaddingIsSplit` | sandbox/contribs/bootjvm/bootJVM/jvm/src/manifest.c:104 | with a 16-character buffer, `Main-Class:     abc\n` is read as `Main-Class:` plus four spaces, then ` abc\n` |
| `LineReader.CutInPaddingIsMalformed` | sandbox/contribs/bootjvm/bootJVM/jvm/src/manifest.c:123-169 | those chunks give the fatal manifest error, although the line names a class |
| `LineReader.ChunksOfCut` | sandbox/contribs/bootjvm/bootJVM/jvm/src/manifest.c:104 | `size - 1` characters without a newline form a chunk of their own, whatever follows them |
| `LineReader.ChunksOfLine` | sandbox/contribs/bootjvm/bootJVM/jvm/src/manifest.c:104 | a last line that fits the buffer is read as one chunk |
| `LineReader.OtherLineIsSplit` | sandbox/contribs/bootjvm/bootJVM/jvm/src/manifest.c:104 | with a 16-character buffer, `X-Attr: abcdefgMain-Class: E\n` is read as `X-Attr: abcdefg` and `Main-Class: E\n` |
| `LineReader.TailChunkIsMatched` | sandbox/contribs/bootjvm/bootJVM/jvm/src/manifest.c:104-177 | those chunks resolve to `E`: the tail of another attribute's cut line is matched as if it started a line |
| `JavaIo.Wrap32` | sandbox/contribs/ibm_core/java-src/luni/src/java/io/StringWriter.java:172 | Java `int` arithmetic: the result is the exact value modulo 2^32, and the exact value when it fits |
| `JavaIo.NarrowToChar` | sandbox/contribs/ibm_core/java-src/luni/src/java/io/StringWriter.java:136-140 | `(char) oneChar` is the code unit congruent to `oneChar` modulo 2^16, that is its low sixteen bits |
| `JavaIo.ArrayRangeGuard` | sandbox/contribs/ibm_core/java-src/luni/src/java/io/StringWriter.java:116-118 | the bounds test of `write(char[], int, int)` as written, with `cbuf.length - offset` in `int` arithmetic |
| `JavaIo.SumGuard` | sandbox/contribs/ibm_core/java-src/luni/src/java/io/StringWriter.java:116-118 | the additive test `offset + count <= cbuf.length` in `int` arithmetic, which the comment `avoid int overflow` steers clear of |
| `JavaIo.ArrayRangeGuardExact` | sandbox/contribs/ibm_core/java-src/luni/src/java/io/StringWriter.java:115-118 | the overflow-safe test passes exactly when `0 <= offset`, `0 <= count` and `offset + count <= cbuf.length` |
| `JavaIo.SumGuardWouldOverflow` | sandbox/contribs/ibm_core/java-src/luni/src/java/io/StringWriter.java:116-118 | `1 + Integer.MAX_VALUE` wraps to a negative value, so the additive test accepts `offset = 1`, `count = Integer.MAX_VALUE` on an empty array although that range is not inside it |
| `JavaIo.SubstringRangeExact` | sandbox/contribs/ibm_core/java-src/luni/src/java/io/StringWriter.java:171-172 | `str.substring(offset, offset + count)` in `int` arithmetic succeeds exactly for the in-range `offset` and `count`, and then yields `str[offset..offset + count)` |
| `JavaIo.StringWriter.constructor` | sandbox/contribs/ibm_core/java-src/luni/src/java/io/StringWriter.java:34-38 | a new writer has a fresh buffer of its own and empty contents |
| `JavaIo.StringWriter.WithInitialSize` | sandbox/contribs/ibm_core/java-src/luni/src/java/io/StringWriter.java:48-54 | a negative size throws `IllegalArgumentException`; any other gives a fresh writer with empty contents |
| `JavaIo.StringWriter.Close` | sandbox/contribs/ibm_core/java-src/luni/src/java/io/StringWriter.java:63-65 | the contents are unchanged |
| `JavaIo.StringWriter.Flush` | sandbox/contribs/ibm_core/java-src/luni/src/java/io/StringWriter.java:71-73 | the contents are unchanged |
| `JavaIo.StringWriter.GetBuffer` | sandbox/contribs/ibm_core/java-src/luni/src/java/io/StringWriter.java:82-86 | the result is the writer's own buffer object, not a copy |
| `JavaIo.StringWriter.ToString` | sandbox/contribs/ibm_core/java-src/luni/src/java/io/StringWriter.java:95-99 | the result is the current contents |
| `JavaIo.StringWriter.WriteChars` | sandbox/contribs/ibm_core/java-src/luni/src/java/io/StringWriter.java:115-125 | succeeds exactly when the range lies in `cbuf` and then appends `cbuf[offset..offset + count)`; otherwise throws `ArrayIndexOutOfBoundsException` and the contents are unchanged |
| `JavaIo.StringWriter.WriteChar` | sandbox/contribs/ibm_core/java-src/luni/src/java/io/StringWriter.java:136-140 | appends exactly one character, the low sixteen bits of `oneChar` |
| `JavaIo.StringWriter.WriteString` | sandbox/contribs/ibm_core/java-src/luni/src/java/io/StringWriter.java:150-154 | the new contents are the old contents followed by `str` |
| `JavaIo.StringWriter.WriteSubstring` | sandbox/contribs/ibm_core/java-src/luni/src/java/io/StringWriter.java:171-176 | succeeds exactly when the range lies in `str` and then appends `str[offset..offset + count)`; otherwise throws `StringIndexOutOfBoundsException` before the buffer is touched, so the contents are unchanged |

## Left out

- File I/O: `fopen` failing is the `Unreadable` case. The chunks `fgets` returns are given, or built by `LineReader.Chunks`. `fclose` is a ghost counter.
- The heap allocator: the line buffer `mnfdata` is not modelled as memory. Its `HEAP_FREE_DATA` is a ghost counter. The result copy is a fresh Dafny array.
- Allocation failure of either `HEAP_GET_DATA` call: an environment failure outside the routine's logic.
- `sysErrMsg` and `exit_jvm`: the diagnostic text and the exit status `EXIT_MANIFEST_JAR` become the `Malformed` outcome.
- `isspace` for other locales: `IsSpace` is the C-locale set. Passing a negative `char` to `isspace` is undefined in C; the model treats characters as non-negative.
- Manifest continuation lines and every attribute other than `Main-Class`: the routine does not support them.
- `jvmcfg.h` is not part of this model. The attribute name `Main-Class:` is the one the routine's comment shows. `JVMCFG_STDIO_BFR` is the parameter `size` of `LineReader.Chunks`, assumed to be at least 2.
- `synchronized (lock)` and the `lock` field: the model is sequential.
- The `Writer` base class, and `StringBuffer` beyond its characters.
- `java.lang.String` and `java.lang.StringBuffer` are not part of this model. `JavaIo.Substring` and `JavaIo.StringBuffer.Append` stand in for `substring` and `append` and state only what `StringWriter` relies on: the slice or `StringIndexOutOfBoundsException`, and appending at the end.
- JavaIo.StringWriter.constructor: the initial capacity of 16 is not kept, because `StringBuffer` capacity is not modelled.
- JavaIo.StringWriter.WithInitialSize: the initial capacity is not kept, for the same reason.
- `null` arguments to the `write` overloads: Java throws `NullPointerException` or appends `"null"` inside `StringBuffer`. Neither is modelled; the arguments are non-null.
- Aliasing through `getBuffer()` beyond the identity of the returned buffer.
