/**
 * The JAR manifest `Main-Class` resolver of the boot JVM (manifest.c,
 * `manifest_get_main`).
 *
 * The manifest is given as the sequence of chunks that `fgets` would fill the
 * line buffer with (module LineReader builds such a sequence from the text of
 * a file).  The routine looks for the first chunk that starts, at column 0,
 * with the attribute name `Main-Class:`, skips the white space after it and
 * takes the following run of non-white characters as the class name.
 *
 * `Resolve` and `MainClass` state the expected outcome as functions;
 * `ManifestGetMain` follows the loops of the C routine and is proved equal to
 * them.  Terminating the process on an empty class name is the `Malformed`
 * outcome.
 */
module Manifest {

  /** The attribute name the routine looks for at the start of a line. */
  const MainClassAttr: string := "Main-Class:"

  /** The length of the attribute name, `mclen` in the routine. */
  const AttrLen: nat := |MainClassAttr|

  /** The C string terminator. */
  const Nul: char := '\0'

  /** A manifest file as the routine sees it: either it cannot be opened, or
      it yields the chunks `fgets` returns, in file order. */
  datatype ManifestFile = Unreadable | Readable(chunks: seq<string>)

  /** What resolution produces: no entry point, the class name, or the fatal
      manifest error (an attribute line without a class name). */
  datatype Outcome = Absent | Found(name: string) | Malformed

  /** `isspace` in the C locale: space, tab, newline, vertical tab, form feed
      and carriage return. */
  predicate IsSpace(c: char)
  {
    c == ' ' || c == '\t' || c == '\n' || c == '\U{000B}' || c == '\U{000C}' || c == '\r'
  }

  /** The C string held in a buffer: everything before the first NUL, which
      is what `strlen`, `strncmp` and the scans of the routine see. */
  function CString(buf: string): (s: string)
    ensures s <= buf
    ensures Nul !in s
    ensures |s| < |buf| ==> buf[|s|] == Nul
  {
    if buf == [] || buf[0] == Nul then [] else [buf[0]] + CString(buf[1..])
  }

  /** `strncmp(line, "Main-Class:", mclen) == 0`: the first eleven characters
      of the C string are the attribute name, exactly and at column 0. */
  predicate StartsWithAttr(s: string)
  {
    AttrLen <= |s| && s[..AttrLen] == MainClassAttr
  }

  /** The chunk is one the routine acts on. */
  predicate Matches(chunk: string)
  {
    StartsWithAttr(CString(chunk))
  }

  /** `i` ends the run of white space that starts at `from`: every character
      in `[from, i)` is white space and `i` is the end of `s` or a non-white
      character.  (The first `for` loop.) */
  ghost predicate SpaceRunEnds(s: string, from: nat, i: nat)
  {
    && from <= i <= |s|
    && (forall t :: from <= t < i ==> IsSpace(s[t]))
    && (i == |s| || !IsSpace(s[i]))
  }

  /** `j` ends the run of non-white characters that starts at `i`: no
      character in `[i, j)` is white space and `j` is the end of `s` or a
      white-space character.  (The second `for` loop.) */
  ghost predicate TokenRunEnds(s: string, i: nat, j: nat)
  {
    && i <= j <= |s|
    && (forall t :: i <= t < j ==> !IsSpace(s[t]))
    && (j == |s| || IsSpace(s[j]))
  }

  /** The index after the white space that starts at `from`. */
  function SkipSpaces(s: string, from: nat): (i: nat)
    requires from <= |s|
    ensures SpaceRunEnds(s, from, i)
    decreases |s| - from
  {
    if from == |s| || !IsSpace(s[from]) then from else SkipSpaces(s, from + 1)
  }

  /** The index after the non-white characters that start at `from`. */
  function TokenEnd(s: string, from: nat): (j: nat)
    requires from <= |s|
    ensures TokenRunEnds(s, from, j)
    decreases |s| - from
  {
    if from == |s| || IsSpace(s[from]) then from else TokenEnd(s, from + 1)
  }

  /** The outcome decided by a line that starts with the attribute name. */
  function ExtractValue(s: string): (o: Outcome)
    requires StartsWithAttr(s)
    ensures o != Absent
  {
    var i := SkipSpaces(s, AttrLen);
    var j := TokenEnd(s, i);
    if i == j then Malformed else Found(s[i..j])
  }

  /** The outcome of scanning `chunks` in order: the first matching chunk
      decides, and without one there is no entry point. */
  function Resolve(chunks: seq<string>): Outcome
  {
    if chunks == [] then Absent
    else if Matches(chunks[0]) then ExtractValue(CString(chunks[0]))
    else Resolve(chunks[1..])
  }

  /** The outcome of `manifest_get_main` for a manifest file. */
  function MainClass(file: ManifestFile): Outcome
  {
    match file
    case Unreadable => Absent
    case Readable(chunks) => Resolve(chunks)
  }

  // ---------------------------------------------------------------------
  // The routine, step by step.
  // ---------------------------------------------------------------------

  /** The first `for` loop: advance from `from` over white space. */
  method SkipWhiteSpace(s: string, from: nat) returns (i: nat)
    requires from <= |s|
    ensures SpaceRunEnds(s, from, i)
  {
    i := from;
    while i < |s|
      invariant from <= i <= |s|
      invariant forall t :: from <= t < i ==> IsSpace(s[t])
    {
      if !IsSpace(s[i]) {
        break;
      }
      i := i + 1;
    }
  }

  /** The second `for` loop: advance from `from` over non-white characters. */
  method FindTokenEnd(s: string, from: nat) returns (j: nat)
    requires from <= |s|
    ensures TokenRunEnds(s, from, j)
  {
    j := from;
    while j < |s|
      invariant from <= j <= |s|
      invariant forall t :: from <= t < j ==> !IsSpace(s[t])
    {
      if IsSpace(s[j]) {
        break;
      }
      j := j + 1;
    }
  }

  /** Allocate exactly `j - i + 1` characters, copy `s[i..j]` into them
      (`memcpy`) and store the terminating NUL. */
  method CopyValue(s: string, i: nat, j: nat) returns (buf: array<char>)
    requires i < j <= |s|
    ensures fresh(buf)
    ensures buf.Length == j - i + 1
    ensures buf[..j - i] == s[i..j]
    ensures buf[j - i] == Nul
  {
    buf := new char[j - i + 1];
    var k := 0;
    while k < j - i
      invariant 0 <= k <= j - i
      invariant buf[..k] == s[i..i + k]
    {
      buf[k] := s[i + k];
      k := k + 1;
    }
    buf[j - i] := Nul;
  }

  /** `manifest_get_main`.  `value` is the heap copy handed to the caller on
      success.  The ghost counters record the `fclose` of the manifest and the
      release of the line buffer: both happen exactly once whenever the file
      was opened, on every way out. */
  method ManifestGetMain(file: ManifestFile)
    returns (r: Outcome, value: array?<char>, ghost closes: nat, ghost frees: nat)
    ensures r == MainClass(file)
    ensures r.Found? <==> value != null
    ensures r.Found? ==> fresh(value) && value[..] == r.name + [Nul]
    ensures closes == frees == (if file.Readable? then 1 else 0)
  {
    value := null;
    closes, frees := 0, 0;
    if file.Unreadable? {
      return Absent, value, closes, frees;
    }
    var chunks := file.chunks;
    var k := 0;
    while k < |chunks|
      invariant 0 <= k <= |chunks|
      invariant Resolve(chunks) == Resolve(chunks[k..])
      invariant value == null && closes == 0 && frees == 0
    {
      var line := CString(chunks[k]);
      assert chunks[k..][1..] == chunks[k + 1..];
      k := k + 1;
      if !StartsWithAttr(line) {
        continue;
      }
      var i := SkipWhiteSpace(line, AttrLen);
      var j := FindTokenEnd(line, i);
      SpaceRunUnique(line, AttrLen, i, SkipSpaces(line, AttrLen));
      TokenRunUnique(line, i, j, TokenEnd(line, i));
      closes := closes + 1;
      if i == j {
        frees := frees + 1;
        return Malformed, value, closes, frees;
      }
      value := CopyValue(line, i, j);
      frees := frees + 1;
      assert value[..] == value[..j - i] + [value[j - i]];
      return Found(line[i..j]), value, closes, frees;
    }
    closes, frees := closes + 1, frees + 1;
    r := Absent;
  }

  // ---------------------------------------------------------------------
  // Properties.
  // ---------------------------------------------------------------------

  /** The end of a white-space run is determined by its start. */
  lemma SpaceRunUnique(s: string, from: nat, i1: nat, i2: nat)
    requires SpaceRunEnds(s, from, i1) && SpaceRunEnds(s, from, i2)
    ensures i1 == i2
  {
  }

  /** The end of a token is determined by its start. */
  lemma TokenRunUnique(s: string, i: nat, j1: nat, j2: nat)
    requires TokenRunEnds(s, i, j1) && TokenRunEnds(s, i, j2)
    ensures j1 == j2
  {
  }

  /** A NUL inside a chunk does not change whether it matches, since the
      attribute name holds none: matching depends on the raw chunk alone. */
  lemma MatchIgnoresNul(chunk: string)
    ensures Matches(chunk) <==> StartsWithAttr(chunk)
  {
  }

  /** A chunk without NUL is its own C string. */
  lemma CStringOfNulFree(chunk: string)
    requires Nul !in chunk
    ensures CString(chunk) == chunk
  {
  }

  /** A matching line decides `Found` exactly when something other than
      white space follows the attribute name, and the fatal error otherwise. */
  lemma MalformedIffBlank(s: string)
    requires StartsWithAttr(s)
    ensures ExtractValue(s) == Malformed <==> forall t :: AttrLen <= t < |s| ==> IsSpace(s[t])
    ensures ExtractValue(s) != Absent
  {
  }

  /** The class name found in a line is the first run of non-white
      characters after the attribute name: non-empty, free of white space,
      preceded only by white space and followed by white space or the end of
      the line. */
  lemma FoundIsFirstToken(s: string, i: nat, j: nat)
    requires StartsWithAttr(s)
    requires SpaceRunEnds(s, AttrLen, i) && TokenRunEnds(s, i, j)
    ensures i == j ==> ExtractValue(s) == Malformed
    ensures i < j ==> ExtractValue(s) == Found(s[i..j])
  {
  }

  /** A name found by resolution is non-empty and holds no white space. */
  lemma {:induction false} FoundNameIsToken(chunks: seq<string>)
    ensures Resolve(chunks).Found? ==>
              var v := Resolve(chunks).name;
              v != [] && forall t :: 0 <= t < |v| ==> !IsSpace(v[t])
  {
    if chunks != [] && !Matches(chunks[0]) {
      FoundNameIsToken(chunks[1..]);
    }
  }

  /** The first matching chunk decides the outcome. */
  lemma {:induction false} FirstMatchDecides(chunks: seq<string>, k: nat)
    requires k < |chunks| && Matches(chunks[k])
    requires forall m :: 0 <= m < k ==> !Matches(chunks[m])
    ensures Resolve(chunks) == ExtractValue(CString(chunks[k]))
  {
    if k > 0 {
      assert !Matches(chunks[0]);
      FirstMatchDecides(chunks[1..], k - 1);
    }
  }

  /** Resolution is absent exactly when no chunk matches. */
  lemma {:induction false} AbsentIffNoMatch(chunks: seq<string>)
    ensures Resolve(chunks) == Absent <==> forall k :: 0 <= k < |chunks| ==> !Matches(chunks[k])
  {
    if chunks != [] {
      AbsentIffNoMatch(chunks[1..]);
      if Matches(chunks[0]) {
        MalformedIffBlank(CString(chunks[0]));
      } else {
        forall k | 0 <= k < |chunks| && k != 0
          ensures chunks[k] == chunks[1..][k - 1]
        {
        }
      }
    }
  }

  /** Once a chunk matches, nothing after it is examined. */
  lemma {:induction false} LaterChunksIgnored(chunks: seq<string>, rest: seq<string>, k: nat)
    requires k < |chunks| && Matches(chunks[k])
    ensures Resolve(chunks + rest) == Resolve(chunks)
  {
    if !Matches(chunks[0]) {
      assert k > 0;
      assert (chunks + rest)[1..] == chunks[1..] + rest;
      LaterChunksIgnored(chunks[1..], rest, k - 1);
    }
  }

  /** Chunks that do not match may be added in front without effect. */
  lemma {:induction false} NonMatchingPrefixIgnored(skipped: seq<string>, chunks: seq<string>)
    requires forall m :: 0 <= m < |skipped| ==> !Matches(skipped[m])
    ensures Resolve(skipped + chunks) == Resolve(chunks)
  {
    if skipped != [] {
      assert (skipped + chunks)[0] == skipped[0] && !Matches(skipped[0]);
      assert (skipped + chunks)[1..] == skipped[1..] + chunks;
      forall m | 0 <= m < |skipped| - 1
        ensures !Matches(skipped[1..][m])
      {
        assert skipped[1..][m] == skipped[m + 1];
      }
      NonMatchingPrefixIgnored(skipped[1..], chunks);
      assert Resolve(skipped + chunks) == Resolve((skipped + chunks)[1..]);
    } else {
      assert skipped + chunks == chunks;
    }
  }

  // ---------------------------------------------------------------------
  // Scenarios.
  // ---------------------------------------------------------------------

  /** A file that cannot be opened and an empty file both give no entry
      point. */
  lemma NoFileNoEntryPoint()
    ensures MainClass(Unreadable) == Absent
    ensures MainClass(Readable([])) == Absent
  {
  }

  /** The C string of a buffer that starts with NUL-free characters keeps
      them. */
  lemma {:induction false} CStringOfConcat(a: string, b: string)
    requires Nul !in a
    ensures CString(a + b) == a + CString(b)
  {
    if a == [] {
      assert a + b == b;
    } else {
      assert (a + b)[0] == a[0] != Nul;
      assert (a + b)[1..] == a[1..] + b;
      assert Nul !in a[1..];
      CStringOfConcat(a[1..], b);
      assert a == [a[0]] + a[1..];
    }
  }

  /** An attribute line `Main-Class:`, white space, a class name, then white
      space or the end of the line, gives that class name: the white space
      on either side is not part of it. */
  lemma {:induction false} NameBetweenSpaces(pad: string, name: string, tail: string)
    requires forall t :: 0 <= t < |pad| ==> IsSpace(pad[t])
    requires name != [] && Nul !in name
    requires forall t :: 0 <= t < |name| ==> !IsSpace(name[t])
    requires tail == [] || IsSpace(tail[0])
    ensures MainClass(Readable([MainClassAttr + pad + name + tail])) == Found(name)
  {
    var line := MainClassAttr + pad + name + tail;
    var head := MainClassAttr + pad + name;
    var s := CString(line);
    var i, j := AttrLen + |pad|, AttrLen + |pad| + |name|;
    assert s == head + CString(tail) by {
      assert line == head + tail;
      assert Nul !in head by {
        assert forall t :: 0 <= t < |pad| ==> pad[t] != Nul;
      }
      CStringOfConcat(head, tail);
    }
    assert StartsWithAttr(s) by {
      assert s[..AttrLen] == MainClassAttr;
    }
    assert SpaceRunEnds(s, AttrLen, i) by {
      assert forall t :: AttrLen <= t < i ==> s[t] == pad[t - AttrLen];
      assert i == |s| || s[i] == name[0];
    }
    assert TokenRunEnds(s, i, j) by {
      assert forall t :: i <= t < j ==> s[t] == name[t - i];
      if tail != [] {
        assert tail[0] != Nul;
        assert CString(tail)[0] == tail[0];
        assert s[j] == tail[0];
      }
    }
    assert s[i..j] == name;
    FoundIsFirstToken(s, i, j);
    assert Resolve([line]) == ExtractValue(s);
  }

  /** White space around the class name is not part of it. */
  lemma SurroundingSpaceExcluded(line: string)
    requires line == "Main-Class:   com.acme.Main   \n"
    ensures MainClass(Readable([line])) == Found("com.acme.Main")
  {
    var pad, name, tail := "   ", "com.acme.Main", "   \n";
    assert line == MainClassAttr + pad + name + tail;
    NameBetweenSpaces(pad, name, tail);
  }

  /** Of two attribute lines the first one wins. */
  lemma FirstAttributeLineWins(first: string, second: string)
    requires first == "Main-Class: A\n" && second == "Main-Class: B\n"
    ensures MainClass(Readable([first, second])) == Found("A")
  {
    CStringOfNulFree(first);
    assert Matches(first);
    FoundIsFirstToken(first, 12, 13);
  }

  /** An attribute line with nothing after the name is the fatal error. */
  lemma EmptyValueIsMalformed(line: string)
    requires line == "Main-Class: \t\n"
    ensures MainClass(Readable([line])) == Malformed
  {
    CStringOfNulFree(line);
    assert Matches(line);
    FoundIsFirstToken(line, 14, 14);
  }

  /** The name is matched case-sensitively and only at column 0. */
  lemma AttributeMustStartLine(lower: string, indented: string)
    requires lower == "main-class: a.B\n" && indented == " Main-Class: a.B\n"
    ensures MainClass(Readable([lower, indented])) == Absent
  {
    MatchIgnoresNul(lower);
    MatchIgnoresNul(indented);
    assert lower[0] != MainClassAttr[0] && indented[0] != MainClassAttr[0];
    NonMatchingPrefixIgnored([lower, indented], []);
    assert [lower, indented] + [] == [lower, indented];
  }
}
