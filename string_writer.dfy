/**
 * `java.io.StringWriter`: a character sink whose whole state is one growable
 * `StringBuffer`.  Every `write` overload appends to that buffer; a range
 * that does not fit makes the call throw and leaves the buffer as it was.
 *
 * Java's `int` is the subset type `Int32` (sums and differences wrap around
 * explicitly through `Wrap32`), and Java's `char` is a UTF-16 code unit,
 * `JChar`, since Dafny's `char` leaves out the surrogate range.  A thrown
 * exception is a `Status` or `Result` value.
 */
module JavaIo {

  const IntMin: int := -0x8000_0000
  const IntMax: int := 0x7fff_ffff

  /** Java `int`. */
  type Int32 = x: int | IntMin <= x <= IntMax

  /** Java `char`: a 16-bit code unit. */
  type JChar = c: int | 0 <= c < 0x1_0000

  /** The characters of a Java `String` or of a `StringBuffer`. */
  type JString = seq<JChar>

  datatype Exception =
    | IllegalArgumentException
    | ArrayIndexOutOfBoundsException
    | StringIndexOutOfBoundsException

  /** How a `void` method ends: normally, or by throwing. */
  datatype Status = Completed | Threw(exception: Exception)

  /** A value, or the exception thrown instead of producing it. */
  datatype Result<T> = Ok(value: T) | Err(exception: Exception)

  /** Java `int` arithmetic: the 32-bit two's-complement value of an exact
      result. */
  function Wrap32(x: int): (r: Int32)
    ensures (r - x) % 0x1_0000_0000 == 0
    ensures IntMin <= x <= IntMax ==> r == x
  {
    (x - IntMin) % 0x1_0000_0000 + IntMin
  }

  /** The cast `(char) oneChar`: the code unit holding the low sixteen bits
      of the `int`. */
  function NarrowToChar(v: Int32): (c: JChar)
    ensures (c - v) % 0x1_0000 == 0
    ensures 0 <= v < 0x1_0000 ==> c == v
  {
    v % 0x1_0000
  }

  /** The bounds test of `write(char[], int, int)` exactly as written, in
      `int` arithmetic: `cbuf.length - offset` is only formed once `offset`
      is known to lie in `[0, cbuf.length]`. */
  predicate ArrayRangeGuard(offset: Int32, count: Int32, length: nat)
    requires length <= IntMax
  {
    0 <= offset && offset <= length && 0 <= count && count <= Wrap32(length - offset)
  }

  /** The range `[offset, offset + count)` lies inside an array or string of
      `length` characters. */
  predicate InRange(offset: int, count: int, length: nat)
  {
    0 <= offset && 0 <= count && offset + count <= length
  }

  /** `String.substring(begin, end)`: the characters in `[begin, end)`, or
      `StringIndexOutOfBoundsException` when that is not a range of `str`. */
  function Substring(str: JString, begin: Int32, end: Int32): Result<JString>
  {
    if 0 <= begin <= end <= |str| then Ok(str[begin..end])
    else Err(StringIndexOutOfBoundsException)
  }

  /** The test of `write(char[], int, int)` does not overflow: it passes
      exactly for the ranges that lie inside the array. */
  lemma ArrayRangeGuardExact(offset: Int32, count: Int32, length: nat)
    requires length <= IntMax
    ensures ArrayRangeGuard(offset, count, length) <==> InRange(offset, count, length)
  {
  }

  /** The additive bounds test `offset + count <= cbuf.length`, evaluated
      in `int` arithmetic: the one the comment `avoid int overflow` in
      `write(char[], int, int)` steers clear of. */
  predicate SumGuard(offset: Int32, count: Int32, length: nat)
  {
    0 <= offset && 0 <= count && Wrap32(offset + count) <= length
  }

  /** The additive test would let through a range past the end of an empty
      array: `1 + Integer.MAX_VALUE` wraps to a negative value. */
  lemma SumGuardWouldOverflow()
    ensures Wrap32(1 + IntMax) < 0
    ensures SumGuard(1, IntMax, 0) && !InRange(1, IntMax, 0)
  {
  }

  /** `write(String, int, int)` computes `offset + count` in `int`
      arithmetic and leaves the check to `substring`; the wrap-around never
      lets a bad range through, so it accepts exactly the ranges the
      `char[]` overload accepts. */
  lemma SubstringRangeExact(str: JString, offset: Int32, count: Int32)
    requires |str| <= IntMax
    ensures Substring(str, offset, Wrap32(offset + count)).Ok? <==> InRange(offset, count, |str|)
    ensures InRange(offset, count, |str|) ==>
              Substring(str, offset, Wrap32(offset + count)) == Ok(str[offset..offset + count])
  {
  }

  /** `java.lang.StringBuffer`, reduced to its characters. */
  class StringBuffer {
    var value: JString

    constructor ()
      ensures value == []
    {
      value := [];
    }

    /** `append`: the characters of `s` go after the current ones. */
    method Append(s: JString)
      modifies this
      ensures value == old(value) + s
    {
      value := value + s;
    }
  }

  class StringWriter {
    /** The buffer the writer appends to, fixed at construction. */
    const buf: StringBuffer

    /** The characters written so far. */
    ghost function Contents(): JString
      reads this, buf
    {
      buf.value
    }

    /** `StringWriter()`: an empty writer over a buffer of its own. */
    constructor ()
      ensures fresh(buf)
      ensures Contents() == []
    {
      buf := new StringBuffer();
    }

    /** `StringWriter(int initialSize)`: a negative size throws
        `IllegalArgumentException`; otherwise the writer starts empty. */
    static method WithInitialSize(initialSize: Int32) returns (r: Result<StringWriter>)
      ensures r.Err? <==> initialSize < 0
      ensures r.Err? ==> r.exception == IllegalArgumentException
      ensures r.Ok? ==> fresh(r.value) && fresh(r.value.buf) && r.value.Contents() == []
    {
      if initialSize >= 0 {
        var w := new StringWriter();
        r := Ok(w);
      } else {
        r := Err(IllegalArgumentException);
      }
    }

    /** `close()` does nothing. */
    method Close()
      ensures Contents() == old(Contents())
    {
    }

    /** `flush()` does nothing. */
    method Flush()
      ensures Contents() == old(Contents())
    {
    }

    /** `getBuffer()`: the writer's own buffer, not a copy, so that later
        writes show through it. */
    method GetBuffer() returns (b: StringBuffer)
      ensures b == buf
    {
      b := buf;
    }

    /** `toString()`: the characters written so far. */
    method ToString() returns (s: JString)
      ensures s == Contents()
    {
      s := buf.value;
    }

    /** `write(char[] cbuf, int offset, int count)`: appends
        `cbuf[offset..offset + count)` when that range lies inside `cbuf`,
        and otherwise throws `ArrayIndexOutOfBoundsException` with the
        contents unchanged. */
    method WriteChars(cbuf: array<JChar>, offset: Int32, count: Int32) returns (status: Status)
      requires cbuf.Length <= IntMax
      modifies buf
      ensures status == if InRange(offset, count, cbuf.Length) then Completed
                        else Threw(ArrayIndexOutOfBoundsException)
      ensures Contents() == if status.Completed? then old(Contents()) + cbuf[offset..offset + count]
                            else old(Contents())
    {
      ArrayRangeGuardExact(offset, count, cbuf.Length);
      if ArrayRangeGuard(offset, count, cbuf.Length) {
        buf.Append(cbuf[offset..offset + count]);
        status := Completed;
      } else {
        status := Threw(ArrayIndexOutOfBoundsException);
      }
    }

    /** `write(int oneChar)`: appends the one character made of the low
        sixteen bits of `oneChar`. */
    method WriteChar(oneChar: Int32)
      modifies buf
      ensures Contents() == old(Contents()) + [NarrowToChar(oneChar)]
    {
      buf.Append([NarrowToChar(oneChar)]);
    }

    /** `write(String str)`: appends all of `str`. */
    method WriteString(str: JString)
      modifies buf
      ensures Contents() == old(Contents()) + str
    {
      buf.Append(str);
    }

    /** `write(String str, int offset, int count)`: takes
        `str.substring(offset, offset + count)` before touching the buffer,
        so a bad range throws `StringIndexOutOfBoundsException` with the
        contents unchanged. */
    method WriteSubstring(str: JString, offset: Int32, count: Int32) returns (status: Status)
      requires |str| <= IntMax
      modifies buf
      ensures status == if InRange(offset, count, |str|) then Completed
                        else Threw(StringIndexOutOfBoundsException)
      ensures Contents() == if status.Completed? then old(Contents()) + str[offset..offset + count]
                            else old(Contents())
    {
      SubstringRangeExact(str, offset, count);
      var sub := Substring(str, offset, Wrap32(offset + count));
      match sub {
        case Ok(s) =>
          buf.Append(s);
          status := Completed;
        case Err(e) =>
          status := Threw(e);
      }
    }
  }
}
