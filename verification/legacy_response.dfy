/**
 * The earlier crate's responses: a byte buffer meant to end in a newline. The
 * constructors for bytes, strings and integers always push one; the generic
 * conversion pushes one only when the buffer does not already end with it.
 */
module LegacyResponses {
  import opened Bytes
  import opened Utf8

  const NEWLINE: uint8 := 10

  datatype Response = Response(buf: Bytes)

  predicate EndsWithNewline(v: Bytes) {
    |v| > 0 && v[|v| - 1] == NEWLINE
  }

  /** `bytes` and `into_bytes`: the buffer as it is. */
  function IntoBytes(r: Response): (b: Bytes)
    ensures Response(b) == r
  {
    r.buf
  }

  /** The buffer with one newline pushed onto it, whatever it ended with. */
  function Line(v: Bytes): (r: Response)
    ensures |r.buf| == |v| + 1 && r.buf[..|v|] == v && r.buf[|v|] == NEWLINE
  {
    Response(v + [NEWLINE])
  }

  /** What a line carries: everything before its last byte. */
  function Payload(r: Response): (v: Bytes)
    requires |r.buf| > 0
    ensures |v| == |r.buf| - 1 && v == r.buf[..|v|]
  {
    r.buf[..|r.buf| - 1]
  }

  /** A line ends with a newline and carries what it was made from. */
  lemma PayloadOfLine(v: Bytes)
    ensures EndsWithNewline(Line(v).buf) && Payload(Line(v)) == v
  {
  }

  /** A buffer ending with a newline is the line of what comes before it. */
  lemma LineOfPayload(r: Response)
    requires EndsWithNewline(r.buf)
    ensures Line(Payload(r)) == r
  {
    assert r.buf == r.buf[..|r.buf| - 1] + [NEWLINE];
  }

  /** `Response::from_bytes`. */
  function FromBytes(value: Bytes): (r: Response)
    ensures EndsWithNewline(r.buf) && Payload(r) == value
  {
    Line(value)
  }

  /** `Response::from_string`: the string's UTF-8 bytes. */
  function FromString(value: Utf8String): (r: Response)
    ensures EndsWithNewline(r.buf) && Payload(r) == value && ValidUtf8(Payload(r))
  {
    Line(value)
  }

  /** `Response::from_int`: the value's eight big-endian two's complement bytes. */
  function FromInt(value: int64): (r: Response)
    ensures |r.buf| == 9 && EndsWithNewline(r.buf) && I64FromBE(r.buf[..8]) == value
  {
    I64RoundTrip(value);
    Line(I64BE(value))
  }

  /** `Response::from_usize` on a 64-bit target: eight big-endian bytes. */
  function FromUsize(value: uint64): (r: Response)
    ensures |r.buf| == 9 && EndsWithNewline(r.buf) && FromBE(r.buf[..8]) == value
  {
    FromBEOfBE(value, 8);
    Line(BE(value, 8))
  }

  /** `Response::from_list`: the list itself is not written; only the newline is. */
  function FromList(): (r: Response)
    ensures EndsWithNewline(r.buf) && |r.buf| == 1
  {
    Line([])
  }

  /** `From<T>`: a newline is pushed only if the buffer does not already end with one. */
  function From(v: Bytes): (r: Response)
    ensures EndsWithNewline(r.buf)
    ensures EndsWithNewline(v) <==> r.buf == v
    ensures !EndsWithNewline(v) ==> Payload(r) == v
  {
    if EndsWithNewline(v) then Response(v) else Line(v)
  }

  /** Converting a response's buffer again changes nothing. */
  lemma FromIdempotent(v: Bytes)
    ensures From(IntoBytes(From(v))) == From(v)
  {
  }

  /** What the constructors build is left alone by the conversion. */
  lemma FromKeepsConstructed(value: Bytes, x: int64)
    ensures From(IntoBytes(FromBytes(value))) == FromBytes(value)
    ensures From(IntoBytes(FromInt(x))) == FromInt(x)
    ensures From(IntoBytes(FromList())) == FromList()
  {
  }

  /**
   * A buffer that already ends with a newline gets a second one from the
   * constructor, and none from the conversion.
   */
  lemma ConstructorDoubles(v: Bytes)
    requires EndsWithNewline(v)
    ensures FromBytes(v).buf[|v| - 1..] == [NEWLINE, NEWLINE]
    ensures From(v).buf == v
  {
  }

  /**
   * The integers of the source's unit test, as the constructor builds them: the
   * test expects the eight bytes alone, and the constructor adds the newline.
   */
  lemma FromIntExamples()
    ensures FromInt(7).buf == [0, 0, 0, 0, 0, 0, 0, 7, NEWLINE]
    ensures FromInt(68125).buf == [0, 0, 0, 0, 0, 1, 10, 29, NEWLINE]
    ensures FromInt(7).buf != [0, 0, 0, 0, 0, 0, 0, 7]
  {
    I64Positive();
  }
}
