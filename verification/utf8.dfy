/**
 * Well-formed UTF-8 as defined by the table in section 4 of RFC 3629, the check
 * `str::from_utf8` performs, together with the encoder `char::encode_utf8` and the
 * scalar-value count `str::chars().count()`.
 */
module Utf8 {
  import opened Bytes

  predicate IsContinuation(b: uint8) {
    0x80 <= b <= 0xBF
  }

  predicate InRange(b: uint8, lo: int, hi: int) {
    lo <= b <= hi
  }

  /**
   * The length of the well-formed sequence that starts `s`, or 0 when `s` does not
   * start with one (the rows of the RFC 3629 syntax table: overlong forms, surrogates
   * and values beyond U+10FFFF are not well formed).
   */
  function LeadLength(s: Bytes): (n: nat)
    requires |s| > 0
    ensures n <= 4 && n <= |s|
  {
    var b0 := s[0];
    if b0 < 0x80 then 1
    else if InRange(b0, 0xC2, 0xDF) then
      (if |s| >= 2 && IsContinuation(s[1]) then 2 else 0)
    else if b0 == 0xE0 then
      (if |s| >= 3 && InRange(s[1], 0xA0, 0xBF) && IsContinuation(s[2]) then 3 else 0)
    else if InRange(b0, 0xE1, 0xEC) || InRange(b0, 0xEE, 0xEF) then
      (if |s| >= 3 && IsContinuation(s[1]) && IsContinuation(s[2]) then 3 else 0)
    else if b0 == 0xED then
      (if |s| >= 3 && InRange(s[1], 0x80, 0x9F) && IsContinuation(s[2]) then 3 else 0)
    else if b0 == 0xF0 then
      (if |s| >= 4 && InRange(s[1], 0x90, 0xBF) && IsContinuation(s[2]) && IsContinuation(s[3]) then 4 else 0)
    else if InRange(b0, 0xF1, 0xF3) then
      (if |s| >= 4 && IsContinuation(s[1]) && IsContinuation(s[2]) && IsContinuation(s[3]) then 4 else 0)
    else if b0 == 0xF4 then
      (if |s| >= 4 && InRange(s[1], 0x80, 0x8F) && IsContinuation(s[2]) && IsContinuation(s[3]) then 4 else 0)
    else 0
  }

  /** `s` is a concatenation of well-formed UTF-8 sequences. */
  predicate ValidUtf8(s: Bytes)
    decreases |s|
  {
    |s| == 0 || (LeadLength(s) > 0 && ValidUtf8(s[LeadLength(s)..]))
  }

  /** Rust's `String`/`&str`: bytes that are well-formed UTF-8. */
  type Utf8String = s: Bytes | ValidUtf8(s) witness []

  /** The number of Unicode scalar values a well-formed string holds. */
  function CharCount(s: Bytes): (r: nat)
    requires ValidUtf8(s)
    ensures r <= |s|
    ensures r == 0 <==> |s| == 0
    decreases |s|
  {
    if |s| == 0 then 0 else 1 + CharCount(s[LeadLength(s)..])
  }

  /** `char::encode_utf8`. */
  function EncodeChar(c: char): (r: Bytes)
    ensures 1 <= |r| <= 4
  {
    var v := c as int;
    if v < 0x80 then [v]
    else if v < 0x800 then [0xC0 + v / 64, 0x80 + v % 64]
    else if v < 0x1_0000 then [0xE0 + v / 4096, 0x80 + (v / 64) % 64, 0x80 + v % 64]
    else [0xF0 + v / 262144, 0x80 + (v / 4096) % 64, 0x80 + (v / 64) % 64, 0x80 + v % 64]
  }

  /** The UTF-8 encoding of a sequence of scalar values (`String::from` of the chars). */
  function Encode(cs: seq<char>): (r: Bytes)
    ensures |cs| <= |r| <= 4 * |cs|
  {
    if |cs| == 0 then [] else EncodeChar(cs[0]) + Encode(cs[1..])
  }

  /** Looking at the leading sequence only reads the bytes that belong to it. */
  lemma LeadLengthPrefix(a: Bytes, b: Bytes)
    requires |a| > 0 && LeadLength(a) > 0
    ensures LeadLength(a + b) == LeadLength(a)
  {
    var ab := a + b;
    assert ab[0] == a[0];
    if |a| >= 2 { assert ab[1] == a[1]; }
    if |a| >= 3 { assert ab[2] == a[2]; }
    if |a| >= 4 { assert ab[3] == a[3]; }
  }

  /** The encoding of one scalar value is exactly one well-formed sequence. */
  lemma EncodeCharLead(c: char, rest: Bytes)
    ensures LeadLength(EncodeChar(c) + rest) == |EncodeChar(c)|
  {
    var e := EncodeChar(c);
    assert LeadLength(e) == |e|;
    LeadLengthPrefix(e, rest);
  }

  lemma {:induction false} EncodeValid(cs: seq<char>)
    ensures ValidUtf8(Encode(cs))
    ensures CharCount(Encode(cs)) == |cs|
  {
    if |cs| > 0 {
      var e := EncodeChar(cs[0]);
      var rest := Encode(cs[1..]);
      EncodeValid(cs[1..]);
      EncodeCharLead(cs[0], rest);
      assert (e + rest)[|e|..] == rest;
    }
  }

  /** Concatenating two strings gives a string whose scalar count is the sum. */
  lemma {:induction false} ConcatValid(a: Bytes, b: Bytes)
    requires ValidUtf8(a) && ValidUtf8(b)
    ensures ValidUtf8(a + b)
    ensures CharCount(a + b) == CharCount(a) + CharCount(b)
    decreases |a|
  {
    if |a| == 0 {
      assert a + b == b;
    } else {
      var n := LeadLength(a);
      LeadLengthPrefix(a, b);
      ConcatValid(a[n..], b);
      assert (a + b)[n..] == a[n..] + b;
    }
  }

  /** ASCII text is well formed and has one scalar per byte. */
  lemma {:induction false} AsciiValid(s: Bytes)
    requires forall i :: 0 <= i < |s| ==> s[i] < 0x80
    ensures ValidUtf8(s) && CharCount(s) == |s|
    decreases |s|
  {
    if |s| > 0 {
      AsciiValid(s[1..]);
    }
  }

  /** "🤠" (U+1F920) is four bytes but a single scalar value. */
  lemma CowboyIsOneChar()
    ensures Encode(['\U{1F920}']) == [0xF0, 0x9F, 0xA4, 0xA0]
    ensures ValidUtf8([0xF0, 0x9F, 0xA4, 0xA0]) && CharCount([0xF0, 0x9F, 0xA4, 0xA0]) == 1
  {
    var s: Bytes := [0xF0, 0x9F, 0xA4, 0xA0];
    assert LeadLength(s) == 4;
    assert s[4..] == [];
  }

  /** A lone continuation byte, and an encoded surrogate, are rejected. */
  lemma InvalidExamples()
    ensures !ValidUtf8([0x80])
    ensures !ValidUtf8([0xED, 0xA0, 0x80])
    ensures !ValidUtf8([0xC0, 0x80])
  {
  }
}
