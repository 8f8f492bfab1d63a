/**
 * Well-formed UTF-8 (section 4 of RFC 3629). A Rust `String` is a byte
 * sequence with this property; `String::from_utf8` and `String::try_from`
 * on a byte buffer succeed exactly when it holds.
 */
module Utf8 {
  import opened Ints

  predicate IsContinuation(b: byte) { 0x80 <= b <= 0xBF }

  /** The byte sequence is a concatenation of well-formed UTF-8 encodings. */
  predicate ValidUtf8(s: seq<byte>)
    decreases |s|
  {
    if |s| == 0 then true
    else if s[0] < 0x80 then ValidUtf8(s[1..])
    else if 0xC2 <= s[0] <= 0xDF then
      |s| >= 2 && IsContinuation(s[1]) && ValidUtf8(s[2..])
    else if s[0] == 0xE0 then
      |s| >= 3 && 0xA0 <= s[1] <= 0xBF && IsContinuation(s[2]) && ValidUtf8(s[3..])
    else if 0xE1 <= s[0] <= 0xEC || 0xEE <= s[0] <= 0xEF then
      |s| >= 3 && IsContinuation(s[1]) && IsContinuation(s[2]) && ValidUtf8(s[3..])
    else if s[0] == 0xED then
      |s| >= 3 && 0x80 <= s[1] <= 0x9F && IsContinuation(s[2]) && ValidUtf8(s[3..])
    else if s[0] == 0xF0 then
      |s| >= 4 && 0x90 <= s[1] <= 0xBF && IsContinuation(s[2]) && IsContinuation(s[3])
      && ValidUtf8(s[4..])
    else if 0xF1 <= s[0] <= 0xF3 then
      |s| >= 4 && IsContinuation(s[1]) && IsContinuation(s[2]) && IsContinuation(s[3])
      && ValidUtf8(s[4..])
    else if s[0] == 0xF4 then
      |s| >= 4 && 0x80 <= s[1] <= 0x8F && IsContinuation(s[2]) && IsContinuation(s[3])
      && ValidUtf8(s[4..])
    else false
  }

  /** The bytes of a Rust `String`. */
  type RustString = s: seq<byte> | ValidUtf8(s)

  predicate IsAscii(s: string) { forall i :: 0 <= i < |s| ==> s[i] < 128 as char }

  lemma AsciiConcat(a: string, b: string)
    requires IsAscii(a) && IsAscii(b)
    ensures IsAscii(a + b)
  {
    assert forall i :: |a| <= i < |a + b| ==> (a + b)[i] == b[i - |a|];
  }

  /** The UTF-8 bytes of an ASCII Dafny string, one byte per character. */
  function FromAscii(s: string): (r: RustString)
    requires IsAscii(s)
    ensures |r| == |s|
    ensures forall i :: 0 <= i < |s| ==> r[i] == s[i] as int
  {
    AsciiIsUtf8(AsciiBytes(s));
    AsciiBytes(s)
  }

  function AsciiBytes(s: string): (r: seq<byte>)
    requires IsAscii(s)
    ensures |r| == |s|
    ensures forall i :: 0 <= i < |s| ==> r[i] == s[i] as int
  {
    seq(|s|, i requires 0 <= i < |s| => s[i] as int)
  }

  /** Bytes below 0x80 are one-byte UTF-8 encodings. */
  lemma {:induction false} AsciiIsUtf8(bs: seq<byte>)
    requires forall i :: 0 <= i < |bs| ==> bs[i] < 0x80
    ensures ValidUtf8(bs)
  {
    if |bs| > 0 {
      AsciiIsUtf8(bs[1..]);
    }
  }
}
