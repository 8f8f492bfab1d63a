/**
 * The host-function trap of svm-ffi (`trap.rs`): an error message carried
 * as a byte array, converted to and from a Rust `String`.
 */
module Trap {
  import opened Ints
  import opened Utf8

  /** `svm_trap_t`: the bytes of the error buffer. */
  datatype SvmTrap = SvmTrap(error: seq<byte>)

  /** The message reported for an error buffer that is not valid UTF-8. */
  const FallbackText: string := "svm_trap_t (exact " + "error message had " + "an interpretation " + "error."

  // The fallback text, in pieces short enough to check character by character.
  lemma Piece1() ensures IsAscii("svm_trap_t (exact ") {}
  lemma Piece2() ensures IsAscii("error message had ") {}
  lemma Piece3() ensures IsAscii("an interpretation ") {}
  lemma Piece4() ensures IsAscii("error.") {}

  lemma FallbackIsAscii()
    ensures IsAscii(FallbackText)
  {
    Piece1(); Piece2(); Piece3(); Piece4();
    AsciiConcat("svm_trap_t (exact ", "error message had ");
    AsciiConcat("svm_trap_t (exact " + "error message had ", "an interpretation ");
    AsciiConcat("svm_trap_t (exact " + "error message had " + "an interpretation ", "error.");
  }

  function Fallback(): (s: RustString)
    ensures |s| == |FallbackText|
  {
    FallbackIsAscii();
    FromAscii(FallbackText)
  }

  /** `svm_trap_t::alloc(size)`: a trap whose error buffer has `size` bytes. */
  function Alloc(size: nat): (t: SvmTrap)
    ensures |t.error| == size
  {
    SvmTrap(seq(size, _ => 0))
  }

  /**
   * `From<&svm_trap_t> for String`: the buffer when it is UTF-8, else the
   * fallback message. The conversion never fails.
   */
  function TrapToString(t: SvmTrap): (s: RustString)
    ensures ValidUtf8(t.error) ==> s == t.error
    ensures !ValidUtf8(t.error) ==> s == Fallback()
  {
    if ValidUtf8(t.error) then t.error else Fallback()
  }

  /** `From<String> for svm_trap_t`: the string's bytes become the error buffer. */
  function TrapFromString(s: RustString): (t: SvmTrap)
    ensures t.error == s
  {
    SvmTrap(s)
  }

  /** String -> trap -> String is the identity. */
  lemma StringRoundTrip(s: RustString)
    ensures TrapToString(TrapFromString(s)) == s
  {
  }

  /** Trap -> String -> trap is the identity exactly on UTF-8 buffers. */
  lemma TrapRoundTrip(t: SvmTrap)
    ensures ValidUtf8(t.error) ==> TrapFromString(TrapToString(t)) == t
    ensures !ValidUtf8(t.error) ==> TrapFromString(TrapToString(t)).error == Fallback()
  {
  }
}
