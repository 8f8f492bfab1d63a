/**
 * The protocol-version round-trip harness of svm-app (`raw/version`): a
 * version is encoded into a fresh writer, flushed to bytes, decoded by a
 * fresh iterator, and the iterator must then be at its end.
 */
module VersionWire {
  import opened Ints
  import opened Wrappers
  import opened Nibbles
  import opened FieldCodec

  /**
   * `assert_encode_decode`: the decoded version equals the encoded one and
   * `ensure_eof` succeeds afterwards (only the flush padding, if any, is left).
   */
  method AssertEncodeDecode(version: u32, vc: Codec<u32>) returns (decoded: Result<u32, ParseError>, eof: Result<(), ()>)
    requires Lawful(vc)
    ensures decoded == Ok(version)
    ensures eof == Ok(())
  {
    ghost var ns := vc.enc(version);
    ghost var pad := Pad(ns);
    PaddedIsEven(ns);
    var w := new NibbleWriter();
    Encode(w, vc, version);
    assert w.nibbles == ns;
    var data := w.IntoBytes();
    assert NibblesOf(data) == ns + pad;
    var iter := new NibbleIter(data);
    assert iter.Remaining() == ns + pad;
    assert vc.dec(NoTags, ns + pad) == Ok((version, pad));
    decoded := Decode(iter, vc, NoTags);
    assert iter.Remaining() == pad && |pad| <= 1;
    eof := iter.EnsureEof(());
  }

  /** `encode_decode_version`: the boundary values 0, `u8::MAX`, `u16::MAX` and `1 << 20`. */
  method EncodeDecodeVersion(vc: Codec<u32>) returns (decoded: seq<Result<u32, ParseError>>)
    requires Lawful(vc)
    ensures decoded == [Ok(0), Ok(0xFF), Ok(0xFFFF), Ok(0x10_0000)]
  {
    var d0, _ := AssertEncodeDecode(0, vc);
    var d1, _ := AssertEncodeDecode(0xFF, vc);
    var d2, _ := AssertEncodeDecode(0xFFFF, vc);
    var d3, _ := AssertEncodeDecode(0x10_0000, vc);
    decoded := [d0, d1, d2, d3];
  }
}
