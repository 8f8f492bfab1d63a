/**
 * The default `AppTemplate` serializer of svm-codec (`template/serialize.rs`):
 * the deploy-template encoding followed by the author address, flushed to
 * bytes; the deserializer reads both back and reports any failure as `None`.
 */
module TemplateSerialize {
  import opened Ints
  import opened Wrappers
  import opened Nibbles
  import opened FieldCodec
  import opened SvmTypes
  import opened Utf8

  /** The deploy-template encoder/decoder and the address helper. */
  datatype TemplateCodecs = TemplateCodecs(template: Codec<AppTemplate>, address: Codec<Address>)

  ghost predicate LawfulCodecs(tc: TemplateCodecs)
  {
    Lawful(tc.template) && Lawful(tc.address)
  }

  /** The nibbles written before the flush. */
  function SerializedNibbles(tc: TemplateCodecs, t: AppTemplate, author: AuthorAddr): seq<Nibble>
  {
    tc.template.enc(t) + tc.address.enc(author.inner)
  }

  /** `serialize`: the flushed bytes hold the template, then the author, then at most one zero nibble. */
  method Serialize(tc: TemplateCodecs, t: AppTemplate, author: AuthorAddr) returns (bytes: seq<byte>)
    ensures |bytes| == (|SerializedNibbles(tc, t, author)| + 1) / 2
    ensures NibblesOf(bytes) == SerializedNibbles(tc, t, author) + Pad(SerializedNibbles(tc, t, author))
  {
    var w := new NibbleWriter();
    Encode(w, tc.template, t);
    Encode(w, tc.address, author.inner);
    bytes := w.IntoBytes();
  }

  /**
   * What `deserialize` returns: `None` when the template or the author
   * (tagged `Author`) fails to decode. Nothing is checked after the author.
   */
  function DeserializeSpec(tc: TemplateCodecs, bytes: seq<byte>): Option<(AppTemplate, AuthorAddr)>
  {
    var r1 := tc.template.dec(NoTags, NibblesOf(bytes));
    if r1.Err? then None else
    var r2 := tc.address.dec(FieldTag(Author), r1.value.1);
    if r2.Err? then None else
    Some((r1.value.0, AuthorAddr(r2.value.0)))
  }

  /** `deserialize`, reading from a fresh iterator. */
  method Deserialize(tc: TemplateCodecs, bytes: seq<byte>) returns (r: Option<(AppTemplate, AuthorAddr)>)
    requires LawfulCodecs(tc)
    ensures r == DeserializeSpec(tc, bytes)
  {
    var iter := new NibbleIter(bytes);
    var template := Decode(iter, tc.template, NoTags);
    if template.Err? {
      return None;
    }
    var author := Decode(iter, tc.address, FieldTag(Author));
    if author.Err? {
      return None;
    }
    r := Some((template.value, AuthorAddr(author.value)));
  }

  /**
   * Round trip: the serialized bytes deserialize to the pair they came from,
   * whatever bytes are appended after them.
   */
  lemma SerializeRoundTrip(tc: TemplateCodecs, t: AppTemplate, author: AuthorAddr, bytes: seq<byte>, trailing: seq<byte>)
    requires LawfulCodecs(tc)
    requires NibblesOf(bytes) == SerializedNibbles(tc, t, author) + Pad(SerializedNibbles(tc, t, author))
    ensures DeserializeSpec(tc, bytes + trailing) == Some((t, author))
  {
    var ns := SerializedNibbles(tc, t, author);
    var e1, e2 := tc.template.enc(t), tc.address.enc(author.inner);
    var rest := Pad(ns) + NibblesOf(trailing);
    NibblesOfAppend(bytes, trailing);
    assert NibblesOf(bytes + trailing) == e1 + (e2 + rest);
    assert tc.template.dec(NoTags, e1 + (e2 + rest)) == Ok((t, e2 + rest));
    assert tc.address.dec(FieldTag(Author), e2 + rest) == Ok((author.inner, rest));
  }

  /** `serialize_deploy_template`: the test's template and an author address survive the round trip. */
  method SerializeDeployTemplate(tc: TemplateCodecs, authorAddress: Address) returns (decoded: Option<(AppTemplate, AuthorAddr)>)
    requires LawfulCodecs(tc)
    ensures decoded == Some((AppTemplate(0, FromAscii("My Template"), [0x0C, 0x00, 0x0D, 0x0E], [10, 20, 30]), AuthorAddr(authorAddress)))
  {
    var template := AppTemplate(0, FromAscii("My Template"), [0x0C, 0x00, 0x0D, 0x0E], [10, 20, 30]);
    var author := AuthorAddr(authorAddress);
    var bytes := Serialize(tc, template, author);
    SerializeRoundTrip(tc, template, author, bytes, []);
    assert bytes + [] == bytes;
    decoded := Deserialize(tc, bytes);
  }
}
