/**
 * The spawn-app transaction of svm-codec (`app/wire.rs`): version, template
 * address, app name, constructor name, constructor calldata, in that order.
 */
module SpawnAppWire {
  import opened Ints
  import opened Utf8
  import opened Wrappers
  import opened Nibbles
  import opened FieldCodec
  import opened SvmTypes

  /** The field helpers the transaction is built from. */
  datatype SpawnCodecs = SpawnCodecs(
    version: Codec<u32>,
    address: Codec<Address>,
    str: Codec<RustString>,
    abi: Codec<seq<byte>>)

  ghost predicate LawfulCodecs(cs: SpawnCodecs)
  {
    Lawful(cs.version) && Lawful(cs.address) && Lawful(cs.str) && Lawful(cs.abi)
  }

  /** App name and constructor name are both decoded under these tags. */
  const NameTags: Tags := LengthAndBody(NameLength, Name)

  /** The nibbles `encode_spawn_app` writes. */
  function SpawnAppNibbles(cs: SpawnCodecs, s: SpawnApp): seq<Nibble>
  {
    cs.version.enc(s.app.version) + cs.address.enc(s.app.template.inner)
    + cs.str.enc(s.app.name) + cs.str.enc(s.ctorName) + cs.abi.enc(s.calldata)
  }

  /**
   * What `decode_spawn_app` returns on nibbles `ns`, paired with the nibbles
   * left unread: after the last field on success, before the failing field
   * on failure (no later field is read).
   */
  function DecodeSpawnAppSpec(cs: SpawnCodecs, ns: seq<Nibble>): (Result<SpawnApp, ParseError>, seq<Nibble>)
  {
    var r1 := cs.version.dec(NoTags, ns);
    if r1.Err? then (Err(r1.error), ns) else
    var (version, ns1) := r1.value;
    var r2 := cs.address.dec(FieldTag(Field.TemplateAddr), ns1);
    if r2.Err? then (Err(r2.error), ns1) else
    var (template, ns2) := r2.value;
    DecodeAfterTemplateSpec(cs, version, template, ns2)
  }

  /** What is decoded after the template address: app name, constructor name, calldata. */
  function DecodeAfterTemplateSpec(cs: SpawnCodecs, version: u32, template: Address, ns2: seq<Nibble>)
    : (Result<SpawnApp, ParseError>, seq<Nibble>)
  {
    var r3 := cs.str.dec(NameTags, ns2);
    if r3.Err? then (Err(r3.error), ns2) else
    var (name, ns3) := r3.value;
    var r4 := cs.str.dec(NameTags, ns3);
    if r4.Err? then (Err(r4.error), ns3) else
    var (ctorName, ns4) := r4.value;
    var r5 := cs.abi.dec(NoTags, ns4);
    if r5.Err? then (Err(r5.error), ns4) else
    var (calldata, ns5) := r5.value;
    (Ok(SpawnApp(App(version, name, SvmTypes.TemplateAddr(template)), ctorName, calldata)), ns5)
  }

  /** Round trip: decoding an encoded transaction gives it back and leaves what follows. */
  lemma SpawnAppRoundTrip(cs: SpawnCodecs, s: SpawnApp, rest: seq<Nibble>)
    requires LawfulCodecs(cs)
    ensures DecodeSpawnAppSpec(cs, SpawnAppNibbles(cs, s) + rest) == (Ok(s), rest)
  {
    var e1, e2, e3 := cs.version.enc(s.app.version), cs.address.enc(s.app.template.inner), cs.str.enc(s.app.name);
    var e4, e5 := cs.str.enc(s.ctorName), cs.abi.enc(s.calldata);
    var t5 := e5 + rest;
    var t4 := e4 + t5;
    var t3 := e3 + t4;
    var t2 := e2 + t3;
    assert SpawnAppNibbles(cs, s) + rest == e1 + t2;
    assert cs.version.dec(NoTags, e1 + t2) == Ok((s.app.version, t2));
    assert cs.address.dec(FieldTag(Field.TemplateAddr), e2 + t3) == Ok((s.app.template.inner, t3));
    assert cs.str.dec(NameTags, e3 + t4) == Ok((s.app.name, t4));
    assert cs.str.dec(NameTags, e4 + t5) == Ok((s.ctorName, t5));
    assert cs.abi.dec(NoTags, e5 + rest) == Ok((s.calldata, rest));
  }

  // Encoders: each appends one field to the writer.

  method EncodeVersion(cs: SpawnCodecs, s: SpawnApp, w: NibbleWriter)
    modifies w
    ensures w.nibbles == old(w.nibbles) + cs.version.enc(s.app.version)
  {
    Encode(w, cs.version, s.app.version);
  }

  method EncodeTemplate(cs: SpawnCodecs, s: SpawnApp, w: NibbleWriter)
    modifies w
    ensures w.nibbles == old(w.nibbles) + cs.address.enc(s.app.template.inner)
  {
    Encode(w, cs.address, s.app.template.inner);
  }

  method EncodeName(cs: SpawnCodecs, s: SpawnApp, w: NibbleWriter)
    modifies w
    ensures w.nibbles == old(w.nibbles) + cs.str.enc(s.app.name)
  {
    Encode(w, cs.str, s.app.name);
  }

  method EncodeCtor(cs: SpawnCodecs, s: SpawnApp, w: NibbleWriter)
    modifies w
    ensures w.nibbles == old(w.nibbles) + cs.str.enc(s.ctorName)
  {
    Encode(w, cs.str, s.ctorName);
  }

  method EncodeCtorCalldata(cs: SpawnCodecs, s: SpawnApp, w: NibbleWriter)
    modifies w
    ensures w.nibbles == old(w.nibbles) + cs.abi.enc(s.calldata)
  {
    Encode(w, cs.abi, s.calldata);
  }

  /** `encode_spawn_app`: the five fields in order. */
  method EncodeSpawnApp(cs: SpawnCodecs, s: SpawnApp, w: NibbleWriter)
    modifies w
    ensures w.nibbles == old(w.nibbles) + SpawnAppNibbles(cs, s)
  {
    ghost var w0 := w.nibbles;
    ghost var e1, e2, e3 := cs.version.enc(s.app.version), cs.address.enc(s.app.template.inner), cs.str.enc(s.app.name);
    ghost var e4, e5 := cs.str.enc(s.ctorName), cs.abi.enc(s.calldata);
    EncodeVersion(cs, s, w);
    EncodeTemplate(cs, s, w);
    EncodeName(cs, s, w);
    EncodeCtor(cs, s, w);
    EncodeCtorCalldata(cs, s, w);
    assert w.nibbles == w0 + e1 + e2 + e3 + e4 + e5;
    assert w0 + e1 + e2 + e3 + e4 + e5 == w0 + (e1 + e2 + e3 + e4 + e5);
  }

  // Decoders: each advances the iterator past one field.

  /** `decode_template`: the address, decoded under `TemplateAddr` and wrapped unchanged. */
  method DecodeTemplate(cs: SpawnCodecs, iter: NibbleIter) returns (r: Result<TemplateAddr, ParseError>)
    requires iter.Valid() && LawfulCodecs(cs)
    modifies iter
    ensures iter.Valid()
    ensures var d := cs.address.dec(FieldTag(Field.TemplateAddr), old(iter.Remaining()));
      match d
      case Ok((a, rest)) => r == Ok(SvmTypes.TemplateAddr(a)) && iter.Remaining() == rest
      case Err(e) => r == Err(e) && iter.Remaining() == old(iter.Remaining())
  {
    var addr :- Decode(iter, cs.address, FieldTag(Field.TemplateAddr));
    r := Ok(SvmTypes.TemplateAddr(addr));
  }

  /** `decode_name`: a string under `NameLength`/`Name`. */
  method DecodeName(cs: SpawnCodecs, iter: NibbleIter) returns (r: Result<RustString, ParseError>)
    requires iter.Valid() && LawfulCodecs(cs)
    modifies iter
    ensures iter.Valid()
    ensures var d := cs.str.dec(NameTags, old(iter.Remaining()));
      match d
      case Ok((x, rest)) => r == Ok(x) && iter.Remaining() == rest
      case Err(e) => r == Err(e) && iter.Remaining() == old(iter.Remaining())
  {
    r := Decode(iter, cs.str, NameTags);
  }

  /** `decode_ctor`: a string under the same `NameLength`/`Name` tags as the app name. */
  method DecodeCtor(cs: SpawnCodecs, iter: NibbleIter) returns (r: Result<RustString, ParseError>)
    requires iter.Valid() && LawfulCodecs(cs)
    modifies iter
    ensures iter.Valid()
    ensures var d := cs.str.dec(NameTags, old(iter.Remaining()));
      match d
      case Ok((x, rest)) => r == Ok(x) && iter.Remaining() == rest
      case Err(e) => r == Err(e) && iter.Remaining() == old(iter.Remaining())
  {
    r := Decode(iter, cs.str, NameTags);
  }

  /** `decode_ctor_calldata`: the ABI data blob. */
  method DecodeCtorCalldata(cs: SpawnCodecs, iter: NibbleIter) returns (r: Result<seq<byte>, ParseError>)
    requires iter.Valid() && LawfulCodecs(cs)
    modifies iter
    ensures iter.Valid()
    ensures var d := cs.abi.dec(NoTags, old(iter.Remaining()));
      match d
      case Ok((x, rest)) => r == Ok(x) && iter.Remaining() == rest
      case Err(e) => r == Err(e) && iter.Remaining() == old(iter.Remaining())
  {
    r := Decode(iter, cs.abi, NoTags);
  }

  /** `decode_spawn_app`: the fields in encoding order; the first failure is returned. */
  method DecodeSpawnApp(cs: SpawnCodecs, iter: NibbleIter) returns (r: Result<SpawnApp, ParseError>)
    requires iter.Valid() && LawfulCodecs(cs)
    modifies iter
    ensures iter.Valid()
    ensures (r, iter.Remaining()) == DecodeSpawnAppSpec(cs, old(iter.Remaining()))
  {
    ghost var ns0 := iter.Remaining();
    var version :- Decode(iter, cs.version, NoTags);
    ghost var ns1 := iter.Remaining();
    assert cs.version.dec(NoTags, ns0) == Ok((version, ns1));
    var template :- DecodeTemplate(cs, iter);
    ghost var ns2 := iter.Remaining();
    assert cs.address.dec(FieldTag(Field.TemplateAddr), ns1) == Ok((template.inner, ns2));
    assert DecodeSpawnAppSpec(cs, ns0) == DecodeAfterTemplateSpec(cs, version, template.inner, ns2);
    r := DecodeAfterTemplate(cs, iter, version, template);
  }

  /** The rest of `decode_spawn_app` once the version and the template address are read. */
  method DecodeAfterTemplate(cs: SpawnCodecs, iter: NibbleIter, version: u32, template: TemplateAddr)
    returns (r: Result<SpawnApp, ParseError>)
    requires iter.Valid() && LawfulCodecs(cs)
    modifies iter
    ensures iter.Valid()
    ensures (r, iter.Remaining()) == DecodeAfterTemplateSpec(cs, version, template.inner, old(iter.Remaining()))
  {
    ghost var ns2 := iter.Remaining();
    var name :- DecodeName(cs, iter);
    ghost var ns3 := iter.Remaining();
    assert cs.str.dec(NameTags, ns2) == Ok((name, ns3));
    var ctorName :- DecodeCtor(cs, iter);
    ghost var ns4 := iter.Remaining();
    assert cs.str.dec(NameTags, ns3) == Ok((ctorName, ns4));
    var calldata :- DecodeCtorCalldata(cs, iter);
    var app := App(version, name, template);
    r := Ok(SpawnApp(app, ctorName, calldata));
  }

  /** Encoding into a fresh writer and flushing it: the bytes carry the transaction and at most one padding nibble. */
  method SpawnAppBytes(cs: SpawnCodecs, s: SpawnApp) returns (bytes: seq<byte>)
    ensures NibblesOf(bytes) == SpawnAppNibbles(cs, s) + Pad(SpawnAppNibbles(cs, s))
  {
    var w := new NibbleWriter();
    EncodeSpawnApp(cs, s, w);
    bytes := w.IntoBytes();
  }

  /** `encode_decode_spawn_app`: encode, flush to bytes, decode from a fresh iterator. */
  method EncodeDecodeSpawnApp(cs: SpawnCodecs, s: SpawnApp) returns (decoded: Result<SpawnApp, ParseError>)
    requires LawfulCodecs(cs)
    ensures decoded == Ok(s)
  {
    var bytes := SpawnAppBytes(cs, s);
    var iter := new NibbleIter(bytes);
    SpawnAppRoundTrip(cs, s, Pad(SpawnAppNibbles(cs, s)));
    decoded := DecodeSpawnApp(cs, iter);
  }
}
