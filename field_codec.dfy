/**
 * The field helpers of svm-codec (`encode_version`, `encode_address`,
 * `encode_string`, `encode_abi_data`, `encode_deploy_template` and their
 * decoders) are not part of this model. Each is taken as an abstract pair: an
 * encoder to nibbles and a decoder from nibbles, bound only by the round-trip
 * law `decode(encode(x) ++ rest) == (x, rest)`.
 */
module FieldCodec {
  import opened Ints
  import opened Wrappers
  import opened Nibbles

  /** The field tags of svm-codec that the core files name. */
  datatype Field = Version | TemplateAddr | Author | NameLength | Name | CallData | DeployTemplate

  datatype ParseErrorKind = NotEnoughBytes | EmptyField | InvalidUtf8String | UnsupportedValue

  /** A failed decode names the field it was decoding. */
  datatype ParseError = ParseError(kind: ParseErrorKind, field: Field)

  /** The field tags a decoder is called with. */
  datatype Tags = NoTags | FieldTag(field: Field) | LengthAndBody(length: Field, body: Field)

  /** A decoder's error carries one of the tags it was given. */
  predicate Tagged(tags: Tags, e: ParseError)
  {
    match tags
    case NoTags => true
    case FieldTag(f) => e.field == f
    case LengthAndBody(l, b) => e.field == l || e.field == b
  }

  datatype Codec<!T> = Codec(
    enc: T -> seq<Nibble>,
    dec: (Tags, seq<Nibble>) -> Result<(T, seq<Nibble>), ParseError>)

  predicate IsSuffix(rest: seq<Nibble>, ns: seq<Nibble>)
  {
    |rest| <= |ns| && rest == ns[|ns| - |rest|..]
  }

  /**
   * What the model assumes of every field helper: decoding an encoding yields
   * the value and leaves what follows untouched; a decoder only reads forward;
   * its errors carry its tags.
   */
  ghost predicate Lawful<T(!new)>(c: Codec<T>)
  {
    && (forall tags, x, rest :: c.dec(tags, c.enc(x) + rest) == Ok((x, rest)))
    && (forall tags, ns :: c.dec(tags, ns).Ok? ==> IsSuffix(c.dec(tags, ns).value.1, ns))
    && (forall tags, ns :: c.dec(tags, ns).Err? ==> Tagged(tags, c.dec(tags, ns).error))
  }

  /** Appends the encoding of `x` to the writer. */
  method Encode<T>(w: NibbleWriter, c: Codec<T>, x: T)
    modifies w
    ensures w.nibbles == old(w.nibbles) + c.enc(x)
  {
    w.Write(c.enc(x));
  }

  /**
   * Runs a field decoder on the iterator: on success the iterator has advanced
   * past exactly the nibbles the decoder consumed, one `next` at a time.
   */
  method Decode<T(!new)>(iter: NibbleIter, c: Codec<T>, tags: Tags) returns (r: Result<T, ParseError>)
    requires iter.Valid() && Lawful(c)
    modifies iter
    ensures iter.Valid()
    ensures var d := c.dec(tags, old(iter.Remaining()));
      match d
      case Ok((x, rest)) => r == Ok(x) && iter.Remaining() == rest
      case Err(e) => r == Err(e) && iter.Remaining() == old(iter.Remaining())
  {
    var rem := iter.Remaining();
    match c.dec(tags, rem)
    case Err(e) =>
      r := Err(e);
    case Ok((x, rest)) =>
      var k := |rem| - |rest|;
      var i := 0;
      while i < k
        invariant iter.Valid()
        invariant 0 <= i <= k
        invariant iter.Remaining() == rem[i..]
      {
        var _ := iter.Next();
        i := i + 1;
      }
      r := Ok(x);
  }
}
