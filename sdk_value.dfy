/**
 * The value algebra of svm-sdk (`value.rs`): fixed 20-byte addresses in a
 * borrowed and an owned form, their lowercase-hex display, the
 * `Primitive`/`Composite`/`Value` enums, and the conversions between values
 * and Rust types, including fixed-length array extraction.
 *
 * A `panic!`/`unreachable!()` of the source is a `None` result here.
 */
module SdkValue {
  import opened Ints
  import opened Wrappers
  import opened Nibbles

  type Bytes20 = s: seq<byte> | |s| == 20 witness seq(20, _ => 0)

  /** The borrowed address (`Address<'a>(&[u8; 20])`). */
  datatype Address = Address(bytes: Bytes20)

  /** The owned address (`AddressOwned([u8; 20])`). */
  datatype AddressOwned = AddressOwned(bytes: Bytes20)

  /** `svm_sdk::Amount`, a wrapped `u64`. */
  datatype Amount = Amount(value: u64)

  datatype Primitive =
    | None
    | Bool(bool)
    | Address(Address)
    | AddressOwned(AddressOwned)
    | Amount(Amount)
    | I8(i8)
    | U8(byte)
    | I16(i16)
    | U16(u16)
    | I32(i32)
    | U32(u32)
    | I64(i64)
    | U64(u64)

  datatype Composite = Array(items: seq<Value>) | ArrayOwned(items: seq<Value>)

  datatype Value = Primitive(prim: Primitive) | Composite(comp: Composite)

  // ---------------------------------------------------------------------
  // Addresses

  /** `Address::to_owned`: the same bytes, owned. */
  function ToOwned(a: Address): (r: AddressOwned)
    ensures r.bytes == a.bytes
  {
    AddressOwned.AddressOwned(a.bytes)
  }

  /** `AddressOwned::deref`: the same bytes, borrowed. */
  function Deref(o: AddressOwned): (r: Address)
    ensures r.bytes == o.bytes
  {
    Address.Address(o.bytes)
  }

  lemma OwnedBorrowedInverse(a: Address, o: AddressOwned)
    ensures Deref(ToOwned(a)) == a
    ensures ToOwned(Deref(o)) == o
  {
  }

  /** `From<&[u8]> for Address`: the slice must be exactly 20 bytes long. */
  function AddressFromSlice(bytes: seq<byte>): (r: Option<Address>)
    ensures r.Some? <==> |bytes| == 20
    ensures r.Some? ==> r.value.bytes == bytes
  {
    if |bytes| == 20 then Some(Address.Address(bytes)) else Option.None
  }

  /** `From<&[u8]>` and `From<Vec<u8>>` for `AddressOwned`: the borrowed conversion, then `to_owned`. */
  function AddressOwnedFromSlice(bytes: seq<byte>): (r: Option<AddressOwned>)
    ensures r.Some? <==> |bytes| == 20
    ensures r.Some? ==> r.value.bytes == bytes
  {
    var a :- AddressFromSlice(bytes);
    Some(ToOwned(a))
  }

  // ---------------------------------------------------------------------
  // Hex display

  /** `char::from_digit(d, 16)`: lowercase hex digits. */
  function HexDigit(d: Nibble): (c: char)
    ensures '0' <= c <= '9' || 'a' <= c <= 'f'
  {
    if d < 10 then ('0' as int + d) as char else ('a' as int + d - 10) as char
  }

  predicate IsHexDigit(c: char)
  {
    '0' <= c <= '9' || 'a' <= c <= 'f'
  }

  /** The value of a lowercase hex digit. */
  function DigitValue(c: char): (d: Nibble)
    requires IsHexDigit(c)
  {
    if c <= '9' then c as int - '0' as int else c as int - 'a' as int + 10
  }

  lemma DigitRoundTrip(d: Nibble)
    ensures IsHexDigit(HexDigit(d)) && DigitValue(HexDigit(d)) == d
  {
  }

  /** `byte_as_chars`: the hex digits of the high and then the low nibble. */
  function ByteAsChars(b: byte): (r: (char, char))
    ensures IsHexDigit(r.0) && IsHexDigit(r.1)
    ensures DigitValue(r.0) * 16 + DigitValue(r.1) == b
  {
    DigitRoundTrip(High(b));
    DigitRoundTrip(Low(b));
    (HexDigit(High(b)), HexDigit(Low(b)))
  }

  /** The text an address displays as: two hex characters per byte, in byte order. */
  function HexOf(bs: seq<byte>): (s: string)
    ensures |s| == 2 * |bs|
    ensures forall i :: 0 <= i < |bs| ==> (s[2 * i], s[2 * i + 1]) == ByteAsChars(bs[i])
  {
    if bs == [] then "" else
    var s := HexOf(bs[..|bs| - 1]);
    var (a, b) := ByteAsChars(bs[|bs| - 1]);
    s + [a, b]
  }

  /** Reading hex text back, two characters per byte. */
  function FromHex(s: string): (bs: seq<byte>)
    requires |s| % 2 == 0 && forall i :: 0 <= i < |s| ==> IsHexDigit(s[i])
    ensures |bs| == |s| / 2
  {
    seq(|s| / 2, i requires 0 <= i < |s| / 2 => DigitValue(s[2 * i]) * 16 + DigitValue(s[2 * i + 1]))
  }

  /** The display loses nothing: the bytes can be read back from it. */
  lemma {:induction false} HexRoundTrip(bs: seq<byte>)
    ensures var s := HexOf(bs);
      (forall i :: 0 <= i < |s| ==> IsHexDigit(s[i])) && FromHex(s) == bs
  {
    var s := HexOf(bs);
    forall i | 0 <= i < |s|
      ensures IsHexDigit(s[i])
    {
      var k := i / 2;
      assert (s[2 * k], s[2 * k + 1]) == ByteAsChars(bs[k]);
    }
    forall k | 0 <= k < |bs|
      ensures FromHex(s)[k] == bs[k]
    {
      assert (s[2 * k], s[2 * k + 1]) == ByteAsChars(bs[k]);
    }
  }

  /** `Display for Address`: one `byte_as_chars` pair per byte, written in order. */
  method Display(a: Address) returns (s: string)
    ensures s == HexOf(a.bytes)
    ensures |s| == 40
  {
    s := "";
    var i := 0;
    while i < |a.bytes|
      invariant 0 <= i <= |a.bytes|
      invariant s == HexOf(a.bytes[..i])
    {
      var (c0, c1) := ByteAsChars(a.bytes[i]);
      assert a.bytes[..i + 1][..i] == a.bytes[..i];
      s := s + [c0, c1];
      i := i + 1;
    }
    assert a.bytes[..i] == a.bytes;
  }

  /** `Display for AddressOwned`: the display of `deref`. */
  method DisplayOwned(o: AddressOwned) returns (s: string)
    ensures s == HexOf(o.bytes)
  {
    s := Display(Deref(o));
  }

  // ---------------------------------------------------------------------
  // Conversions between values and Rust types

  /** The Rust types a `Value` converts to and from. */
  datatype RustKind =
    | BoolKind | AmountKind | I8Kind | U8Kind | I16Kind | U16Kind
    | I32Kind | U32Kind | I64Kind | U64Kind | AddressKind | AddressOwnedKind
  {
    /** The kinds that also convert to `Option<T>`. */
    predicate IsScalar() { this != AddressKind && this != AddressOwnedKind }
  }

  /** A Rust value of one of those types. */
  datatype RustValue =
    | RustBool(flag: bool)
    | RustAmount(amount: Amount)
    | RustI8(i8)
    | RustU8(byte)
    | RustI16(i16)
    | RustU16(u16)
    | RustI32(i32)
    | RustU32(u32)
    | RustI64(i64)
    | RustU64(u64)
    | RustAddress(address: Address)
    | RustAddressOwned(AddressOwned)

  function KindOf(x: RustValue): RustKind
  {
    match x
    case RustBool(_) => BoolKind
    case RustAmount(_) => AmountKind
    case RustI8(_) => I8Kind
    case RustU8(_) => U8Kind
    case RustI16(_) => I16Kind
    case RustU16(_) => U16Kind
    case RustI32(_) => I32Kind
    case RustU32(_) => U32Kind
    case RustI64(_) => I64Kind
    case RustU64(_) => U64Kind
    case RustAddress(_) => AddressKind
    case RustAddressOwned(_) => AddressOwnedKind
  }

  /** `From<T> for Value`: the matching `Primitive` variant. */
  function IntoValue(x: RustValue): (v: Value)
    ensures v.Primitive? && !v.prim.None?
  {
    match x
    case RustBool(b) => Primitive(Bool(b))
    case RustAmount(a) => Primitive(Primitive.Amount(a))
    case RustI8(n) => Primitive(I8(n))
    case RustU8(n) => Primitive(U8(n))
    case RustI16(n) => Primitive(I16(n))
    case RustU16(n) => Primitive(U16(n))
    case RustI32(n) => Primitive(I32(n))
    case RustU32(n) => Primitive(U32(n))
    case RustI64(n) => Primitive(I64(n))
    case RustU64(n) => Primitive(U64(n))
    case RustAddress(a) => Primitive(Primitive.Address(a))
    case RustAddressOwned(a) => Primitive(Primitive.AddressOwned(a))
  }

  /** `From<&[Value]> for Value` and `From<Vec<Value>> for Value`. */
  function SliceIntoValue(xs: seq<Value>): (v: Value)
    ensures v.Composite? && v.comp.Array? && v.comp.items == xs
  {
    Composite(Array(xs))
  }

  function VecIntoValue(xs: seq<Value>): (v: Value)
    ensures v.Composite? && v.comp.ArrayOwned? && v.comp.items == xs
  {
    Composite(ArrayOwned(xs))
  }

  /**
   * `From<Value> for T`: only the matching variant converts; an
   * `AddressOwned` is also taken from a borrowed `Address`, via `to_owned`.
   */
  function FromValue(k: RustKind, v: Value): (r: Option<RustValue>)
    ensures r.Some? ==> KindOf(r.value) == k
  {
    match (k, v)
    case (BoolKind, Primitive(Bool(b))) => Some(RustBool(b))
    case (AmountKind, Primitive(Amount(a))) => Some(RustAmount(a))
    case (I8Kind, Primitive(I8(n))) => Some(RustI8(n))
    case (U8Kind, Primitive(U8(n))) => Some(RustU8(n))
    case (I16Kind, Primitive(I16(n))) => Some(RustI16(n))
    case (U16Kind, Primitive(U16(n))) => Some(RustU16(n))
    case (I32Kind, Primitive(I32(n))) => Some(RustI32(n))
    case (U32Kind, Primitive(U32(n))) => Some(RustU32(n))
    case (I64Kind, Primitive(I64(n))) => Some(RustI64(n))
    case (U64Kind, Primitive(U64(n))) => Some(RustU64(n))
    case (AddressKind, Primitive(Address(a))) => Some(RustAddress(a))
    case (AddressOwnedKind, Primitive(Address(a))) => Some(RustAddressOwned(ToOwned(a)))
    case (AddressOwnedKind, Primitive(AddressOwned(a))) => Some(RustAddressOwned(a))
    case _ => Option.None
  }

  /** `From<Value> for Option<T>`: `Primitive::None` is `None`, the matching variant `Some`. */
  function OptionFromValue(k: RustKind, v: Value): (r: Option<Option<RustValue>>)
    requires k.IsScalar()
    ensures r == Some(Option.None) <==> v == Primitive(Primitive.None)
  {
    if v == Primitive(Primitive.None) then Some(Option.None)
    else
      var x :- FromValue(k, v);
      Some(Some(x))
  }

  /** `T -> Value -> T` is the identity for every type. */
  lemma IntoFromRoundTrip(x: RustValue)
    ensures FromValue(KindOf(x), IntoValue(x)) == Some(x)
  {
  }

  /** A value converts to `T` exactly when it is the image of a `T`. */
  lemma {:induction false} FromValueExactlyImages(k: RustKind, v: Value)
    requires k != AddressOwnedKind
    ensures FromValue(k, v).Some? <==> exists x :: KindOf(x) == k && IntoValue(x) == v
    ensures FromValue(k, v).Some? ==> IntoValue(FromValue(k, v).value) == v
  {
    if FromValue(k, v).Some? {
      var x := FromValue(k, v).value;
      assert IntoValue(x) == v;
    } else if x :| KindOf(x) == k && IntoValue(x) == v {
      IntoFromRoundTrip(x);
      assert false;
    }
  }

  /** `Option<T>` round trip, and `None` from `Primitive::None`. */
  lemma OptionRoundTrip(x: RustValue)
    requires KindOf(x).IsScalar()
    ensures OptionFromValue(KindOf(x), IntoValue(x)) == Some(Some(x))
    ensures OptionFromValue(KindOf(x), Primitive(Primitive.None)) == Some(Option.None)
  {
    IntoFromRoundTrip(x);
  }

  /** `AddressOwned` is taken from either address variant, with the same bytes. */
  lemma AddressOwnedFromEither(bytes: Bytes20)
    ensures FromValue(AddressOwnedKind, IntoValue(RustAddress(Address.Address(bytes))))
         == Some(RustAddressOwned(AddressOwned.AddressOwned(bytes)))
    ensures FromValue(AddressOwnedKind, IntoValue(RustAddressOwned(AddressOwned.AddressOwned(bytes))))
         == Some(RustAddressOwned(AddressOwned.AddressOwned(bytes)))
  {
  }

  // ---------------------------------------------------------------------
  // Arrays

  /**
   * `From<Value> for [T; n]`: an `ArrayOwned` of exactly `n` values, each
   * converted to `T`, in order.
   */
  function ToArraySpec(k: RustKind, n: nat, v: Value): (r: Option<seq<RustValue>>)
    ensures r.Some? ==> |r.value| == n && forall i :: 0 <= i < n ==> KindOf(r.value[i]) == k
  {
    if v.Composite? && v.comp.ArrayOwned? && |v.comp.items| == n
       && forall i :: 0 <= i < n ==> FromValue(k, v.comp.items[i]).Some?
    then Some(seq(n, i requires 0 <= i < n => FromValue(k, v.comp.items[i]).value))
    else Option.None
  }

  /** The conversion fills a fresh array slot by slot while draining the values. */
  method ToArray(k: RustKind, n: nat, v: Value) returns (r: Option<seq<RustValue>>)
    requires 1 <= n <= 10
    ensures r == ToArraySpec(k, n, v)
  {
    if !(v.Composite? && v.comp.ArrayOwned?) {
      return Option.None;
    }
    var values := v.comp.items;
    if |values| != n {
      return Option.None;
    }
    // the slots start uninitialised; this placeholder is overwritten before it is read
    var slots := new RustValue[n](_ => RustBool(false));
    var i := 0;
    while i < n
      invariant 0 <= i <= n
      invariant forall j :: 0 <= j < i ==> FromValue(k, values[j]).Some? && slots[j] == FromValue(k, values[j]).value
    {
      var x := FromValue(k, values[i]);
      if x.None? {
        assert !FromValue(k, v.comp.items[i]).Some?;
        return Option.None;
      }
      slots[i] := x.value;
      i := i + 1;
    }
    assert slots[..] == seq(n, j requires 0 <= j < n => FromValue(k, values[j]).value);
    r := Some(slots[..]);
  }

  /** Arrays round-trip: `n` values of one type, wrapped and owned, come back in order. */
  lemma ArrayRoundTrip(k: RustKind, xs: seq<RustValue>)
    requires forall i :: 0 <= i < |xs| ==> KindOf(xs[i]) == k
    ensures ToArraySpec(k, |xs|, VecIntoValue(seq(|xs|, i requires 0 <= i < |xs| => IntoValue(xs[i])))) == Some(xs)
  {
    var vs := seq(|xs|, i requires 0 <= i < |xs| => IntoValue(xs[i]));
    forall i | 0 <= i < |xs|
      ensures FromValue(k, vs[i]) == Some(xs[i])
    {
      IntoFromRoundTrip(xs[i]);
    }
    assert seq(|xs|, i requires 0 <= i < |xs| => FromValue(k, vs[i]).value) == xs;
  }
}
