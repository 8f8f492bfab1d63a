/**
 * The legacy on-the-wire contract parser of svm-contract (`wire/parse.rs`).
 * Layout: version (u32 big-endian, must be 0), name length (u8, non-zero),
 * name, author (32 bytes), admins count (u8, must be 0), deps count
 * (u16 big-endian, must be 0), code length (u64 big-endian), code.
 *
 * The parser as written never reads the name or the code: both are read into
 * a vector created with a capacity but length zero. `NameStep`/`CodeStep`
 * model that; `NameStepIntended`/`CodeStepIntended` read the declared lengths.
 */
module ContractParse {
  import opened Ints
  import opened Wrappers
  import opened Utf8

  datatype Field = Version | NameLength | Name | Author | AdminsCount | DepsCount | CodeLength | Code

  datatype Error =
    | NotEnoughBytes(field: Field)
    | UnsupportedProtoVersion(version: u32)
    | EmptyName
    | NameNotValidUTF8String
    | AdminsNotSupportedYet
    | DepsNotSupportedYet

  /** `svm_common::Address`: 32 bytes. */
  type Address = s: seq<byte> | |s| == 32 witness seq(32, _ => 0)

  datatype WasmContract = WasmContract(name: RustString, wasm: seq<byte>, author: Address, admins: seq<Address>)

  // ---------------------------------------------------------------------
  // Reading at a position

  /** `n` bytes at `pos`, if that many are left. */
  function TakeAt(bytes: seq<byte>, pos: nat, n: nat): (r: Option<seq<byte>>)
    ensures r.Some? <==> pos + n <= |bytes|
    ensures r.Some? ==> r.value == bytes[pos..pos + n]
  {
    if pos + n <= |bytes| then Some(bytes[pos..pos + n]) else None
  }

  /** A `k`-byte big-endian unsigned integer at `pos`, if that many bytes are left. */
  function BeAt(bytes: seq<byte>, pos: nat, k: nat): (r: Option<nat>)
    ensures r.Some? <==> pos + k <= |bytes|
    ensures r.Some? ==> r.value == BeToNat(bytes[pos..pos + k]) && r.value < Pow256(k)
  {
    if pos + k <= |bytes| then BeBound(bytes[pos..pos + k]); Some(BeToNat(bytes[pos..pos + k])) else None
  }

  /** A big-endian u32 at `pos`. */
  function U32At(bytes: seq<byte>, pos: nat): (v: u32)
    requires pos + 4 <= |bytes|
    ensures v == BeToNat(bytes[pos..pos + 4])
  {
    Pow256Widths();
    BeBound(bytes[pos..pos + 4]);
    BeToNat(bytes[pos..pos + 4])
  }

  lemma Pow256Widths()
    ensures Pow256(1) == 0x100 && Pow256(2) == 0x1_0000
    ensures Pow256(4) == 0x1_0000_0000 && Pow256(8) == 0x1_0000_0000_0000_0000
  {
  }

  /** A `std::io::Cursor` over the input: the bytes and a read position. */
  class Cursor {
    const bytes: seq<byte>
    var pos: nat

    ghost predicate Valid()
      reads this
    {
      pos <= |bytes|
    }

    constructor (bytes: seq<byte>)
      ensures Valid() && this.bytes == bytes && pos == 0
    {
      this.bytes := bytes;
      pos := 0;
    }

    /** `read_exact` into a buffer of length `n`: the position moves only on success. */
    method ReadExact(n: nat) returns (r: Option<seq<byte>>)
      requires Valid()
      modifies this
      ensures Valid()
      ensures r == TakeAt(bytes, old(pos), n)
      ensures pos == if r.Some? then old(pos) + n else old(pos)
    {
      if pos + n <= |bytes| {
        r := Some(bytes[pos..pos + n]);
        pos := pos + n;
      } else {
        r := None;
      }
    }

    /** `read_u8`, and `read_u16`/`read_u32`/`read_u64` with `BigEndian`, for `k` = 1, 2, 4, 8. */
    method ReadBe(k: nat) returns (r: Option<nat>)
      requires Valid()
      modifies this
      ensures Valid()
      ensures r == BeAt(bytes, old(pos), k)
      ensures pos == if r.Some? then old(pos) + k else old(pos)
    {
      var bs := ReadExact(k);
      if bs.None? {
        return None;
      }
      BeBound(bs.value);
      r := Some(BeToNat(bs.value));
    }
  }

  // ---------------------------------------------------------------------
  // One field: its outcome and the position after it

  /** `parse_version`. */
  function VersionStep(bytes: seq<byte>, pos: nat): (r: (Result<u32, Error>, nat))
    ensures r.0.Ok? <==> pos + 4 <= |bytes| && forall i :: pos <= i < pos + 4 ==> bytes[i] == 0
    ensures r.0.Ok? ==> r.0.value == 0 && r.1 == pos + 4
    ensures pos + 4 > |bytes| <==> r.0 == Err(NotEnoughBytes(Version))
    ensures pos + 4 > |bytes| ==> r.1 == pos
    ensures pos + 4 <= |bytes| && U32At(bytes, pos) != 0 ==>
      r == (Err(UnsupportedProtoVersion(U32At(bytes, pos))), pos + 4)
  {
    if pos + 4 > |bytes| then (Err(NotEnoughBytes(Version)), pos)
    else
      var v := U32At(bytes, pos);
      BeZero(bytes[pos..pos + 4]);
      assert forall i :: pos <= i < pos + 4 ==> bytes[i] == bytes[pos..pos + 4][i - pos];
      if v != 0 then (Err(UnsupportedProtoVersion(v)), pos + 4)
      else (Ok(0), pos + 4)
  }

  /**
   * `parse_name` as written: a missing length byte and a zero length are
   * reported; for any other length the zero-length buffer reads nothing,
   * decodes as an empty string, and the inverted test reports it invalid.
   */
  function NameStep(bytes: seq<byte>, pos: nat): (r: (Result<RustString, Error>, nat))
    ensures r.0.Err?
    ensures r.0.error == (if pos >= |bytes| then NotEnoughBytes(NameLength)
                          else if bytes[pos] == 0 then EmptyName
                          else NameNotValidUTF8String)
  {
    var len := BeAt(bytes, pos, 1);
    if len.None? then (Err(NotEnoughBytes(NameLength)), pos)
    else if len.value == 0 then (Err(EmptyName), pos + 1)
    else (Err(NameNotValidUTF8String), pos + 1)
  }

  /** `parse_name` reading the declared number of bytes and accepting valid UTF-8. */
  function NameStepIntended(bytes: seq<byte>, pos: nat): (r: (Result<RustString, Error>, nat))
    ensures r.0.Ok? <==> pos < |bytes| && 0 < bytes[pos] && pos + 1 + bytes[pos] <= |bytes|
                         && ValidUtf8(bytes[pos + 1..pos + 1 + bytes[pos]])
    ensures r.0.Ok? ==> r.0.value == bytes[pos + 1..pos + 1 + bytes[pos]] && r.1 == pos + 1 + bytes[pos]
  {
    var len := BeAt(bytes, pos, 1);
    if len.None? then (Err(NotEnoughBytes(NameLength)), pos)
    else if len.value == 0 then (Err(EmptyName), pos + 1)
    else
      var buf := TakeAt(bytes, pos + 1, len.value);
      if buf.None? then (Err(NotEnoughBytes(Name)), pos + 1)
      else if ValidUtf8(buf.value) then (Ok(buf.value), pos + 1 + len.value)
      else (Err(NameNotValidUTF8String), pos + 1 + len.value)
  }

  /** `parse_address`: 32 bytes, or `NotEnoughBytes(field)`. */
  function AddressStep(bytes: seq<byte>, pos: nat, field: Field): (r: (Result<Address, Error>, nat))
    ensures r.0.Ok? <==> pos + 32 <= |bytes|
    ensures r.0.Ok? ==> r.0.value == bytes[pos..pos + 32] && r.1 == pos + 32
    ensures r.0.Err? ==> r.0.error == NotEnoughBytes(field)
  {
    var addr := TakeAt(bytes, pos, 32);
    if addr.None? then (Err(NotEnoughBytes(field)), pos) else (Ok(addr.value), pos + 32)
  }

  /** `parse_admins`: a count byte that must be zero; the list is empty. */
  function AdminsStep(bytes: seq<byte>, pos: nat): (r: (Result<seq<Address>, Error>, nat))
    ensures r.0.Ok? <==> pos < |bytes| && bytes[pos] == 0
    ensures r.0.Ok? ==> r.0.value == [] && r.1 == pos + 1
    ensures pos >= |bytes| ==> r == (Err(NotEnoughBytes(AdminsCount)), pos)
    ensures pos < |bytes| && bytes[pos] > 0 ==> r == (Err(AdminsNotSupportedYet), pos + 1)
  {
    var count := BeAt(bytes, pos, 1);
    if count.None? then (Err(NotEnoughBytes(AdminsCount)), pos)
    else if count.value > 0 then (Err(AdminsNotSupportedYet), pos + 1)
    else (Ok([]), pos + 1)
  }

  /** `parse_deps`: a big-endian u16 count that must be zero. */
  function DepsStep(bytes: seq<byte>, pos: nat): (r: (Result<(), Error>, nat))
    ensures r.0.Ok? <==> pos + 2 <= |bytes| && bytes[pos] == 0 && bytes[pos + 1] == 0
    ensures r.0.Ok? ==> r.1 == pos + 2
    ensures pos + 2 > |bytes| ==> r == (Err(NotEnoughBytes(DepsCount)), pos)
    ensures pos + 2 <= |bytes| && (bytes[pos] > 0 || bytes[pos + 1] > 0) ==> r == (Err(DepsNotSupportedYet), pos + 2)
  {
    var count := BeAt(bytes, pos, 2);
    if count.None? then (Err(NotEnoughBytes(DepsCount)), pos)
    else
      BeZero(bytes[pos..pos + 2]);
      if count.value > 0 then (Err(DepsNotSupportedYet), pos + 2)
      else (Ok(()), pos + 2)
  }

  /**
   * `parse_code` as written: the length is read and checked for presence,
   * but the zero-length buffer reads nothing, so the code is always empty.
   */
  function CodeStep(bytes: seq<byte>, pos: nat): (r: (Result<seq<byte>, Error>, nat))
    ensures r.0.Ok? <==> pos + 8 <= |bytes|
    ensures r.0.Ok? ==> r.0.value == [] && r.1 == pos + 8
    ensures r.0.Err? ==> r.0.error == NotEnoughBytes(CodeLength)
  {
    var len := BeAt(bytes, pos, 8);
    if len.None? then (Err(NotEnoughBytes(CodeLength)), pos)
    else (Ok([]), pos + 8)
  }

  /** `parse_code` reading the declared number of code bytes. */
  function CodeStepIntended(bytes: seq<byte>, pos: nat): (r: (Result<seq<byte>, Error>, nat))
    ensures r.0.Ok? <==> pos + 8 <= |bytes| && pos + 8 + BeToNat(bytes[pos..pos + 8]) <= |bytes|
    ensures r.0.Ok? ==>
      r.0.value == bytes[pos + 8..pos + 8 + BeToNat(bytes[pos..pos + 8])] && r.1 == pos + 8 + |r.0.value|
  {
    var len := BeAt(bytes, pos, 8);
    if len.None? then (Err(NotEnoughBytes(CodeLength)), pos)
    else
      var code := TakeAt(bytes, pos + 8, len.value);
      if code.None? then (Err(NotEnoughBytes(Code)), pos + 8)
      else (Ok(code.value), pos + 8 + len.value)
  }

  // ---------------------------------------------------------------------
  // The whole contract

  /** Which reader runs for the name and for the code: the one as written, or the corrected one. */
  datatype Reader = AsWritten | Intended

  function NameStepBy(reader: Reader, bytes: seq<byte>, pos: nat): (Result<RustString, Error>, nat)
  {
    if reader == AsWritten then NameStep(bytes, pos) else NameStepIntended(bytes, pos)
  }

  function CodeStepBy(reader: Reader, bytes: seq<byte>, pos: nat): (Result<seq<byte>, Error>, nat)
  {
    if reader == AsWritten then CodeStep(bytes, pos) else CodeStepIntended(bytes, pos)
  }

  /**
   * `parse_contract`: the fields in order, each from where the previous one
   * ended; the first error wins. `parse_contract` as written is
   * `ParseContractSpec(bytes, AsWritten, AsWritten)`.
   */
  function ParseContractSpec(bytes: seq<byte>, names: Reader, code: Reader): Result<WasmContract, Error>
  {
    var (version, p1) := VersionStep(bytes, 0);
    if version.Err? then Err(version.error) else
    var (name, p2) := NameStepBy(names, bytes, p1);
    if name.Err? then Err(name.error) else
    var (author, p3) := AddressStep(bytes, p2, Author);
    if author.Err? then Err(author.error) else
    var (admins, p4) := AdminsStep(bytes, p3);
    if admins.Err? then Err(admins.error) else
    var (deps, p5) := DepsStep(bytes, p4);
    if deps.Err? then Err(deps.error) else
    var (wasm, p6) := CodeStepBy(code, bytes, p5);
    if wasm.Err? then Err(wasm.error) else
    Ok(WasmContract(name.value, wasm.value, author.value, admins.value))
  }

  // ---------------------------------------------------------------------
  // The parser over a cursor

  method ParseVersion(c: Cursor) returns (r: Result<u32, Error>)
    requires c.Valid()
    modifies c
    ensures c.Valid()
    ensures (r, c.pos) == VersionStep(c.bytes, old(c.pos))
  {
    var res := c.ReadBe(4);
    if res.None? {
      return Err(NotEnoughBytes(Version));
    }
    Pow256Widths();
    var version := res.value;
    if version != 0 {
      return Err(UnsupportedProtoVersion(version));
    }
    r := Ok(version);
  }

  /** `parse_name` as written (the buffer has capacity `name_len` and length 0). */
  method ParseName(c: Cursor) returns (r: Result<RustString, Error>)
    requires c.Valid()
    modifies c
    ensures c.Valid()
    ensures (r, c.pos) == NameStep(c.bytes, old(c.pos))
  {
    var res := c.ReadBe(1);
    if res.None? {
      return Err(NotEnoughBytes(NameLength));
    }
    var nameLen := res.value;
    if nameLen == 0 {
      return Err(EmptyName);
    }
    var nameBuf: seq<byte> := [];
    var read := c.ReadExact(|nameBuf|);
    if read.None? {
      return Err(NotEnoughBytes(Name));
    }
    if ValidUtf8(nameBuf) {
      r := Err(NameNotValidUTF8String);
    } else {
      // `unwrap` of a failed conversion, which would panic; the empty buffer is valid UTF-8
      assert false;
    }
  }

  /** `parse_name` with a buffer of length `name_len`. */
  method ParseNameIntended(c: Cursor) returns (r: Result<RustString, Error>)
    requires c.Valid()
    modifies c
    ensures c.Valid()
    ensures (r, c.pos) == NameStepIntended(c.bytes, old(c.pos))
  {
    var res := c.ReadBe(1);
    if res.None? {
      return Err(NotEnoughBytes(NameLength));
    }
    var nameLen := res.value;
    if nameLen == 0 {
      return Err(EmptyName);
    }
    var read := c.ReadExact(nameLen);
    if read.None? {
      return Err(NotEnoughBytes(Name));
    }
    if ValidUtf8(read.value) {
      r := Ok(read.value);
    } else {
      r := Err(NameNotValidUTF8String);
    }
  }

  method ParseAddress(c: Cursor, field: Field) returns (r: Result<Address, Error>)
    requires c.Valid()
    modifies c
    ensures c.Valid()
    ensures (r, c.pos) == AddressStep(c.bytes, old(c.pos), field)
  {
    var res := c.ReadExact(32);
    if res.None? {
      return Err(NotEnoughBytes(field));
    }
    r := Ok(res.value);
  }

  method ParseAuthor(c: Cursor) returns (r: Result<Address, Error>)
    requires c.Valid()
    modifies c
    ensures c.Valid()
    ensures (r, c.pos) == AddressStep(c.bytes, old(c.pos), Author)
  {
    r := ParseAddress(c, Author);
  }

  method ParseAdmins(c: Cursor) returns (r: Result<seq<Address>, Error>)
    requires c.Valid()
    modifies c
    ensures c.Valid()
    ensures (r, c.pos) == AdminsStep(c.bytes, old(c.pos))
  {
    var res := c.ReadBe(1);
    if res.None? {
      return Err(NotEnoughBytes(AdminsCount));
    }
    if res.value > 0 {
      return Err(AdminsNotSupportedYet);
    }
    r := Ok([]);
  }

  method ParseDeps(c: Cursor) returns (r: Result<(), Error>)
    requires c.Valid()
    modifies c
    ensures c.Valid()
    ensures (r, c.pos) == DepsStep(c.bytes, old(c.pos))
  {
    var res := c.ReadBe(2);
    if res.None? {
      return Err(NotEnoughBytes(DepsCount));
    }
    if res.value > 0 {
      return Err(DepsNotSupportedYet);
    }
    r := Ok(());
  }

  /** `parse_code` as written (the buffer has capacity `code_len` and length 0). */
  method ParseCode(c: Cursor) returns (r: Result<seq<byte>, Error>)
    requires c.Valid()
    modifies c
    ensures c.Valid()
    ensures (r, c.pos) == CodeStep(c.bytes, old(c.pos))
  {
    var res := c.ReadBe(8);
    if res.None? {
      return Err(NotEnoughBytes(CodeLength));
    }
    var code: seq<byte> := [];
    var read := c.ReadExact(|code|);
    if read.None? {
      return Err(NotEnoughBytes(Code));
    }
    r := Ok(code);
  }

  /** `parse_code` with a buffer of length `code_len`. */
  method ParseCodeIntended(c: Cursor) returns (r: Result<seq<byte>, Error>)
    requires c.Valid()
    modifies c
    ensures c.Valid()
    ensures (r, c.pos) == CodeStepIntended(c.bytes, old(c.pos))
  {
    var res := c.ReadBe(8);
    if res.None? {
      return Err(NotEnoughBytes(CodeLength));
    }
    var read := c.ReadExact(res.value);
    if read.None? {
      return Err(NotEnoughBytes(Code));
    }
    r := Ok(read.value);
  }

  /** `parse_contract` threading one cursor through the six field parsers. */
  method ParseContract(bytes: seq<byte>, names: Reader, code: Reader) returns (r: Result<WasmContract, Error>)
    ensures r == ParseContractSpec(bytes, names, code)
  {
    var c := new Cursor(bytes);
    var _ :- ParseVersion(c);
    var name;
    if names == AsWritten {
      // as written, `parse_name` never succeeds (see `NameStep`), so `?` returns here
      var res := ParseName(c);
      return Err(res.error);
    } else {
      name :- ParseNameIntended(c);
    }
    var author :- ParseAuthor(c);
    var admins :- ParseAdmins(c);
    var _ :- ParseDeps(c);
    var wasm;
    if code == AsWritten {
      wasm :- ParseCode(c);
    } else {
      wasm :- ParseCodeIntended(c);
    }
    r := Ok(WasmContract(name, wasm, author, admins));
  }

  // ---------------------------------------------------------------------
  // Properties

  /**
   * What `parse_contract` as written returns: only the first five bytes
   * matter, and no input is accepted.
   */
  lemma ParseContractOutcome(bytes: seq<byte>, code: Reader)
    ensures ParseContractSpec(bytes, AsWritten, code) ==
      if |bytes| < 4 then Err(NotEnoughBytes(Version))
      else if U32At(bytes, 0) != 0 then Err(UnsupportedProtoVersion(U32At(bytes, 0)))
      else if |bytes| == 4 then Err(NotEnoughBytes(NameLength))
      else if bytes[4] == 0 then Err(EmptyName)
      else Err(NameNotValidUTF8String)
  {
    var (version, p1) := VersionStep(bytes, 0);
    if |bytes| >= 4 {
      assert bytes[0..4] == bytes[..4];
      BeZero(bytes[..4]);
    }
  }

  /** The contracts the intended layout can carry. */
  predicate Encodable(c: WasmContract)
  {
    0 < |c.name| < 0x100 && c.admins == [] && |c.wasm| < Pow256(8)
  }

  /** The layout `parse_contract` reads, written out for an encodable contract. */
  function EncodeContract(c: WasmContract): (bytes: seq<byte>)
    requires Encodable(c)
    ensures |bytes| == 4 + 1 + |c.name| + 32 + 1 + 2 + 8 + |c.wasm|
  {
    NatToBe(0, 4) + [|c.name|] + c.name + c.author + [0] + [0, 0] + NatToBe(|c.wasm|, 8) + c.wasm
  }

  lemma BeOfZeros(len: nat)
    ensures BeToNat(NatToBe(0, len)) == 0
  {
    BeRoundTrip(0, len);
  }

  /** `x` sits at `|pre|` in any sequence that starts with `pre + x`. */
  lemma SliceAt(s: seq<byte>, pre: seq<byte>, x: seq<byte>)
    requires |pre| + |x| <= |s| && s[..|pre| + |x|] == pre + x
    ensures s[|pre|..|pre| + |x|] == x
  {
    assert s[|pre|..|pre| + |x|] == s[..|pre| + |x|][|pre|..];
  }

  lemma PrefixOfPrefix(s: seq<byte>, pre: seq<byte>, x: seq<byte>)
    requires |pre| + |x| <= |s| && s[..|pre| + |x|] == pre + x
    ensures s[..|pre|] == pre
  {
    assert s[..|pre|] == s[..|pre| + |x|][..|pre|];
  }

  /** Where each piece of an encoded contract sits, followed by anything. */
  lemma EncodedLayout(c: WasmContract, trailing: seq<byte>)
    requires Encodable(c)
    ensures var bytes, n := EncodeContract(c) + trailing, |c.name|;
      bytes[0..4] == NatToBe(0, 4) && bytes[4] == n && bytes[5..5 + n] == c.name
      && bytes[5 + n..37 + n] == c.author && bytes[37 + n] == 0
      && bytes[38 + n] == 0 && bytes[39 + n] == 0
      && bytes[40 + n..48 + n] == NatToBe(|c.wasm|, 8)
      && bytes[48 + n..48 + n + |c.wasm|] == c.wasm
  {
    var bytes := EncodeContract(c) + trailing;
    var p1 := NatToBe(0, 4);
    var p2 := p1 + [|c.name|];
    var p3 := p2 + c.name;
    var p4 := p3 + c.author;
    var p5 := p4 + [0];
    var p6 := p5 + [0, 0];
    var p7 := p6 + NatToBe(|c.wasm|, 8);
    var p8 := p7 + c.wasm;
    assert bytes == p8 + trailing;
    assert bytes[..|p8|] == p8;
    PrefixOfPrefix(bytes, p7, c.wasm);
    PrefixOfPrefix(bytes, p6, NatToBe(|c.wasm|, 8));
    PrefixOfPrefix(bytes, p5, [0, 0]);
    PrefixOfPrefix(bytes, p4, [0]);
    PrefixOfPrefix(bytes, p3, c.author);
    PrefixOfPrefix(bytes, p2, c.name);
    PrefixOfPrefix(bytes, p1, [|c.name|]);
    SliceAt(bytes, [], p1);
    SliceAt(bytes, p2, c.name);
    SliceAt(bytes, p3, c.author);
    SliceAt(bytes, p6, NatToBe(|c.wasm|, 8));
    SliceAt(bytes, p7, c.wasm);
    assert bytes[|p1|] == p2[|p1|];
    assert bytes[|p4|] == p5[|p4|];
    assert bytes[|p5|] == p6[|p5|] && bytes[|p5| + 1] == p6[|p5| + 1];
  }

  /** The intended parser reads back every encodable contract, whatever follows it. */
  lemma ContractRoundTrip(c: WasmContract, trailing: seq<byte>)
    requires Encodable(c)
    ensures ParseContractSpec(EncodeContract(c) + trailing, Intended, Intended) == Ok(c)
  {
    var bytes, n := EncodeContract(c) + trailing, |c.name|;
    EncodedLayout(c, trailing);
    BeOfZeros(4);
    BeZero(bytes[0..4]);
    assert VersionStep(bytes, 0) == (Ok(0), 4);
    assert NameStepIntended(bytes, 4) == (Ok(c.name), 5 + n);
    assert AddressStep(bytes, 5 + n, Author) == (Ok(c.author), 37 + n);
    assert AdminsStep(bytes, 37 + n) == (Ok([]), 38 + n);
    assert DepsStep(bytes, 38 + n) == (Ok(()), 40 + n);
    BeRoundTrip(|c.wasm|, 8);
    assert CodeStepIntended(bytes, 40 + n) == (Ok(c.wasm), 48 + n + |c.wasm|);
  }

  /**
   * The parser as written rejects every well-formed contract: the encoding
   * that the intended parser reads back gives `NameNotValidUTF8String`.
   */
  lemma AsWrittenRejectsEveryContract(c: WasmContract)
    requires Encodable(c)
    ensures ParseContractSpec(EncodeContract(c), AsWritten, AsWritten) == Err(NameNotValidUTF8String)
    ensures ParseContractSpec(EncodeContract(c), Intended, Intended) == Ok(c)
  {
    var bytes := EncodeContract(c);
    ParseContractOutcome(bytes, AsWritten);
    EncodedLayout(c, []);
    assert bytes + [] == bytes;
    assert bytes[..4] == bytes[0..4];
    BeOfZeros(4);
    ContractRoundTrip(c, []);
  }

  /**
   * With the name read correctly, the code reader as written still drops the
   * code: an encoded contract comes back with empty code.
   */
  lemma AsWrittenDropsCode(c: WasmContract)
    requires Encodable(c)
    ensures ParseContractSpec(EncodeContract(c), Intended, AsWritten) == Ok(c.(wasm := []))
  {
    var bytes, n := EncodeContract(c), |c.name|;
    EncodedLayout(c, []);
    assert bytes + [] == bytes;
    BeOfZeros(4);
    BeZero(bytes[0..4]);
    assert VersionStep(bytes, 0) == (Ok(0), 4);
    assert NameStepIntended(bytes, 4) == (Ok(c.name), 5 + n);
    assert AddressStep(bytes, 5 + n, Author) == (Ok(c.author), 37 + n);
    assert AdminsStep(bytes, 37 + n) == (Ok([]), 38 + n);
    assert DepsStep(bytes, 38 + n) == (Ok(()), 40 + n);
    assert CodeStep(bytes, 40 + n) == (Ok([]), 48 + n);
  }
}
