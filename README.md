# svm codecs, validators and marshalling rules in Dafny

This project models the hand-written binary codecs of the Spacemesh Virtual
Machine (svm), and the small validators and marshalling rules around them. It
proves what those pieces promise in Dafny:

- **Nibble reader** (`NibbleIter`). A cursor that yields a byte buffer as 4-bit
  units, high nibble first. It tracks the nibbles read, byte alignment and
  end-of-stream, and `ensure_eof` permits at most one padding nibble. It is a
  class whose methods update its fields. Its invariant ties `nibbles_read`,
  `cursor` and `last_byte` together, and each method is specified against the
  nibble stream still to come. A matching `NibbleWriter` appends nibbles and
  flushes them to bytes.
- **Nibble wire codecs.**
  - The spawn-app transaction: version, template address, app name, ctor name,
    ctor calldata.
  - The template+author serialiser.
  - The protocol-version round-trip harness.

  The field helpers they call (`encode_version`, `encode_address`,
  `encode_string`, `encode_abi_data`, `encode_deploy_template` and their
  decoders) are not part of this model. Each is an abstract encoder/decoder
  pair bound by the law `decode(encode(x) ++ rest) == (x, rest)`. The records
  are proved to round-trip from that law alone.
- **Legacy contract parser** (`svm-contract` `wire/parse.rs`). A cursor
  threaded through six big-endian field parsers with field-tagged errors. It is
  modelled as written, together with corrected name and code readers (see
  "## Findings").
- **SDK values** (`svm-sdk` `value.rs`):
  - the `Value`/`Primitive`/`Composite` algebra and its injective conversions;
  - fixed 20-byte addresses and their hex display;
  - length-checked array extraction.
- **Host-import marshalling** (`svm-runtime` `import.rs`):
  - the value and type mappings between svm and wasmer;
  - the result-shape check;
  - the trap and result logic of the import callback.
- **Trap messages** (`svm-ffi` `trap.rs`): String to trap and back, with the
  fixed fallback text.
- **Page keys** (`svm-storage`). The 33-byte little-endian pre-image
  `address + page`, under an uninterpreted hash.
- **C API rules** (`api.rs`):
  - `max_gas!` and `maybe_gas!`;
  - the result of `svm_estimate_*`;
  - the capacity-bounded, check-then-push import list.
- **Endpoint-attribute validator** (`svm-sdk` macros `function.rs`):
  - the three passes: no duplicates, co-existence, order;
  - the `before_fund` signature check;
  - the expansion dispatch;
  - every unit test, as a lemma.
- **Vault initialiser** (`apps/vault`). It reads calldata in order, requires
  three pairwise-distinct masters for a multisig vault, and writes slots into a
  store.

Shared modules: `Wrappers` (Option/Result), `Ints` (widths, big- and
little-endian numbers), `Utf8` (well-formed UTF-8, ASCII text), `Nibbles`,
`FieldCodec` (the abstract field helpers) and `SvmTypes` (the records the codecs
carry).

**Modelling choices**
- A panic (`unreachable!()`, an index out of bounds, a failed `assert!` on
  input) becomes `None` or an error variant.
- A caller-side `assert!` (`len < capacity` in `svm_import_func_new`) becomes a
  `requires`.
- The host function, the hash function and `VaultType::from(bool)` are
  parameters.
- C out-parameters are heap cells (`CApi.Cell`).
- Rust integers of fixed width are subset types of `int`, and the bit casts
  between `i32`/`u32` and `i64`/`u64` are written out.

**Where the system's documentation and the code disagree**, this model follows
the code. The documentation asks every decoder to reject bytes left after the
content. `decode_spawn_app`, `deserialize` and `parse_contract` perform no such
check. The round-trip lemmas `TemplateSerialize.SerializeRoundTrip` and
`ContractParse.ContractRoundTrip` state this: they hold with arbitrary trailing
bytes appended.

## Model

| member | source | states |
|---|---|---|
| Nibbles.HighMask | crates/svm-nibble/src/iter.rs:108 | `(b & 0xF0) >> 4` is the high nibble `b / 16` |
| Nibbles.LowMask | crates/svm-nibble/src/iter.rs:112 | `b & 0x0F` is the low nibble `b % 16` |
| Nibbles.NibblesAt | crates/svm-nibble/src/iter.rs:100-113 | byte `i` of the buffer is nibble `2i` (high) and nibble `2i+1` (low) of the stream |
| Nibbles.ConcatOfNibbles | crates/svm-nibble/src/iter.rs:62 | pairing the nibbles of a buffer (`concat_nibbles`) gives the buffer back |
| Nibbles.NibblesOfConcat | crates/svm-nibble/src/iter.rs:62 | splitting the bytes paired from an even nibble run gives the run back |
| Nibbles.AlignedBytes | crates/svm-nibble/src/iter.rs:58-66 | nibbles `2c..2(c+n)` pair up into exactly bytes `c..c+n` |
| Nibbles.FlushNibbles | crates/svm-app/src/raw/version/mod.rs:19 | flushed bytes read back as the written nibbles plus at most one zero pad, making the count even |
| Nibbles.NibbleWriter.constructor | crates/svm-app/src/raw/version/mod.rs:15 | a new writer holds no nibbles |
| Nibbles.NibbleWriter.Write | crates/svm-app/src/raw/version/mod.rs:17 | writing appends the nibbles at the end |
| Nibbles.NibbleWriter.IntoBytes | crates/svm-app/src/raw/version/mod.rs:19 | `into_bytes` gives `ceil(n/2)` bytes whose nibbles are the written ones plus the pad |
| Nibbles.NibbleIter.Remaining | crates/svm-nibble/src/iter.rs:10-17 | the unread nibbles are the stream after `nibbles_read`, `2*len - nibbles_read` of them |
| Nibbles.NibbleIter.constructor | crates/svm-nibble/src/iter.rs:31-42 | a new iterator satisfies the invariant, has read nothing, and has the whole stream ahead |
| Nibbles.NibbleIter.IsByteAligned | crates/svm-nibble/src/iter.rs:47-49 | aligned exactly when `nibbles_read` is even, exactly when no byte is half read |
| Nibbles.NibbleIter.Next | crates/svm-nibble/src/iter.rs:87-120 | keeps the invariant `nibbles_read == 2*cursor - (last_byte present)`. Before the end: the next stream nibble, `nibbles_read + 1`. At the end: `None`, nothing read, `no_more_bytes` set, and `None` again on every later call |
| Nibbles.NibbleIter.NextNibbles | crates/svm-nibble/src/iter.rs:60 | `take(n).collect()`: the first `min(n, remaining)` unread nibbles; the end flag is set exactly when fewer than `n` remained |
| Nibbles.NibbleIter.ReadBytes | crates/svm-nibble/src/iter.rs:58-67 | pairs the nibbles taken into bytes. From an aligned position with `2*count` nibbles left, these are the next `count` buffer bytes unchanged |
| Nibbles.NibbleIter.ReadByte | crates/svm-nibble/src/iter.rs:53-55 | a byte exactly when two nibbles remain: the next two nibbles combined, or the buffer byte at the cursor when aligned |
| Nibbles.NibbleIter.EnsureEof | crates/svm-nibble/src/iter.rs:71-81 | skips one nibble when unaligned, then `Ok` exactly when at most one nibble was left, else the given error; the exact number of nibbles consumed |
| FieldCodec.Encode | crates/svm-codec/src/app/wire.rs:46-70 | a field helper appends exactly its encoding to the writer |
| FieldCodec.Decode | crates/svm-codec/src/app/wire.rs:74-90 | a field helper run on the iterator: on success the iterator stands just past the nibbles it consumed; on error nothing is consumed |
| VersionWire.AssertEncodeDecode | crates/svm-app/src/raw/version/mod.rs:14-26 | encode, flush, decode from a fresh iterator gives the version back, and `ensure_eof` then succeeds |
| VersionWire.EncodeDecodeVersion | crates/svm-app/src/raw/version/mod.rs:28-34 | the versions 0, `u8::MAX`, `u16::MAX` and `1 << 20` all come back |
| SpawnAppWire.SpawnAppRoundTrip | crates/svm-codec/src/app/wire.rs:98-119 | decoding the nibbles of a transaction followed by anything gives the transaction and leaves what follows |
| SpawnAppWire.EncodeVersion | crates/svm-codec/src/app/wire.rs:46-49 | appends the version encoding |
| SpawnAppWire.EncodeTemplate | crates/svm-codec/src/app/wire.rs:56-59 | appends the template address encoding |
| SpawnAppWire.EncodeName | crates/svm-codec/src/app/wire.rs:51-54 | appends the app name as a string |
| SpawnAppWire.EncodeCtor | crates/svm-codec/src/app/wire.rs:61-65 | appends the ctor name as a string |
| SpawnAppWire.EncodeCtorCalldata | crates/svm-codec/src/app/wire.rs:67-70 | appends the calldata as ABI data |
| SpawnAppWire.EncodeSpawnApp | crates/svm-codec/src/app/wire.rs:11-17 | the writer gains version, template, name, ctor name, calldata, in that order |
| SpawnAppWire.DecodeTemplate | crates/svm-codec/src/app/wire.rs:74-78 | the address decoder under `Field::TemplateAddr`, wrapped unchanged |
| SpawnAppWire.DecodeName | crates/svm-codec/src/app/wire.rs:80-82 | the string decoder under `NameLength`/`Name` |
| SpawnAppWire.DecodeCtor | crates/svm-codec/src/app/wire.rs:84-86 | the string decoder under the same `NameLength`/`Name` tags |
| SpawnAppWire.DecodeCtorCalldata | crates/svm-codec/src/app/wire.rs:88-90 | the ABI-data decoder |
| SpawnAppWire.DecodeSpawnApp | crates/svm-codec/src/app/wire.rs:22-42 | the five fields in order, rebuilt into `SpawnApp`. The first failing field's error is returned, and the iterator stops before it |
| SpawnAppWire.SpawnAppBytes | crates/svm-codec/src/app/wire.rs:110-113 | the flushed bytes carry the transaction's nibbles and at most one pad |
| SpawnAppWire.EncodeDecodeSpawnApp | crates/svm-codec/src/app/wire.rs:98-119 | encode, flush, decode gives back the same transaction |
| TemplateSerialize.Serialize | crates/svm-codec/src/template/serialize.rs:18-25 | the bytes hold the template encoding, then the author address, then at most one pad nibble |
| TemplateSerialize.Deserialize | crates/svm-codec/src/template/serialize.rs:29-43 | the template, then the author under `Field::Author`; any failure gives `None` |
| TemplateSerialize.SerializeRoundTrip | crates/svm-codec/src/template/serialize.rs:29-43 | serialised bytes, followed by any trailing bytes, deserialise to the pair they came from |
| TemplateSerialize.SerializeDeployTemplate | crates/svm-codec/src/template/serialize.rs:55-69 | the test's template and author survive the round trip |
| ContractParse.Cursor.constructor | crates/svm-contract/src/wire/parse.rs:21 | a cursor at position 0 over the input |
| ContractParse.Cursor.ReadExact | crates/svm-contract/src/wire/parse.rs:129 | `n` bytes at the position if that many remain (then advancing by `n`), else a failure |
| ContractParse.Cursor.ReadBe | crates/svm-contract/src/wire/parse.rs:41 | a `k`-byte big-endian number at the position if `k` bytes remain |
| ContractParse.VersionStep | crates/svm-contract/src/wire/parse.rs:40-51 | `Ok(0)` exactly when four zero bytes are there; too few bytes give `NotEnoughBytes(Version)` with the position unchanged; a non-zero big-endian `v` gives `UnsupportedProtoVersion(v)` four bytes on |
| ContractParse.NameStep | crates/svm-contract/src/wire/parse.rs:53-76 | as written, always an error: a missing length byte gives `NotEnoughBytes(NameLength)`, zero gives `EmptyName`, any other length gives `NameNotValidUTF8String` |
| ContractParse.NameStepIntended | crates/svm-contract/src/wire/parse.rs:53-76 | corrected: `Ok` exactly when the declared non-zero number of bytes is there and is valid UTF-8, and then it is those bytes |
| ContractParse.AddressStep | crates/svm-contract/src/wire/parse.rs:127-133 | 32 bytes exactly when they are there, else `NotEnoughBytes(field)` |
| ContractParse.AdminsStep | crates/svm-contract/src/wire/parse.rs:83-99 | `Ok([])` exactly when the count byte is there and zero; a missing byte gives `NotEnoughBytes(AdminsCount)` with the position unchanged; a non-zero count gives `AdminsNotSupportedYet` one byte on |
| ContractParse.DepsStep | crates/svm-contract/src/wire/parse.rs:101-112 | `Ok` exactly when the two-byte count is there and zero; a short read gives `NotEnoughBytes(DepsCount)` with the position unchanged; a non-zero count gives `DepsNotSupportedYet` two bytes on |
| ContractParse.CodeStep | crates/svm-contract/src/wire/parse.rs:114-125 | as written: `Ok` exactly when the 8 length bytes are there, and the code is then always empty |
| ContractParse.CodeStepIntended | crates/svm-contract/src/wire/parse.rs:114-125 | corrected: `Ok` exactly when the declared number of code bytes follows, and then it is those bytes |
| ContractParse.ParseVersion | crates/svm-contract/src/wire/parse.rs:40-51 | the cursor method gives `VersionStep`'s result and position |
| ContractParse.ParseName | crates/svm-contract/src/wire/parse.rs:53-76 | the cursor method gives `NameStep`'s result and position |
| ContractParse.ParseNameIntended | crates/svm-contract/src/wire/parse.rs:53-76 | the corrected cursor method gives `NameStepIntended`'s result and position |
| ContractParse.ParseAddress | crates/svm-contract/src/wire/parse.rs:127-133 | the cursor method gives `AddressStep`'s result and position |
| ContractParse.ParseAuthor | crates/svm-contract/src/wire/parse.rs:78-81 | `parse_address` under `Field::Author` |
| ContractParse.ParseAdmins | crates/svm-contract/src/wire/parse.rs:83-99 | the cursor method gives `AdminsStep`'s result and position |
| ContractParse.ParseDeps | crates/svm-contract/src/wire/parse.rs:101-112 | the cursor method gives `DepsStep`'s result and position |
| ContractParse.ParseCode | crates/svm-contract/src/wire/parse.rs:114-125 | the cursor method gives `CodeStep`'s result and position |
| ContractParse.ParseCodeIntended | crates/svm-contract/src/wire/parse.rs:114-125 | the corrected cursor method gives `CodeStepIntended`'s result and position |
| ContractParse.ParseContract | crates/svm-contract/src/wire/parse.rs:20-38 | the six fields in order through one cursor, the first error winning, each from where the previous stopped |
| ContractParse.ParseContractOutcome | crates/svm-contract/src/wire/parse.rs:20-76 | as written, only the first five bytes decide the result, and no input is accepted |
| ContractParse.EncodedLayout | crates/svm-contract/src/wire/parse.rs:20-133 | where each field of the layout the parser reads sits in an encoded contract |
| ContractParse.ContractRoundTrip | crates/svm-contract/src/wire/parse.rs:20-38 | with the corrected readers, every encodable contract, followed by anything, parses back to itself |
| ContractParse.AsWrittenRejectsEveryContract | crates/svm-contract/src/wire/parse.rs:63-75 | the encoding of any well-formed contract is rejected with `NameNotValidUTF8String` as written, and accepted when corrected |
| ContractParse.AsWrittenDropsCode | crates/svm-contract/src/wire/parse.rs:119-124 | with the name read correctly, the code reader as written returns the contract with empty code |
| SdkValue.ToOwned | crates/svm-sdk/src/value.rs:62-66 | `to_owned` keeps the bytes |
| SdkValue.Deref | crates/svm-sdk/src/value.rs:76-78 | `deref` keeps the bytes |
| SdkValue.OwnedBorrowedInverse | crates/svm-sdk/src/value.rs:62-78 | `to_owned` and `deref` are inverse to each other |
| SdkValue.AddressFromSlice | crates/svm-sdk/src/value.rs:86-94 | an address exactly when the slice has 20 bytes, and then with those bytes |
| SdkValue.AddressOwnedFromSlice | crates/svm-sdk/src/value.rs:96-107 | the same for the owned address, from a slice or a vector |
| SdkValue.HexDigit | crates/svm-sdk/src/value.rs:134-135 | `from_digit(d, 16)` is a lowercase hex digit |
| SdkValue.DigitRoundTrip | crates/svm-sdk/src/value.rs:134-135 | the digit of a nibble is a hex digit whose value is that nibble |
| SdkValue.ByteAsChars | crates/svm-sdk/src/value.rs:130-138 | two hex digits whose values are the high and the low nibble of the byte, in that order |
| SdkValue.HexOf | crates/svm-sdk/src/value.rs:109-118 | two characters per byte, in byte order, each pair `byte_as_chars` of its byte |
| SdkValue.HexRoundTrip | crates/svm-sdk/src/value.rs:109-118 | the display is hex text from which the bytes read back |
| SdkValue.Display | crates/svm-sdk/src/value.rs:109-118 | the display loop writes the hex text of the address, 40 characters |
| SdkValue.DisplayOwned | crates/svm-sdk/src/value.rs:120-125 | the owned address displays as its `deref` |
| SdkValue.IntoValue | crates/svm-sdk/src/value.rs:201-239 | a Rust value becomes a non-`None` primitive |
| SdkValue.SliceIntoValue | crates/svm-sdk/src/value.rs:241-246 | a slice becomes `Composite::Array` of the same values |
| SdkValue.VecIntoValue | crates/svm-sdk/src/value.rs:248-253 | a vector becomes `Composite::ArrayOwned` of the same values |
| SdkValue.FromValue | crates/svm-sdk/src/value.rs:255-310 | a value converts to `T` only as a `T`; any other value is the `unreachable!()` panic, `None` |
| SdkValue.OptionFromValue | crates/svm-sdk/src/value.rs:266-274 | `Primitive::None` and only it gives `Some(None)` |
| SdkValue.IntoFromRoundTrip | crates/svm-sdk/src/value.rs:201-291 | `T -> Value -> T` is the identity for bool, Amount, every integer width and both addresses |
| SdkValue.FromValueExactlyImages | crates/svm-sdk/src/value.rs:255-300 | a value converts to `T` exactly when it is the image of a `T`, and converting back gives the value |
| SdkValue.OptionRoundTrip | crates/svm-sdk/src/value.rs:266-274 | `Option<T>` from `Primitive::None` is `None`, and from a `T`'s image it is `Some` of it |
| SdkValue.AddressOwnedFromEither | crates/svm-sdk/src/value.rs:302-310 | `AddressOwned` comes out of both address variants with the same bytes |
| SdkValue.ToArraySpec | crates/svm-sdk/src/value.rs:326-347 | `[T; n]` from `ArrayOwned` of exactly `n` convertible values: `n` values of the type, in order |
| SdkValue.ToArray | crates/svm-sdk/src/value.rs:326-347 | the slot-filling loop gives `ToArraySpec` |
| SdkValue.ArrayRoundTrip | crates/svm-sdk/src/value.rs:326-347 | `n` values of one type, wrapped as an owned array, come back in order |
| HostImport.New | crates/svm-runtime/src/import.rs:28-44 | every field is stored unchanged |
| HostImport.NewAccessors | crates/svm-runtime/src/import.rs:126-132 | `name()` and `namespace()` give back what `new` was given |
| HostImport.I32AsU32 | crates/svm-runtime/src/import.rs:182 | `v as u32` agrees with `v` modulo 2^32 |
| HostImport.U32AsI32 | crates/svm-runtime/src/import.rs:197 | `v as i32` agrees with `v` modulo 2^32 |
| HostImport.I64AsU64 | crates/svm-runtime/src/import.rs:183 | `v as u64` agrees with `v` modulo 2^64 |
| HostImport.U64AsI64 | crates/svm-runtime/src/import.rs:198 | `v as i64` agrees with `v` modulo 2^64 |
| HostImport.BitCastsInverse | crates/svm-runtime/src/import.rs:182-198 | the signed/unsigned casts are inverse to each other at both widths |
| HostImport.ToWasmerTypes | crates/svm-runtime/src/import.rs:142-151 | position by position, I32 maps to I32 and I64 maps to I64 |
| HostImport.WasmValsToWasmerVals | crates/svm-runtime/src/import.rs:193-201 | one wasmer value per value, of the matching type |
| HostImport.WasmerValsToWasmVals | crates/svm-runtime/src/import.rs:176-191 | the loop gives the bit casts of all values when all are integers, else "Invalid argument type" |
| HostImport.ValueRoundTrip | crates/svm-runtime/src/import.rs:176-200 | one value converts both ways without change |
| HostImport.WasmValsRoundTrip | crates/svm-runtime/src/import.rs:176-200 | svm values to wasmer values and back gives them unchanged |
| HostImport.WasmerValsRoundTrip | crates/svm-runtime/src/import.rs:176-200 | integer wasmer values to svm values and back gives them unchanged |
| HostImport.ToWasmValuesSpec | crates/svm-runtime/src/import.rs:153-174 | a result is the decoded values unchanged |
| HostImport.ToWasmValues | crates/svm-runtime/src/import.rs:153-174 | the loop with early returns gives `ToWasmValuesSpec` |
| HostImport.AcceptedResultsHaveDeclaredTypes | crates/svm-runtime/src/import.rs:153-174 | results are accepted exactly when they decoded, their count is the declared one, and at every position the wasmer value has the declared wasmer type |
| HostImport.InnerCallback | crates/svm-runtime/src/import.rs:54-92 | a non-integer argument gives "Invalid argument type". A trap gives its message and discards the results. Ill-shaped results give "Invalid WASM values". Otherwise the results become wasmer values |
| Trap.Alloc | crates/svm-ffi/src/trap.rs:12-18 | the error buffer has `size` bytes |
| Trap.TrapToString | crates/svm-ffi/src/trap.rs:25-32 | total: valid UTF-8 comes back as is, anything else gives the fallback text |
| Trap.TrapFromString | crates/svm-ffi/src/trap.rs:34-40 | the buffer is the string's bytes |
| Trap.StringRoundTrip | crates/svm-ffi/src/trap.rs:25-40 | String to trap and back gives the string |
| Trap.TrapRoundTrip | crates/svm-ffi/src/trap.rs:25-40 | a valid trap survives trap to String to trap; an invalid one comes back with the fallback text |
| PageHasher.AddressFromU32 | crates/svm-storage/src/default_page_hasher.rs:33 | `Address::from(u32)` has the number as little-endian value |
| PageHasher.PagePreimage | crates/svm-storage/src/default_page_hasher.rs:12-13 | 33 bytes whose little-endian value is `address + page`, with no wrap |
| PageHasher.PreimageFits | crates/svm-storage/src/default_page_hasher.rs:12 | `address + page` fits in 33 bytes for every address and page |
| PageHasher.PageHash | crates/svm-storage/src/default_page_hasher.rs:11-16 | the hash of the one pre-image |
| PageHasher.PreimageInjectiveInPage | crates/svm-storage/src/default_page_hasher.rs:12-13 | for one address, pre-images agree exactly when the pages do |
| PageHasher.PreimageInjectiveInAddress | crates/svm-storage/src/default_page_hasher.rs:12-13 | for one page, pre-images agree exactly when the addresses do |
| PageHasher.NeighbourPagesShare | crates/svm-storage/src/default_page_hasher.rs:12-13 | page `p+1` of an address and page `p` of the next address have the same pre-image |
| PageHasher.PageHasherSanity | crates/svm-storage/src/default_page_hasher.rs:25-39 | address `0x44332211` and page 3 give `14 22 33 44` and 29 zero bytes |
| CApi.MaxGas | crates/svm-runtime-c-api/src/api.rs:28-37 | `Fixed(g)` gives `g`, and `Range` gives its `max` |
| CApi.MaxGasIsLeastUpperBound | crates/svm-runtime-c-api/src/api.rs:28-37 | `max_gas!` bounds every cost the estimate allows, and is allowed itself when the range is not empty |
| CApi.MaybeGasOf | crates/svm-runtime-c-api/src/api.rs:39-49 | a limit exactly when metering is on, and then the given one |
| CApi.Estimate | crates/svm-runtime-c-api/src/api.rs:928-937 | success writes `max_gas!` and leaves the error alone. Failure leaves the estimation untouched, sets the error and returns `SVM_FAILURE` |
| CApi.Imports.Alloc | crates/svm-runtime-c-api/src/api.rs:264-270 | an empty list with capacity `count` |
| CApi.ImportCheck | crates/svm-runtime-c-api/src/api.rs:336-368 | accepted exactly when host env is non-null, params and returns parse, and both names are UTF-8; then the import holds them. The null check comes first, then params |
| CApi.ImportFuncNew | crates/svm-runtime-c-api/src/api.rs:322-382 | on success exactly one import is appended at the end. On any failure the list is unchanged, the error is set, and `SVM_FAILURE` is returned |
| CApi.RegisteredImportKeepsNames | crates/svm-runtime-c-api/src/api.rs:370-377 | a registered import answers `name()`/`namespace()` with the given names |
| EndpointAttrs.HasIffExists | crates/svm-sdk/macros/src/function.rs:302-304 | `has_attr` holds exactly when some attribute has the kind |
| EndpointAttrs.FindAttr | crates/svm-sdk/macros/src/function.rs:306-310 | present exactly when the kind occurs, and then one of the attributes of that kind |
| EndpointAttrs.FindAttrIffHasAttr | crates/svm-sdk/macros/src/function.rs:286-310 | `find_attr` finds exactly when `has_attr` holds |
| EndpointAttrs.ValidateAttrsNoDups | crates/svm-sdk/macros/src/function.rs:148-189 | the flag loop gives the first repeated kind's error |
| EndpointAttrs.NoDupsIffAtMostOnce | crates/svm-sdk/macros/src/function.rs:148-189 | passes exactly when each of endpoint, before_fund and fundable occurs at most once; `Other` is ignored |
| EndpointAttrs.NoDupsErrorIsDuplicate | crates/svm-sdk/macros/src/function.rs:148-189 | each "used twice" error names a kind that occurs at least twice |
| EndpointAttrs.NoDupsErrPersists | crates/svm-sdk/macros/src/function.rs:148-189 | the first duplicate found in a prefix is the error of the whole list |
| EndpointAttrs.ValidateAttrsUsage | crates/svm-sdk/macros/src/function.rs:191-228 | the seen-flags loop, then the three co-existence rules in source order |
| EndpointAttrs.ValidateAttrsOrder | crates/svm-sdk/macros/src/function.rs:230-254 | the order loop gives `OrderSpec` |
| EndpointAttrs.OrderErrPersists | crates/svm-sdk/macros/src/function.rs:230-254 | the first order error in a prefix is the error of the whole list |
| EndpointAttrs.OrderIffFundableFirst | crates/svm-sdk/macros/src/function.rs:230-254 | passes exactly when no fundable follows an endpoint, and otherwise fails with `FundableAfterEndpoint` |
| EndpointAttrs.ValidateAttrs | crates/svm-sdk/macros/src/function.rs:78-84 | the three passes in order, the first error winning |
| EndpointAttrs.ValidateAttrsAccepts | crates/svm-sdk/macros/src/function.rs:148-254 | accepted exactly when all hold: no duplicates, no endpoint with before_fund, no fundable with before_fund, no fundable without endpoint, no fundable after an endpoint |
| EndpointAttrs.ValidateBeforeFundFuncSig | crates/svm-sdk/macros/src/function.rs:256-284 | accepted exactly when the signature has one attribute-free input typed `svm_sdk :: Amount` or `Amount`, and no return type |
| EndpointAttrs.RewriteFunc | crates/svm-sdk/macros/src/function.rs:48-64 | a validation error is returned first. Then the endpoint branch when an endpoint is present, the before_fund branch (with its signature check) when before_fund is, and a plain expansion otherwise |
| EndpointAttrs.FundableCanNotLiveAlone | crates/svm-sdk/macros/src/function.rs:339-348 | a lone fundable is rejected as lacking an endpoint |
| EndpointAttrs.EndpointAndFundableWrongOrder | crates/svm-sdk/macros/src/function.rs:350-360 | fundable after endpoint is rejected |
| EndpointAttrs.EndpointAndBeforeFundFails | crates/svm-sdk/macros/src/function.rs:362-384 | before_fund with endpoint is rejected by the first co-existence rule (both tests) |
| EndpointAttrs.FundableAndBeforeFundFails | crates/svm-sdk/macros/src/function.rs:213-218 | fundable with before_fund is rejected by the second rule |
| EndpointAttrs.EndpointUsedTwiceFails | crates/svm-sdk/macros/src/function.rs:386-396 | a second endpoint is rejected |
| EndpointAttrs.BeforeFundUsedTwiceFails | crates/svm-sdk/macros/src/function.rs:398-408 | a second before_fund is rejected before any other rule |
| EndpointAttrs.FundableUsedTwiceFails | crates/svm-sdk/macros/src/function.rs:410-421 | a second fundable is rejected |
| EndpointAttrs.BeforeFundWithNoArgsFails | crates/svm-sdk/macros/src/function.rs:423-432 | a before_fund function without arguments is rejected |
| EndpointAttrs.BeforeFundWithTwoArgsFails | crates/svm-sdk/macros/src/function.rs:434-443 | a before_fund function with two arguments is rejected |
| EndpointAttrs.BeforeFundWithReturnTypeFails | crates/svm-sdk/macros/src/function.rs:445-456 | a before_fund function with a return type is rejected |
| EndpointAttrs.ValidSignaturesAccepted | crates/svm-sdk/macros/src/function.rs:458-493 | the valid endpoint, fundable and before_fund signatures of the tests are accepted into their branches |
| VaultInit.DecodeFlag | apps/vault/core/src/actions/initialize.rs:15 | a flag exactly from a `Bool` value, and it is that value's flag; any other value gives nothing |
| VaultInit.DecodeMasters | apps/vault/core/src/actions/initialize.rs:34 | `n` masters, whose owned-array value is the calldata value |
| VaultInit.MastersRoundTrip | apps/vault/core/src/actions/initialize.rs:34 | an array of addresses decodes back to itself |
| VaultInit.DecodeLimit | apps/vault/core/src/actions/initialize.rs:21 | an `Amount` value gives that limit, `Primitive::None` gives no limit, and any other value gives nothing |
| VaultInit.DecodeAccount | apps/vault/core/src/actions/initialize.rs:27 | an `Address` value gives that account, `Primitive::None` gives no account, and any other value gives nothing |
| VaultInit.CallData.constructor | apps/vault/core/src/actions/initialize.rs:13 | the cursor starts at the first value |
| VaultInit.CallData.Next | apps/vault/core/src/actions/initialize.rs:15-27 | `next_1` takes the value at the position and moves on |
| VaultInit.CallData.NextFlag | apps/vault/core/src/actions/initialize.rs:15 | the next value as a flag |
| VaultInit.CallData.NextMasters | apps/vault/core/src/actions/initialize.rs:34 | the next value as an array of `n` addresses |
| VaultInit.CallData.NextLimit | apps/vault/core/src/actions/initialize.rs:21 | the next value as an optional amount |
| VaultInit.CallData.NextAccount | apps/vault/core/src/actions/initialize.rs:27 | the next value as an optional address |
| VaultInit.VaultData.constructor | apps/vault/core/src/actions/initialize.rs:9 | an empty store |
| VaultInit.VaultData.StoreType | apps/vault/core/src/actions/initialize.rs:36 | sets the type and nothing else |
| VaultInit.VaultData.StoreMasterAccount | apps/vault/core/src/actions/initialize.rs:37 | sets one master slot and nothing else |
| VaultInit.VaultData.StoreSpendingLimit | apps/vault/core/src/actions/initialize.rs:24 | sets the limit and nothing else |
| VaultInit.VaultData.StoreSpendingAccount | apps/vault/core/src/actions/initialize.rs:29 | sets the account and nothing else |
| VaultInit.AssertNotSame | apps/vault/core/src/actions/initialize.rs:55-60 | passes exactly when the addresses differ; otherwise "Master Keys must be different from one another." |
| VaultInit.SimpleInitialize | apps/vault/core/src/actions/initialize.rs:33-38 | one master read; type `Simple` and master 1 stored |
| VaultInit.MultisigInitialize | apps/vault/core/src/actions/initialize.rs:40-53 | three masters read and checked pairwise before anything is stored, then `MultiSig` and masters 1, 2, 3 stored |
| VaultInit.Initialize | apps/vault/core/src/actions/initialize.rs:11-31 | flag, masters, limit, account in order; limit and account stored only when present |
| VaultInit.MasterSlotsAt | apps/vault/core/src/actions/initialize.rs:50-52 | masters go to slots `1..n`, master `k` at slot `k` |
| VaultInit.MultisigDistinct | apps/vault/core/src/actions/initialize.rs:45-47 | the three pairwise checks are exactly distinctness of the masters |
| VaultInit.InitializeAccepts | apps/vault/core/src/actions/initialize.rs:11-53 | succeeds exactly on well-typed calldata whose masters are distinct; then all four values are consumed |
| VaultInit.MastersStepWrites | apps/vault/core/src/actions/initialize.rs:33-53 | the type step stores the type and the masters in slots `1..n` |
| VaultInit.InitializeWrites | apps/vault/core/src/actions/initialize.rs:11-31 | on success the store holds exactly type, masters, and the limit and account when present |
| VaultInit.RepeatedMastersStoreNothing | apps/vault/core/src/actions/initialize.rs:40-53 | a repeated master fails the multisig vault exactly when its masters are not distinct, and then the store is untouched |

## Left out

- I/O, FFI and memory handling: `svm_byte_array` ownership, `Box::into_raw`/`from_raw`, `destroy`, and the runtime and key-value create/destroy functions of `api.rs`. The model works on values and heap cells.
- `ExternImport::wasmer_export`: wasmer `Function` construction and env boxing are foreign-library glue. Only the marshalling it calls and the callback body are modelled; `HostImport.InnerCallback` takes the host function as a parameter.
- `to_wasmer_types` on types other than I32/I64 (its `panic!`): svm's `WasmType` is modelled with exactly those two variants, so that arm cannot be reached. Wasmer's float, vector and reference values carry no payload here: they are only refused, as in the source.
- `Vec::<WasmValue>::try_from(&svm_byte_array)`, the byte decoding of results, is not part of this model. `HostImport.ToWasmValuesSpec` takes its outcome (decoded or failed) as input.
- The field helpers `encode_*`/`decode_*`, the version encoder and decoder, the ABI calldata codec, `encode_deploy_template`, are not part of this model. They are held to the round-trip law in `FieldCodec.Lawful` and the behaviour described by their callers.
- `Nibbles.NibbleWriter` and `Nibbles.ConcatNibbles`: the source of the writer and of `concat_nibbles` is not part of this model, so each is modelled from what its callers show (version/mod.rs:15-19 for the writer, iter.rs:62 for `concat_nibbles`). The flush pads an odd count with a zero nibble; the value of that pad nibble is an assumption, and no property proved here depends on it (only on the pad having length at most one).
- `FieldCodec.Decode`: a failing field helper is taken to consume nothing. Where the real helpers leave the iterator after an error is not known, and no caller reads after one.
- `ContractParse.Cursor`: a failed `read_exact` leaves the position unchanged. `std::io::Cursor` may advance on a short read, but no parser reads after a failure, so no result depends on it.
- `Address::add` (svm_common) is not part of this model beyond what its use in the page hasher and its test show: a little-endian sum into 33 bytes.
- `DefaultKeyHasher` is an uninterpreted function parameter of `PageHasher.PageHash`.
- `svm_utf8` / `String::try_from(&svm_byte_array)` is modelled as the `Utf8.ValidUtf8` check. The exact texts written by `raw_error`, `raw_io_error` and `raw_utf8_error` are not modelled; `CApi.ImportError` names the failed check instead.
- `estimate_deploy_template` and the other estimators are not part of this model. `CApi.Estimate` takes their outcome as input.
- `attr::parse_attr`, `func_attrs`, `endpoint::expand`, `expand_other_attrs` and every `quote!` body are left out: compile-time token generation. Attributes and signatures are given as data, and the expansion as the branch chosen.
- The endpoint tests compare the error's literal text. `EndpointAttrs.Message` holds those texts, and the test lemmas pin the error variant each test expects.
- `CallData` decoding (svm-abi-decoder), `VaultData` storage and `VaultType::from(bool)` are not part of this model. Calldata is a sequence of SDK values, the store a class with the four slots, and the flag-to-type map a parameter.
- `ContractParse.CodeStep`, `ContractParse.ParseCode`: `Vec::with_capacity(code_len)` at parse.rs:119 panics with a capacity overflow when `code_len` exceeds `isize::MAX` (2^63 - 1), and aborts when the allocation fails. The model has no panics or allocator, so these as-written readers return `Ok([])` for every length that is present, `ff ff ff ff ff ff ff ff` included. `CodeStepIntended`/`ParseCodeIntended` likewise report a too-long length as `NotEnoughBytes(Code)` rather than failing to allocate. The as-written `parse_contract` fails at the name before it reaches `parse_code`.
- `VaultInit.DecodeAccount`: `From<Value> for Option<Address>` is not in `value.rs`; it is modelled like the other `Option<T>` conversions.
- `VaultInit.InitError.CalldataMismatch` stands for the decoder's panic on ill-typed calldata, whose text is not in the source. Its message is a placeholder.
- `SdkValue.FromValue`: the `transmute` of the array fill is modelled by its effect, a sequence of the converted values.
- `Nibbles.NibbleIter.ReadBytes`: `debug_assert!(rem.is_none())` is not modelled as a failure; a lone trailing nibble is dropped, as in a release build.

## Findings

| source | as written | input that shows it | evidently intended | confidence | as-written member | corrected member |
|---|---|---|---|---|---|---|
| crates/svm-contract/src/wire/parse.rs:63-75 | `parse_name` reads into `Vec::with_capacity(name_len)`, a buffer of length 0, so nothing is read. The empty string is valid UTF-8, and the inverted `is_err()` test then reports `NameNotValidUTF8String` | bytes `00 00 00 00`, `01`, `61`, followed by the rest of any contract | read `name_len` bytes, and accept them when they are valid UTF-8 | not executed | ContractParse.AsWrittenRejectsEveryContract | ContractParse.ContractRoundTrip |
| crates/svm-contract/src/wire/parse.rs:119-124 | `parse_code` reads into `Vec::with_capacity(code_len)`, so the code is always empty and the code bytes are never consumed | any contract with non-empty code, with the name read correctly | read `code_len` bytes of code | not executed | ContractParse.AsWrittenDropsCode | ContractParse.ContractRoundTrip |
