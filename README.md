# databento-defs: record catalog, tag-checked views and enum mappings

This project models the core of the Rust crate `databento-defs` in Dafny: the
market-data record structs of `src/record.rs`, the tag (`rtype`) bound to each
of them, and the functions that reinterpret memory as a header or as a record;
and the enum mappings of `src/enums.rs`.

- `bytes.dfy` (module `Bytes`): fixed-width integers and their little-endian,
  two's-complement byte encodings.
- `layout.dfy` (module `Layout`): a `repr(C)` struct as a sequence of field
  kinds, each field stored at its offset. `EncodeFields` and `DecodeFields`
  are the two directions between field values and bytes.
- `record.dfy` (module `Record`): the 16-byte `RecordHeader`, `BidAskPair`,
  the ten record structs with their layouts and sizes, the type ids, and
  `Encode`/`Decode` between a record and its `size_of::<T>()` bytes.
- `views.dfy` (module `Views`): `transmute_into_header`,
  `transmute_header_bytes`, `transmute_record_bytes`, `transmute_record` and
  `transmute_record_mut`, with the source's tests stated as lemmas.
  `transmute_record_mut` is the class `RecordView`, a view that writes
  through to an `array<Byte>`.
- `enums.dfy` (module `Enums`): `Side` and `Action` to `c_char`, the
  discriminants and `try_from` of `SType`, `Schema`, `Encoding` and
  `Compression`, and `as_str`.
- `wrappers.dfy` (module `Wrappers`): `Option`.

Modelling choices:
- Byte order. The structs are read in the machine's native byte order. The
  model fixes it to little-endian.
- `c_char` is kept as its raw byte. Whether `c_char` is signed does not change
  the stored bits.
- Pointers. A reference to a record is modelled by the bytes of memory it
  points at. A pointer cast becomes decoding those bytes field by field.
- Panics. Where the source `assert!`s on a span's length, the model returns
  an explicit `Panic` outcome instead of requiring a longer span. This is what
  lets the five-bytes-short test be stated.
- Preconditions. `transmute_record` and `transmute_record_mut` check nothing
  but the tag. Their safety contract says the header begins a whole `T`. The
  model states this as a precondition on the memory: when byte 1 is
  `T::TYPE_ID`, at least `size_of::<T>()` bytes are present.
- Test fixture. The tests' OHLCV record has `length` 56. That is its size in
  bytes, while the field is documented in 32-bit words (src/record.rs:12).
  The tested paths (`transmute_record_bytes`, `transmute_record`,
  `transmute_record_mut`) never read `length`, and the tests do not depend on it.
  The model states nothing about the fixture through `transmute_header_bytes`.

## Model

| member | source | states |
|---|---|---|
| Bytes.DecodeEncodeLE | src/record.rs:11-26 | Reading back the n little-endian bytes of an unsigned field gives the value stored |
| Bytes.EncodeDecodeLE | src/record.rs:11-26 | Every n-byte pattern is the encoding of the unsigned value it reads as |
| Bytes.TwosRoundTrip | src/record.rs:35-61 | A signed field stored in two's complement reads back as the same value |
| Bytes.TwosRoundTripUnsigned | src/record.rs:35-61 | Every bit pattern of a signed field is the two's complement of the value it reads as |
| Layout.DecodeEncodeFields | src/record.rs:11-26 | Field values that fit their kinds, stored at their offsets, read back field for field |
| Layout.EncodeDecodeFields | src/record.rs:11-26 | Storing the fields read from a struct's bytes reproduces those bytes |
| Layout.DecodeFieldsPrefix | src/record.rs:11-26 | Reading a struct looks only at its first `size_of` bytes |
| Layout.WriteField | src/record.rs:517-526 | Writing one field's bytes in place makes that field read the new value and leaves every other field unchanged |
| Record.HeaderOffsets | src/record.rs:11-26 | The header's fields lie at offsets 0, 1, 2, 4 and 8 and fill 16 bytes |
| Record.DecodeHeader | src/record.rs:11-26 | `length` is byte 0, `rtype` byte 1, and `publisher_id`, `product_id` and `ts_event` are the little-endian values of bytes 2-3, 4-7 and 8-15 |
| Record.DecodeEncodeHeader | src/record.rs:11-26 | A header's 16 bytes read back as the header |
| Record.EncodeHeader | src/record.rs:11-26 | A header occupies exactly 16 bytes |
| Record.EncodeDecodeHeader | src/record.rs:11-26 | The header read from 16 bytes is stored back as the same 16 bytes |
| Record.BookRoundTrip | src/record.rs:69-82 | The `booklevel` array's fields read back as the same bid/ask pairs, in order |
| Record.MbpRoundTrip | src/record.rs:93-183 | The fields of a Trade, Mbp-1 or Mbp-10 message, `booklevel` included, read back as the message |
| Record.TypeIdInjective | src/record.rs:528-570 | No two record structs share a `TYPE_ID` |
| Record.TypeId | src/record.rs:528-570 | Trade, Mbp-1 and Mbp-10 have tags 0, 1 and 10, equal to their book depths and inside `0..=MAX_UA_BOOK_LEVEL`; every other struct's tag (0xA0, 0x11-0x16) lies outside that range |
| Record.BookLevelsMatchTypeId | src/record.rs:531-546 | A market-by-price record carries as many book levels as its type id |
| Record.SizeOf | src/record.rs:35-393 | Every struct holds at least its 16-byte header, and its size is a multiple of 8, the alignment of its 64-bit fields |
| Record.LayoutSize | src/record.rs:35-393 | Each struct's fields leave no gap and fill exactly `size_of::<T>()` bytes (56, 48, 80, 368, 56, 48, 360, 112, 80, 80) |
| Record.FieldCountIsLength | src/record.rs:35-393 | Each struct has the stated number of fields, the header's five included |
| Record.ValuesRoundTrip | src/record.rs:35-393 | The values of a record's fields fit its layout, and rebuilding the record from them gives it back |
| Record.ValuesOfFromValues | src/record.rs:35-393 | Values that fit a struct's layout are the fields of the record rebuilt from them: rebuilding loses and invents nothing |
| Record.FromValuesType | src/record.rs:459-464 | Rebuilding from struct t's fields gives a record of struct t |
| Record.FromValuesHeader | src/record.rs:11-26 | The rebuilt record's header is made from the first five field values |
| Record.Encode | src/record.rs:35-393 | A record's bytes are exactly `size_of::<T>()` long |
| Record.Decode | src/record.rs:459-463 | Reading struct t from bytes gives a record of struct t |
| Record.ValuesOfDecode | src/record.rs:459-463 | The fields of the record read from bytes are exactly the values stored at the struct's offsets |
| Record.EncodeDecode | src/record.rs:459-463 | Round trip the other way: the bytes of the record read from a span are the span's first `size_of::<T>()` bytes, so reading loses nothing |
| Record.DecodeEncode | src/record.rs:591-602 | Round trip: a record's bytes read back as the record, equal in every field |
| Record.DecodePrefix | src/record.rs:449-464 | Reading struct t depends only on the first `size_of::<T>()` bytes |
| Record.HeaderOfDecode | src/record.rs:434-439 | The header of a struct read from bytes is the header in the first 16 bytes, whatever the struct |
| Record.EncodedHeader | src/record.rs:434-439 | A record's first 16 bytes are its header; `length` is byte 0 and `rtype` byte 1 |
| Views.TransmuteIntoHeader | src/record.rs:434-439 | The header at the start of a record's memory is the record's `hd` |
| Views.TransmuteHeaderBytes | src/record.rs:474-490 | Panic exactly when the span is under 16 bytes; `None` exactly when byte 0 (`length`) times 4 exceeds the span; otherwise the header decoded from the first 16 bytes |
| Views.HeaderLengthBound | src/record.rs:485-489 | `length*4` is at most 1020, so it cannot overflow |
| Views.DecodeHeaderPrefix | src/record.rs:474-490 | The header read from a span depends only on its first 16 bytes |
| Views.HeaderBytesOfRecord | src/record.rs:474-490 | On a record's bytes followed by anything, header extraction gives the record's header, or `None` when its `length` runs past the span |
| Views.TransmuteRecordBytes | src/record.rs:449-464 | Panic exactly on a span shorter than `size_of::<T>()`; otherwise a record exactly when byte 1 equals `T::TYPE_ID`, and then a record of struct T carrying that tag whose bytes are the span's first `size_of::<T>()` |
| Views.RecordBytesFidelity | src/record.rs:459-463 | A tagged record's bytes, with any tail, read back as the record; an untagged record's bytes read back as `None` |
| Views.DecodeWithTail | src/record.rs:449-464 | A record's bytes followed by anything decode as the record |
| Views.RecordBytesOtherType | src/record.rs:459-463 | Negative lookup: asking for any other struct gives `None`, or a panic when the span is too short for it; never a record |
| Views.RecordBytesIgnoresLength | src/record.rs:449-464 | Changing the header's `length` byte changes neither the panic nor the `None` decision |
| Views.TransmuteRecord | src/record.rs:499-508 | `transmute_record` returns a record exactly when `rtype == T::TYPE_ID`, and then one of struct T carrying that tag whose bytes are the memory's first `size_of::<T>()` |
| Views.RecordOfHeader | src/record.rs:499-508 | A tagged record's header, viewed as its own struct, gives the record; viewed as any other struct, `None` |
| Views.RecordView.Get | src/record.rs:517-526 | The view reads a record of the viewed struct whose fields are the values the buffer holds and whose bytes are the buffer's first `size_of::<T>()` |
| Views.RecordView.Fields | src/record.rs:517-526 | The view's field values fit the struct's layout |
| Views.RecordView.SetField | src/record.rs:517-526 | Writing a field through the view replaces exactly that field's bytes; field i then reads the new value and no other field changes, in the buffer's values and in the record the view reads |
| Views.RecordView.Set | src/record.rs:517-526 | Writing a whole record through the view makes the view read that record and keeps the bytes past the struct |
| Views.WriteBytes | src/record.rs:517-526 | Copying bytes into the buffer replaces exactly that range |
| Views.TransmuteRecordMut | src/record.rs:517-526 | A view exists exactly when `rtype == T::TYPE_ID`; it writes through to the same memory and reads what `transmute_record` returns |
| Views.FixtureRecordBytes | src/record.rs:591-602 | The test's OHLCV record's bytes read back through `transmute_record_bytes` as the record |
| Views.FixtureNotStatus | src/record.rs:591-602 | The test record's bytes, asked for a status message, give `None` |
| Views.FixtureScenario | src/record.rs:591-602 | On the test's literal OHLCV record: its bytes read back as the record, and asked for a status message give `None` |
| Views.FixtureShortSpanPanics | src/record.rs:604-615 | A span five bytes shorter than `OhlcvMsg` panics |
| Views.FixtureRecord | src/record.rs:617-622 | The test's record viewed through its header is the record |
| Views.FixtureRecordMut | src/record.rs:624-629 | The test's record viewed mutably through its header reads the record |
| Views.SymbolMappingMsgSize | src/record.rs:631-634 | `SymbolMappingMsg` occupies 80 bytes |
| Enums.SideChar | src/enums.rs:13-20 | A side is stored as an upper-case ASCII letter |
| Enums.SideCharInjective | src/enums.rs:13-20 | Ask is 'A', Bid is 'B', and the mapping is injective |
| Enums.ActionChar | src/enums.rs:33-44 | An action is stored as an upper-case ASCII letter |
| Enums.ActionCharInjective | src/enums.rs:33-44 | The six actions map to 'M', 'T', 'C', 'A', 'S' and 'U', pairwise distinct |
| Enums.STypeFrom | src/enums.rs:47-53 | `try_from` succeeds exactly on 0 to 2, and the type returned has that discriminant |
| Enums.STypeFromValue | src/enums.rs:47-53 | Converting a type's discriminant back gives the type |
| Enums.STypeName | src/enums.rs:55-64 | Each name is non-empty and made of lower-case letters, digits, `-` and `_` |
| Enums.STypeNameInjective | src/enums.rs:55-64 | No two symbology types share an `as_str` name |
| Enums.SchemaFrom | src/enums.rs:73-100 | `try_from` succeeds exactly on values up to 11, and the schema returned has that discriminant |
| Enums.SchemaFromValue | src/enums.rs:73-100 | Converting a schema's discriminant back gives the schema |
| Enums.SchemaValuesContiguous | src/enums.rs:73-100 | The discriminants are 0 to 11 in declaration order, with no gap |
| Enums.SchemaName | src/enums.rs:102-119 | Each name is non-empty and made of lower-case letters, digits, `-` and `_` |
| Enums.SchemaNameInjective | src/enums.rs:102-119 | The twelve `as_str` names are pairwise distinct |
| Enums.EncodingFrom | src/enums.rs:128-137 | `try_from` succeeds exactly on 0 to 2, and the encoding returned has that discriminant |
| Enums.EncodingFromValue | src/enums.rs:128-137 | Converting an encoding's discriminant back gives the encoding |
| Enums.EncodingName | src/enums.rs:139-147 | Each name is non-empty and made of lower-case letters, digits, `-` and `_` |
| Enums.EncodingNameInjective | src/enums.rs:139-147 | The names "dbz", "csv" and "json" are pairwise distinct |
| Enums.CompressionFrom | src/enums.rs:156-163 | `try_from` succeeds exactly on 0 and 1, and the compression returned has that discriminant |
| Enums.CompressionFromValue | src/enums.rs:156-163 | Converting a compression's discriminant back gives the compression |

## Left out

- Pointer mechanics are not modelled: `NonNull`, `cast`, `as_ref`/`as_mut`, alignment, lifetimes and aliasing. A reference is modelled by the bytes it points at.
- Native byte order is fixed to little-endian. A big-endian target would store the same fields in the other byte order.
- The serde helpers (src/record.rs:396-418) and the serde derive attributes are not modelled. They are feature-gated serialisation through an external library.
- The `Display` impls of src/enums.rs are not modelled. `as_str` carries their content.
- src/error.rs and src/lib.rs are not part of this model. They hold an error enum no core function returns, and module declarations.
- `SecurityUpdateAction`, the type of `InstrumentDefMsg::security_update_action`, is defined outside the files modelled here. The field is kept as its raw `u8`.
- The fields of `Side` and `Action` in the records are raw `c_char` bytes. The model does not constrain them to the enum's chars, and neither does the source.
- Views.FixtureRecordBytes: stated for every OHLCV message with the fixture's `rtype` (17), the fixture included. Views.FixtureScenario applies it to the fixture's literal values.
- Views.FixtureShortSpanPanics: stated for every OHLCV message with the fixture's `rtype`, the fixture included.
- Views.FixtureRecord: stated for every OHLCV message with the fixture's `rtype`, the fixture included.
- Views.FixtureRecordMut: stated for every OHLCV message with the fixture's `rtype`, the fixture included.
- Views.TransmuteRecord: the source's memory beyond the header is unchecked. The model requires, as the function's safety contract does, that a whole `T` follows a matching tag.
