/** The tag-checked conversions between byte spans, headers and records.

    A reference to a record is modelled by the bytes of memory it points at.
    Where the source asserts on the length of a span, the model returns an
    explicit Panic outcome, so that which spans panic can be stated and
    proved; the pointer casts become decoding of those bytes. */
module Views {
  import opened Bytes
  import opened Layout
  import opened Wrappers
  import opened Record

  /** The result of a call that either panics (a failed `assert!`) or returns. */
  datatype Outcome<T> = Panic | Returned(value: T)

  /** r is a record its own struct's `TYPE_ID` describes: the `rtype` of its
      header is the type id of its struct. */
  predicate Tagged(r: Record)
  {
    HeaderOf(r).rtype == TypeId(TypeOf(r))
  }

  // ------------------------------------------------------- transmute_into_header

  /** `transmute_into_header`: the header at the start of a record's memory
      is the record's own `hd`. */
  function TransmuteIntoHeader(r: Record): (hd: RecordHeader)
    ensures hd == HeaderOf(r)
    ensures hd.rtype == Encode(r)[1] && hd.length == Encode(r)[0]
  {
    EncodedHeader(r);
    DecodeHeader(Encode(r))
  }

  // ------------------------------------------------------ transmute_header_bytes

  /** `transmute_header_bytes`: panics on a span shorter than a header;
      otherwise reads the header at its start and returns it unless its
      `length`, counted in 32-bit words, runs past the end of the span. The
      outcome is decided by the span's length and its first byte only. */
  function TransmuteHeaderBytes(b: seq<Byte>): (o: Outcome<Option<RecordHeader>>)
    ensures o.Panic? <==> |b| < HeaderSize
    ensures o == Returned(None) <==> |b| >= HeaderSize && b[0] * 4 > |b|
    ensures o.Returned? && o.value.Some? ==> o.value.value == DecodeHeader(b) && o.value.value.length * 4 <= |b|
  {
    if |b| < HeaderSize then Panic
    else
      var hd := DecodeHeader(b);
      if hd.length * 4 > |b| then Returned(None) else Returned(Some(hd))
  }

  /** `length * 4` is computed in `usize` and cannot overflow: it is at most 1020. */
  lemma {:induction false} HeaderLengthBound(b: seq<Byte>)
    requires |b| >= HeaderSize
    ensures 0 <= DecodeHeader(b).length * 4 <= 1020
  {
  }

  /** The header stored in the first 16 bytes of b + c is the one stored in b. */
  lemma {:induction false} DecodeHeaderPrefix(b: seq<Byte>, c: seq<Byte>)
    requires |b| >= HeaderSize
    ensures DecodeHeader(b + c) == DecodeHeader(b)
  {
    var e := b + c;
    assert e[2..4] == b[2..4] && e[4..8] == b[4..8] && e[8..16] == b[8..16];
  }

  /** Reading the header of a record's bytes, followed by anything, gives the
      record's header exactly when its `length` does not run past the span. */
  lemma {:induction false} HeaderBytesOfRecord(r: Record, tail: seq<Byte>)
    ensures TransmuteHeaderBytes(Encode(r) + tail) ==
      Returned(if HeaderOf(r).length * 4 > SizeOf(TypeOf(r)) + |tail| then None else Some(HeaderOf(r)))
  {
    EncodedHeader(r);
    DecodeHeaderPrefix(Encode(r), tail);
  }

  // ------------------------------------------------------ transmute_record_bytes

  /** `transmute_record_bytes::<T>`: panics on a span shorter than T;
      otherwise returns the T stored at the start of the span if the header's
      `rtype` (byte 1) is `T::TYPE_ID`, and nothing if it is not. The
      header's `length` is not looked at. A record returned is of struct T,
      carries its tag, and its bytes are the span's first `size_of::<T>()`. */
  function TransmuteRecordBytes(t: RecordType, b: seq<Byte>): (o: Outcome<Option<Record>>)
    ensures o.Panic? <==> |b| < SizeOf(t)
    ensures o.Returned? ==> (o.value.Some? <==> b[1] == TypeId(t))
    ensures o.Returned? && o.value.Some? ==>
              TypeOf(o.value.value) == t && Tagged(o.value.value) && Encode(o.value.value) == b[..SizeOf(t)]
  {
    if |b| < SizeOf(t) then Panic
    else if DecodeHeader(b).rtype == TypeId(t) then
      HeaderOfDecode(t, b);
      EncodeDecode(t, b);
      Returned(Some(Decode(t, b)))
    else Returned(None)
  }

  /** Tag fidelity: the bytes of a tagged record, followed by anything, read
      back as that record; the bytes of an untagged one read back as nothing. */
  lemma {:induction false} RecordBytesFidelity(r: Record, tail: seq<Byte>)
    ensures TransmuteRecordBytes(TypeOf(r), Encode(r) + tail) ==
      Returned(if Tagged(r) then Some(r) else None)
  {
    EncodedHeader(r);
    DecodeHeaderPrefix(Encode(r), tail);
    DecodeWithTail(r, tail);
  }

  /** A record's bytes, followed by anything, decode as the record. */
  lemma {:induction false} DecodeWithTail(r: Record, tail: seq<Byte>)
    ensures |Encode(r) + tail| >= SizeOf(TypeOf(r))
    ensures Decode(TypeOf(r), Encode(r) + tail) == r
  {
    var t := TypeOf(r);
    var b := Encode(r) + tail;
    assert b[..SizeOf(t)] == Encode(r)[..SizeOf(t)];
    DecodePrefix(t, b, Encode(r));
    DecodeEncode(r);
  }

  /** Negative lookup: asking a tagged record's bytes for any other struct
      gives nothing, or a panic if the span is too short for that struct. */
  lemma {:induction false} RecordBytesOtherType(r: Record, u: RecordType, tail: seq<Byte>)
    requires Tagged(r) && u != TypeOf(r)
    ensures TransmuteRecordBytes(u, Encode(r) + tail) ==
      if |Encode(r)| + |tail| < SizeOf(u) then Panic else Returned(None)
  {
    EncodedHeader(r);
    DecodeHeaderPrefix(Encode(r), tail);
    TypeIdInjective(TypeOf(r), u);
  }

  /** The header's `length` byte takes no part in the decision. */
  lemma {:induction false} RecordBytesIgnoresLength(t: RecordType, b: seq<Byte>, len: Byte)
    requires |b| > 0
    ensures TransmuteRecordBytes(t, b).Panic? == TransmuteRecordBytes(t, b[0 := len]).Panic?
    ensures TransmuteRecordBytes(t, b) == Returned(None) <==>
            TransmuteRecordBytes(t, b[0 := len]) == Returned(None)
  {
  }

  // ----------------------------------------------- transmute_record and _mut

  /** `transmute_record::<T>`: given the memory a header begins, which the
      caller promises holds a whole T whenever the header's `rtype` is
      `T::TYPE_ID`, returns that T if the tag matches and nothing otherwise.
      No length is checked. A record returned is of struct T, carries its
      tag, and its bytes are the memory's first `size_of::<T>()`. */
  function TransmuteRecord(t: RecordType, mem: seq<Byte>): (r: Option<Record>)
    requires |mem| >= HeaderSize
    requires mem[1] == TypeId(t) ==> |mem| >= SizeOf(t)
    ensures r.Some? <==> mem[1] == TypeId(t)
    ensures r.Some? ==> TypeOf(r.value) == t && Tagged(r.value) && Encode(r.value) == mem[..SizeOf(t)]
  {
    if DecodeHeader(mem).rtype == TypeId(t) then
      HeaderOfDecode(t, mem);
      EncodeDecode(t, mem);
      Some(Decode(t, mem))
    else None
  }

  /** The header of a tagged record viewed as its own struct is the record;
      viewed as any other struct it is nothing. */
  lemma {:induction false} RecordOfHeader(r: Record, u: RecordType)
    requires Tagged(r)
    ensures Encode(r)[1] == HeaderOf(r).rtype
    ensures TransmuteRecord(u, Encode(r)) == if u == TypeOf(r) then Some(r) else None
  {
    EncodedHeader(r);
    TypeIdInjective(TypeOf(r), u);
    DecodeEncode(r);
  }

  /** The byte buffer a `transmute_record_mut` view writes through. Reading
      the view decodes the struct at the start of the buffer; writing a
      field stores its bytes in place. */
  class RecordView {
    const buf: array<Byte>
    const t: RecordType

    constructor (t: RecordType, buf: array<Byte>)
      requires buf.Length >= SizeOf(t)
      ensures this.buf == buf && this.t == t
    {
      this.buf := buf;
      this.t := t;
    }

    /** The values of the fields of the viewed struct. */
    function Fields(): (vs: seq<Value>)
      reads this, buf
      requires buf.Length >= SizeOf(t)
      ensures WellTyped(LayoutOf(t), vs)
    {
      LayoutSize(t);
      DecodeFieldsWellTyped(LayoutOf(t), buf[..]);
      DecodeFields(LayoutOf(t), buf[..])
    }

    /** The viewed record: its fields are the values the buffer holds, and
        its bytes are the buffer's first `size_of::<T>()` bytes. */
    function Get(): (r: Record)
      reads this, buf
      requires buf.Length >= SizeOf(t)
      ensures TypeOf(r) == t
      ensures Values(r) == Fields()
      ensures Encode(r) == buf[..SizeOf(t)]
    {
      ValuesOfDecode(t, buf[..]);
      EncodeDecode(t, buf[..]);
      Decode(t, buf[..])
    }

    /** Stores value v in field i: the bytes of the field are replaced by
        v's encoding, field i reads v afterwards and no other field changes. */
    method SetField(i: nat, v: Value)
      requires buf.Length >= SizeOf(t)
      requires i < |LayoutOf(t)| && Fits(LayoutOf(t)[i], v)
      modifies buf
      ensures Offset(LayoutOf(t), i) + LayoutOf(t)[i].width <= buf.Length
      ensures buf[..] == Splice(old(buf[..]), Offset(LayoutOf(t), i), EncodeValue(LayoutOf(t)[i], v))
      ensures Fields() == old(Fields())[i := v]
      ensures Values(Get()) == old(Values(Get()))[i := v]
    {
      var layout := LayoutOf(t);
      LayoutSize(t);
      FieldInBounds(layout, i);
      WriteField(layout, buf[..], i, v);
      WriteBytes(buf, Offset(layout, i), EncodeValue(layout[i], v));
    }

    /** Stores the whole record r, of the viewed struct, in the buffer:
        afterwards the view reads r, and the bytes past the struct are kept. */
    method Set(r: Record)
      requires buf.Length >= SizeOf(t) && TypeOf(r) == t
      modifies buf
      ensures buf[..] == Encode(r) + old(buf[SizeOf(t)..])
      ensures Get() == r
    {
      var bytes := Encode(r);
      WriteBytes(buf, 0, bytes);
      assert buf[..] == bytes + old(buf[SizeOf(t)..]);
      DecodeWithTail(r, old(buf[SizeOf(t)..]));
    }
  }

  /** Copies piece into a from offset `at` on, byte by byte. */
  method WriteBytes(a: array<Byte>, at: nat, piece: seq<Byte>)
    requires at + |piece| <= a.Length
    modifies a
    ensures a[..] == Splice(old(a[..]), at, piece)
  {
    var j := 0;
    while j < |piece|
      invariant 0 <= j <= |piece|
      invariant forall k :: 0 <= k < a.Length && !(at <= k < at + j) ==> a[k] == old(a[k])
      invariant forall k :: at <= k < at + j ==> a[k] == piece[k - at]
    {
      a[at + j] := piece[j];
      j := j + 1;
    }
    var s := Splice(old(a[..]), at, piece);
    forall k | 0 <= k < a.Length
      ensures a[k] == s[k]
    {
      if at <= k < at + |piece| {
        assert s[at..at + |piece|][k - at] == s[k];
      }
    }
  }

  /** `transmute_record_mut::<T>`: a view of the memory a header begins, as
      a T, exactly when the header's `rtype` is `T::TYPE_ID`. The view reads
      what `transmute_record` returns and writes through to that memory. */
  method TransmuteRecordMut(t: RecordType, mem: array<Byte>) returns (view: Option<RecordView>)
    requires mem.Length >= HeaderSize
    requires mem[1] == TypeId(t) ==> mem.Length >= SizeOf(t)
    ensures view.Some? <==> mem[1] == TypeId(t)
    ensures view.Some? ==> view.value.buf == mem && view.value.t == t
    ensures view.Some? ==>
      (view.value.buf.Length >= SizeOf(t) && Some(view.value.Get()) == TransmuteRecord(t, mem[..]))
  {
    if DecodeHeader(mem[..]).rtype == TypeId(t) {
      var v := new RecordView(t, mem);
      view := Some(v);
    } else {
      view := None;
    }
  }

  // ------------------------------------------------------------------- tests

  /** The OHLCV record of the source's tests. Its `length` (56) is the
      struct's size in bytes, not in 32-bit words; the conversions below
      never read it. */
  const OhlcvFixture: OhlcvMsg := OhlcvMsg(
    RecordHeader(56, 17, 1, 5482, 1609160400000000000),
    372025000000000, 372050000000000, 372025000000000, 372050000000000, 57)

  // The lemmas below hold for every OHLCV message carrying the fixture's
  // `rtype`, the fixture among them; stated for such an m, the verifier
  // reasons about the bytes symbolically instead of computing them.

  /** The fixture's bytes read back as the fixture. */
  lemma {:induction false} FixtureRecordBytes(m: OhlcvMsg)
    requires m.hd.rtype == OhlcvFixture.hd.rtype
    ensures TransmuteRecordBytes(OhlcvType, Encode(OhlcvRecord(m))) == Returned(Some(OhlcvRecord(m)))
  {
    var r := OhlcvRecord(m);
    assert Tagged(r);
    assert Encode(r) + [] == Encode(r);
    RecordBytesFidelity(r, []);
  }

  /** Asked for a status message, the fixture's bytes give nothing. */
  lemma {:induction false} FixtureNotStatus(m: OhlcvMsg)
    requires m.hd.rtype == OhlcvFixture.hd.rtype
    ensures TransmuteRecordBytes(StatusType, Encode(OhlcvRecord(m))) == Returned(None)
  {
    var r := OhlcvRecord(m);
    assert Tagged(r) && |Encode(r)| == 56;
    RecordBytesOtherType(r, StatusType, []);
    assert Encode(r) + [] == Encode(r);
  }

  /** The fixture itself, field values and all: its bytes read back as the
      fixture when asked for an OHLCV message, and as nothing when asked for
      a status message. */
  lemma {:induction false} FixtureScenario()
    ensures TransmuteRecordBytes(OhlcvType, Encode(OhlcvRecord(OhlcvFixture))) ==
      Returned(Some(OhlcvRecord(OhlcvFixture)))
    ensures TransmuteRecordBytes(StatusType, Encode(OhlcvRecord(OhlcvFixture))) == Returned(None)
  {
    FixtureRecordBytes(OhlcvFixture);
    FixtureNotStatus(OhlcvFixture);
  }

  /** A span five bytes shorter than the fixture's struct panics. */
  lemma {:induction false} FixtureShortSpanPanics(m: OhlcvMsg)
    requires m.hd.rtype == OhlcvFixture.hd.rtype
    ensures |Encode(OhlcvRecord(m))| == 56
    ensures TransmuteRecordBytes(OhlcvType, Encode(OhlcvRecord(m))[..56 - 5]) == Panic
  {
    var b := Encode(OhlcvRecord(m));
    assert |b[..56 - 5]| < SizeOf(OhlcvType);
  }

  /** The fixture's header viewed as an OHLCV record is the fixture. */
  lemma {:induction false} FixtureRecord(m: OhlcvMsg)
    requires m.hd.rtype == OhlcvFixture.hd.rtype
    ensures TransmuteRecord(OhlcvType, Encode(OhlcvRecord(m))) == Some(OhlcvRecord(m))
  {
    RecordOfHeader(OhlcvRecord(m), OhlcvType);
  }

  /** The fixture's header viewed mutably as an OHLCV record reads the fixture. */
  method FixtureRecordMut(m: OhlcvMsg) returns (r: Option<Record>)
    requires m.hd.rtype == OhlcvFixture.hd.rtype
    ensures r == Some(OhlcvRecord(m))
  {
    var bytes := Encode(OhlcvRecord(m));
    var mem := new Byte[|bytes|](i requires 0 <= i < |bytes| => bytes[i]);
    assert mem[..] == bytes;
    RecordOfHeader(OhlcvRecord(m), OhlcvType);
    var view := TransmuteRecordMut(OhlcvType, mem);
    r := Some(view.value.Get());
  }

  /** `size_of::<SymbolMappingMsg>()` is 80: its fields fill 80 bytes. */
  lemma {:induction false} SymbolMappingMsgSize()
    ensures Size(LayoutOf(SymbolMappingType)) == 80
  {
    LayoutSize(SymbolMappingType);
  }
}
