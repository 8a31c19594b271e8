/** The record catalog: the 16-byte header every record starts with, the
    ten record structs that follow it, the type id (`rtype`) bound to each
    struct, and the bytes of each struct in memory.

    A struct is stored as its fields one after the other (see Layout); a
    record's bytes are the encoding of its field values under its layout,
    and a record is read back from bytes by decoding each field at its
    offset. */
module Record {
  import opened Bytes
  import opened Layout

  /** A `c_char` field: one byte, kept raw. */
  const Char: Kind := U8

  /** `[c_char; n]` values. */
  type Chars3 = s: seq<CChar> | |s| == 3 witness [0, 0, 0]
  type Chars4 = s: seq<CChar> | |s| == 4 witness [0, 0, 0, 0]
  type Chars5 = s: seq<CChar> | |s| == 5 witness [0, 0, 0, 0, 0]
  type Chars6 = s: seq<CChar> | |s| == 6 witness [0, 0, 0, 0, 0, 0]
  type Chars7 = s: seq<CChar> | |s| == 7 witness [0, 0, 0, 0, 0, 0, 0]
  type Chars21 = s: seq<CChar> | |s| == 21 witness seq(21, _ => 0)
  type Chars22 = s: seq<CChar> | |s| == 22 witness seq(22, _ => 0)
  type Chars31 = s: seq<CChar> | |s| == 31 witness seq(31, _ => 0)
  type Chars64 = s: seq<CChar> | |s| == 64 witness seq(64, _ => 0)

  // Reading a decoded field value back as the type of a struct field. Each
  // is applied only to values that fit the field's kind, for which it
  // returns the value itself; the fallback is never taken on decoded bytes.

  function AsU8(v: Value): (x: UInt8) { if v.Num? && 0 <= v.n < 0x100 then v.n else 0 }
  function AsU16(v: Value): (x: UInt16) { if v.Num? && 0 <= v.n < 0x1_0000 then v.n else 0 }
  function AsU32(v: Value): (x: UInt32) { if v.Num? && 0 <= v.n < 0x1_0000_0000 then v.n else 0 }
  function AsU64(v: Value): (x: UInt64) { if v.Num? && 0 <= v.n < 0x1_0000_0000_0000_0000 then v.n else 0 }
  function AsI8(v: Value): (x: Int8) { if v.Num? && -0x80 <= v.n < 0x80 then v.n else 0 }
  function AsI16(v: Value): (x: Int16) { if v.Num? && -0x8000 <= v.n < 0x8000 then v.n else 0 }
  function AsI32(v: Value): (x: Int32) { if v.Num? && -0x8000_0000 <= v.n < 0x8000_0000 then v.n else 0 }
  function AsI64(v: Value): (x: Int64)
  {
    if v.Num? && -0x8000_0000_0000_0000 <= v.n < 0x8000_0000_0000_0000 then v.n else 0
  }

  function AsChars(v: Value, n: nat): (s: seq<CChar>)
    ensures |s| == n
    ensures v.Chars? && |v.chars| == n ==> s == v.chars
  {
    if v.Chars? && |v.chars| == n then v.chars else seq(n, _ => 0)
  }

  // A value that fits a field's kind reads back as itself: the fallbacks
  // above are taken only on values no field of that kind can hold.

  lemma {:induction false} ReadU8(v: Value)
    requires Fits(U8, v)
    ensures Num(AsU8(v)) == v
  {
    FitsRange(v);
  }

  lemma {:induction false} ReadU16(v: Value)
    requires Fits(U16, v)
    ensures Num(AsU16(v)) == v
  {
    FitsRange(v);
  }

  lemma {:induction false} ReadU32(v: Value)
    requires Fits(U32, v)
    ensures Num(AsU32(v)) == v
  {
    FitsRange(v);
  }

  lemma {:induction false} ReadU64(v: Value)
    requires Fits(U64, v)
    ensures Num(AsU64(v)) == v
  {
    FitsRange(v);
  }

  lemma {:induction false} ReadI8(v: Value)
    requires Fits(I8, v)
    ensures Num(AsI8(v)) == v
  {
    FitsRange(v);
  }

  lemma {:induction false} ReadI16(v: Value)
    requires Fits(I16, v)
    ensures Num(AsI16(v)) == v
  {
    FitsRange(v);
  }

  lemma {:induction false} ReadI32(v: Value)
    requires Fits(I32, v)
    ensures Num(AsI32(v)) == v
  {
    FitsRange(v);
  }

  lemma {:induction false} ReadI64(v: Value)
    requires Fits(I64, v)
    ensures Num(AsI64(v)) == v
  {
    FitsRange(v);
  }

  lemma {:induction false} ReadChars(v: Value, n: nat)
    requires Fits(CharArray(n), v)
    ensures Chars(AsChars(v, n)) == v
  {
  }

  // ---------------------------------------------------------------- header

  /** The header at the start of every record. `length` is documented as the
      record's length in 32-bit words, `rtype` is the type id of the struct
      the header begins. */
  datatype RecordHeader = RecordHeader(
    length: UInt8,
    rtype: UInt8,
    publisherId: UInt16,
    productId: UInt32,
    tsEvent: UInt64)

  const HeaderLayout: seq<Kind> := [U8, U8, U16, U32, U64]

  /** `size_of::<RecordHeader>()`. */
  const HeaderSize: nat := 16

  /** The header's fields start at offsets 0, 1, 2, 4 and 8 and fill 16 bytes. */
  lemma {:induction false} HeaderOffsets()
    ensures Offset(HeaderLayout, 1) == 1 && Offset(HeaderLayout, 2) == 2
    ensures Offset(HeaderLayout, 3) == 4 && Offset(HeaderLayout, 4) == 8
    ensures Size(HeaderLayout) == HeaderSize
  {
    var h := HeaderLayout;
    EndOfRun(h, 0, 2, 1);
    EndOfRun(h, 2, 3, 2);
    EndOfRun(h, 3, 4, 4);
    EndOfRun(h, 4, 5, 8);
    EndIsOffset(h, 1);
    EndIsOffset(h, 2);
    EndIsOffset(h, 3);
    EndIsOffset(h, 4);
    SizeIsEnd(h);
  }

  function HeaderValues(hd: RecordHeader): (vs: seq<Value>)
    ensures |vs| == |HeaderLayout|
  {
    [Num(hd.length), Num(hd.rtype), Num(hd.publisherId), Num(hd.productId), Num(hd.tsEvent)]
  }

  lemma {:induction false} HeaderValuesFit(hd: RecordHeader)
    ensures WellTyped(HeaderLayout, HeaderValues(hd))
  {
    FitsRange(Num(hd.length));
    FitsRange(Num(hd.rtype));
    FitsRange(Num(hd.publisherId));
    FitsRange(Num(hd.productId));
    FitsRange(Num(hd.tsEvent));
  }

  /** The header held by the first five values of a record's fields. */
  function HeaderFrom(vs: seq<Value>): (hd: RecordHeader)
    requires |vs| >= 5
  {
    RecordHeader(AsU8(vs[0]), AsU8(vs[1]), AsU16(vs[2]), AsU32(vs[3]), AsU64(vs[4]))
  }

  /** The header stored in the first 16 bytes of b: `length` is byte 0,
      `rtype` byte 1, and the wider fields are read little-endian from
      their offsets. */
  function DecodeHeader(b: seq<Byte>): (hd: RecordHeader)
    requires |b| >= HeaderSize
    ensures hd.length == b[0] && hd.rtype == b[1]
    ensures hd.publisherId == DecodeLE(b[2..4])
    ensures hd.productId == DecodeLE(b[4..8])
    ensures hd.tsEvent == DecodeLE(b[8..16])
  {
    HeaderOffsets();
    var vs := DecodeFields(HeaderLayout, b);
    DecodeFieldsAt(HeaderLayout, b, 0);
    DecodeFieldsAt(HeaderLayout, b, 1);
    DecodeFieldsAt(HeaderLayout, b, 2);
    DecodeFieldsAt(HeaderLayout, b, 3);
    DecodeFieldsAt(HeaderLayout, b, 4);
    assert b[0..1] == [b[0]] && b[1..2] == [b[1]];
    assert DecodeLE(b[0..1]) == b[0] by { assert b[0..1][1..] == []; }
    assert DecodeLE(b[1..2]) == b[1] by { assert b[1..2][1..] == []; }
    HeaderFrom(vs)
  }

  /** The 16 bytes of a header. */
  function EncodeHeader(hd: RecordHeader): (b: seq<Byte>)
    ensures |b| == HeaderSize
  {
    HeaderOffsets();
    HeaderValuesFit(hd);
    EncodeFields(HeaderLayout, HeaderValues(hd))
  }

  lemma {:induction false} DecodeEncodeHeader(hd: RecordHeader)
    ensures DecodeHeader(EncodeHeader(hd)) == hd
  {
    HeaderOffsets();
    HeaderValuesFit(hd);
    DecodeEncodeFields(HeaderLayout, HeaderValues(hd));
  }

  /** Round trip the other way: a header's 16 bytes, decoded and encoded
      again, are unchanged. */
  lemma {:induction false} EncodeDecodeHeader(b: seq<Byte>)
    requires |b| >= HeaderSize
    ensures EncodeHeader(DecodeHeader(b)) == b[..HeaderSize]
  {
    HeaderOffsets();
    var vs := DecodeFields(HeaderLayout, b);
    DecodeFieldsWellTyped(HeaderLayout, b);
    assert vs[0..5] == vs;
    HeaderReadBack(vs);
    assert DecodeHeader(b) == HeaderFrom(vs);
    DecodeFieldsPrefix(HeaderLayout, b, b[..HeaderSize]);
    EncodeDecodeFields(HeaderLayout, b[..HeaderSize]);
  }

  // -------------------------------------------------------------- book level

  /** One level of the order book: the best bid and ask price, size and order count. */
  datatype BidAskPair = BidAskPair(
    bidPx: Int64,
    askPx: Int64,
    bidSz: UInt32,
    askSz: UInt32,
    bidCt: UInt32,
    askCt: UInt32)

  const PairLayout: seq<Kind> := [I64, I64, U32, U32, U32, U32]

  lemma {:induction false} PairSize()
    ensures Size(PairLayout) == 32
  {
    EndOfRun(PairLayout, 0, 2, 8);
    EndOfRun(PairLayout, 2, 6, 4);
    SizeIsEnd(PairLayout);
  }

  function PairValues(p: BidAskPair): (vs: seq<Value>)
    ensures |vs| == |PairLayout|
  {
    [Num(p.bidPx), Num(p.askPx), Num(p.bidSz), Num(p.askSz), Num(p.bidCt), Num(p.askCt)]
  }

  lemma {:induction false} PairValuesFit(p: BidAskPair)
    ensures WellTyped(PairLayout, PairValues(p))
  {
    FitsRange(Num(p.bidPx));
    FitsRange(Num(p.askPx));
    FitsRange(Num(p.bidSz));
    FitsRange(Num(p.askSz));
    FitsRange(Num(p.bidCt));
    FitsRange(Num(p.askCt));
  }

  function PairFrom(vs: seq<Value>): (p: BidAskPair)
    requires |vs| >= 6
  {
    BidAskPair(AsI64(vs[0]), AsI64(vs[1]), AsU32(vs[2]), AsU32(vs[3]), AsU32(vs[4]), AsU32(vs[5]))
  }

  /** `[BidAskPair; n]`: n pairs one after the other. */
  function BookLayout(n: nat): (layout: seq<Kind>)
    ensures |layout| == 6 * n
  {
    if n == 0 then [] else PairLayout + BookLayout(n - 1)
  }

  lemma {:induction false} BookSize(n: nat)
    ensures Size(BookLayout(n)) == 32 * n
  {
    if n > 0 {
      PairSize();
      BookSize(n - 1);
      SizeAppend(PairLayout, BookLayout(n - 1));
    }
  }

  function BookValues(ps: seq<BidAskPair>): (vs: seq<Value>)
    ensures |vs| == 6 * |ps|
  {
    if |ps| == 0 then [] else PairValues(ps[0]) + BookValues(ps[1..])
  }

  lemma {:induction false} BookValuesFit(ps: seq<BidAskPair>)
    ensures WellTyped(BookLayout(|ps|), BookValues(ps))
  {
    if |ps| > 0 {
      PairValuesFit(ps[0]);
      BookValuesFit(ps[1..]);
      WellTypedAppend(PairLayout, PairValues(ps[0]), BookLayout(|ps| - 1), BookValues(ps[1..]));
    }
  }

  function BookFrom(vs: seq<Value>, n: nat): (ps: seq<BidAskPair>)
    requires |vs| == 6 * n
    ensures |ps| == n
  {
    if n == 0 then [] else [PairFrom(vs[..6])] + BookFrom(vs[6..], n - 1)
  }

  lemma {:induction false} BookRoundTrip(ps: seq<BidAskPair>)
    ensures BookFrom(BookValues(ps), |ps|) == ps
  {
    if |ps| > 0 {
      var vs := BookValues(ps);
      var head := PairValues(ps[0]);
      assert vs[..6] == head;
      assert vs[6..] == BookValues(ps[1..]);
      BookRoundTrip(ps[1..]);
    }
  }

  // ---------------------------------------------------------------- records

  /** A market-by-order event: one order added, modified, cancelled or traded. */
  datatype MboMsg = MboMsg(
    hd: RecordHeader,
    orderId: UInt64,
    price: Int64,
    size: UInt32,
    flags: UInt8,
    channelId: UInt8,
    action: CChar,
    side: CChar,
    tsRecv: UInt64,
    tsInDelta: Int32,
    sequence: UInt32)

  const MboBody: seq<Kind> := [U64, I64, U32, U8, U8, Char, Char, U64, I32, U32]

  function MboValues(m: MboMsg): (vs: seq<Value>)
    ensures |vs| == |MboBody|
  {
    [Num(m.orderId), Num(m.price), Num(m.size), Num(m.flags), Num(m.channelId),
     Num(m.action), Num(m.side), Num(m.tsRecv), Num(m.tsInDelta), Num(m.sequence)]
  }

  lemma {:induction false} MboValuesFit(m: MboMsg)
    ensures WellTyped(MboBody, MboValues(m))
  {
    FitsRange(Num(m.orderId));
    FitsRange(Num(m.price));
    FitsRange(Num(m.size));
    FitsRange(Num(m.flags));
    FitsRange(Num(m.channelId));
    FitsRange(Num(m.action));
    FitsRange(Num(m.side));
    FitsRange(Num(m.tsRecv));
    FitsRange(Num(m.tsInDelta));
    FitsRange(Num(m.sequence));
  }

  function MboFrom(vs: seq<Value>): (m: MboMsg)
    requires |vs| == 15
    ensures m.hd == HeaderFrom(vs)
  {
    MboMsg(HeaderFrom(vs), AsU64(vs[5]), AsI64(vs[6]), AsU32(vs[7]), AsU8(vs[8]), AsU8(vs[9]),
      AsU8(vs[10]), AsU8(vs[11]), AsU64(vs[12]), AsI32(vs[13]), AsU32(vs[14]))
  }

  /** The fields TradeMsg, Mbp1Msg and Mbp10Msg have in common, followed by
      `booklevel`. The three structs differ only in the length of
      `booklevel` (0, 1 or 10 levels), which is also their type id. */
  datatype MbpMsg = MbpMsg(
    hd: RecordHeader,
    price: Int64,
    size: UInt32,
    action: CChar,
    side: CChar,
    flags: UInt8,
    depth: UInt8,
    tsRecv: UInt64,
    tsInDelta: Int32,
    sequence: UInt32,
    booklevel: seq<BidAskPair>)

  /** A trade: no book levels (market by price, depth 0). */
  type TradeMsg = m: MbpMsg | |m.booklevel| == 0
    witness MbpMsg(RecordHeader(0, 0, 0, 0, 0), 0, 0, 0, 0, 0, 0, 0, 0, 0, [])

  /** Market by price with the top level of the book. */
  type Mbp1Msg = m: MbpMsg | |m.booklevel| == 1
    witness MbpMsg(RecordHeader(0, 0, 0, 0, 0), 0, 0, 0, 0, 0, 0, 0, 0, 0, [BidAskPair(0, 0, 0, 0, 0, 0)])

  /** Market by price with the top ten levels of the book. */
  type Mbp10Msg = m: MbpMsg | |m.booklevel| == 10
    witness MbpMsg(RecordHeader(0, 0, 0, 0, 0), 0, 0, 0, 0, 0, 0, 0, 0, 0, seq(10, _ => BidAskPair(0, 0, 0, 0, 0, 0)))

  /** Top of book with the trade: the same struct as Mbp1Msg. */
  type TbboMsg = Mbp1Msg

  const MbpBody: seq<Kind> := [I64, U32, Char, Char, U8, U8, U64, I32, U32]

  /** The fields before `booklevel`. */
  function MbpFixedValues(m: MbpMsg): (vs: seq<Value>)
    ensures |vs| == |MbpBody|
  {
    [Num(m.price), Num(m.size), Num(m.action), Num(m.side), Num(m.flags),
     Num(m.depth), Num(m.tsRecv), Num(m.tsInDelta), Num(m.sequence)]
  }

  function MbpValues(m: MbpMsg): (vs: seq<Value>)
    ensures |vs| == 9 + 6 * |m.booklevel|
  {
    MbpFixedValues(m) + BookValues(m.booklevel)
  }

  lemma {:induction false} MbpValuesFit(m: MbpMsg)
    ensures WellTyped(MbpBody + BookLayout(|m.booklevel|), MbpValues(m))
  {
    FitsRange(Num(m.price));
    FitsRange(Num(m.size));
    FitsRange(Num(m.action));
    FitsRange(Num(m.side));
    FitsRange(Num(m.flags));
    FitsRange(Num(m.depth));
    FitsRange(Num(m.tsRecv));
    FitsRange(Num(m.tsInDelta));
    FitsRange(Num(m.sequence));
    assert WellTyped(MbpBody, MbpFixedValues(m));
    BookValuesFit(m.booklevel);
    WellTypedAppend(MbpBody, MbpFixedValues(m), BookLayout(|m.booklevel|), BookValues(m.booklevel));
  }

  function MbpFrom(vs: seq<Value>, n: nat): (m: MbpMsg)
    requires |vs| == 14 + 6 * n
    ensures |m.booklevel| == n
    ensures m.hd == HeaderFrom(vs)
  {
    MbpMsg(HeaderFrom(vs), AsI64(vs[5]), AsU32(vs[6]), AsU8(vs[7]), AsU8(vs[8]), AsU8(vs[9]),
      AsU8(vs[10]), AsU64(vs[11]), AsI32(vs[12]), AsU32(vs[13]), BookFrom(vs[14..], n))
  }

  /** Open, high, low, close and volume over one interval. */
  datatype OhlcvMsg = OhlcvMsg(
    hd: RecordHeader,
    open: Int64,
    high: Int64,
    low: Int64,
    close: Int64,
    volume: UInt64)

  const OhlcvBody: seq<Kind> := [I64, I64, I64, I64, U64]

  function OhlcvValues(m: OhlcvMsg): (vs: seq<Value>)
    ensures |vs| == |OhlcvBody|
  {
    [Num(m.open), Num(m.high), Num(m.low), Num(m.close), Num(m.volume)]
  }

  lemma {:induction false} OhlcvValuesFit(m: OhlcvMsg)
    ensures WellTyped(OhlcvBody, OhlcvValues(m))
  {
    FitsRange(Num(m.open));
    FitsRange(Num(m.high));
    FitsRange(Num(m.low));
    FitsRange(Num(m.close));
    FitsRange(Num(m.volume));
  }

  function OhlcvFrom(vs: seq<Value>): (m: OhlcvMsg)
    requires |vs| == 10
    ensures m.hd == HeaderFrom(vs)
  {
    OhlcvMsg(HeaderFrom(vs), AsI64(vs[5]), AsI64(vs[6]), AsI64(vs[7]), AsI64(vs[8]), AsU64(vs[9]))
  }

  /** A trading status change of an instrument group. */
  datatype StatusMsg = StatusMsg(
    hd: RecordHeader,
    tsRecv: UInt64,
    group: Chars21,
    tradingStatus: UInt8,
    haltReason: UInt8,
    tradingEvent: UInt8)

  const StatusBody: seq<Kind> := [U64, CharArray(21), U8, U8, U8]

  function StatusValues(m: StatusMsg): (vs: seq<Value>)
    ensures |vs| == |StatusBody|
  {
    [Num(m.tsRecv), Chars(m.group), Num(m.tradingStatus), Num(m.haltReason), Num(m.tradingEvent)]
  }

  lemma {:induction false} StatusValuesFit(m: StatusMsg)
    ensures WellTyped(StatusBody, StatusValues(m))
  {
    FitsRange(Num(m.tsRecv));
    FitsRange(Num(m.tradingStatus));
    FitsRange(Num(m.haltReason));
    FitsRange(Num(m.tradingEvent));
  }

  function StatusFrom(vs: seq<Value>): (m: StatusMsg)
    requires |vs| == 10
    ensures m.hd == HeaderFrom(vs)
  {
    StatusMsg(HeaderFrom(vs), AsU64(vs[5]), AsChars(vs[6], 21), AsU8(vs[7]), AsU8(vs[8]), AsU8(vs[9]))
  }

  /** The definition of an instrument: prices and limits, quantities,
      dates, identifying strings and trading flags. */
  datatype InstrumentDefMsg = InstrumentDefMsg(
    hd: RecordHeader,
    tsRecv: UInt64,
    minPriceIncrement: Int64,
    displayFactor: Int64,
    expiration: UInt64,
    activation: UInt64,
    highLimitPrice: Int64,
    lowLimitPrice: Int64,
    maxPriceVariation: Int64,
    tradingReferencePrice: Int64,
    unitOfMeasureQty: Int64,
    minPriceIncrementAmount: Int64,
    priceRatio: Int64,
    instAttribValue: Int32,
    underlyingId: UInt32,
    clearedVolume: Int32,
    marketDepthImplied: Int32,
    marketDepth: Int32,
    marketSegmentId: UInt32,
    maxTradeVol: UInt32,
    minLotSize: Int32,
    minLotSizeBlock: Int32,
    minLotSizeRoundLot: Int32,
    minTradeVol: UInt32,
    openInterestQty: Int32,
    contractMultiplier: Int32,
    decayQuantity: Int32,
    originalContractSize: Int32,
    relatedSecurityId: UInt32,
    tradingReferenceDate: UInt16,
    applId: Int16,
    maturityYear: UInt16,
    decayStartDate: UInt16,
    channelId: UInt16,
    currency: Chars4,
    settlCurrency: Chars4,
    secsubtype: Chars6,
    symbol: Chars22,
    group: Chars21,
    exchange: Chars5,
    asset: Chars7,
    cfi: Chars7,
    securityType: Chars7,
    unitOfMeasure: Chars31,
    underlying: Chars21,
    related: Chars21,
    matchAlgorithm: CChar,
    mdSecurityTradingStatus: UInt8,
    mainFraction: UInt8,
    priceDisplayFormat: UInt8,
    settlPriceType: UInt8,
    subFraction: UInt8,
    underlyingProduct: UInt8,
    securityUpdateAction: UInt8,
    maturityMonth: UInt8,
    maturityDay: UInt8,
    maturityWeek: UInt8,
    userDefinedInstrument: CChar,
    contractMultiplierUnit: Int8,
    flowScheduleType: Int8,
    tickRule: UInt8,
    dummy: Chars3)

  // The fields of InstrumentDefMsg after the header, in runs of one width.

  const DefPrices: seq<Kind> := [U64, I64, I64, U64, U64, I64, I64, I64, I64, I64, I64, I64]
  const DefQuantities: seq<Kind> :=
    [I32, U32, I32, I32, I32, U32, U32, I32, I32, I32, U32, I32, I32, I32, I32, U32]
  const DefDates: seq<Kind> := [U16, I16, U16, U16, U16]
  const DefCodes: seq<Kind> :=
    [CharArray(4), CharArray(4), CharArray(6), CharArray(22), CharArray(21), CharArray(5)]
  const DefNames: seq<Kind> :=
    [CharArray(7), CharArray(7), CharArray(7), CharArray(31), CharArray(21), CharArray(21)]
  const DefFlags: seq<Kind> := [Char, U8, U8, U8, U8, U8, U8, U8, U8, U8, U8, Char, I8, I8, U8]
  const DefPadding: seq<Kind> := [CharArray(3)]

  const InstrumentDefBody: seq<Kind> :=
    DefPrices + DefQuantities + DefDates + DefCodes + DefNames + DefFlags + DefPadding

  function DefPriceValues(m: InstrumentDefMsg): (vs: seq<Value>)
    ensures |vs| == |DefPrices|
  {
    [Num(m.tsRecv), Num(m.minPriceIncrement), Num(m.displayFactor), Num(m.expiration),
     Num(m.activation), Num(m.highLimitPrice), Num(m.lowLimitPrice), Num(m.maxPriceVariation),
     Num(m.tradingReferencePrice), Num(m.unitOfMeasureQty), Num(m.minPriceIncrementAmount),
     Num(m.priceRatio)]
  }

  lemma {:induction false} DefPriceValuesFit(m: InstrumentDefMsg)
    ensures WellTyped(DefPrices, DefPriceValues(m))
  {
    FitsRange(Num(m.tsRecv));
    FitsRange(Num(m.minPriceIncrement));
    FitsRange(Num(m.displayFactor));
    FitsRange(Num(m.expiration));
    FitsRange(Num(m.activation));
    FitsRange(Num(m.highLimitPrice));
    FitsRange(Num(m.lowLimitPrice));
    FitsRange(Num(m.maxPriceVariation));
    FitsRange(Num(m.tradingReferencePrice));
    FitsRange(Num(m.unitOfMeasureQty));
    FitsRange(Num(m.minPriceIncrementAmount));
    FitsRange(Num(m.priceRatio));
  }

  function DefQuantityValues(m: InstrumentDefMsg): (vs: seq<Value>)
    ensures |vs| == |DefQuantities|
  {
    [Num(m.instAttribValue), Num(m.underlyingId), Num(m.clearedVolume), Num(m.marketDepthImplied),
     Num(m.marketDepth), Num(m.marketSegmentId), Num(m.maxTradeVol), Num(m.minLotSize),
     Num(m.minLotSizeBlock), Num(m.minLotSizeRoundLot), Num(m.minTradeVol), Num(m.openInterestQty),
     Num(m.contractMultiplier), Num(m.decayQuantity), Num(m.originalContractSize),
     Num(m.relatedSecurityId)]
  }

  lemma {:induction false} DefQuantityValuesFit(m: InstrumentDefMsg)
    ensures WellTyped(DefQuantities, DefQuantityValues(m))
  {
    FitsRange(Num(m.instAttribValue));
    FitsRange(Num(m.underlyingId));
    FitsRange(Num(m.clearedVolume));
    FitsRange(Num(m.marketDepthImplied));
    FitsRange(Num(m.marketDepth));
    FitsRange(Num(m.marketSegmentId));
    FitsRange(Num(m.maxTradeVol));
    FitsRange(Num(m.minLotSize));
    FitsRange(Num(m.minLotSizeBlock));
    FitsRange(Num(m.minLotSizeRoundLot));
    FitsRange(Num(m.minTradeVol));
    FitsRange(Num(m.openInterestQty));
    FitsRange(Num(m.contractMultiplier));
    FitsRange(Num(m.decayQuantity));
    FitsRange(Num(m.originalContractSize));
    FitsRange(Num(m.relatedSecurityId));
  }

  function DefDateValues(m: InstrumentDefMsg): (vs: seq<Value>)
    ensures |vs| == |DefDates|
  {
    [Num(m.tradingReferenceDate), Num(m.applId), Num(m.maturityYear), Num(m.decayStartDate),
     Num(m.channelId)]
  }

  lemma {:induction false} DefDateValuesFit(m: InstrumentDefMsg)
    ensures WellTyped(DefDates, DefDateValues(m))
  {
    FitsRange(Num(m.tradingReferenceDate));
    FitsRange(Num(m.applId));
    FitsRange(Num(m.maturityYear));
    FitsRange(Num(m.decayStartDate));
    FitsRange(Num(m.channelId));
  }

  function DefCodeValues(m: InstrumentDefMsg): (vs: seq<Value>)
    ensures |vs| == |DefCodes|
  {
    [Chars(m.currency), Chars(m.settlCurrency), Chars(m.secsubtype), Chars(m.symbol),
     Chars(m.group), Chars(m.exchange)]
  }

  lemma {:induction false} DefCodeValuesFit(m: InstrumentDefMsg)
    ensures WellTyped(DefCodes, DefCodeValues(m))
  {
  }

  function DefNameValues(m: InstrumentDefMsg): (vs: seq<Value>)
    ensures |vs| == |DefNames|
  {
    [Chars(m.asset), Chars(m.cfi), Chars(m.securityType), Chars(m.unitOfMeasure),
     Chars(m.underlying), Chars(m.related)]
  }

  lemma {:induction false} DefNameValuesFit(m: InstrumentDefMsg)
    ensures WellTyped(DefNames, DefNameValues(m))
  {
  }

  function DefFlagValues(m: InstrumentDefMsg): (vs: seq<Value>)
    ensures |vs| == |DefFlags|
  {
    [Num(m.matchAlgorithm), Num(m.mdSecurityTradingStatus), Num(m.mainFraction),
     Num(m.priceDisplayFormat), Num(m.settlPriceType), Num(m.subFraction),
     Num(m.underlyingProduct), Num(m.securityUpdateAction), Num(m.maturityMonth),
     Num(m.maturityDay), Num(m.maturityWeek), Num(m.userDefinedInstrument),
     Num(m.contractMultiplierUnit), Num(m.flowScheduleType), Num(m.tickRule)]
  }

  lemma {:induction false} DefFlagValuesFit(m: InstrumentDefMsg)
    ensures WellTyped(DefFlags, DefFlagValues(m))
  {
    FitsRange(Num(m.matchAlgorithm));
    FitsRange(Num(m.mdSecurityTradingStatus));
    FitsRange(Num(m.mainFraction));
    FitsRange(Num(m.priceDisplayFormat));
    FitsRange(Num(m.settlPriceType));
    FitsRange(Num(m.subFraction));
    FitsRange(Num(m.underlyingProduct));
    FitsRange(Num(m.securityUpdateAction));
    FitsRange(Num(m.maturityMonth));
    FitsRange(Num(m.maturityDay));
    FitsRange(Num(m.maturityWeek));
    FitsRange(Num(m.userDefinedInstrument));
    FitsRange(Num(m.contractMultiplierUnit));
    FitsRange(Num(m.flowScheduleType));
    FitsRange(Num(m.tickRule));
  }

  function InstrumentDefValues(m: InstrumentDefMsg): (vs: seq<Value>)
    ensures |vs| == 61
  {
    DefPriceValues(m) + DefQuantityValues(m) + DefDateValues(m) + DefCodeValues(m)
      + DefNameValues(m) + DefFlagValues(m) + [Chars(m.dummy)]
  }

  lemma {:induction false} InstrumentDefValuesFit(m: InstrumentDefMsg)
    ensures WellTyped(InstrumentDefBody, InstrumentDefValues(m))
  {
    DefPriceValuesFit(m);
    DefQuantityValuesFit(m);
    DefDateValuesFit(m);
    DefCodeValuesFit(m);
    DefNameValuesFit(m);
    DefFlagValuesFit(m);
    var p := DefPriceValues(m);
    var q := DefQuantityValues(m);
    var d := DefDateValues(m);
    var c := DefCodeValues(m);
    var n := DefNameValues(m);
    var f := DefFlagValues(m);
    var pad := [Chars(m.dummy)];
    WellTypedAppend(DefPrices, p, DefQuantities, q);
    WellTypedAppend(DefPrices + DefQuantities, p + q, DefDates, d);
    WellTypedAppend(DefPrices + DefQuantities + DefDates, p + q + d, DefCodes, c);
    WellTypedAppend(DefPrices + DefQuantities + DefDates + DefCodes, p + q + d + c, DefNames, n);
    WellTypedAppend(DefPrices + DefQuantities + DefDates + DefCodes + DefNames, p + q + d + c + n,
      DefFlags, f);
    WellTypedAppend(DefPrices + DefQuantities + DefDates + DefCodes + DefNames + DefFlags,
      p + q + d + c + n + f, DefPadding, pad);
  }

  function InstrumentDefFrom(vs: seq<Value>): (m: InstrumentDefMsg)
    requires |vs| == 66
    ensures m.hd == HeaderFrom(vs)
  {
    InstrumentDefMsg(HeaderFrom(vs),
      AsU64(vs[5]), AsI64(vs[6]), AsI64(vs[7]), AsU64(vs[8]), AsU64(vs[9]), AsI64(vs[10]),
      AsI64(vs[11]), AsI64(vs[12]), AsI64(vs[13]), AsI64(vs[14]), AsI64(vs[15]), AsI64(vs[16]),
      AsI32(vs[17]), AsU32(vs[18]), AsI32(vs[19]), AsI32(vs[20]), AsI32(vs[21]), AsU32(vs[22]),
      AsU32(vs[23]), AsI32(vs[24]), AsI32(vs[25]), AsI32(vs[26]), AsU32(vs[27]), AsI32(vs[28]),
      AsI32(vs[29]), AsI32(vs[30]), AsI32(vs[31]), AsU32(vs[32]),
      AsU16(vs[33]), AsI16(vs[34]), AsU16(vs[35]), AsU16(vs[36]), AsU16(vs[37]),
      AsChars(vs[38], 4), AsChars(vs[39], 4), AsChars(vs[40], 6), AsChars(vs[41], 22),
      AsChars(vs[42], 21), AsChars(vs[43], 5), AsChars(vs[44], 7), AsChars(vs[45], 7),
      AsChars(vs[46], 7), AsChars(vs[47], 31), AsChars(vs[48], 21), AsChars(vs[49], 21),
      AsU8(vs[50]), AsU8(vs[51]), AsU8(vs[52]), AsU8(vs[53]), AsU8(vs[54]), AsU8(vs[55]),
      AsU8(vs[56]), AsU8(vs[57]), AsU8(vs[58]), AsU8(vs[59]), AsU8(vs[60]), AsU8(vs[61]),
      AsI8(vs[62]), AsI8(vs[63]), AsU8(vs[64]), AsChars(vs[65], 3))
  }

  lemma {:induction false} InstrumentDefRoundTrip(m: InstrumentDefMsg)
    ensures InstrumentDefFrom(HeaderValues(m.hd) + InstrumentDefValues(m)) == m
  {
  }

  /** An auction imbalance: reference and clearing prices, paired and
      unpaired quantities and the auction's state. */
  datatype Imbalance = Imbalance(
    hd: RecordHeader,
    tsRecv: UInt64,
    refPrice: Int64,
    auctionTime: UInt64,
    contBookClrPrice: Int64,
    auctInterestClrPrice: Int64,
    ssrFillingPrice: Int64,
    indMatchPrice: Int64,
    upperCollar: Int64,
    lowerCollar: Int64,
    pairedQty: UInt32,
    totalImbalanceQty: UInt32,
    marketImbalanceQty: UInt32,
    auctionType: CChar,
    side: CChar,
    auctionStatus: UInt8,
    freezeStatus: UInt8,
    numExtensions: UInt8,
    unpairedQty: UInt8,
    unpairedSide: CChar,
    significantImbalance: CChar,
    dummy: Chars4)

  // The fields of Imbalance after the header, in runs of one width.

  const ImbalancePrices: seq<Kind> := [U64, I64, U64, I64, I64, I64, I64, I64, I64]
  const ImbalanceQuantities: seq<Kind> := [U32, U32, U32]
  const ImbalanceFlags: seq<Kind> := [Char, Char, U8, U8, U8, U8, Char, Char]
  const ImbalancePadding: seq<Kind> := [CharArray(4)]

  const ImbalanceBody: seq<Kind> :=
    ImbalancePrices + ImbalanceQuantities + ImbalanceFlags + ImbalancePadding

  function ImbalancePriceValues(m: Imbalance): (vs: seq<Value>)
    ensures |vs| == |ImbalancePrices|
  {
    [Num(m.tsRecv), Num(m.refPrice), Num(m.auctionTime), Num(m.contBookClrPrice),
     Num(m.auctInterestClrPrice), Num(m.ssrFillingPrice), Num(m.indMatchPrice),
     Num(m.upperCollar), Num(m.lowerCollar)]
  }

  lemma {:induction false} ImbalancePriceValuesFit(m: Imbalance)
    ensures WellTyped(ImbalancePrices, ImbalancePriceValues(m))
  {
    FitsRange(Num(m.tsRecv));
    FitsRange(Num(m.refPrice));
    FitsRange(Num(m.auctionTime));
    FitsRange(Num(m.contBookClrPrice));
    FitsRange(Num(m.auctInterestClrPrice));
    FitsRange(Num(m.ssrFillingPrice));
    FitsRange(Num(m.indMatchPrice));
    FitsRange(Num(m.upperCollar));
    FitsRange(Num(m.lowerCollar));
  }

  function ImbalanceFlagValues(m: Imbalance): (vs: seq<Value>)
    ensures |vs| == |ImbalanceFlags|
  {
    [Num(m.auctionType), Num(m.side), Num(m.auctionStatus), Num(m.freezeStatus),
     Num(m.numExtensions), Num(m.unpairedQty), Num(m.unpairedSide), Num(m.significantImbalance)]
  }

  lemma {:induction false} ImbalanceFlagValuesFit(m: Imbalance)
    ensures WellTyped(ImbalanceFlags, ImbalanceFlagValues(m))
  {
    FitsRange(Num(m.auctionType));
    FitsRange(Num(m.side));
    FitsRange(Num(m.auctionStatus));
    FitsRange(Num(m.freezeStatus));
    FitsRange(Num(m.numExtensions));
    FitsRange(Num(m.unpairedQty));
    FitsRange(Num(m.unpairedSide));
    FitsRange(Num(m.significantImbalance));
  }

  function ImbalanceValues(m: Imbalance): (vs: seq<Value>)
    ensures |vs| == 21
  {
    ImbalancePriceValues(m) + [Num(m.pairedQty), Num(m.totalImbalanceQty), Num(m.marketImbalanceQty)]
      + ImbalanceFlagValues(m) + [Chars(m.dummy)]
  }

  lemma {:induction false} ImbalanceValuesFit(m: Imbalance)
    ensures WellTyped(ImbalanceBody, ImbalanceValues(m))
  {
    ImbalancePriceValuesFit(m);
    ImbalanceFlagValuesFit(m);
    FitsRange(Num(m.pairedQty));
    FitsRange(Num(m.totalImbalanceQty));
    FitsRange(Num(m.marketImbalanceQty));
    var p := ImbalancePriceValues(m);
    var q := [Num(m.pairedQty), Num(m.totalImbalanceQty), Num(m.marketImbalanceQty)];
    var f := ImbalanceFlagValues(m);
    var pad := [Chars(m.dummy)];
    WellTypedAppend(ImbalancePrices, p, ImbalanceQuantities, q);
    WellTypedAppend(ImbalancePrices + ImbalanceQuantities, p + q, ImbalanceFlags, f);
    WellTypedAppend(ImbalancePrices + ImbalanceQuantities + ImbalanceFlags, p + q + f,
      ImbalancePadding, pad);
  }

  function ImbalanceFrom(vs: seq<Value>): (m: Imbalance)
    requires |vs| == 26
    ensures m.hd == HeaderFrom(vs)
  {
    Imbalance(HeaderFrom(vs),
      AsU64(vs[5]), AsI64(vs[6]), AsU64(vs[7]), AsI64(vs[8]), AsI64(vs[9]), AsI64(vs[10]),
      AsI64(vs[11]), AsI64(vs[12]), AsI64(vs[13]),
      AsU32(vs[14]), AsU32(vs[15]), AsU32(vs[16]),
      AsU8(vs[17]), AsU8(vs[18]), AsU8(vs[19]), AsU8(vs[20]), AsU8(vs[21]), AsU8(vs[22]),
      AsU8(vs[23]), AsU8(vs[24]), AsChars(vs[25], 4))
  }

  /** An error message from the gateway, as a NUL-padded string. */
  datatype GatewayErrorMsg = GatewayErrorMsg(hd: RecordHeader, err: Chars64)

  const GatewayErrorBody: seq<Kind> := [CharArray(64)]

  function GatewayErrorValues(m: GatewayErrorMsg): (vs: seq<Value>)
    ensures |vs| == |GatewayErrorBody|
  {
    [Chars(m.err)]
  }

  lemma {:induction false} GatewayErrorValuesFit(m: GatewayErrorMsg)
    ensures WellTyped(GatewayErrorBody, GatewayErrorValues(m))
  {
  }

  /** A symbol mapping: the input and output symbols of a resolution and the
      interval over which it holds. */
  datatype SymbolMappingMsg = SymbolMappingMsg(
    hd: RecordHeader,
    stypeInSymbol: Chars22,
    stypeOutSymbol: Chars22,
    dummy: Chars4,
    startTs: UInt64,
    endTs: UInt64)

  const SymbolMappingBody: seq<Kind> := [CharArray(22), CharArray(22), CharArray(4), U64, U64]

  function SymbolMappingValues(m: SymbolMappingMsg): (vs: seq<Value>)
    ensures |vs| == |SymbolMappingBody|
  {
    [Chars(m.stypeInSymbol), Chars(m.stypeOutSymbol), Chars(m.dummy), Num(m.startTs), Num(m.endTs)]
  }

  lemma {:induction false} SymbolMappingValuesFit(m: SymbolMappingMsg)
    ensures WellTyped(SymbolMappingBody, SymbolMappingValues(m))
  {
    FitsRange(Num(m.startTs));
    FitsRange(Num(m.endTs));
  }

  function SymbolMappingFrom(vs: seq<Value>): (m: SymbolMappingMsg)
    requires |vs| == 10
    ensures m.hd == HeaderFrom(vs)
  {
    SymbolMappingMsg(HeaderFrom(vs), AsChars(vs[5], 22), AsChars(vs[6], 22), AsChars(vs[7], 4),
      AsU64(vs[8]), AsU64(vs[9]))
  }

  // --------------------------------------------------------------- type ids

  const TickMsgTypeId: UInt8 := 0xA0
  const OhlcvTypeId: UInt8 := 0x11
  const StatusMsgTypeId: UInt8 := 0x12
  const InstrumentDefMsgTypeId: UInt8 := 0x13
  const ImbalanceTypeId: UInt8 := 0x14
  const GatewayErrorMsgTypeId: UInt8 := 0x15
  const SymbolMappingMsgTypeId: UInt8 := 0x16

  /** The deepest book level a market-by-price record can carry. */
  const MaxUaBookLevel: UInt8 := 0xF

  /** `0..=MAX_UA_BOOK_LEVEL`: the type ids reserved for market-by-price
      records, whose type id is their number of book levels. */
  predicate InMbpTypeIdRange(id: int)
  {
    0 <= id <= MaxUaBookLevel
  }

  /** The record structs, standing for the type parameter `T` of the
      `transmute_*` functions. */
  datatype RecordType =
    | MboType
    | TradeType
    | Mbp1Type
    | Mbp10Type
    | OhlcvType
    | StatusType
    | InstrumentDefType
    | ImbalanceType
    | GatewayErrorType
    | SymbolMappingType

  /** `T::TYPE_ID`, the `rtype` of every record of struct t. A
      market-by-price struct's type id is its book depth, inside the
      reserved range; every other type id lies outside it. */
  function TypeId(t: RecordType): (id: UInt8)
    ensures IsBook(t) ==> id == BookDepth(t) <= MaxUaBookLevel
    ensures InMbpTypeIdRange(id) <==> IsBook(t)
  {
    match t
    case MboType => TickMsgTypeId
    case TradeType => 0
    case Mbp1Type => 1
    case Mbp10Type => 10
    case OhlcvType => OhlcvTypeId
    case StatusType => StatusMsgTypeId
    case InstrumentDefType => InstrumentDefMsgTypeId
    case ImbalanceType => ImbalanceTypeId
    case GatewayErrorType => GatewayErrorMsgTypeId
    case SymbolMappingType => SymbolMappingMsgTypeId
  }

  /** The market-by-price structs, which carry `booklevel`. */
  predicate IsBook(t: RecordType)
  {
    t.TradeType? || t.Mbp1Type? || t.Mbp10Type?
  }

  /** The length of `booklevel` in each market-by-price struct. */
  function BookDepth(t: RecordType): (n: nat)
    requires IsBook(t)
  {
    match t
    case TradeType => 0
    case Mbp1Type => 1
    case Mbp10Type => 10
  }

  /** No two structs share a type id. */
  lemma {:induction false} TypeIdInjective(t: RecordType, u: RecordType)
    ensures TypeId(t) == TypeId(u) ==> t == u
  {
  }

  /** `size_of::<T>()`: every struct holds at least its header, and its
      size is a multiple of 8, the alignment of its 64-bit fields. */
  function SizeOf(t: RecordType): (n: nat)
    ensures n >= HeaderSize && n % 8 == 0
  {
    match t
    case MboType => 56
    case TradeType => 48
    case Mbp1Type => 80
    case Mbp10Type => 368
    case OhlcvType => 56
    case StatusType => 48
    case InstrumentDefType => 360
    case ImbalanceType => 112
    case GatewayErrorType => 80
    case SymbolMappingType => 80
  }

  // ----------------------------------------------------------------- layouts

  /** The fields of struct t after its header. */
  function BodyLayout(t: RecordType): (layout: seq<Kind>)
  {
    match t
    case MboType => MboBody
    case TradeType => MbpBody + BookLayout(0)
    case Mbp1Type => MbpBody + BookLayout(1)
    case Mbp10Type => MbpBody + BookLayout(10)
    case OhlcvType => OhlcvBody
    case StatusType => StatusBody
    case InstrumentDefType => InstrumentDefBody
    case ImbalanceType => ImbalanceBody
    case GatewayErrorType => GatewayErrorBody
    case SymbolMappingType => SymbolMappingBody
  }

  /** Every struct starts with the header. */
  function LayoutOf(t: RecordType): (layout: seq<Kind>)
  {
    HeaderLayout + BodyLayout(t)
  }

  lemma {:induction false} BodySize(t: RecordType)
    ensures Size(BodyLayout(t)) + HeaderSize == SizeOf(t)
  {
    match t
    case MboType => MboSize();
    case TradeType => MbpSize(0);
    case Mbp1Type => MbpSize(1);
    case Mbp10Type => MbpSize(10);
    case OhlcvType => SizeUniform(OhlcvBody, 8);
    case StatusType => StatusSize();
    case InstrumentDefType => InstrumentDefSize();
    case ImbalanceType => ImbalanceSize();
    case GatewayErrorType =>
    case SymbolMappingType => SymbolMappingSize();
  }

  lemma {:induction false} MboSize()
    ensures Size(MboBody) == 40
  {
    var l := MboBody;
    EndOfRun(l, 0, 2, 8);
    EndOfRun(l, 2, 3, 4);
    EndOfRun(l, 3, 7, 1);
    EndOfRun(l, 7, 8, 8);
    EndOfRun(l, 8, 10, 4);
    SizeIsEnd(l);
  }

  lemma {:induction false} MbpSize(n: nat)
    ensures Size(MbpBody + BookLayout(n)) == 32 + 32 * n
  {
    var l := MbpBody;
    EndOfRun(l, 0, 1, 8);
    EndOfRun(l, 1, 2, 4);
    EndOfRun(l, 2, 6, 1);
    EndOfRun(l, 6, 7, 8);
    EndOfRun(l, 7, 9, 4);
    SizeIsEnd(l);
    BookSize(n);
    SizeAppend(l, BookLayout(n));
  }

  lemma {:induction false} StatusSize()
    ensures Size(StatusBody) == 32
  {
    var l := StatusBody;
    EndOfRun(l, 0, 1, 8);
    EndOfRun(l, 1, 2, 21);
    EndOfRun(l, 2, 5, 1);
    SizeIsEnd(l);
  }

  lemma {:induction false} DefCodesSize()
    ensures Size(DefCodes) == 62
  {
    var l := DefCodes;
    EndOfRun(l, 0, 2, 4);
    EndOfRun(l, 2, 3, 6);
    EndOfRun(l, 3, 4, 22);
    EndOfRun(l, 4, 5, 21);
    EndOfRun(l, 5, 6, 5);
    SizeIsEnd(l);
  }

  lemma {:induction false} DefNamesSize()
    ensures Size(DefNames) == 94
  {
    var l := DefNames;
    EndOfRun(l, 0, 3, 7);
    EndOfRun(l, 3, 4, 31);
    EndOfRun(l, 4, 6, 21);
    SizeIsEnd(l);
  }

  lemma {:induction false} InstrumentDefSize()
    ensures Size(InstrumentDefBody) == 344
  {
    SizeUniform(DefPrices, 8);
    SizeUniform(DefQuantities, 4);
    SizeUniform(DefDates, 2);
    DefCodesSize();
    DefNamesSize();
    SizeUniform(DefFlags, 1);
    var l := DefPrices + DefQuantities;
    SizeAppend(DefPrices, DefQuantities);
    SizeAppend(l, DefDates);
    l := l + DefDates;
    SizeAppend(l, DefCodes);
    l := l + DefCodes;
    SizeAppend(l, DefNames);
    l := l + DefNames;
    SizeAppend(l, DefFlags);
    l := l + DefFlags;
    SizeAppend(l, DefPadding);
  }

  lemma {:induction false} ImbalanceSize()
    ensures Size(ImbalanceBody) == 96
  {
    SizeUniform(ImbalancePrices, 8);
    SizeUniform(ImbalanceQuantities, 4);
    SizeUniform(ImbalanceFlags, 1);
    var l := ImbalancePrices + ImbalanceQuantities;
    SizeAppend(ImbalancePrices, ImbalanceQuantities);
    SizeAppend(l, ImbalanceFlags);
    l := l + ImbalanceFlags;
    SizeAppend(l, ImbalancePadding);
  }

  lemma {:induction false} SymbolMappingSize()
    ensures Size(SymbolMappingBody) == 64
  {
    var l := SymbolMappingBody;
    EndOfRun(l, 0, 2, 22);
    EndOfRun(l, 2, 3, 4);
    EndOfRun(l, 3, 5, 8);
    SizeIsEnd(l);
  }

  /** Each struct occupies the bytes `size_of` reports for it: its fields
      leave no gap and no trailing padding. */
  lemma {:induction false} LayoutSize(t: RecordType)
    ensures Size(LayoutOf(t)) == SizeOf(t)
  {
    HeaderOffsets();
    BodySize(t);
    SizeAppend(HeaderLayout, BodyLayout(t));
  }

  // ----------------------------------------------------------------- records

  /** A record of any of the ten structs. */
  datatype Record =
    | MboRecord(mbo: MboMsg)
    | TradeRecord(trade: TradeMsg)
    | Mbp1Record(mbp1: Mbp1Msg)
    | Mbp10Record(mbp10: Mbp10Msg)
    | OhlcvRecord(ohlcv: OhlcvMsg)
    | StatusRecord(status: StatusMsg)
    | InstrumentDefRecord(definition: InstrumentDefMsg)
    | ImbalanceRecord(imbalance: Imbalance)
    | GatewayErrorRecord(gatewayError: GatewayErrorMsg)
    | SymbolMappingRecord(symbolMapping: SymbolMappingMsg)

  function TypeOf(r: Record): (t: RecordType)
  {
    match r
    case MboRecord(_) => MboType
    case TradeRecord(_) => TradeType
    case Mbp1Record(_) => Mbp1Type
    case Mbp10Record(_) => Mbp10Type
    case OhlcvRecord(_) => OhlcvType
    case StatusRecord(_) => StatusType
    case InstrumentDefRecord(_) => InstrumentDefType
    case ImbalanceRecord(_) => ImbalanceType
    case GatewayErrorRecord(_) => GatewayErrorType
    case SymbolMappingRecord(_) => SymbolMappingType
  }

  /** The record's `hd` field. */
  function HeaderOf(r: Record): (hd: RecordHeader)
  {
    match r
    case MboRecord(m) => m.hd
    case TradeRecord(m) => m.hd
    case Mbp1Record(m) => m.hd
    case Mbp10Record(m) => m.hd
    case OhlcvRecord(m) => m.hd
    case StatusRecord(m) => m.hd
    case InstrumentDefRecord(m) => m.hd
    case ImbalanceRecord(m) => m.hd
    case GatewayErrorRecord(m) => m.hd
    case SymbolMappingRecord(m) => m.hd
  }

  /** A market-by-price record carries as many book levels as its type id says. */
  lemma {:induction false} BookLevelsMatchTypeId(r: Record)
    requires IsBook(TypeOf(r))
    ensures r.TradeRecord? ==> |r.trade.booklevel| == TypeId(TypeOf(r))
    ensures r.Mbp1Record? ==> |r.mbp1.booklevel| == TypeId(TypeOf(r))
    ensures r.Mbp10Record? ==> |r.mbp10.booklevel| == TypeId(TypeOf(r))
  {
  }

  /** The values of the fields after the header. */
  function BodyValues(r: Record): (vs: seq<Value>)
  {
    match r
    case MboRecord(m) => MboValues(m)
    case TradeRecord(m) => MbpValues(m)
    case Mbp1Record(m) => MbpValues(m)
    case Mbp10Record(m) => MbpValues(m)
    case OhlcvRecord(m) => OhlcvValues(m)
    case StatusRecord(m) => StatusValues(m)
    case InstrumentDefRecord(m) => InstrumentDefValues(m)
    case ImbalanceRecord(m) => ImbalanceValues(m)
    case GatewayErrorRecord(m) => GatewayErrorValues(m)
    case SymbolMappingRecord(m) => SymbolMappingValues(m)
  }

  /** The values of all the record's fields, in layout order. */
  function Values(r: Record): (vs: seq<Value>)
  {
    HeaderValues(HeaderOf(r)) + BodyValues(r)
  }

  /** The number of fields of struct t, the header's five included. */
  function FieldCount(t: RecordType): (n: nat)
  {
    match t
    case MboType => 15
    case TradeType => 14
    case Mbp1Type => 20
    case Mbp10Type => 74
    case OhlcvType => 10
    case StatusType => 10
    case InstrumentDefType => 66
    case ImbalanceType => 26
    case GatewayErrorType => 6
    case SymbolMappingType => 10
  }

  lemma {:induction false} FieldCountIsLength(t: RecordType)
    ensures |LayoutOf(t)| == FieldCount(t)
  {
    match t
    case MboType =>
    case TradeType =>
    case Mbp1Type =>
    case Mbp10Type =>
    case OhlcvType =>
    case StatusType =>
    case InstrumentDefType =>
    case ImbalanceType =>
    case GatewayErrorType =>
    case SymbolMappingType =>
  }

  /** The record of struct t whose fields hold the values vs. */
  function FromValues(t: RecordType, vs: seq<Value>): (r: Record)
    requires |vs| == FieldCount(t)
  {
    match t
    case MboType => MboRecord(MboFrom(vs))
    case TradeType => TradeRecord(MbpFrom(vs, 0))
    case Mbp1Type => Mbp1Record(MbpFrom(vs, 1))
    case Mbp10Type => Mbp10Record(MbpFrom(vs, 10))
    case OhlcvType => OhlcvRecord(OhlcvFrom(vs))
    case StatusType => StatusRecord(StatusFrom(vs))
    case InstrumentDefType => InstrumentDefRecord(InstrumentDefFrom(vs))
    case ImbalanceType => ImbalanceRecord(ImbalanceFrom(vs))
    case GatewayErrorType => GatewayErrorRecord(GatewayErrorMsg(HeaderFrom(vs), AsChars(vs[5], 64)))
    case SymbolMappingType => SymbolMappingRecord(SymbolMappingFrom(vs))
  }

  /** The values of struct t make a record of struct t. */
  lemma {:induction false} FromValuesType(t: RecordType, vs: seq<Value>)
    requires |vs| == FieldCount(t)
    ensures TypeOf(FromValues(t, vs)) == t
  {
    match t
    case MboType =>
    case TradeType =>
    case Mbp1Type =>
    case Mbp10Type =>
    case OhlcvType =>
    case StatusType =>
    case InstrumentDefType =>
    case ImbalanceType =>
    case GatewayErrorType =>
    case SymbolMappingType =>
  }

  /** The header of the record made of the values vs is held by the first five of them. */
  lemma {:induction false} FromValuesHeader(t: RecordType, vs: seq<Value>)
    requires |vs| == FieldCount(t)
    ensures HeaderOf(FromValues(t, vs)) == HeaderFrom(vs)
  {
    match t
    case MboType =>
    case TradeType =>
    case Mbp1Type =>
    case Mbp10Type =>
    case OhlcvType =>
    case StatusType =>
    case InstrumentDefType =>
    case ImbalanceType =>
    case GatewayErrorType =>
    case SymbolMappingType =>
  }

  lemma {:induction false} MboRoundTrip(m: MboMsg)
    ensures MboFrom(HeaderValues(m.hd) + MboValues(m)) == m
  {
  }

  lemma {:induction false} OhlcvRoundTrip(m: OhlcvMsg)
    ensures OhlcvFrom(HeaderValues(m.hd) + OhlcvValues(m)) == m
  {
  }

  lemma {:induction false} StatusRoundTrip(m: StatusMsg)
    ensures StatusFrom(HeaderValues(m.hd) + StatusValues(m)) == m
  {
  }

  lemma {:induction false} ImbalanceRoundTrip(m: Imbalance)
    ensures ImbalanceFrom(HeaderValues(m.hd) + ImbalanceValues(m)) == m
  {
  }

  lemma {:induction false} SymbolMappingRoundTrip(m: SymbolMappingMsg)
    ensures SymbolMappingFrom(HeaderValues(m.hd) + SymbolMappingValues(m)) == m
  {
  }

  /** The fields of a market-by-price record read back as a record. */
  lemma {:induction false} MbpRoundTrip(m: MbpMsg)
    ensures MbpFrom(HeaderValues(m.hd) + MbpValues(m), |m.booklevel|) == m
  {
    var vs := HeaderValues(m.hd) + MbpValues(m);
    assert vs[14..] == BookValues(m.booklevel);
    BookRoundTrip(m.booklevel);
  }

  lemma {:induction false} MboRecordValues(m: MboMsg)
    ensures WellTyped(LayoutOf(MboType), Values(MboRecord(m)))
    ensures |Values(MboRecord(m))| == FieldCount(MboType)
    ensures FromValues(MboType, Values(MboRecord(m))) == MboRecord(m)
  {
    var vs := HeaderValues(m.hd) + MboValues(m);
    assert Values(MboRecord(m)) == vs;
    assert LayoutOf(MboType) == HeaderLayout + MboBody;
    HeaderValuesFit(m.hd);
    MboValuesFit(m);
    WellTypedAppend(HeaderLayout, HeaderValues(m.hd), MboBody, MboValues(m));
    MboRoundTrip(m);
  }

  lemma {:induction false} OhlcvRecordValues(m: OhlcvMsg)
    ensures WellTyped(LayoutOf(OhlcvType), Values(OhlcvRecord(m)))
    ensures |Values(OhlcvRecord(m))| == FieldCount(OhlcvType)
    ensures FromValues(OhlcvType, Values(OhlcvRecord(m))) == OhlcvRecord(m)
  {
    var vs := HeaderValues(m.hd) + OhlcvValues(m);
    assert Values(OhlcvRecord(m)) == vs;
    assert LayoutOf(OhlcvType) == HeaderLayout + OhlcvBody;
    HeaderValuesFit(m.hd);
    OhlcvValuesFit(m);
    WellTypedAppend(HeaderLayout, HeaderValues(m.hd), OhlcvBody, OhlcvValues(m));
    OhlcvRoundTrip(m);
  }

  lemma {:induction false} StatusRecordValues(m: StatusMsg)
    ensures WellTyped(LayoutOf(StatusType), Values(StatusRecord(m)))
    ensures |Values(StatusRecord(m))| == FieldCount(StatusType)
    ensures FromValues(StatusType, Values(StatusRecord(m))) == StatusRecord(m)
  {
    var vs := HeaderValues(m.hd) + StatusValues(m);
    assert Values(StatusRecord(m)) == vs;
    assert LayoutOf(StatusType) == HeaderLayout + StatusBody;
    HeaderValuesFit(m.hd);
    StatusValuesFit(m);
    WellTypedAppend(HeaderLayout, HeaderValues(m.hd), StatusBody, StatusValues(m));
    StatusRoundTrip(m);
  }

  lemma {:induction false} InstrumentDefRecordValues(m: InstrumentDefMsg)
    ensures WellTyped(LayoutOf(InstrumentDefType), Values(InstrumentDefRecord(m)))
    ensures |Values(InstrumentDefRecord(m))| == FieldCount(InstrumentDefType)
    ensures FromValues(InstrumentDefType, Values(InstrumentDefRecord(m))) == InstrumentDefRecord(m)
  {
    var vs := HeaderValues(m.hd) + InstrumentDefValues(m);
    assert Values(InstrumentDefRecord(m)) == vs;
    assert LayoutOf(InstrumentDefType) == HeaderLayout + InstrumentDefBody;
    HeaderValuesFit(m.hd);
    InstrumentDefValuesFit(m);
    WellTypedAppend(HeaderLayout, HeaderValues(m.hd), InstrumentDefBody, InstrumentDefValues(m));
    InstrumentDefRoundTrip(m);
  }

  lemma {:induction false} ImbalanceRecordValues(m: Imbalance)
    ensures WellTyped(LayoutOf(ImbalanceType), Values(ImbalanceRecord(m)))
    ensures |Values(ImbalanceRecord(m))| == FieldCount(ImbalanceType)
    ensures FromValues(ImbalanceType, Values(ImbalanceRecord(m))) == ImbalanceRecord(m)
  {
    var vs := HeaderValues(m.hd) + ImbalanceValues(m);
    assert Values(ImbalanceRecord(m)) == vs;
    assert LayoutOf(ImbalanceType) == HeaderLayout + ImbalanceBody;
    HeaderValuesFit(m.hd);
    ImbalanceValuesFit(m);
    WellTypedAppend(HeaderLayout, HeaderValues(m.hd), ImbalanceBody, ImbalanceValues(m));
    ImbalanceRoundTrip(m);
  }

  lemma {:induction false} GatewayErrorRecordValues(m: GatewayErrorMsg)
    ensures WellTyped(LayoutOf(GatewayErrorType), Values(GatewayErrorRecord(m)))
    ensures |Values(GatewayErrorRecord(m))| == FieldCount(GatewayErrorType)
    ensures FromValues(GatewayErrorType, Values(GatewayErrorRecord(m))) == GatewayErrorRecord(m)
  {
    var vs := HeaderValues(m.hd) + GatewayErrorValues(m);
    assert Values(GatewayErrorRecord(m)) == vs;
    assert LayoutOf(GatewayErrorType) == HeaderLayout + GatewayErrorBody;
    HeaderValuesFit(m.hd);
    GatewayErrorValuesFit(m);
    WellTypedAppend(HeaderLayout, HeaderValues(m.hd), GatewayErrorBody, GatewayErrorValues(m));
  }

  lemma {:induction false} SymbolMappingRecordValues(m: SymbolMappingMsg)
    ensures WellTyped(LayoutOf(SymbolMappingType), Values(SymbolMappingRecord(m)))
    ensures |Values(SymbolMappingRecord(m))| == FieldCount(SymbolMappingType)
    ensures FromValues(SymbolMappingType, Values(SymbolMappingRecord(m))) == SymbolMappingRecord(m)
  {
    var vs := HeaderValues(m.hd) + SymbolMappingValues(m);
    assert Values(SymbolMappingRecord(m)) == vs;
    assert LayoutOf(SymbolMappingType) == HeaderLayout + SymbolMappingBody;
    HeaderValuesFit(m.hd);
    SymbolMappingValuesFit(m);
    WellTypedAppend(HeaderLayout, HeaderValues(m.hd), SymbolMappingBody, SymbolMappingValues(m));
    SymbolMappingRoundTrip(m);
  }

  lemma {:induction false} TradeRecordValues(m: TradeMsg)
    ensures WellTyped(LayoutOf(TradeType), Values(TradeRecord(m)))
    ensures |Values(TradeRecord(m))| == FieldCount(TradeType)
    ensures FromValues(TradeType, Values(TradeRecord(m))) == TradeRecord(m)
  {
    var vs := HeaderValues(m.hd) + MbpValues(m);
    assert Values(TradeRecord(m)) == vs;
    assert LayoutOf(TradeType) == HeaderLayout + (MbpBody + BookLayout(0));
    HeaderValuesFit(m.hd);
    MbpValuesFit(m);
    WellTypedAppend(HeaderLayout, HeaderValues(m.hd), MbpBody + BookLayout(0), MbpValues(m));
    MbpRoundTrip(m);
  }

  lemma {:induction false} Mbp1RecordValues(m: Mbp1Msg)
    ensures WellTyped(LayoutOf(Mbp1Type), Values(Mbp1Record(m)))
    ensures |Values(Mbp1Record(m))| == FieldCount(Mbp1Type)
    ensures FromValues(Mbp1Type, Values(Mbp1Record(m))) == Mbp1Record(m)
  {
    var vs := HeaderValues(m.hd) + MbpValues(m);
    assert Values(Mbp1Record(m)) == vs;
    assert LayoutOf(Mbp1Type) == HeaderLayout + (MbpBody + BookLayout(1));
    HeaderValuesFit(m.hd);
    MbpValuesFit(m);
    WellTypedAppend(HeaderLayout, HeaderValues(m.hd), MbpBody + BookLayout(1), MbpValues(m));
    MbpRoundTrip(m);
  }

  lemma {:induction false} Mbp10RecordValues(m: Mbp10Msg)
    ensures WellTyped(LayoutOf(Mbp10Type), Values(Mbp10Record(m)))
    ensures |Values(Mbp10Record(m))| == FieldCount(Mbp10Type)
    ensures FromValues(Mbp10Type, Values(Mbp10Record(m))) == Mbp10Record(m)
  {
    var vs := HeaderValues(m.hd) + MbpValues(m);
    assert Values(Mbp10Record(m)) == vs;
    assert LayoutOf(Mbp10Type) == HeaderLayout + (MbpBody + BookLayout(10));
    HeaderValuesFit(m.hd);
    MbpValuesFit(m);
    WellTypedAppend(HeaderLayout, HeaderValues(m.hd), MbpBody + BookLayout(10), MbpValues(m));
    MbpRoundTrip(m);
  }

  /** The values of a record's fields fit its struct's layout, and reading
      them back gives the record. */
  lemma {:induction false} ValuesRoundTrip(r: Record)
    ensures WellTyped(LayoutOf(TypeOf(r)), Values(r))
    ensures |Values(r)| == FieldCount(TypeOf(r))
    ensures FromValues(TypeOf(r), Values(r)) == r
  {
    match r
    case MboRecord(m) => MboRecordValues(m);
    case TradeRecord(m) => TradeRecordValues(m);
    case Mbp1Record(m) => Mbp1RecordValues(m);
    case Mbp10Record(m) => Mbp10RecordValues(m);
    case OhlcvRecord(m) => OhlcvRecordValues(m);
    case StatusRecord(m) => StatusRecordValues(m);
    case InstrumentDefRecord(m) => InstrumentDefRecordValues(m);
    case ImbalanceRecord(m) => ImbalanceRecordValues(m);
    case GatewayErrorRecord(m) => GatewayErrorRecordValues(m);
    case SymbolMappingRecord(m) => SymbolMappingRecordValues(m);
  }

  // ------------------------------------------------------ reading values back
  //
  // The converse of the round trip above: the record rebuilt from values
  // that fit a struct's layout has exactly those values as its fields. Each
  // run of fields is read back by its own lemma.

  /** The header rebuilt from five fitting values holds them. */
  lemma {:induction false} HeaderReadBack(vs: seq<Value>)
    requires |vs| >= 5 && WellTyped(HeaderLayout, vs[0..5])
    ensures HeaderValues(HeaderFrom(vs)) == vs[0..5]
  {
    var g := vs[0..5];
    assert Fits(U8, g[0]) && Fits(U8, g[1]) && Fits(U16, g[2]) && Fits(U32, g[3]);
    assert Fits(U64, g[4]);
    ReadU8(vs[0]); ReadU8(vs[1]); ReadU16(vs[2]); ReadU32(vs[3]); ReadU64(vs[4]);
  }

  lemma {:induction false} PairReadBack(vs: seq<Value>)
    requires |vs| == 6 && WellTyped(PairLayout, vs)
    ensures PairValues(PairFrom(vs)) == vs
  {
    assert Fits(I64, vs[0]) && Fits(I64, vs[1]) && Fits(U32, vs[2]) && Fits(U32, vs[3]);
    assert Fits(U32, vs[4]) && Fits(U32, vs[5]);
    ReadI64(vs[0]); ReadI64(vs[1]); ReadU32(vs[2]); ReadU32(vs[3]); ReadU32(vs[4]);
    ReadU32(vs[5]);
  }

  /** The values of n + 1 book levels are those of the first level followed
      by those of the other n. */
  lemma {:induction false} BookParts(vs: seq<Value>, n: nat)
    requires |vs| == 6 * n && n > 0 && WellTyped(BookLayout(n), vs)
    ensures WellTyped(PairLayout, vs[..6]) && WellTyped(BookLayout(n - 1), vs[6..])
  {
    assert BookLayout(n) == PairLayout + BookLayout(n - 1);
    WellTypedParts(PairLayout, BookLayout(n - 1), vs);
  }

  /** Rebuilding n book levels rebuilds the first level from the first six
      values and the rest from the others. */
  lemma {:induction false} BookFromValues(vs: seq<Value>, n: nat)
    requires |vs| == 6 * n && n > 0
    ensures BookValues(BookFrom(vs, n)) ==
      PairValues(PairFrom(vs[..6])) + BookValues(BookFrom(vs[6..], n - 1))
  {
    var p, ps := PairFrom(vs[..6]), BookFrom(vs[6..], n - 1);
    assert BookFrom(vs, n) == [p] + ps;
    assert ([p] + ps)[1..] == ps;
  }

  /** n book levels rebuilt from fitting values hold them. */
  lemma {:induction false} BookReadBack(vs: seq<Value>, n: nat)
    requires |vs| == 6 * n && WellTyped(BookLayout(n), vs)
    ensures BookValues(BookFrom(vs, n)) == vs
  {
    if n > 0 {
      BookParts(vs, n);
      PairReadBack(vs[..6]);
      BookReadBack(vs[6..], n - 1);
      BookFromValues(vs, n);
      assert vs[..6] + vs[6..] == vs;
    }
  }

  /** The fields of an MBO message after the header. */
  lemma {:induction false} MboReadBack(vs: seq<Value>)
    requires |vs| == 15 && WellTyped(MboBody, vs[5..15])
    ensures MboValues(MboFrom(vs)) == vs[5..15]
  {
    MboFits(vs);
    MboRead(vs);
  }

  lemma {:induction false} MboFits(vs: seq<Value>)
    requires |vs| == 15 && WellTyped(MboBody, vs[5..15])
    ensures Fits(U64, vs[5]) && Fits(I64, vs[6]) && Fits(U32, vs[7]) && Fits(U8, vs[8])
    ensures Fits(U8, vs[9]) && Fits(U8, vs[10]) && Fits(U8, vs[11]) && Fits(U64, vs[12])
    ensures Fits(I32, vs[13]) && Fits(U32, vs[14])
  {
    var g := vs[5..15];
    assert Fits(U64, g[0]) && Fits(I64, g[1]) && Fits(U32, g[2]) && Fits(U8, g[3]);
    assert Fits(U8, g[4]) && Fits(U8, g[5]) && Fits(U8, g[6]) && Fits(U64, g[7]);
    assert Fits(I32, g[8]) && Fits(U32, g[9]);
  }

  lemma {:induction false} MboRead(vs: seq<Value>)
    requires |vs| == 15
    requires Fits(U64, vs[5]) && Fits(I64, vs[6]) && Fits(U32, vs[7]) && Fits(U8, vs[8])
    requires Fits(U8, vs[9]) && Fits(U8, vs[10]) && Fits(U8, vs[11]) && Fits(U64, vs[12])
    requires Fits(I32, vs[13]) && Fits(U32, vs[14])
    ensures MboValues(MboFrom(vs)) == vs[5..15]
  {
    ReadU64(vs[5]); ReadI64(vs[6]); ReadU32(vs[7]); ReadU8(vs[8]); ReadU8(vs[9]);
    ReadU8(vs[10]); ReadU8(vs[11]); ReadU64(vs[12]); ReadI32(vs[13]); ReadU32(vs[14]);
  }

  lemma {:induction false} MbpFixedReadBack(vs: seq<Value>, n: nat)
    requires |vs| == 14 + 6 * n && WellTyped(MbpBody, vs[5..14])
    ensures MbpFixedValues(MbpFrom(vs, n)) == vs[5..14]
  {
    MbpFixedFits(vs, n);
    MbpFixedRead(vs, n);
  }

  lemma {:induction false} MbpFixedFits(vs: seq<Value>, n: nat)
    requires |vs| == 14 + 6 * n && WellTyped(MbpBody, vs[5..14])
    ensures Fits(I64, vs[5]) && Fits(U32, vs[6]) && Fits(U8, vs[7]) && Fits(U8, vs[8])
    ensures Fits(U8, vs[9]) && Fits(U8, vs[10]) && Fits(U64, vs[11]) && Fits(I32, vs[12])
    ensures Fits(U32, vs[13])
  {
    var g := vs[5..14];
    assert Fits(I64, g[0]) && Fits(U32, g[1]) && Fits(U8, g[2]) && Fits(U8, g[3]);
    assert Fits(U8, g[4]) && Fits(U8, g[5]) && Fits(U64, g[6]) && Fits(I32, g[7]);
    assert Fits(U32, g[8]);
  }

  lemma {:induction false} MbpFixedRead(vs: seq<Value>, n: nat)
    requires |vs| == 14 + 6 * n
    requires Fits(I64, vs[5]) && Fits(U32, vs[6]) && Fits(U8, vs[7]) && Fits(U8, vs[8])
    requires Fits(U8, vs[9]) && Fits(U8, vs[10]) && Fits(U64, vs[11]) && Fits(I32, vs[12])
    requires Fits(U32, vs[13])
    ensures MbpFixedValues(MbpFrom(vs, n)) == vs[5..14]
  {
    ReadI64(vs[5]); ReadU32(vs[6]); ReadU8(vs[7]); ReadU8(vs[8]); ReadU8(vs[9]);
    ReadU8(vs[10]); ReadU64(vs[11]); ReadI32(vs[12]); ReadU32(vs[13]);
  }

  /** The fields of an OHLCV message after the header. */
  lemma {:induction false} OhlcvReadBack(vs: seq<Value>)
    requires |vs| == 10 && WellTyped(OhlcvBody, vs[5..10])
    ensures OhlcvValues(OhlcvFrom(vs)) == vs[5..10]
  {
    var g := vs[5..10];
    assert Fits(I64, g[0]) && Fits(I64, g[1]) && Fits(I64, g[2]) && Fits(I64, g[3]);
    assert Fits(U64, g[4]);
    ReadI64(vs[5]); ReadI64(vs[6]); ReadI64(vs[7]); ReadI64(vs[8]); ReadU64(vs[9]);
  }

  /** The fields of a status message after the header. */
  lemma {:induction false} StatusReadBack(vs: seq<Value>)
    requires |vs| == 10 && WellTyped(StatusBody, vs[5..10])
    ensures StatusValues(StatusFrom(vs)) == vs[5..10]
  {
    var g := vs[5..10];
    assert Fits(U64, g[0]) && Fits(CharArray(21), g[1]) && Fits(U8, g[2]) && Fits(U8, g[3]);
    assert Fits(U8, g[4]);
    ReadU64(vs[5]); ReadChars(vs[6], 21); ReadU8(vs[7]); ReadU8(vs[8]); ReadU8(vs[9]);
  }

  /** The fields of a symbol mapping after the header. */
  lemma {:induction false} SymbolMappingReadBack(vs: seq<Value>)
    requires |vs| == 10 && WellTyped(SymbolMappingBody, vs[5..10])
    ensures SymbolMappingValues(SymbolMappingFrom(vs)) == vs[5..10]
  {
    var g := vs[5..10];
    assert Fits(CharArray(22), g[0]) && Fits(CharArray(22), g[1]) && Fits(CharArray(4), g[2]) && Fits(U64, g[3]);
    assert Fits(U64, g[4]);
    ReadChars(vs[5], 22); ReadChars(vs[6], 22); ReadChars(vs[7], 4); ReadU64(vs[8]); ReadU64(vs[9]);
  }

  /** The price run of an instrument definition. */
  lemma {:induction false} DefPriceReadBack(vs: seq<Value>)
    requires |vs| == 66 && WellTyped(DefPrices, vs[5..17])
    ensures DefPriceValues(InstrumentDefFrom(vs)) == vs[5..17]
  {
    DefPriceFits(vs);
    DefPriceRead(vs);
  }

  lemma {:induction false} DefPriceFits(vs: seq<Value>)
    requires |vs| == 66 && WellTyped(DefPrices, vs[5..17])
    ensures Fits(U64, vs[5]) && Fits(I64, vs[6]) && Fits(I64, vs[7]) && Fits(U64, vs[8])
    ensures Fits(U64, vs[9]) && Fits(I64, vs[10]) && Fits(I64, vs[11]) && Fits(I64, vs[12])
    ensures Fits(I64, vs[13]) && Fits(I64, vs[14]) && Fits(I64, vs[15]) && Fits(I64, vs[16])
  {
    var g := vs[5..17];
    assert Fits(U64, g[0]) && Fits(I64, g[1]) && Fits(I64, g[2]) && Fits(U64, g[3]);
    assert Fits(U64, g[4]) && Fits(I64, g[5]) && Fits(I64, g[6]) && Fits(I64, g[7]);
    assert Fits(I64, g[8]) && Fits(I64, g[9]) && Fits(I64, g[10]) && Fits(I64, g[11]);
  }

  lemma {:induction false} DefPriceRead(vs: seq<Value>)
    requires |vs| == 66
    requires Fits(U64, vs[5]) && Fits(I64, vs[6]) && Fits(I64, vs[7]) && Fits(U64, vs[8])
    requires Fits(U64, vs[9]) && Fits(I64, vs[10]) && Fits(I64, vs[11]) && Fits(I64, vs[12])
    requires Fits(I64, vs[13]) && Fits(I64, vs[14]) && Fits(I64, vs[15]) && Fits(I64, vs[16])
    ensures DefPriceValues(InstrumentDefFrom(vs)) == vs[5..17]
  {
    ReadU64(vs[5]); ReadI64(vs[6]); ReadI64(vs[7]); ReadU64(vs[8]); ReadU64(vs[9]);
    ReadI64(vs[10]); ReadI64(vs[11]); ReadI64(vs[12]); ReadI64(vs[13]); ReadI64(vs[14]);
    ReadI64(vs[15]); ReadI64(vs[16]);
  }

  /** The quantity run of an instrument definition. */
  lemma {:induction false} DefQuantityReadBack(vs: seq<Value>)
    requires |vs| == 66 && WellTyped(DefQuantities, vs[17..33])
    ensures DefQuantityValues(InstrumentDefFrom(vs)) == vs[17..33]
  {
    DefQuantityFits(vs);
    DefQuantityRead(vs);
  }

  lemma {:induction false} DefQuantityFits(vs: seq<Value>)
    requires |vs| == 66 && WellTyped(DefQuantities, vs[17..33])
    ensures Fits(I32, vs[17]) && Fits(U32, vs[18]) && Fits(I32, vs[19]) && Fits(I32, vs[20])
    ensures Fits(I32, vs[21]) && Fits(U32, vs[22]) && Fits(U32, vs[23]) && Fits(I32, vs[24])
    ensures Fits(I32, vs[25]) && Fits(I32, vs[26]) && Fits(U32, vs[27]) && Fits(I32, vs[28])
    ensures Fits(I32, vs[29]) && Fits(I32, vs[30]) && Fits(I32, vs[31]) && Fits(U32, vs[32])
  {
    var g := vs[17..33];
    assert Fits(I32, g[0]) && Fits(U32, g[1]) && Fits(I32, g[2]) && Fits(I32, g[3]);
    assert Fits(I32, g[4]) && Fits(U32, g[5]) && Fits(U32, g[6]) && Fits(I32, g[7]);
    assert Fits(I32, g[8]) && Fits(I32, g[9]) && Fits(U32, g[10]) && Fits(I32, g[11]);
    assert Fits(I32, g[12]) && Fits(I32, g[13]) && Fits(I32, g[14]) && Fits(U32, g[15]);
  }

  lemma {:induction false} DefQuantityRead(vs: seq<Value>)
    requires |vs| == 66
    requires Fits(I32, vs[17]) && Fits(U32, vs[18]) && Fits(I32, vs[19]) && Fits(I32, vs[20])
    requires Fits(I32, vs[21]) && Fits(U32, vs[22]) && Fits(U32, vs[23]) && Fits(I32, vs[24])
    requires Fits(I32, vs[25]) && Fits(I32, vs[26]) && Fits(U32, vs[27]) && Fits(I32, vs[28])
    requires Fits(I32, vs[29]) && Fits(I32, vs[30]) && Fits(I32, vs[31]) && Fits(U32, vs[32])
    ensures DefQuantityValues(InstrumentDefFrom(vs)) == vs[17..33]
  {
    ReadI32(vs[17]); ReadU32(vs[18]); ReadI32(vs[19]); ReadI32(vs[20]); ReadI32(vs[21]);
    ReadU32(vs[22]); ReadU32(vs[23]); ReadI32(vs[24]); ReadI32(vs[25]); ReadI32(vs[26]);
    ReadU32(vs[27]); ReadI32(vs[28]); ReadI32(vs[29]); ReadI32(vs[30]); ReadI32(vs[31]);
    ReadU32(vs[32]);
  }

  /** The date run of an instrument definition. */
  lemma {:induction false} DefDateReadBack(vs: seq<Value>)
    requires |vs| == 66 && WellTyped(DefDates, vs[33..38])
    ensures DefDateValues(InstrumentDefFrom(vs)) == vs[33..38]
  {
    var g := vs[33..38];
    assert Fits(U16, g[0]) && Fits(I16, g[1]) && Fits(U16, g[2]) && Fits(U16, g[3]);
    assert Fits(U16, g[4]);
    ReadU16(vs[33]); ReadI16(vs[34]); ReadU16(vs[35]); ReadU16(vs[36]); ReadU16(vs[37]);
  }

  /** The code strings of an instrument definition. */
  lemma {:induction false} DefCodeReadBack(vs: seq<Value>)
    requires |vs| == 66 && WellTyped(DefCodes, vs[38..44])
    ensures DefCodeValues(InstrumentDefFrom(vs)) == vs[38..44]
  {
    var g := vs[38..44];
    assert Fits(CharArray(4), g[0]) && Fits(CharArray(4), g[1]) && Fits(CharArray(6), g[2]) && Fits(CharArray(22), g[3]);
    assert Fits(CharArray(21), g[4]) && Fits(CharArray(5), g[5]);
    ReadChars(vs[38], 4); ReadChars(vs[39], 4); ReadChars(vs[40], 6); ReadChars(vs[41], 22); ReadChars(vs[42], 21);
    ReadChars(vs[43], 5);
  }

  /** The name strings of an instrument definition. */
  lemma {:induction false} DefNameReadBack(vs: seq<Value>)
    requires |vs| == 66 && WellTyped(DefNames, vs[44..50])
    ensures DefNameValues(InstrumentDefFrom(vs)) == vs[44..50]
  {
    var g := vs[44..50];
    assert Fits(CharArray(7), g[0]) && Fits(CharArray(7), g[1]) && Fits(CharArray(7), g[2]) && Fits(CharArray(31), g[3]);
    assert Fits(CharArray(21), g[4]) && Fits(CharArray(21), g[5]);
    ReadChars(vs[44], 7); ReadChars(vs[45], 7); ReadChars(vs[46], 7); ReadChars(vs[47], 31); ReadChars(vs[48], 21);
    ReadChars(vs[49], 21);
  }

  /** The flag run of an instrument definition. */
  lemma {:induction false} DefFlagReadBack(vs: seq<Value>)
    requires |vs| == 66 && WellTyped(DefFlags, vs[50..65])
    ensures DefFlagValues(InstrumentDefFrom(vs)) == vs[50..65]
  {
    DefFlagFits(vs);
    DefFlagRead(vs);
  }

  lemma {:induction false} DefFlagFits(vs: seq<Value>)
    requires |vs| == 66 && WellTyped(DefFlags, vs[50..65])
    ensures Fits(U8, vs[50]) && Fits(U8, vs[51]) && Fits(U8, vs[52]) && Fits(U8, vs[53])
    ensures Fits(U8, vs[54]) && Fits(U8, vs[55]) && Fits(U8, vs[56]) && Fits(U8, vs[57])
    ensures Fits(U8, vs[58]) && Fits(U8, vs[59]) && Fits(U8, vs[60]) && Fits(U8, vs[61])
    ensures Fits(I8, vs[62]) && Fits(I8, vs[63]) && Fits(U8, vs[64])
  {
    var g := vs[50..65];
    assert Fits(U8, g[0]) && Fits(U8, g[1]) && Fits(U8, g[2]) && Fits(U8, g[3]);
    assert Fits(U8, g[4]) && Fits(U8, g[5]) && Fits(U8, g[6]) && Fits(U8, g[7]);
    assert Fits(U8, g[8]) && Fits(U8, g[9]) && Fits(U8, g[10]) && Fits(U8, g[11]);
    assert Fits(I8, g[12]) && Fits(I8, g[13]) && Fits(U8, g[14]);
  }

  lemma {:induction false} DefFlagRead(vs: seq<Value>)
    requires |vs| == 66
    requires Fits(U8, vs[50]) && Fits(U8, vs[51]) && Fits(U8, vs[52]) && Fits(U8, vs[53])
    requires Fits(U8, vs[54]) && Fits(U8, vs[55]) && Fits(U8, vs[56]) && Fits(U8, vs[57])
    requires Fits(U8, vs[58]) && Fits(U8, vs[59]) && Fits(U8, vs[60]) && Fits(U8, vs[61])
    requires Fits(I8, vs[62]) && Fits(I8, vs[63]) && Fits(U8, vs[64])
    ensures DefFlagValues(InstrumentDefFrom(vs)) == vs[50..65]
  {
    ReadU8(vs[50]); ReadU8(vs[51]); ReadU8(vs[52]); ReadU8(vs[53]); ReadU8(vs[54]);
    ReadU8(vs[55]); ReadU8(vs[56]); ReadU8(vs[57]); ReadU8(vs[58]); ReadU8(vs[59]);
    ReadU8(vs[60]); ReadU8(vs[61]); ReadI8(vs[62]); ReadI8(vs[63]); ReadU8(vs[64]);
  }

  /** The price run of an imbalance. */
  lemma {:induction false} ImbalancePriceReadBack(vs: seq<Value>)
    requires |vs| == 26 && WellTyped(ImbalancePrices, vs[5..14])
    ensures ImbalancePriceValues(ImbalanceFrom(vs)) == vs[5..14]
  {
    ImbalancePriceFits(vs);
    ImbalancePriceRead(vs);
  }

  lemma {:induction false} ImbalancePriceFits(vs: seq<Value>)
    requires |vs| == 26 && WellTyped(ImbalancePrices, vs[5..14])
    ensures Fits(U64, vs[5]) && Fits(I64, vs[6]) && Fits(U64, vs[7]) && Fits(I64, vs[8])
    ensures Fits(I64, vs[9]) && Fits(I64, vs[10]) && Fits(I64, vs[11]) && Fits(I64, vs[12])
    ensures Fits(I64, vs[13])
  {
    var g := vs[5..14];
    assert Fits(U64, g[0]) && Fits(I64, g[1]) && Fits(U64, g[2]) && Fits(I64, g[3]);
    assert Fits(I64, g[4]) && Fits(I64, g[5]) && Fits(I64, g[6]) && Fits(I64, g[7]);
    assert Fits(I64, g[8]);
  }

  lemma {:induction false} ImbalancePriceRead(vs: seq<Value>)
    requires |vs| == 26
    requires Fits(U64, vs[5]) && Fits(I64, vs[6]) && Fits(U64, vs[7]) && Fits(I64, vs[8])
    requires Fits(I64, vs[9]) && Fits(I64, vs[10]) && Fits(I64, vs[11]) && Fits(I64, vs[12])
    requires Fits(I64, vs[13])
    ensures ImbalancePriceValues(ImbalanceFrom(vs)) == vs[5..14]
  {
    ReadU64(vs[5]); ReadI64(vs[6]); ReadU64(vs[7]); ReadI64(vs[8]); ReadI64(vs[9]);
    ReadI64(vs[10]); ReadI64(vs[11]); ReadI64(vs[12]); ReadI64(vs[13]);
  }

  /** The flag run of an imbalance. */
  lemma {:induction false} ImbalanceFlagReadBack(vs: seq<Value>)
    requires |vs| == 26 && WellTyped(ImbalanceFlags, vs[17..25])
    ensures ImbalanceFlagValues(ImbalanceFrom(vs)) == vs[17..25]
  {
    ImbalanceFlagFits(vs);
    ImbalanceFlagRead(vs);
  }

  lemma {:induction false} ImbalanceFlagFits(vs: seq<Value>)
    requires |vs| == 26 && WellTyped(ImbalanceFlags, vs[17..25])
    ensures Fits(U8, vs[17]) && Fits(U8, vs[18]) && Fits(U8, vs[19]) && Fits(U8, vs[20])
    ensures Fits(U8, vs[21]) && Fits(U8, vs[22]) && Fits(U8, vs[23]) && Fits(U8, vs[24])
  {
    var g := vs[17..25];
    assert Fits(U8, g[0]) && Fits(U8, g[1]) && Fits(U8, g[2]) && Fits(U8, g[3]);
    assert Fits(U8, g[4]) && Fits(U8, g[5]) && Fits(U8, g[6]) && Fits(U8, g[7]);
  }

  lemma {:induction false} ImbalanceFlagRead(vs: seq<Value>)
    requires |vs| == 26
    requires Fits(U8, vs[17]) && Fits(U8, vs[18]) && Fits(U8, vs[19]) && Fits(U8, vs[20])
    requires Fits(U8, vs[21]) && Fits(U8, vs[22]) && Fits(U8, vs[23]) && Fits(U8, vs[24])
    ensures ImbalanceFlagValues(ImbalanceFrom(vs)) == vs[17..25]
  {
    ReadU8(vs[17]); ReadU8(vs[18]); ReadU8(vs[19]); ReadU8(vs[20]); ReadU8(vs[21]);
    ReadU8(vs[22]); ReadU8(vs[23]); ReadU8(vs[24]);
  }

  lemma {:induction false} MboFieldsReadBack(vs: seq<Value>)
    requires |vs| == FieldCount(MboType) && WellTyped(LayoutOf(MboType), vs)
    ensures Values(FromValues(MboType, vs)) == vs
  {
    assert vs[0..15] == vs;
    WellTypedSplit(HeaderLayout, MboBody, vs, 0);
    HeaderReadBack(vs);
    MboReadBack(vs);
    var m := MboFrom(vs);
    assert Values(FromValues(MboType, vs)) == HeaderValues(m.hd) + MboValues(m);
    SliceJoin(vs, 0, 5, 15);
  }

  /** The field groups of a market-by-price message, each well typed. */
  lemma {:induction false} MbpParts(vs: seq<Value>, n: nat)
    requires |vs| == 14 + 6 * n && WellTyped(HeaderLayout + (MbpBody + BookLayout(n)), vs)
    ensures WellTyped(HeaderLayout, vs[0..5]) && WellTyped(MbpBody, vs[5..14])
    ensures WellTyped(BookLayout(n), vs[14..])
  {
    assert vs[0..|vs|] == vs;
    WellTypedSplit(HeaderLayout, MbpBody + BookLayout(n), vs, 0);
    WellTypedSplit(MbpBody, BookLayout(n), vs, 5);
    assert vs[14..] == vs[14..|vs|];
  }

  /** The fields of a market-by-price message with n book levels. */
  lemma {:induction false} MbpFieldsReadBack(vs: seq<Value>, n: nat)
    requires |vs| == 14 + 6 * n && WellTyped(HeaderLayout + (MbpBody + BookLayout(n)), vs)
    ensures HeaderValues(MbpFrom(vs, n).hd) + MbpValues(MbpFrom(vs, n)) == vs
  {
    MbpParts(vs, n);
    MbpGroupsReadBack(vs, n);
  }

  lemma {:induction false} MbpGroupsReadBack(vs: seq<Value>, n: nat)
    requires |vs| == 14 + 6 * n && WellTyped(HeaderLayout, vs[0..5]) && WellTyped(MbpBody, vs[5..14])
    requires WellTyped(BookLayout(n), vs[14..])
    ensures HeaderValues(MbpFrom(vs, n).hd) + MbpValues(MbpFrom(vs, n)) == vs
  {
    HeaderReadBack(vs);
    MbpFixedReadBack(vs, n);
    BookReadBack(vs[14..], n);
    MbpJoin(vs, n);
  }

  /** The header, the fixed fields and the book read back join into the whole message. */
  lemma {:induction false} MbpJoin(vs: seq<Value>, n: nat)
    requires |vs| == 14 + 6 * n && HeaderValues(HeaderFrom(vs)) == vs[0..5]
    requires MbpFixedValues(MbpFrom(vs, n)) == vs[5..14]
    requires BookValues(BookFrom(vs[14..], n)) == vs[14..]
    ensures HeaderValues(MbpFrom(vs, n).hd) + MbpValues(MbpFrom(vs, n)) == vs
  {
    assert vs[5..14] + vs[14..] == vs[5..];
    assert vs[0..5] + vs[5..] == vs;
  }

  lemma {:induction false} TradeFieldsReadBack(vs: seq<Value>)
    requires |vs| == FieldCount(TradeType) && WellTyped(LayoutOf(TradeType), vs)
    ensures Values(FromValues(TradeType, vs)) == vs
  {
    assert LayoutOf(TradeType) == HeaderLayout + (MbpBody + BookLayout(0));
    MbpFieldsReadBack(vs, 0);
  }

  lemma {:induction false} Mbp1FieldsReadBack(vs: seq<Value>)
    requires |vs| == FieldCount(Mbp1Type) && WellTyped(LayoutOf(Mbp1Type), vs)
    ensures Values(FromValues(Mbp1Type, vs)) == vs
  {
    assert LayoutOf(Mbp1Type) == HeaderLayout + (MbpBody + BookLayout(1));
    MbpFieldsReadBack(vs, 1);
  }

  lemma {:induction false} Mbp10FieldsReadBack(vs: seq<Value>)
    requires |vs| == FieldCount(Mbp10Type) && WellTyped(LayoutOf(Mbp10Type), vs)
    ensures Values(FromValues(Mbp10Type, vs)) == vs
  {
    assert LayoutOf(Mbp10Type) == HeaderLayout + (MbpBody + BookLayout(10));
    MbpFieldsReadBack(vs, 10);
  }

  lemma {:induction false} OhlcvFieldsReadBack(vs: seq<Value>)
    requires |vs| == FieldCount(OhlcvType) && WellTyped(LayoutOf(OhlcvType), vs)
    ensures Values(FromValues(OhlcvType, vs)) == vs
  {
    assert vs[0..10] == vs;
    WellTypedSplit(HeaderLayout, OhlcvBody, vs, 0);
    HeaderReadBack(vs);
    OhlcvReadBack(vs);
    var m := OhlcvFrom(vs);
    assert Values(FromValues(OhlcvType, vs)) == HeaderValues(m.hd) + OhlcvValues(m);
    SliceJoin(vs, 0, 5, 10);
  }

  lemma {:induction false} StatusFieldsReadBack(vs: seq<Value>)
    requires |vs| == FieldCount(StatusType) && WellTyped(LayoutOf(StatusType), vs)
    ensures Values(FromValues(StatusType, vs)) == vs
  {
    assert vs[0..10] == vs;
    WellTypedSplit(HeaderLayout, StatusBody, vs, 0);
    HeaderReadBack(vs);
    StatusReadBack(vs);
    var m := StatusFrom(vs);
    assert Values(FromValues(StatusType, vs)) == HeaderValues(m.hd) + StatusValues(m);
    SliceJoin(vs, 0, 5, 10);
  }

  /** The field groups of an instrument definition, each well typed. */
  lemma {:induction false} InstrumentDefParts(vs: seq<Value>)
    requires |vs| == FieldCount(InstrumentDefType) && WellTyped(LayoutOf(InstrumentDefType), vs)
    ensures WellTyped(HeaderLayout, vs[0..5]) && WellTyped(DefPrices + DefQuantities + DefDates, vs[5..38])
    ensures WellTyped(DefCodes, vs[38..44]) && WellTyped(DefNames, vs[44..50])
    ensures WellTyped(DefFlags, vs[50..65]) && Fits(CharArray(3), vs[65])
  {
    assert vs[0..66] == vs;
    WellTypedSplit(HeaderLayout, InstrumentDefBody, vs, 0);
    var p, q, d, c, n, f := DefPrices, DefQuantities, DefDates, DefCodes, DefNames, DefFlags;
    WellTypedSplit(p + q + d + c + n + f, DefPadding, vs, 5);
    assert vs[65..66][0] == vs[65];
    WellTypedSplit(p + q + d + c + n, f, vs, 5);
    WellTypedSplit(p + q + d + c, n, vs, 5);
    WellTypedSplit(p + q + d, c, vs, 5);
  }

  lemma {:induction false} DefEarlyParts(vs: seq<Value>)
    requires |vs| == 66 && WellTyped(DefPrices + DefQuantities + DefDates, vs[5..38])
    ensures WellTyped(DefPrices, vs[5..17]) && WellTyped(DefQuantities, vs[17..33])
    ensures WellTyped(DefDates, vs[33..38])
  {
    WellTypedSplit(DefPrices + DefQuantities, DefDates, vs, 5);
    WellTypedSplit(DefPrices, DefQuantities, vs, 5);
  }

  /** The groups read back join into the whole body. */
  lemma {:induction false} InstrumentDefJoin(vs: seq<Value>, m: InstrumentDefMsg)
    requires |vs| == 66
    requires DefPriceValues(m) == vs[5..17] && DefQuantityValues(m) == vs[17..33]
    requires DefDateValues(m) == vs[33..38] && DefCodeValues(m) == vs[38..44]
    requires DefNameValues(m) == vs[44..50] && DefFlagValues(m) == vs[50..65]
    requires Chars(m.dummy) == vs[65]
    ensures InstrumentDefValues(m) == vs[5..66]
  {
    assert [Chars(m.dummy)] == vs[65..66];
    SliceJoin(vs, 5, 17, 33);
    SliceJoin(vs, 5, 33, 38);
    SliceJoin(vs, 5, 38, 44);
    SliceJoin(vs, 5, 44, 50);
    SliceJoin(vs, 5, 50, 65);
    SliceJoin(vs, 5, 65, 66);
  }

  /** An instrument definition read back from its well-typed field groups. */
  lemma {:induction false} InstrumentDefGroupsReadBack(vs: seq<Value>)
    requires |vs| == 66 && WellTyped(HeaderLayout, vs[0..5])
    requires WellTyped(DefPrices, vs[5..17]) && WellTyped(DefQuantities, vs[17..33])
    requires WellTyped(DefDates, vs[33..38]) && WellTyped(DefCodes, vs[38..44])
    requires WellTyped(DefNames, vs[44..50]) && WellTyped(DefFlags, vs[50..65])
    requires Fits(CharArray(3), vs[65])
    ensures Values(FromValues(InstrumentDefType, vs)) == vs
  {
    HeaderReadBack(vs);
    DefPriceReadBack(vs);
    DefQuantityReadBack(vs);
    DefDateReadBack(vs);
    DefCodeReadBack(vs);
    DefNameReadBack(vs);
    DefFlagReadBack(vs);
    ReadChars(vs[65], 3);
    var m := InstrumentDefFrom(vs);
    InstrumentDefJoin(vs, m);
    assert Values(FromValues(InstrumentDefType, vs)) == HeaderValues(m.hd) + InstrumentDefValues(m);
    SliceJoin(vs, 0, 5, 66);
  }

  lemma {:induction false} InstrumentDefFieldsReadBack(vs: seq<Value>)
    requires |vs| == FieldCount(InstrumentDefType) && WellTyped(LayoutOf(InstrumentDefType), vs)
    ensures Values(FromValues(InstrumentDefType, vs)) == vs
  {
    InstrumentDefParts(vs);
    DefEarlyParts(vs);
    InstrumentDefGroupsReadBack(vs);
  }

  /** The field groups of an imbalance message, each well typed. */
  lemma {:induction false} ImbalanceParts(vs: seq<Value>)
    requires |vs| == FieldCount(ImbalanceType) && WellTyped(LayoutOf(ImbalanceType), vs)
    ensures WellTyped(HeaderLayout, vs[0..5]) && WellTyped(ImbalancePrices, vs[5..14])
    ensures Fits(U32, vs[14]) && Fits(U32, vs[15]) && Fits(U32, vs[16])
    ensures WellTyped(ImbalanceFlags, vs[17..25]) && Fits(CharArray(4), vs[25])
  {
    assert vs[0..26] == vs;
    WellTypedSplit(HeaderLayout, ImbalanceBody, vs, 0);
    var p, q, f := ImbalancePrices, ImbalanceQuantities, ImbalanceFlags;
    WellTypedSplit(p + q + f, ImbalancePadding, vs, 5);
    assert vs[25..26][0] == vs[25];
    WellTypedSplit(p + q, f, vs, 5);
    WellTypedSplit(p, q, vs, 5);
    var g := vs[14..17];
    assert g[0] == vs[14] && g[1] == vs[15] && g[2] == vs[16];
  }

  /** The groups read back join into the whole body. */
  lemma {:induction false} ImbalanceJoin(vs: seq<Value>, m: Imbalance)
    requires |vs| == 26
    requires ImbalancePriceValues(m) == vs[5..14] && ImbalanceFlagValues(m) == vs[17..25]
    requires Num(m.pairedQty) == vs[14] && Num(m.totalImbalanceQty) == vs[15]
    requires Num(m.marketImbalanceQty) == vs[16] && Chars(m.dummy) == vs[25]
    ensures ImbalanceValues(m) == vs[5..26]
  {
    assert [Num(m.pairedQty), Num(m.totalImbalanceQty), Num(m.marketImbalanceQty)] == vs[14..17];
    assert [Chars(m.dummy)] == vs[25..26];
    SliceJoin(vs, 5, 14, 17);
    SliceJoin(vs, 5, 17, 25);
    SliceJoin(vs, 5, 25, 26);
  }

  /** An imbalance message read back from its well-typed field groups. */
  lemma {:induction false} ImbalanceGroupsReadBack(vs: seq<Value>)
    requires |vs| == 26 && WellTyped(HeaderLayout, vs[0..5]) && WellTyped(ImbalancePrices, vs[5..14])
    requires Fits(U32, vs[14]) && Fits(U32, vs[15]) && Fits(U32, vs[16])
    requires WellTyped(ImbalanceFlags, vs[17..25]) && Fits(CharArray(4), vs[25])
    ensures Values(FromValues(ImbalanceType, vs)) == vs
  {
    HeaderReadBack(vs);
    ImbalancePriceReadBack(vs);
    ImbalanceFlagReadBack(vs);
    ReadU32(vs[14]);
    ReadU32(vs[15]);
    ReadU32(vs[16]);
    ReadChars(vs[25], 4);
    var m := ImbalanceFrom(vs);
    ImbalanceJoin(vs, m);
    assert Values(FromValues(ImbalanceType, vs)) == HeaderValues(m.hd) + ImbalanceValues(m);
    SliceJoin(vs, 0, 5, 26);
  }

  lemma {:induction false} ImbalanceFieldsReadBack(vs: seq<Value>)
    requires |vs| == FieldCount(ImbalanceType) && WellTyped(LayoutOf(ImbalanceType), vs)
    ensures Values(FromValues(ImbalanceType, vs)) == vs
  {
    ImbalanceParts(vs);
    ImbalanceGroupsReadBack(vs);
  }

  lemma {:induction false} GatewayErrorFieldsReadBack(vs: seq<Value>)
    requires |vs| == FieldCount(GatewayErrorType) && WellTyped(LayoutOf(GatewayErrorType), vs)
    ensures Values(FromValues(GatewayErrorType, vs)) == vs
  {
    assert vs[0..6] == vs;
    WellTypedSplit(HeaderLayout, GatewayErrorBody, vs, 0);
    HeaderReadBack(vs);
    assert Fits(CharArray(64), vs[5..6][0]);
    ReadChars(vs[5], 64);
    var m := GatewayErrorMsg(HeaderFrom(vs), AsChars(vs[5], 64));
    assert Values(FromValues(GatewayErrorType, vs)) == HeaderValues(m.hd) + [Chars(m.err)];
    assert [Chars(m.err)] == vs[5..6];
    SliceJoin(vs, 0, 5, 6);
  }

  lemma {:induction false} SymbolMappingFieldsReadBack(vs: seq<Value>)
    requires |vs| == FieldCount(SymbolMappingType) && WellTyped(LayoutOf(SymbolMappingType), vs)
    ensures Values(FromValues(SymbolMappingType, vs)) == vs
  {
    assert vs[0..10] == vs;
    WellTypedSplit(HeaderLayout, SymbolMappingBody, vs, 0);
    HeaderReadBack(vs);
    SymbolMappingReadBack(vs);
    var m := SymbolMappingFrom(vs);
    assert Values(FromValues(SymbolMappingType, vs)) == HeaderValues(m.hd) + SymbolMappingValues(m);
    SliceJoin(vs, 0, 5, 10);
  }

  /** Values that fit struct t's layout are the fields of the record
      rebuilt from them: rebuilding loses and invents nothing. */
  lemma {:induction false} ValuesOfFromValues(t: RecordType, vs: seq<Value>)
    requires |vs| == FieldCount(t) && WellTyped(LayoutOf(t), vs)
    ensures Values(FromValues(t, vs)) == vs
  {
    match t
    case MboType => MboFieldsReadBack(vs);
    case TradeType => TradeFieldsReadBack(vs);
    case Mbp1Type => Mbp1FieldsReadBack(vs);
    case Mbp10Type => Mbp10FieldsReadBack(vs);
    case OhlcvType => OhlcvFieldsReadBack(vs);
    case StatusType => StatusFieldsReadBack(vs);
    case InstrumentDefType => InstrumentDefFieldsReadBack(vs);
    case ImbalanceType => ImbalanceFieldsReadBack(vs);
    case GatewayErrorType => GatewayErrorFieldsReadBack(vs);
    case SymbolMappingType => SymbolMappingFieldsReadBack(vs);
  }

  // ---------------------------------------------------------- bytes of a record

  /** The record's bytes as they lie in memory: `size_of::<T>()` bytes. */
  function Encode(r: Record): (b: seq<Byte>)
    ensures |b| == SizeOf(TypeOf(r))
  {
    LayoutSize(TypeOf(r));
    ValuesRoundTrip(r);
    EncodeFields(LayoutOf(TypeOf(r)), Values(r))
  }

  /** The struct t stored at the start of b, each field read at its offset.
      Only the first `size_of::<T>()` bytes are read. */
  function Decode(t: RecordType, b: seq<Byte>): (r: Record)
    requires |b| >= SizeOf(t)
    ensures TypeOf(r) == t
  {
    LayoutSize(t);
    FieldCountIsLength(t);
    FromValuesType(t, DecodeFields(LayoutOf(t), b));
    FromValues(t, DecodeFields(LayoutOf(t), b))
  }

  /** Round trip: decoding a record's bytes as its own struct gives the record back. */
  lemma {:induction false} DecodeEncode(r: Record)
    ensures Decode(TypeOf(r), Encode(r)) == r
  {
    var t := TypeOf(r);
    LayoutSize(t);
    ValuesRoundTrip(r);
    DecodeEncodeFields(LayoutOf(t), Values(r));
  }

  /** The fields of the record decoded from b are the values read at the
      struct's offsets: decoding keeps every field as read. */
  lemma {:induction false} ValuesOfDecode(t: RecordType, b: seq<Byte>)
    requires |b| >= SizeOf(t)
    ensures Size(LayoutOf(t)) == SizeOf(t)
    ensures Values(Decode(t, b)) == DecodeFields(LayoutOf(t), b)
  {
    LayoutSize(t);
    FieldCountIsLength(t);
    DecodeFieldsWellTyped(LayoutOf(t), b);
    ValuesOfFromValues(t, DecodeFields(LayoutOf(t), b));
  }

  /** Round trip the other way: the bytes of the record decoded from b are
      b's first `size_of::<T>()` bytes, so decoding loses nothing. */
  lemma {:induction false} EncodeDecode(t: RecordType, b: seq<Byte>)
    requires |b| >= SizeOf(t)
    ensures Encode(Decode(t, b)) == b[..SizeOf(t)]
  {
    ValuesOfDecode(t, b);
    EncodeOfFields(Decode(t, b), b);
  }

  /** A record whose fields are those read from b has b's leading bytes as its encoding. */
  lemma {:induction false} EncodeOfFields(r: Record, b: seq<Byte>)
    requires |b| >= SizeOf(TypeOf(r)) && Size(LayoutOf(TypeOf(r))) == SizeOf(TypeOf(r))
    requires Values(r) == DecodeFields(LayoutOf(TypeOf(r)), b)
    ensures Encode(r) == b[..SizeOf(TypeOf(r))]
  {
    var n, l := SizeOf(TypeOf(r)), LayoutOf(TypeOf(r));
    assert Encode(r) == EncodeFields(l, DecodeFields(l, b));
    DecodeFieldsPrefix(l, b, b[..n]);
    EncodeDecodeFields(l, b[..n]);
  }

  /** Decoding reads only the struct's own bytes: what follows them does not matter. */
  lemma {:induction false} DecodePrefix(t: RecordType, b: seq<Byte>, c: seq<Byte>)
    requires |b| >= SizeOf(t) && |c| >= SizeOf(t)
    requires b[..SizeOf(t)] == c[..SizeOf(t)]
    ensures Decode(t, b) == Decode(t, c)
  {
    LayoutSize(t);
    DecodeFieldsPrefix(LayoutOf(t), b, c);
  }

  /** The header of the struct t stored at the start of b is the header
      stored in b's first 16 bytes, whatever t is. */
  lemma {:induction false} HeaderOfDecode(t: RecordType, b: seq<Byte>)
    requires |b| >= SizeOf(t)
    ensures |b| >= HeaderSize
    ensures HeaderOf(Decode(t, b)) == DecodeHeader(b)
  {
    LayoutSize(t);
    BodySize(t);
    HeaderOffsets();
    var vs := DecodeFields(LayoutOf(t), b);
    var hs := DecodeFields(HeaderLayout, b);
    FieldCountIsLength(t);
    FromValuesHeader(t, vs);
    forall i | 0 <= i < 5
      ensures vs[i] == hs[i]
    {
      DecodeFieldsAt(LayoutOf(t), b, i);
      DecodeFieldsAt(HeaderLayout, b, i);
      FieldAtPrefix(HeaderLayout, BodyLayout(t), b, i);
    }
  }

  /** A record's first 16 bytes are its header's bytes: its `length` is byte 0
      and its `rtype` byte 1. */
  lemma {:induction false} EncodedHeader(r: Record)
    ensures |Encode(r)| >= HeaderSize
    ensures DecodeHeader(Encode(r)) == HeaderOf(r)
    ensures Encode(r)[0] == HeaderOf(r).length && Encode(r)[1] == HeaderOf(r).rtype
  {
    HeaderOfDecode(TypeOf(r), Encode(r));
    DecodeEncode(r);
  }
}
