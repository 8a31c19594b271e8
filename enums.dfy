/** The enumerations carried by records and requests: the market side and
    tick action stored as a `c_char`, and the symbology types, schemas,
    encodings and compressions, each with its explicit discriminant, the
    conversion back from a discriminant (`TryFromPrimitive`) and, where
    there is one, its name (`as_str`). */
module Enums {
  import opened Bytes
  import opened Wrappers

  // ------------------------------------------------------------------- Side

  /** A side of the market. */
  datatype Side = Ask | Bid

  /** `From<Side> for c_char`: an upper-case ASCII letter. */
  function SideChar(side: Side): (c: CChar)
    ensures 'A' as int <= c <= 'Z' as int
  {
    match side
    case Ask => 'A' as int
    case Bid => 'B' as int
  }

  /** Ask is 'A', Bid is 'B', and no two sides share a char. */
  lemma {:induction false} SideCharInjective(a: Side, b: Side)
    ensures SideChar(Ask) == 'A' as int && SideChar(Bid) == 'B' as int
    ensures SideChar(a) == SideChar(b) ==> a == b
  {
  }

  // ----------------------------------------------------------------- Action

  /** A tick action. */
  datatype Action = Modify | Trade | Cancel | Add | Status | Update

  /** `From<Action> for c_char`: an upper-case ASCII letter. */
  function ActionChar(action: Action): (c: CChar)
    ensures 'A' as int <= c <= 'Z' as int
  {
    match action
    case Modify => 'M' as int
    case Trade => 'T' as int
    case Cancel => 'C' as int
    case Add => 'A' as int
    case Status => 'S' as int
    case Update => 'U' as int
  }

  /** The six actions are stored as six distinct chars. */
  lemma {:induction false} ActionCharInjective(a: Action, b: Action)
    ensures ActionChar(a) in {'M' as int, 'T' as int, 'C' as int, 'A' as int, 'S' as int, 'U' as int}
    ensures ActionChar(a) == ActionChar(b) ==> a == b
  {
  }

  // ------------------------------------------------------------------ SType

  /** A symbology type. */
  datatype SType = ProductId | Native | Smart

  /** The `repr(u8)` discriminant. */
  function STypeValue(s: SType): (d: UInt8)
  {
    match s
    case ProductId => 0
    case Native => 1
    case Smart => 2
  }

  /** `SType::try_from(u8)`: the symbology type with discriminant d, if any.
      It succeeds exactly on the discriminants 0 to 2. */
  function STypeFrom(d: UInt8): (s: Option<SType>)
    ensures s.Some? <==> d <= 2
    ensures s.Some? ==> STypeValue(s.value) == d
  {
    match d
    case 0 => Some(ProductId)
    case 1 => Some(Native)
    case 2 => Some(Smart)
    case _ => None
  }

  /** Converting a symbology type's discriminant back gives the type. */
  lemma {:induction false} STypeFromValue(s: SType)
    ensures STypeFrom(STypeValue(s)) == Some(s)
  {
  }

  /** A character of an `as_str` name: a lower-case ASCII letter, a digit,
      `-` or `_`. */
  predicate NameChar(c: char)
  {
    'a' <= c <= 'z' || '0' <= c <= '9' || c == '-' || c == '_'
  }

  /** `SType::as_str`: a non-empty name of lower-case letters, digits, `-` and `_`. */
  function STypeName(s: SType): (name: string)
    ensures |name| > 0 && forall i :: 0 <= i < |name| ==> NameChar(name[i])
  {
    match s
    case Native => "native"
    case Smart => "smart"
    case ProductId => "product_id"
  }

  /** No two symbology types share a name. */
  lemma {:induction false} STypeNameInjective(a: SType, b: SType)
    ensures STypeName(a) == STypeName(b) ==> a == b
  {
    if a != b {
      assert STypeName(a)[0] != STypeName(b)[0];
    }
  }

  // ----------------------------------------------------------------- Schema

  /** A data record schema. */
  datatype Schema =
    | Mbo
    | Mbp1
    | Mbp10
    | Tbbo
    | Trades
    | Ohlcv1s
    | Ohlcv1m
    | Ohlcv1h
    | Ohlcv1d
    | Definition
    | Statistics
    | Status

  /** The `repr(u16)` discriminant. */
  function SchemaValue(s: Schema): (d: UInt16)
  {
    match s
    case Mbo => 0
    case Mbp1 => 1
    case Mbp10 => 2
    case Tbbo => 3
    case Trades => 4
    case Ohlcv1s => 5
    case Ohlcv1m => 6
    case Ohlcv1h => 7
    case Ohlcv1d => 8
    case Definition => 9
    case Statistics => 10
    case Status => 11
  }

  /** `Schema::try_from(u16)`: the schema with discriminant d, if any.
      It succeeds exactly on the discriminants 0 to 11. */
  function SchemaFrom(d: UInt16): (s: Option<Schema>)
    ensures s.Some? <==> d <= 11
    ensures s.Some? ==> SchemaValue(s.value) == d
  {
    match d
    case 0 => Some(Mbo)
    case 1 => Some(Mbp1)
    case 2 => Some(Mbp10)
    case 3 => Some(Tbbo)
    case 4 => Some(Trades)
    case 5 => Some(Ohlcv1s)
    case 6 => Some(Ohlcv1m)
    case 7 => Some(Ohlcv1h)
    case 8 => Some(Ohlcv1d)
    case 9 => Some(Definition)
    case 10 => Some(Statistics)
    case 11 => Some(Schema.Status)
    case _ => None
  }

  /** Converting a schema's discriminant back gives the schema. */
  lemma {:induction false} SchemaFromValue(s: Schema)
    ensures SchemaFrom(SchemaValue(s)) == Some(s)
  {
  }

  /** The schemas in declaration order. */
  const Schemas: seq<Schema> :=
    [Mbo, Mbp1, Mbp10, Tbbo, Trades, Ohlcv1s, Ohlcv1m, Ohlcv1h, Ohlcv1d, Definition, Statistics, Schema.Status]

  /** The discriminants are 0 to 11 in declaration order, with no gap, and
      every schema is listed once. */
  lemma {:induction false} SchemaValuesContiguous(s: Schema)
    ensures |Schemas| == 12
    ensures forall i :: 0 <= i < |Schemas| ==> SchemaValue(Schemas[i]) == i
    ensures Schemas[SchemaValue(s)] == s
  {
  }

  /** `Schema::as_str`: a non-empty name of lower-case letters, digits, `-` and `_`. */
  function SchemaName(s: Schema): (name: string)
    ensures |name| > 0 && forall i :: 0 <= i < |name| ==> NameChar(name[i])
  {
    match s
    case Mbo => "mbo"
    case Mbp1 => "mbp-1"
    case Mbp10 => "mbp-10"
    case Tbbo => "tbbo"
    case Trades => "trades"
    case Ohlcv1s => "ohlcv-1s"
    case Ohlcv1m => "ohlcv-1m"
    case Ohlcv1h => "ohlcv-1h"
    case Ohlcv1d => "ohlcv-1d"
    case Definition => "definition"
    case Statistics => "statistics"
    case Status => "status"
  }

  /** No two schemas share a name. */
  lemma {:induction false} SchemaNameInjective(a: Schema, b: Schema)
    ensures SchemaName(a) == SchemaName(b) ==> a == b
  {
    if a != b && |SchemaName(a)| == |SchemaName(b)| {
      var i := DifferingPosition(a, b);
      assert SchemaName(a)[i] != SchemaName(b)[i];
    }
  }

  /** A position at which the names of two distinct schemas of one length differ. */
  function DifferingPosition(a: Schema, b: Schema): (i: nat)
    requires a != b && |SchemaName(a)| == |SchemaName(b)|
    ensures i < |SchemaName(a)| && SchemaName(a)[i] != SchemaName(b)[i]
  {
    if SchemaName(a)[0] != SchemaName(b)[0] then 0 else 7
  }

  // --------------------------------------------------------------- Encoding

  /** A data encoding format. */
  datatype Encoding = Dbz | Csv | Json

  /** The `repr(u8)` discriminant. */
  function EncodingValue(e: Encoding): (d: UInt8)
  {
    match e
    case Dbz => 0
    case Csv => 1
    case Json => 2
  }

  /** `Encoding::try_from(u8)`: the encoding with discriminant d, if any.
      It succeeds exactly on the discriminants 0 to 2. */
  function EncodingFrom(d: UInt8): (e: Option<Encoding>)
    ensures e.Some? <==> d <= 2
    ensures e.Some? ==> EncodingValue(e.value) == d
  {
    match d
    case 0 => Some(Dbz)
    case 1 => Some(Csv)
    case 2 => Some(Json)
    case _ => None
  }

  /** Converting an encoding's discriminant back gives the encoding. */
  lemma {:induction false} EncodingFromValue(e: Encoding)
    ensures EncodingFrom(EncodingValue(e)) == Some(e)
  {
  }

  /** `Encoding::as_str`: a non-empty name of lower-case letters, digits, `-` and `_`. */
  function EncodingName(e: Encoding): (name: string)
    ensures |name| > 0 && forall i :: 0 <= i < |name| ==> NameChar(name[i])
  {
    match e
    case Dbz => "dbz"
    case Csv => "csv"
    case Json => "json"
  }

  /** No two encodings share a name. */
  lemma {:induction false} EncodingNameInjective(a: Encoding, b: Encoding)
    ensures EncodingName(a) == EncodingName(b) ==> a == b
  {
    if a != b {
      assert EncodingName(a)[0] != EncodingName(b)[0];
    }
  }

  // ------------------------------------------------------------ Compression

  /** A compression format, or none. */
  datatype Compression = NoCompression | ZStd

  /** The `repr(u8)` discriminant. */
  function CompressionValue(c: Compression): (d: UInt8)
  {
    match c
    case NoCompression => 0
    case ZStd => 1
  }

  /** `Compression::try_from(u8)`: the compression with discriminant d, if any.
      It succeeds exactly on the discriminants 0 and 1. */
  function CompressionFrom(d: UInt8): (c: Option<Compression>)
    ensures c.Some? <==> d <= 1
    ensures c.Some? ==> CompressionValue(c.value) == d
  {
    match d
    case 0 => Some(NoCompression)
    case 1 => Some(ZStd)
    case _ => None
  }

  /** Converting a compression's discriminant back gives the compression. */
  lemma {:induction false} CompressionFromValue(c: Compression)
    ensures CompressionFrom(CompressionValue(c)) == Some(c)
  {
  }
}
