/** The byte layout of a `repr(C)` struct whose fields follow one another
    with no implicit padding (every record struct of the catalog is laid out
    so: where the C rules would pad, the struct declares an explicit filler
    array). A layout is the sequence of its fields' kinds; a field's offset is
    the sum of the widths of the fields before it. Encoding writes the fields
    one after the other; decoding reads each field at its offset. */
module Layout {
  import opened Bytes

  /** How a field's bytes are read: an unsigned integer, a two's-complement
      signed integer, or an array of `c_char`. */
  datatype Form = Unsigned | Signed | Text

  /** The type of one field: its form and the number of bytes it occupies. */
  datatype FieldType = FieldType(form: Form, width: nat)

  /** A field type the codec can read: a signed integer has at least one byte,
      the one holding its sign bit. */
  type Kind = t: FieldType | t.form != Signed || t.width > 0 witness FieldType(Unsigned, 0)

  const U8: Kind := FieldType(Unsigned, 1)
  const U16: Kind := FieldType(Unsigned, 2)
  const U32: Kind := FieldType(Unsigned, 4)
  const U64: Kind := FieldType(Unsigned, 8)
  const I8: Kind := FieldType(Signed, 1)
  const I16: Kind := FieldType(Signed, 2)
  const I32: Kind := FieldType(Signed, 4)
  const I64: Kind := FieldType(Signed, 8)

  /** `[c_char; n]`. */
  function CharArray(n: nat): (k: Kind)
    ensures k.form == Text && k.width == n
  {
    FieldType(Text, n)
  }

  /** The value of one field. */
  datatype Value = Num(n: int) | Chars(chars: seq<Byte>)

  /** v is a value a field of kind k can hold: an integer in the range of
      k.width bytes (unsigned, or two's complement for the signed kinds), or
      exactly k.width characters. */
  predicate Fits(k: Kind, v: Value)
  {
    match k.form
    case Text => v.Chars? && |v.chars| == k.width
    case Signed => v.Num? && -SignedLimit(k.width) <= v.n < SignedLimit(k.width)
    case Unsigned => v.Num? && 0 <= v.n < Pow256(k.width)
  }

  /** The ranges of Fits, written out for the integer kinds of the record structs. */
  lemma {:induction false} FitsRange(v: Value)
    ensures Fits(U8, v) <==> v.Num? && 0 <= v.n < 0x100
    ensures Fits(U16, v) <==> v.Num? && 0 <= v.n < 0x1_0000
    ensures Fits(U32, v) <==> v.Num? && 0 <= v.n < 0x1_0000_0000
    ensures Fits(U64, v) <==> v.Num? && 0 <= v.n < 0x1_0000_0000_0000_0000
    ensures Fits(I8, v) <==> v.Num? && -0x80 <= v.n < 0x80
    ensures Fits(I16, v) <==> v.Num? && -0x8000 <= v.n < 0x8000
    ensures Fits(I32, v) <==> v.Num? && -0x8000_0000 <= v.n < 0x8000_0000
    ensures Fits(I64, v) <==> v.Num? && -0x8000_0000_0000_0000 <= v.n < 0x8000_0000_0000_0000
  {
    assert Pow256(1) == 0x100;
    assert Pow256(2) == 0x1_0000;
    assert Pow256(4) == 0x1_0000_0000;
    assert Pow256(8) == 0x1_0000_0000_0000_0000 by {
      assert Pow256(3) == 0x100_0000;
      assert Pow256(6) == 0x1_0000_0000_0000 by {
        assert Pow256(5) == 0x100_0000_0000;
      }
      assert Pow256(7) == 0x100_0000_0000_0000;
    }
  }

  /** The bytes of one field. */
  function EncodeValue(k: Kind, v: Value): (b: seq<Byte>)
    requires Fits(k, v)
    ensures |b| == k.width
  {
    match k.form
    case Text => v.chars
    case Signed => EncodeLE(ToTwos(v.n, k.width), k.width)
    case Unsigned => EncodeLE(v.n, k.width)
  }

  /** The field of kind k stored in the bytes b. */
  function DecodeValue(k: Kind, b: seq<Byte>): (v: Value)
    requires |b| == k.width
    ensures Fits(k, v)
  {
    match k.form
    case Text => Chars(b)
    case Signed => Num(FromTwos(DecodeLE(b), k.width))
    case Unsigned => Num(DecodeLE(b))
  }

  lemma {:induction false} DecodeEncodeValue(k: Kind, v: Value)
    requires Fits(k, v)
    ensures DecodeValue(k, EncodeValue(k, v)) == v
  {
    match k.form
    case Text =>
    case Signed => DecodeEncodeLE(ToTwos(v.n, k.width), k.width);
    case Unsigned => DecodeEncodeLE(v.n, k.width);
  }

  lemma {:induction false} EncodeDecodeValue(k: Kind, b: seq<Byte>)
    requires |b| == k.width
    ensures EncodeValue(k, DecodeValue(k, b)) == b
  {
    if k.form != Text {
      EncodeDecodeLE(b);
    }
  }

  /** The size of a struct with the given layout: the sum of its fields' widths. */
  function Size(layout: seq<Kind>): (n: nat)
  {
    if |layout| == 0 then 0 else layout[0].width + Size(layout[1..])
  }

  /** The offset of field i: the sum of the widths of the fields before it. */
  function Offset(layout: seq<Kind>, i: nat): (off: nat)
    requires i <= |layout|
  {
    if i == 0 then 0 else layout[0].width + Offset(layout[1..], i - 1)
  }

  /** Every field ends within the struct. */
  lemma {:induction false} FieldInBounds(layout: seq<Kind>, i: nat)
    requires i < |layout|
    ensures Offset(layout, i) + layout[i].width <= Size(layout)
  {
    if i > 0 {
      FieldInBounds(layout[1..], i - 1);
    }
  }

  /** The struct ends where its last field ends. */
  lemma {:induction false} SizeIsEndOfLastField(layout: seq<Kind>)
    requires |layout| > 0
    ensures Size(layout) == Offset(layout, |layout| - 1) + layout[|layout| - 1].width
  {
    if |layout| > 1 {
      SizeIsEndOfLastField(layout[1..]);
    }
  }

  /** The size of two layouts placed one after the other. */
  lemma {:induction false} SizeAppend(a: seq<Kind>, b: seq<Kind>)
    ensures Size(a + b) == Size(a) + Size(b)
  {
    if |a| > 0 {
      assert (a + b)[1..] == a[1..] + b;
      SizeAppend(a[1..], b);
    } else {
      assert a + b == b;
    }
  }

  /** A layout whose fields all have width w occupies w bytes per field. */
  lemma {:induction false} SizeUniform(layout: seq<Kind>, w: nat)
    requires forall i :: 0 <= i < |layout| ==> layout[i].width == w
    ensures Size(layout) == |layout| * w
  {
    if |layout| > 0 {
      SizeUniform(layout[1..], w);
    }
  }

  /** Appending fields does not move the fields already there. */
  lemma {:induction false} OffsetAppend(a: seq<Kind>, b: seq<Kind>, i: nat)
    requires i <= |a|
    ensures Offset(a + b, i) == Offset(a, i)
  {
    if i > 0 {
      assert (a + b)[1..] == a[1..] + b;
      OffsetAppend(a[1..], b, i - 1);
    }
  }

  /** A field of the leading part a of a layout a + b is read from the same
      bytes as when a is the whole layout. */
  lemma {:induction false} FieldAtPrefix(a: seq<Kind>, c: seq<Kind>, b: seq<Byte>, i: nat)
    requires Size(a + c) <= |b| && i < |a|
    ensures Size(a) <= |b|
    ensures FieldAt(a + c, b, i) == FieldAt(a, b, i)
  {
    SizeAppend(a, c);
    OffsetAppend(a, c, i);
    assert (a + c)[i] == a[i];
  }

  /** The sum of the widths of the first n fields, added up from the last of
      them: equal to Offset (see EndIsOffset), and in this form the verifier
      can evaluate it on a layout written out field by field. */
  function EndOf(layout: seq<Kind>, n: nat): (end: nat)
    requires n <= |layout|
  {
    if n == 0 then 0 else EndOf(layout, n - 1) + layout[n - 1].width
  }

  lemma {:induction false} EndIsOffset(layout: seq<Kind>, n: nat)
    requires n <= |layout|
    ensures EndOf(layout, n) == Offset(layout, n)
  {
    if n > 0 {
      EndIsOffset(layout, n - 1);
      OffsetStep(layout, n - 1);
    }
  }

  /** A run of fields of one width w, from field i up to field j, adds
      (j - i) * w bytes. */
  lemma {:induction false} EndOfRun(layout: seq<Kind>, i: nat, j: nat, w: nat)
    requires i <= j <= |layout|
    requires forall k :: i <= k < j ==> layout[k].width == w
    ensures EndOf(layout, j) == EndOf(layout, i) + (j - i) * w
  {
    if j > i {
      EndOfRun(layout, i, j - 1, w);
      assert (j - i) * w == (j - 1 - i) * w + w;
    }
  }

  /** The next field starts where field i ends. */
  lemma {:induction false} OffsetStep(layout: seq<Kind>, i: nat)
    requires i < |layout|
    ensures Offset(layout, i + 1) == Offset(layout, i) + layout[i].width
  {
    if i > 0 {
      OffsetStep(layout[1..], i - 1);
    }
  }

  /** The size of a struct, evaluated from the back. */
  lemma {:induction false} SizeIsEnd(layout: seq<Kind>)
    ensures Size(layout) == EndOf(layout, |layout|)
  {
    EndIsOffset(layout, |layout|);
    if |layout| > 0 {
      SizeIsEndOfLastField(layout);
      OffsetStep(layout, |layout| - 1);
    }
  }

  /** vs holds one fitting value per field of the layout. */
  predicate WellTyped(layout: seq<Kind>, vs: seq<Value>)
  {
    |vs| == |layout| && forall i :: 0 <= i < |layout| ==> Fits(layout[i], vs[i])
  }

  lemma {:induction false} WellTypedAppend(l1: seq<Kind>, v1: seq<Value>, l2: seq<Kind>, v2: seq<Value>)
    requires WellTyped(l1, v1) && WellTyped(l2, v2)
    ensures WellTyped(l1 + l2, v1 + v2)
  {
    forall i | 0 <= i < |l1 + l2|
      ensures Fits((l1 + l2)[i], (v1 + v2)[i])
    {
      if i >= |l1| {
        assert (l1 + l2)[i] == l2[i - |l1|];
      }
    }
  }

  /** The values of a struct whose layout is l1 followed by l2, stored from
      position lo of vs, split into the values of the two parts. */
  lemma {:induction false} WellTypedSplit(l1: seq<Kind>, l2: seq<Kind>, vs: seq<Value>, lo: nat)
    requires lo + |l1| + |l2| <= |vs| && WellTyped(l1 + l2, vs[lo..lo + |l1| + |l2|])
    ensures WellTyped(l1, vs[lo..lo + |l1|])
    ensures WellTyped(l2, vs[lo + |l1|..lo + |l1| + |l2|])
  {
    var w := vs[lo..lo + |l1| + |l2|];
    forall i | 0 <= i < |l1|
      ensures Fits(l1[i], vs[lo..lo + |l1|][i])
    {
      assert (l1 + l2)[i] == l1[i] && w[i] == vs[lo..lo + |l1|][i];
    }
    forall i | 0 <= i < |l2|
      ensures Fits(l2[i], vs[lo + |l1|..lo + |l1| + |l2|][i])
    {
      assert (l1 + l2)[|l1| + i] == l2[i] && w[|l1| + i] == vs[lo + |l1|..lo + |l1| + |l2|][i];
    }
  }

  /** Adjacent slices join into one. */
  lemma {:induction false} SliceJoin(vs: seq<Value>, i: nat, j: nat, k: nat)
    requires i <= j <= k <= |vs|
    ensures vs[i..j] + vs[j..k] == vs[i..k]
  {
  }

  /** The values of a struct whose layout is l1 followed by l2, split into
      the values of the two parts. */
  lemma {:induction false} WellTypedParts(l1: seq<Kind>, l2: seq<Kind>, vs: seq<Value>)
    requires WellTyped(l1 + l2, vs)
    ensures WellTyped(l1, vs[..|l1|]) && WellTyped(l2, vs[|l1|..])
  {
    assert vs[0..|l1| + |l2|] == vs;
    WellTypedSplit(l1, l2, vs, 0);
    assert vs[0..|l1|] == vs[..|l1|] && vs[|l1|..|l1| + |l2|] == vs[|l1|..];
  }

  /** The bytes of a struct: its fields' encodings one after the other. */
  function EncodeFields(layout: seq<Kind>, vs: seq<Value>): (b: seq<Byte>)
    requires WellTyped(layout, vs)
    ensures |b| == Size(layout)
  {
    if |layout| == 0 then []
    else EncodeValue(layout[0], vs[0]) + EncodeFields(layout[1..], vs[1..])
  }

  /** Field i of the struct stored at the start of b, read from the bytes at its offset. */
  function FieldAt(layout: seq<Kind>, b: seq<Byte>, i: nat): (v: Value)
    requires i < |layout| && Size(layout) <= |b|
    ensures Fits(layout[i], v)
  {
    FieldInBounds(layout, i);
    DecodeValue(layout[i], b[Offset(layout, i)..Offset(layout, i) + layout[i].width])
  }

  /** Every field of the struct stored at the start of b. No byte past
      Size(layout) is read. */
  function DecodeFields(layout: seq<Kind>, b: seq<Byte>): (vs: seq<Value>)
    requires Size(layout) <= |b|
    ensures |vs| == |layout|
  {
    seq(|layout|, i requires 0 <= i < |layout| => FieldAt(layout, b, i))
  }

  lemma {:induction false} DecodeFieldsAt(layout: seq<Kind>, b: seq<Byte>, i: nat)
    requires Size(layout) <= |b| && i < |layout|
    ensures DecodeFields(layout, b)[i] == FieldAt(layout, b, i)
  {
  }

  /** Every value read fits its field. */
  lemma {:induction false} DecodeFieldsWellTyped(layout: seq<Kind>, b: seq<Byte>)
    requires Size(layout) <= |b|
    ensures WellTyped(layout, DecodeFields(layout, b))
  {
    forall i | 0 <= i < |layout|
      ensures Fits(layout[i], DecodeFields(layout, b)[i])
    {
      DecodeFieldsAt(layout, b, i);
    }
  }

  lemma {:induction false} SliceOfAppend(a: seq<Byte>, c: seq<Byte>, lo: nat, hi: nat)
    requires |a| <= lo <= hi <= |a| + |c|
    ensures (a + c)[lo..hi] == c[lo - |a|..hi - |a|]
  {
  }

  /** The bytes at field i's offset in an encoding are the encoding of value i. */
  lemma {:induction false} EncodedFieldAt(layout: seq<Kind>, vs: seq<Value>, i: nat, lo: nat)
    requires WellTyped(layout, vs) && i < |layout| && lo == Offset(layout, i)
    ensures lo + layout[i].width <= Size(layout)
    ensures EncodeFields(layout, vs)[lo..lo + layout[i].width] == EncodeValue(layout[i], vs[i])
  {
    FieldInBounds(layout, i);
    var first := EncodeValue(layout[0], vs[0]);
    var rest := EncodeFields(layout[1..], vs[1..]);
    var e := EncodeFields(layout, vs);
    assert e == first + rest;
    if i == 0 {
      assert lo == 0;
      assert e[0..|first|] == first;
    } else {
      assert layout[1..][i - 1] == layout[i] && vs[1..][i - 1] == vs[i];
      EncodedFieldAt(layout[1..], vs[1..], i - 1, lo - |first|);
      SliceOfAppend(first, rest, lo, lo + layout[i].width);
      assert e[lo..lo + layout[i].width] == rest[lo - |first|..lo - |first| + layout[i].width];
    }
  }

  lemma {:induction false} DecodeEncodedField(layout: seq<Kind>, vs: seq<Value>, i: nat)
    requires WellTyped(layout, vs) && i < |layout|
    ensures FieldAt(layout, EncodeFields(layout, vs), i) == vs[i]
  {
    EncodedFieldAt(layout, vs, i, Offset(layout, i));
    DecodeEncodeValue(layout[i], vs[i]);
  }

  /** Round trip: decoding an encoding gives back every field. */
  lemma {:induction false} DecodeEncodeFields(layout: seq<Kind>, vs: seq<Value>)
    requires WellTyped(layout, vs)
    ensures DecodeFields(layout, EncodeFields(layout, vs)) == vs
  {
    var d := DecodeFields(layout, EncodeFields(layout, vs));
    forall i | 0 <= i < |layout|
      ensures d[i] == vs[i]
    {
      DecodeEncodedField(layout, vs, i);
    }
  }

  /** Fields do not overlap: a field ends no later than any later field starts. */
  lemma {:induction false} FieldsInOrder(layout: seq<Kind>, i: nat, j: nat)
    requires i < j < |layout|
    ensures Offset(layout, i) + layout[i].width <= Offset(layout, j)
  {
    if i > 0 {
      FieldsInOrder(layout[1..], i - 1, j - 1);
    }
  }

  /** Decoding reads only the first Size(layout) bytes. */
  lemma {:induction false} DecodeFieldsPrefix(layout: seq<Kind>, b: seq<Byte>, c: seq<Byte>)
    requires Size(layout) <= |b| && Size(layout) <= |c|
    requires b[..Size(layout)] == c[..Size(layout)]
    ensures DecodeFields(layout, b) == DecodeFields(layout, c)
  {
    var n := Size(layout);
    var d, d' := DecodeFields(layout, b), DecodeFields(layout, c);
    forall i | 0 <= i < |layout|
      ensures d[i] == d'[i]
    {
      FieldInBounds(layout, i);
      var lo := Offset(layout, i);
      var hi := lo + layout[i].width;
      assert b[lo..hi] == c[lo..hi] by {
        forall k | 0 <= k < hi - lo
          ensures b[lo..hi][k] == c[lo..hi][k]
        {
          assert b[lo + k] == b[..n][lo + k] && c[lo + k] == c[..n][lo + k];
        }
      }
    }
  }

  lemma {:induction false} FieldAtDrop(layout: seq<Kind>, b: seq<Byte>, j: nat)
    requires Size(layout) <= |b| && j + 1 < |layout|
    ensures layout[0].width <= |b| && Size(layout[1..]) <= |b| - layout[0].width
    ensures FieldAt(layout, b, j + 1) == FieldAt(layout[1..], b[layout[0].width..], j)
  {
    var w := layout[0].width;
    var tail := layout[1..];
    FieldInBounds(tail, j);
    var lo := Offset(tail, j);
    var hi := lo + tail[j].width;
    assert b[w..][lo..hi] == b[w + lo..w + hi];
  }

  /** Without its first field, a struct's fields are read from the bytes after that field. */
  lemma {:induction false} DecodeFieldsDrop(layout: seq<Kind>, b: seq<Byte>)
    requires Size(layout) <= |b| && |layout| > 0
    ensures layout[0].width <= |b| && Size(layout[1..]) <= |b| - layout[0].width
    ensures DecodeFields(layout, b)[0] == DecodeValue(layout[0], b[..layout[0].width])
    ensures DecodeFields(layout, b)[1..] == DecodeFields(layout[1..], b[layout[0].width..])
  {
    var w := layout[0].width;
    assert b[0..w] == b[..w];
    var d, d' := DecodeFields(layout, b)[1..], DecodeFields(layout[1..], b[w..]);
    forall j | 0 <= j < |layout| - 1
      ensures d[j] == d'[j]
    {
      FieldAtDrop(layout, b, j);
    }
  }

  /** Round trip: encoding the fields read from a struct-sized span gives back the span. */
  lemma {:induction false} EncodeDecodeFields(layout: seq<Kind>, b: seq<Byte>)
    requires |b| == Size(layout)
    ensures WellTyped(layout, DecodeFields(layout, b))
    ensures EncodeFields(layout, DecodeFields(layout, b)) == b
  {
    DecodeFieldsWellTyped(layout, b);
    if |layout| > 0 {
      var w := layout[0].width;
      var vs := DecodeFields(layout, b);
      DecodeFieldsDrop(layout, b);
      EncodeDecodeValue(layout[0], b[..w]);
      EncodeDecodeFields(layout[1..], b[w..]);
      assert b == b[..w] + b[w..];
    }
  }

  /** b with the bytes from offset `at` on replaced by `piece`. */
  function Splice(b: seq<Byte>, at: nat, piece: seq<Byte>): (r: seq<Byte>)
    requires at + |piece| <= |b|
    ensures |r| == |b|
    ensures r[at..at + |piece|] == piece
    ensures forall j :: 0 <= j < |b| && !(at <= j < at + |piece|) ==> r[j] == b[j]
  {
    b[..at] + piece + b[at + |piece|..]
  }

  /** Writing the encoding of v over field i changes field i to v and no other field. */
  lemma {:induction false} WriteField(layout: seq<Kind>, b: seq<Byte>, i: nat, v: Value)
    requires Size(layout) <= |b| && i < |layout| && Fits(layout[i], v)
    ensures Offset(layout, i) + layout[i].width <= |b|
    ensures DecodeFields(layout, Splice(b, Offset(layout, i), EncodeValue(layout[i], v)))
            == DecodeFields(layout, b)[i := v]
  {
    FieldInBounds(layout, i);
    var at := Offset(layout, i);
    var piece := EncodeValue(layout[i], v);
    var b' := Splice(b, at, piece);
    var d, d' := DecodeFields(layout, b)[i := v], DecodeFields(layout, b');
    forall j | 0 <= j < |layout|
      ensures d'[j] == d[j]
    {
      if j == i {
        DecodeEncodeValue(layout[i], v);
      } else {
        OtherFieldKept(layout, b, i, piece, j);
      }
    }
  }

  /** Overwriting the bytes of field i leaves every other field as it was. */
  lemma {:induction false} OtherFieldKept(layout: seq<Kind>, b: seq<Byte>, i: nat, piece: seq<Byte>, j: nat)
    requires Size(layout) <= |b| && i < |layout| && j < |layout| && i != j
    requires |piece| == layout[i].width && Offset(layout, i) + |piece| <= |b|
    ensures FieldAt(layout, Splice(b, Offset(layout, i), piece), j) == FieldAt(layout, b, j)
  {
    FieldInBounds(layout, j);
    if j < i {
      FieldsInOrder(layout, j, i);
    } else {
      FieldsInOrder(layout, i, j);
    }
    var lo := Offset(layout, j);
    var b' := Splice(b, Offset(layout, i), piece);
    assert b'[lo..lo + layout[j].width] == b[lo..lo + layout[j].width];
  }
}
