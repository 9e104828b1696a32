/** The message code that runs: sizes, both serializers and the parser loop. */
module MessageCode {
  import opened Options
  import opened Wire
  import opened Messages
  import opened MessageSizes

  // ---- sizes ----

  method ByteSizeValue(v: Value) returns (total: nat)
    ensures total == ValueSize(v)
  {
    total := 0;
    if |v.mangledName| > 0 {
      total := total + 1 + StringSize(v.mangledName);
    }
    if |v.value| > 0 {
      total := total + 1 + StringSize(v.value);
    }
    if v.typeId != 0 {
      total := total + 1 + Int32Size(v.typeId);
    }
  }

  method ByteSizeRecordField(f: RecordField) returns (total: nat)
    ensures total == RecordFieldSize(f)
  {
    total := 0;
    if |f.name| > 0 {
      total := total + 1 + StringSize(f.name);
    }
    if f.defaultValue.Some? {
      var size := ByteSizeValue(f.defaultValue.value);
      total := total + 1 + NestedSize(size);
    }
    if f.type_ != 0 {
      total := total + 1 + Int32Size(f.type_);
    }
  }

  method ByteSizeEnumValue(e: EnumValue) returns (total: nat)
    ensures total == EnumValueSize(e)
  {
    total := 0;
    if |e.name| > 0 {
      total := total + 1 + StringSize(e.name);
    }
    if e.value != 0 {
      total := total + 1 + Int32Size(e.value);
    }
  }

  method ByteSizeExport(e: Export) returns (total: nat)
    ensures total == ExportSize(e)
  {
    total := 0;
    if |e.name| > 0 {
      total := total + 1 + StringSize(e.name);
    }
    if e.value.Some? {
      var size := ByteSizeValue(e.value.value);
      total := total + 1 + NestedSize(size);
    }
    if e.type_ != 0 {
      total := total + 1 + Int32Size(e.type_);
    }
  }

  method ByteSizeFields(xs: seq<RecordField>) returns (total: nat)
    ensures total == 2 * |xs| + NestedSizes(RecordFieldSize, xs)
  {
    total := 2 * |xs|;
    var i := 0;
    while i < |xs|
      invariant 0 <= i <= |xs| && total == 2 * |xs| + NestedSizes(RecordFieldSize, xs[..i])
    {
      assert xs[..i + 1][..i] == xs[..i];
      var size := ByteSizeRecordField(xs[i]);
      total := total + NestedSize(size);
      i := i + 1;
    }
    assert xs[..i] == xs;
  }

  method ByteSizeValues(xs: seq<EnumValue>) returns (total: nat)
    ensures total == 2 * |xs| + NestedSizes(EnumValueSize, xs)
  {
    total := 2 * |xs|;
    var i := 0;
    while i < |xs|
      invariant 0 <= i <= |xs| && total == 2 * |xs| + NestedSizes(EnumValueSize, xs[..i])
    {
      assert xs[..i + 1][..i] == xs[..i];
      var size := ByteSizeEnumValue(xs[i]);
      total := total + NestedSize(size);
      i := i + 1;
    }
    assert xs[..i] == xs;
  }

  method ByteSizePacked(vs: seq<int32>) returns (total: nat)
    ensures total == PackedSize(vs)
  {
    var data, i := 0, 0;
    while i < |vs|
      invariant 0 <= i <= |vs| && data == IntSizes(vs[..i])
    {
      assert vs[..i + 1][..i] == vs[..i];
      data := data + Int32Size(vs[i]);
      i := i + 1;
    }
    assert vs[..i] == vs;
    total := data;
    if data > 0 {
      total := total + 2 + Int32Size(if data < TWO_TO_31 then data else 0);
    }
  }

  /** Adds an int32 or enum field, unless it has its default value. */
  method AddInt(before: nat, tag: nat, v: int32) returns (total: nat)
    ensures total == before + IntFieldSize(tag, v)
  {
    total := before;
    if v != 0 {
      total := total + TagSize(tag) + Int32Size(v);
    }
  }

  method AddBool(before: nat, tag: nat, b: bool) returns (total: nat)
    ensures total == before + BoolFieldSize(tag, b)
  {
    total := before;
    if b {
      total := total + TagSize(tag) + 1;
    }
  }

  method ByteSizeScalars(t: Type) returns (total: nat)
    ensures total == TypeScalarSizes(t)
  {
    total := 0;
    total := AddInt(total, 8, t.id);
    total := AddInt(total, 16, t.kind);
    total := AddInt(total, 40, t.referencedType);
    total := AddInt(total, 80, t.elementType);
    total := AddInt(total, 88, t.size);
    total := AddInt(total, 120, t.primitiveKind);
    total := AddInt(total, 160, t.recordKind);
    total := AddInt(total, 200, t.returnType);
    total := AddBool(total, 48, t.isBlockPointer);
    total := AddBool(total, 400, t.isConst);
    total := AddBool(total, 408, t.isVolatile);
    total := AddInt(total, 392, t.underlyingType);
  }

  method ByteSizeType(t: Type) returns (total: nat)
    ensures total == TypeSize(t)
  {
    total := ByteSizeFields(t.field);
    var params := ByteSizePacked(t.paramType);
    var values := ByteSizeValues(t.value);
    var scalars := ByteSizeScalars(t);
    total := total + params + values + scalars;
  }

  method ByteSizeTypes(xs: seq<Type>) returns (total: nat)
    ensures total == 1 * |xs| + NestedSizes(TypeSize, xs)
  {
    total := 1 * |xs|;
    var i := 0;
    while i < |xs|
      invariant 0 <= i <= |xs| && total == 1 * |xs| + NestedSizes(TypeSize, xs[..i])
    {
      assert xs[..i + 1][..i] == xs[..i];
      var size := ByteSizeType(xs[i]);
      total := total + NestedSize(size);
      i := i + 1;
    }
    assert xs[..i] == xs;
  }

  method ByteSizeExports(xs: seq<Export>) returns (total: nat)
    ensures total == 1 * |xs| + NestedSizes(ExportSize, xs)
  {
    total := 1 * |xs|;
    var i := 0;
    while i < |xs|
      invariant 0 <= i <= |xs| && total == 1 * |xs| + NestedSizes(ExportSize, xs[..i])
    {
      assert xs[..i + 1][..i] == xs[..i];
      var size := ByteSizeExport(xs[i]);
      total := total + NestedSize(size);
      i := i + 1;
    }
    assert xs[..i] == xs;
  }

  method ByteSizeCatalog(c: Catalog) returns (total: nat)
    ensures total == CatalogSize(c)
  {
    var types := ByteSizeTypes(c.type_);
    var exports := ByteSizeExports(c.export_);
    total := types + exports;
  }

  // ---- the parser loop ----

  method MergePartialFromCodedStream<M>(step: Step<M>, skip: Skip, m: M, input: Bytes) returns (r: Outcome<M>)
    ensures r == Parse(step, skip, m, input)
  {
    var msg, rest := m, input;
    while true
      invariant Parse(step, skip, msg, rest) == Parse(step, skip, m, input)
      decreases |rest|
    {
      if rest == [] {
        return Parsed(msg, [], true);
      }
      var t := ReadVarint(rest, 10);
      ReadVarintShrinks(rest, 10);
      if t.Fail? {
        return Parsed(msg, rest, false);
      }
      var tag := t.value % TWO_TO_32;
      match step(msg, tag, t.rest) {
        case Took(msg', rest') =>
          if |rest'| > |t.rest| {
            return Failed;
          }
          msg, rest := msg', rest';
        case Broken =>
          return Failed;
        case Unusual =>
          if tag == 0 || tag % 8 == 4 {
            return Parsed(msg, t.rest, false);
          }
          var skipped := skip(tag, t.rest);
          if skipped.None? || |skipped.value| > |t.rest| {
            return Failed;
          }
          rest := skipped.value;
      }
    }
  }

  // ---- writing to a stream ----

  function IntPiece(tag: nat, v: int32): Bytes { EncodeAll(IntField(tag, v)) }
  function BoolPiece(tag: nat, b: bool): Bytes { EncodeAll(BoolField(tag, b)) }
  function BytesPiece(tag: nat, s: Bytes): Bytes { EncodeAll(BytesField(tag, s)) }
  function SubPiece(tag: nat, v: Option<Value>): Bytes { EncodeAll(SubField(tag, v)) }

  method WriteInt(out: Bytes, tag: nat, v: int32) returns (r: Bytes)
    ensures r == out + IntPiece(tag, v)
  {
    r := out;
    if v != 0 {
      r := r + Varint(tag) + Varint(ToWire(v));
      OneEntry(Num(tag, ToWire(v)));
    }
  }

  method WriteBool(out: Bytes, tag: nat, b: bool) returns (r: Bytes)
    ensures r == out + BoolPiece(tag, b)
  {
    r := out;
    if b {
      r := r + Varint(tag) + [1];
      OneEntry(Num(tag, 1));
    }
  }

  method WriteBytes(out: Bytes, tag: nat, s: Bytes) returns (r: Bytes)
    ensures r == out + BytesPiece(tag, s)
  {
    r := out;
    if |s| > 0 {
      r := r + Varint(tag) + Varint(|s|) + s;
      OneEntry(Blob(tag, s));
    }
  }

  /** Writing a list of fields behind what is there. */
  lemma Pieces2(before: Bytes, a: seq<Entry>, b: seq<Entry>)
    ensures before + EncodeAll(a + b) == before + EncodeAll(a) + EncodeAll(b)
  {
    JoinConcat(EncodeEntry, a, b);
    Associate(before, EncodeAll(a), EncodeAll(b));
  }

  lemma Pieces3(before: Bytes, a: seq<Entry>, b: seq<Entry>, c: seq<Entry>)
    ensures before + EncodeAll(a + (b + c)) == before + EncodeAll(a) + EncodeAll(b) + EncodeAll(c)
  {
    Pieces2(before, a, b + c);
    Pieces2(before + EncodeAll(a), b, c);
  }

  lemma Pieces4(before: Bytes, a: seq<Entry>, b: seq<Entry>, c: seq<Entry>, d: seq<Entry>)
    ensures before + EncodeAll(a + (b + (c + d))) == before + EncodeAll(a) + EncodeAll(b) + EncodeAll(c) + EncodeAll(d)
  {
    Pieces2(before, a, b + (c + d));
    Pieces3(before + EncodeAll(a), b, c, d);
  }

  method SerializeValue(v: Value, before: Bytes) returns (out: Bytes)
    ensures out == before + EncodeValue(v)
  {
    Pieces3(before, IntField(8, v.typeId), BytesField(42, v.mangledName), BytesField(82, v.value));
    out := WriteInt(before, 8, v.typeId);
    out := WriteBytes(out, 42, v.mangledName);
    out := WriteBytes(out, 82, v.value);
  }

  /** The length written in front of a sub-message is the size computed before. */
  method WriteSub(out: Bytes, tag: nat, v: Option<Value>) returns (r: Bytes)
    requires v.Some? ==> ValueSize(v.value) < TWO_TO_31
    ensures r == out + SubPiece(tag, v)
  {
    r := out;
    if v.Some? {
      ValueSizeIs(v.value);
      OneEntry(Blob(tag, EncodeValue(v.value)));
      r := SerializeValue(v.value, r + Varint(tag) + Varint(ValueSize(v.value)));
    }
  }

  method SerializeRecordField(f: RecordField, before: Bytes) returns (out: Bytes)
    requires RecordFieldSize(f) < TWO_TO_31
    ensures out == before + EncodeRecordField(f)
  {
    Pieces3(before, BytesField(10, f.name), IntField(16, f.type_), SubField(26, f.defaultValue));
    out := WriteBytes(before, 10, f.name);
    out := WriteInt(out, 16, f.type_);
    out := WriteSub(out, 26, f.defaultValue);
  }

  method SerializeEnumValue(e: EnumValue, before: Bytes) returns (out: Bytes)
    ensures out == before + EncodeEnumValue(e)
  {
    Pieces2(before, BytesField(10, e.name), IntField(16, e.value));
    out := WriteBytes(before, 10, e.name);
    out := WriteInt(out, 16, e.value);
  }

  method SerializeExport(e: Export, before: Bytes) returns (out: Bytes)
    requires ExportSize(e) < TWO_TO_31
    ensures out == before + EncodeExport(e)
  {
    Pieces3(before, BytesField(10, e.name), IntField(16, e.type_), SubField(26, e.value));
    out := WriteBytes(before, 10, e.name);
    out := WriteInt(out, 16, e.type_);
    out := WriteSub(out, 26, e.value);
  }

  function FieldsPiece(xs: seq<RecordField>): Bytes { EncodeAll(Blobs(170, EncodeRecordField, xs)) }

  lemma NextField(before: Bytes, xs: seq<RecordField>, i: nat)
    requires i < |xs| && NestedSizes(RecordFieldSize, xs) < TWO_TO_31
    ensures RecordFieldSize(xs[i]) < TWO_TO_31
    ensures before + FieldsPiece(xs[..i + 1]) == before + FieldsPiece(xs[..i]) + Varint(170)
      + Varint(|EncodeRecordField(xs[i])|) + EncodeRecordField(xs[i])
  {
    NestedFits(RecordFieldSize, xs, xs[i]);
    NextBlob(before, 170, EncodeRecordField, xs, i);
  }

  method WriteField(x: RecordField, before: Bytes) returns (out: Bytes)
    requires RecordFieldSize(x) < TWO_TO_31
    ensures out == before + Varint(170) + Varint(|EncodeRecordField(x)|) + EncodeRecordField(x)
  {
    RecordFieldSizeIs(x);
    out := SerializeRecordField(x, before + Varint(170) + Varint(RecordFieldSize(x)));
  }

  method WriteFields(xs: seq<RecordField>, before: Bytes) returns (out: Bytes)
    requires NestedSizes(RecordFieldSize, xs) < TWO_TO_31
    ensures out == before + FieldsPiece(xs)
  {
    out := before;
    var i := 0;
    while i < |xs|
      invariant 0 <= i <= |xs| && out == before + FieldsPiece(xs[..i])
    {
      NextField(before, xs, i);
      out := WriteField(xs[i], out);
      i := i + 1;
    }
    assert xs[..i] == xs;
  }

  function ValuesPiece(xs: seq<EnumValue>): Bytes { EncodeAll(Blobs(242, EncodeEnumValue, xs)) }

  lemma NextValue(before: Bytes, xs: seq<EnumValue>, i: nat)
    requires i < |xs| && NestedSizes(EnumValueSize, xs) < TWO_TO_31
    ensures EnumValueSize(xs[i]) < TWO_TO_31
    ensures before + ValuesPiece(xs[..i + 1]) == before + ValuesPiece(xs[..i]) + Varint(242)
      + Varint(|EncodeEnumValue(xs[i])|) + EncodeEnumValue(xs[i])
  {
    NestedFits(EnumValueSize, xs, xs[i]);
    NextBlob(before, 242, EncodeEnumValue, xs, i);
  }

  method WriteValue(x: EnumValue, before: Bytes) returns (out: Bytes)
    requires EnumValueSize(x) < TWO_TO_31
    ensures out == before + Varint(242) + Varint(|EncodeEnumValue(x)|) + EncodeEnumValue(x)
  {
    EnumValueSizeIs(x);
    out := SerializeEnumValue(x, before + Varint(242) + Varint(EnumValueSize(x)));
  }

  method WriteValues(xs: seq<EnumValue>, before: Bytes) returns (out: Bytes)
    requires NestedSizes(EnumValueSize, xs) < TWO_TO_31
    ensures out == before + ValuesPiece(xs)
  {
    out := before;
    var i := 0;
    while i < |xs|
      invariant 0 <= i <= |xs| && out == before + ValuesPiece(xs[..i])
    {
      NextValue(before, xs, i);
      out := WriteValue(xs[i], out);
      i := i + 1;
    }
    assert xs[..i] == xs;
  }

  lemma NextBlob<T>(before: Bytes, tag: nat, encode: T -> Bytes, xs: seq<T>, i: nat)
    requires i < |xs|
    ensures before + EncodeAll(Blobs(tag, encode, xs[..i + 1])) ==
              before + EncodeAll(Blobs(tag, encode, xs[..i])) + Varint(tag) + Varint(|encode(xs[i])|) + encode(xs[i])
  {
    assert xs[..i + 1] == xs[..i] + [xs[i]];
    BlobsSplit(tag, encode, xs[..i], xs[i]);
    var e := Blob(tag, encode(xs[i]));
    Pieces2(before, Blobs(tag, encode, xs[..i]), [e]);
    OneEntry(e);
    var done := before + EncodeAll(Blobs(tag, encode, xs[..i]));
    Associate(done, Varint(tag), Payload(e));
    Associate(done + Varint(tag), Varint(|encode(xs[i])|), encode(xs[i]));
  }

  method WritePacked(vs: seq<int32>, before: Bytes) returns (out: Bytes)
    requires PackedSize(vs) < TWO_TO_31
    ensures out == before + EncodeAll(PackedField(210, vs))
  {
    out := before;
    IntSizesAre(vs);
    if |vs| > 0 {
      out := out + Varint(210) + Varint(IntSizes(vs));
    }
    ghost var prefix := out;
    var i := 0;
    while i < |vs|
      invariant 0 <= i <= |vs| && out == prefix + Join(EncodeInt, vs[..i])
    {
      assert vs[..i + 1] == vs[..i] + [vs[i]];
      JoinConcat(EncodeInt, vs[..i], [vs[i]]);
      JoinOne(EncodeInt, vs[i]);
      Associate(prefix, Join(EncodeInt, vs[..i]), EncodeInt(vs[i]));
      out := out + Varint(ToWire(vs[i]));
      i := i + 1;
    }
    assert vs[..i] == vs;
    PackedPieces(before, vs);
  }

  lemma PackedPieces(before: Bytes, vs: seq<int32>)
    ensures before + EncodeAll(PackedField(210, vs)) ==
              (if vs == [] then before else before + Varint(210) + Varint(|Join(EncodeInt, vs)|)) + Join(EncodeInt, vs)
  {
    if vs != [] {
      var e := Blob(210, Join(EncodeInt, vs));
      OneEntry(e);
      Associate(before, Varint(210), Payload(e));
      Associate(before + Varint(210), Varint(|e.data|), e.data);
    }
  }

  method SerializeType(t: Type, before: Bytes) returns (out: Bytes)
    requires TypeSize(t) < TWO_TO_31
    ensures out == before + EncodeType(t)
  {
    Pieces4(before, TypeHead(t), TypeSizes(t), TypeParts(t), TypeQualifiers(t));
    out := WriteTypeHead(t, before);
    out := WriteTypeSizes(t, out);
    out := WriteTypeParts(t, out);
    out := WriteTypeQualifiers(t, out);
  }

  method WriteTypeHead(t: Type, before: Bytes) returns (out: Bytes)
    ensures out == before + EncodeAll(TypeHead(t))
  {
    Pieces4(before, IntField(8, t.id), IntField(16, t.kind), IntField(40, t.referencedType),
      BoolField(48, t.isBlockPointer));
    out := WriteInt(before, 8, t.id);
    out := WriteInt(out, 16, t.kind);
    out := WriteInt(out, 40, t.referencedType);
    out := WriteBool(out, 48, t.isBlockPointer);
  }

  method WriteTypeSizes(t: Type, before: Bytes) returns (out: Bytes)
    ensures out == before + EncodeAll(TypeSizes(t))
  {
    Pieces4(before, IntField(80, t.elementType), IntField(88, t.size), IntField(120, t.primitiveKind),
      IntField(160, t.recordKind));
    out := WriteInt(before, 80, t.elementType);
    out := WriteInt(out, 88, t.size);
    out := WriteInt(out, 120, t.primitiveKind);
    out := WriteInt(out, 160, t.recordKind);
  }

  method WriteTypeParts(t: Type, before: Bytes) returns (out: Bytes)
    requires TypeSize(t) < TWO_TO_31
    ensures out == before + EncodeAll(TypeParts(t))
  {
    Pieces4(before, Blobs(170, EncodeRecordField, t.field), IntField(200, t.returnType),
      PackedField(210, t.paramType), Blobs(242, EncodeEnumValue, t.value));
    out := WriteFields(t.field, before);
    out := WriteInt(out, 200, t.returnType);
    out := WritePacked(t.paramType, out);
    out := WriteValues(t.value, out);
  }

  method WriteTypeQualifiers(t: Type, before: Bytes) returns (out: Bytes)
    ensures out == before + EncodeAll(TypeQualifiers(t))
  {
    Pieces3(before, IntField(392, t.underlyingType), BoolField(400, t.isConst), BoolField(408, t.isVolatile));
    out := WriteInt(before, 392, t.underlyingType);
    out := WriteBool(out, 400, t.isConst);
    out := WriteBool(out, 408, t.isVolatile);
  }

  function TypesPiece(xs: seq<Type>): Bytes { EncodeAll(Blobs(10, EncodeType, xs)) }

  lemma NextType(before: Bytes, xs: seq<Type>, i: nat)
    requires i < |xs| && NestedSizes(TypeSize, xs) < TWO_TO_31
    ensures TypeSize(xs[i]) < TWO_TO_31
    ensures before + TypesPiece(xs[..i + 1]) == before + TypesPiece(xs[..i]) + Varint(10)
      + Varint(|EncodeType(xs[i])|) + EncodeType(xs[i])
  {
    NestedFits(TypeSize, xs, xs[i]);
    NextBlob(before, 10, EncodeType, xs, i);
  }

  method WriteType(x: Type, before: Bytes) returns (out: Bytes)
    requires TypeSize(x) < TWO_TO_31
    ensures out == before + Varint(10) + Varint(|EncodeType(x)|) + EncodeType(x)
  {
    TypeSizeIs(x);
    out := SerializeType(x, before + Varint(10) + Varint(TypeSize(x)));
  }

  method WriteTypes(xs: seq<Type>, before: Bytes) returns (out: Bytes)
    requires NestedSizes(TypeSize, xs) < TWO_TO_31
    ensures out == before + TypesPiece(xs)
  {
    out := before;
    var i := 0;
    while i < |xs|
      invariant 0 <= i <= |xs| && out == before + TypesPiece(xs[..i])
    {
      NextType(before, xs, i);
      out := WriteType(xs[i], out);
      i := i + 1;
    }
    assert xs[..i] == xs;
  }

  function ExportsPiece(xs: seq<Export>): Bytes { EncodeAll(Blobs(18, EncodeExport, xs)) }

  lemma NextExport(before: Bytes, xs: seq<Export>, i: nat)
    requires i < |xs| && NestedSizes(ExportSize, xs) < TWO_TO_31
    ensures ExportSize(xs[i]) < TWO_TO_31
    ensures before + ExportsPiece(xs[..i + 1]) == before + ExportsPiece(xs[..i]) + Varint(18)
      + Varint(|EncodeExport(xs[i])|) + EncodeExport(xs[i])
  {
    NestedFits(ExportSize, xs, xs[i]);
    NextBlob(before, 18, EncodeExport, xs, i);
  }

  method WriteExport(x: Export, before: Bytes) returns (out: Bytes)
    requires ExportSize(x) < TWO_TO_31
    ensures out == before + Varint(18) + Varint(|EncodeExport(x)|) + EncodeExport(x)
  {
    ExportSizeIs(x);
    out := SerializeExport(x, before + Varint(18) + Varint(ExportSize(x)));
  }

  method WriteExports(xs: seq<Export>, before: Bytes) returns (out: Bytes)
    requires NestedSizes(ExportSize, xs) < TWO_TO_31
    ensures out == before + ExportsPiece(xs)
  {
    out := before;
    var i := 0;
    while i < |xs|
      invariant 0 <= i <= |xs| && out == before + ExportsPiece(xs[..i])
    {
      NextExport(before, xs, i);
      out := WriteExport(xs[i], out);
      i := i + 1;
    }
    assert xs[..i] == xs;
  }

  method SerializeCatalog(c: Catalog, before: Bytes) returns (out: Bytes)
    requires CatalogSize(c) < TWO_TO_31
    ensures out == before + EncodeCatalog(c)
  {
    Pieces2(before, Blobs(10, EncodeType, c.type_), Blobs(18, EncodeExport, c.export_));
    out := WriteTypes(c.type_, before);
    out := WriteExports(c.export_, out);
  }
}
