/** ByteSizeLong: the length prefixes are computed before anything is written, so they have to be exact. */
module MessageSizes {
  import opened Options
  import opened Wire
  import opened Messages

  function TagSize(tag: nat): nat { if tag < 0x80 then 1 else 2 }
  function StringSize(s: Bytes): nat { VarintSize32(|s|) + |s| }
  function NestedSize(size: nat): nat { VarintSize32(size) + size }

  function IntFieldSize(tag: nat, v: int32): nat { if v != 0 then TagSize(tag) + Int32Size(v) else 0 }
  function BoolFieldSize(tag: nat, b: bool): nat { if b then TagSize(tag) + 1 else 0 }
  function BytesFieldSize(tag: nat, s: Bytes): nat { if |s| > 0 then TagSize(tag) + StringSize(s) else 0 }
  function SubFieldSize(tag: nat, v: Option<Value>): nat { if v.Some?
                        then TagSize(tag) + NestedSize(ValueSize(v.value)) else 0 }

  function NestedSizes<T>(size: T -> nat, xs: seq<T>): nat {
    if xs == [] then 0 else NestedSizes(size, xs[..|xs| - 1]) + NestedSize(size(xs[|xs| - 1]))
  }

  function IntSizes(vs: seq<int32>): nat {
    if vs == [] then 0 else IntSizes(vs[..|vs| - 1]) + Int32Size(vs[|vs| - 1])
  }

  function ValueSize(v: Value): nat {
    BytesFieldSize(42, v.mangledName) + BytesFieldSize(82, v.value) + IntFieldSize(8, v.typeId)
  }

  function RecordFieldSize(f: RecordField): nat {
    BytesFieldSize(10, f.name) + SubFieldSize(26, f.defaultValue) + IntFieldSize(16, f.type_)
  }

  function EnumValueSize(e: EnumValue): nat {
    BytesFieldSize(10, e.name) + IntFieldSize(16, e.value)
  }

  function PackedSize(vs: seq<int32>): nat {
    var data := IntSizes(vs);
    (if data > 0 then 2 + Int32Size(if data < TWO_TO_31 then data else 0) else 0) + data
  }

  function TypeSize(t: Type): nat {
    (2 * |t.field| + NestedSizes(RecordFieldSize, t.field)) + PackedSize(t.paramType)
      + (2 * |t.value| + NestedSizes(EnumValueSize, t.value))
    + TypeScalarSizes(t)
  }

  function TypeScalarSizes(t: Type): nat {
    IntFieldSize(8, t.id) + IntFieldSize(16, t.kind) + IntFieldSize(40, t.referencedType)
      + IntFieldSize(80, t.elementType)
    + IntFieldSize(88, t.size) + IntFieldSize(120, t.primitiveKind) + IntFieldSize(160, t.recordKind)
      + IntFieldSize(200, t.returnType)
    + BoolFieldSize(48, t.isBlockPointer) + BoolFieldSize(400, t.isConst) + BoolFieldSize(408, t.isVolatile)
      + IntFieldSize(392, t.underlyingType)
  }

  function ExportSize(e: Export): nat {
    BytesFieldSize(10, e.name) + SubFieldSize(26, e.value) + IntFieldSize(16, e.type_)
  }

  function CatalogSize(c: Catalog): nat {
    (|c.type_| + NestedSizes(TypeSize, c.type_)) + (|c.export_| + NestedSizes(ExportSize, c.export_))
  }

  // ---- the sizes of single fields ----

  lemma TagSizeIs(tag: nat)
    requires tag < 0x4000
    ensures |Varint(tag)| == TagSize(tag)
  {
    VarintSizeIs(tag);
  }

  lemma OneEntry(e: Entry)
    ensures EncodeAll([e]) == EncodeEntry(e)
  {
    JoinOne(EncodeEntry, e);
  }

  lemma IntFieldLength(tag: nat, v: int32)
    requires tag < 0x4000
    ensures |EncodeAll(IntField(tag, v))| == IntFieldSize(tag, v)
  {
    if v != 0 {
      OneEntry(Num(tag, ToWire(v)));
      TagSizeIs(tag);
      Int32SizeIs(v);
    }
  }

  lemma BoolFieldLength(tag: nat, b: bool)
    requires tag < 0x4000
    ensures |EncodeAll(BoolField(tag, b))| == BoolFieldSize(tag, b)
  {
    if b {
      OneEntry(Num(tag, 1));
      TagSizeIs(tag);
    }
  }

  lemma BlobLength(tag: nat, data: Bytes)
    requires tag < 0x4000 && |data| < TWO_TO_32
    ensures |EncodeAll([Blob(tag, data)])| == TagSize(tag) + NestedSize(|data|)
  {
    OneEntry(Blob(tag, data));
    TagSizeIs(tag);
    VarintSizeIs(|data|);
  }

  lemma BytesFieldLength(tag: nat, s: Bytes)
    requires tag < 0x4000 && |s| < TWO_TO_32
    ensures |EncodeAll(BytesField(tag, s))| == BytesFieldSize(tag, s)
  {
    if s != [] {
      BlobLength(tag, s);
    }
  }

  lemma Lengths(a: seq<Entry>, b: seq<Entry>)
    ensures |EncodeAll(a + b)| == |EncodeAll(a)| + |EncodeAll(b)|
  {
    JoinConcat(EncodeEntry, a, b);
  }

  lemma StringFits(tag: nat, s: Bytes)
    ensures |s| <= BytesFieldSize(tag, s)
  {
  }

  // ---- the sizes of messages ----

  lemma ValueSizeIs(v: Value)
    requires ValueSize(v) < TWO_TO_31
    ensures |EncodeValue(v)| == ValueSize(v)
  {
    StringFits(42, v.mangledName);
    StringFits(82, v.value);
    IntFieldLength(8, v.typeId);
    BytesFieldLength(42, v.mangledName);
    BytesFieldLength(82, v.value);
    Lengths(BytesField(42, v.mangledName), BytesField(82, v.value));
    Lengths(IntField(8, v.typeId), BytesField(42, v.mangledName) + BytesField(82, v.value));
  }

  lemma SubFieldLength(tag: nat, v: Option<Value>)
    requires tag < 0x4000 && SubFieldSize(tag, v) < TWO_TO_31
    ensures |EncodeAll(SubField(tag, v))| == SubFieldSize(tag, v)
  {
    if v.Some? {
      ValueSizeIs(v.value);
      BlobLength(tag, EncodeValue(v.value));
    }
  }

  lemma RecordFieldSizeIs(f: RecordField)
    requires RecordFieldSize(f) < TWO_TO_31
    ensures |EncodeRecordField(f)| == RecordFieldSize(f)
  {
    StringFits(10, f.name);
    BytesFieldLength(10, f.name);
    IntFieldLength(16, f.type_);
    SubFieldLength(26, f.defaultValue);
    Lengths(IntField(16, f.type_), SubField(26, f.defaultValue));
    Lengths(BytesField(10, f.name), IntField(16, f.type_) + SubField(26, f.defaultValue));
  }

  lemma EnumValueSizeIs(e: EnumValue)
    requires EnumValueSize(e) < TWO_TO_31
    ensures |EncodeEnumValue(e)| == EnumValueSize(e)
  {
    StringFits(10, e.name);
    BytesFieldLength(10, e.name);
    IntFieldLength(16, e.value);
    Lengths(BytesField(10, e.name), IntField(16, e.value));
  }

  lemma ExportSizeIs(e: Export)
    requires ExportSize(e) < TWO_TO_31
    ensures |EncodeExport(e)| == ExportSize(e)
  {
    StringFits(10, e.name);
    BytesFieldLength(10, e.name);
    IntFieldLength(16, e.type_);
    SubFieldLength(26, e.value);
    Lengths(IntField(16, e.type_), SubField(26, e.value));
    Lengths(BytesField(10, e.name), IntField(16, e.type_) + SubField(26, e.value));
  }

  lemma NestedFits<T>(size: T -> nat, xs: seq<T>, x: T)
    requires x in xs
    ensures size(x) <= NestedSizes(size, xs)
  {
    if x != xs[|xs| - 1] {
      NestedFits(size, xs[..|xs| - 1], x);
    }
  }

  lemma BlobsSplit<T>(tag: nat, encode: T -> Bytes, a: seq<T>, x: T)
    ensures Blobs(tag, encode, a + [x]) == Blobs(tag, encode, a) + [Blob(tag, encode(x))]
  {
    if a == [] {
      assert a + [x] == [x] && [x][1..] == [];
    } else {
      BlobsSplit(tag, encode, a[1..], x);
      assert (a + [x])[0] == a[0] && (a + [x])[1..] == a[1..] + [x];
    }
  }

  lemma {:induction false} RepeatedLength<T>(tag: nat, width: nat, encode: T -> Bytes, size: T -> nat, xs: seq<T>)
    requires tag < 0x4000 && width == TagSize(tag) && NestedSizes(size, xs) < TWO_TO_31
    requires forall x :: x in xs ==> |encode(x)| == size(x)
    ensures |EncodeAll(Blobs(tag, encode, xs))| == width * |xs| + NestedSizes(size, xs)
  {
    if xs != [] {
      var rest, x := xs[..|xs| - 1], xs[|xs| - 1];
      assert rest + [x] == xs;
      BlobsSplit(tag, encode, rest, x);
      Lengths(Blobs(tag, encode, rest), [Blob(tag, encode(x))]);
      RepeatedLength(tag, width, encode, size, rest);
      BlobLength(tag, encode(x));
      assert width * |xs| == width * |rest| + width;
    }
  }

  lemma {:induction false} IntSizesAre(vs: seq<int32>)
    ensures |Join(EncodeInt, vs)| == IntSizes(vs) && (vs != [] ==> IntSizes(vs) > 0)
  {
    if vs != [] {
      var rest, v := vs[..|vs| - 1], vs[|vs| - 1];
      assert rest + [v] == vs && [v][1..] == [];
      JoinConcat(EncodeInt, rest, [v]);
      IntSizesAre(rest);
      Int32SizeIs(v);
    }
  }

  lemma PackedLength(vs: seq<int32>)
    requires PackedSize(vs) < TWO_TO_31
    ensures |EncodeAll(PackedField(210, vs))| == PackedSize(vs)
  {
    IntSizesAre(vs);
    if vs != [] {
      BlobLength(210, Join(EncodeInt, vs));
    }
  }

  lemma HeadLength(t: Type)
    ensures |EncodeAll(TypeHead(t))| ==
              IntFieldSize(8, t.id) + IntFieldSize(16, t.kind) + IntFieldSize(40, t.referencedType)
                + BoolFieldSize(48, t.isBlockPointer)
  {
    IntFieldLength(8, t.id);
    IntFieldLength(16, t.kind);
    IntFieldLength(40, t.referencedType);
    BoolFieldLength(48, t.isBlockPointer);
    var e3 := IntField(40, t.referencedType) + BoolField(48, t.isBlockPointer);
    Lengths(IntField(40, t.referencedType), BoolField(48, t.isBlockPointer));
    Lengths(IntField(16, t.kind), e3);
    Lengths(IntField(8, t.id), IntField(16, t.kind) + e3);
  }

  lemma SizesLength(t: Type)
    ensures |EncodeAll(TypeSizes(t))| ==
              IntFieldSize(80, t.elementType) + IntFieldSize(88, t.size) + IntFieldSize(120, t.primitiveKind)
                + IntFieldSize(160, t.recordKind)
  {
    IntFieldLength(80, t.elementType);
    IntFieldLength(88, t.size);
    IntFieldLength(120, t.primitiveKind);
    IntFieldLength(160, t.recordKind);
    var e3 := IntField(120, t.primitiveKind) + IntField(160, t.recordKind);
    Lengths(IntField(120, t.primitiveKind), IntField(160, t.recordKind));
    Lengths(IntField(88, t.size), e3);
    Lengths(IntField(80, t.elementType), IntField(88, t.size) + e3);
  }

  lemma QualifiersLength(t: Type)
    ensures |EncodeAll(TypeQualifiers(t))| == IntFieldSize(392, t.underlyingType) + BoolFieldSize(400, t.isConst)
      + BoolFieldSize(408, t.isVolatile)
  {
    IntFieldLength(392, t.underlyingType);
    BoolFieldLength(400, t.isConst);
    BoolFieldLength(408, t.isVolatile);
    Lengths(BoolField(400, t.isConst), BoolField(408, t.isVolatile));
    Lengths(IntField(392, t.underlyingType), BoolField(400, t.isConst) + BoolField(408, t.isVolatile));
  }

  lemma PartsLength(t: Type)
    requires NestedSizes(RecordFieldSize, t.field) < TWO_TO_31 && NestedSizes(EnumValueSize, t.value) < TWO_TO_31
    requires PackedSize(t.paramType) < TWO_TO_31
    ensures |EncodeAll(TypeParts(t))| == (2 * |t.field| + NestedSizes(RecordFieldSize, t.field))
      + IntFieldSize(200, t.returnType)
                                         + PackedSize(t.paramType)
                                           + (2 * |t.value| + NestedSizes(EnumValueSize, t.value))
  {
    forall x | x in t.field ensures |EncodeRecordField(x)| == RecordFieldSize(x) {
      NestedFits(RecordFieldSize, t.field, x);
      RecordFieldSizeIs(x);
    }
    forall x | x in t.value ensures |EncodeEnumValue(x)| == EnumValueSize(x) {
      NestedFits(EnumValueSize, t.value, x);
      EnumValueSizeIs(x);
    }
    RepeatedLength(170, 2, EncodeRecordField, RecordFieldSize, t.field);
    RepeatedLength(242, 2, EncodeEnumValue, EnumValueSize, t.value);
    IntFieldLength(200, t.returnType);
    PackedLength(t.paramType);
    var e3 := PackedField(210, t.paramType) + Blobs(242, EncodeEnumValue, t.value);
    Lengths(PackedField(210, t.paramType), Blobs(242, EncodeEnumValue, t.value));
    Lengths(IntField(200, t.returnType), e3);
    Lengths(Blobs(170, EncodeRecordField, t.field), IntField(200, t.returnType) + e3);
  }

  lemma TypeSizeIs(t: Type)
    requires TypeSize(t) < TWO_TO_31
    ensures |EncodeType(t)| == TypeSize(t)
  {
    HeadLength(t);
    SizesLength(t);
    PartsLength(t);
    QualifiersLength(t);
    Lengths(TypeParts(t), TypeQualifiers(t));
    Lengths(TypeSizes(t), TypeParts(t) + TypeQualifiers(t));
    Lengths(TypeHead(t), TypeSizes(t) + (TypeParts(t) + TypeQualifiers(t)));
  }

  /** ByteSizeLong is the number of bytes written. */
  lemma CatalogSizeIs(c: Catalog)
    requires CatalogSize(c) < TWO_TO_31
    ensures |EncodeCatalog(c)| == CatalogSize(c)
  {
    forall x | x in c.type_ ensures |EncodeType(x)| == TypeSize(x) {
      NestedFits(TypeSize, c.type_, x);
      TypeSizeIs(x);
    }
    forall x | x in c.export_ ensures |EncodeExport(x)| == ExportSize(x) {
      NestedFits(ExportSize, c.export_, x);
      ExportSizeIs(x);
    }
    RepeatedLength(10, 1, EncodeType, TypeSize, c.type_);
    RepeatedLength(18, 1, EncodeExport, ExportSize, c.export_);
    Lengths(Blobs(10, EncodeType, c.type_), Blobs(18, EncodeExport, c.export_));
  }
}
