/** The messages of the catalog format: what they hold, how they are merged, encoded and measured. */
module Messages {
  import opened Options
  import opened Wire

  datatype Value = Value(typeId: int32, mangledName: Bytes, value: Bytes)
  datatype RecordField = RecordField(name: Bytes, type_: int32, defaultValue: Option<Value>)
  datatype EnumValue = EnumValue(name: Bytes, value: int32)
  datatype Type = Type(id: int32, kind: int32, referencedType: int32, isBlockPointer: bool,
                       elementType: int32, size: int32, primitiveKind: int32, recordKind: int32,
                       field: seq<RecordField>, returnType: int32, paramType: seq<int32>,
                       value: seq<EnumValue>, underlyingType: int32, isConst: bool, isVolatile: bool)
  datatype Export = Export(name: Bytes, type_: int32, value: Option<Value>)
  datatype Catalog = Catalog(type_: seq<Type>, export_: seq<Export>)

  const NO_VALUE := Value(0, [], [])
  const NO_RECORD_FIELD := RecordField([], 0, None)
  const NO_ENUM_VALUE := EnumValue([], 0)
  const NO_TYPE := Type(0, 0, 0, false, 0, 0, 0, 0, [], 0, [], [], 0, false, false)
  const NO_EXPORT := Export([], 0, None)
  const NO_CATALOG := Catalog([], [])

  // ---- merging ----

  function MergeInt(a: int32, b: int32): int32 { if b != 0 then b else a }
  function MergeBytes(a: Bytes, b: Bytes): Bytes { if |b| > 0 then b else a }

  function MergeValue(a: Value, b: Value): Value {
    Value(MergeInt(a.typeId, b.typeId), MergeBytes(a.mangledName, b.mangledName), MergeBytes(a.value, b.value))
  }

  function MergeSub(a: Option<Value>, b: Option<Value>): Option<Value> {
    if b.Some? then Some(MergeValue(OrNew(a), b.value)) else a
  }

  /** The mutable sub-message: created when it is missing. */
  function OrNew(a: Option<Value>): Value {
    if a.Some? then a.value else NO_VALUE
  }

  function MergeRecordField(a: RecordField, b: RecordField): RecordField {
    RecordField(MergeBytes(a.name, b.name), MergeInt(a.type_, b.type_), MergeSub(a.defaultValue, b.defaultValue))
  }

  function MergeEnumValue(a: EnumValue, b: EnumValue): EnumValue {
    EnumValue(MergeBytes(a.name, b.name), MergeInt(a.value, b.value))
  }

  function MergeType(a: Type, b: Type): Type {
    Type(MergeInt(a.id, b.id), MergeInt(a.kind, b.kind), MergeInt(a.referencedType, b.referencedType),
         a.isBlockPointer || b.isBlockPointer,
         MergeInt(a.elementType, b.elementType), MergeInt(a.size, b.size), MergeInt(a.primitiveKind, b.primitiveKind),
         MergeInt(a.recordKind, b.recordKind), a.field + b.field, MergeInt(a.returnType, b.returnType),
         a.paramType + b.paramType, a.value + b.value, MergeInt(a.underlyingType, b.underlyingType),
         a.isConst || b.isConst, a.isVolatile || b.isVolatile)
  }

  function MergeExport(a: Export, b: Export): Export {
    Export(MergeBytes(a.name, b.name), MergeInt(a.type_, b.type_), MergeSub(a.value, b.value))
  }

  function MergeCatalog(a: Catalog, b: Catalog): Catalog {
    Catalog(a.type_ + b.type_, a.export_ + b.export_)
  }

  // ---- the fields of a message, in the order they are written ----

  function IntField(tag: nat, v: int32): seq<Entry> { if v != 0 then [Num(tag, ToWire(v))] else [] }
  function BoolField(tag: nat, b: bool): seq<Entry> { if b then [Num(tag, 1)] else [] }
  function BytesField(tag: nat, s: Bytes): seq<Entry> { if |s| > 0 then [Blob(tag, s)] else [] }
  function SubField(tag: nat, v: Option<Value>): seq<Entry> {
    if v.Some? then [Blob(tag, EncodeValue(v.value))] else []
  }


  function EncodeInt(v: int32): Bytes { Varint(ToWire(v)) }

  function PackedField(tag: nat, vs: seq<int32>): seq<Entry> {
    if |vs| > 0 then [Blob(tag, Join(EncodeInt, vs))] else []
  }

  function Blobs<T>(tag: nat, encode: T -> Bytes, s: seq<T>): seq<Entry> {
    if s == [] then [] else [Blob(tag, encode(s[0]))] + Blobs(tag, encode, s[1..])
  }

  function ValueFields(v: Value): seq<Entry> {
    IntField(8, v.typeId) + (BytesField(42, v.mangledName) + BytesField(82, v.value))
  }

  function EncodeValue(v: Value): Bytes { EncodeAll(ValueFields(v)) }

  function RecordFieldFields(f: RecordField): seq<Entry> {
    BytesField(10, f.name) + (IntField(16, f.type_) + SubField(26, f.defaultValue))
  }

  function EncodeRecordField(f: RecordField): Bytes { EncodeAll(RecordFieldFields(f)) }

  function EnumValueFields(e: EnumValue): seq<Entry> {
    BytesField(10, e.name) + IntField(16, e.value)
  }

  function EncodeEnumValue(e: EnumValue): Bytes { EncodeAll(EnumValueFields(e)) }

  /** Type fields 1 to 6. */
  function TypeHead(t: Type): seq<Entry> {
    IntField(8, t.id) + (IntField(16, t.kind) + (IntField(40, t.referencedType) + BoolField(48, t.isBlockPointer)))
  }

  /** Type fields 10 to 20. */
  function TypeSizes(t: Type): seq<Entry> {
    IntField(80, t.elementType)
      + (IntField(88, t.size) + (IntField(120, t.primitiveKind) + IntField(160, t.recordKind)))
  }

  /** Type fields 21 to 30. */
  function TypeParts(t: Type): seq<Entry> {
    Blobs(170, EncodeRecordField, t.field)
      + (IntField(200, t.returnType) + (PackedField(210, t.paramType) + Blobs(242, EncodeEnumValue, t.value)))
  }

  /** Type fields 49 to 51. */
  function TypeQualifiers(t: Type): seq<Entry> {
    IntField(392, t.underlyingType) + (BoolField(400, t.isConst) + BoolField(408, t.isVolatile))
  }

  function TypeFields(t: Type): seq<Entry> {
    TypeHead(t) + (TypeSizes(t) + (TypeParts(t) + TypeQualifiers(t)))
  }

  function EncodeType(t: Type): Bytes { EncodeAll(TypeFields(t)) }

  function ExportFields(e: Export): seq<Entry> {
    BytesField(10, e.name) + (IntField(16, e.type_) + SubField(26, e.value))
  }

  function EncodeExport(e: Export): Bytes { EncodeAll(ExportFields(e)) }

  function CatalogFields(c: Catalog): seq<Entry> {
    Blobs(10, EncodeType, c.type_) + Blobs(18, EncodeExport, c.export_)
  }

  function EncodeCatalog(c: Catalog): Bytes { EncodeAll(CatalogFields(c)) }

  // ---- parsing ----

  type Utf8 = Bytes -> bool

  function ReadString(utf8: Utf8, s: Bytes): Read<Bytes> {
    var r := ReadBlob(s);
    if r.Ok? && utf8(r.value) then r else Fail
  }

  /** A sub-message has to fill its block exactly. */
  function ReadMessage<M>(step: Step<M>, skip: Skip, m: M, s: Bytes): Read<M> {
    match ReadBlob(s)
    case Fail => Fail
    case Ok(data, rest) =>
      match Parse(step, skip, m, data)
      case Failed => Fail
      case Parsed(m', _, clean) => if clean then Ok(m', rest) else Fail
  }

  function ReadInts(s: Bytes): Option<seq<int32>>
    decreases |s|
  {
    if s == [] then Some([]) else
    var r := ReadInt32(s);
    ReadVarintShrinks(s, 10);
    if r.Fail? then None else
    var more := ReadInts(r.rest);
    if more.None? then None else Some([r.value] + more.value)
  }

  function ReadPacked(s: Bytes): Read<seq<int32>> {
    match ReadBlob(s)
    case Fail => Fail
    case Ok(data, rest) => match ReadInts(data) case None => Fail case Some(vs) => Ok(vs, rest)
  }

  function ValueStepAt(utf8: Utf8, m: Value, tag: nat, s: Bytes): StepResult<Value> {
    if tag == 8 then var r := ReadInt32(s); if r.Fail? then Broken else Took(m.(typeId := r.value), r.rest)
    else if tag == 42 then var r := ReadString(utf8, s); if r.Fail? then Broken
      else Took(m.(mangledName := r.value), r.rest)
    else if tag == 82 then var r := ReadBlob(s); if r.Fail? then Broken else Took(m.(value := r.value), r.rest)
    else Unusual
  }

  function ValueStep(utf8: Utf8): Step<Value> {
    (m: Value, tag: nat, s: Bytes) => ValueStepAt(utf8, m, tag, s)
  }

  function RecordFieldStepAt(utf8: Utf8, skip: Skip, m: RecordField, tag: nat, s: Bytes): StepResult<RecordField> {
    if tag == 10 then var r := ReadString(utf8, s); if r.Fail? then Broken else Took(m.(name := r.value), r.rest)
    else if tag == 16 then var r := ReadInt32(s); if r.Fail? then Broken else Took(m.(type_ := r.value), r.rest)
    else if tag == 26 then
      var r := ReadMessage(ValueStep(utf8), skip, OrNew(m.defaultValue), s);
      if r.Fail? then Broken else Took(m.(defaultValue := Some(r.value)), r.rest)
    else Unusual
  }

  function RecordFieldStep(utf8: Utf8, skip: Skip): Step<RecordField> {
    (m: RecordField, tag: nat, s: Bytes) => RecordFieldStepAt(utf8, skip, m, tag, s)
  }

  function EnumValueStepAt(utf8: Utf8, m: EnumValue, tag: nat, s: Bytes): StepResult<EnumValue> {
    if tag == 10 then var r := ReadString(utf8, s); if r.Fail? then Broken else Took(m.(name := r.value), r.rest)
    else if tag == 16 then var r := ReadInt32(s); if r.Fail? then Broken else Took(m.(value := r.value), r.rest)
    else Unusual
  }

  function EnumValueStep(utf8: Utf8): Step<EnumValue> {
    (m: EnumValue, tag: nat, s: Bytes) => EnumValueStepAt(utf8, m, tag, s)
  }

  /** The fields of Type that hold an int32 or an enum, by tag. */
  predicate TypeIntTag(tag: nat) {
    tag == 8 || tag == 16 || tag == 40 || tag == 80 || tag == 88 || tag == 120 || tag == 160 || tag == 200 || tag == 392
  }

  function SetTypeInt(m: Type, tag: nat, v: int32): Type {
    if tag == 8 then m.(id := v)
    else if tag == 16 then m.(kind := v)
    else if tag == 40 then m.(referencedType := v)
    else if tag == 80 then m.(elementType := v)
    else if tag == 88 then m.(size := v)
    else if tag == 120 then m.(primitiveKind := v)
    else if tag == 160 then m.(recordKind := v)
    else if tag == 200 then m.(returnType := v)
    else m.(underlyingType := v)
  }

  predicate TypeBoolTag(tag: nat) {
    tag == 48 || tag == 400 || tag == 408
  }

  function SetTypeBool(m: Type, tag: nat, b: bool): Type {
    if tag == 48 then m.(isBlockPointer := b) else if tag == 400 then m.(isConst := b) else m.(isVolatile := b)
  }

  function TypeStepAt(utf8: Utf8, skip: Skip, m: Type, tag: nat, s: Bytes): StepResult<Type> {
    if TypeIntTag(tag) then var r := ReadInt32(s); if r.Fail? then Broken else Took(SetTypeInt(m, tag, r.value), r.rest)
    else if TypeBoolTag(tag) then var r := ReadBool(s); if r.Fail? then Broken
      else Took(SetTypeBool(m, tag, r.value), r.rest)
    else if tag == 170 then
      var r := ReadMessage(RecordFieldStep(utf8, skip), skip, NO_RECORD_FIELD, s);
      if r.Fail? then Broken else Took(m.(field := m.field + [r.value]), r.rest)
    else if tag == 210 then var r := ReadPacked(s); if r.Fail? then Broken
      else Took(m.(paramType := m.paramType + r.value), r.rest)
    else if tag == 208 then var r := ReadInt32(s); if r.Fail? then Broken
      else Took(m.(paramType := m.paramType + [r.value]), r.rest)
    else if tag == 242 then
      var r := ReadMessage(EnumValueStep(utf8), skip, NO_ENUM_VALUE, s);
      if r.Fail? then Broken else Took(m.(value := m.value + [r.value]), r.rest)
    else Unusual
  }

  function TypeStep(utf8: Utf8, skip: Skip): Step<Type> {
    (m: Type, tag: nat, s: Bytes) => TypeStepAt(utf8, skip, m, tag, s)
  }

  function ExportStepAt(utf8: Utf8, skip: Skip, m: Export, tag: nat, s: Bytes): StepResult<Export> {
    if tag == 10 then var r := ReadString(utf8, s); if r.Fail? then Broken else Took(m.(name := r.value), r.rest)
    else if tag == 16 then var r := ReadInt32(s); if r.Fail? then Broken else Took(m.(type_ := r.value), r.rest)
    else if tag == 26 then
      var r := ReadMessage(ValueStep(utf8), skip, OrNew(m.value), s);
      if r.Fail? then Broken else Took(m.(value := Some(r.value)), r.rest)
    else Unusual
  }

  function ExportStep(utf8: Utf8, skip: Skip): Step<Export> {
    (m: Export, tag: nat, s: Bytes) => ExportStepAt(utf8, skip, m, tag, s)
  }

  function CatalogStepAt(utf8: Utf8, skip: Skip, m: Catalog, tag: nat, s: Bytes): StepResult<Catalog> {
    if tag == 10 then
      var r := ReadMessage(TypeStep(utf8, skip), skip, NO_TYPE, s);
      if r.Fail? then Broken else Took(m.(type_ := m.type_ + [r.value]), r.rest)
    else if tag == 18 then
      var r := ReadMessage(ExportStep(utf8, skip), skip, NO_EXPORT, s);
      if r.Fail? then Broken else Took(m.(export_ := m.export_ + [r.value]), r.rest)
    else Unusual
  }

  function CatalogStep(utf8: Utf8, skip: Skip): Step<Catalog> {
    (m: Catalog, tag: nat, s: Bytes) => CatalogStepAt(utf8, skip, m, tag, s)
  }
}

/** Parsing what has been encoded merges it. */
module RoundTrip {
  import opened Options
  import opened Wire
  import opened Messages

  // ---- what a message must satisfy to be read back ----

  predicate Text(utf8: Utf8, s: Bytes) { s == [] || utf8(s) }

  predicate GoodValue(utf8: Utf8, v: Value) { Text(utf8, v.mangledName) }
  predicate GoodSub(utf8: Utf8, v: Option<Value>) { v.Some? ==> GoodValue(utf8, v.value) }
  predicate GoodRecordField(utf8: Utf8, f: RecordField) { Text(utf8, f.name) && GoodSub(utf8, f.defaultValue) }
  predicate GoodEnumValue(utf8: Utf8, e: EnumValue) { Text(utf8, e.name) }
  predicate GoodType(utf8: Utf8, t: Type) {
    (forall f :: f in t.field ==> GoodRecordField(utf8, f)) && (forall e :: e in t.value ==> GoodEnumValue(utf8, e))
  }
  predicate GoodExport(utf8: Utf8, e: Export) { Text(utf8, e.name) && GoodSub(utf8, e.value) }
  predicate GoodCatalog(utf8: Utf8, c: Catalog) {
    (forall t :: t in c.type_ ==> GoodType(utf8, t)) && (forall e :: e in c.export_ ==> GoodExport(utf8, e))
  }

  /** A part is no longer than the whole. */
  lemma {:induction false} EntryFits(es: seq<Entry>, e: Entry)
    requires e in es
    ensures |EncodeEntry(e)| <= |EncodeAll(es)| && (e.Blob? ==> |e.data| <= |EncodeAll(es)|)
  {
    if e == es[0] {
    } else {
      EntryFits(es[1..], e);
    }
  }

  // ---- single fields of any message ----

  lemma IntDoes<M(!new)>(step: Step<M>, tag: nat, v: int32, f: M -> M)
    requires 0 < tag < TWO_TO_32 && (v == 0 ==> forall m :: f(m) == m)
    requires v != 0 ==> forall m, s, rest {:trigger step(m, tag, s), Ok(v, rest)} ::
      ReadInt32(s) == Ok(v, rest) ==> step(m, tag, s) == Took(f(m), rest)
    ensures Does(step, IntField(tag, v), f)
  {
    if v == 0 {
      DoesNothing(step, f);
    } else {
      var e := Num(tag, ToWire(v));
      forall m, rest {:trigger step(m, tag, Payload(e) + rest)}
        ensures step(m, tag, Payload(e) + rest) == Took(f(m), rest)
      {
        Int32Reads(v, rest);
      }
      DoesOne(step, e, f);
    }
  }

  lemma BoolDoes<M(!new)>(step: Step<M>, tag: nat, b: bool, f: M -> M)
    requires 0 < tag < TWO_TO_32 && (!b ==> forall m :: f(m) == m)
    requires b ==> forall m, s, rest {:trigger step(m, tag, s), Ok(b, rest)} ::
      ReadBool(s) == Ok(b, rest) ==> step(m, tag, s) == Took(f(m), rest)
    ensures Does(step, BoolField(tag, b), f)
  {
    if !b {
      DoesNothing(step, f);
    } else {
      var e := Num(tag, 1);
      forall m, rest {:trigger step(m, tag, Payload(e) + rest)}
        ensures step(m, tag, Payload(e) + rest) == Took(f(m), rest)
      {
        BoolReads(rest);
      }
      DoesOne(step, e, f);
    }
  }

  lemma BytesDoes<M(!new)>(step: Step<M>, tag: nat, v: Bytes, f: M -> M)
    requires 0 < tag < TWO_TO_32 && |v| < TWO_TO_31 && (v == [] ==> forall m :: f(m) == m)
    requires v != [] ==> forall m, s, rest {:trigger step(m, tag, s), Ok(v, rest)} ::
      ReadBlob(s) == Ok(v, rest) ==> step(m, tag, s) == Took(f(m), rest)
    ensures Does(step, BytesField(tag, v), f)
  {
    if v == [] {
      DoesNothing(step, f);
    } else {
      BlobDoes(step, tag, v, f);
    }
  }

  lemma StringDoes<M(!new)>(step: Step<M>, tag: nat, utf8: Utf8, v: Bytes, f: M -> M)
    requires 0 < tag < TWO_TO_32 && |v| < TWO_TO_31 && Text(utf8, v) && (v == [] ==> forall m :: f(m) == m)
    requires v != []
      ==> forall m, s, rest {:trigger step(m, tag, s), Ok(v, rest)} ::
        ReadString(utf8, s) == Ok(v, rest) ==> step(m, tag, s) == Took(f(m), rest)
    ensures Does(step, BytesField(tag, v), f)
  {
    if v == [] {
      DoesNothing(step, f);
    } else {
      var e := Blob(tag, v);
      forall m, rest {:trigger step(m, tag, Payload(e) + rest)}
        ensures step(m, tag, Payload(e) + rest) == Took(f(m), rest)
      {
        BlobReads(v, rest);
        assert ReadString(utf8, Payload(e) + rest) == Ok(v, rest);
      }
      DoesOne(step, e, f);
    }
  }

  lemma BlobDoes<M(!new)>(step: Step<M>, tag: nat, data: Bytes, f: M -> M)
    requires 0 < tag < TWO_TO_32 && |data| < TWO_TO_31
    requires forall m, s, rest {:trigger step(m, tag, s), Ok(data, rest)} ::
      ReadBlob(s) == Ok(data, rest) ==> step(m, tag, s) == Took(f(m), rest)
    ensures Does(step, [Blob(tag, data)], f)
  {
    var e := Blob(tag, data);
    forall m, rest {:trigger step(m, tag, Payload(e) + rest)}
      ensures step(m, tag, Payload(e) + rest) == Took(f(m), rest)
    {
      BlobReads(data, rest);
    }
    DoesOne(step, e, f);
  }

  /** A block that holds an encoded sub-message. */
  lemma SubMessageReads<S(!new)>(step: Step<S>, skip: Skip, sub: S, es: seq<Entry>, f: S -> S, s: Bytes, rest: Bytes)
    requires Does(step, es, f) && ReadBlob(s) == Ok(EncodeAll(es), rest)
    ensures ReadMessage(step, skip, sub, s) == Ok(f(sub), rest)
  {
    DoesParse(step, skip, es, f, sub, []);
    assert EncodeAll(es) + [] == EncodeAll(es);
  }

  // ---- Value ----

  function ValueMerger(b: Value): Value -> Value { (m: Value) => MergeValue(m, b) }

  lemma ValueDoes(utf8: Utf8, b: Value)
    requires GoodValue(utf8, b) && |EncodeValue(b)| < TWO_TO_31
    ensures Does(ValueStep(utf8), ValueFields(b), ValueMerger(b))
  {
    var step := ValueStep(utf8);
    var f1, f2, f3 := IntField(8, b.typeId), BytesField(42, b.mangledName), BytesField(82, b.value);
    FieldFits(ValueFields(b), 42, b.mangledName);
    FieldFits(ValueFields(b), 82, b.value);
    var g1 := (m: Value) => m.(typeId := MergeInt(m.typeId, b.typeId));
    var g2 := (m: Value) => m.(mangledName := MergeBytes(m.mangledName, b.mangledName));
    var g3 := (m: Value) => m.(value := MergeBytes(m.value, b.value));
    IntDoes(step, 8, b.typeId, g1);
    StringDoes(step, 42, utf8, b.mangledName, g2);
    BytesDoes(step, 82, b.value, g3);
    DoesThen(step, f2, g2, f3, g3, (m: Value) => g3(g2(m)));
    DoesThen(step, f1, g1, f2 + f3, (m: Value) => g3(g2(m)), ValueMerger(b));
  }

  lemma FieldFits(es: seq<Entry>, tag: nat, s: Bytes)
    requires forall e :: e in BytesField(tag, s) ==> e in es
    ensures |s| <= |EncodeAll(es)|
  {
    if s != [] {
      EntryFits(es, Blob(tag, s));
    }
  }

  // ---- RecordField and Export: a name, a type and perhaps a value ----

  lemma SubFits(es: seq<Entry>, tag: nat, v: Option<Value>)
    requires forall e :: e in SubField(tag, v) ==> e in es
    ensures v.Some? ==> |EncodeValue(v.value)| <= |EncodeAll(es)|
  {
    if v.Some? {
      EntryFits(es, Blob(tag, EncodeValue(v.value)));
    }
  }

  /** A missing sub-message leaves the message alone, another one is merged into what is there. */
  lemma SubDoes<M(!new)>(utf8: Utf8, skip: Skip, step: Step<M>, tag: nat, v: Option<Value>, get: M -> Option<Value>,
                  f: M -> M)
    requires 0 < tag < TWO_TO_32 && GoodSub(utf8, v) && (v.Some? ==> |EncodeValue(v.value)| < TWO_TO_31)
    requires v.None? ==> forall m :: f(m) == m
    requires v.Some? ==> forall m, s, rest {:trigger step(m, tag, s), Ok(MergeValue(OrNew(get(m)), v.value), rest)} ::
      ReadMessage(ValueStep(utf8), skip, OrNew(get(m)), s) == Ok(MergeValue(OrNew(get(m)), v.value), rest)
      ==> step(m, tag, s) == Took(f(m), rest)
    ensures Does(step, SubField(tag, v), f)
  {
    if v.None? {
      DoesNothing(step, f);
    } else {
      var e := Blob(tag, EncodeValue(v.value));
      ValueDoes(utf8, v.value);
      forall m, rest {:trigger step(m, tag, Payload(e) + rest)}
        ensures step(m, tag, Payload(e) + rest) == Took(f(m), rest)
      {
        BlobReads(e.data, rest);
        SubMessageReads(ValueStep(utf8), skip, OrNew(get(m)), ValueFields(v.value), ValueMerger(v.value),
          Payload(e) + rest, rest);
      }
      DoesOne(step, e, f);
    }
  }

  function RecordFieldMerger(b: RecordField): RecordField -> RecordField { (m: RecordField) => MergeRecordField(m, b) }

  lemma RecordFieldDoes(utf8: Utf8, skip: Skip, b: RecordField)
    requires GoodRecordField(utf8, b) && |EncodeRecordField(b)| < TWO_TO_31
    ensures Does(RecordFieldStep(utf8, skip), RecordFieldFields(b), RecordFieldMerger(b))
  {
    var step := RecordFieldStep(utf8, skip);
    var f1, f2, f3 := BytesField(10, b.name), IntField(16, b.type_), SubField(26, b.defaultValue);
    FieldFits(RecordFieldFields(b), 10, b.name);
    SubFits(RecordFieldFields(b), 26, b.defaultValue);
    var g1 := (m: RecordField) => m.(name := MergeBytes(m.name, b.name));
    var g2 := (m: RecordField) => m.(type_ := MergeInt(m.type_, b.type_));
    var g3 := (m: RecordField) => m.(defaultValue := MergeSub(m.defaultValue, b.defaultValue));
    StringDoes(step, 10, utf8, b.name, g1);
    IntDoes(step, 16, b.type_, g2);
    SubDoes(utf8, skip, step, 26, b.defaultValue, (m: RecordField) => m.defaultValue, g3);
    DoesThen(step, f2, g2, f3, g3, (m: RecordField) => g3(g2(m)));
    DoesThen(step, f1, g1, f2 + f3, (m: RecordField) => g3(g2(m)), RecordFieldMerger(b));
  }

  function ExportMerger(b: Export): Export -> Export { (m: Export) => MergeExport(m, b) }

  lemma ExportDoes(utf8: Utf8, skip: Skip, b: Export)
    requires GoodExport(utf8, b) && |EncodeExport(b)| < TWO_TO_31
    ensures Does(ExportStep(utf8, skip), ExportFields(b), ExportMerger(b))
  {
    var step := ExportStep(utf8, skip);
    var f1, f2, f3 := BytesField(10, b.name), IntField(16, b.type_), SubField(26, b.value);
    FieldFits(ExportFields(b), 10, b.name);
    SubFits(ExportFields(b), 26, b.value);
    var g1 := (m: Export) => m.(name := MergeBytes(m.name, b.name));
    var g2 := (m: Export) => m.(type_ := MergeInt(m.type_, b.type_));
    var g3 := (m: Export) => m.(value := MergeSub(m.value, b.value));
    StringDoes(step, 10, utf8, b.name, g1);
    IntDoes(step, 16, b.type_, g2);
    SubDoes(utf8, skip, step, 26, b.value, (m: Export) => m.value, g3);
    DoesThen(step, f2, g2, f3, g3, (m: Export) => g3(g2(m)));
    DoesThen(step, f1, g1, f2 + f3, (m: Export) => g3(g2(m)), ExportMerger(b));
  }

  function EnumValueMerger(b: EnumValue): EnumValue -> EnumValue { (m: EnumValue) => MergeEnumValue(m, b) }

  lemma EnumValueDoes(utf8: Utf8, b: EnumValue)
    requires GoodEnumValue(utf8, b) && |EncodeEnumValue(b)| < TWO_TO_31
    ensures Does(EnumValueStep(utf8), EnumValueFields(b), EnumValueMerger(b))
  {
    var step := EnumValueStep(utf8);
    FieldFits(EnumValueFields(b), 10, b.name);
    var g1 := (m: EnumValue) => m.(name := MergeBytes(m.name, b.name));
    var g2 := (m: EnumValue) => m.(value := MergeInt(m.value, b.value));
    StringDoes(step, 10, utf8, b.name, g1);
    IntDoes(step, 16, b.value, g2);
    DoesThen(step, BytesField(10, b.name), g1, IntField(16, b.value), g2, EnumValueMerger(b));
  }

  // ---- repeated fields ----

  lemma {:induction false} RepeatedDoes<S(!new), M(!new)>(
    step: Step<M>, tag: nat, encode: S -> Bytes, xs: seq<S>, add: (M, seq<S>) -> M)
    requires forall x :: x in xs ==> Does(step, [Blob(tag, encode(x))], (m: M) => add(m, [x]))
    requires forall m :: add(m, []) == m
    requires forall m, a, b {:trigger add(add(m, a), b)} :: add(add(m, a), b) == add(m, a + b)
    ensures Does(step, Blobs(tag, encode, xs), (m: M) => add(m, xs))
  {
    if xs == [] {
      DoesNothing(step, (m: M) => add(m, xs));
    } else {
      var x, more := xs[0], xs[1..];
      RepeatedDoes(step, tag, encode, more, add);
      assert [x] + more == xs;
      DoesThen(step, [Blob(tag, encode(x))], (m: M) => add(m, [x]), Blobs(tag, encode, more), (m: M) => add(m, more),
        (m: M) => add(m, xs));
    }
  }

  lemma BlobsFit<S>(tag: nat, encode: S -> Bytes, xs: seq<S>, x: S)
    requires x in xs
    ensures Blob(tag, encode(x)) in Blobs(tag, encode, xs)
  {
    if x != xs[0] {
      BlobsFit(tag, encode, xs[1..], x);
    }
  }

  // ---- Type ----

  lemma NewRecordField(x: RecordField)
    ensures MergeRecordField(NO_RECORD_FIELD, x) == x
  {
  }

  lemma TypeTakesField(utf8: Utf8, skip: Skip, m: Type, s: Bytes, x: RecordField, rest: Bytes)
    requires ReadMessage(RecordFieldStep(utf8, skip), skip, NO_RECORD_FIELD, s) == Ok(x, rest)
    ensures TypeStep(utf8, skip)(m, 170, s) == Took(m.(field := m.field + [x]), rest)
  {
    var r := ReadMessage(RecordFieldStep(utf8, skip), skip, NO_RECORD_FIELD, s);
    assert TypeStepAt(utf8, skip, m, 170, s) == Took(m.(field := m.field + [r.value]), r.rest);
  }

  lemma TypeTakesValue(utf8: Utf8, skip: Skip, m: Type, s: Bytes, x: EnumValue, rest: Bytes)
    requires ReadMessage(EnumValueStep(utf8), skip, NO_ENUM_VALUE, s) == Ok(x, rest)
    ensures TypeStep(utf8, skip)(m, 242, s) == Took(m.(value := m.value + [x]), rest)
  {
    var r := ReadMessage(EnumValueStep(utf8), skip, NO_ENUM_VALUE, s);
    assert TypeStepAt(utf8, skip, m, 242, s) == Took(m.(value := m.value + [r.value]), r.rest);
  }

  lemma TypeTakesPacked(utf8: Utf8, skip: Skip, m: Type, s: Bytes, vs: seq<int32>, rest: Bytes)
    requires ReadPacked(s) == Ok(vs, rest)
    ensures TypeStep(utf8, skip)(m, 210, s) == Took(m.(paramType := m.paramType + vs), rest)
  {
    var r := ReadPacked(s);
    assert TypeStepAt(utf8, skip, m, 210, s) == Took(m.(paramType := m.paramType + r.value), r.rest);
  }

  lemma FieldElement(utf8: Utf8, skip: Skip, x: RecordField)
    requires GoodRecordField(utf8, x) && |EncodeRecordField(x)| < TWO_TO_31
    ensures Does(TypeStep(utf8, skip), [Blob(170, EncodeRecordField(x))], (m: Type) => m.(field := m.field + [x]))
  {
    var step, f := TypeStep(utf8, skip), (m: Type) => m.(field := m.field + [x]);
    var e := Blob(170, EncodeRecordField(x));
    RecordFieldDoes(utf8, skip, x);
    NewRecordField(x);
    forall m, rest {:trigger step(m, 170, Payload(e) + rest)}
      ensures step(m, 170, Payload(e) + rest) == Took(f(m), rest)
    {
      BlobReads(e.data, rest);
      SubMessageReads(RecordFieldStep(utf8, skip), skip, NO_RECORD_FIELD, RecordFieldFields(x), RecordFieldMerger(x),
        Payload(e) + rest, rest);
      TypeTakesField(utf8, skip, m, Payload(e) + rest, x, rest);
    }
    DoesOne(step, e, f);
  }

  lemma ValueElement(utf8: Utf8, skip: Skip, x: EnumValue)
    requires GoodEnumValue(utf8, x) && |EncodeEnumValue(x)| < TWO_TO_31
    ensures Does(TypeStep(utf8, skip), [Blob(242, EncodeEnumValue(x))], (m: Type) => m.(value := m.value + [x]))
  {
    var step, f := TypeStep(utf8, skip), (m: Type) => m.(value := m.value + [x]);
    var e := Blob(242, EncodeEnumValue(x));
    EnumValueDoes(utf8, x);
    assert MergeEnumValue(NO_ENUM_VALUE, x) == x;
    forall m, rest {:trigger step(m, 242, Payload(e) + rest)}
      ensures step(m, 242, Payload(e) + rest) == Took(f(m), rest)
    {
      BlobReads(e.data, rest);
      SubMessageReads(EnumValueStep(utf8), skip, NO_ENUM_VALUE, EnumValueFields(x), EnumValueMerger(x),
        Payload(e) + rest, rest);
      TypeTakesValue(utf8, skip, m, Payload(e) + rest, x, rest);
    }
    DoesOne(step, e, f);
  }

  lemma {:induction false} IntsRead(vs: seq<int32>)
    ensures ReadInts(Join(EncodeInt, vs)) == Some(vs)
  {
    if vs != [] {
      var more := Join(EncodeInt, vs[1..]);
      Int32Reads(vs[0], more);
      IntsRead(vs[1..]);
      assert [vs[0]] + vs[1..] == vs;
      VarintNotEmpty(ToWire(vs[0]));
    }
  }

  lemma VarintNotEmpty(n: nat)
    ensures Varint(n) != []
  {
  }

  lemma PackedDoes(utf8: Utf8, skip: Skip, vs: seq<int32>)
    requires |Join(EncodeInt, vs)| < TWO_TO_31
    ensures Does(TypeStep(utf8, skip), PackedField(210, vs), (m: Type) => m.(paramType := m.paramType + vs))
  {
    var step, f := TypeStep(utf8, skip), (m: Type) => m.(paramType := m.paramType + vs);
    if vs == [] {
      forall m ensures f(m) == m {
        assert m.paramType + [] == m.paramType;
      }
      DoesNothing(step, f);
    } else {
      var e := Blob(210, Join(EncodeInt, vs));
      IntsRead(vs);
      forall m, rest {:trigger step(m, 210, Payload(e) + rest)}
        ensures step(m, 210, Payload(e) + rest) == Took(f(m), rest)
      {
        BlobReads(e.data, rest);
        assert ReadPacked(Payload(e) + rest) == Ok(vs, rest);
        TypeTakesPacked(utf8, skip, m, Payload(e) + rest, vs, rest);
      }
      DoesOne(step, e, f);
    }
  }

  lemma TypeIntDoes(utf8: Utf8, skip: Skip, tag: nat, v: int32)
    requires TypeIntTag(tag)
    ensures Does(TypeStep(utf8, skip), IntField(tag, v), (m: Type) => if v != 0 then SetTypeInt(m, tag, v) else m)
  {
    IntDoes(TypeStep(utf8, skip), tag, v, (m: Type) => if v != 0 then SetTypeInt(m, tag, v) else m);
  }

  lemma TypeBoolDoes(utf8: Utf8, skip: Skip, tag: nat, b: bool)
    requires TypeBoolTag(tag)
    ensures Does(TypeStep(utf8, skip), BoolField(tag, b), (m: Type) => if b then SetTypeBool(m, tag, b) else m)
  {
    BoolDoes(TypeStep(utf8, skip), tag, b, (m: Type) => if b then SetTypeBool(m, tag, b) else m);
  }

  lemma HeadDoes(utf8: Utf8, skip: Skip, b: Type)
    ensures Does(TypeStep(utf8, skip), TypeHead(b), (m: Type) =>
      m.(id := MergeInt(m.id, b.id), kind := MergeInt(m.kind, b.kind),
        referencedType := MergeInt(m.referencedType, b.referencedType),
         isBlockPointer := m.isBlockPointer || b.isBlockPointer))
  {
    var step := TypeStep(utf8, skip);
    var g1 := (m: Type) => if b.id != 0 then SetTypeInt(m, 8, b.id) else m;
    var g2 := (m: Type) => if b.kind != 0 then SetTypeInt(m, 16, b.kind) else m;
    var g3 := (m: Type) => if b.referencedType != 0 then SetTypeInt(m, 40, b.referencedType) else m;
    var g4 := (m: Type) => if b.isBlockPointer then SetTypeBool(m, 48, b.isBlockPointer) else m;
    TypeIntDoes(utf8, skip, 8, b.id);
    TypeIntDoes(utf8, skip, 16, b.kind);
    TypeIntDoes(utf8, skip, 40, b.referencedType);
    TypeBoolDoes(utf8, skip, 48, b.isBlockPointer);
    var e4 := BoolField(48, b.isBlockPointer);
    var e3 := IntField(40, b.referencedType) + e4;
    var e2 := IntField(16, b.kind) + e3;
    DoesThen(step, IntField(40, b.referencedType), g3, e4, g4, (m: Type) => g4(g3(m)));
    DoesThen(step, IntField(16, b.kind), g2, e3, (m: Type) => g4(g3(m)), (m: Type) => g4(g3(g2(m))));
    DoesThen(step, IntField(8, b.id), g1, e2, (m: Type) => g4(g3(g2(m))), (m: Type) =>
      m.(id := MergeInt(m.id, b.id), kind := MergeInt(m.kind, b.kind),
        referencedType := MergeInt(m.referencedType, b.referencedType),
         isBlockPointer := m.isBlockPointer || b.isBlockPointer));
  }

  lemma SizesDo(utf8: Utf8, skip: Skip, b: Type)
    ensures Does(TypeStep(utf8, skip), TypeSizes(b), (m: Type) =>
      m.(elementType := MergeInt(m.elementType, b.elementType), size := MergeInt(m.size, b.size),
         primitiveKind := MergeInt(m.primitiveKind, b.primitiveKind),
           recordKind := MergeInt(m.recordKind, b.recordKind)))
  {
    var step := TypeStep(utf8, skip);
    var g1 := (m: Type) => if b.elementType != 0 then SetTypeInt(m, 80, b.elementType) else m;
    var g2 := (m: Type) => if b.size != 0 then SetTypeInt(m, 88, b.size) else m;
    var g3 := (m: Type) => if b.primitiveKind != 0 then SetTypeInt(m, 120, b.primitiveKind) else m;
    var g4 := (m: Type) => if b.recordKind != 0 then SetTypeInt(m, 160, b.recordKind) else m;
    TypeIntDoes(utf8, skip, 80, b.elementType);
    TypeIntDoes(utf8, skip, 88, b.size);
    TypeIntDoes(utf8, skip, 120, b.primitiveKind);
    TypeIntDoes(utf8, skip, 160, b.recordKind);
    var e4 := IntField(160, b.recordKind);
    var e3 := IntField(120, b.primitiveKind) + e4;
    var e2 := IntField(88, b.size) + e3;
    DoesThen(step, IntField(120, b.primitiveKind), g3, e4, g4, (m: Type) => g4(g3(m)));
    DoesThen(step, IntField(88, b.size), g2, e3, (m: Type) => g4(g3(m)), (m: Type) => g4(g3(g2(m))));
    DoesThen(step, IntField(80, b.elementType), g1, e2, (m: Type) => g4(g3(g2(m))), (m: Type) =>
      m.(elementType := MergeInt(m.elementType, b.elementType), size := MergeInt(m.size, b.size),
         primitiveKind := MergeInt(m.primitiveKind, b.primitiveKind),
           recordKind := MergeInt(m.recordKind, b.recordKind)));
  }

  lemma QualifiersDo(utf8: Utf8, skip: Skip, b: Type)
    ensures Does(TypeStep(utf8, skip), TypeQualifiers(b), (m: Type) =>
      m.(underlyingType := MergeInt(m.underlyingType, b.underlyingType), isConst := m.isConst
        || b.isConst, isVolatile := m.isVolatile || b.isVolatile))
  {
    var step := TypeStep(utf8, skip);
    var g1 := (m: Type) => if b.underlyingType != 0 then SetTypeInt(m, 392, b.underlyingType) else m;
    var g2 := (m: Type) => if b.isConst then SetTypeBool(m, 400, b.isConst) else m;
    var g3 := (m: Type) => if b.isVolatile then SetTypeBool(m, 408, b.isVolatile) else m;
    TypeIntDoes(utf8, skip, 392, b.underlyingType);
    TypeBoolDoes(utf8, skip, 400, b.isConst);
    TypeBoolDoes(utf8, skip, 408, b.isVolatile);
    DoesThen(step, BoolField(400, b.isConst), g2, BoolField(408, b.isVolatile), g3, (m: Type) => g3(g2(m)));
    DoesThen(step, IntField(392, b.underlyingType), g1, BoolField(400, b.isConst) + BoolField(408, b.isVolatile),
      (m: Type) => g3(g2(m)), (m: Type) =>
      m.(underlyingType := MergeInt(m.underlyingType, b.underlyingType), isConst := m.isConst
        || b.isConst, isVolatile := m.isVolatile || b.isVolatile));
  }

  function AddFields(m: Type, xs: seq<RecordField>): Type { m.(field := m.field + xs) }
  function AddValues(m: Type, xs: seq<EnumValue>): Type { m.(value := m.value + xs) }

  lemma FieldsDo(utf8: Utf8, skip: Skip, xs: seq<RecordField>)
    requires forall x :: x in xs ==> GoodRecordField(utf8, x) && |EncodeRecordField(x)| < TWO_TO_31
    ensures Does(TypeStep(utf8, skip), Blobs(170, EncodeRecordField, xs), (m: Type) => AddFields(m, xs))
  {
    forall x | x in xs
      ensures Does(TypeStep(utf8, skip), [Blob(170, EncodeRecordField(x))], (m: Type) => AddFields(m, [x]))
    {
      FieldElement(utf8, skip, x);
    }
    forall m ensures AddFields(m, []) == m {
      assert m.field + [] == m.field;
    }
    forall m, a, b ensures AddFields(AddFields(m, a), b) == AddFields(m, a + b) {
      assert m.field + a + b == m.field + (a + b);
    }
    RepeatedDoes(TypeStep(utf8, skip), 170, EncodeRecordField, xs, AddFields);
  }

  lemma ValuesDo(utf8: Utf8, skip: Skip, xs: seq<EnumValue>)
    requires forall x :: x in xs ==> GoodEnumValue(utf8, x) && |EncodeEnumValue(x)| < TWO_TO_31
    ensures Does(TypeStep(utf8, skip), Blobs(242, EncodeEnumValue, xs), (m: Type) => AddValues(m, xs))
  {
    forall x | x in xs
      ensures Does(TypeStep(utf8, skip), [Blob(242, EncodeEnumValue(x))], (m: Type) => AddValues(m, [x]))
    {
      ValueElement(utf8, skip, x);
    }
    forall m ensures AddValues(m, []) == m {
      assert m.value + [] == m.value;
    }
    forall m, a, b ensures AddValues(AddValues(m, a), b) == AddValues(m, a + b) {
      assert m.value + a + b == m.value + (a + b);
    }
    RepeatedDoes(TypeStep(utf8, skip), 242, EncodeEnumValue, xs, AddValues);
  }

  lemma PartsDo(utf8: Utf8, skip: Skip, b: Type)
    requires forall x :: x in b.field ==> GoodRecordField(utf8, x) && |EncodeRecordField(x)| < TWO_TO_31
    requires forall x :: x in b.value ==> GoodEnumValue(utf8, x) && |EncodeEnumValue(x)| < TWO_TO_31
    requires |Join(EncodeInt, b.paramType)| < TWO_TO_31
    ensures Does(TypeStep(utf8, skip), TypeParts(b), (m: Type) =>
      m.(field := m.field + b.field, returnType := MergeInt(m.returnType, b.returnType),
        paramType := m.paramType + b.paramType, value := m.value + b.value))
  {
    var step := TypeStep(utf8, skip);
    var g1 := (m: Type) => AddFields(m, b.field);
    var g2 := (m: Type) => if b.returnType != 0 then SetTypeInt(m, 200, b.returnType) else m;
    var g3 := (m: Type) => m.(paramType := m.paramType + b.paramType);
    var g4 := (m: Type) => AddValues(m, b.value);
    FieldsDo(utf8, skip, b.field);
    TypeIntDoes(utf8, skip, 200, b.returnType);
    PackedDoes(utf8, skip, b.paramType);
    ValuesDo(utf8, skip, b.value);
    var e4 := Blobs(242, EncodeEnumValue, b.value);
    var e3 := PackedField(210, b.paramType) + e4;
    var e2 := IntField(200, b.returnType) + e3;
    DoesThen(step, PackedField(210, b.paramType), g3, e4, g4, (m: Type) => g4(g3(m)));
    DoesThen(step, IntField(200, b.returnType), g2, e3, (m: Type) => g4(g3(m)), (m: Type) => g4(g3(g2(m))));
    DoesThen(step, Blobs(170, EncodeRecordField, b.field), g1, e2, (m: Type) => g4(g3(g2(m))), (m: Type) =>
      m.(field := m.field + b.field, returnType := MergeInt(m.returnType, b.returnType),
        paramType := m.paramType + b.paramType, value := m.value + b.value));
  }

  /** The parts of a type are shorter than the type. */
  lemma TypeFits(b: Type)
    ensures forall x :: x in b.field ==> |EncodeRecordField(x)| <= |EncodeType(b)|
    ensures forall x :: x in b.value ==> |EncodeEnumValue(x)| <= |EncodeType(b)|
    ensures |Join(EncodeInt, b.paramType)| <= |EncodeType(b)|
  {
    forall x | x in b.field ensures |EncodeRecordField(x)| <= |EncodeType(b)| {
      BlobsFit(170, EncodeRecordField, b.field, x);
      EntryFits(TypeFields(b), Blob(170, EncodeRecordField(x)));
    }
    forall x | x in b.value ensures |EncodeEnumValue(x)| <= |EncodeType(b)| {
      BlobsFit(242, EncodeEnumValue, b.value, x);
      EntryFits(TypeFields(b), Blob(242, EncodeEnumValue(x)));
    }
    if b.paramType != [] {
      EntryFits(TypeFields(b), Blob(210, Join(EncodeInt, b.paramType)));
    }
  }

  function TypeMerger(b: Type): Type -> Type { (m: Type) => MergeType(m, b) }

  lemma TypeDoes(utf8: Utf8, skip: Skip, b: Type)
    requires GoodType(utf8, b) && |EncodeType(b)| < TWO_TO_31
    ensures Does(TypeStep(utf8, skip), TypeFields(b), TypeMerger(b))
  {
    var step := TypeStep(utf8, skip);
    var g1 := (m: Type) =>
      m.(id := MergeInt(m.id, b.id), kind := MergeInt(m.kind, b.kind),
        referencedType := MergeInt(m.referencedType, b.referencedType),
         isBlockPointer := m.isBlockPointer || b.isBlockPointer);
    var g2 := (m: Type) =>
      m.(elementType := MergeInt(m.elementType, b.elementType), size := MergeInt(m.size, b.size),
         primitiveKind := MergeInt(m.primitiveKind, b.primitiveKind),
           recordKind := MergeInt(m.recordKind, b.recordKind));
    var g3 := (m: Type) =>
      m.(field := m.field + b.field, returnType := MergeInt(m.returnType, b.returnType),
        paramType := m.paramType + b.paramType, value := m.value + b.value);
    var g4 := (m: Type) =>
      m.(underlyingType := MergeInt(m.underlyingType, b.underlyingType), isConst := m.isConst
        || b.isConst, isVolatile := m.isVolatile || b.isVolatile);
    TypeFits(b);
    HeadDoes(utf8, skip, b);
    SizesDo(utf8, skip, b);
    PartsDo(utf8, skip, b);
    QualifiersDo(utf8, skip, b);
    DoesThen(step, TypeParts(b), g3, TypeQualifiers(b), g4, (m: Type) => g4(g3(m)));
    DoesThen(step, TypeSizes(b), g2, TypeParts(b) + TypeQualifiers(b), (m: Type) => g4(g3(m)),
      (m: Type) => g4(g3(g2(m))));
    DoesThen(step, TypeHead(b), g1, TypeSizes(b) + (TypeParts(b) + TypeQualifiers(b)), (m: Type) => g4(g3(g2(m))),
      TypeMerger(b));
  }

  // ---- Catalog ----

  function AddTypes(m: Catalog, xs: seq<Type>): Catalog { m.(type_ := m.type_ + xs) }
  function AddExports(m: Catalog, xs: seq<Export>): Catalog { m.(export_ := m.export_ + xs) }

  lemma NewType(x: Type)
    ensures MergeType(NO_TYPE, x) == x
  {
    assert [] + x.field == x.field && [] + x.paramType == x.paramType && [] + x.value == x.value;
  }

  lemma TypeElement(utf8: Utf8, skip: Skip, x: Type)
    requires GoodType(utf8, x) && |EncodeType(x)| < TWO_TO_31
    ensures Does(CatalogStep(utf8, skip), [Blob(10, EncodeType(x))], (m: Catalog) => AddTypes(m, [x]))
  {
    var step, f := CatalogStep(utf8, skip), (m: Catalog) => AddTypes(m, [x]);
    var e := Blob(10, EncodeType(x));
    TypeDoes(utf8, skip, x);
    NewType(x);
    forall m, rest {:trigger step(m, 10, Payload(e) + rest)}
      ensures step(m, 10, Payload(e) + rest) == Took(f(m), rest)
    {
      BlobReads(e.data, rest);
      SubMessageReads(TypeStep(utf8, skip), skip, NO_TYPE, TypeFields(x), TypeMerger(x), Payload(e) + rest, rest);
    }
    DoesOne(step, e, f);
  }

  lemma ExportElement(utf8: Utf8, skip: Skip, x: Export)
    requires GoodExport(utf8, x) && |EncodeExport(x)| < TWO_TO_31
    ensures Does(CatalogStep(utf8, skip), [Blob(18, EncodeExport(x))], (m: Catalog) => AddExports(m, [x]))
  {
    var step, f := CatalogStep(utf8, skip), (m: Catalog) => AddExports(m, [x]);
    var e := Blob(18, EncodeExport(x));
    ExportDoes(utf8, skip, x);
    assert MergeExport(NO_EXPORT, x) == x;
    forall m, rest {:trigger step(m, 18, Payload(e) + rest)}
      ensures step(m, 18, Payload(e) + rest) == Took(f(m), rest)
    {
      BlobReads(e.data, rest);
      SubMessageReads(ExportStep(utf8, skip), skip, NO_EXPORT, ExportFields(x), ExportMerger(x), Payload(e) + rest,
        rest);
    }
    DoesOne(step, e, f);
  }

  lemma TypesDo(utf8: Utf8, skip: Skip, xs: seq<Type>)
    requires forall x :: x in xs ==> GoodType(utf8, x) && |EncodeType(x)| < TWO_TO_31
    ensures Does(CatalogStep(utf8, skip), Blobs(10, EncodeType, xs), (m: Catalog) => AddTypes(m, xs))
  {
    forall x | x in xs
      ensures Does(CatalogStep(utf8, skip), [Blob(10, EncodeType(x))], (m: Catalog) => AddTypes(m, [x]))
    {
      TypeElement(utf8, skip, x);
    }
    forall m ensures AddTypes(m, []) == m {
      assert m.type_ + [] == m.type_;
    }
    forall m, a, b ensures AddTypes(AddTypes(m, a), b) == AddTypes(m, a + b) {
      assert m.type_ + a + b == m.type_ + (a + b);
    }
    RepeatedDoes(CatalogStep(utf8, skip), 10, EncodeType, xs, AddTypes);
  }

  lemma ExportsDo(utf8: Utf8, skip: Skip, xs: seq<Export>)
    requires forall x :: x in xs ==> GoodExport(utf8, x) && |EncodeExport(x)| < TWO_TO_31
    ensures Does(CatalogStep(utf8, skip), Blobs(18, EncodeExport, xs), (m: Catalog) => AddExports(m, xs))
  {
    forall x | x in xs
      ensures Does(CatalogStep(utf8, skip), [Blob(18, EncodeExport(x))], (m: Catalog) => AddExports(m, [x]))
    {
      ExportElement(utf8, skip, x);
    }
    forall m ensures AddExports(m, []) == m {
      assert m.export_ + [] == m.export_;
    }
    forall m, a, b ensures AddExports(AddExports(m, a), b) == AddExports(m, a + b) {
      assert m.export_ + a + b == m.export_ + (a + b);
    }
    RepeatedDoes(CatalogStep(utf8, skip), 18, EncodeExport, xs, AddExports);
  }

  lemma CatalogFits(b: Catalog)
    ensures forall x :: x in b.type_ ==> |EncodeType(x)| <= |EncodeCatalog(b)|
    ensures forall x :: x in b.export_ ==> |EncodeExport(x)| <= |EncodeCatalog(b)|
  {
    forall x | x in b.type_ ensures |EncodeType(x)| <= |EncodeCatalog(b)| {
      BlobsFit(10, EncodeType, b.type_, x);
      EntryFits(CatalogFields(b), Blob(10, EncodeType(x)));
    }
    forall x | x in b.export_ ensures |EncodeExport(x)| <= |EncodeCatalog(b)| {
      BlobsFit(18, EncodeExport, b.export_, x);
      EntryFits(CatalogFields(b), Blob(18, EncodeExport(x)));
    }
  }

  function CatalogMerger(b: Catalog): Catalog -> Catalog { (m: Catalog) => MergeCatalog(m, b) }

  lemma CatalogDoes(utf8: Utf8, skip: Skip, b: Catalog)
    requires GoodCatalog(utf8, b) && |EncodeCatalog(b)| < TWO_TO_31
    ensures Does(CatalogStep(utf8, skip), CatalogFields(b), CatalogMerger(b))
  {
    CatalogFits(b);
    TypesDo(utf8, skip, b.type_);
    ExportsDo(utf8, skip, b.export_);
    DoesThen(CatalogStep(utf8, skip), Blobs(10, EncodeType, b.type_), (m: Catalog) => AddTypes(m, b.type_),
             Blobs(18, EncodeExport, b.export_), (m: Catalog) => AddExports(m, b.export_), CatalogMerger(b));
  }

  // ---- the laws ----

  lemma NewCatalog(a: Catalog)
    ensures MergeCatalog(NO_CATALOG, a) == a
  {
    assert [] + a.type_ == a.type_ && [] + a.export_ == a.export_;
  }

  /** Parsing one encoding after the other merges the messages, and uses up the input. */
  lemma ParseMerges(utf8: Utf8, skip: Skip, a: Catalog, b: Catalog)
    requires GoodCatalog(utf8, a) && |EncodeCatalog(a)| < TWO_TO_31 && GoodCatalog(utf8, b)
    requires |EncodeCatalog(b)| < TWO_TO_31
    ensures Parse(CatalogStep(utf8, skip), skip, NO_CATALOG, EncodeCatalog(a) + EncodeCatalog(b))
      == Parsed(MergeCatalog(a, b), [], true)
    ensures Parse(CatalogStep(utf8, skip), skip, NO_CATALOG, EncodeCatalog(a)) == Parsed(a, [], true)
  {
    var step := CatalogStep(utf8, skip);
    CatalogDoes(utf8, skip, a);
    CatalogDoes(utf8, skip, b);
    NewCatalog(a);
    DoesParse(step, skip, CatalogFields(a), CatalogMerger(a), NO_CATALOG, EncodeCatalog(b));
    DoesParse(step, skip, CatalogFields(b), CatalogMerger(b), a, []);
    DoesParse(step, skip, CatalogFields(a), CatalogMerger(a), NO_CATALOG, []);
    assert EncodeCatalog(b) + [] == EncodeCatalog(b) && EncodeCatalog(a) + [] == EncodeCatalog(a);
  }

  /** The same for a single type. */
  lemma TypeParseMerges(utf8: Utf8, skip: Skip, a: Type, b: Type)
    requires GoodType(utf8, a) && |EncodeType(a)| < TWO_TO_31 && GoodType(utf8, b) && |EncodeType(b)| < TWO_TO_31
    ensures Parse(TypeStep(utf8, skip), skip, NO_TYPE, EncodeType(a) + EncodeType(b))
      == Parsed(MergeType(a, b), [], true)
    ensures Parse(TypeStep(utf8, skip), skip, NO_TYPE, EncodeType(a)) == Parsed(a, [], true)
  {
    var step := TypeStep(utf8, skip);
    TypeDoes(utf8, skip, a);
    TypeDoes(utf8, skip, b);
    NewType(a);
    DoesParse(step, skip, TypeFields(a), TypeMerger(a), NO_TYPE, EncodeType(b));
    DoesParse(step, skip, TypeFields(b), TypeMerger(b), a, []);
    DoesParse(step, skip, TypeFields(a), TypeMerger(a), NO_TYPE, []);
    assert EncodeType(b) + [] == EncodeType(b) && EncodeType(a) + [] == EncodeType(a);
  }
}
