/** The second serializer: the same bytes, written through a cursor into an array that is large enough. */
module ArrayCode {
  import opened Options
  import opened Wire
  import opened Messages
  import opened MessageSizes
  import opened MessageCode

  function Overwritten(m: Bytes, at: nat, d: Bytes): Bytes
    requires at + |d| <= |m|
  {
    m[..at] + d + m[at + |d|..]
  }

  /** The array as it was, and where writing began. */
  datatype Trace = Trace(was: Bytes, start: nat)

  /** From the start up to the cursor the array holds done; everything else is as it was. */
  ghost predicate At(target: array<byte>, at: nat, tr: Trace, done: Bytes)
    reads target
  {
    |tr.was| == target.Length && tr.start + |done| <= |tr.was| && at == tr.start + |done|
      && target[..] == Overwritten(tr.was, tr.start, done)
  }

  lemma OneByte(m: Bytes, at: nat, d: Bytes, b: byte)
    requires at + |d| < |m|
    ensures Overwritten(m, at, d)[at + |d| := b] == Overwritten(m, at, d + [b])
  {
  }

  method PutByte(b: byte, target: array<byte>, at: nat, ghost tr: Trace, ghost before: Bytes) returns (next: nat)
    requires At(target, at, tr, before) && at < target.Length
    modifies target
    ensures At(target, next, tr, before + [b])
  {
    OneByte(tr.was, tr.start, before, b);
    ghost var m := target[..];
    target[at] := b;
    assert target[..] == m[at := b];
    next := at + 1;
  }

  method PutVarint(n: nat, target: array<byte>, at: nat, ghost tr: Trace, ghost before: Bytes) returns (next: nat)
    requires At(target, at, tr, before) && at + |Varint(n)| <= target.Length
    modifies target
    ensures At(target, next, tr, before + Varint(n))
  {
    var left := n;
    next := at;
    ghost var done: Bytes := [];
    while left >= 128
      invariant At(target, next, tr, before + done) && done + Varint(left) == Varint(n)
      decreases left
    {
      Associate(before, done, [128 + left % 128]);
      next := PutByte(128 + left % 128, target, next, tr, before + done);
      done := done + [128 + left % 128];
      left := left / 128;
    }
    Associate(before, done, [left]);
    next := PutByte(left, target, next, tr, before + done);
  }

  method PutRaw(s: Bytes, target: array<byte>, at: nat, ghost tr: Trace, ghost before: Bytes) returns (next: nat)
    requires At(target, at, tr, before) && at + |s| <= target.Length
    modifies target
    ensures At(target, next, tr, before + s)
  {
    next := at;
    var i := 0;
    while i < |s|
      invariant 0 <= i <= |s| && At(target, next, tr, before + s[..i])
    {
      assert before + s[..i + 1] == before + s[..i] + [s[i]];
      next := PutByte(s[i], target, next, tr, before + s[..i]);
      i := i + 1;
    }
    assert s[..i] == s;
  }

  method PutInt(tag: nat, v: int32, target: array<byte>, at: nat, ghost tr: Trace, ghost before: Bytes)
    returns (next: nat)
    requires At(target, at, tr, before) && at + |IntPiece(tag, v)| <= target.Length
    modifies target
    ensures At(target, next, tr, before + IntPiece(tag, v))
  {
    next := at;
    if v != 0 {
      OneEntry(Num(tag, ToWire(v)));
      Associate(before, Varint(tag), Varint(ToWire(v)));
      next := PutVarint(tag, target, next, tr, before);
      next := PutVarint(ToWire(v), target, next, tr, before + Varint(tag));
    } else {
      assert before + [] == before;
    }
  }

  method PutBool(tag: nat, b: bool, target: array<byte>, at: nat, ghost tr: Trace, ghost before: Bytes)
    returns (next: nat)
    requires At(target, at, tr, before) && at + |BoolPiece(tag, b)| <= target.Length
    modifies target
    ensures At(target, next, tr, before + BoolPiece(tag, b))
  {
    next := at;
    if b {
      OneEntry(Num(tag, 1));
      Associate(before, Varint(tag), [1]);
      next := PutVarint(tag, target, next, tr, before);
      next := PutByte(1, target, next, tr, before + Varint(tag));
    } else {
      assert before + [] == before;
    }
  }

  method PutBytes(tag: nat, s: Bytes, target: array<byte>, at: nat, ghost tr: Trace, ghost before: Bytes)
    returns (next: nat)
    requires At(target, at, tr, before) && at + |BytesPiece(tag, s)| <= target.Length
    modifies target
    ensures At(target, next, tr, before + BytesPiece(tag, s))
  {
    next := at;
    if |s| > 0 {
      BlobPieces(before, tag, s);
      next := PutVarint(tag, target, next, tr, before);
      next := PutVarint(|s|, target, next, tr, before + Varint(tag));
      next := PutRaw(s, target, next, tr, before + Varint(tag) + Varint(|s|));
    } else {
      assert before + [] == before;
    }
  }

  lemma BlobPieces(before: Bytes, tag: nat, s: Bytes)
    ensures before + EncodeAll([Blob(tag, s)]) == before + Varint(tag) + Varint(|s|) + s
  {
    OneEntry(Blob(tag, s));
    Associate(before, Varint(tag), Varint(|s|) + s);
    Associate(before + Varint(tag), Varint(|s|), s);
  }

  method ValueToArray(v: Value, target: array<byte>, at: nat, ghost tr: Trace, ghost before: Bytes) returns (next: nat)
    requires At(target, at, tr, before) && at + |EncodeValue(v)| <= target.Length
    modifies target
    ensures At(target, next, tr, before + EncodeValue(v))
  {
    Pieces3(before, IntField(8, v.typeId), BytesField(42, v.mangledName), BytesField(82, v.value));
    next := PutInt(8, v.typeId, target, at, tr, before);
    next := PutBytes(42, v.mangledName, target, next, tr, before + IntPiece(8, v.typeId));
    next := PutBytes(82, v.value, target, next, tr, before + IntPiece(8, v.typeId) + BytesPiece(42, v.mangledName));
  }

  method PutSub(tag: nat, v: Option<Value>, target: array<byte>, at: nat, ghost tr: Trace, ghost before: Bytes)
    returns (next: nat)
    requires At(target, at, tr, before) && at + |SubPiece(tag, v)| <= target.Length
    requires v.Some? ==> ValueSize(v.value) < TWO_TO_31
    modifies target
    ensures At(target, next, tr, before + SubPiece(tag, v))
  {
    next := at;
    if v.Some? {
      ValueSizeIs(v.value);
      BlobPieces(before, tag, EncodeValue(v.value));
      next := PutVarint(tag, target, next, tr, before);
      next := PutVarint(ValueSize(v.value), target, next, tr, before + Varint(tag));
      next := ValueToArray(v.value, target, next, tr, before + Varint(tag) + Varint(ValueSize(v.value)));
    } else {
      assert before + [] == before;
    }
  }

  method RecordFieldToArray(f: RecordField, target: array<byte>, at: nat, ghost tr: Trace, ghost before: Bytes)
    returns (next: nat)
    requires At(target, at, tr, before) && at + |EncodeRecordField(f)| <= target.Length
    requires RecordFieldSize(f) < TWO_TO_31
    modifies target
    ensures At(target, next, tr, before + EncodeRecordField(f))
  {
    Pieces3(before, BytesField(10, f.name), IntField(16, f.type_), SubField(26, f.defaultValue));
    next := PutBytes(10, f.name, target, at, tr, before);
    next := PutInt(16, f.type_, target, next, tr, before + BytesPiece(10, f.name));
    next := PutSub(26, f.defaultValue, target, next, tr, before + BytesPiece(10, f.name) + IntPiece(16, f.type_));
  }

  method EnumValueToArray(e: EnumValue, target: array<byte>, at: nat, ghost tr: Trace, ghost before: Bytes)
    returns (next: nat)
    requires At(target, at, tr, before) && at + |EncodeEnumValue(e)| <= target.Length
    modifies target
    ensures At(target, next, tr, before + EncodeEnumValue(e))
  {
    Pieces2(before, BytesField(10, e.name), IntField(16, e.value));
    next := PutBytes(10, e.name, target, at, tr, before);
    next := PutInt(16, e.value, target, next, tr, before + BytesPiece(10, e.name));
  }

  method ExportToArray(e: Export, target: array<byte>, at: nat, ghost tr: Trace, ghost before: Bytes)
    returns (next: nat)
    requires At(target, at, tr, before) && at + |EncodeExport(e)| <= target.Length && ExportSize(e) < TWO_TO_31
    modifies target
    ensures At(target, next, tr, before + EncodeExport(e))
  {
    Pieces3(before, BytesField(10, e.name), IntField(16, e.type_), SubField(26, e.value));
    next := PutBytes(10, e.name, target, at, tr, before);
    next := PutInt(16, e.type_, target, next, tr, before + BytesPiece(10, e.name));
    next := PutSub(26, e.value, target, next, tr, before + BytesPiece(10, e.name) + IntPiece(16, e.type_));
  }

  /** ups[i] is what the array holds when the first i elements have been written. */
  ghost predicate UpAt<T(!new)>(ups: seq<Bytes>, piece: seq<T> -> Bytes, xs: seq<T>, before: Bytes, i: int) {
    0 <= i < |ups| == |xs| + 1 && ups[i] == before + piece(xs[..i])
  }

  ghost predicate Ups<T(!new)>(ups: seq<Bytes>, piece: seq<T> -> Bytes, xs: seq<T>, before: Bytes) {
    |ups| == |xs| + 1 && forall i {:trigger UpAt(ups, piece, xs, before, i)} ::
      0 <= i <= |xs| ==> UpAt(ups, piece, xs, before, i)
  }

  lemma MakeUps<T(!new)>(piece: seq<T> -> Bytes, xs: seq<T>, before: Bytes) returns (ups: seq<Bytes>)
    requires piece([]) == []
    ensures Ups(ups, piece, xs, before) && ups[0] == before && ups[|xs|] == before + piece(xs)
  {
    ups := seq(|xs| + 1, i requires 0 <= i < |xs| + 1 => before + piece(xs[..i]));
    assert xs[..0] == [] && before + [] == before;
    assert xs[..|xs|] == xs;
  }

  lemma BlobsGrow<T>(tag: nat, encode: T -> Bytes, xs: seq<T>, i: nat)
    requires i <= |xs|
    ensures |EncodeAll(Blobs(tag, encode, xs[..i]))| <= |EncodeAll(Blobs(tag, encode, xs))|
    decreases |xs| - i
  {
    if i < |xs| {
      BlobsGrow(tag, encode, xs, i + 1);
      assert xs[..i + 1] == xs[..i] + [xs[i]];
      BlobsSplit(tag, encode, xs[..i], xs[i]);
      Lengths(Blobs(tag, encode, xs[..i]), [Blob(tag, encode(xs[i]))]);
    } else {
      assert xs[..i] == xs;
    }
  }

  method PutField(x: RecordField, target: array<byte>, at: nat, ghost tr: Trace, ghost before: Bytes)
    returns (next: nat)
    requires At(target, at, tr, before) && RecordFieldSize(x) < TWO_TO_31
    requires |before + Varint(170) + Varint(|EncodeRecordField(x)|) + EncodeRecordField(x)| <= target.Length - tr.start
    modifies target
    ensures At(target, next, tr, before + Varint(170) + Varint(|EncodeRecordField(x)|) + EncodeRecordField(x))
  {
    RecordFieldSizeIs(x);
    next := PutVarint(170, target, at, tr, before);
    next := PutVarint(RecordFieldSize(x), target, next, tr, before + Varint(170));
    next := RecordFieldToArray(x, target, next, tr, before + Varint(170) + Varint(RecordFieldSize(x)));
  }

  method PutFieldAt(xs: seq<RecordField>, i: nat, target: array<byte>, at: nat, ghost tr: Trace, ghost before: Bytes,
                    ghost ups: seq<Bytes>) returns (next: nat)
    requires i < |xs| && NestedSizes(RecordFieldSize, xs) < TWO_TO_31 && Ups(ups, FieldsPiece, xs, before)
    requires At(target, at, tr, ups[i])
    requires tr.start + |before| + |FieldsPiece(xs)| <= target.Length
    modifies target
    ensures At(target, next, tr, ups[i + 1])
  {
    assert UpAt(ups, FieldsPiece, xs, before, i) && UpAt(ups, FieldsPiece, xs, before, i + 1);
    NextField(before, xs, i);
    FieldsGrow(before, xs, i + 1);
    next := PutField(xs[i], target, at, tr, ups[i]);
  }

  method PutFields(xs: seq<RecordField>, target: array<byte>, at: nat, ghost tr: Trace, ghost before: Bytes)
    returns (next: nat)
    requires At(target, at, tr, before) && at + |FieldsPiece(xs)| <= target.Length
    requires NestedSizes(RecordFieldSize, xs) < TWO_TO_31
    modifies target
    ensures At(target, next, tr, before + FieldsPiece(xs))
  {
    ghost var ups := MakeUps(FieldsPiece, xs, before);
    next := PutFieldsOver(xs, target, at, tr, before, ups);
  }

  /** The loop of PutFields; ups are the bytes written before each round. */
  method PutFieldsOver(xs: seq<RecordField>, target: array<byte>, at: nat, ghost tr: Trace, ghost before: Bytes,
                       ghost ups: seq<Bytes>) returns (next: nat)
    requires Ups(ups, FieldsPiece, xs, before) && At(target, at, tr, ups[0])
    requires NestedSizes(RecordFieldSize, xs) < TWO_TO_31
    requires tr.start + |before| + |FieldsPiece(xs)| <= target.Length
    modifies target
    ensures At(target, next, tr, ups[|xs|])
  {
    next := at;
    var i := 0;
    while i < |xs|
      invariant 0 <= i <= |xs| && At(target, next, tr, ups[i])
    {
      next := PutFieldAt(xs, i, target, next, tr, before, ups);
      i := i + 1;
    }
  }

  lemma FieldsGrow(before: Bytes, xs: seq<RecordField>, i: nat)
    requires i <= |xs|
    ensures |before + FieldsPiece(xs[..i])| <= |before| + |FieldsPiece(xs)|
  {
    BlobsGrow(170, EncodeRecordField, xs, i);
  }

  method PutValue(x: EnumValue, target: array<byte>, at: nat, ghost tr: Trace, ghost before: Bytes) returns (next: nat)
    requires At(target, at, tr, before) && EnumValueSize(x) < TWO_TO_31
    requires |before + Varint(242) + Varint(|EncodeEnumValue(x)|) + EncodeEnumValue(x)| <= target.Length - tr.start
    modifies target
    ensures At(target, next, tr, before + Varint(242) + Varint(|EncodeEnumValue(x)|) + EncodeEnumValue(x))
  {
    EnumValueSizeIs(x);
    next := PutVarint(242, target, at, tr, before);
    next := PutVarint(EnumValueSize(x), target, next, tr, before + Varint(242));
    next := EnumValueToArray(x, target, next, tr, before + Varint(242) + Varint(EnumValueSize(x)));
  }

  method PutValueAt(xs: seq<EnumValue>, i: nat, target: array<byte>, at: nat, ghost tr: Trace, ghost before: Bytes,
                    ghost ups: seq<Bytes>) returns (next: nat)
    requires i < |xs| && NestedSizes(EnumValueSize, xs) < TWO_TO_31 && Ups(ups, ValuesPiece, xs, before)
    requires At(target, at, tr, ups[i])
    requires tr.start + |before| + |ValuesPiece(xs)| <= target.Length
    modifies target
    ensures At(target, next, tr, ups[i + 1])
  {
    assert UpAt(ups, ValuesPiece, xs, before, i) && UpAt(ups, ValuesPiece, xs, before, i + 1);
    NextValue(before, xs, i);
    ValuesGrow(before, xs, i + 1);
    next := PutValue(xs[i], target, at, tr, ups[i]);
  }

  method PutValues(xs: seq<EnumValue>, target: array<byte>, at: nat, ghost tr: Trace, ghost before: Bytes)
    returns (next: nat)
    requires At(target, at, tr, before) && at + |ValuesPiece(xs)| <= target.Length
    requires NestedSizes(EnumValueSize, xs) < TWO_TO_31
    modifies target
    ensures At(target, next, tr, before + ValuesPiece(xs))
  {
    ghost var ups := MakeUps(ValuesPiece, xs, before);
    next := PutValuesOver(xs, target, at, tr, before, ups);
  }

  /** The loop of PutValues; ups are the bytes written before each round. */
  method PutValuesOver(xs: seq<EnumValue>, target: array<byte>, at: nat, ghost tr: Trace, ghost before: Bytes,
                       ghost ups: seq<Bytes>) returns (next: nat)
    requires Ups(ups, ValuesPiece, xs, before) && At(target, at, tr, ups[0])
    requires NestedSizes(EnumValueSize, xs) < TWO_TO_31
    requires tr.start + |before| + |ValuesPiece(xs)| <= target.Length
    modifies target
    ensures At(target, next, tr, ups[|xs|])
  {
    next := at;
    var i := 0;
    while i < |xs|
      invariant 0 <= i <= |xs| && At(target, next, tr, ups[i])
    {
      next := PutValueAt(xs, i, target, next, tr, before, ups);
      i := i + 1;
    }
  }

  lemma ValuesGrow(before: Bytes, xs: seq<EnumValue>, i: nat)
    requires i <= |xs|
    ensures |before + ValuesPiece(xs[..i])| <= |before| + |ValuesPiece(xs)|
  {
    BlobsGrow(242, EncodeEnumValue, xs, i);
  }

  method PutPacked(vs: seq<int32>, target: array<byte>, at: nat, ghost tr: Trace, ghost before: Bytes)
    returns (next: nat)
    requires At(target, at, tr, before) && at + |EncodeAll(PackedField(210, vs))| <= target.Length
    requires PackedSize(vs) < TWO_TO_31
    modifies target
    ensures At(target, next, tr, before + EncodeAll(PackedField(210, vs)))
  {
    PackedPieces(before, vs);
    IntSizesAre(vs);
    next := at;
    ghost var prefix := before;
    if |vs| > 0 {
      next := PutVarint(210, target, next, tr, prefix);
      next := PutVarint(IntSizes(vs), target, next, tr, prefix + Varint(210));
      prefix := prefix + Varint(210) + Varint(IntSizes(vs));
    }
    next := PutInts(vs, target, next, tr, prefix);
  }

  method PutInts(vs: seq<int32>, target: array<byte>, at: nat, ghost tr: Trace, ghost before: Bytes) returns (next: nat)
    requires At(target, at, tr, before) && at + |Join(EncodeInt, vs)| <= target.Length
    modifies target
    ensures At(target, next, tr, before + Join(EncodeInt, vs))
  {
    next := at;
    assert before + Join(EncodeInt, vs[..0]) == before;
    var i := 0;
    while i < |vs|
      invariant 0 <= i <= |vs| && At(target, next, tr, before + Join(EncodeInt, vs[..i]))
    {
      NextInt(before, vs, i);
      next := PutVarint(ToWire(vs[i]), target, next, tr, before + Join(EncodeInt, vs[..i]));
      i := i + 1;
    }
    assert vs[..i] == vs;
  }

  lemma NextInt(before: Bytes, vs: seq<int32>, i: nat)
    requires i < |vs|
    ensures before + Join(EncodeInt, vs[..i + 1]) == before + Join(EncodeInt, vs[..i]) + Varint(ToWire(vs[i]))
    ensures |Join(EncodeInt, vs[..i + 1])| <= |Join(EncodeInt, vs)|
  {
    assert vs[..i + 1] == vs[..i] + [vs[i]] && vs == vs[..i + 1] + vs[i + 1..];
    JoinConcat(EncodeInt, vs[..i], [vs[i]]);
    JoinConcat(EncodeInt, vs[..i + 1], vs[i + 1..]);
    JoinOne(EncodeInt, vs[i]);
    Associate(before, Join(EncodeInt, vs[..i]), EncodeInt(vs[i]));
  }

  method TypeHeadToArray(t: Type, target: array<byte>, at: nat, ghost tr: Trace, ghost before: Bytes)
    returns (next: nat)
    requires At(target, at, tr, before) && at + |EncodeAll(TypeHead(t))| <= target.Length
    modifies target
    ensures At(target, next, tr, before + EncodeAll(TypeHead(t)))
  {
    Pieces4(before, IntField(8, t.id), IntField(16, t.kind), IntField(40, t.referencedType),
      BoolField(48, t.isBlockPointer));
    next := PutInt(8, t.id, target, at, tr, before);
    next := PutInt(16, t.kind, target, next, tr, before + IntPiece(8, t.id));
    next := PutInt(40, t.referencedType, target, next, tr, before + IntPiece(8, t.id) + IntPiece(16, t.kind));
    next := PutBool(48, t.isBlockPointer, target, next, tr,
      before + IntPiece(8, t.id) + IntPiece(16, t.kind) + IntPiece(40, t.referencedType));
  }

  method TypeSizesToArray(t: Type, target: array<byte>, at: nat, ghost tr: Trace, ghost before: Bytes)
    returns (next: nat)
    requires At(target, at, tr, before) && at + |EncodeAll(TypeSizes(t))| <= target.Length
    modifies target
    ensures At(target, next, tr, before + EncodeAll(TypeSizes(t)))
  {
    Pieces4(before, IntField(80, t.elementType), IntField(88, t.size), IntField(120, t.primitiveKind),
      IntField(160, t.recordKind));
    next := PutInt(80, t.elementType, target, at, tr, before);
    next := PutInt(88, t.size, target, next, tr, before + IntPiece(80, t.elementType));
    next := PutInt(120, t.primitiveKind, target, next, tr, before + IntPiece(80, t.elementType) + IntPiece(88, t.size));
    next := PutInt(160, t.recordKind, target, next, tr,
      before + IntPiece(80, t.elementType) + IntPiece(88, t.size) + IntPiece(120, t.primitiveKind));
  }

  method TypeQualifiersToArray(t: Type, target: array<byte>, at: nat, ghost tr: Trace, ghost before: Bytes)
    returns (next: nat)
    requires At(target, at, tr, before) && at + |EncodeAll(TypeQualifiers(t))| <= target.Length
    modifies target
    ensures At(target, next, tr, before + EncodeAll(TypeQualifiers(t)))
  {
    Pieces3(before, IntField(392, t.underlyingType), BoolField(400, t.isConst), BoolField(408, t.isVolatile));
    next := PutInt(392, t.underlyingType, target, at, tr, before);
    next := PutBool(400, t.isConst, target, next, tr, before + IntPiece(392, t.underlyingType));
    next := PutBool(408, t.isVolatile, target, next, tr,
      before + IntPiece(392, t.underlyingType) + BoolPiece(400, t.isConst));
  }

  method TypePartsToArray(t: Type, target: array<byte>, at: nat, ghost tr: Trace, ghost before: Bytes)
    returns (next: nat)
    requires At(target, at, tr, before) && at + |EncodeAll(TypeParts(t))| <= target.Length && TypeSize(t) < TWO_TO_31
    modifies target
    ensures At(target, next, tr, before + EncodeAll(TypeParts(t)))
  {
    Pieces4(before, Blobs(170, EncodeRecordField, t.field), IntField(200, t.returnType),
      PackedField(210, t.paramType), Blobs(242, EncodeEnumValue, t.value));
    next := PutFields(t.field, target, at, tr, before);
    next := PutInt(200, t.returnType, target, next, tr, before + FieldsPiece(t.field));
    next := PutPacked(t.paramType, target, next, tr, before + FieldsPiece(t.field) + IntPiece(200, t.returnType));
    next := PutValues(t.value, target, next, tr,
      before + FieldsPiece(t.field) + IntPiece(200, t.returnType) + EncodeAll(PackedField(210, t.paramType)));
  }

  method TypeToArray(t: Type, target: array<byte>, at: nat, ghost tr: Trace, ghost before: Bytes) returns (next: nat)
    requires At(target, at, tr, before) && at + |EncodeType(t)| <= target.Length && TypeSize(t) < TWO_TO_31
    modifies target
    ensures At(target, next, tr, before + EncodeType(t))
  {
    Pieces4(before, TypeHead(t), TypeSizes(t), TypeParts(t), TypeQualifiers(t));
    next := TypeHeadToArray(t, target, at, tr, before);
    next := TypeSizesToArray(t, target, next, tr, before + EncodeAll(TypeHead(t)));
    next := TypePartsToArray(t, target, next, tr, before + EncodeAll(TypeHead(t)) + EncodeAll(TypeSizes(t)));
    next := TypeQualifiersToArray(t, target, next, tr,
      before + EncodeAll(TypeHead(t)) + EncodeAll(TypeSizes(t)) + EncodeAll(TypeParts(t)));
  }

  method PutType(x: Type, target: array<byte>, at: nat, ghost tr: Trace, ghost before: Bytes) returns (next: nat)
    requires At(target, at, tr, before) && TypeSize(x) < TWO_TO_31
    requires |before + Varint(10) + Varint(|EncodeType(x)|) + EncodeType(x)| <= target.Length - tr.start
    modifies target
    ensures At(target, next, tr, before + Varint(10) + Varint(|EncodeType(x)|) + EncodeType(x))
  {
    TypeSizeIs(x);
    next := PutVarint(10, target, at, tr, before);
    next := PutVarint(TypeSize(x), target, next, tr, before + Varint(10));
    next := TypeToArray(x, target, next, tr, before + Varint(10) + Varint(TypeSize(x)));
  }

  method PutTypeAt(xs: seq<Type>, i: nat, target: array<byte>, at: nat, ghost tr: Trace, ghost before: Bytes,
                   ghost ups: seq<Bytes>) returns (next: nat)
    requires i < |xs| && NestedSizes(TypeSize, xs) < TWO_TO_31 && Ups(ups, TypesPiece, xs, before)
    requires At(target, at, tr, ups[i])
    requires tr.start + |before| + |TypesPiece(xs)| <= target.Length
    modifies target
    ensures At(target, next, tr, ups[i + 1])
  {
    assert UpAt(ups, TypesPiece, xs, before, i) && UpAt(ups, TypesPiece, xs, before, i + 1);
    NextType(before, xs, i);
    TypesGrow(before, xs, i + 1);
    next := PutType(xs[i], target, at, tr, ups[i]);
  }

  method PutTypes(xs: seq<Type>, target: array<byte>, at: nat, ghost tr: Trace, ghost before: Bytes) returns (next: nat)
    requires At(target, at, tr, before) && at + |TypesPiece(xs)| <= target.Length
    requires NestedSizes(TypeSize, xs) < TWO_TO_31
    modifies target
    ensures At(target, next, tr, before + TypesPiece(xs))
  {
    ghost var ups := MakeUps(TypesPiece, xs, before);
    next := PutTypesOver(xs, target, at, tr, before, ups);
  }

  /** The loop of PutTypes; ups are the bytes written before each round. */
  method PutTypesOver(xs: seq<Type>, target: array<byte>, at: nat, ghost tr: Trace, ghost before: Bytes,
                      ghost ups: seq<Bytes>) returns (next: nat)
    requires Ups(ups, TypesPiece, xs, before) && At(target, at, tr, ups[0]) && NestedSizes(TypeSize, xs) < TWO_TO_31
    requires tr.start + |before| + |TypesPiece(xs)| <= target.Length
    modifies target
    ensures At(target, next, tr, ups[|xs|])
  {
    next := at;
    var i := 0;
    while i < |xs|
      invariant 0 <= i <= |xs| && At(target, next, tr, ups[i])
    {
      next := PutTypeAt(xs, i, target, next, tr, before, ups);
      i := i + 1;
    }
  }

  lemma TypesGrow(before: Bytes, xs: seq<Type>, i: nat)
    requires i <= |xs|
    ensures |before + TypesPiece(xs[..i])| <= |before| + |TypesPiece(xs)|
  {
    BlobsGrow(10, EncodeType, xs, i);
  }

  method PutExport(x: Export, target: array<byte>, at: nat, ghost tr: Trace, ghost before: Bytes) returns (next: nat)
    requires At(target, at, tr, before) && ExportSize(x) < TWO_TO_31
    requires |before + Varint(18) + Varint(|EncodeExport(x)|) + EncodeExport(x)| <= target.Length - tr.start
    modifies target
    ensures At(target, next, tr, before + Varint(18) + Varint(|EncodeExport(x)|) + EncodeExport(x))
  {
    ExportSizeIs(x);
    next := PutVarint(18, target, at, tr, before);
    next := PutVarint(ExportSize(x), target, next, tr, before + Varint(18));
    next := ExportToArray(x, target, next, tr, before + Varint(18) + Varint(ExportSize(x)));
  }

  method PutExportAt(xs: seq<Export>, i: nat, target: array<byte>, at: nat, ghost tr: Trace, ghost before: Bytes,
                     ghost ups: seq<Bytes>) returns (next: nat)
    requires i < |xs| && NestedSizes(ExportSize, xs) < TWO_TO_31 && Ups(ups, ExportsPiece, xs, before)
    requires At(target, at, tr, ups[i])
    requires tr.start + |before| + |ExportsPiece(xs)| <= target.Length
    modifies target
    ensures At(target, next, tr, ups[i + 1])
  {
    assert UpAt(ups, ExportsPiece, xs, before, i) && UpAt(ups, ExportsPiece, xs, before, i + 1);
    NextExport(before, xs, i);
    ExportsGrow(before, xs, i + 1);
    next := PutExport(xs[i], target, at, tr, ups[i]);
  }

  method PutExports(xs: seq<Export>, target: array<byte>, at: nat, ghost tr: Trace, ghost before: Bytes)
    returns (next: nat)
    requires At(target, at, tr, before) && at + |ExportsPiece(xs)| <= target.Length
    requires NestedSizes(ExportSize, xs) < TWO_TO_31
    modifies target
    ensures At(target, next, tr, before + ExportsPiece(xs))
  {
    ghost var ups := MakeUps(ExportsPiece, xs, before);
    next := PutExportsOver(xs, target, at, tr, before, ups);
  }

  /** The loop of PutExports; ups are the bytes written before each round. */
  method PutExportsOver(xs: seq<Export>, target: array<byte>, at: nat, ghost tr: Trace, ghost before: Bytes,
                        ghost ups: seq<Bytes>) returns (next: nat)
    requires Ups(ups, ExportsPiece, xs, before) && At(target, at, tr, ups[0]) && NestedSizes(ExportSize, xs) < TWO_TO_31
    requires tr.start + |before| + |ExportsPiece(xs)| <= target.Length
    modifies target
    ensures At(target, next, tr, ups[|xs|])
  {
    next := at;
    var i := 0;
    while i < |xs|
      invariant 0 <= i <= |xs| && At(target, next, tr, ups[i])
    {
      next := PutExportAt(xs, i, target, next, tr, before, ups);
      i := i + 1;
    }
  }

  lemma ExportsGrow(before: Bytes, xs: seq<Export>, i: nat)
    requires i <= |xs|
    ensures |before + ExportsPiece(xs[..i])| <= |before| + |ExportsPiece(xs)|
  {
    BlobsGrow(18, EncodeExport, xs, i);
  }

  method CatalogToArray(c: Catalog, target: array<byte>, at: nat, ghost tr: Trace, ghost before: Bytes)
    returns (next: nat)
    requires At(target, at, tr, before) && at + |EncodeCatalog(c)| <= target.Length && CatalogSize(c) < TWO_TO_31
    modifies target
    ensures At(target, next, tr, before + EncodeCatalog(c))
  {
    Pieces2(before, Blobs(10, EncodeType, c.type_), Blobs(18, EncodeExport, c.export_));
    next := PutTypes(c.type_, target, at, tr, before);
    next := PutExports(c.export_, target, next, tr, before + TypesPiece(c.type_));
  }

  /** Both serializers, and the size computed beforehand, agree on the bytes of a catalog. */
  method SerializeBoth(c: Catalog) returns (stream: Bytes, target: array<byte>)
    requires CatalogSize(c) < TWO_TO_31
    ensures target.Length == CatalogSize(c) && target[..] == stream == EncodeCatalog(c)
  {
    CatalogSizeIs(c);
    stream := SerializeCatalog(c, []);
    assert [] + EncodeCatalog(c) == EncodeCatalog(c);
    var size := ByteSizeCatalog(c);
    target := new byte[size];
    ghost var tr := Trace(target[..], 0);
    assert Overwritten(tr.was, 0, []) == tr.was;
    var next := CatalogToArray(c, target, 0, tr, []);
    assert Overwritten(tr.was, 0, EncodeCatalog(c)) == EncodeCatalog(c);
  }
}
