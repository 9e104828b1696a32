/** The field numbers and wire types on the wire: tag 8 n + 0 for a number of field n, 8 n + 2 for a block of bytes. */
module Schema {
  import opened Options
  import opened Wire
  import opened Messages
  import opened RoundTrip

  /** Entry e is the nonzero number v of field n. */
  predicate NumOf(e: Entry, n: nat, v: int32) {
    v != 0 && e == Num(8 * n, ToWire(v))
  }

  predicate FlagOf(e: Entry, n: nat, b: bool) {
    b && e == Num(8 * n, 1)
  }

  predicate BytesOf(e: Entry, n: nat, s: Bytes) {
    s != [] && e == Blob(8 * n + 2, s)
  }

  /** e is a block of field n with one of the messages xs. */
  ghost predicate PartOf<S(!new)>(e: Entry, n: nat, encode: S -> Bytes, xs: seq<S>) {
    exists x :: x in xs && e == Blob(8 * n + 2, encode(x))
  }

  ghost predicate SubOf(e: Entry, n: nat, v: Option<Value>) {
    v.Some? && e == Blob(8 * n + 2, EncodeValue(v.value))
  }

  /** The fields stand in the order of their numbers. */
  ghost predicate Ascending(es: seq<Entry>) {
    forall i, j :: 0 <= i < j < |es| ==> es[i].tag <= es[j].tag
  }

  ghost predicate TagsWithin(es: seq<Entry>, lo: nat, hi: nat) {
    forall e :: e in es ==> lo <= e.tag <= hi
  }

  lemma AscendingConcat(a: seq<Entry>, b: seq<Entry>, lo: nat, mid: nat, hi: nat)
    requires Ascending(a) && Ascending(b) && TagsWithin(a, lo, mid) && TagsWithin(b, mid, hi) && lo <= mid <= hi
    ensures Ascending(a + b) && TagsWithin(a + b, lo, hi)
  {
    forall i, j | 0 <= i < j < |a + b| ensures (a + b)[i].tag <= (a + b)[j].tag {
      assert i < |a| ==> a[i] in a;
      assert j >= |a| ==> b[j - |a|] in b;
    }
  }

  lemma {:induction false} BlobsAre<S(!new)>(n: nat, encode: S -> Bytes, xs: seq<S>)
    ensures var es := Blobs(8 * n + 2, encode, xs);
            && (forall e :: e in es <==> PartOf(e, n, encode, xs)) && |es| == |xs|
            && Ascending(es) && TagsWithin(es, 8 * n + 2, 8 * n + 2)
  {
    var es := Blobs(8 * n + 2, encode, xs);
    if xs != [] {
      var rest := Blobs(8 * n + 2, encode, xs[1..]);
      BlobsAre(n, encode, xs[1..]);
      assert es == [Blob(8 * n + 2, encode(xs[0]))] + rest;
      forall e ensures e in es <==> PartOf(e, n, encode, xs) {
        assert PartOf(e, n, encode, xs) <==> e == Blob(8 * n + 2, encode(xs[0])) || PartOf(e, n, encode, xs[1..]);
      }
    }
  }

  // ---- the messages ----

  ghost predicate InTypeHead(e: Entry, t: Type) {
    NumOf(e, 1, t.id) || NumOf(e, 2, t.kind) || NumOf(e, 5, t.referencedType) || FlagOf(e, 6, t.isBlockPointer)
  }

  ghost predicate InTypeSizes(e: Entry, t: Type) {
    || NumOf(e, 10, t.elementType) || NumOf(e, 11, t.size) || NumOf(e, 15, t.primitiveKind)
    || NumOf(e, 20, t.recordKind)
  }

  ghost predicate InTypeParts(e: Entry, t: Type) {
    || PartOf(e, 21, EncodeRecordField, t.field) || NumOf(e, 25, t.returnType)
    || BytesOf(e, 26, Join(EncodeInt, t.paramType)) || PartOf(e, 30, EncodeEnumValue, t.value)
  }

  ghost predicate InTypeQualifiers(e: Entry, t: Type) {
    NumOf(e, 49, t.underlyingType) || FlagOf(e, 50, t.isConst) || FlagOf(e, 51, t.isVolatile)
  }

  lemma JoinEmpty(vs: seq<int32>)
    ensures Join(EncodeInt, vs) == [] <==> vs == []
  {
    if vs != [] {
      assert EncodeInt(vs[0]) != [];
    }
  }

  lemma TypeHeadIs(t: Type)
    ensures forall e :: e in TypeHead(t) <==> InTypeHead(e, t)
    ensures Ascending(TypeHead(t)) && TagsWithin(TypeHead(t), 8, 48)
  {
    var a, b, c := IntField(8, t.id), IntField(16, t.kind), IntField(40, t.referencedType);
    var d := BoolField(48, t.isBlockPointer);
    AscendingConcat(c, d, 40, 48, 48);
    AscendingConcat(b, c + d, 16, 40, 48);
    AscendingConcat(a, b + (c + d), 8, 16, 48);
  }

  lemma TypeSizesIs(t: Type)
    ensures forall e :: e in TypeSizes(t) <==> InTypeSizes(e, t)
    ensures Ascending(TypeSizes(t)) && TagsWithin(TypeSizes(t), 80, 160)
  {
    var a, b := IntField(80, t.elementType), IntField(88, t.size);
    var c, d := IntField(120, t.primitiveKind), IntField(160, t.recordKind);
    AscendingConcat(c, d, 120, 160, 160);
    AscendingConcat(b, c + d, 88, 120, 160);
    AscendingConcat(a, b + (c + d), 80, 88, 160);
  }

  lemma PackedIs(vs: seq<int32>)
    ensures forall e :: e in PackedField(210, vs) <==> BytesOf(e, 26, Join(EncodeInt, vs))
    ensures Ascending(PackedField(210, vs)) && TagsWithin(PackedField(210, vs), 210, 210)
  {
    JoinEmpty(vs);
  }

  lemma TypePartsIs(t: Type)
    ensures forall e :: e in TypeParts(t) <==> InTypeParts(e, t)
    ensures Ascending(TypeParts(t)) && TagsWithin(TypeParts(t), 170, 242)
  {
    BlobsAre(21, EncodeRecordField, t.field);
    BlobsAre(30, EncodeEnumValue, t.value);
    PackedIs(t.paramType);
    TypePartsAscend(t);
  }

  lemma TypePartsAscend(t: Type)
    requires Ascending(Blobs(170, EncodeRecordField, t.field))
    requires TagsWithin(Blobs(170, EncodeRecordField, t.field), 170, 170)
    requires Ascending(Blobs(242, EncodeEnumValue, t.value))
    requires TagsWithin(Blobs(242, EncodeEnumValue, t.value), 242, 242)
    ensures Ascending(TypeParts(t)) && TagsWithin(TypeParts(t), 170, 242)
  {
    var a, b := Blobs(170, EncodeRecordField, t.field), IntField(200, t.returnType);
    var c, d := PackedField(210, t.paramType), Blobs(242, EncodeEnumValue, t.value);
    PackedIs(t.paramType);
    AscendingConcat(c, d, 210, 242, 242);
    AscendingConcat(b, c + d, 200, 210, 242);
    AscendingConcat(a, b + (c + d), 170, 200, 242);
  }

  lemma TypeQualifiersIs(t: Type)
    ensures forall e :: e in TypeQualifiers(t) <==> InTypeQualifiers(e, t)
    ensures Ascending(TypeQualifiers(t)) && TagsWithin(TypeQualifiers(t), 392, 408)
  {
    var a, b, c := IntField(392, t.underlyingType), BoolField(400, t.isConst), BoolField(408, t.isVolatile);
    AscendingConcat(b, c, 400, 408, 408);
    AscendingConcat(a, b + c, 392, 400, 408);
  }

  /** The fields of a type, by number and wire type. */
  lemma TypeSchema(t: Type)
    ensures forall e :: e in TypeFields(t) <==>
      InTypeHead(e, t) || InTypeSizes(e, t) || InTypeParts(e, t) || InTypeQualifiers(e, t)
    ensures Ascending(TypeFields(t))
  {
    TypeHeadIs(t);
    TypeSizesIs(t);
    TypePartsIs(t);
    TypeQualifiersIs(t);
    AscendingConcat(TypeParts(t), TypeQualifiers(t), 170, 242, 408);
    AscendingConcat(TypeSizes(t), TypeParts(t) + TypeQualifiers(t), 80, 160, 408);
    AscendingConcat(TypeHead(t), TypeSizes(t) + (TypeParts(t) + TypeQualifiers(t)), 8, 48, 408);
  }

  lemma RecordFieldSchema(f: RecordField)
    ensures forall e :: e in RecordFieldFields(f) <==>
      BytesOf(e, 1, f.name) || NumOf(e, 2, f.type_) || SubOf(e, 3, f.defaultValue)
    ensures Ascending(RecordFieldFields(f))
  {
    AscendingConcat(IntField(16, f.type_), SubField(26, f.defaultValue), 16, 16, 26);
    AscendingConcat(BytesField(10, f.name), IntField(16, f.type_) + SubField(26, f.defaultValue), 10, 10, 26);
  }

  lemma EnumValueSchema(v: EnumValue)
    ensures forall e :: e in EnumValueFields(v) <==> BytesOf(e, 1, v.name) || NumOf(e, 2, v.value)
    ensures Ascending(EnumValueFields(v))
  {
    AscendingConcat(BytesField(10, v.name), IntField(16, v.value), 10, 10, 16);
  }

  lemma ValueSchema(x: Value)
    ensures forall e :: e in ValueFields(x) <==>
      NumOf(e, 1, x.typeId) || BytesOf(e, 5, x.mangledName) || BytesOf(e, 10, x.value)
    ensures Ascending(ValueFields(x))
  {
    AscendingConcat(BytesField(42, x.mangledName), BytesField(82, x.value), 42, 42, 82);
    AscendingConcat(IntField(8, x.typeId), BytesField(42, x.mangledName) + BytesField(82, x.value), 8, 8, 82);
  }

  lemma ExportSchema(x: Export)
    ensures forall e :: e in ExportFields(x) <==>
      BytesOf(e, 1, x.name) || NumOf(e, 2, x.type_) || SubOf(e, 3, x.value)
    ensures Ascending(ExportFields(x))
  {
    AscendingConcat(IntField(16, x.type_), SubField(26, x.value), 16, 16, 26);
    AscendingConcat(BytesField(10, x.name), IntField(16, x.type_) + SubField(26, x.value), 10, 10, 26);
  }

  lemma CatalogSchema(c: Catalog)
    ensures forall e :: e in CatalogFields(c) <==>
      PartOf(e, 1, EncodeType, c.type_) || PartOf(e, 2, EncodeExport, c.export_)
    ensures Ascending(CatalogFields(c))
  {
    BlobsAre(1, EncodeType, c.type_);
    BlobsAre(2, EncodeExport, c.export_);
    AscendingConcat(Blobs(10, EncodeType, c.type_), Blobs(18, EncodeExport, c.export_), 10, 10, 18);
  }

  // ---- bytes ----

  /** The number in groups of seven bits, the lowest group first. */
  function Groups(s: Bytes): nat {
    if s == [] then 0 else s[0] % 128 + 128 * Groups(s[1..])
  }

  /** All bytes of a varint but the last have the high bit set. */
  lemma {:induction false} VarintGroups(n: nat)
    ensures var s := Varint(n);
            s != [] && Groups(s) == n && forall i :: 0 <= i < |s| ==> (s[i] >= 128 <==> i < |s| - 1)
  {
    if n < 128 {
      assert Groups([]) == 0;
      assert Groups([n]) == n % 128 + 128 * Groups([n][1..]);
    } else {
      VarintGroups(n / 128);
      var s := Varint(n);
      assert s[1..] == Varint(n / 128) && s[0] == 128 + n % 128;
      forall i | 0 < i < |s| ensures s[i] >= 128 <==> i < |s| - 1 {
        assert s[i] == s[1..][i - 1];
      }
    }
  }

  // ---- the numbers of a repeated field one by one ----

  /** What a writer that does not pack makes of the parameter types. */
  function Unpacked(vs: seq<int32>): seq<Entry> {
    seq(|vs|, i requires 0 <= i < |vs| => Num(208, ToWire(vs[i])))
  }

  lemma OneUnpacked(utf8: Utf8, skip: Skip, v: int32)
    ensures Does(TypeStep(utf8, skip), [Num(208, ToWire(v))], (m: Type) => m.(paramType := m.paramType + [v]))
  {
    var step, e := TypeStep(utf8, skip), Num(208, ToWire(v));
    var f := (m: Type) => m.(paramType := m.paramType + [v]);
    forall m, rest {:trigger step(m, 208, Payload(e) + rest)}
      ensures step(m, 208, Payload(e) + rest) == Took(f(m), rest)
    {
      Int32Reads(v, rest);
      assert TypeStepAt(utf8, skip, m, 208, Payload(e) + rest) == Took(f(m), rest);
    }
    DoesOne(step, e, f);
  }

  lemma {:induction false} UnpackedDoes(utf8: Utf8, skip: Skip, vs: seq<int32>)
    ensures Does(TypeStep(utf8, skip), Unpacked(vs), (m: Type) => m.(paramType := m.paramType + vs))
    decreases |vs|
  {
    var step, f := TypeStep(utf8, skip), (m: Type) => m.(paramType := m.paramType + vs);
    if vs == [] {
      forall m ensures f(m) == m {
        assert m.paramType + [] == m.paramType;
      }
      DoesNothing(step, f);
      assert Unpacked(vs) == [];
    } else {
      var f1 := (m: Type) => m.(paramType := m.paramType + [vs[0]]);
      var f2 := (m: Type) => m.(paramType := m.paramType + vs[1..]);
      OneUnpacked(utf8, skip, vs[0]);
      UnpackedDoes(utf8, skip, vs[1..]);
      forall m ensures f(m) == f2(f1(m)) {
        assert m.paramType + [vs[0]] + vs[1..] == m.paramType + vs;
      }
      DoesThen(step, [Num(208, ToWire(vs[0]))], f1, Unpacked(vs[1..]), f2, f);
      assert Unpacked(vs) == [Num(208, ToWire(vs[0]))] + Unpacked(vs[1..]);
    }
  }

  /** Parameter types that were not packed are read as the packed ones are, wherever they stand. */
  lemma UnpackedParses(utf8: Utf8, skip: Skip, vs: seq<int32>, m: Type, rest: Bytes)
    requires |Join(EncodeInt, vs)| < TWO_TO_31
    ensures Parse(TypeStep(utf8, skip), skip, m, EncodeAll(Unpacked(vs)) + rest)
      == Parse(TypeStep(utf8, skip), skip, m.(paramType := m.paramType + vs), rest)
    ensures Parse(TypeStep(utf8, skip), skip, m, EncodeAll(PackedField(210, vs)) + rest)
      == Parse(TypeStep(utf8, skip), skip, m.(paramType := m.paramType + vs), rest)
  {
    var step, f := TypeStep(utf8, skip), (m: Type) => m.(paramType := m.paramType + vs);
    UnpackedDoes(utf8, skip, vs);
    PackedDoes(utf8, skip, vs);
    DoesParse(step, skip, Unpacked(vs), f, m, rest);
    DoesParse(step, skip, PackedField(210, vs), f, m, rest);
  }
}
