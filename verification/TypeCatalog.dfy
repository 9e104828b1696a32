/** The sorted types of a catalog: for which type graphs every type comes after the types it refers to. */
module SortedTypes {
  import opened Arrays
  import opened Sequences
  import opened DepthFirst
  import opened KeptEdges
  import opened TypeGraphs
  import opened TypeOrder

  ghost predicate RefersTo(g: Nodes, p: seq<Ref>, i: nat)
    requires i + 1 < |p|
  {
    p[i] in g && p[i + 1] in Slots(g[p[i]])
  }

  /** Each type of p refers to the next one, and the last is the first again. */
  ghost predicate TypeCycle(g: Nodes, p: seq<Ref>) {
    |p| >= 2 && p[0] == p[|p| - 1] && forall i :: 0 <= i < |p| - 1 ==> RefersTo(g, p, i)
  }

  ghost predicate CyclicTypes(g: Nodes, types: seq<Ref>) {
    exists p :: TypeCycle(g, p) && p[0] in types
  }

  /** Every type of s stands behind all types it refers to. */
  ghost predicate DependenciesFirst(g: Nodes, s: seq<Ref>) {
    forall t, d {:trigger Precedes(s, d, t)} :: t in s && t in g && d in Slots(g[t]) ==> Precedes(s, d, t)
  }

  ghost predicate Precedes(s: seq<Ref>, d: Ref, t: Ref) {
    d in s && t in s && FirstIndex(s, d) < FirstIndex(s, t)
  }

  // ---- an order excludes cycles ----

  lemma {:induction false} OrderDescends(g: Nodes, s: seq<Ref>, p: seq<Ref>, k: nat)
    requires DependenciesFirst(g, s) && p != [] && p[0] in s && 0 < k < |p|
    requires forall i :: 0 <= i < |p| - 1 ==> RefersTo(g, p, i)
    ensures p[k] in s && FirstIndex(s, p[k]) < FirstIndex(s, p[0])
  {
    if k > 1 {
      OrderDescends(g, s, p, k - 1);
    }
    assert RefersTo(g, p, k - 1) && Precedes(s, p[k], p[k - 1]);
  }

  lemma OrderedNotCyclic(g: Nodes, s: seq<Ref>, types: seq<Ref>)
    requires DependenciesFirst(g, s) && forall t :: t in types ==> t in s
    ensures !CyclicTypes(g, types)
  {
    forall p ensures !(TypeCycle(g, p) && p[0] in types) {
      if TypeCycle(g, p) && p[0] in types {
        OrderDescends(g, s, p, |p| - 1);
      }
    }
  }

  // ---- without cycles the sorter finds an order ----

  /** A wanted edge is a reference. */
  lemma WantedRefers(types: seq<Ref>, g: Nodes, u: nat, v: nat)
    requires Known(g, types) && ClosedUnder(g, types) && (u, v) in Wanted(types, g)
    ensures u < |types| && v < |types| && types[v] in Slots(g[types[u]])
  {
    var i, d := WantedFor(types, g, (u, v));
    assert d in types;
  }

  lemma StepRefers(types: seq<Ref>, g: Nodes, out: Graph, q: seq<nat>, i: nat)
    requires Known(g, types) && ClosedUnder(g, types) && Walk(out, q) && i < |q| - 1
    requires forall u: nat, v: nat :: Edge(out, u, v) ==> (u, v) in Wanted(types, g)
    ensures q[i] < |types| && q[i + 1] < |types| && types[q[i + 1]] in Slots(g[types[q[i]]])
  {
    assert WalkStep(out, q, i);
    WantedRefers(types, g, q[i], q[i + 1]);
  }

  /** So a cycle of wanted edges is a cycle of types. */
  lemma WantedCycle(types: seq<Ref>, g: Nodes, out: Graph, q: seq<nat>)
    requires Known(g, types) && ClosedUnder(g, types) && Closed(out, q)
    requires forall u: nat, v: nat :: Edge(out, u, v) ==> (u, v) in Wanted(types, g)
    ensures CyclicTypes(g, types)
  {
    forall i | 0 <= i < |q| ensures q[i] < |types| {
      StepRefers(types, g, out, q, if i < |q| - 1 then i else i - 1);
    }
    var p := Labelled(types, q);
    forall i | 0 <= i < |p| - 1 ensures RefersTo(g, p, i) {
      StepRefers(types, g, out, q, i);
    }
    assert TypeCycle(g, p);
  }

  lemma EveryEdgeKept(types: seq<Ref>, g: Nodes, out: Graph, sorted: seq<Ref>)
    requires Sorts(types, g, out, sorted) && ClosedUnder(g, types) && !CyclicTypes(g, types)
    ensures forall u: nat, v: nat :: (u, v) in Wanted(types, g) ==> Edge(out, u, v)
  {
    forall u: nat, v: nat | (u, v) in Wanted(types, g) ensures Edge(out, u, v) {
      if !Edge(out, u, v) {
        var q :| Closed(WithEdge(out, u, v), q);
        WithEdgeEdges(out, u, v);
        WantedCycle(types, g, WithEdge(out, u, v), q);
      }
    }
  }

  lemma SameTypes(s: seq<Ref>, s': seq<Ref>)
    requires multiset(s) == multiset(s')
    ensures forall t :: t in s <==> t in s'
  {
    forall t ensures t in s <==> t in s' {
      assert t in multiset(s) <==> t in multiset(s');
    }
  }

  lemma ReferenceOrdered(types: seq<Ref>, g: Nodes, out: Graph, sorted: seq<Ref>, t: Ref, d: Ref)
    requires Sorts(types, g, out, sorted) && ClosedUnder(g, types) && !CyclicTypes(g, types) && t in types
    requires d in Slots(g[t])
    ensures Precedes(sorted, d, t) && Precedes(Deduped(sorted), d, t)
  {
    SameTypes(sorted, types);
    DedupedHas(sorted);
    assert d in types;
    EveryEdgeKept(types, g, out, sorted);
    WantedHas(types, g, (VertexOf(types, t), VertexOf(types, d)), FirstIndex(types, t), d);
    assert Edge(out, VertexOf(types, t), VertexOf(types, d));
    DedupedOrder(sorted, d, t);
  }

  /** For a range closed under references the result has every type behind the types it refers to exactly when no
      type refers to itself
      through others. */
  lemma OrderIffAcyclic(types: seq<Ref>, g: Nodes, out: Graph, sorted: seq<Ref>)
    requires Sorts(types, g, out, sorted) && ClosedUnder(g, types)
    ensures DependenciesFirst(g, sorted) <==> !CyclicTypes(g, types)
    ensures DependenciesFirst(g, Deduped(sorted)) <==> !CyclicTypes(g, types)
  {
    SameTypes(sorted, types);
    DedupedHas(sorted);
    if !CyclicTypes(g, types) {
      AcyclicOrdered(types, g, out, sorted);
    }
    if DependenciesFirst(g, sorted) {
      OrderedNotCyclic(g, sorted, types);
    }
    if DependenciesFirst(g, Deduped(sorted)) {
      OrderedNotCyclic(g, Deduped(sorted), types);
    }
  }

  lemma AcyclicOrdered(types: seq<Ref>, g: Nodes, out: Graph, sorted: seq<Ref>)
    requires Sorts(types, g, out, sorted) && ClosedUnder(g, types) && !CyclicTypes(g, types)
    ensures DependenciesFirst(g, sorted) && DependenciesFirst(g, Deduped(sorted))
  {
    SameTypes(sorted, types);
    DedupedHas(sorted);
    forall t, d | t in sorted && t in g && d in Slots(g[t])
      ensures Precedes(sorted, d, t) && Precedes(Deduped(sorted), d, t)
    {
      ReferenceOrdered(types, g, out, sorted, t, d);
    }
  }

  /** An edge that was not kept would close a cycle with the kept ones; every other reference is ordered. */
  lemma OrderedOrCycle(types: seq<Ref>, g: Nodes, out: Graph, sorted: seq<Ref>, t: Ref, d: Ref)
    requires Sorts(types, g, out, sorted) && ClosedUnder(g, types) && t in types && d in Slots(g[t])
    ensures t in Deduped(sorted) && d in Deduped(sorted)
    ensures
      || Precedes(Deduped(sorted), d, t)
      || (VertexOf(types, t) < |out| && Cyclic(WithEdge(out, VertexOf(types, t), VertexOf(types, d))))
  {
    SameTypes(sorted, types);
    DedupedHas(sorted);
    assert d in types;
    WantedHas(types, g, (VertexOf(types, t), VertexOf(types, d)), FirstIndex(types, t), d);
    if Edge(out, VertexOf(types, t), VertexOf(types, d)) {
      DedupedOrder(sorted, d, t);
    }
  }

  // ---- types outside the range ----

  /** A reference to a type outside the range is taken for one to the first type, and orders the two. */
  lemma UnknownIsFirst(types: seq<Ref>, g: Nodes, out: Graph, sorted: seq<Ref>, i: nat, d: Ref)
    requires Sorts(types, g, out, sorted) && i < |types| && d in Slots(g[types[i]]) && d !in types
    ensures
      || Cyclic(WithEdge(out, FirstIndex(types, types[i]), 0))
      || Precedes(sorted, types[0], types[i])
  {
    WantedHas(types, g, (VertexOf(types, types[i]), 0), i, d);
  }
}

/** The catalog of types, the numbers given to them, and the message written for it. */
module TypeCatalogs {
  import opened Options
  import opened Wire
  import opened Arrays
  import opened Sequences
  import opened TypeGraphs
  import opened TypeOrder
  import opened SortedTypes
  import Messages

  // ---- the catalog ----

  lemma DedupedSame<T>(s: seq<T>)
    requires Distinct(s)
    ensures Deduped(s) == s
  {
    if s != [] {
      var n := |s| - 1;
      DedupedSame(s[..n]);
      assert s == s[..n] + [s[n]];
    }
  }

  lemma DedupedNext<T>(s: seq<T>, x: T)
    ensures Deduped(s + [x]) == if x in s then Deduped(s) else Deduped(s) + [x]
  {
    assert (s + [x])[..|s|] == s;
  }

  lemma AddNone<T>(s: seq<T>, more: seq<T>)
    requires Distinct(s)
    ensures Deduped(s + more[..0]) == s
  {
    assert s + more[..0] == s;
    DedupedSame(s);
  }

  lemma AddNext<T>(s: seq<T>, more: seq<T>, i: nat)
    requires i < |more|
    ensures var was := Deduped(s + more[..i]); Deduped(s + more[..i + 1]) == if more[i] in was then was
      else was + [more[i]]
  {
    assert s + more[..i + 1] == s + more[..i] + [more[i]];
    DedupedHas(s + more[..i]);
    DedupedNext(s + more[..i], more[i]);
  }

  class Catalog {
    var typeSeq: seq<Ref>
    var typeSet: set<Ref>

    ghost predicate Valid()
      reads this
    {
      Distinct(typeSeq) && forall t :: t in typeSet <==> t in typeSeq
    }

    constructor ()
      ensures Valid() && typeSeq == []
    {
      typeSeq, typeSet := [], {};
    }

    method AddType(t: Ref) returns (added: bool)
      requires Valid()
      modifies this
      ensures Valid() && added == (t !in old(typeSeq)) && typeSeq == if added then old(typeSeq) + [t] else old(typeSeq)
    {
      added := t !in typeSet;
      if added {
        typeSet, typeSeq := typeSet + {t}, typeSeq + [t];
      }
    }

    method RemoveType(t: Ref) returns (removed: bool)
      requires Valid()
      modifies this
      ensures Valid() && removed == (t in old(typeSeq)) && t !in typeSeq
      ensures typeSeq == if removed
        then old(typeSeq)[..FirstIndex(old(typeSeq), t)] + old(typeSeq)[FirstIndex(old(typeSeq), t) + 1..]
        else old(typeSeq)
    {
      removed := t in typeSet;
      if removed {
        var i := FirstIndex(typeSeq, t);
        typeSet, typeSeq := typeSet - {t}, typeSeq[..i] + typeSeq[i + 1..];
        assert old(typeSeq) == old(typeSeq)[..i] + [t] + old(typeSeq)[i + 1..];
      }
    }

    /** The loop over the sorted types. */
    method AddTypes(sorted: seq<Ref>)
      requires Valid()
      modifies this
      ensures Valid() && typeSeq == Deduped(old(typeSeq) + sorted)
    {
      AddNone(typeSeq, sorted);
      var i := 0;
      while i < |sorted|
        invariant 0 <= i <= |sorted| && Valid() && typeSeq == Deduped(old(typeSeq) + sorted[..i])
      {
        AddNext(old(typeSeq), sorted, i);
        var _ := AddType(sorted[i]);
        i := i + 1;
      }
      assert sorted[..i] == sorted;
    }
  }

  // ---- numbers ----

  /** The number of the value at place i: counting starts at 1, in an unsigned int. */
  function Number(i: nat): nat {
    (i + 1) % TWO_TO_32
  }

  /** The map after the first k values. */
  ghost predicate Counted(ids: map<Ref, nat>, range: seq<Ref>, k: nat)
    requires k <= |range|
  {
    forall t :: (t in ids <==> t in range[..k]) && (t in ids ==> t in range && ids[t] == Number(FirstIndex(range, t)))
  }

  lemma CountNext(ids: map<Ref, nat>, range: seq<Ref>, k: nat)
    requires k < |range| && Counted(ids, range, k)
    ensures Counted(if range[k] in ids then ids else ids[range[k] := Number(k)], range, k + 1)
  {
    assert range[..k + 1] == range[..k] + [range[k]];
    if range[k] !in ids {
      FirstIs(range, range[k], k);
    }
  }

  lemma CountedAll(ids: map<Ref, nat>, range: seq<Ref>)
    requires Counted(ids, range, |range|)
    ensures forall t :: t in ids <==> t in range
    ensures forall t :: t in range ==> ids[t] == Number(FirstIndex(range, t))
  {
    assert range[..|range|] == range;
  }

  class CountMap {
    var ids: map<Ref, nat>

    constructor (range: seq<Ref>)
      ensures forall t :: t in ids <==> t in range
      ensures forall t :: t in range ==> ids[t] == Number(FirstIndex(range, t))
    {
      var counted: map<Ref, nat> := map[];
      var i, k := 1, 0;
      while k < |range|
        invariant 0 <= k <= |range| && i == Number(k) && Counted(counted, range, k)
      {
        CountNext(counted, range, k);
        if range[k] !in counted {
          counted := counted[range[k] := i];
        }
        i, k := (i + 1) % TWO_TO_32, k + 1;
      }
      CountedAll(counted, range);
      ids := counted;
    }

    /** None stands for the exception. */
    function GetID(t: Ref): Option<nat>
      reads this
    {
      if t in ids then Some(ids[t]) else None
    }
  }

  // ---- messages ----

  const PRIMITIVE_KIND := 1
  const ARRAY_KIND := 3
  const PTR_KIND := 4
  const FUNCTION_KIND := 5
  const ENUM_KIND := 6
  const QUALIFIED_KIND := 7
  const STRUCT_KIND := 8
  const UNION_KIND := 9

  /** A number stored in an int32 field. */
  function AsInt32(n: nat): int32 {
    var low := n % TWO_TO_32;
    if low < TWO_TO_31 then low else low - TWO_TO_32
  }

  /** An enumerator with its value stored in a field. */
  function EnumMessage(e: Enumerator): Messages.EnumValue {
    Messages.EnumValue(e.name, AsInt32(e.value))
  }

  function FieldMessage(name: Bytes, id: nat): Messages.RecordField {
    Messages.RecordField(name, AsInt32(id), None)
  }

  function EnumMessages(values: seq<Enumerator>): seq<Messages.EnumValue> {
    seq(|values|, i requires 0 <= i < |values| => EnumMessage(values[i]))
  }

  function FieldMessages(fields: seq<Field>, ids: seq<nat>): seq<Messages.RecordField>
    requires |ids| == |fields|
  {
    seq(|fields|, i requires 0 <= i < |fields| => FieldMessage(fields[i].name, ids[i]))
  }

  function AsInts(ids: seq<nat>): seq<int32> {
    seq(|ids|, i requires 0 <= i < |ids| => AsInt32(ids[i]))
  }

  /** The message for a type whose slots have the given numbers. */
  function MessageFor(node: TypeNode, id: nat, ids: seq<nat>): Messages.Type
    requires |ids| == |Slots(node)|
  {
    var blank := Messages.NO_TYPE.(id := AsInt32(id));
    match node
    case FixedArrayType(_, count) => blank.(kind := ARRAY_KIND, size := AsInt32(count), elementType := AsInt32(ids[0]))
    case PointerType(isBlock, _) =>
      blank.(kind := PTR_KIND, referencedType := AsInt32(ids[0]), isBlockPointer := isBlock)
    case QualType(isConst, isVolatile, _) =>
      blank.(kind := QUALIFIED_KIND, isConst := isConst, isVolatile := isVolatile, underlyingType := AsInt32(ids[0]))
    case PrimitiveType(kind) => blank.(kind := PRIMITIVE_KIND, primitiveKind := AsInt32(kind))
    case EnumType(values) => blank.(kind := ENUM_KIND, value := EnumMessages(values))
    case RecordType(isUnion, fields) =>
      blank.(kind := if isUnion then UNION_KIND else STRUCT_KIND, field := FieldMessages(fields, ids))
    case FunctionType(_, params) =>
      blank.(kind := FUNCTION_KIND, returnType := AsInt32(ids[0]), paramType := AsInts(ids[1..]))
  }

  /** The numbers of types in memory. */
  function NumbersIn(types: seq<Ref>, slots: seq<Ref>): (r: seq<nat>)
    requires forall d :: d in slots ==> d in types
    ensures |r| == |slots|
  {
    seq(|slots|, i requires 0 <= i < |slots| => Number(FirstIndex(types, slots[i])))
  }

  // ---- reading a message back ----

  function Enumerators(values: seq<Messages.EnumValue>): seq<Enumerator> {
    seq(|values|, i requires 0 <= i < |values| =>
      Enumerator(values[i].name, if values[i].value < 0 then 0 else values[i].value))
  }

  function AsNat(n: int32): nat {
    if n < 0 then 0 else n
  }

  function Fields(fields: seq<Messages.RecordField>): seq<Field> {
    seq(|fields|, i requires 0 <= i < |fields| => Field(fields[i].name, AsNat(fields[i].type_)))
  }

  function AsNats(ids: seq<int32>): seq<nat> {
    seq(|ids|, i requires 0 <= i < |ids| => AsNat(ids[i]))
  }

  /** The type that a message describes, with numbers for references. */
  function Described(m: Messages.Type): Option<TypeNode> {
    if m.kind == ARRAY_KIND then Some(FixedArrayType(AsNat(m.elementType), AsNat(m.size)))
    else if m.kind == PTR_KIND then Some(PointerType(m.isBlockPointer, AsNat(m.referencedType)))
    else if m.kind == QUALIFIED_KIND then Some(QualType(m.isConst, m.isVolatile, AsNat(m.underlyingType)))
    else if m.kind == PRIMITIVE_KIND then Some(PrimitiveType(AsNat(m.primitiveKind)))
    else if m.kind == ENUM_KIND then Some(EnumType(Enumerators(m.value)))
    else if m.kind == STRUCT_KIND || m.kind == UNION_KIND then Some(RecordType(m.kind == UNION_KIND, Fields(m.field)))
    else if m.kind == FUNCTION_KIND then Some(FunctionType(AsNat(m.returnType), AsNats(m.paramType)))
    else None
  }

  /** The numbers of a type itself fit the fields of the message. */
  ghost predicate Fits(node: TypeNode) {
    match node
    case EnumType(values) => forall i :: 0 <= i < |values| ==> values[i].value < TWO_TO_31
    case PrimitiveType(kind) => kind < TWO_TO_31
    case FixedArrayType(_, count) => count < TWO_TO_31
    case _ => true
  }

  lemma AsInt32Is(n: nat)
    ensures AsNat(AsInt32(n)) == n <==> n < TWO_TO_31
  {
  }

  lemma AsIntsAre(ids: seq<nat>)
    requires forall i :: 0 <= i < |ids| ==> ids[i] < TWO_TO_31
    ensures AsNats(AsInts(ids)) == ids
  {
    forall i | 0 <= i < |ids| ensures AsNats(AsInts(ids))[i] == ids[i] {
      AsInt32Is(ids[i]);
    }
  }

  lemma EnumeratorsAre(values: seq<Enumerator>)
    ensures Enumerators(EnumMessages(values)) == values <==> forall i ::
      0 <= i < |values| ==> values[i].value < TWO_TO_31
  {
    forall i | 0 <= i < |values|
      ensures Enumerators(EnumMessages(values))[i] == values[i] <==> values[i].value < TWO_TO_31
    {
      AsInt32Is(values[i].value);
    }
  }

  /** A message describes its type, references replaced by numbers, exactly when the type's own numbers fit. */
  lemma DescribesIffFits(node: TypeNode, id: nat, ids: seq<nat>)
    requires |ids| == |Slots(node)| && forall i :: 0 <= i < |ids| ==> ids[i] < TWO_TO_31
    ensures Described(MessageFor(node, id, ids)) == Some(WithSlots(node, ids)) <==> Fits(node)
  {
    AsIntsAre(ids);
    match node
    case EnumType(values) => EnumeratorsAre(values);
    case PrimitiveType(kind) => AsInt32Is(kind);
    case FixedArrayType(_, count) => AsInt32Is(count);
    case RecordType(u, fields) => assert Fields(FieldMessages(fields, ids)) == FieldsWith(fields, ids);
    case FunctionType(_, params) => AsIntsAre(ids[1..]);
    case _ =>
  }

  // ---- writing the catalog ----

  datatype NamedExport = NamedExport(name: Bytes, type_: Ref)

  ghost predicate AllIn(slots: seq<Ref>, types: seq<Ref>) {
    forall d :: d in slots ==> d in types
  }

  /** The index numbers the types. */
  ghost predicate Numbers(index: CountMap, types: seq<Ref>)
    reads index
  {
    forall t :: (t in index.ids <==> t in types) && (t in types ==> index.ids[t] == Number(FirstIndex(types, t)))
  }

  method FieldsOf(fields: seq<Field>, index: CountMap, ghost types: seq<Ref>)
    returns (r: Option<seq<Messages.RecordField>>)
    requires Numbers(index, types)
    ensures r.Some? <==> AllIn(FieldTypes(fields), types)
    ensures r.Some? ==> r.value == FieldMessages(fields, NumbersIn(types, FieldTypes(fields)))
  {
    var messages := [];
    var i := 0;
    while i < |fields|
      invariant 0 <= i <= |fields| == |FieldTypes(fields)| && |messages| == i
      invariant forall k :: 0 <= k < i ==>
        fields[k].type_ in types
        && messages[k] == FieldMessage(fields[k].name, Number(FirstIndex(types, fields[k].type_)))
    {
      var id := index.GetID(fields[i].type_);
      if id.None? {
        assert FieldTypes(fields)[i] !in types;
        return None;
      }
      messages := messages + [FieldMessage(fields[i].name, id.value)];
      i := i + 1;
    }
    return Some(messages);
  }

  method ParamsOf(params: seq<Ref>, index: CountMap, ghost types: seq<Ref>) returns (r: Option<seq<int32>>)
    requires Numbers(index, types)
    ensures r.Some? <==> AllIn(params, types)
    ensures r.Some? ==> r.value == AsInts(NumbersIn(types, params))
  {
    var ids := [];
    var i := 0;
    while i < |params|
      invariant 0 <= i <= |params| && |ids| == i
      invariant forall k :: 0 <= k < i ==> params[k] in types && ids[k] == AsInt32(Number(FirstIndex(types, params[k])))
    {
      var id := index.GetID(params[i]);
      if id.None? {
        return None;
      }
      ids := ids + [AsInt32(id.value)];
      i := i + 1;
    }
    return Some(ids);
  }

  method EnumsOf(values: seq<Enumerator>) returns (r: seq<Messages.EnumValue>)
    ensures r == EnumMessages(values)
  {
    r := [];
    var i := 0;
    while i < |values|
      invariant 0 <= i <= |values| && |r| == i && forall k :: 0 <= k < i ==> r[k] == EnumMessage(values[k])
    {
      r := r + [EnumMessage(values[i])];
      i := i + 1;
    }
  }

  /** The numbers of a function's types: the first is the return type's. */
  lemma FunctionNumbers(ret: Ref, params: seq<Ref>, types: seq<Ref>)
    ensures AllIn([ret] + params, types) <==> ret in types && AllIn(params, types)
    ensures AllIn([ret] + params, types) ==> NumbersIn(types, [ret] + params)[1..] == NumbersIn(types, params)
  {
    assert ([ret] + params)[0] == ret;
    forall d | d in params ensures d in [ret] + params {
    }
    if AllIn([ret] + params, types) {
      forall i | 0 <= i < |params| ensures NumbersIn(types, [ret] + params)[1..][i] == NumbersIn(types, params)[i] {
        assert ([ret] + params)[i + 1] == params[i];
      }
    }
  }

  /** The message of one type; None stands for the exception of a lookup. */
  method Visit(t: Ref, node: TypeNode, index: CountMap, ghost types: seq<Ref>) returns (m: Option<Messages.Type>)
    requires Numbers(index, types)
    ensures m.Some? <==> t in types && AllIn(Slots(node), types)
    ensures m.Some? ==> m.value == MessageFor(node, Number(FirstIndex(types, t)), NumbersIn(types, Slots(node)))
  {
    var id := index.GetID(t);
    if id.None? {
      return None;
    }
    var blank := Messages.NO_TYPE.(id := AsInt32(id.value));
    match node
    case FixedArrayType(element, count) =>
      assert Slots(node)[0] == element;
      var ref := index.GetID(element);
      m := if ref.None? then None
        else Some(blank.(kind := ARRAY_KIND, size := AsInt32(count), elementType := AsInt32(ref.value)));
    case PointerType(isBlock, referenced) =>
      assert Slots(node)[0] == referenced;
      var ref := index.GetID(referenced);
      m := if ref.None? then None
        else Some(blank.(kind := PTR_KIND, referencedType := AsInt32(ref.value), isBlockPointer := isBlock));
    case QualType(isConst, isVolatile, underlying) =>
      assert Slots(node)[0] == underlying;
      var ref := index.GetID(underlying);
      m := if ref.None? then None else
        Some(blank.(kind := QUALIFIED_KIND, isConst := isConst, isVolatile := isVolatile,
          underlyingType := AsInt32(ref.value)));
    case PrimitiveType(kind) =>
      m := Some(blank.(kind := PRIMITIVE_KIND, primitiveKind := AsInt32(kind)));
    case EnumType(values) =>
      var messages := EnumsOf(values);
      m := Some(blank.(kind := ENUM_KIND, value := messages));
    case RecordType(isUnion, fields) =>
      var messages := FieldsOf(fields, index, types);
      m := if messages.None? then None
        else Some(blank.(kind := if isUnion then UNION_KIND else STRUCT_KIND, field := messages.value));
    case FunctionType(ret, params) =>
      FunctionNumbers(ret, params, types);
      var ref := index.GetID(ret);
      var ids := ParamsOf(params, index, types);
      m := if ref.None? || ids.None? then None else
        Some(blank.(kind := FUNCTION_KIND, returnType := AsInt32(ref.value), paramType := ids.value));
  }

  /** The message at place i is that of the type at place i. */
  ghost predicate TypeWritten(g: Nodes, types: seq<Ref>, m: Messages.Type, i: nat)
    requires Known(g, types) && i < |types|
  {
    && AllIn(Slots(g[types[i]]), types)
    && m == MessageFor(g[types[i]], Number(FirstIndex(types, types[i])), NumbersIn(types, Slots(g[types[i]])))
  }

  ghost predicate ExportWritten(types: seq<Ref>, e: NamedExport, m: Messages.Export) {
    e.type_ in types && m == Messages.Export(e.name, AsInt32(Number(FirstIndex(types, e.type_))), None)
  }

  ghost predicate Written(g: Nodes, types: seq<Ref>, exports: seq<NamedExport>, c: Messages.Catalog)
    requires Known(g, types)
  {
    && |c.type_| == |types| && (forall i :: 0 <= i < |types| ==> TypeWritten(g, types, c.type_[i], i))
    && |c.export_| == |exports| && (forall i :: 0 <= i < |exports| ==> ExportWritten(types, exports[i], c.export_[i]))
  }

  ghost predicate Writable(g: Nodes, types: seq<Ref>, exports: seq<NamedExport>) {
    ClosedUnder(g, types) && forall e :: e in exports ==> e.type_ in types
  }

  method TypesOf(g: Nodes, types: seq<Ref>, index: CountMap) returns (r: Option<seq<Messages.Type>>)
    requires Known(g, types) && Numbers(index, types)
    ensures r.Some? <==> ClosedUnder(g, types)
    ensures r.Some? ==> |r.value| == |types| && forall i :: 0 <= i < |types| ==> TypeWritten(g, types, r.value[i], i)
  {
    var messages := [];
    var i := 0;
    while i < |types|
      invariant 0 <= i <= |types| && |messages| == i && forall k :: 0 <= k < i ==> TypeWritten(g, types, messages[k], k)
    {
      var m := Visit(types[i], g[types[i]], index, types);
      if m.None? {
        return None;
      }
      messages := messages + [m.value];
      i := i + 1;
    }
    AllWritten(g, types, messages);
    return Some(messages);
  }

  lemma AllWritten(g: Nodes, types: seq<Ref>, messages: seq<Messages.Type>)
    requires Known(g, types) && |messages| == |types|
    requires forall i :: 0 <= i < |types| ==> TypeWritten(g, types, messages[i], i)
    ensures ClosedUnder(g, types)
  {
    forall t, d | t in types && t in g && d in Slots(g[t]) ensures d in types {
      assert TypeWritten(g, types, messages[FirstIndex(types, t)], FirstIndex(types, t));
    }
  }

  method ExportsOf(exports: seq<NamedExport>, index: CountMap, ghost types: seq<Ref>)
    returns (r: Option<seq<Messages.Export>>)
    requires Numbers(index, types)
    ensures r.Some? <==> forall e :: e in exports ==> e.type_ in types
    ensures r.Some? ==> |r.value| == |exports| && forall i ::
      0 <= i < |exports| ==> ExportWritten(types, exports[i], r.value[i])
  {
    var messages := [];
    var i := 0;
    while i < |exports|
      invariant 0 <= i <= |exports| && |messages| == i
      invariant forall k :: 0 <= k < i ==> ExportWritten(types, exports[k], messages[k])
    {
      var id := index.GetID(exports[i].type_);
      if id.None? {
        return None;
      }
      messages := messages + [Messages.Export(exports[i].name, AsInt32(id.value), None)];
      i := i + 1;
    }
    return Some(messages);
  }

  /** The whole catalog; it fails exactly when some type or export refers to a type outside the catalog. */
  method Convert(g: Nodes, types: seq<Ref>, exports: seq<NamedExport>) returns (r: Option<Messages.Catalog>)
    requires Known(g, types)
    ensures r.Some? <==> Writable(g, types, exports)
    ensures r.Some? ==> Written(g, types, exports, r.value)
    ensures r.Some? && |types| < TWO_TO_31 ==> AllSaid(g, types, exports, r.value)
  {
    var index := new CountMap(types);
    var typeMessages := TypesOf(g, types, index);
    if typeMessages.None? {
      return None;
    }
    var exportMessages := ExportsOf(exports, index, types);
    if exportMessages.None? {
      return None;
    }
    var c := Messages.Catalog(typeMessages.value, exportMessages.value);
    if |types| < TWO_TO_31 {
      WrittenSays(g, types, exports, c);
    }
    return Some(c);
  }

  // ---- what the message says ----

  /** The numbers that a message refers to. */
  function References(m: Messages.Type): seq<nat> {
    var node := Described(m);
    if node.Some? then Slots(node.value) else []
  }

  lemma RecordReferences(node: TypeNode, id: nat, ids: seq<nat>)
    requires node.RecordType? && |ids| == |Slots(node)| && forall i :: 0 <= i < |ids| ==> ids[i] < TWO_TO_31
    ensures References(MessageFor(node, id, ids)) == ids
  {
    forall i | 0 <= i < |ids| ensures AsNat(AsInt32(ids[i])) == ids[i] {
      AsInt32Is(ids[i]);
    }
    assert Fields(FieldMessages(node.fields, ids)) == FieldsWith(node.fields, ids);
  }

  lemma FunctionReferences(node: TypeNode, id: nat, ids: seq<nat>)
    requires node.FunctionType? && |ids| == |Slots(node)| && forall i :: 0 <= i < |ids| ==> ids[i] < TWO_TO_31
    ensures References(MessageFor(node, id, ids)) == ids
  {
    AsInt32Is(ids[0]);
    AsIntsAre(ids[1..]);
  }

  lemma ReferencesAre(node: TypeNode, id: nat, ids: seq<nat>)
    requires |ids| == |Slots(node)| && forall i :: 0 <= i < |ids| ==> ids[i] < TWO_TO_31
    ensures References(MessageFor(node, id, ids)) == ids
  {
    match node
    case RecordType(_, _) => RecordReferences(node, id, ids);
    case FunctionType(_, _) => FunctionReferences(node, id, ids);
    case EnumType(_) =>
    case PrimitiveType(_) =>
    case _ => AsInt32Is(ids[0]);
  }

  /** What the message for one type says, given the numbers of its slots. */
  lemma MessageSays(types: seq<Ref>, node: TypeNode, id: nat, ids: seq<nat>, m: Messages.Type)
    requires AllIn(Slots(node), types) && |types| < TWO_TO_31 && id < TWO_TO_31
    requires ids == NumbersIn(types, Slots(node)) && |ids| == |Slots(node)| && m == MessageFor(node, id, ids)
    ensures m.id == AsInt32(id) && AsInt32(id) as int == id && References(m) == ids
    ensures Described(m) == Some(WithSlots(node, ids)) <==> Fits(node)
  {
    NumbersAre(types, Slots(node));
    MessageId(node, id, ids);
    AsInt32Is(id);
    ReferencesAre(node, id, ids);
    DescribesIffFits(node, id, ids);
  }

  /** n is the number of t, counted from one. */
  ghost predicate NumberFor(types: seq<Ref>, t: Ref, n: int32) {
    0 < n <= |types| && types[n - 1] == t
  }

  /** The message m has the kind, the data and the references of a type, field by field; numbers too large for a field
      are cut to 32 bits. */
  ghost predicate Says(types: seq<Ref>, node: TypeNode, m: Messages.Type) {
    match node
    case PrimitiveType(kind) => m.kind == 1 && (m.primitiveKind - kind) % TWO_TO_32 == 0
    case FixedArrayType(element, count) =>
      m.kind == 3 && NumberFor(types, element, m.elementType) && (m.size - count) % TWO_TO_32 == 0
    case PointerType(isBlock, referenced) =>
      m.kind == 4 && NumberFor(types, referenced, m.referencedType) && m.isBlockPointer == isBlock
    case FunctionType(ret, params) =>
      && m.kind == 5 && NumberFor(types, ret, m.returnType) && |m.paramType| == |params|
      && forall k :: 0 <= k < |params| ==> NumberFor(types, params[k], m.paramType[k])
    case EnumType(values) =>
      && m.kind == 6 && |m.value| == |values| && forall k :: 0 <= k < |values| ==>
        m.value[k].name == values[k].name && (m.value[k].value - values[k].value) % TWO_TO_32 == 0
    case QualType(isConst, isVolatile, underlying) =>
      && m.kind == 7 && NumberFor(types, underlying, m.underlyingType)
      && m.isConst == isConst && m.isVolatile == isVolatile
    case RecordType(isUnion, fields) =>
      && m.kind == (if isUnion then 9 else 8) && |m.field| == |fields| && forall k :: 0 <= k < |fields| ==>
        m.field[k].name == fields[k].name && NumberFor(types, fields[k].type_, m.field[k].type_)
  }

  lemma CutTo32(n: nat)
    ensures (AsInt32(n) - n) % TWO_TO_32 == 0 && (n < TWO_TO_31 ==> AsInt32(n) as int == n)
  {
    var low, q := n % TWO_TO_32, n / TWO_TO_32;
    assert n == TWO_TO_32 * q + low;
    assert low - n == TWO_TO_32 * -q && low - TWO_TO_32 - n == TWO_TO_32 * (-q - 1);
  }

  lemma NumbersSay(types: seq<Ref>, slots: seq<Ref>, ids: seq<nat>, k: nat)
    requires AllIn(slots, types) && |types| < TWO_TO_31 && ids == NumbersIn(types, slots) && k < |slots|
    ensures NumberFor(types, slots[k], AsInt32(ids[k]))
  {
    assert slots[k] in types;
    CutTo32(ids[k]);
  }

  lemma MessageSaysNode(types: seq<Ref>, node: TypeNode, id: nat, ids: seq<nat>)
    requires AllIn(Slots(node), types) && |types| < TWO_TO_31 && ids == NumbersIn(types, Slots(node))
    ensures Says(types, node, MessageFor(node, id, ids))
  {
    var slots := Slots(node);
    forall k: nat | k < |slots| ensures NumberFor(types, slots[k], AsInt32(ids[k])) {
      NumbersSay(types, slots, ids, k);
    }
    match node
    case PrimitiveType(kind) => CutTo32(kind);
    case FixedArrayType(_, count) => CutTo32(count);
    case EnumType(values) => EnumSays(values);
    case RecordType(_, fields) => RecordSays(types, fields, ids);
    case FunctionType(ret, params) => FunctionSays(types, ret, params, ids);
    case _ =>
  }

  lemma EnumSays(values: seq<Enumerator>)
    ensures |EnumMessages(values)| == |values| && forall k :: 0 <= k < |values| ==>
      var m := EnumMessages(values)[k]; m.name == values[k].name && (m.value - values[k].value) % TWO_TO_32 == 0
  {
    forall k | 0 <= k < |values| ensures (EnumMessages(values)[k].value - values[k].value) % TWO_TO_32 == 0 {
      CutTo32(values[k].value);
    }
  }

  lemma RecordSays(types: seq<Ref>, fields: seq<Field>, ids: seq<nat>)
    requires |ids| == |fields|
    requires forall k :: 0 <= k < |fields| ==> NumberFor(types, FieldTypes(fields)[k], AsInt32(ids[k]))
    ensures |FieldMessages(fields, ids)| == |fields| && forall k :: 0 <= k < |fields| ==>
      var m := FieldMessages(fields, ids)[k]; m.name == fields[k].name && NumberFor(types, fields[k].type_, m.type_)
  {
  }

  lemma FunctionSays(types: seq<Ref>, ret: Ref, params: seq<Ref>, ids: seq<nat>)
    requires |ids| == |params| + 1
    requires forall k :: 0 <= k < |ids| ==> NumberFor(types, ([ret] + params)[k], AsInt32(ids[k]))
    ensures NumberFor(types, ret, AsInt32(ids[0])) && |AsInts(ids[1..])| == |params|
    ensures forall k :: 0 <= k < |params| ==> NumberFor(types, params[k], AsInts(ids[1..])[k])
  {
    assert ([ret] + params)[0] == ret;
    forall k | 0 <= k < |params| ensures NumberFor(types, params[k], AsInts(ids[1..])[k]) {
      assert ([ret] + params)[k + 1] == params[k] && AsInts(ids[1..])[k] == AsInt32(ids[k + 1]);
    }
  }

  /** Message i has number i + 1 and says what type i is, and export i says its name and its type. */
  ghost predicate AllSaid(g: Nodes, types: seq<Ref>, exports: seq<NamedExport>, c: Messages.Catalog)
    requires Known(g, types)
  {
    && |c.type_| == |types| && |c.export_| == |exports|
    && (forall i {:trigger c.type_[i]} :: 0 <= i < |types| ==>
          NumberFor(types, types[i], c.type_[i].id) && Says(types, g[types[i]], c.type_[i]))
    && forall i {:trigger c.export_[i]} :: 0 <= i < |exports| ==>
         c.export_[i].name == exports[i].name && NumberFor(types, exports[i].type_, c.export_[i].type_)
  }

  lemma WrittenSays(g: Nodes, types: seq<Ref>, exports: seq<NamedExport>, c: Messages.Catalog)
    requires Known(g, types) && Written(g, types, exports, c) && |types| < TWO_TO_31
    ensures AllSaid(g, types, exports, c)
  {
    forall i | 0 <= i < |types|
      ensures NumberFor(types, types[i], c.type_[i].id) && Says(types, g[types[i]], c.type_[i])
    {
      assert TypeWritten(g, types, c.type_[i], i);
      TypeSays(types, g[types[i]], types[i], c.type_[i]);
    }
    forall i | 0 <= i < |exports|
      ensures c.export_[i].name == exports[i].name && NumberFor(types, exports[i].type_, c.export_[i].type_)
    {
      ExportSays(types, exports[i], c.export_[i]);
    }
  }

  lemma ExportSays(types: seq<Ref>, e: NamedExport, m: Messages.Export)
    requires ExportWritten(types, e, m) && |types| < TWO_TO_31
    ensures m.name == e.name && NumberFor(types, e.type_, m.type_)
  {
    CutTo32(Number(FirstIndex(types, e.type_)));
  }

  lemma TypeSays(types: seq<Ref>, node: TypeNode, t: Ref, m: Messages.Type)
    requires AllIn(Slots(node), types) && |types| < TWO_TO_31 && t in types
    requires m == MessageFor(node, Number(FirstIndex(types, t)), NumbersIn(types, Slots(node)))
    ensures NumberFor(types, t, m.id) && Says(types, node, m)
  {
    var id, ids := Number(FirstIndex(types, t)), NumbersIn(types, Slots(node));
    MessageId(node, id, ids);
    CutTo32(id);
    MessageSaysNode(types, node, id, ids);
  }

  /** Message i has number i + 1, and each of its references, less one, is the place of the type referred to. */
  lemma WrittenGraph(g: Nodes, types: seq<Ref>, exports: seq<NamedExport>, c: Messages.Catalog, i: nat)
    requires Known(g, types) && Distinct(types) && |types| < TWO_TO_31 && Written(g, types, exports, c) && i < |types|
    ensures c.type_[i].id == i + 1
    ensures var refs, slots := References(c.type_[i]), Slots(g[types[i]]);
            |refs| == |slots| && forall k :: 0 <= k < |refs| ==>
              0 < refs[k] <= |types| && types[refs[k] - 1] == slots[k]
    ensures Described(c.type_[i]) == Some(WithSlots(g[types[i]], NumbersIn(types, Slots(g[types[i]]))))
      <==> Fits(g[types[i]])
  {
    assert TypeWritten(g, types, c.type_[i], i);
    FirstOfDistinct(types, i);
    WrittenType(types, g[types[i]], Number(i), c.type_[i]);
  }

  lemma WrittenType(types: seq<Ref>, node: TypeNode, id: nat, m: Messages.Type)
    requires AllIn(Slots(node), types) && |types| < TWO_TO_31 && id < TWO_TO_31
    requires m == MessageFor(node, id, NumbersIn(types, Slots(node)))
    ensures m.id == id
    ensures var refs, slots := References(m), Slots(node);
            |refs| == |slots| && forall k :: 0 <= k < |refs| ==>
              0 < refs[k] <= |types| && types[refs[k] - 1] == slots[k]
    ensures Described(m) == Some(WithSlots(node, NumbersIn(types, Slots(node)))) <==> Fits(node)
  {
    NumbersAre(types, Slots(node));
    MessageSays(types, node, id, NumbersIn(types, Slots(node)), m);
  }

  lemma NumbersAre(types: seq<Ref>, slots: seq<Ref>)
    requires AllIn(slots, types) && |types| < TWO_TO_31
    ensures forall k :: 0 <= k < |slots| ==>
      var n := NumbersIn(types, slots)[k]; 0 < n <= |types| && types[n - 1] == slots[k]
  {
  }

  lemma MessageId(node: TypeNode, id: nat, ids: seq<nat>)
    requires |ids| == |Slots(node)|
    ensures MessageFor(node, id, ids).id == AsInt32(id)
  {
  }

  /** Every reference in the message is to a smaller number. */
  ghost predicate ReferencesBackwards(c: Messages.Catalog) {
    forall i, n :: 0 <= i < |c.type_| && n in References(c.type_[i]) ==> 0 < n < c.type_[i].id
  }

  /** The catalog of a sorted range refers to smaller numbers only exactly when the types of the range form no cycle. */
  lemma BackwardsIffAcyclic(range: seq<Ref>, g: Nodes, out: seq<seq<nat>>, sorted: seq<Ref>,
                            exports: seq<NamedExport>, c: Messages.Catalog)
    requires Sorts(range, g, out, sorted) && ClosedUnder(g, range) && |range| < TWO_TO_31
    ensures Known(g, Deduped(sorted))
    ensures Written(g, Deduped(sorted), exports, c) ==> (ReferencesBackwards(c) <==> !CyclicTypes(g, range))
  {
    var types := Deduped(sorted);
    DedupedHas(sorted);
    SameTypes(sorted, range);
    DedupedShorter(sorted);
    assert |sorted| == |multiset(sorted)| == |range|;
    if Written(g, types, exports, c) {
      OrderIffAcyclic(range, g, out, sorted);
      BackwardsIffOrdered(g, types, exports, c);
    }
  }

  lemma {:induction false} DedupedShorter<T>(s: seq<T>)
    ensures |Deduped(s)| <= |s|
  {
    if s != [] {
      DedupedShorter(s[..|s| - 1]);
    }
  }

  lemma BackwardsIffOrdered(g: Nodes, types: seq<Ref>, exports: seq<NamedExport>, c: Messages.Catalog)
    requires Known(g, types) && Distinct(types) && |types| < TWO_TO_31 && Written(g, types, exports, c)
    ensures ReferencesBackwards(c) <==> DependenciesFirst(g, types)
  {
    if DependenciesFirst(g, types) {
      forall i, n | 0 <= i < |c.type_| && n in References(c.type_[i]) ensures 0 < n < c.type_[i].id {
        OrderedBackwards(g, types, exports, c, i, n);
      }
    }
    if ReferencesBackwards(c) {
      forall t, d | t in types && t in g && d in Slots(g[t]) ensures Precedes(types, d, t) {
        BackwardsOrdered(g, types, exports, c, t, d);
      }
    }
  }

  lemma OrderedBackwards(g: Nodes, types: seq<Ref>, exports: seq<NamedExport>, c: Messages.Catalog, i: nat, n: nat)
    requires Known(g, types) && Distinct(types) && |types| < TWO_TO_31 && Written(g, types, exports, c)
    requires DependenciesFirst(g, types) && i < |c.type_| && n in References(c.type_[i])
    ensures 0 < n < c.type_[i].id
  {
    WrittenGraph(g, types, exports, c, i);
    var k :| 0 <= k < |References(c.type_[i])| && References(c.type_[i])[k] == n;
    assert Precedes(types, types[n - 1], types[i]);
    FirstOfDistinct(types, n - 1);
    FirstOfDistinct(types, i);
  }

  lemma BackwardsOrdered(g: Nodes, types: seq<Ref>, exports: seq<NamedExport>, c: Messages.Catalog, t: Ref, d: Ref)
    requires Known(g, types) && Distinct(types) && |types| < TWO_TO_31 && Written(g, types, exports, c)
    requires ReferencesBackwards(c) && t in types && d in Slots(g[t])
    ensures Precedes(types, d, t)
  {
    var i := FirstIndex(types, t);
    WrittenGraph(g, types, exports, c, i);
    var k :| 0 <= k < |Slots(g[t])| && Slots(g[t])[k] == d;
    var n := References(c.type_[i])[k];
    assert n in References(c.type_[i]);
    FirstOfDistinct(types, n - 1);
  }
}
