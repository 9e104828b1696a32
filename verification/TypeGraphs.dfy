/** Types as nodes that refer to each other by address. */
module TypeGraphs {
  import opened Wire

  type Ref = nat

  datatype Field = Field(name: Bytes, type_: Ref)
  datatype Enumerator = Enumerator(name: Bytes, value: nat)

  datatype TypeNode =
    | QualType(isConst: bool, isVolatile: bool, underlyingType: Ref)
    | EnumType(values: seq<Enumerator>)
    | RecordType(isUnion: bool, fields: seq<Field>)
    | PrimitiveType(primitiveKind: nat)
    | FunctionType(returnType: Ref, paramTypes: seq<Ref>)
    | FixedArrayType(elementType: Ref, count: nat)
    | PointerType(isBlock: bool, referencedType: Ref)

  type Nodes = map<Ref, TypeNode>

  function FieldTypes(fields: seq<Field>): (r: seq<Ref>)
    ensures |r| == |fields| && forall i :: 0 <= i < |r| ==> r[i] == fields[i].type_
  {
    seq(|fields|, i requires 0 <= i < |fields| => fields[i].type_)
  }

  /** The types a type refers to, slot by slot. */
  function Slots(node: TypeNode): seq<Ref> {
    match node
    case QualType(_, _, underlying) => [underlying]
    case EnumType(_) => []
    case RecordType(_, fields) => FieldTypes(fields)
    case PrimitiveType(_) => []
    case FunctionType(ret, params) => [ret] + params
    case FixedArrayType(element, _) => [element]
    case PointerType(_, referenced) => [referenced]
  }

  function FieldsWith(fields: seq<Field>, ids: seq<nat>): seq<Field>
    requires |ids| == |fields|
  {
    seq(|fields|, i requires 0 <= i < |fields| => fields[i].(type_ := ids[i]))
  }

  /** The type with other references in its slots. */
  function WithSlots(node: TypeNode, ids: seq<nat>): (r: TypeNode)
    requires |ids| == |Slots(node)|
    ensures Slots(r) == ids
  {
    match node
    case QualType(c, v, _) => QualType(c, v, ids[0])
    case EnumType(_) => node
    case RecordType(u, fields) => RecordType(u, FieldsWith(fields, ids))
    case PrimitiveType(_) => node
    case FunctionType(_, params) => FunctionType(ids[0], ids[1..])
    case FixedArrayType(_, count) => FixedArrayType(ids[0], count)
    case PointerType(b, _) => PointerType(b, ids[0])
  }

  /** Every slot of every type of s refers to a type of s. */
  ghost predicate ClosedUnder(g: Nodes, s: seq<Ref>) {
    forall t, d :: t in s && t in g && d in Slots(g[t]) ==> d in s
  }
}
