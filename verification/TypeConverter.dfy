/** The types of the source program, as the compiler presents them: shared, possibly cyclic, with qualifiers on
    references and with sugar that only names another type. */
module SourceTypes {
  import opened Options
  import opened Wire
  import opened TypeGraphs

  type TypeId = nat

  /** A reference to a type with its local qualifiers. */
  datatype QualId = QualId(type_: TypeId, isConst: bool, isVolatile: bool, isRestrict: bool)

  datatype Tag = StructTag | ClassTag | UnionTag | OtherTag

  datatype SourceField = SourceField(name: Bytes, type_: QualId)

  datatype SourceType =
    | Typedef(underlying: QualId)
    | Paren(inner: QualId)
    | Elaborated(named: QualId)
    | ConstantArray(element: QualId, size: nat)
    | Pointer(pointee: QualId)
    | BlockPointer(pointee: QualId)
    | Builtin(kind: Option<nat>)  // None: a kind without counterpart
    | Enum(values: seq<Enumerator>)
    | Record(tag: Tag, fields: seq<SourceField>)
    | FunctionNoProto(result: QualId)
    | FunctionProto(result: QualId, params: seq<QualId>)
    | Unknown

  /** A type with what the compiler knows about its canonical form. */
  datatype Entry = Entry(node: SourceType, constBelow: bool, volatileBelow: bool, sugarDepth: nat)

  type Source = map<TypeId, Entry>

  predicate IsSugar(node: SourceType) {
    node.Typedef? || node.Paren? || node.Elaborated?
  }

  function Inner(node: SourceType): QualId
    requires IsSugar(node)
  {
    match node
    case Typedef(q) => q
    case Paren(q) => q
    case Elaborated(q) => q
  }

  predicate HasQuals(k: QualId) {
    k.isConst || k.isVolatile || k.isRestrict
  }

  function Plain(t: TypeId): QualId {
    QualId(t, false, false, false)
  }

  function FieldKids(fields: seq<SourceField>): (r: seq<QualId>)
    ensures |r| == |fields| && forall i :: 0 <= i < |r| ==> r[i] == fields[i].type_
  {
    seq(|fields|, i requires 0 <= i < |fields| => fields[i].type_)
  }

  /** The references of a type, in the order in which they are converted. */
  function KidsOf(node: SourceType): seq<QualId> {
    match node
    case Typedef(q) => [q]
    case Paren(q) => [q]
    case Elaborated(q) => [q]
    case ConstantArray(q, _) => [q]
    case Pointer(q) => [q]
    case BlockPointer(q) => [q]
    case Builtin(_) => []
    case Enum(_) => []
    case Record(_, fields) => FieldKids(fields)
    case FunctionNoProto(q) => [q]
    case FunctionProto(q, params) => [q] + params
    case Unknown => []
  }

  /** References stay within the program, and sugar cannot go round in circles. */
  ghost predicate WellFormed(src: Source) {
    && (forall t, k :: t in src && k in KidsOf(src[t].node) ==> k.type_ in src)
    && (forall t :: t in src && IsSugar(src[t].node) ==>
         Inner(src[t].node).type_ in src && src[Inner(src[t].node).type_].sugarDepth < src[t].sugarDepth)
  }

  /** The references below a reference: the qualifiers come off first. */
  function Kids(src: Source, k: QualId): seq<QualId>
    requires k.type_ in src
  {
    if HasQuals(k) then [Plain(k.type_)] else KidsOf(src[k.type_].node)
  }

  /** A reference without its sugar. */
  function Core(src: Source, k: QualId): (r: QualId)
    requires WellFormed(src) && k.type_ in src
    ensures r.type_ in src && (HasQuals(r) || !IsSugar(src[r.type_].node))
    ensures HasQuals(k) || !IsSugar(src[k.type_].node) ==> r == k
    decreases src[k.type_].sugarDepth
  {
    if HasQuals(k) || !IsSugar(src[k.type_].node) then k else Core(src, Inner(src[k.type_].node))
  }

  /** No counterpart exists for the type itself. */
  predicate Unsupported(src: Source, k: QualId)
    requires k.type_ in src
  {
    var node := src[k.type_].node;
    !HasQuals(k) && (node.Unknown? || node == Builtin(None) || (node.Record? && node.tag.OtherTag?))
  }

  // ---- what can be reached ----

  ghost predicate LeadsTo(src: Source, p: seq<QualId>, i: nat)
    requires i + 1 < |p|
  {
    p[i].type_ in src && p[i + 1] in Kids(src, p[i])
  }

  ghost predicate Trail(src: Source, p: seq<QualId>, a: QualId, b: QualId) {
    p != [] && p[0] == a && p[|p| - 1] == b && forall i :: 0 <= i < |p| - 1 ==> LeadsTo(src, p, i)
  }

  /** Something without counterpart can be reached from a. */
  ghost predicate Unconvertible(src: Source, a: QualId) {
    exists p, b :: Trail(src, p, a, b) && b.type_ in src && Unsupported(src, b)
  }

  lemma UnsupportedHere(src: Source, a: QualId)
    requires a.type_ in src && Unsupported(src, a)
    ensures Unconvertible(src, a)
  {
    assert Trail(src, [a], a, a);
  }

  lemma UnsupportedBelow(src: Source, a: QualId, k: QualId)
    requires a.type_ in src && k in Kids(src, a) && Unconvertible(src, k)
    ensures Unconvertible(src, a)
  {
    var p, b :| Trail(src, p, k, b) && b.type_ in src && Unsupported(src, b);
    var q := [a] + p;
    forall i | 0 <= i < |q| - 1 ensures LeadsTo(src, q, i) {
      if i > 0 {
        assert LeadsTo(src, p, i - 1);
      }
    }
    assert Trail(src, q, a, b);
  }

  lemma OneStep(src: Source, a: QualId)
    requires a.type_ in src
    ensures Unconvertible(src, a)
      <==> Unsupported(src, a) || exists i :: 0 <= i < |Kids(src, a)| && Unconvertible(src, Kids(src, a)[i])
  {
    if Unconvertible(src, a) {
      var p, b :| Trail(src, p, a, b) && b.type_ in src && Unsupported(src, b);
      if |p| > 1 {
        assert LeadsTo(src, p, 0);
        var i :| 0 <= i < |Kids(src, a)| && Kids(src, a)[i] == p[1];
        var q := p[1..];
        forall j | 0 <= j < |q| - 1 ensures LeadsTo(src, q, j) {
          assert LeadsTo(src, p, j + 1);
        }
        assert Trail(src, q, p[1], b);
      }
    }
    if Unsupported(src, a) {
      UnsupportedHere(src, a);
    }
    if i :| 0 <= i < |Kids(src, a)| && Unconvertible(src, Kids(src, a)[i]) {
      UnsupportedBelow(src, a, Kids(src, a)[i]);
    }
  }

  /** Which references have no counterpart, kind by kind. */
  lemma UnconvertibleIs(src: Source, a: QualId)
    requires a.type_ in src
    ensures a.isConst || a.isVolatile || a.isRestrict ==>
              (Unconvertible(src, a) <==> Unconvertible(src, QualId(a.type_, false, false, false)))
    ensures !a.isConst && !a.isVolatile && !a.isRestrict ==>
              match src[a.type_].node
              case Typedef(q) => Unconvertible(src, a) <==> Unconvertible(src, q)
              case Paren(q) => Unconvertible(src, a) <==> Unconvertible(src, q)
              case Elaborated(q) => Unconvertible(src, a) <==> Unconvertible(src, q)
              case ConstantArray(q, _) => Unconvertible(src, a) <==> Unconvertible(src, q)
              case Pointer(q) => Unconvertible(src, a) <==> Unconvertible(src, q)
              case BlockPointer(q) => Unconvertible(src, a) <==> Unconvertible(src, q)
              case Builtin(kind) => Unconvertible(src, a) <==> kind.None?
              case Enum(_) => !Unconvertible(src, a)
              case Record(tag, fields) =>
                Unconvertible(src, a)
                <==> tag == OtherTag || exists i :: 0 <= i < |fields| && Unconvertible(src, fields[i].type_)
              case FunctionNoProto(q) => Unconvertible(src, a) <==> Unconvertible(src, q)
              case FunctionProto(q, params) =>
                Unconvertible(src, a)
                <==> Unconvertible(src, q) || exists i :: 0 <= i < |params| && Unconvertible(src, params[i])
              case Unknown => Unconvertible(src, a)
  {
    OneStep(src, a);
    var kids := Kids(src, a);
    if !HasQuals(a) && src[a.type_].node.Record? {
      var fields := src[a.type_].node.fields;
      assert forall i :: 0 <= i < |kids| ==> kids[i] == fields[i].type_;
    } else if !HasQuals(a) && src[a.type_].node.FunctionProto? {
      FunctionStep(src, a);
    } else if |kids| == 1 {
      assert Unconvertible(src, kids[0]) ==> exists i :: 0 <= i < |kids| && Unconvertible(src, kids[i]);
    }
  }

  lemma FunctionStep(src: Source, a: QualId)
    requires a.type_ in src && !HasQuals(a) && src[a.type_].node.FunctionProto?
    ensures var q, params := src[a.type_].node.result, src[a.type_].node.params;
            (exists i :: 0 <= i < |Kids(src, a)| && Unconvertible(src, Kids(src, a)[i]))
            <==> Unconvertible(src, q) || exists i :: 0 <= i < |params| && Unconvertible(src, params[i])
  {
    var q, params, kids := src[a.type_].node.result, src[a.type_].node.params, Kids(src, a);
    assert kids[0] == q && forall i :: 0 <= i < |params| ==> kids[i + 1] == params[i];
    if i :| 0 <= i < |kids| && Unconvertible(src, kids[i]) {
      assert i > 0 ==> Unconvertible(src, params[i - 1]);
    }
    if Unconvertible(src, q) {
      assert Unconvertible(src, kids[0]);
    }
    if i :| 0 <= i < |params| && Unconvertible(src, params[i]) {
      assert Unconvertible(src, kids[i + 1]);
    }
  }

  // ---- the converted form ----

  /** The converted type for a reference without sugar, its slots still empty. */
  function Skeleton(src: Source, k: QualId): (r: TypeNode)
    requires k.type_ in src && !Unsupported(src, k) && (HasQuals(k) || !IsSugar(src[k.type_].node))
    ensures |Slots(r)| == |Kids(src, k)|
  {
    if HasQuals(k) then QualType(k.isConst || src[k.type_].constBelow, k.isVolatile || src[k.type_].volatileBelow, 0)
    else match src[k.type_].node
      case ConstantArray(_, size) => FixedArrayType(0, size)
      case Pointer(_) => PointerType(false, 0)
      case BlockPointer(_) => PointerType(true, 0)
      case Builtin(kind) => PrimitiveType(kind.value)
      case Enum(values) => EnumType(values)
      case Record(tag, fields) => RecordType(tag.UnionTag?, BlankFields(fields))
      case FunctionNoProto(_) => FunctionType(0, [])
      case FunctionProto(_, params) => FunctionType(0, seq(|params|, i => 0))
  }

  function BlankFields(fields: seq<SourceField>): (r: seq<Field>)
    ensures |r| == |fields|
  {
    seq(|fields|, i requires 0 <= i < |fields| => Field(fields[i].name, 0))
  }
}

/** What the memo table of a conversion promises. */
module Conversion {
  import opened TypeGraphs
  import opened SourceTypes

  type Memo = map<QualId, Ref>

  predicate IsCore(src: Source, k: QualId) {
    k.type_ in src && (HasQuals(k) || !IsSugar(src[k.type_].node))
  }

  ghost predicate KidConverted(src: Source, m: Memo, k: QualId)
    requires WellFormed(src)
  {
    k.type_ in src && Core(src, k) in m
  }

  ghost function Images(src: Source, m: Memo, kids: seq<QualId>): (r: seq<Ref>)
    requires WellFormed(src) && forall i :: 0 <= i < |kids| ==> KidConverted(src, m, kids[i])
    ensures |r| == |kids|
  {
    seq(|kids|, i requires 0 <= i < |kids| => assert KidConverted(src, m, kids[i]); m[Core(src, kids[i])])
  }

  /** The references of k have entries of their own; below qualifiers that holds for what the type stands for. */
  ghost predicate KidsKnown(src: Source, m: Memo, k: QualId)
    requires k.type_ in src
  {
    if HasQuals(k) then IsSugar(src[k.type_].node) ==> Inner(src[k.type_].node) in m
    else forall i :: 0 <= i < |Kids(src, k)| ==> Kids(src, k)[i] in m
  }

  /** The object for k is finished: its kind and contents are those of the type, and each slot holds the object for
      the matching reference. */
  ghost predicate Complete(src: Source, m: Memo, n: Nodes, k: QualId)
    requires WellFormed(src)
  {
    && IsCore(src, k) && !Unsupported(src, k) && k in m && m[k] in n
    && (forall i :: 0 <= i < |Kids(src, k)| ==> KidConverted(src, m, Kids(src, k)[i])) && KidsKnown(src, m, k)
    && n[m[k]] == WithSlots(Skeleton(src, k), Images(src, m, Kids(src, k)))
  }

  /** A reference and its sugar-free form have the same object. */
  ghost predicate Named(src: Source, m: Memo, n: Nodes, k: QualId)
    requires WellFormed(src)
  {
    && k in m && KidConverted(src, m, k) && m[k] == m[Core(src, k)] && m[k] in n
    && (!IsCore(src, k) ==> Inner(src[k.type_].node) in m)
  }

  /** The memo table m with the objects n; those for the references of open are still being filled. */
  ghost predicate Consistent(src: Source, m: Memo, n: Nodes, brk: nat, open: set<QualId>) {
    && WellFormed(src)
    && (forall o :: o in n ==> 0 < o < brk) && 0 < brk
    && (forall k :: k in m ==> Named(src, m, n, k))
    && (forall k, l :: k in m && l in m && IsCore(src, k) && IsCore(src, l) && m[k] == m[l] ==> k == l)
    && (forall k :: k in open ==> k in m && IsCore(src, k))
    && (forall k {:trigger Complete(src, m, n, k)} :: k in m && IsCore(src, k) && k !in open ==> Complete(src, m, n, k))
  }

  /** Nothing is forgotten, and no earlier object is touched. */
  ghost predicate Extends(m: Memo, n: Nodes, m': Memo, n': Nodes) {
    && (forall k :: k in m ==> k in m' && m'[k] == m[k])
    && (forall o :: o in n ==> o in n' && n'[o] == n[o])
  }

  lemma ExtendsTrans(m: Memo, n: Nodes, m1: Memo, n1: Nodes, m2: Memo, n2: Nodes)
    requires Extends(m, n, m1, n1) && Extends(m1, n1, m2, n2)
    ensures Extends(m, n, m2, n2)
  {
  }

  lemma CompleteKept(src: Source, m: Memo, n: Nodes, m': Memo, n': Nodes, k: QualId)
    requires WellFormed(src) && Complete(src, m, n, k) && forall l :: l in m ==> l in m' && m'[l] == m[l]
    requires m[k] in n' && n'[m[k]] == n[m[k]]
    ensures Complete(src, m', n', k)
  {
    forall i | 0 <= i < |Kids(src, k)| ensures KidConverted(src, m', Kids(src, k)[i]) {
      assert KidConverted(src, m, Kids(src, k)[i]);
    }
    assert Images(src, m', Kids(src, k)) == Images(src, m, Kids(src, k));
  }

  lemma NamedKept(src: Source, m: Memo, n: Nodes, m': Memo, n': Nodes, k: QualId)
    requires WellFormed(src) && Named(src, m, n, k) && n.Keys <= n'.Keys
    requires forall l :: l in m ==> l in m' && m'[l] == m[l]
    ensures Named(src, m', n', k)
  {
  }

  lemma AllNamedKept(src: Source, m: Memo, n: Nodes, m': Memo, n': Nodes)
    requires WellFormed(src) && n.Keys <= n'.Keys && forall l :: l in m ==> l in m' && m'[l] == m[l]
    requires forall k :: k in m ==> Named(src, m, n, k)
    ensures forall k :: k in m ==> Named(src, m', n', k)
  {
    forall k | k in m ensures Named(src, m', n', k) {
      NamedKept(src, m, n, m', n', k);
    }
  }

  lemma AllCompleteKept(src: Source, m: Memo, n: Nodes, m': Memo, n': Nodes, open: set<QualId>)
    requires WellFormed(src) && forall l :: l in m ==> l in m' && m'[l] == m[l]
    requires forall k {:trigger Complete(src, m, n, k)} :: k in m && IsCore(src, k) && k !in open ==>
      Complete(src, m, n, k) && m[k] in n' && n'[m[k]] == n[m[k]]
    ensures forall k {:trigger Complete(src, m', n', k)} :: k in m && IsCore(src, k) && k !in open ==>
      Complete(src, m', n', k)
  {
    forall k | k in m && IsCore(src, k) && k !in open ensures Complete(src, m', n', k) {
      assert Complete(src, m, n, k);
      CompleteKept(src, m, n, m', n', k);
    }
  }

  /** A new object for a new reference, still to be filled. */
  lemma Registered(src: Source, m: Memo, n: Nodes, brk: nat, open: set<QualId>, k: QualId, node: TypeNode)
    requires Consistent(src, m, n, brk, open) && IsCore(src, k) && k !in m
    ensures Consistent(src, m[k := brk], n[brk := node], brk + 1, open + {k})
    ensures Extends(m, n, m[k := brk], n[brk := node])
  {
    var m', n' := m[k := brk], n[brk := node];
    AllNamedKept(src, m, n, m', n');
    forall x, y | x in m' && y in m' && IsCore(src, x) && IsCore(src, y) && m'[x] == m'[y] ensures x == y {
      assert (x in m ==> Named(src, m, n, x)) && (y in m ==> Named(src, m, n, y));
    }
    forall l | l in m && IsCore(src, l) && l !in open
      ensures Complete(src, m, n, l) && m[l] in n' && n'[m[l]] == n[m[l]]
    {
      assert Complete(src, m, n, l);
    }
    AllCompleteKept(src, m, n, m', n', open);
  }

  /** Sugar gets the object of what it stands for. */
  lemma SugarNamed(src: Source, m: Memo, n: Nodes, brk: nat, open: set<QualId>, k: QualId)
    requires Consistent(src, m, n, brk, open) && k.type_ in src && !IsCore(src, k) && k !in m && Core(src, k) in m
    requires Inner(src[k.type_].node) in m
    ensures Consistent(src, m[k := m[Core(src, k)]], n, brk, open) && Extends(m, n, m[k := m[Core(src, k)]], n)
  {
    var m' := m[k := m[Core(src, k)]];
    assert Named(src, m, n, Core(src, k));
    AllNamedKept(src, m, n, m', n);
    assert Named(src, m', n, k);
    SugarComplete(src, m, n, brk, open, m', k);
  }

  lemma SugarComplete(src: Source, m: Memo, n: Nodes, brk: nat, open: set<QualId>, m': Memo, k: QualId)
    requires Consistent(src, m, n, brk, open) && k.type_ in src && !IsCore(src, k) && m'.Keys == m.Keys + {k}
    requires forall l :: l in m ==> m'[l] == m[l]
    ensures forall l {:trigger Complete(src, m', n, l)} :: l in m' && IsCore(src, l) && l !in open ==>
      Complete(src, m', n, l)
  {
    forall l | l in m && IsCore(src, l) && l !in open ensures Complete(src, m, n, l) && m[l] in n {
      assert Complete(src, m, n, l);
    }
    AllCompleteKept(src, m, n, m', n, open);
  }

  lemma ObjectChanged(src: Source, m: Memo, n: Nodes, brk: nat, open: set<QualId>, k: QualId, node: TypeNode)
    requires Consistent(src, m, n, brk, open) && k in open
    ensures m[k] in n && forall l :: l in m ==> Named(src, m, n[m[k] := node], l)
    ensures forall l {:trigger Complete(src, m, n[m[k] := node], l)} :: l in m && IsCore(src, l) && l !in open ==>
      Complete(src, m, n[m[k] := node], l)
  {
    var n' := n[m[k] := node];
    assert Named(src, m, n, k);
    AllNamedKept(src, m, n, m, n');
    forall l | l in m && IsCore(src, l) && l !in open
      ensures Complete(src, m, n, l) && m[l] in n' && n'[m[l]] == n[m[l]]
    {
      assert Complete(src, m, n, l);
    }
    AllCompleteKept(src, m, n, m, n', open);
  }

  /** The object for k gets its slots. */
  lemma Filled(src: Source, m: Memo, n: Nodes, brk: nat, open: set<QualId>, k: QualId, node: TypeNode)
    requires Consistent(src, m, n, brk, open + {k}) && k !in open && IsCore(src, k) && !Unsupported(src, k) && k in m
    requires forall i :: 0 <= i < |Kids(src, k)| ==> KidConverted(src, m, Kids(src, k)[i])
    requires KidsKnown(src, m, k)
    requires node == WithSlots(Skeleton(src, k), Images(src, m, Kids(src, k)))
    ensures Consistent(src, m, n[m[k] := node], brk, open)
  {
    ObjectChanged(src, m, n, brk, open + {k}, k, node);
    assert Complete(src, m, n[m[k] := node], k);
  }

  /** Objects still open may change. */
  lemma StillOpen(src: Source, m: Memo, n: Nodes, brk: nat, open: set<QualId>, k: QualId, node: TypeNode)
    requires Consistent(src, m, n, brk, open) && k in open
    ensures Consistent(src, m, n[m[k] := node], brk, open)
  {
    ObjectChanged(src, m, n, brk, open, k, node);
  }

  // ---- the whole graph ----

  /** Every reference below a converted one is convertible. */
  lemma {:induction false} NothingUnsupported(src: Source, m: Memo, n: Nodes, brk: nat, p: seq<QualId>, a: QualId,
                                              b: QualId)
    requires Consistent(src, m, n, brk, {}) && Trail(src, p, a, b) && KidConverted(src, m, a) && b.type_ in src
    ensures !Unsupported(src, b)
    decreases |p|
  {
    if IsCore(src, a) {
      assert Complete(src, m, n, a);
    }
    if |p| > 1 {
      assert LeadsTo(src, p, 0);
      var q := p[1..];
      forall i | 0 <= i < |q| - 1 ensures LeadsTo(src, q, i) {
        assert LeadsTo(src, p, i + 1);
      }
      if IsCore(src, a) {
        var i :| 0 <= i < |Kids(src, a)| && Kids(src, a)[i] == p[1];
        assert KidConverted(src, m, Kids(src, a)[i]);
      }
      NothingUnsupported(src, m, n, brk, q, p[1], b);
    }
  }

  lemma ConvertedConvertible(src: Source, m: Memo, n: Nodes, brk: nat, k: QualId)
    requires Consistent(src, m, n, brk, {}) && KidConverted(src, m, k)
    ensures !Unconvertible(src, k)
  {
    forall p, b | Trail(src, p, k, b) && b.type_ in src ensures !Unsupported(src, b) {
      NothingUnsupported(src, m, n, brk, p, k, b);
    }
  }

  /** The converted types refer to each other only: nothing a catalog of them needs is missing. */
  lemma ObjectsClosed(src: Source, m: Memo, n: Nodes, brk: nat, objs: seq<Ref>)
    requires Consistent(src, m, n, brk, {}) && forall o :: o in objs <==> o in m.Values
    ensures ClosedUnder(n, objs) && forall o :: o in objs ==> o in n
  {
    forall o | o in objs ensures o in n && forall d :: d in Slots(n[o]) ==> d in objs {
      assert o in m.Values;
      var k :| k in m && m[k] == o;
      assert Named(src, m, n, k);
      var c := Core(src, k);
      assert Complete(src, m, n, c);
      forall d | d in Slots(n[o]) ensures d in objs {
        var i :| 0 <= i < |Slots(n[o])| && Slots(n[o])[i] == d;
        assert KidConverted(src, m, Kids(src, c)[i]);
        assert d in m.Values;
      }
    }
  }

  // ---- one object ----

  /** What the object of k is to hold, kind by kind: contents, and in each slot the object of the reference itself. */
  ghost predicate Described(src: Source, m: Memo, n: Nodes, k: QualId) {
    && k.type_ in src && k in m && m[k] in n
    && if k.isConst || k.isVolatile || k.isRestrict then
         && n[m[k]].QualType?
         && (n[m[k]].isConst <==> k.isConst || src[k.type_].constBelow)
         && (n[m[k]].isVolatile <==> k.isVolatile || src[k.type_].volatileBelow)
         && match src[k.type_].node
            case Typedef(q) => q in m && n[m[k]].underlyingType == m[q]
            case Paren(q) => q in m && n[m[k]].underlyingType == m[q]
            case Elaborated(q) => q in m && n[m[k]].underlyingType == m[q]
            case _ => QualId(k.type_, false, false, false) in m
                        && n[m[k]].underlyingType == m[QualId(k.type_, false, false, false)]
       else match src[k.type_].node
            case Typedef(q) => q in m && m[k] == m[q]
            case Paren(q) => q in m && m[k] == m[q]
            case Elaborated(q) => q in m && m[k] == m[q]
            case ConstantArray(q, size) => q in m && n[m[k]] == FixedArrayType(m[q], size)
            case Pointer(q) => q in m && n[m[k]] == PointerType(false, m[q])
            case BlockPointer(q) => q in m && n[m[k]] == PointerType(true, m[q])
            case Builtin(kind) => kind.Some? && n[m[k]] == PrimitiveType(kind.value)
            case Enum(values) => n[m[k]] == EnumType(values)
            case Record(tag, fields) =>
              && tag != OtherTag && n[m[k]].RecordType? && (n[m[k]].isUnion <==> tag == UnionTag)
              && |n[m[k]].fields| == |fields|
              && forall i :: 0 <= i < |fields| ==> FieldHeld(m, fields[i], n[m[k]].fields[i])
            case FunctionNoProto(q) => q in m && n[m[k]] == FunctionType(m[q], [])
            case FunctionProto(q, params) =>
              && n[m[k]].FunctionType? && q in m && n[m[k]].returnType == m[q]
              && |n[m[k]].paramTypes| == |params|
              && forall i :: 0 <= i < |params| ==> params[i] in m && n[m[k]].paramTypes[i] == m[params[i]]
            case Unknown => false
  }

  ghost predicate FieldHeld(m: Memo, f: SourceField, d: Field) {
    f.type_ in m && d.name == f.name && d.type_ == m[f.type_]
  }

  lemma QualifiedObject(src: Source, m: Memo, n: Nodes, brk: nat, k: QualId)
    requires Consistent(src, m, n, brk, {}) && k in m && HasQuals(k)
    ensures Described(src, m, n, k)
  {
    assert Named(src, m, n, k) && Complete(src, m, n, k);
    var under := Plain(k.type_);
    assert Kids(src, k)[0] == under && KidConverted(src, m, Kids(src, k)[0]);
    assert n[m[k]].underlyingType == Slots(n[m[k]])[0] == m[Core(src, under)];
    if IsSugar(src[k.type_].node) {
      assert Named(src, m, n, Inner(src[k.type_].node));
    }
  }

  lemma SugarObject(src: Source, m: Memo, n: Nodes, brk: nat, k: QualId)
    requires Consistent(src, m, n, brk, {}) && k in m && !HasQuals(k) && k.type_ in src && IsSugar(src[k.type_].node)
    ensures Described(src, m, n, k)
  {
    assert Named(src, m, n, k) && Named(src, m, n, Inner(src[k.type_].node));
  }

  /** A slot of a plain object holds the object of the reference it stands for. */
  lemma SlotIs(src: Source, m: Memo, n: Nodes, brk: nat, k: QualId, i: nat)
    requires Consistent(src, m, n, brk, {}) && k in m && IsCore(src, k) && !HasQuals(k) && i < |Kids(src, k)|
    ensures Named(src, m, n, k) && Complete(src, m, n, k) && Kids(src, k)[i] in m
    ensures Slots(n[m[k]])[i] == m[Kids(src, k)[i]]
  {
    assert Named(src, m, n, k) && Complete(src, m, n, k);
    assert Named(src, m, n, Kids(src, k)[i]);
  }

  lemma SmallObject(src: Source, m: Memo, n: Nodes, brk: nat, k: QualId)
    requires Consistent(src, m, n, brk, {}) && k in m && IsCore(src, k) && !HasQuals(k)
    requires !src[k.type_].node.Record? && !src[k.type_].node.FunctionProto?
    ensures Described(src, m, n, k)
  {
    assert Named(src, m, n, k) && Complete(src, m, n, k);
    if |Kids(src, k)| == 1 {
      SlotIs(src, m, n, brk, k, 0);
    }
  }

  lemma RecordObject(src: Source, m: Memo, n: Nodes, brk: nat, k: QualId)
    requires Consistent(src, m, n, brk, {}) && k in m && IsCore(src, k) && !HasQuals(k) && src[k.type_].node.Record?
    ensures Described(src, m, n, k)
  {
    assert Named(src, m, n, k) && Complete(src, m, n, k);
    var fields := src[k.type_].node.fields;
    forall i | 0 <= i < |fields| ensures FieldHeld(m, fields[i], n[m[k]].fields[i]) {
      SlotIs(src, m, n, brk, k, i);
    }
  }

  lemma ParamObjects(src: Source, m: Memo, n: Nodes, brk: nat, k: QualId, i: nat)
    requires Consistent(src, m, n, brk, {}) && k in m && IsCore(src, k) && !HasQuals(k)
    requires src[k.type_].node.FunctionProto? && i < |src[k.type_].node.params| && m[k] in n
    requires n[m[k]].FunctionType? && |n[m[k]].paramTypes| == |src[k.type_].node.params|
    ensures src[k.type_].node.params[i] in m && n[m[k]].paramTypes[i] == m[src[k.type_].node.params[i]]
  {
    SlotIs(src, m, n, brk, k, i + 1);
  }

  lemma FunctionShape(src: Source, m: Memo, n: Nodes, brk: nat, k: QualId)
    requires Consistent(src, m, n, brk, {}) && k in m && IsCore(src, k) && !HasQuals(k)
    requires src[k.type_].node.FunctionProto?
    ensures m[k] in n && n[m[k]].FunctionType? && |n[m[k]].paramTypes| == |src[k.type_].node.params|
    ensures src[k.type_].node.result in m && n[m[k]].returnType == m[src[k.type_].node.result]
  {
    SlotIs(src, m, n, brk, k, 0);
  }

  lemma FunctionObject(src: Source, m: Memo, n: Nodes, brk: nat, k: QualId)
    requires Consistent(src, m, n, brk, {}) && k in m && IsCore(src, k) && !HasQuals(k)
    requires src[k.type_].node.FunctionProto?
    ensures Described(src, m, n, k)
  {
    FunctionShape(src, m, n, brk, k);
    var params := src[k.type_].node.params;
    forall i | 0 <= i < |params| ensures params[i] in m && n[m[k]].paramTypes[i] == m[params[i]] {
      ParamObjects(src, m, n, brk, k, i);
    }
  }

  /** Every entry of a finished table is as described. */
  lemma EveryObject(src: Source, m: Memo, n: Nodes, brk: nat)
    requires Consistent(src, m, n, brk, {})
    ensures forall k :: k in m ==> Described(src, m, n, k)
  {
    forall k | k in m ensures Described(src, m, n, k) {
      assert Named(src, m, n, k);
      if HasQuals(k) {
        QualifiedObject(src, m, n, brk, k);
      } else if IsSugar(src[k.type_].node) {
        SugarObject(src, m, n, brk, k);
      } else if src[k.type_].node.Record? {
        RecordObject(src, m, n, brk, k);
      } else if src[k.type_].node.FunctionProto? {
        FunctionObject(src, m, n, brk, k);
      } else {
        SmallObject(src, m, n, brk, k);
      }
    }
  }

  // ---- the same tree, to any depth ----

  /** A type graph seen from one type, down to some depth. */
  datatype View = Cut | View(node: TypeNode, below: seq<View>)

  /** The type with empty slots. */
  function Blank(node: TypeNode): TypeNode {
    WithSlots(node, seq(|Slots(node)|, i => 0))
  }

  ghost function SourceView(src: Source, k: QualId, depth: nat): View
    requires WellFormed(src) && k.type_ in src && !Unconvertible(src, k)
    decreases depth
  {
    if depth == 0 then Cut else
      var c := Core(src, k);
      CoreConvertible(src, k);
      var kids := Kids(src, c);
      View(Blank(Skeleton(src, c)),
        seq(|kids|, i requires 0 <= i < |kids| => KidConvertible(src, c, i); SourceView(src, kids[i], depth - 1)))
  }

  lemma CoreConvertible(src: Source, k: QualId)
    requires WellFormed(src) && k.type_ in src && !Unconvertible(src, k)
    ensures !Unconvertible(src, Core(src, k)) && !Unsupported(src, Core(src, k))
    decreases src[k.type_].sugarDepth
  {
    if IsCore(src, k) {
      if Unsupported(src, k) {
        UnsupportedHere(src, k);
      }
    } else {
      var inner := Inner(src[k.type_].node);
      assert inner == Kids(src, k)[0];
      if Unconvertible(src, inner) {
        UnsupportedBelow(src, k, inner);
      }
      CoreConvertible(src, inner);
    }
  }

  lemma KidConvertible(src: Source, k: QualId, i: nat)
    requires WellFormed(src) && k.type_ in src && !Unconvertible(src, k) && i < |Kids(src, k)|
    ensures Kids(src, k)[i].type_ in src && !Unconvertible(src, Kids(src, k)[i])
  {
    assert Kids(src, k)[i] in Kids(src, k);
    assert !HasQuals(k) ==> Kids(src, k)[i] in KidsOf(src[k.type_].node);
    if Unconvertible(src, Kids(src, k)[i]) {
      UnsupportedBelow(src, k, Kids(src, k)[i]);
    }
  }

  ghost function TypeView(n: Nodes, o: Ref, depth: nat): View
    decreases depth
  {
    if depth == 0 || o !in n then Cut else
      View(Blank(n[o]), seq(|Slots(n[o])|, i requires 0 <= i < |Slots(n[o])| => TypeView(n, Slots(n[o])[i], depth - 1)))
  }

  lemma BlankOf(node: TypeNode, refs: seq<Ref>)
    requires |refs| == |Slots(node)|
    ensures Blank(WithSlots(node, refs)) == Blank(node)
  {
    if node.RecordType? {
      assert Blank(WithSlots(node, refs)).fields == Blank(node).fields;
    } else if node.FunctionType? {
      assert Blank(WithSlots(node, refs)).paramTypes == Blank(node).paramTypes;
    }
  }

  /** The converted graph looks like the source seen through its sugar, to any depth, cycles included. */
  lemma {:induction false} SameView(src: Source, m: Memo, n: Nodes, brk: nat, k: QualId, depth: nat)
    requires Consistent(src, m, n, brk, {}) && KidConverted(src, m, k)
    ensures !Unconvertible(src, k) && TypeView(n, m[Core(src, k)], depth) == SourceView(src, k, depth)
    decreases depth
  {
    ConvertedConvertible(src, m, n, brk, k);
    if depth > 0 {
      var c := Core(src, k);
      assert Complete(src, m, n, c);
      CoreConvertible(src, k);
      var below := depth - 1;
      forall i | 0 <= i < |Kids(src, c)| ensures KidSameView(src, m, n, c, i, below) {
        KidConvertible(src, c, i);
        assert KidConverted(src, m, Kids(src, c)[i]);
        SameView(src, m, n, brk, Kids(src, c)[i], below);
      }
      SameBelow(src, m, n, k, below);
    }
  }

  ghost predicate KidSameView(src: Source, m: Memo, n: Nodes, c: QualId, i: nat, depth: nat)
    requires WellFormed(src) && Complete(src, m, n, c) && i < |Kids(src, c)|
  {
    var kid := Kids(src, c)[i];
    kid.type_ in src && !Unconvertible(src, kid) && TypeView(n, Slots(n[m[c]])[i], depth) == SourceView(src, kid, depth)
  }

  lemma SameBelow(src: Source, m: Memo, n: Nodes, k: QualId, below: nat)
    requires WellFormed(src) && k.type_ in src && !Unconvertible(src, k) && Complete(src, m, n, Core(src, k))
    requires forall i :: 0 <= i < |Kids(src, Core(src, k))| ==> KidSameView(src, m, n, Core(src, k), i, below)
    ensures TypeView(n, m[Core(src, k)], below + 1) == SourceView(src, k, below + 1)
  {
    var c := Core(src, k);
    CoreConvertible(src, k);
    BlankOf(Skeleton(src, c), Images(src, m, Kids(src, c)));
    var v, w := TypeView(n, m[c], below + 1), SourceView(src, k, below + 1);
    forall i | 0 <= i < |w.below| ensures v.below[i] == w.below[i] {
      assert KidSameView(src, m, n, c, i, below);
    }
    assert v.below == w.below;
  }
}

/** The converter: the table is looked up first, and an object is entered before its slots are converted. */
module TypeConversion {
  import opened Options
  import opened TypeGraphs
  import opened SourceTypes
  import opened Conversion

  ghost function AllKeys(src: Source): set<QualId> {
    set t, c: bool, v: bool, r: bool | t in src :: QualId(t, c, v, r)
  }

  lemma OneKeyLess(src: Source, m: Memo, k: QualId, m': Memo)
    requires k.type_ in src && k !in m && k in m' && forall l :: l in m ==> l in m'
    ensures AllKeys(src) - m'.Keys < AllKeys(src) - m.Keys
  {
    assert k in AllKeys(src);
  }

  /** The fields converted so far. */
  ghost predicate FieldsDone(src: Source, m: Memo, fields: seq<SourceField>, done: seq<Field>)
    requires WellFormed(src)
  {
    |done| <= |fields| && forall i :: 0 <= i < |done| ==> FieldDone(src, m, fields[i], done[i])
  }

  ghost predicate FieldDone(src: Source, m: Memo, f: SourceField, d: Field)
    requires WellFormed(src)
  {
    f.type_ in m && KidConverted(src, m, f.type_) && d == Field(f.name, m[Core(src, f.type_)])
  }

  ghost predicate ParamsDone(src: Source, m: Memo, params: seq<QualId>, done: seq<Ref>)
    requires WellFormed(src)
  {
    |done| <= |params| && forall i :: 0 <= i < |done| ==> ParamDone(src, m, params[i], done[i])
  }

  ghost predicate ParamDone(src: Source, m: Memo, q: QualId, d: Ref)
    requires WellFormed(src)
  {
    q in m && UnderDone(src, m, q, d)
  }

  ghost predicate UnderDone(src: Source, m: Memo, q: QualId, d: Ref)
    requires WellFormed(src)
  {
    KidConverted(src, m, q) && d == m[Core(src, q)] && (!IsCore(src, q) ==> Inner(src[q.type_].node) in m)
  }

  /** The record object of k has its first i fields. */
  ghost predicate RecordUpTo(src: Source, m: Memo, k: QualId, node: TypeNode, i: nat)
    requires WellFormed(src)
  {
    && k.type_ in src && !HasQuals(k) && src[k.type_].node.Record?
    && node.RecordType? && node.isUnion == src[k.type_].node.tag.UnionTag? && |node.fields| == i
    && FieldsDone(src, m, src[k.type_].node.fields, node.fields)
  }

  /** The function object of k has its return type and its first i parameters. */
  ghost predicate FunctionUpTo(src: Source, m: Memo, k: QualId, node: TypeNode, i: nat)
    requires WellFormed(src)
  {
    && k.type_ in src && !HasQuals(k) && src[k.type_].node.FunctionProto?
    && node.FunctionType? && |node.paramTypes| == i && ParamDone(src, m, src[k.type_].node.result, node.returnType)
    && ParamsDone(src, m, src[k.type_].node.params, node.paramTypes)
  }

  lemma RecordNext(src: Source, m: Memo, n: Nodes, m': Memo, n': Nodes, k: QualId, node: TypeNode, i: nat, r: Ref)
    requires WellFormed(src) && RecordUpTo(src, m, k, node, i) && Extends(m, n, m', n')
    requires i < |src[k.type_].node.fields|
    requires ParamDone(src, m', src[k.type_].node.fields[i].type_, r)
    ensures RecordUpTo(src, m', k, node.(fields := node.fields + [Field(src[k.type_].node.fields[i].name, r)]), i + 1)
  {
    var fields, done := src[k.type_].node.fields, node.fields + [Field(src[k.type_].node.fields[i].name, r)];
    forall j | 0 <= j < |done| ensures FieldDone(src, m', fields[j], done[j]) {
      assert j < i ==> FieldDone(src, m, fields[j], node.fields[j]);
    }
  }

  lemma FunctionBegun(src: Source, m: Memo, k: QualId, node: TypeNode)
    requires WellFormed(src) && k.type_ in src && !HasQuals(k) && src[k.type_].node.FunctionProto?
    requires node.FunctionType? && node.paramTypes == [] && ParamDone(src, m, src[k.type_].node.result, node.returnType)
    ensures FunctionUpTo(src, m, k, node, 0)
  {
  }

  lemma FunctionNext(src: Source, m: Memo, n: Nodes, m': Memo, n': Nodes, k: QualId, node: TypeNode, i: nat, r: Ref)
    requires WellFormed(src) && FunctionUpTo(src, m, k, node, i) && Extends(m, n, m', n')
    requires i < |src[k.type_].node.params|
    requires ParamDone(src, m', src[k.type_].node.params[i], r)
    ensures FunctionUpTo(src, m', k, node.(paramTypes := node.paramTypes + [r]), i + 1)
  {
    var params, done := src[k.type_].node.params, node.paramTypes + [r];
    forall j | 0 <= j < |done| ensures ParamDone(src, m', params[j], done[j]) {
      assert j < i ==> ParamDone(src, m, params[j], node.paramTypes[j]);
    }
  }

  /** The slots of k are converted. */
  ghost predicate KidsDone(src: Source, m: Memo, k: QualId, node: TypeNode)
    requires WellFormed(src)
  {
    && IsCore(src, k) && !Unsupported(src, k)
    && (forall i :: 0 <= i < |Kids(src, k)| ==> KidConverted(src, m, Kids(src, k)[i])) && KidsKnown(src, m, k)
    && node == WithSlots(Skeleton(src, k), Images(src, m, Kids(src, k)))
  }

  lemma RecordDone(src: Source, m: Memo, k: QualId, node: TypeNode)
    requires WellFormed(src) && k.type_ in src && !Unsupported(src, k)
    requires src[k.type_].node.Record? && RecordUpTo(src, m, k, node, |src[k.type_].node.fields|)
    ensures KidsDone(src, m, k, node)
  {
    var fields, done, kids := src[k.type_].node.fields, node.fields, Kids(src, k);
    forall i | 0 <= i < |kids| ensures KidConverted(src, m, kids[i]) {
      assert FieldDone(src, m, fields[i], done[i]);
    }
    var w := WithSlots(Skeleton(src, k), Images(src, m, kids)).fields;
    forall i | 0 <= i < |done| ensures done[i] == w[i] {
      assert FieldDone(src, m, fields[i], done[i]);
    }
    assert done == w;
  }

  lemma FunctionDone(src: Source, m: Memo, k: QualId, node: TypeNode)
    requires WellFormed(src) && k.type_ in src
    requires src[k.type_].node.FunctionProto? && FunctionUpTo(src, m, k, node, |src[k.type_].node.params|)
    ensures KidsDone(src, m, k, node)
  {
    var params, done, kids := src[k.type_].node.params, node.paramTypes, Kids(src, k);
    forall i | 0 <= i < |kids| ensures KidConverted(src, m, kids[i]) {
      assert i > 0 ==> ParamDone(src, m, params[i - 1], done[i - 1]);
    }
    var images := Images(src, m, kids);
    forall i | 0 <= i < |done| ensures done[i] == images[1..][i] {
      assert ParamDone(src, m, params[i], done[i]);
      assert kids[i + 1] == params[i];
    }
    assert done == images[1..];
  }

  /** The contents of an object with a single slot. */
  function SingleSlot(src: Source, k: QualId, r: Ref): TypeNode
    requires k.type_ in src && (HasQuals(k) || SingleKid(src[k.type_].node))
  {
    if HasQuals(k) then QualType(k.isConst || src[k.type_].constBelow, k.isVolatile || src[k.type_].volatileBelow, r)
    else match src[k.type_].node
      case ConstantArray(_, size) => FixedArrayType(r, size)
      case Pointer(_) => PointerType(false, r)
      case BlockPointer(_) => PointerType(true, r)
      case FunctionNoProto(_) => FunctionType(r, [])
  }

  predicate SingleKid(node: SourceType) {
    node.ConstantArray? || node.Pointer? || node.BlockPointer? || node.FunctionNoProto?
  }

  lemma OneKid(src: Source, m: Memo, k: QualId, q: QualId, r: Ref)
    requires WellFormed(src) && k.type_ in src && (HasQuals(k) || SingleKid(src[k.type_].node)) && Kids(src, k) == [q]
    requires if HasQuals(k) then UnderDone(src, m, q, r) else ParamDone(src, m, q, r)
    ensures KidsDone(src, m, k, SingleSlot(src, k, r))
  {
    assert Images(src, m, [q]) == [r];
  }

  lemma NoKids(src: Source, m: Memo, k: QualId)
    requires WellFormed(src) && IsCore(src, k) && !Unsupported(src, k) && Kids(src, k) == []
    requires Skeleton(src, k) == WithSlots(Skeleton(src, k), [])
    ensures KidsDone(src, m, k, Skeleton(src, k))
  {
    assert Images(src, m, []) == [];
  }

  lemma ParamKid(src: Source, k: QualId, i: nat)
    requires WellFormed(src) && k.type_ in src && !HasQuals(k) && src[k.type_].node.FunctionProto?
    requires i < |src[k.type_].node.params|
    ensures src[k.type_].node.params[i] in Kids(src, k) && src[k.type_].node.params[i].type_ in src
  {
    assert Kids(src, k)[i + 1] == src[k.type_].node.params[i];
  }

  lemma FieldKid(src: Source, k: QualId, i: nat)
    requires WellFormed(src) && k.type_ in src && !HasQuals(k) && src[k.type_].node.Record?
    requires i < |src[k.type_].node.fields|
    ensures src[k.type_].node.fields[i].type_ in Kids(src, k) && src[k.type_].node.fields[i].type_.type_ in src
  {
    assert Kids(src, k)[i] == src[k.type_].node.fields[i].type_;
  }

  class TypeConverter {
    const src: Source
    var types: Memo
    var nodes: Nodes
    var brk: nat

    ghost predicate Sound(open: set<QualId>)
      reads this
    {
      Consistent(src, types, nodes, brk, open)
    }

    ghost predicate Valid()
      reads this
    {
      Sound({})
    }

    constructor (src: Source)
      requires WellFormed(src)
      ensures Valid() && types == map[] && this.src == src
    {
      this.src, types, nodes, brk := src, map[], map[], 1;
    }

    /** What a successful visit of k leaves behind; m0 and n0 are the table and the objects before it. */
    ghost predicate Converted(k: QualId, open: set<QualId>, r: Ref, m0: Memo, n0: Nodes)
      reads this
    {
      Sound(open) && Extends(m0, n0, types, nodes) && KidConverted(src, types, k) && r == types[Core(src, k)]
    }

    /** The object obj of k is being filled; m0 and n0 are the table and the objects before it was entered. */
    ghost predicate Filling(k: QualId, obj: Ref, open: set<QualId>, m0: Memo, n0: Nodes)
      reads this
    {
      && Sound(open + {k}) && k !in open && k in types && types[k] == obj && obj in nodes
      && Extends(m0, n0, types, nodes) && obj !in n0 && k !in m0 && AllKeys(src) - types.Keys < AllKeys(src) - m0.Keys
    }

    method Register(k: QualId, node: TypeNode, ghost open: set<QualId>) returns (obj: Ref)
      requires Sound(open) && IsCore(src, k) && k !in types
      modifies `types, `nodes, `brk
      ensures Filling(k, obj, open, old(types), old(nodes)) && nodes[obj] == node
    {
      Registered(src, types, nodes, brk, open, k, node);
      OneKeyLess(src, types, k, types[k := brk]);
      obj := brk;
      types, nodes, brk := types[k := obj], nodes[obj := node], brk + 1;
    }

    method VisitQualType(qt: QualId, ghost open: set<QualId>) returns (r: Option<Ref>)
      requires Sound(open) && qt.type_ in src
      modifies `types, `nodes, `brk
      ensures r.Some? ==> Converted(qt, open, r.value, old(types), old(nodes)) && qt in types && types[qt] == r.value
      ensures r.None? ==> Unconvertible(src, qt)
      decreases AllKeys(src) - types.Keys, src[qt.type_].sugarDepth, 2
    {
      if qt in types {
        assert Named(src, types, nodes, qt);
        return Some(types[qt]);
      } else if HasQuals(qt) {
        r := VisitQualified(qt, open);
      } else {
        r := Visit(qt.type_, open);
        if r.Some? && qt !in types {
          SugarNamed(src, types, nodes, brk, open, qt);
          types := types[qt := r.value];
        }
      }
    }

    method VisitQualified(qt: QualId, ghost open: set<QualId>) returns (r: Option<Ref>)
      requires Sound(open) && qt.type_ in src && HasQuals(qt) && qt !in types
      modifies `types, `nodes, `brk
      ensures r.Some? ==> Converted(qt, open, r.value, old(types), old(nodes))
      ensures r.None? ==> Unconvertible(src, qt)
      decreases AllKeys(src) - types.Keys, src[qt.type_].sugarDepth, 0
    {
      var entry := src[qt.type_];
      var obj := Register(qt, QualType(qt.isConst || entry.constBelow, qt.isVolatile || entry.volatileBelow, 0), open);
      r := VisitUnder(qt, obj, open, old(types), old(nodes));
      if r.Some? {
        OneKid(src, types, qt, Plain(qt.type_), r.value);
        Fill(qt, obj, nodes[obj].(underlyingType := r.value), open, old(types), old(nodes));
        r := Some(obj);
      }
    }

    /** Converts the type below the qualifiers of k, whose object obj is still open. */
    method VisitUnder(k: QualId, obj: Ref, ghost open: set<QualId>, ghost m0: Memo, ghost n0: Nodes)
      returns (r: Option<Ref>)
      requires Filling(k, obj, open, m0, n0) && k.type_ in src && HasQuals(k)
      modifies `types, `nodes, `brk
      ensures r.Some? ==> Filling(k, obj, open, m0, n0) && nodes[obj] == old(nodes)[obj]
      ensures r.Some? ==> UnderDone(src, types, Plain(k.type_), r.value)
      ensures r.None? ==> Unconvertible(src, k)
      decreases AllKeys(src) - types.Keys, src[k.type_].sugarDepth, 2
    {
      r := Visit(k.type_, open + {k});
      if r.None? {
        UnsupportedBelow(src, k, Plain(k.type_));
      } else {
        ExtendsTrans(m0, n0, old(types), old(nodes), types, nodes);
        OneKeyLess(src, m0, k, types);
      }
    }

    method Visit(t: TypeId, ghost open: set<QualId>) returns (r: Option<Ref>)
      requires Sound(open) && t in src
      modifies `types, `nodes, `brk
      ensures r.Some? ==> Converted(Plain(t), open, r.value, old(types), old(nodes))
      ensures r.Some? && IsSugar(src[t].node) ==> Inner(src[t].node) in types
      ensures r.None? ==> Unconvertible(src, Plain(t))
      decreases AllKeys(src) - types.Keys, src[t].sugarDepth, 1
    {
      match src[t].node
      case Typedef(_) => r := VisitSugar(t, open);
      case Paren(_) => r := VisitSugar(t, open);
      case Elaborated(_) => r := VisitSugar(t, open);
      case ConstantArray(_, _) => r := VisitConstantArrayType(t, open);
      case Pointer(_) => r := VisitPointerType(t, open);
      case BlockPointer(_) => r := VisitBlockPointerType(t, open);
      case Builtin(_) => r := VisitBuiltinType(t, open);
      case Enum(_) => r := VisitEnumType(t, open);
      case Record(_, _) => r := VisitRecordType(t, open);
      case FunctionNoProto(_) => r := VisitFunctionNoProtoType(t, open);
      case FunctionProto(_, _) => r := VisitFunctionProtoType(t, open);
      case Unknown =>
        UnsupportedHere(src, Plain(t));
        r := None;
    }

    /** Typedef, parenthesised and elaborated types: what they stand for is converted. */
    method VisitSugar(t: TypeId, ghost open: set<QualId>) returns (r: Option<Ref>)
      requires Sound(open) && t in src && IsSugar(src[t].node)
      modifies `types, `nodes, `brk
      ensures r.Some? ==> Converted(Plain(t), open, r.value, old(types), old(nodes))
      ensures r.Some? ==> Inner(src[t].node) in types
      ensures r.None? ==> Unconvertible(src, Plain(t))
      decreases AllKeys(src) - types.Keys, src[t].sugarDepth, 0
    {
      var inner := Inner(src[t].node);
      assert Kids(src, Plain(t)) == [inner];
      r := VisitQualType(inner, open);
      if r.None? {
        UnsupportedBelow(src, Plain(t), inner);
      }
    }

    /** Converts one reference of k, whose object obj is still open. */
    method ConvertKid(k: QualId, q: QualId, obj: Ref, ghost open: set<QualId>, ghost m0: Memo, ghost n0: Nodes)
      returns (r: Option<Ref>)
      requires Filling(k, obj, open, m0, n0) && k.type_ in src && q in Kids(src, k) && q.type_ in src
      modifies `types, `nodes, `brk
      ensures r.Some? ==>
        Filling(k, obj, open, m0, n0) && nodes[obj] == old(nodes)[obj] && Extends(old(types), old(nodes), types, nodes)
      ensures r.Some? ==> ParamDone(src, types, q, r.value)
      ensures r.None? ==> Unconvertible(src, k)
      decreases AllKeys(src) - types.Keys, src[q.type_].sugarDepth, 3
    {
      r := VisitQualType(q, open + {k});
      if r.None? {
        UnsupportedBelow(src, k, q);
      } else {
        ExtendsTrans(m0, n0, old(types), old(nodes), types, nodes);
        OneKeyLess(src, m0, k, types);
      }
    }

    /** The object of k gets its contents. */
    method Fill(k: QualId, obj: Ref, node: TypeNode, ghost open: set<QualId>, ghost m0: Memo, ghost n0: Nodes)
      requires Filling(k, obj, open, m0, n0) && KidsDone(src, types, k, node)
      modifies `nodes
      ensures Converted(k, open, obj, m0, n0)
    {
      Filled(src, types, nodes, brk, open, k, node);
      nodes := nodes[obj := node];
    }

    /** The object of k gets its one slot. */
    method FillSingle(k: QualId, q: QualId, obj: Ref, node: TypeNode, ghost r: Ref, ghost open: set<QualId>,
                      ghost m0: Memo, ghost n0: Nodes)
      requires Filling(k, obj, open, m0, n0) && k.type_ in src && !HasQuals(k) && SingleKid(src[k.type_].node)
      requires Kids(src, k) == [q] && ParamDone(src, types, q, r) && node == SingleSlot(src, k, r)
      modifies `nodes
      ensures Converted(k, open, obj, m0, n0)
    {
      OneKid(src, types, k, q, r);
      Fill(k, obj, node, open, m0, n0);
    }

    method VisitConstantArrayType(t: TypeId, ghost open: set<QualId>) returns (r: Option<Ref>)
      requires Sound(open) && t in src && src[t].node.ConstantArray?
      modifies `types, `nodes, `brk
      ensures r.Some? ==> Converted(Plain(t), open, r.value, old(types), old(nodes))
      ensures r.None? ==> Unconvertible(src, Plain(t))
      decreases AllKeys(src) - types.Keys, src[t].sugarDepth, 0
    {
      var k := Plain(t);
      if k in types {
        return Some(types[k]);
      }
      var obj := Register(k, FixedArrayType(0, src[t].node.size), open);
      r := ConvertKid(k, src[t].node.element, obj, open, old(types), old(nodes));
      if r.Some? {
        FillSingle(k, src[t].node.element, obj, nodes[obj].(elementType := r.value), r.value, open, old(types),
          old(nodes));
        r := Some(obj);
      }
    }

    method VisitPointerType(t: TypeId, ghost open: set<QualId>) returns (r: Option<Ref>)
      requires Sound(open) && t in src && src[t].node.Pointer?
      modifies `types, `nodes, `brk
      ensures r.Some? ==> Converted(Plain(t), open, r.value, old(types), old(nodes))
      ensures r.None? ==> Unconvertible(src, Plain(t))
      decreases AllKeys(src) - types.Keys, src[t].sugarDepth, 0
    {
      var k := Plain(t);
      if k in types {
        return Some(types[k]);
      }
      var obj := Register(k, PointerType(false, 0), open);
      r := ConvertKid(k, src[t].node.pointee, obj, open, old(types), old(nodes));
      if r.Some? {
        FillSingle(k, src[t].node.pointee, obj, nodes[obj].(referencedType := r.value), r.value, open, old(types),
          old(nodes));
        r := Some(obj);
      }
    }

    method VisitBlockPointerType(t: TypeId, ghost open: set<QualId>) returns (r: Option<Ref>)
      requires Sound(open) && t in src && src[t].node.BlockPointer?
      modifies `types, `nodes, `brk
      ensures r.Some? ==> Converted(Plain(t), open, r.value, old(types), old(nodes))
      ensures r.None? ==> Unconvertible(src, Plain(t))
      decreases AllKeys(src) - types.Keys, src[t].sugarDepth, 0
    {
      var k := Plain(t);
      if k in types {
        return Some(types[k]);
      }
      var obj := Register(k, PointerType(true, 0), open);
      r := ConvertKid(k, src[t].node.pointee, obj, open, old(types), old(nodes));
      if r.Some? {
        FillSingle(k, src[t].node.pointee, obj, nodes[obj].(referencedType := r.value), r.value, open, old(types),
          old(nodes));
        r := Some(obj);
      }
    }

    method VisitFunctionNoProtoType(t: TypeId, ghost open: set<QualId>) returns (r: Option<Ref>)
      requires Sound(open) && t in src && src[t].node.FunctionNoProto?
      modifies `types, `nodes, `brk
      ensures r.Some? ==> Converted(Plain(t), open, r.value, old(types), old(nodes))
      ensures r.None? ==> Unconvertible(src, Plain(t))
      decreases AllKeys(src) - types.Keys, src[t].sugarDepth, 0
    {
      var k := Plain(t);
      if k in types {
        return Some(types[k]);
      }
      var obj := Register(k, FunctionType(0, []), open);
      r := ConvertKid(k, src[t].node.result, obj, open, old(types), old(nodes));
      if r.Some? {
        assert nodes[obj].(returnType := r.value) == SingleSlot(src, k, r.value);
        FillSingle(k, src[t].node.result, obj, nodes[obj].(returnType := r.value), r.value, open, old(types),
          old(nodes));
        r := Some(obj);
      }
    }

    method VisitBuiltinType(t: TypeId, ghost open: set<QualId>) returns (r: Option<Ref>)
      requires Sound(open) && t in src && src[t].node.Builtin?
      modifies `types, `nodes, `brk
      ensures r.Some? ==> Converted(Plain(t), open, r.value, old(types), old(nodes))
      ensures r.None? ==> Unconvertible(src, Plain(t))
    {
      var k := Plain(t);
      if k in types {
        return Some(types[k]);
      }
      if src[t].node.kind.None? {
        UnsupportedHere(src, k);
        return None;
      }
      var obj := Register(k, PrimitiveType(src[t].node.kind.value), open);
      NoKids(src, types, k);
      Fill(k, obj, nodes[obj], open, old(types), old(nodes));
      r := Some(obj);
    }

    method VisitEnumType(t: TypeId, ghost open: set<QualId>) returns (r: Option<Ref>)
      requires Sound(open) && t in src && src[t].node.Enum?
      modifies `types, `nodes, `brk
      ensures r.Some? ==> Converted(Plain(t), open, r.value, old(types), old(nodes))
      ensures r.None? ==> Unconvertible(src, Plain(t))
    {
      var k := Plain(t);
      if k in types {
        return Some(types[k]);
      }
      var values := [];
      var i := 0;
      while i < |src[t].node.values|
        invariant 0 <= i <= |src[t].node.values| && values == src[t].node.values[..i]
      {
        values := values + [src[t].node.values[i]];
        i := i + 1;
      }
      var obj := Register(k, EnumType(values), open);
      NoKids(src, types, k);
      Fill(k, obj, nodes[obj], open, old(types), old(nodes));
      r := Some(obj);
    }

    method VisitRecordType(t: TypeId, ghost open: set<QualId>) returns (r: Option<Ref>)
      requires Sound(open) && t in src && src[t].node.Record?
      modifies `types, `nodes, `brk
      ensures r.Some? ==> Converted(Plain(t), open, r.value, old(types), old(nodes))
      ensures r.None? ==> Unconvertible(src, Plain(t))
      decreases AllKeys(src) - types.Keys, src[t].sugarDepth, 0
    {
      var k := Plain(t);
      if k in types {
        return Some(types[k]);
      }
      if src[t].node.tag.OtherTag? {
        UnsupportedHere(src, k);
        return None;
      }
      var isUnion, fields := src[t].node.tag.UnionTag?, src[t].node.fields;
      var obj := Register(k, RecordType(isUnion, []), open);
      var i := 0;
      while i < |fields|
        invariant 0 <= i <= |fields| && Filling(k, obj, open, old(types), old(nodes))
        invariant RecordUpTo(src, types, k, nodes[obj], i)
      {
        FieldKid(src, k, i);
        var ok := AddField(k, i, fields[i], obj, open, old(types), old(nodes));
        if !ok {
          return None;
        }
        i := i + 1;
      }
      RecordDone(src, types, k, nodes[obj]);
      Fill(k, obj, nodes[obj], open, old(types), old(nodes));
      r := Some(obj);
    }

    /** One field of a record is converted and added. */
    method AddField(k: QualId, i: nat, f: SourceField, obj: Ref, ghost open: set<QualId>, ghost m0: Memo,
                    ghost n0: Nodes) returns (ok: bool)
      requires Filling(k, obj, open, m0, n0) && RecordUpTo(src, types, k, nodes[obj], i)
      requires i < |src[k.type_].node.fields| && f == src[k.type_].node.fields[i] && f.type_.type_ in src
      modifies `types, `nodes, `brk
      ensures ok ==> Filling(k, obj, open, m0, n0) && RecordUpTo(src, types, k, nodes[obj], i + 1)
      ensures !ok ==> Unconvertible(src, k)
      decreases AllKeys(src) - types.Keys, src[f.type_.type_].sugarDepth, 4
    {
      FieldKid(src, k, i);
      var r := ConvertKid(k, f.type_, obj, open, m0, n0);
      if r.None? {
        return false;
      }
      var node := nodes[obj];
      RecordNext(src, old(types), old(nodes), types, nodes, k, node, i, r.value);
      Extend(k, obj, node.(fields := node.fields + [Field(f.name, r.value)]), open, m0, n0);
      return true;
    }

    /** The object of k grows while it is open. */
    method Extend(k: QualId, obj: Ref, node: TypeNode, ghost open: set<QualId>, ghost m0: Memo, ghost n0: Nodes)
      requires Filling(k, obj, open, m0, n0)
      modifies `nodes
      ensures Filling(k, obj, open, m0, n0) && nodes == old(nodes)[obj := node]
    {
      StillOpen(src, types, nodes, brk, open + {k}, k, node);
      nodes := nodes[obj := node];
    }

    method VisitFunctionProtoType(t: TypeId, ghost open: set<QualId>) returns (r: Option<Ref>)
      requires Sound(open) && t in src && src[t].node.FunctionProto?
      modifies `types, `nodes, `brk
      ensures r.Some? ==> Converted(Plain(t), open, r.value, old(types), old(nodes))
      ensures r.None? ==> Unconvertible(src, Plain(t))
      decreases AllKeys(src) - types.Keys, src[t].sugarDepth, 0
    {
      var k := Plain(t);
      if k in types {
        return Some(types[k]);
      }
      var obj := Register(k, FunctionType(0, []), open);
      assert Kids(src, k)[0] in Kids(src, k);
      var ok := SetReturnType(k, src[t].node.result, obj, open, old(types), old(nodes));
      if !ok {
        return None;
      }
      var params, i := src[t].node.params, 0;
      while i < |params|
        invariant 0 <= i <= |params| && Filling(k, obj, open, old(types), old(nodes))
        invariant FunctionUpTo(src, types, k, nodes[obj], i)
      {
        ParamKid(src, k, i);
        ok := AddParam(k, i, params[i], obj, open, old(types), old(nodes));
        if !ok {
          return None;
        }
        i := i + 1;
      }
      FunctionDone(src, types, k, nodes[obj]);
      Fill(k, obj, nodes[obj], open, old(types), old(nodes));
      r := Some(obj);
    }

    method SetReturnType(k: QualId, q: QualId, obj: Ref, ghost open: set<QualId>, ghost m0: Memo, ghost n0: Nodes)
      returns (ok: bool)
      requires Filling(k, obj, open, m0, n0) && !HasQuals(k) && k.type_ in src && src[k.type_].node.FunctionProto?
      requires q == src[k.type_].node.result && q.type_ in src && nodes[obj].FunctionType?
      requires nodes[obj].paramTypes == []
      modifies `types, `nodes, `brk
      ensures ok ==> Filling(k, obj, open, m0, n0) && FunctionUpTo(src, types, k, nodes[obj], 0)
      ensures !ok ==> Unconvertible(src, k)
      decreases AllKeys(src) - types.Keys, src[q.type_].sugarDepth, 4
    {
      assert Kids(src, k)[0] == q;
      var r := ConvertKid(k, q, obj, open, m0, n0);
      if r.None? {
        return false;
      }
      FunctionBegun(src, types, k, nodes[obj].(returnType := r.value));
      Extend(k, obj, nodes[obj].(returnType := r.value), open, m0, n0);
      return true;
    }

    /** One parameter of a function is converted and added. */
    method AddParam(k: QualId, i: nat, q: QualId, obj: Ref, ghost open: set<QualId>, ghost m0: Memo, ghost n0: Nodes)
      returns (ok: bool)
      requires Filling(k, obj, open, m0, n0) && FunctionUpTo(src, types, k, nodes[obj], i)
      requires i < |src[k.type_].node.params| && q == src[k.type_].node.params[i] && q.type_ in src
      modifies `types, `nodes, `brk
      ensures ok ==> Filling(k, obj, open, m0, n0) && FunctionUpTo(src, types, k, nodes[obj], i + 1)
      ensures !ok ==> Unconvertible(src, k)
      decreases AllKeys(src) - types.Keys, src[q.type_].sugarDepth, 4
    {
      ParamKid(src, k, i);
      var r := ConvertKid(k, q, obj, open, m0, n0);
      if r.None? {
        return false;
      }
      var node := nodes[obj];
      FunctionNext(src, old(types), old(nodes), types, nodes, k, node, i, r.value);
      Extend(k, obj, node.(paramTypes := node.paramTypes + [r.value]), open, m0, n0);
      return true;
    }

    /** Converts a type for a declaration: it fails exactly when something without counterpart can be reached, keeps
        every earlier conversion, and the result is the same graph as the source without its sugar. */
    method ConvertType(qt: QualId) returns (r: Option<Ref>)
      requires Valid() && qt.type_ in src
      modifies `types, `nodes, `brk
      ensures r.None? <==> Unconvertible(src, qt)
      ensures r.Some? ==> Valid() && Extends(old(types), old(nodes), types, nodes)
      ensures r.Some? ==> qt in types && types[qt] == r.value
      ensures r.Some? ==> forall depth: nat :: TypeView(nodes, r.value, depth) == SourceView(src, qt, depth)
      ensures r.Some? ==> forall k :: k in types ==> Described(src, types, nodes, k)
    {
      r := VisitQualType(qt, {});
      if r.Some? {
        EveryObject(src, types, nodes, brk);
        ConvertedConvertible(src, types, nodes, brk, qt);
        forall depth: nat ensures TypeView(nodes, r.value, depth) == SourceView(src, qt, depth) {
          SameView(src, types, nodes, brk, qt, depth);
        }
      }
    }
  }
}
