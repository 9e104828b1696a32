/** Replacing one type by another throughout a type graph that may be cyclic. */
module TypeReplace {
  import opened TypeGraphs

  function Swapped(t: Ref, src: Ref, dest: Ref): Ref {
    if t == src then dest else t
  }

  /** Only these types are entered; qualified types, among others, are not. */
  predicate Enterable(node: TypeNode) {
    node.FunctionType? || node.FixedArrayType? || node.PointerType? || node.RecordType?
  }

  /** The slots that are followed: all but the return type. */
  function Followed(node: TypeNode): seq<Ref> {
    match node
    case FunctionType(_, params) => params
    case FixedArrayType(element, _) => [element]
    case PointerType(_, referenced) => [referenced]
    case RecordType(_, fields) => FieldTypes(fields)
    case _ => []
  }

  /** Followed are the parameters of functions, and what arrays, pointers and records are made of. */
  lemma FollowedAre(node: TypeNode, d: Ref)
    ensures d in Followed(node) <==>
      || (node.FunctionType? && d in node.paramTypes)
      || (node.FixedArrayType? && d == node.elementType)
      || (node.PointerType? && d == node.referencedType)
      || (node.RecordType? && exists i :: 0 <= i < |node.fields| && node.fields[i].type_ == d)
    ensures Followed(node) != [] ==> Enterable(node)
  {
    if node.RecordType? && d in Followed(node) {
      var i :| 0 <= i < |Followed(node)| && Followed(node)[i] == d;
      assert node.fields[i].type_ == d;
    }
    if node.RecordType? {
      forall i | 0 <= i < |node.fields| && node.fields[i].type_ == d ensures d in Followed(node) {
        assert Followed(node)[i] == d;
      }
    }
  }

  /** The fields with the first k replaced. */
  function FieldsUpTo(fields: seq<Field>, k: nat, src: Ref, dest: Ref): (r: seq<Field>)
    ensures |r| == |fields|
  {
    seq(|fields|, i requires 0 <= i < |fields| => if i < k
      then fields[i].(type_ := Swapped(fields[i].type_, src, dest)) else fields[i])
  }

  function ParamsUpTo(params: seq<Ref>, k: nat, src: Ref, dest: Ref): (r: seq<Ref>)
    ensures |r| == |params|
  {
    seq(|params|, i requires 0 <= i < |params| => if i < k then Swapped(params[i], src, dest) else params[i])
  }

  /** The type with its return type and its first k followed slots replaced. */
  function ReplacedUpTo(node: TypeNode, k: nat, src: Ref, dest: Ref): TypeNode {
    match node
    case FunctionType(ret, params) => FunctionType(Swapped(ret, src, dest), ParamsUpTo(params, k, src, dest))
    case FixedArrayType(element, count) => if k == 0 then node else FixedArrayType(Swapped(element, src, dest), count)
    case PointerType(isBlock, referenced) => if k == 0 then node
      else PointerType(isBlock, Swapped(referenced, src, dest))
    case RecordType(isUnion, fields) => RecordType(isUnion, FieldsUpTo(fields, k, src, dest))
    case _ => node
  }

  function Replaced(node: TypeNode, src: Ref, dest: Ref): TypeNode {
    ReplacedUpTo(node, |Followed(node)|, src, dest)
  }

  /** In an entered type exactly the slots holding src change, and they come to hold dest. */
  lemma ReplacedSlots(node: TypeNode, src: Ref, dest: Ref)
    requires Enterable(node)
    ensures |Slots(Replaced(node, src, dest))| == |Slots(node)|
    ensures forall k ::
      0 <= k < |Slots(node)| ==> Slots(Replaced(node, src, dest))[k] == Swapped(Slots(node)[k], src, dest)
    ensures src != dest ==> src !in Slots(Replaced(node, src, dest))
  {
  }

  /** Nothing but slots changes. */
  lemma ReplacedRest(node: TypeNode, src: Ref, dest: Ref)
    ensures !Enterable(node) ==> Replaced(node, src, dest) == node
    ensures node.RecordType? ==>
      var r := Replaced(node, src, dest);
      r.RecordType? && r.isUnion == node.isUnion && |r.fields| == |node.fields| && forall i ::
        0 <= i < |r.fields| ==> r.fields[i].name == node.fields[i].name
    ensures node.PointerType? ==>
      Replaced(node, src, dest).PointerType? && Replaced(node, src, dest).isBlock == node.isBlock
    ensures node.FixedArrayType? ==>
      Replaced(node, src, dest).FixedArrayType? && Replaced(node, src, dest).count == node.count
    ensures node.FunctionType? ==> Replaced(node, src, dest).FunctionType?
  {
  }

  // ---- which types are visited ----

  /** The followed slots of all entered types refer to types in memory. */
  ghost predicate WellFormed(g: Nodes) {
    forall t, d :: t in g && d in Followed(g[t]) ==> d in g
  }

  ghost predicate Follows(g: Nodes, src: Ref, a: Ref, b: Ref) {
    a in g && b in Followed(g[a]) && b != src
  }

  ghost predicate PathStep(g: Nodes, src: Ref, p: seq<Ref>, i: nat)
    requires i + 1 < |p|
  {
    Follows(g, src, p[i], p[i + 1])
  }

  ghost predicate Path(g: Nodes, src: Ref, p: seq<Ref>, a: Ref, b: Ref) {
    p != [] && p[0] == a && p[|p| - 1] == b && forall i :: 0 <= i < |p| - 1 ==> PathStep(g, src, p, i)
  }

  /** b can be reached from a over followed slots without passing src. */
  ghost predicate Reached(g: Nodes, src: Ref, a: Ref, b: Ref) {
    exists p :: Path(g, src, p, a, b)
  }

  lemma ReachedSelf(g: Nodes, src: Ref, a: Ref)
    ensures Reached(g, src, a, a)
  {
    assert Path(g, src, [a], a, a);
  }

  lemma ReachedVia(g: Nodes, src: Ref, a: Ref, d: Ref, b: Ref)
    requires Follows(g, src, a, d) && Reached(g, src, d, b)
    ensures Reached(g, src, a, b)
  {
    var p :| Path(g, src, p, d, b);
    var q := [a] + p;
    forall i | 0 <= i < |q| - 1 ensures PathStep(g, src, q, i) {
      if i > 0 {
        assert PathStep(g, src, p, i - 1);
      }
    }
    assert Path(g, src, q, a, b);
  }

  /** Every followed slot of a type of vis leads to src, to a type that is not entered, or into more. */
  ghost predicate ClosedBut(g: Nodes, src: Ref, vis: set<Ref>, more: set<Ref>) {
    forall a, b :: a in vis && Follows(g, src, a, b) && b in g && Enterable(g[b]) ==> b in more
  }

  /** A set closed in that way holds everything that is reached and entered. */
  lemma {:induction false} ClosedHasReached(g: Nodes, src: Ref, vis: set<Ref>, p: seq<Ref>, a: Ref, b: Ref)
    requires ClosedBut(g, src, vis, vis) && Path(g, src, p, a, b) && a in vis && b in g && Enterable(g[b])
    ensures b in vis
    decreases |p|
  {
    if |p| > 1 {
      assert PathStep(g, src, p, 0);
      var q := p[1..];
      forall i | 0 <= i < |q| - 1 ensures PathStep(g, src, q, i) {
        assert PathStep(g, src, p, i + 1);
      }
      assert Path(g, src, q, p[1], b);
      if |p| > 2 {
        assert PathStep(g, src, p, 1);
      }
      ClosedHasReached(g, src, vis, q, p[1], b);
    }
  }

  /** The types that replacing from start visits. */
  ghost predicate Visits(g: Nodes, src: Ref, start: Ref, t: Ref) {
    t in g && Enterable(g[t]) && Reached(g, src, start, t)
  }

  // ---- the visitor ----

  /** What visits have changed between two moments: exactly the types visited in between, all reached from start. */
  ghost predicate Progress(g: Nodes, src: Ref, dest: Ref, start: Ref, vis0: set<Ref>, m0: Nodes, vis: set<Ref>,
                           m: Nodes) {
    && m0.Keys == g.Keys == m.Keys && vis0 <= vis
    && (forall t :: t in vis && t !in vis0 ==> Visits(g, src, start, t) && t in m && m[t] == Replaced(g[t], src, dest))
    && (forall t :: t in m && (t in vis0 || t !in vis) ==> m[t] == m0[t])
  }

  /** Types not yet visited are as they were. */
  ghost predicate Fresh(g: Nodes, vis: set<Ref>, m: Nodes) {
    WellFormed(g) && m.Keys == g.Keys && vis <= g.Keys && forall t :: t in g && t !in vis ==> m[t] == g[t]
  }

  /** The visit of t has dealt with the first k followed slots. */
  ghost predicate Halfway(g: Nodes, src: Ref, dest: Ref, t: Ref, k: nat, vis0: set<Ref>, m0: Nodes, vis: set<Ref>,
                          m: Nodes) {
    && t in g && t !in vis0 && t in vis && m0.Keys == g.Keys == m.Keys && vis0 <= vis && Fresh(g, vis, m)
      && Enterable(g[t])
    && m[t] == ReplacedUpTo(g[t], k, src, dest) && k <= |Followed(g[t])|
    && (forall x :: x in vis && x !in vis0 && x != t ==>
      Visits(g, src, t, x) && x in m && m[x] == Replaced(g[x], src, dest))
    && (forall x :: x in m && x != t && (x in vis0 || x !in vis) ==> m[x] == m0[x])
    && ClosedBut(g, src, vis - vis0 - {t}, vis)
    && forall i :: 0 <= i < k ==> SlotDone(g, src, vis, Followed(g[t])[i])
  }

  ghost predicate SlotDone(g: Nodes, src: Ref, vis: set<Ref>, d: Ref) {
    d != src && d in g && Enterable(g[d]) ==> d in vis
  }

  lemma HalfwayStarts(g: Nodes, src: Ref, dest: Ref, t: Ref, vis: set<Ref>, m: Nodes, m': Nodes)
    requires Fresh(g, vis, m) && t in g && t !in vis && Enterable(g[t])
    requires m' == m[t := ReplacedUpTo(g[t], 0, src, dest)]
    ensures Halfway(g, src, dest, t, 0, vis, m, vis + {t}, m')
  {
  }

  lemma HalfwayEnds(g: Nodes, src: Ref, dest: Ref, t: Ref, vis0: set<Ref>, m0: Nodes, vis: set<Ref>, m: Nodes)
    requires t in g && Halfway(g, src, dest, t, |Followed(g[t])|, vis0, m0, vis, m)
    ensures Progress(g, src, dest, t, vis0, m0, vis, m) && Fresh(g, vis, m) && ClosedBut(g, src, vis - vis0, vis)
    ensures t in vis
  {
    ReachedSelf(g, src, t);
    forall b | Follows(g, src, t, b) && b in g && Enterable(g[b]) ensures b in vis {
      var i :| 0 <= i < |Followed(g[t])| && Followed(g[t])[i] == b;
      assert SlotDone(g, src, vis, Followed(g[t])[i]);
    }
  }

  /** Slot k holds src and is replaced. */
  lemma SlotSwapped(g: Nodes, src: Ref, dest: Ref, t: Ref, k: nat, vis0: set<Ref>, m0: Nodes, vis: set<Ref>, m: Nodes,
                    m': Nodes)
    requires Halfway(g, src, dest, t, k, vis0, m0, vis, m) && k < |Followed(g[t])| && Followed(g[t])[k] == src
    requires m' == m[t := ReplacedUpTo(g[t], k + 1, src, dest)]
    ensures Halfway(g, src, dest, t, k + 1, vis0, m0, vis, m')
  {
  }

  /** Slot k holds another type, which has been visited. */
  lemma SlotVisited(g: Nodes, src: Ref, dest: Ref, t: Ref, k: nat, d: Ref, vis0: set<Ref>, m0: Nodes, vis: set<Ref>,
                    m: Nodes, vis': set<Ref>, m': Nodes)
    requires Halfway(g, src, dest, t, k, vis0, m0, vis, m) && k < |Followed(g[t])| && d == Followed(g[t])[k] != src
    requires Progress(g, src, dest, d, vis, m, vis', m') && Fresh(g, vis', m') && ClosedBut(g, src, vis' - vis, vis')
    requires SlotDone(g, src, vis', d)
    ensures Halfway(g, src, dest, t, k + 1, vis0, m0, vis', m')
  {
    assert ReplacedUpTo(g[t], k, src, dest) == ReplacedUpTo(g[t], k + 1, src, dest);
    forall x | x in vis' && x !in vis0 && x != t
      ensures Visits(g, src, t, x) && x in m' && m'[x] == Replaced(g[x], src, dest)
    {
      if x !in vis {
        ReachedVia(g, src, t, d, x);
      }
    }
    forall i | 0 <= i < k + 1 ensures SlotDone(g, src, vis', Followed(g[t])[i]) {
      assert i < k ==> SlotDone(g, src, vis, Followed(g[t])[i]);
    }
  }

  class TypeStore {
    var nodes: Nodes
    var visited: set<Ref>  // of the replacement going on

    constructor (nodes: Nodes)
      ensures this.nodes == nodes
    {
      this.nodes, visited := nodes, {};
    }

    method Visit(t: Ref, src: Ref, dest: Ref, ghost g: Nodes)
      requires t in g && Fresh(g, visited, nodes)
      modifies this
      ensures Progress(g, src, dest, t, old(visited), old(nodes), visited, nodes) && Fresh(g, visited, nodes)
      ensures ClosedBut(g, src, visited - old(visited), visited) && (Enterable(g[t]) ==> t in visited)
      decreases g.Keys - visited, 1
    {
      // a type that has been visited keeps its kind
      match nodes[t]
      case FunctionType(_, _) => if t !in visited { VisitFunctionType(t, src, dest, g); }
      case FixedArrayType(_, _) => if t !in visited { VisitArrayType(t, src, dest, g); }
      case PointerType(_, _) => if t !in visited { VisitPointerType(t, src, dest, g); }
      case RecordType(_, _) => if t !in visited { VisitRecordType(t, src, dest, g); }
      case _ =>
    }

    method VisitFunctionType(t: Ref, src: Ref, dest: Ref, ghost g: Nodes)
      requires t in g && Fresh(g, visited, nodes) && t !in visited && g[t].FunctionType?
      modifies this
      ensures Progress(g, src, dest, t, old(visited), old(nodes), visited, nodes) && Fresh(g, visited, nodes)
      ensures ClosedBut(g, src, visited - old(visited), visited) && t in visited
      decreases g.Keys - visited, 0
    {
      HalfwayStarts(g, src, dest, t, visited, nodes, nodes[t := ReplacedUpTo(g[t], 0, src, dest)]);
      visited := visited + {t};
      nodes := nodes[t := nodes[t].(returnType := Swapped(nodes[t].returnType, src, dest))];
      assert ParamsUpTo(g[t].paramTypes, 0, src, dest) == g[t].paramTypes;
      var n, i := |nodes[t].paramTypes|, 0;
      while i < n
        invariant 0 <= i <= n == |Followed(g[t])|
        invariant Halfway(g, src, dest, t, i, old(visited), old(nodes), visited, nodes)
      {
        VisitParam(t, i, src, dest, g, old(visited), old(nodes));
        i := i + 1;
      }
      HalfwayEnds(g, src, dest, t, old(visited), old(nodes), visited, nodes);
    }

    /** One round of the loop over the parameters. */
    method VisitParam(t: Ref, i: nat, src: Ref, dest: Ref, ghost g: Nodes, ghost vis0: set<Ref>, ghost m0: Nodes)
      requires t in g && g[t].FunctionType? && i < |Followed(g[t])|
      requires Halfway(g, src, dest, t, i, vis0, m0, visited, nodes)
      modifies this
      ensures old(visited) <= visited && Halfway(g, src, dest, t, i + 1, vis0, m0, visited, nodes)
      decreases g.Keys - visited, 2
    {
      if nodes[t].paramTypes[i] == src {
        nodes := nodes[t := nodes[t].(paramTypes := nodes[t].paramTypes[i := dest])];
        assert ParamsUpTo(g[t].paramTypes, i, src, dest)[i := dest] == ParamsUpTo(g[t].paramTypes, i + 1, src, dest);
        SlotSwapped(g, src, dest, t, i, vis0, m0, visited, old(nodes), nodes);
      } else {
        assert Followed(g[t])[i] in Followed(g[t]);
        Visit(nodes[t].paramTypes[i], src, dest, g);
        SlotVisited(g, src, dest, t, i, Followed(g[t])[i], vis0, m0, old(visited), old(nodes), visited, nodes);
      }
    }

    method VisitArrayType(t: Ref, src: Ref, dest: Ref, ghost g: Nodes)
      requires t in g && Fresh(g, visited, nodes) && t !in visited && g[t].FixedArrayType?
      modifies this
      ensures Progress(g, src, dest, t, old(visited), old(nodes), visited, nodes) && Fresh(g, visited, nodes)
      ensures ClosedBut(g, src, visited - old(visited), visited) && t in visited
      decreases g.Keys - visited, 0
    {
      HalfwayStarts(g, src, dest, t, visited, nodes, nodes[t := ReplacedUpTo(g[t], 0, src, dest)]);
      visited := visited + {t};
      ghost var vis, m := visited, nodes;
      assert m == old(nodes)[t := ReplacedUpTo(g[t], 0, src, dest)];
      if nodes[t].elementType == src {
        nodes := nodes[t := nodes[t].(elementType := dest)];
        SlotSwapped(g, src, dest, t, 0, old(visited), old(nodes), vis, m, nodes);
      } else {
        assert Followed(g[t])[0] in Followed(g[t]);
        Visit(nodes[t].elementType, src, dest, g);
        SlotVisited(g, src, dest, t, 0, Followed(g[t])[0], old(visited), old(nodes), vis, m, visited, nodes);
      }
      HalfwayEnds(g, src, dest, t, old(visited), old(nodes), visited, nodes);
    }

    method VisitPointerType(t: Ref, src: Ref, dest: Ref, ghost g: Nodes)
      requires t in g && Fresh(g, visited, nodes) && t !in visited && g[t].PointerType?
      modifies this
      ensures Progress(g, src, dest, t, old(visited), old(nodes), visited, nodes) && Fresh(g, visited, nodes)
      ensures ClosedBut(g, src, visited - old(visited), visited) && t in visited
      decreases g.Keys - visited, 0
    {
      HalfwayStarts(g, src, dest, t, visited, nodes, nodes[t := ReplacedUpTo(g[t], 0, src, dest)]);
      visited := visited + {t};
      ghost var vis, m := visited, nodes;
      assert m == old(nodes)[t := ReplacedUpTo(g[t], 0, src, dest)];
      if nodes[t].referencedType == src {
        nodes := nodes[t := nodes[t].(referencedType := dest)];
        SlotSwapped(g, src, dest, t, 0, old(visited), old(nodes), vis, m, nodes);
      } else {
        assert Followed(g[t])[0] in Followed(g[t]);
        Visit(nodes[t].referencedType, src, dest, g);
        SlotVisited(g, src, dest, t, 0, Followed(g[t])[0], old(visited), old(nodes), vis, m, visited, nodes);
      }
      HalfwayEnds(g, src, dest, t, old(visited), old(nodes), visited, nodes);
    }

    method VisitRecordType(t: Ref, src: Ref, dest: Ref, ghost g: Nodes)
      requires t in g && Fresh(g, visited, nodes) && t !in visited && g[t].RecordType?
      modifies this
      ensures Progress(g, src, dest, t, old(visited), old(nodes), visited, nodes) && Fresh(g, visited, nodes)
      ensures ClosedBut(g, src, visited - old(visited), visited) && t in visited
      decreases g.Keys - visited, 0
    {
      HalfwayStarts(g, src, dest, t, visited, nodes, nodes[t := ReplacedUpTo(g[t], 0, src, dest)]);
      visited := visited + {t};
      assert FieldsUpTo(g[t].fields, 0, src, dest) == g[t].fields;
      assert nodes == old(nodes)[t := ReplacedUpTo(g[t], 0, src, dest)];
      var n, i := |nodes[t].fields|, 0;
      while i < n
        invariant 0 <= i <= n == |Followed(g[t])|
        invariant Halfway(g, src, dest, t, i, old(visited), old(nodes), visited, nodes)
      {
        VisitField(t, i, src, dest, g, old(visited), old(nodes));
        i := i + 1;
      }
      HalfwayEnds(g, src, dest, t, old(visited), old(nodes), visited, nodes);
    }

    /** One round of the loop over the fields. */
    method VisitField(t: Ref, i: nat, src: Ref, dest: Ref, ghost g: Nodes, ghost vis0: set<Ref>, ghost m0: Nodes)
      requires t in g && g[t].RecordType? && i < |Followed(g[t])|
      requires Halfway(g, src, dest, t, i, vis0, m0, visited, nodes)
      modifies this
      ensures old(visited) <= visited && Halfway(g, src, dest, t, i + 1, vis0, m0, visited, nodes)
      decreases g.Keys - visited, 2
    {
      if nodes[t].fields[i].type_ == src {
        ghost var fields := g[t].fields;
        nodes := nodes[t := nodes[t].(fields := nodes[t].fields[i := nodes[t].fields[i].(type_ := dest)])];
        assert FieldsUpTo(fields, i, src, dest)[i := fields[i].(type_ := dest)] == FieldsUpTo(fields, i + 1, src, dest);
        SlotSwapped(g, src, dest, t, i, vis0, m0, visited, old(nodes), nodes);
      } else {
        assert Followed(g[t])[i] in Followed(g[t]);
        Visit(nodes[t].fields[i].type_, src, dest, g);
        SlotVisited(g, src, dest, t, i, Followed(g[t])[i], vis0, m0, old(visited), old(nodes), visited, nodes);
      }
    }

    /** Exactly the types reached from start over fields, elements, pointees and parameters without passing src are
        changed,
        and in them exactly the slots that hold src. */
    method Replace(start: Ref, src: Ref, dest: Ref)
      requires start in nodes && WellFormed(nodes)
      modifies this
      ensures nodes.Keys == old(nodes).Keys
      ensures forall t :: t in nodes ==>
        nodes[t] == if Visits(old(nodes), src, start, t) then Replaced(old(nodes)[t], src, dest) else old(nodes)[t]
    {
      visited := {};
      ghost var g := nodes;
      Visit(start, src, dest, g);
      forall t | t in nodes ensures t in visited <==> Visits(g, src, start, t) {
        if Visits(g, src, start, t) {
          VisitsEntered(g, src, start, visited, t);
        }
      }
    }
  }

  lemma VisitsEntered(g: Nodes, src: Ref, start: Ref, vis: set<Ref>, t: Ref)
    requires Visits(g, src, start, t) && ClosedBut(g, src, vis, vis) && start in g
    requires Enterable(g[start]) ==> start in vis
    ensures t in vis
  {
    var p :| Path(g, src, p, start, t);
    if |p| > 1 {
      assert PathStep(g, src, p, 0);
    }
    ClosedHasReached(g, src, vis, p, start, t);
  }

  // ---- what is left of the replaced type ----

  /** The type t after replacing from start. */
  ghost function After(g: Nodes, src: Ref, dest: Ref, start: Ref, t: Ref): TypeNode
    requires t in g
  {
    if Visits(g, src, start, t) then Replaced(g[t], src, dest) else g[t]
  }

  /** A type still refers to src exactly when it did before and was not visited. */
  lemma StillRefers(g: Nodes, src: Ref, dest: Ref, start: Ref, t: Ref)
    requires t in g && src != dest
    ensures src in Slots(After(g, src, dest, start, t)) <==> src in Slots(g[t]) && !Visits(g, src, start, t)
  {
    if Visits(g, src, start, t) {
      ReplacedSlots(g[t], src, dest);
    }
  }

  /** A function, the pointer it returns, and what that points to. */
  function ReturningPointer(): Nodes {
    map[1 := FunctionType(2, []), 2 := PointerType(false, 3), 3 := RecordType(false, [])]
  }

  /** Return types are replaced but not followed: the pointer that the function returns still refers to the replaced
      type. */
  lemma BehindReturnType()
    ensures var g := ReturningPointer(); WellFormed(g) && 3 in Slots(After(g, 3, 4, 1, 2))
  {
    var g := ReturningPointer();
    forall p ensures !Path(g, 3, p, 1, 2) {
      assert |p| > 1 && p[0] == 1 ==> !PathStep(g, 3, p, 0);
    }
    StillRefers(g, 3, 4, 1, 2);
    assert 3 == Slots(g[2])[0];
  }
}
