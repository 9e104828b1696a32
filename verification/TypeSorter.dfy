/** Breaking the cycles of a growing graph: which edges are kept, and why the others are not. */
module KeptEdges {
  import opened Arrays
  import opened DepthFirst

  function WithEdge(out: Graph, u: nat, v: nat): Graph
    requires u < |out|
  {
    out[u := out[u] + [v]]
  }

  /** The list without v. */
  function Dropped(s: seq<nat>, v: nat): seq<nat> {
    if s == [] then [] else if s[0] == v then Dropped(s[1..], v) else [s[0]] + Dropped(s[1..], v)
  }

  lemma {:induction false} DroppedAgain(s: seq<nat>, v: nat)
    requires v !in s
    ensures Dropped(s + [v], v) == s
  {
    if s == [] {
      assert s + [v] == [v] && [v][1..] == [];
      assert Dropped([], v) == [];
    } else {
      assert s[0] in s && (s + [v])[1..] == s[1..] + [v];
      DroppedAgain(s[1..], v);
    }
  }

  /** Of the wanted edges the kept ones form no cycle, and each of the others would close one. */
  ghost predicate MaximalAcyclic(out: Graph, wanted: seq<(nat, nat)>) {
    && InRange(out) && !Cyclic(out)
    && (forall u: nat, v: nat :: Edge(out, u, v) ==> (u, v) in wanted)
    && (forall u: nat, v: nat {:trigger Edge(out, u, v)} {:trigger (u, v) in wanted} ::
          (u, v) in wanted && !Edge(out, u, v) ==> u < |out| && v < |out| && Cyclic(WithEdge(out, u, v)))
  }

  /** A walk from v to u through edges of out that are among the first k of the wanted ones. */
  ghost predicate ClosedBefore(out: Graph, wanted: seq<(nat, nat)>, k: nat, p: seq<nat>)
    requires k < |wanted|
  {
    && Walk(out, p) && p[0] == wanted[k].1 && p[|p| - 1] == wanted[k].0
    && forall i :: 0 <= i < |p| - 1 ==> (p[i], p[i + 1]) in wanted[..k]
  }

  ghost predicate KeptAt(out: Graph, wanted: seq<(nat, nat)>, k: nat)
    requires k < |wanted|
  {
    Edge(out, wanted[k].0, wanted[k].1) || exists p :: ClosedBefore(out, wanted, k, p)
  }

  /** The wanted edges are taken in turn: one that is not kept would close a cycle with kept ones before it. */
  ghost predicate InTurn(out: Graph, wanted: seq<(nat, nat)>) {
    MaximalAcyclic(out, wanted) && forall k: nat {:trigger KeptAt(out, wanted, k)} ::
      k < |wanted| ==> KeptAt(out, wanted, k)
  }

  /** So an edge is kept exactly when it closes no cycle with kept edges before it. */
  lemma KeptExactly(out: Graph, wanted: seq<(nat, nat)>, k: nat)
    requires InTurn(out, wanted) && k < |wanted|
    ensures Edge(out, wanted[k].0, wanted[k].1) <==> !exists p :: ClosedBefore(out, wanted, k, p)
  {
    assert KeptAt(out, wanted, k);
    var (u, v) := wanted[k];
    if p :| ClosedBefore(out, wanted, k, p) && Edge(out, u, v) {
      assert Walk(out, [v]);
      WalkJoin(out, p, [v]);
      assert Closed(out, p + [v]);
      assert false;
    }
  }

  lemma WithEdgeEdges(out: Graph, u: nat, v: nat)
    requires u < |out|
    ensures forall x, y :: Edge(WithEdge(out, u, v), x, y) <==> Edge(out, x, y) || (x == u && y == v)
  {
  }

  /** A walk from v that comes to u gets there without the edge from u to v. */
  lemma {:induction false} WithoutEdge(out: Graph, u: nat, v: nat, p: seq<nat>)
    requires u < |out| && Walk(WithEdge(out, u, v), p) && p[|p| - 1] == u
    ensures exists q :: Walk(out, q) && q[0] == p[0] && q[|q| - 1] == u
    decreases |p|
  {
    if p[0] == u {
      assert Walk(out, [u]);
    } else {
      assert WalkStep(WithEdge(out, u, v), p, 0);
      WithEdgeEdges(out, u, v);
      WalkPart(WithEdge(out, u, v), p, 1, |p|);
      WithoutEdge(out, u, v, p[1..|p|]);
      var q :| Walk(out, q) && q[0] == p[1] && q[|q| - 1] == u;
      assert Walk(out, [p[0]]);
      WalkJoin(out, [p[0]], q);
      assert ([p[0]] + q)[0] == p[0];
    }
  }

  /** A cycle that a new edge from u to v closes leads back from v to u. */
  lemma {:induction false} CycleCloses(out: Graph, u: nat, v: nat, p: seq<nat>)
    requires u < |out| && !Cyclic(out) && Closed(WithEdge(out, u, v), p)
    ensures Reaches(out, v, u)
  {
    WithEdgeEdges(out, u, v);
    if i :| 0 <= i < |p| - 1 && p[i] == u && p[i + 1] == v {
      // from v on to the end of p, and from its start on to u
      WalkPart(WithEdge(out, u, v), p, i + 1, |p|);
      var q := p[i + 1..|p|];
      if i > 0 {
        WalkPart(WithEdge(out, u, v), p, 1, i + 1);
        assert WalkStep(WithEdge(out, u, v), p, 0);
        WalkJoin(WithEdge(out, u, v), q, p[1..i + 1]);
        WithoutEdge(out, u, v, q + p[1..i + 1]);
      } else {
        WithoutEdge(out, u, v, q);
      }
    } else {
      forall k | 0 <= k < |p| - 1 ensures WalkStep(out, p, k) {
        assert WalkStep(WithEdge(out, u, v), p, k);
      }
      assert Closed(out, p);
    }
  }

  lemma ClosesCycle(out: Graph, u: nat, v: nat)
    requires u < |out| && Reaches(out, v, u)
    ensures Cyclic(WithEdge(out, u, v))
  {
    var p :| Walk(out, p) && p[0] == v && p[|p| - 1] == u;
    WithEdgeEdges(out, u, v);
    WalkKept(out, WithEdge(out, u, v), p);
    assert Walk(WithEdge(out, u, v), [v]);
    WalkJoin(WithEdge(out, u, v), p, [v]);
    assert Closed(WithEdge(out, u, v), p + [v]);
  }

  /** A cycle stays one when edges are added. */
  lemma CyclicKept(out: Graph, out': Graph)
    requires Cyclic(out) && forall u, v :: Edge(out, u, v) ==> Edge(out', u, v)
    ensures Cyclic(out')
  {
    var p :| Closed(out, p);
    WalkKept(out, out', p);
    assert Closed(out', p);
  }

  // ---- one more wanted edge ----

  lemma OneMore(out: Graph, out': Graph, wanted: seq<(nat, nat)>, e: (nat, nat))
    requires InTurn(out, wanted) && MaximalAcyclic(out', wanted + [e]) && KeptAt(out', wanted + [e], |wanted|)
    requires forall x, y :: Edge(out, x, y) ==> Edge(out', x, y)
    ensures InTurn(out', wanted + [e])
  {
    var wanted' := wanted + [e];
    forall k: nat {:trigger KeptAt(out', wanted', k)} | k < |wanted| ensures KeptAt(out', wanted', k) {
      assert KeptAt(out, wanted, k) && wanted'[k] == wanted[k] && wanted'[..k] == wanted[..k];
      if !Edge(out', wanted[k].0, wanted[k].1) {
        var p :| ClosedBefore(out, wanted, k, p);
        WalkKept(out, out', p);
        assert ClosedBefore(out', wanted', k, p);
      }
    }
  }

  lemma AlreadyThere(out: Graph, wanted: seq<(nat, nat)>, u: nat, v: nat)
    requires InTurn(out, wanted) && Edge(out, u, v)
    ensures InTurn(out, wanted + [(u, v)])
  {
    assert MaximalAcyclic(out, wanted + [(u, v)]);
    assert KeptAt(out, wanted + [(u, v)], |wanted|);
    OneMore(out, out, wanted, (u, v));
  }

  lemma Added(out: Graph, wanted: seq<(nat, nat)>, u: nat, v: nat)
    requires InTurn(out, wanted) && u < |out| && v < |out| && !Cyclic(WithEdge(out, u, v))
    ensures InTurn(WithEdge(out, u, v), wanted + [(u, v)])
  {
    var out' := WithEdge(out, u, v);
    WithEdgeEdges(out, u, v);
    AddedMaximal(out, wanted, u, v);
    assert KeptAt(out', wanted + [(u, v)], |wanted|);
    OneMore(out, out', wanted, (u, v));
  }

  lemma AddedMaximal(out: Graph, wanted: seq<(nat, nat)>, u: nat, v: nat)
    requires MaximalAcyclic(out, wanted) && u < |out| && v < |out| && !Cyclic(WithEdge(out, u, v))
    ensures MaximalAcyclic(WithEdge(out, u, v), wanted + [(u, v)])
  {
    var out' := WithEdge(out, u, v);
    WithEdgeEdges(out, u, v);
    forall x: nat, y: nat | (x, y) in wanted + [(u, v)] && !Edge(out', x, y)
      ensures x < |out'| && y < |out'| && Cyclic(WithEdge(out', x, y))
    {
      assert (x, y) in wanted && !Edge(out, x, y);
      WithEdgeEdges(out, x, y);
      WithEdgeEdges(out', x, y);
      CyclicKept(WithEdge(out, x, y), WithEdge(out', x, y));
    }
  }

  lemma LeftOut(out: Graph, wanted: seq<(nat, nat)>, u: nat, v: nat)
    requires InTurn(out, wanted) && u < |out| && v < |out| && Cyclic(WithEdge(out, u, v))
    ensures InTurn(out, wanted + [(u, v)])
  {
    var wanted', k := wanted + [(u, v)], |wanted|;
    assert MaximalAcyclic(out, wanted');
    var c :| Closed(WithEdge(out, u, v), c);
    CycleCloses(out, u, v, c);
    var p :| Walk(out, p) && p[0] == v && p[|p| - 1] == u;
    forall i | 0 <= i < |p| - 1 ensures (p[i], p[i + 1]) in wanted'[..k] {
      assert WalkStep(out, p, i) && wanted'[..k] == wanted;
    }
    assert ClosedBefore(out, wanted', k, p);
    assert KeptAt(out, wanted', k);
    OneMore(out, out, wanted, (u, v));
  }

  /** When the wanted edges form no cycle at all, every one of them is kept. */
  lemma AllKept(out: Graph, wanted: seq<(nat, nat)>, all: Graph)
    requires MaximalAcyclic(out, wanted) && !Cyclic(all) && |out| <= |all|
    requires forall u: nat, v: nat :: (u, v) in wanted ==> Edge(all, u, v)
    ensures forall u: nat, v: nat :: (u, v) in wanted ==> Edge(out, u, v)
  {
    forall u: nat, v: nat | (u, v) in wanted ensures Edge(out, u, v) {
      if !Edge(out, u, v) {
        WithEdgeEdges(out, u, v);
        CyclicKept(WithEdge(out, u, v), all);
      }
    }
  }
}

/** The dependency graph of a range of types, and what its order is good for. */
module TypeOrder {
  import opened Arrays
  import opened Sequences
  import opened DepthFirst
  import opened KeptEdges
  import opened TypeGraphs

  /** The vertex of a type: its first place in the range; a type outside the range is taken for the first vertex. */
  function VertexOf(types: seq<Ref>, t: Ref): nat {
    if t in types then FirstIndex(types, t) else 0
  }

  ghost predicate Known(g: Nodes, types: seq<Ref>) {
    forall t :: t in types ==> t in g
  }

  /** The edges from type t to the types of its slots. */
  ghost function EdgesOf(types: seq<Ref>, t: Ref, slots: seq<Ref>): seq<(nat, nat)> {
    seq(|slots|, i requires 0 <= i < |slots| => (VertexOf(types, t), VertexOf(types, slots[i])))
  }

  ghost function EdgeLists(types: seq<Ref>, g: Nodes): (r: seq<seq<(nat, nat)>>)
    requires Known(g, types)
    ensures |r| == |types| && forall i :: 0 <= i < |r| ==> r[i] == EdgesOf(types, types[i], Slots(g[types[i]]))
  {
    seq(|types|, i requires 0 <= i < |types| => EdgesOf(types, types[i], Slots(g[types[i]])))
  }

  ghost function Concat<T>(lists: seq<seq<T>>): seq<T> {
    if lists == [] then [] else Concat(lists[..|lists| - 1]) + lists[|lists| - 1]
  }

  lemma ConcatNext<T>(lists: seq<seq<T>>, i: nat)
    requires i < |lists|
    ensures Concat(lists[..i + 1]) == Concat(lists[..i]) + lists[i]
  {
    assert lists[..i + 1][..i] == lists[..i];
  }

  lemma {:induction false} InConcat<T>(lists: seq<seq<T>>, x: T)
    ensures x in Concat(lists) <==> exists i :: 0 <= i < |lists| && x in lists[i]
  {
    if lists != [] {
      var n := |lists| - 1;
      InConcat(lists[..n], x);
      assert forall i :: 0 <= i < n ==> lists[..n][i] == lists[i];
    }
  }

  /** All edges that the types of the range call for, in the order of the range and of their slots. */
  ghost function Wanted(types: seq<Ref>, g: Nodes): seq<(nat, nat)>
    requires Known(g, types)
  {
    Concat(EdgeLists(types, g))
  }

  /** d is a slot of the type at place i, and e the edge for it. */
  ghost predicate EdgeFor(types: seq<Ref>, g: Nodes, e: (nat, nat), i: int, d: Ref)
    requires Known(g, types)
  {
    0 <= i < |types| && d in Slots(g[types[i]]) && e == (VertexOf(types, types[i]), VertexOf(types, d))
  }

  lemma WantedFor(types: seq<Ref>, g: Nodes, e: (nat, nat)) returns (i: nat, d: Ref)
    requires Known(g, types) && e in Wanted(types, g)
    ensures EdgeFor(types, g, e, i, d)
  {
    var lists := EdgeLists(types, g);
    InConcat(lists, e);
    i :| 0 <= i < |lists| && e in lists[i];
    d := SlotFor(types, types[i], Slots(g[types[i]]), e);
  }

  lemma SlotFor(types: seq<Ref>, t: Ref, slots: seq<Ref>, e: (nat, nat)) returns (d: Ref)
    requires e in EdgesOf(types, t, slots)
    ensures d in slots && e == (VertexOf(types, t), VertexOf(types, d))
  {
    var i :| 0 <= i < |slots| && EdgesOf(types, t, slots)[i] == e;
    d := slots[i];
  }

  lemma WantedHas(types: seq<Ref>, g: Nodes, e: (nat, nat), i: nat, d: Ref)
    requires Known(g, types) && EdgeFor(types, g, e, i, d)
    ensures e in Wanted(types, g)
  {
    var lists, slots := EdgeLists(types, g), Slots(g[types[i]]);
    var j :| 0 <= j < |slots| && slots[j] == d;
    assert lists[i][j] == e;
    InConcat(lists, e);
  }

  /** The type has d for its return type, a parameter, a field, an element, or behind a pointer or qualifier. */
  ghost predicate MadeOf(node: TypeNode, d: Ref) {
    match node
    case FunctionType(ret, params) => d == ret || d in params
    case RecordType(_, fields) => exists i :: 0 <= i < |fields| && fields[i].type_ == d
    case QualType(_, _, underlying) => d == underlying
    case PointerType(_, referenced) => d == referenced
    case FixedArrayType(element, _) => d == element
    case EnumType(_) => false
    case PrimitiveType(_) => false
  }

  lemma SlotsAre(node: TypeNode, d: Ref)
    ensures d in Slots(node) <==> MadeOf(node, d)
  {
    if node.RecordType? {
      assert forall i :: 0 <= i < |node.fields| ==> FieldTypes(node.fields)[i] == node.fields[i].type_;
    }
  }

  /** The type at place i is made of d, and e leads from the first place of the one to that of the other; a type outside
      the range counts as the first. */
  ghost predicate Calls(types: seq<Ref>, g: Nodes, e: (nat, nat), i: int, d: Ref)
    requires Known(g, types)
  {
    && 0 <= i < |types| && MadeOf(g[types[i]], d)
    && e == (FirstIndex(types, types[i]), if d in types then FirstIndex(types, d) else 0)
  }

  /** Wanted are the edges from each type of the range to the types it is made of. */
  lemma WantedExactly(types: seq<Ref>, g: Nodes, e: (nat, nat))
    requires Known(g, types)
    ensures e in Wanted(types, g) <==> exists i, d :: Calls(types, g, e, i, d)
  {
    if e in Wanted(types, g) {
      var i, d := WantedFor(types, g, e);
      SlotsAre(g[types[i]], d);
      assert Calls(types, g, e, i, d);
    }
    if i, d :| Calls(types, g, e, i, d) {
      SlotsAre(g[types[i]], d);
      WantedHas(types, g, e, i, d);
    }
  }

  /** Whatever edge is kept, its target stands before its source. */
  ghost predicate EdgesInOrder(types: seq<Ref>, out: Graph, sorted: seq<Ref>) {
    forall u: nat, v: nat :: Edge(out, u, v) ==>
      && u < |types| && v < |types| && types[u] in sorted && types[v] in sorted
      && FirstIndex(sorted, types[v]) < FirstIndex(sorted, types[u])
  }

  ghost predicate Sorts(types: seq<Ref>, g: Nodes, out: Graph, sorted: seq<Ref>) {
    && Known(g, types) && |out| == |types| && InTurn(out, Wanted(types, g))
    && multiset(sorted) == multiset(types) && EdgesInOrder(types, out, sorted)
  }

  // ---- from the order of the vertices to the order of the types ----

  function Labelled(types: seq<Ref>, done: seq<nat>): seq<Ref>
    requires forall i :: 0 <= i < |done| ==> done[i] < |types|
  {
    seq(|done|, i requires 0 <= i < |done| => types[done[i]])
  }

  /** Edges join first places only. */
  lemma EdgeEnds(types: seq<Ref>, g: Nodes, out: Graph, u: nat, v: nat)
    requires Known(g, types) && |out| == |types| && MaximalAcyclic(out, Wanted(types, g)) && Edge(out, u, v)
    ensures u < |types| && v < |types| && FirstIndex(types, types[u]) == u && FirstIndex(types, types[v]) == v
    ensures exists d :: d in Slots(g[types[u]]) && v == VertexOf(types, d)
  {
    var i, d := WantedFor(types, g, (u, v));
    assert types[0] in types && types[..0] == [];
    FirstIs(types, types[0], 0);
  }

  lemma RootBefore(out: Graph, done: seq<nat>, k: nat, u: nat)
    requires RootsInOrder(out, done) && k < |done| && !HasSource(out, done[k]) && u < done[k]
    ensures exists m :: 0 <= m < k && done[m] == u
  {
    assert u in done[..k];
  }

  /** A later place of a type comes after the first one. */
  lemma FirstsFirst(types: seq<Ref>, g: Nodes, out: Graph, done: seq<nat>, i: nat)
    requires Known(g, types) && |out| == |types| && MaximalAcyclic(out, Wanted(types, g))
    requires Distinct(done) && RootsInOrder(out, done) && forall j :: 0 <= j < |done| ==> done[j] < |types|
    requires i < |done| && FirstIndex(types, types[done[i]]) == done[i]
    ensures types[done[i]] in Labelled(types, done) && FirstIndex(Labelled(types, done), types[done[i]]) == i
  {
    var s, u := Labelled(types, done), done[i];
    assert s[i] == types[u];
    if types[u] in s[..i] {
      var k :| 0 <= k < i && s[k] == types[u];
      var w := done[k];
      FirstAtMost(types, types[u], w);
      assert u < w;
      assert !HasSource(out, w) by {
        forall x | Edge(out, x, w) ensures false {
          EdgeEnds(types, g, out, x, w);
        }
      }
      RootBefore(out, done, k, u);
      assert false;
    }
    FirstIs(s, types[u], i);
  }

  lemma SortedEdges(types: seq<Ref>, g: Nodes, out: Graph, done: seq<nat>)
    requires Known(g, types) && |out| == |types| && MaximalAcyclic(out, Wanted(types, g))
    requires Covers(done, |types|) && Ordered(out, done) && RootsInOrder(out, done)
    ensures EdgesInOrder(types, out, Labelled(types, done))
  {
    var s := Labelled(types, done);
    forall u: nat, v: nat | Edge(out, u, v)
      ensures u < |types| && v < |types| && types[u] in s && types[v] in s
      ensures FirstIndex(s, types[v]) < FirstIndex(s, types[u])
    {
      EdgeEnds(types, g, out, u, v);
      assert u in done;
      var i :| 0 <= i < |done| && done[i] == u;
      var j :| 0 <= j < i && done[j] == v;
      assert s[i] == types[u] && s[j] == types[v];
      FirstsFirst(types, g, out, done, i);
      FirstsFirst(types, g, out, done, j);
    }
  }

  lemma RestCovers(done: seq<nat>, k: nat, rest: seq<nat>, n: nat)
    requires Covers(done, n + 1) && k < |done| && done[k] == n && rest == done[..k] + done[k + 1..]
    ensures Covers(rest, n)
  {
    forall v: nat | v < n ensures v in rest {
      assert v in done;
      var j :| 0 <= j < |done| && done[j] == v;
      assert rest[if j < k then j else j - 1] == v;
    }
  }

  lemma LabelledRest(types: seq<Ref>, done: seq<nat>, k: nat, rest: seq<nat>, n: nat)
    requires Covers(done, n + 1) && Covers(rest, n) && |types| == n + 1
    requires k < |done| && done[k] == n && rest == done[..k] + done[k + 1..]
    ensures multiset(Labelled(types, done)) == multiset(Labelled(types[..n], rest)) + multiset{types[n]}
  {
    var s := Labelled(types, done);
    assert Labelled(types[..n], rest) == s[..k] + s[k + 1..];
    assert s == s[..k] + [s[k]] + s[k + 1..];
  }

  /** The order lists every place of the range once. */
  lemma {:induction false} SortedAll(types: seq<Ref>, done: seq<nat>)
    requires Covers(done, |types|)
    ensures multiset(Labelled(types, done)) == multiset(types)
    decreases |types|
  {
    if types != [] {
      var n := |types| - 1;
      assert n in done;
      var k :| 0 <= k < |done| && done[k] == n;
      var rest := done[..k] + done[k + 1..];
      RestCovers(done, k, rest, n);
      SortedAll(types[..n], rest);
      LabelledRest(types, done, k, rest, n);
      assert types == types[..n] + [types[n]];
    }
  }
}

/** The sorter: edges are added one by one and taken back when they close a cycle. */
module TypeSorting {
  import opened Arrays
  import opened Sequences
  import opened DepthFirst
  import opened KeptEdges
  import opened TypeGraphs
  import opened TypeOrder

  /** The vertex a map gives to a type; looking up a missing type enters it as vertex 0. */
  function Vertex(m: map<Ref, nat>, t: Ref): nat {
    if t in m then m[t] else 0
  }

  ghost predicate Vertices(m: map<Ref, nat>, types: seq<Ref>) {
    forall t {:trigger Vertex(m, t)} :: Vertex(m, t) == VertexOf(types, t)
  }

  /** The map after the first k types. */
  ghost predicate Entered(m: map<Ref, nat>, types: seq<Ref>, k: nat)
    requires k <= |types|
  {
    forall t :: (t in m <==> t in types[..k]) && (t in m ==> t in types && m[t] == FirstIndex(types, t))
  }

  lemma EnterNext(m: map<Ref, nat>, types: seq<Ref>, k: nat)
    requires k < |types| && Entered(m, types, k)
    ensures Entered(if types[k] in m then m else m[types[k] := k], types, k + 1)
    ensures types[..k + 1] == types[..k] + [types[k]]
  {
    assert types[..k + 1] == types[..k] + [types[k]];
    if types[k] !in m {
      FirstIs(types, types[k], k);
    }
  }

  lemma EnteredAll(m: map<Ref, nat>, types: seq<Ref>)
    requires Entered(m, types, |types|)
    ensures Vertices(m, types)
  {
    assert types[..|types|] == types;
  }

  lemma EdgesOfOneMore(types: seq<Ref>, t: Ref, slots: seq<Ref>, i: nat)
    requires i < |slots|
    ensures EdgesOf(types, t, slots[..i + 1]) == EdgesOf(types, t, slots[..i])
      + [(VertexOf(types, t), VertexOf(types, slots[i]))]
  {
    assert slots[..i + 1] == slots[..i] + [slots[i]];
  }

  lemma NoEdges(out: Graph)
    requires forall i :: 0 <= i < |out| ==> out[i] == []
    ensures InTurn(out, [])
  {
    forall p ensures !Closed(out, p) {
      if |p| >= 2 {
        assert !WalkStep(out, p, 0);
      }
    }
  }

  class TypeSorter {
    var out: Graph
    var labels: seq<Ref>
    var vertexOf: map<Ref, nat>
    var sorted: seq<Ref>

    /** The graph over the vertices of types, with the edges wanted so far. */
    ghost predicate Building(types: seq<Ref>, wanted: seq<(nat, nat)>)
      reads this
    {
      && labels == types && types != [] && |out| == |types|
      && Vertices(vertexOf, types) && InTurn(out, wanted)
    }

    method GetVertex(t: Ref, ghost types: seq<Ref>) returns (v: nat)
      requires Vertices(vertexOf, types) && types != []
      modifies `vertexOf
      ensures Vertices(vertexOf, types) && v == VertexOf(types, t) && v < |types|
    {
      assert Vertex(vertexOf, t) == VertexOf(types, t);
      if t !in vertexOf {
        ghost var before := vertexOf;
        vertexOf := vertexOf[t := 0];
        assert forall x :: Vertex(vertexOf, x) == Vertex(before, x);
      }
      v := vertexOf[t];
    }

    method AddDependency(a: Ref, b: Ref, ghost types: seq<Ref>, ghost wanted: seq<(nat, nat)>)
      requires Building(types, wanted)
      modifies `vertexOf, `out
      ensures Building(types, wanted + [(VertexOf(types, a), VertexOf(types, b))])
    {
      var u := GetVertex(a, types);
      var v := GetVertex(b, types);
      if v !in out[u] {
        ghost var before := out;
        out := out[u := out[u] + [v]];
        WithEdgeEdges(before, u, v);
        var _, cycle := Search(out);
        if cycle {
          DroppedAgain(before[u], v);
          out := out[u := Dropped(out[u], v)];
          assert out == before;
          LeftOut(before, wanted, u, v);
        } else {
          Added(before, wanted, u, v);
        }
      } else {
        AlreadyThere(out, wanted, u, v);
      }
    }

    method VisitFunctionType(t: Ref, node: TypeNode, ghost types: seq<Ref>, ghost wanted: seq<(nat, nat)>)
      requires Building(types, wanted) && node.FunctionType?
      modifies `vertexOf, `out
      ensures Building(types, wanted + EdgesOf(types, t, Slots(node)))
    {
      ghost var slots := Slots(node);
      AddDependency(t, node.returnType, types, wanted);
      NoneWanted(wanted, types, t, slots);
      MoreWanted(wanted, types, t, slots, 0);
      var i := 0;
      while i < |node.paramTypes|
        invariant 0 <= i <= |node.paramTypes| && Building(types, wanted + EdgesOf(types, t, slots[..i + 1]))
      {
        assert slots[i + 1] == node.paramTypes[i];
        AddDependency(t, node.paramTypes[i], types, wanted + EdgesOf(types, t, slots[..i + 1]));
        MoreWanted(wanted, types, t, slots, i + 1);
        i := i + 1;
      }
      assert slots[..i + 1] == slots;
    }

    lemma NoneWanted(wanted: seq<(nat, nat)>, types: seq<Ref>, t: Ref, slots: seq<Ref>)
      ensures wanted + EdgesOf(types, t, slots[..0]) == wanted
    {
    }

    lemma MoreWanted(wanted: seq<(nat, nat)>, types: seq<Ref>, t: Ref, slots: seq<Ref>, i: nat)
      requires i < |slots|
      ensures wanted + EdgesOf(types, t, slots[..i]) + [(VertexOf(types, t), VertexOf(types, slots[i]))] == wanted
        + EdgesOf(types, t, slots[..i + 1])
    {
      EdgesOfOneMore(types, t, slots, i);
    }

    method VisitRecordType(t: Ref, node: TypeNode, ghost types: seq<Ref>, ghost wanted: seq<(nat, nat)>)
      requires Building(types, wanted) && node.RecordType?
      modifies `vertexOf, `out
      ensures Building(types, wanted + EdgesOf(types, t, Slots(node)))
    {
      ghost var slots := Slots(node);
      NoneWanted(wanted, types, t, slots);
      var i := 0;
      while i < |node.fields|
        invariant 0 <= i <= |node.fields| && Building(types, wanted + EdgesOf(types, t, slots[..i]))
      {
        AddDependency(t, node.fields[i].type_, types, wanted + EdgesOf(types, t, slots[..i]));
        MoreWanted(wanted, types, t, slots, i);
        i := i + 1;
      }
      assert slots[..i] == slots;
    }

    method VisitSlot(t: Ref, slot: Ref, ghost types: seq<Ref>, ghost wanted: seq<(nat, nat)>)
      requires Building(types, wanted)
      modifies `vertexOf, `out
      ensures Building(types, wanted + EdgesOf(types, t, [slot]))
    {
      AddDependency(t, slot, types, wanted);
      NoneWanted(wanted, types, t, [slot]);
      MoreWanted(wanted, types, t, [slot], 0);
      assert [slot][..1] == [slot];
    }

    method Visit(t: Ref, node: TypeNode, ghost types: seq<Ref>, ghost wanted: seq<(nat, nat)>)
      requires Building(types, wanted)
      modifies `vertexOf, `out
      ensures Building(types, wanted + EdgesOf(types, t, Slots(node)))
    {
      match node
      case FunctionType(_, _) => VisitFunctionType(t, node, types, wanted);
      case QualType(_, _, underlying) => VisitSlot(t, underlying, types, wanted);
      case PointerType(_, referenced) => VisitSlot(t, referenced, types, wanted);
      case FixedArrayType(element, _) => VisitSlot(t, element, types, wanted);
      case RecordType(_, _) => VisitRecordType(t, node, types, wanted);
      case EnumType(_) => assert wanted + EdgesOf(types, t, Slots(node)) == wanted;
      case PrimitiveType(_) => assert wanted + EdgesOf(types, t, Slots(node)) == wanted;
    }

    lemma OrderSorts(g: Nodes, types: seq<Ref>, out: Graph, done: seq<nat>)
      requires Known(g, types) && |out| == |types| && InTurn(out, Wanted(types, g))
      requires Covers(done, |types|) && Ordered(out, done) && RootsInOrder(out, done)
      ensures Sorts(types, g, out, Labelled(types, done))
    {
      SortedEdges(types, g, out, done);
      SortedAll(types, done);
    }

    lemma Acyclic(out: Graph, wanted: seq<(nat, nat)>)
      requires InTurn(out, wanted)
      ensures InRange(out) && !Cyclic(out)
    {
    }

    /** The graph never has a cycle here, so the sort cannot fail. */
    method Sort(ghost g: Nodes, ghost types: seq<Ref>)
      requires labels == types && sorted == [] && |out| == |types| && Known(g, types)
      requires InTurn(out, Wanted(types, g))
      modifies `sorted
      ensures Sorts(types, g, out, sorted)
    {
      Acyclic(out, Wanted(types, g));
      var done, cycle := Search(out);
      OrderSorts(g, types, out, done);
      AddLabels(types, done);
    }

    /** The types of the vertices, in the order of done. */
    method AddLabels(ghost types: seq<Ref>, done: seq<nat>)
      requires labels == types && sorted == [] && Covers(done, |types|)
      modifies `sorted
      ensures sorted == Labelled(types, done)
    {
      var i := 0;
      while i < |done|
        invariant 0 <= i <= |done| && sorted == Labelled(types, done)[..i]
      {
        sorted := sorted + [labels[done[i]]];
        i := i + 1;
      }
      assert Labelled(types, done)[..i] == Labelled(types, done);
    }

    method EnterAll(range: seq<Ref>)
      modifies this
      ensures labels == range && |out| == |range| && sorted == [] && Vertices(vertexOf, range)
      ensures forall i :: 0 <= i < |out| ==> out[i] == []
    {
      out, labels, vertexOf, sorted := [], [], map[], [];
      var v := 0;
      while v < |range|
        invariant 0 <= v <= |range| && Entered(vertexOf, range, v) && labels == range[..v] && sorted == []
        invariant |out| == v && forall i :: 0 <= i < |out| ==> out[i] == []
      {
        EnterNext(vertexOf, range, v);
        if range[v] !in vertexOf {
          vertexOf := vertexOf[range[v] := v];
        }
        labels, out := labels + [range[v]], out + [[]];
        v := v + 1;
      }
      EnteredAll(vertexOf, range);
    }

    constructor (range: seq<Ref>, g: Nodes)
      requires Known(g, range)
      ensures labels == range && Sorts(range, g, out, sorted)
    {
      new;
      EnterAll(range);
      NoEdges(out);
      VisitAll(range, g);
      Sort(g, range);
    }

    method VisitAll(range: seq<Ref>, g: Nodes)
      requires labels == range && Known(g, range) && |out| == |range| && Vertices(vertexOf, range)
      requires InTurn(out, [])
      modifies `vertexOf, `out
      ensures |out| == |range| && InTurn(out, Wanted(range, g))
    {
      ghost var lists := EdgeLists(range, g);
      assert Concat(lists[..0]) == [];
      var i := 0;
      while i < |range|
        invariant 0 <= i <= |range| && |out| == |range| && Vertices(vertexOf, range)
        invariant InTurn(out, Concat(lists[..i]))
      {
        ConcatNext(lists, i);
        Visit(range[i], g[range[i]], range, Concat(lists[..i]));
        i := i + 1;
      }
      assert lists[..i] == lists;
    }
  }
}
