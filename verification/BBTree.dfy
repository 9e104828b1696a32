/** The bounding-box tree index: node pool, insertion, removal, pair cache and marking pass in place. */
module BBTreeIndex {
  import opened Reals
  import opened Arrays
  import opened Addresses
  import opened Boxes
  import opened TreeMemory
  import opened PairLists
  import opened BoxTrees
  import opened NodePool
  import opened NodeLinks
  import opened TreeSplit
  import opened TreeBuild
  import opened PairState
  import opened BroadPhase
  import opened MarkPass

  // ---- boxes of objects ----

  datatype MaybeVelocity = NoVelocity | Velocity(of: Ptr -> (real, real))

  /** Where the objects are: the callbacks of the index at one moment. */
  datatype World = World(bbfunc: Ptr -> BB, velocity: MaybeVelocity)

  /** The box stored for an object: its box, grown by a margin and in the direction of its velocity. */
  function GetBB(w: World, obj: Ptr): BB {
    var bb := w.bbfunc(obj);
    match w.velocity
    case NoVelocity => bb
    case Velocity(of) =>
      var x, y := (bb.r - bb.l) * 0.1, (bb.t - bb.b) * 0.1;
      var vx, vy := of(obj).0 * 0.1, of(obj).1 * 0.1;
      BB(bb.l + Min(-x, vx), bb.b + Min(-y, vy), bb.r + Max(x, vx), bb.t + Max(y, vy))
  }

  /** The box stored for an object after an update: kept while it still contains the object's box. */
  function Fitted(bb: BB, w: World, obj: Ptr): BB {
    if ContainsBB(bb, w.bbfunc(obj)) then bb else GetBB(w, obj)
  }

  /** The stored boxes when all objects but those in todo have been updated. */
  function HalfFitted(boxes: map<Ptr, BB>, todo: set<Ptr>, w: World): map<Ptr, BB> {
    map o | o in boxes :: if o in todo then boxes[o] else Fitted(boxes[o], w, o)
  }

  lemma OneFitted(boxes: map<Ptr, BB>, todo: set<Ptr>, w: World, obj: Ptr)
    requires obj in boxes && obj in todo
    ensures HalfFitted(boxes, todo, w)[obj := Fitted(boxes[obj], w, obj)] == HalfFitted(boxes, todo - {obj}, w)
  {
  }

  lemma FittedStored(m: Nodes, m': Nodes, leaves: map<Ptr, Ptr>, ls: seq<Ptr>, ls': seq<Ptr>, obj: Ptr, w: World,
                     updated: bool, now: nat)
    requires TableOk(m, leaves, ls) && obj in leaves && SameSet(ls, ls')
    requires leaves[obj] in m && updated == !ContainsBB(m[leaves[obj]].bb, w.bbfunc(obj))
    requires if updated then Moved(m, m', ls, leaves[obj], GetBB(w, obj), now) else m' == m && ls' == ls
    ensures TableOk(m', leaves, ls')
    ensures StoredBoxes(m', leaves) == StoredBoxes(m, leaves)[obj := Fitted(m[leaves[obj]].bb, w, obj)]
  {
    if updated {
      TableMoved(m, m', leaves, ls, ls', obj, GetBB(w, obj), now);
    }
  }

  /** The stored box surrounds the object's box. */
  lemma GetBBContains(w: World, obj: Ptr)
    requires Upright(w.bbfunc(obj))
    ensures ContainsBB(GetBB(w, obj), w.bbfunc(obj)) && Upright(GetBB(w, obj))
  {
  }

  /** Without velocities the stored box is the object's own. With them it is the smallest box around two others: the
      object's box with a tenth of its width and height added on each side, and the object's box where it will be after
      a tenth of a time unit. */
  lemma GetBBSmallest(w: World, obj: Ptr)
    ensures w.velocity.NoVelocity? ==> GetBB(w, obj) == w.bbfunc(obj)
    ensures w.velocity.Velocity? ==>
      var bb, v := w.bbfunc(obj), w.velocity.of(obj);
      var x, y := (bb.r - bb.l) / 10.0, (bb.t - bb.b) / 10.0;
      var grown := BB(bb.l - x, bb.b - y, bb.r + x, bb.t + y);
      var ahead := BB(bb.l + v.0 / 10.0, bb.b + v.1 / 10.0, bb.r + v.0 / 10.0, bb.t + v.1 / 10.0);
      forall c :: ContainsBB(c, GetBB(w, obj)) <==> ContainsBB(c, grown) && ContainsBB(c, ahead)
  {
  }

  /** An update keeps the stored box of an object exactly as long as it has all points of the object's own. */
  lemma StoredAfter(w: World, boxes: map<Ptr, BB>, obj: Ptr)
    requires obj in boxes && Upright(w.bbfunc(obj))
    ensures var bb, box := boxes[obj], w.bbfunc(obj);
            HalfFitted(boxes, {}, w)[obj] == if forall x, y :: InBox(box, x, y) ==> InBox(bb, x, y) then bb
              else GetBB(w, obj)
  {
    ContainingIsCovering(boxes[obj], w.bbfunc(obj));
  }

  /** After a pass over updated boxes no two objects whose own boxes meet go unreported, or are reported twice. */
  lemma NothingMissed(w: World, boxes: map<Ptr, BB>, calls: seq<Call>, x: Ptr, y: Ptr)
    requires EachOnce(HalfFitted(boxes, {}, w), calls) && x in boxes && y in boxes && x != y
    requires Upright(w.bbfunc(x)) && Upright(w.bbfunc(y)) && Intersects(w.bbfunc(x), w.bbfunc(y))
    ensures Reported(calls, x, y) == 1
  {
    GetBBContains(w, x);
    GetBBContains(w, y);
    var fitted := HalfFitted(boxes, {}, w);
    assert ContainsBB(fitted[x], w.bbfunc(x)) && ContainsBB(fitted[y], w.bbfunc(y));
    assert Intersects(fitted[x], fitted[y]);
  }

  // ---- which pairs survive an update, and with which ids ----

  /** The box of o has left the stored one. */
  predicate Outgrew(boxes: map<Ptr, BB>, w: World, o: Ptr) {
    o in boxes && !ContainsBB(boxes[o], w.bbfunc(o))
  }

  /** The same, with the objects in todo still to be looked at. */
  predicate Gone(boxes: map<Ptr, BB>, w: World, todo: set<Ptr>, o: Ptr) {
    o !in todo && Outgrew(boxes, w, o)
  }

  ghost predicate Survives(n: Nodes, boxes: map<Ptr, BB>, w: World, todo: set<Ptr>, ends: (Ptr, Ptr)) {
    !Gone(boxes, w, todo, ObjOf(n, ends.0)) && !Gone(boxes, w, todo, ObjOf(n, ends.1))
  }

  ghost function Surviving(n: Nodes, e: Edges, boxes: map<Ptr, BB>, w: World, todo: set<Ptr>): Edges {
    map p | p in e && Survives(n, boxes, w, todo, e[p]) :: e[p]
  }

  /** Half-way through the update of all leaves: n0, e0 and m0 are the nodes, the cache and the pairs before it. */
  ghost predicate HalfUpdated(n0: Nodes, e0: Edges, m0: Pairs, n: Nodes, e: Edges, m: Pairs, ls: seq<Ptr>,
                              boxes: map<Ptr, BB>, w: World, todo: set<Ptr>, now: nat) {
    && e == Surviving(n0, e0, boxes, w, todo) && IdsKept(e, m0, m)
    && forall l {:trigger l in ls} :: l in ls ==>
         l in n0 && l in n && n[l].obj == n0[l].obj && n[l].body.Leaf?
           && (n[l].body.stamp == now <==> Gone(boxes, w, todo, n0[l].obj))
  }

  lemma UpdateStarts(n: Nodes, e: Edges, m: Pairs, leaves: map<Ptr, Ptr>, ls: seq<Ptr>, boxes: map<Ptr, BB>, w: World,
                     now: nat)
    requires TableOk(n, leaves, ls) && LeavesOlder(n, ls, now) && forall p :: p in e ==> e[p].0 in ls && e[p].1 in ls
    ensures HalfUpdated(n, e, m, n, e, m, ls, boxes, w, leaves.Keys, now)
  {
    InTable(n, leaves, ls);
  }

  /** Of the leaves in ls that of o is the only one with this object. */
  lemma GoneOrIts(n: Nodes, leaves: map<Ptr, Ptr>, ls: seq<Ptr>, boxes: map<Ptr, BB>, w: World, todo: set<Ptr>, o: Ptr,
                  l: Ptr)
    requires TableOk(n, leaves, ls) && o in leaves && o in todo && l in ls
    ensures Gone(boxes, w, todo - {o}, ObjOf(n, l))
      <==> Gone(boxes, w, todo, ObjOf(n, l)) || (l == leaves[o] && Outgrew(boxes, w, o))
  {
    InTable(n, leaves, ls);
  }

  lemma CutIs(n0: Nodes, e0: Edges, leaves: map<Ptr, Ptr>, ls: seq<Ptr>, boxes: map<Ptr, BB>, w: World, todo: set<Ptr>,
              o: Ptr)
    requires TableOk(n0, leaves, ls) && o in leaves && o in todo
    requires forall p :: p in e0 ==> e0[p].0 in ls && e0[p].1 in ls
    ensures Surviving(n0, e0, boxes, w, todo - {o}) == if Outgrew(boxes, w, o)
      then CutOff(Surviving(n0, e0, boxes, w, todo), leaves[o]) else Surviving(n0, e0, boxes, w, todo)
  {
    forall p | p in e0
      ensures Survives(n0, boxes, w, todo - {o}, e0[p])
        <==> Survives(n0, boxes, w, todo, e0[p]) && !(Outgrew(boxes, w, o) && Joins(e0[p], leaves[o]))
    {
      GoneOrIts(n0, leaves, ls, boxes, w, todo, o, e0[p].0);
      GoneOrIts(n0, leaves, ls, boxes, w, todo, o, e0[p].1);
    }
  }

  lemma OneUpdated(n0: Nodes, e0: Edges, m0: Pairs, n: Nodes, e: Edges, m: Pairs, n': Nodes, e': Edges, m': Pairs,
                   leaves: map<Ptr, Ptr>, ls: seq<Ptr>, ls': seq<Ptr>, boxes: map<Ptr, BB>, w: World, todo: set<Ptr>,
                   o: Ptr, bb: BB, now: nat)
    requires HalfUpdated(n0, e0, m0, n, e, m, ls, boxes, w, todo, now) && TableOk(n0, leaves, ls) && SameSet(ls, ls')
    requires o in leaves && o in todo && e.Keys <= m.Keys
    requires forall p :: p in e0 ==> e0[p].0 in ls && e0[p].1 in ls
    requires if Outgrew(boxes, w, o) then Moved(n, n', ls, leaves[o], bb, now) && e' == CutOff(e, leaves[o])
      && IdsKept(e', m, m') else n' == n && e' == e && m' == m
    ensures HalfUpdated(n0, e0, m0, n', e', m', ls', boxes, w, todo - {o}, now) && TableOk(n0, leaves, ls')
    ensures forall p :: p in e0 ==> e0[p].0 in ls' && e0[p].1 in ls'
  {
    CutIs(n0, e0, leaves, ls, boxes, w, todo, o);
    InTable(n0, leaves, ls);
    forall l ensures l in ls' <==> l in ls {
      assert l in AsSet(ls') <==> l in AsSet(ls);
    }
  }

  /** What a pass does to the ids: a pair whose second object has outgrown its box carries 0, any other what func
      returned for its two objects and its former id, which is the one stored before if neither object had outgrown
      its box, and else 0. */
  ghost predicate IdsRenewed(n0: Nodes, e0: Edges, m0: Pairs, n: Nodes, e: Edges, m: Pairs, boxes: map<Ptr, BB>,
                             w: World, func: (Ptr, Ptr, nat) -> nat) {
    && (forall p :: p in e0 && Survives(n0, boxes, w, {}, e0[p]) ==> p in e && e[p] == e0[p])
    && forall p :: p in e && p in m ==>
         m[p].id == if Outgrew(boxes, w, ObjOf(n, e[p].1)) then 0
                    else func(ObjOf(n, e[p].0), ObjOf(n, e[p].1),
                              if p in e0 && p in m0 && Survives(n0, boxes, w, {}, e0[p]) then m0[p].id else 0)
  }

  /** A call about two objects that have not outgrown their boxes is about the pair they shared before, with its id; any
      other call passes 0. */
  ghost predicate CallNames(n0: Nodes, e0: Edges, m0: Pairs, boxes: map<Ptr, BB>, w: World, c: Call) {
    if Outgrew(boxes, w, c.obj1) || Outgrew(boxes, w, c.obj2) then c.id == 0
    else exists p :: p in e0 && p in m0 && c == Call(ObjOf(n0, e0[p].0), ObjOf(n0, e0[p].1), m0[p].id)
  }

  lemma IdsEnd(n0: Nodes, e0: Edges, m0: Pairs, n1: Nodes, e1: Edges, m1: Pairs, n: Nodes, e: Edges, m: Pairs,
               leaves: map<Ptr, Ptr>, ls: seq<Ptr>, boxes: map<Ptr, BB>, w: World, now: nat,
               func: (Ptr, Ptr, nat) -> nat)
    requires HalfUpdated(n0, e0, m0, n1, e1, m1, ls, boxes, w, {}, now) && OnlyPairs(n1, n) && e1.Keys <= m1.Keys
    requires IdsDue(n, e, m, e1, m1, SceneOf(n1, ls, now), AsSet(ls), func) && Marked(e1, SceneOf(n1, ls, now), {})
    requires Within(e, SceneOf(n1, ls, now)) && e0.Keys <= m0.Keys
    ensures IdsRenewed(n0, e0, m0, n, e, m, boxes, w, func)
  {
    forall p | p in e && p in m
      ensures m[p].id == if Outgrew(boxes, w, ObjOf(n, e[p].1)) then 0
        else func(ObjOf(n, e[p].0), ObjOf(n, e[p].1),
                  if p in e0 && p in m0 && Survives(n0, boxes, w, {}, e0[p]) then m0[p].id else 0)
    {
      if p in e1 {
        NoMovedPairs(e1, SceneOf(n1, ls, now), p);
      }
      assert e[p].1 in ls;
    }
  }

  lemma CallEnd(n0: Nodes, e0: Edges, m0: Pairs, n1: Nodes, e1: Edges, m1: Pairs, n: Nodes, ls: seq<Ptr>,
                boxes: map<Ptr, BB>, w: World, now: nat, c: Call)
    requires HalfUpdated(n0, e0, m0, n1, e1, m1, ls, boxes, w, {}, now) && OnlyPairs(n1, n) && e0.Keys <= m0.Keys
    requires Marked(e1, SceneOf(n1, ls, now), {}) && Named(n, e1, m1, SceneOf(n1, ls, now), c)
    ensures CallNames(n0, e0, m0, boxes, w, c)
  {
    var sc := SceneOf(n1, ls, now);
    var r: (Ptr, Ptr) :| r.0 in ls && r.1 in ls && c.obj1 == ObjOf(n, r.0) && c.obj2 == ObjOf(n, r.1)
      && CallIdOk(e1, m1, sc, c, r);
    assert c.obj1 == ObjOf(n0, r.0) && c.obj2 == ObjOf(n0, r.1);
    if p :| p in e1 && p in m1 && e1[p] == r && c.id == m1[p].id {
      NoMovedPairs(e1, sc, p);
      assert c == Call(ObjOf(n0, e0[p].0), ObjOf(n0, e0[p].1), m0[p].id);
    }
  }

  class BBTree {
    var nodes: Nodes
    var pairs: Pairs
    var root: Ptr
    var pooledNodes: Ptr
    var pooledPairs: Ptr
    var stamp: nat
    var nodeBrk: nat  // addresses from here on have never been allocated
    var pairBrk: nat
    var leaves: map<Ptr, Ptr>
    const nodesPerBuffer: nat
    const pairsPerBuffer: nat

    ghost var tree: MaybeTree
    ghost var nodePool: seq<Ptr>
    ghost var edges: Edges
    ghost var lists: Lists
    ghost var pairPool: seq<Ptr>

    ghost predicate NodesFree()
      reads `nodes, `nodeBrk, `pooledNodes, `nodePool
    {
      NodeMemoryOk(nodes, nodeBrk, pooledNodes, nodePool)
    }

    method NodeRecycle(node: Ptr)
      requires NodesFree() && node in nodes && node !in nodePool
      modifies `nodes, `pooledNodes, `nodePool
      ensures NodesFree() && nodePool == [node] + old(nodePool)
      ensures nodes == old(nodes)[node := old(nodes)[node].(parent := old(pooledNodes))]
    {
      nodes := nodes[node := nodes[node].(parent := pooledNodes)];
      pooledNodes := node;
      nodePool := [node] + nodePool;
      NodePoolPushed(old(nodes), old(pooledNodes), old(nodePool), node, nodes);
    }

    /** One zeroed node at a new address. */
    method NodeAlloc() returns (node: Ptr)
      requires NodesFree()
      modifies `nodes, `nodeBrk
      ensures NodesFree() && node !in old(nodes) && node != NULL
      ensures nodes == old(nodes)[node := Node(NULL, BB(0.0, 0.0, 0.0, 0.0), NULL, Leaf(0, NULL))]
      ensures node !in nodePool
    {
      node := nodeBrk;
      nodes := nodes[node := Node(NULL, BB(0.0, 0.0, 0.0, 0.0), NULL, Leaf(0, NULL))];
      nodeBrk := nodeBrk + 1;
      PoolInNodes(old(nodes), pooledNodes, nodePool);
      NodePoolKept(old(nodes), pooledNodes, nodePool, nodes);
    }

    method NodeFromPool() returns (node: Ptr)
      requires NodesFree()
      modifies `nodes, `pooledNodes, `nodePool, `nodeBrk
      ensures NodesFree() && node in nodes && node !in nodePool && node != NULL
      ensures node in old(nodePool) || node !in old(nodes)
      ensures forall n :: n in nodePool ==> n in old(nodePool) || n !in old(nodes)
      ensures forall n :: n in old(nodePool) ==> n == node || n in nodePool
      ensures KeptOutside(old(nodes), nodes, {}) && nodes.Keys == old(nodes.Keys) + {node} + AsSet(nodePool)
    {
      if pooledNodes != NULL {
        node := pooledNodes;
        NodePoolPopped(nodes, pooledNodes, nodePool);
        PoolInNodes(nodes, pooledNodes, nodePool);
        pooledNodes := nodes[node].parent;
        nodePool := nodePool[1..];
      } else {
        node := NodeAlloc();
        var i := 1;
        while i < nodesPerBuffer
          invariant NodesFree() && node in nodes && node !in nodePool && node !in old(nodes)
          invariant forall n :: n in nodePool ==> n !in old(nodes)
          invariant KeptOutside(old(nodes), nodes, {}) && nodes.Keys == old(nodes.Keys) + {node} + AsSet(nodePool)
        {
          var more := NodeAlloc();
          NodeRecycle(more);
          i := i + 1;
        }
      }
    }

    // ---- tree operations ----

    method NodeSetA(node: Ptr, value: Ptr)
      requires node in nodes && nodes[node].body.Children? && value in nodes && node != value
      modifies `nodes
      ensures nodes
        == old(nodes)[node := old(nodes)[node].(body := Children(value, old(nodes)[node].body.b))][value :=
        old(nodes)[value].(parent := node)]
    {
      nodes := nodes[node := nodes[node].(body := nodes[node].body.(a := value))];
      nodes := nodes[value := nodes[value].(parent := node)];
    }

    method NodeSetB(node: Ptr, value: Ptr)
      requires node in nodes && nodes[node].body.Children? && value in nodes && node != value
      modifies `nodes
      ensures nodes
        == old(nodes)[node := old(nodes)[node].(body := Children(old(nodes)[node].body.a, value))][value :=
        old(nodes)[value].(parent := node)]
    {
      nodes := nodes[node := nodes[node].(body := nodes[node].body.(b := value))];
      nodes := nodes[value := nodes[value].(parent := node)];
    }

    /** What every operation that takes at most one node from the pool leaves of the pool. */
    twostate predicate PoolShrunk(spare: Ptr)
      reads this
    {
      && (spare in old(nodePool) || spare !in old(nodes))
      && spare !in nodePool && spare != NULL
      && (forall n :: n in nodePool ==> n in old(nodePool) || n !in old(nodes))
      && (forall n :: n in old(nodePool) ==> n == spare || n in nodePool)
      && nodes.Keys == old(nodes.Keys) + {spare} + AsSet(nodePool)
    }

    method NodeNew(a: Ptr, b: Ptr) returns (node: Ptr)
      requires NodesFree() && a in nodes && b in nodes && a != b && a !in nodePool && b !in nodePool
      modifies `nodes, `pooledNodes, `nodePool, `nodeBrk
      ensures NodesFree() && PoolShrunk(node) && node in nodes && node != a && node != b
      ensures nodes[node] == Node(NULL, Merge(old(nodes)[a].bb, old(nodes)[b].bb), NULL, Children(a, b))
      ensures a in nodes && nodes[a] == old(nodes)[a].(parent := node) && b in nodes
      ensures nodes[b] == old(nodes)[b].(parent := node)
      ensures KeptOutside(old(nodes), nodes, {a, b, node})
    {
      node := NodeFromPool();
      ghost var m := nodes;
      nodes := nodes[node := Node(NULL, Merge(nodes[a].bb, nodes[b].bb), NULL, Children(NULL, NULL))];
      NodeSetA(node, a);
      NodeSetB(node, b);
      NodePoolKept(m, pooledNodes, nodePool, nodes);
    }

    /** Leaf is a leaf node in use that is not part of t. */
    ghost predicate LooseLeaf(leaf: Ptr)
      reads `nodes, `nodePool
    {
      leaf in nodes && leaf != NULL && leaf !in nodePool && nodes[leaf].obj != NULL && nodes[leaf].body.Leaf?
    }

    ghost predicate InUse(t: BoxTree)
      reads `nodePool
    {
      Proper(t) && forall n :: n in NodesOf(t) ==> n !in nodePool
    }

    /** Hang the rebuilt child below node and grow node's box. */
    method Reattach(node: Ptr, child: Ptr, right: bool, leaf: Ptr)
      requires NodesFree() && node in nodes && nodes[node].body.Children? && child in nodes && node != child
      requires leaf in nodes && leaf != node
      requires node !in nodePool && child !in nodePool
      modifies `nodes
      ensures NodesFree() && nodes == Reattached(old(nodes), node, child, right, old(nodes)[leaf].bb)
    {
      if right {
        NodeSetB(node, child);
      } else {
        NodeSetA(node, child);
      }
      nodes := nodes[node := nodes[node].(bb := Merge(nodes[node].bb, nodes[leaf].bb))];
      NodePoolKept(old(nodes), pooledNodes, nodePool, nodes);
    }

    /** Where SubtreeInsert descends: towards child B or not. */
    method DescendsToB(subtree: Ptr, leaf: Ptr) returns (right: bool)
      requires subtree in nodes && nodes[subtree].body.Children? && leaf in nodes
      requires nodes[subtree].body.a in nodes && nodes[subtree].body.b in nodes
      ensures right == GoesRight(nodes[nodes[subtree].body.a].bb, nodes[nodes[subtree].body.b].bb, nodes[leaf].bb)
    {
      var a, b, bb := nodes[nodes[subtree].body.a].bb, nodes[nodes[subtree].body.b].bb, nodes[leaf].bb;
      var costA := Area(b) + MergedArea(a, bb);
      var costB := Area(a) + MergedArea(b, bb);
      if costA == costB {
        costA := Proximity(a, bb);
        costB := Proximity(b, bb);
      }
      right := costB < costA;
    }

    /** subtree is the root of a part t of the tree that leaf can be inserted into. */
    ghost predicate Insertable(subtree: Ptr, leaf: Ptr, t: BoxTree)
      reads `nodes, `nodeBrk, `pooledNodes, `nodePool
    {
      && NodesFree() && LooseLeaf(leaf)
      && subtree in nodes && subtree == t.node && Represents(nodes, t, nodes[subtree].parent) && InUse(t)
        && leaf !in NodesOf(t)
    }

    method SubtreeInsert(subtree: Ptr, leaf: Ptr, ghost t: MaybeTree) returns (r: Ptr, ghost spare: Ptr)
      requires NodesFree() && LooseLeaf(leaf)
      requires if t.NoTree? then subtree == NULL else Insertable(subtree, leaf, t.t)
      modifies `nodes, `pooledNodes, `nodePool, `nodeBrk
      ensures NodesFree()
      ensures t.NoTree? ==> r == leaf && nodes == old(nodes) && nodePool == old(nodePool)
      ensures t.SomeTree? ==> PoolShrunk(spare) && InsertedAt(old(nodes), nodes, t.t, leaf, spare, r, old(nodePool))
      decreases match t case NoTree => Tip(NULL, BB(0.0, 0.0, 0.0, 0.0)) case SomeTree(x) => x, 1
    {
      if subtree == NULL {
        return leaf, NULL;
      } else if nodes[subtree].obj != NULL {
        r := NodeNew(leaf, subtree);
        spare := r;
        InsertedTip(old(nodes), nodes, t.t, leaf, spare, old(nodePool));
      } else {
        spare := InsertBelow(subtree, leaf, t.t);
        r := subtree;
      }
    }

    lemma InsertableChildren(subtree: Ptr, leaf: Ptr, t: BoxTree)
      requires Insertable(subtree, leaf, t) && t.Fork?
      ensures nodes[subtree].obj == NULL && nodes[subtree].body == Children(t.left.node, t.right.node)
      ensures t.left.node in nodes && nodes[t.left.node].bb == t.left.box && t.right.node in nodes
      ensures nodes[t.right.node].bb == t.right.box
      ensures Insertable(t.left.node, leaf, t.left) && Insertable(t.right.node, leaf, t.right)
      ensures forall n :: n in NodesOf(t) ==> n in nodes
    {
      assert Represents(nodes, t.left, subtree) && Represents(nodes, t.right, subtree);
      RepresentsLeaves(nodes, t, nodes[subtree].parent);
    }

    /** The last case of SubtreeInsert: an internal node passes the leaf on to one child. */
    method InsertBelow(subtree: Ptr, leaf: Ptr, ghost t: BoxTree) returns (ghost spare: Ptr)
      requires Insertable(subtree, leaf, t) && t.Fork?
      modifies `nodes, `pooledNodes, `nodePool, `nodeBrk
      ensures NodesFree() && PoolShrunk(spare) && InsertedAt(old(nodes), nodes, t, leaf, spare, subtree, old(nodePool))
      decreases t, 0
    {
      InsertableChildren(subtree, leaf, t);
      var right := DescendsToB(subtree, leaf);
      var child;
      if right {
        child, spare := SubtreeInsert(nodes[subtree].body.b, leaf, SomeTree(t.right));
      } else {
        child, spare := SubtreeInsert(nodes[subtree].body.a, leaf, SomeTree(t.left));
      }
      assert InsertedAt(old(nodes), nodes, Chosen(t, old(nodes)[leaf].bb), leaf, spare, child, old(nodePool));
      InsertedFork(old(nodes), nodes, t, leaf, spare, child, old(nodePool));
      Reattach(subtree, child, right, leaf);
    }

    /** A hole p of the tree, held by nodes in use, with v hanging below child. */
    ghost predicate Replaceable(p: Path, child: Ptr, v: BoxTree)
      reads `nodes, `nodeBrk, `pooledNodes, `nodePool
    {
      && NodesFree() && !p.Top? && RepresentsPath(nodes, p, child) && Represents(nodes, v, child)
      && PathProper(p) && Proper(v) && NodesOf(v) !! PathNodes(p)
      && child in nodes && child != NULL && nodes[child].body.Children? && child !in PathNodes(p)
        && child !in NodesOf(v)
      && child !in nodePool && forall n :: n in nodePool ==> n !in PathNodes(p) && n !in NodesOf(v)
    }

    method NodeReplaceChild(parent: Ptr, child: Ptr, value: Ptr, ghost p: Path, ghost v: BoxTree)
      requires Replaceable(p, child, v) && parent == p.node && value == v.node
      modifies `nodes, `pooledNodes, `nodePool
      ensures NodesFree() && nodePool == [child] + old(nodePool) && nodes.Keys == old(nodes.Keys)
      ensures Represents(nodes, Refit(p, v), NULL)
      ensures KeptOutside(old(nodes), nodes, PathNodes(p) + {value, child}) && LeavesKept(old(nodes), nodes, [])
    {
      SwapChild(parent, child, value, p, v);
      ghost var m := nodes;
      var node := parent;
      ghost var q, c := p, v;
      while node != NULL
        invariant NodesFree() && nodePool == [child] + old(nodePool)
        invariant node == Holder(q) && Focused(nodes, q, c)
        invariant PathNodes(q) <= PathNodes(p) && Refit(q, c) == Refit(p, v)
        invariant KeptOutside(m, nodes, PathNodes(p)) && LeavesKept(m, nodes, []) && nodes.Keys == m.Keys
        decreases q
      {
        node := RefitNode(node, q, c);
        c := Lifted(q, c);
        q := q.up;
      }
    }

    /** One round of the loop in NodeReplaceChild; returns the next node. */
    method RefitNode(node: Ptr, ghost q: Path, ghost c: BoxTree) returns (next: Ptr)
      requires NodesFree() && !q.Top? && node == q.node && Focused(nodes, q, c)
      modifies `nodes
      ensures NodesFree() && next == Holder(q.up) && Focused(nodes, q.up, Lifted(q, c))
      ensures Refit(q, c) == Refit(q.up, Lifted(q, c))
      ensures KeptOutside(old(nodes), nodes, {node}) && LeavesKept(old(nodes), nodes, [])
      ensures nodes.Keys == old(nodes.Keys)
    {
      LiftedRepresents(nodes, q, c);
      nodes := nodes[node := nodes[node].(bb := Merge(nodes[nodes[node].body.a].bb, nodes[nodes[node].body.b].bb))];
      NodePoolKept(old(nodes), pooledNodes, nodePool, nodes);
      next := nodes[node].parent;
    }

    /** The first half of NodeReplaceChild: child goes to the pool and value takes its place. */
    method SwapChild(parent: Ptr, child: Ptr, value: Ptr, ghost p: Path, ghost v: BoxTree)
      requires Replaceable(p, child, v) && parent == p.node && value == v.node
      modifies `nodes, `pooledNodes, `nodePool
      ensures NodesFree() && nodePool == [child] + old(nodePool) && nodes.Keys == old(nodes.Keys)
      ensures Focused(nodes, p, v)
      ensures KeptOutside(old(nodes), nodes, {parent, value, child}) && LeavesKept(old(nodes), nodes, [])
    {
      SwappedFocus(nodes, p, child, v, pooledNodes);
      ghost var before;
      if nodes[parent].body.a == child {
        NodeRecycle(nodes[parent].body.a);
        before := nodes;
        NodeSetA(parent, value);
      } else {
        NodeRecycle(nodes[parent].body.b);
        before := nodes;
        NodeSetB(parent, value);
      }
      NodePoolKept(before, pooledNodes, nodePool, nodes);
    }

    /** Takes leaf out of the tree t rooted at subtree; gone is the leaf's parent node, now pooled. */
    method SubtreeRemove(subtree: Ptr, leaf: Ptr, ghost t: BoxTree) returns (r: Ptr, ghost gone: Ptr)
      requires NodesFree() && subtree == t.node && Represents(nodes, t, NULL) && InUse(t) && leaf in Leaves(t)
      modifies `nodes, `pooledNodes, `nodePool
      ensures NodesFree() && nodes.Keys == old(nodes.Keys) && LeavesKept(old(nodes), nodes, [])
      ensures t.Tip? ==> r == NULL && nodes == old(nodes) && nodePool == old(nodePool)
      ensures t.Fork? ==>
        r == RemoveLeaf(t, leaf).node && Represents(nodes, RemoveLeaf(t, leaf), NULL)
        && KeptOutside(old(nodes), nodes, NodesOf(t) - {leaf})
      ensures t.Fork? ==>
        nodePool == [gone] + old(nodePool) && gone in NodesOf(t) && gone !in NodesOf(RemoveLeaf(t, leaf))
        && gone != leaf
    {
      LeavesAreNodes(t);
      if leaf == subtree {
        RootLeaf(nodes, t, leaf);
        return NULL, NULL;
      } else {
        RemoveSetting(nodes, t, leaf);
        ghost var p := PathTo(Top, t, leaf);
        var parent := nodes[leaf].parent;
        gone := parent;
        var other := if nodes[parent].body.a == leaf then nodes[parent].body.b else nodes[parent].body.a;
        if parent == subtree {
          nodes := nodes[other := nodes[other].(parent := nodes[subtree].parent)];
          RepresentsUnder(old(nodes), nodes, p.sibling, parent, NULL);
          NodePoolKept(old(nodes), pooledNodes, nodePool, nodes);
          ghost var m := nodes;
          NodeRecycle(subtree);
          RepresentsFrame(m, nodes, p.sibling, NULL);
          r := other;
        } else {
          NodeReplaceChild(nodes[parent].parent, parent, other, p.up, p.sibling);
          PathPlugs(Top, t, leaf);
          PlugRoot(p, Tip(leaf, BoxOf(t, leaf)));
          RefitRoot(p.up, p.sibling, subtree);
          r := subtree;
        }
      }
    }

    // ---- pair operations ----

    ghost predicate PairsFree()
      reads `pairs, `pairBrk, `pooledPairs, `pairPool
    {
      PairMemoryOk(pairs, pairBrk, pooledPairs, pairPool)
    }

    ghost predicate PairsOk()
      reads `nodes, `pairs, `pairBrk, `pooledPairs, `pairPool, `edges, `lists
    {
      PairStateOk(nodes, pairs, pairBrk, pooledPairs, pairPool, edges, lists)
        && pairs.Keys == edges.Keys + AsSet(pairPool)
    }

    method PairRecycle(pair: Ptr)
      requires PairsFree() && pair in pairs && pair !in pairPool
      modifies `pairs, `pooledPairs, `pairPool
      ensures PairsFree() && pairPool == [pair] + old(pairPool)
      ensures pairs == old(pairs)[pair := old(pairs)[pair].(a := old(pairs)[pair].a.(next := old(pooledPairs)))]
    {
      pairs := pairs[pair := pairs[pair].(a := pairs[pair].a.(next := pooledPairs))];
      pooledPairs := pair;
      pairPool := [pair] + pairPool;
      PoolPushed(old(pairs), old(pooledPairs), old(pairPool), pair, pairs);
    }

    method PairAlloc() returns (pair: Ptr)
      requires PairsFree()
      modifies `pairs, `pairBrk
      ensures PairsFree() && pair !in old(pairs) && pair != NULL && pair !in pairPool
      ensures pairs == old(pairs)[pair := Pair(Thread(NULL, NULL, NULL), Thread(NULL, NULL, NULL), 0)]
    {
      pair := pairBrk;
      pairs := pairs[pair := Pair(Thread(NULL, NULL, NULL), Thread(NULL, NULL, NULL), 0)];
      pairBrk := pairBrk + 1;
      PairPoolInPairs(old(pairs), pooledPairs, pairPool);
      PoolKept(old(pairs), pooledPairs, pairPool, pairs);
    }

    method PairFromPool() returns (pair: Ptr)
      requires PairsFree()
      modifies `pairs, `pooledPairs, `pairPool, `pairBrk
      ensures PairsFree() && pair in pairs && pair !in pairPool && pair != NULL
      ensures pair in old(pairPool) || pair !in old(pairs)
      ensures forall p :: p in pairPool ==> p in old(pairPool) || p !in old(pairs)
      ensures forall p :: p in old(pairPool) ==> p == pair || p in pairPool
      ensures forall p :: p in old(pairs) ==> p in pairs && pairs[p] == old(pairs)[p]
      ensures pairs.Keys == old(pairs.Keys) + {pair} + AsSet(pairPool)
    {
      if pooledPairs != NULL {
        pair := pooledPairs;
        PoolPopped(pairs, pooledPairs, pairPool);
        PairPoolInPairs(pairs, pooledPairs, pairPool);
        pooledPairs := pairs[pair].a.next;
        pairPool := pairPool[1..];
      } else {
        pair := PairAlloc();
        var i := 1;
        while i < pairsPerBuffer
          invariant PairsFree() && pair in pairs && pair !in pairPool && pair !in old(pairs)
          invariant forall p :: p in pairPool ==> p !in old(pairs)
          invariant forall p :: p in old(pairs) ==> p in pairs && pairs[p] == old(pairs)[p]
          invariant pairs.Keys == old(pairs.Keys) + {pair} + AsSet(pairPool)
        {
          var more := PairAlloc();
          PairRecycle(more);
          i := i + 1;
        }
      }
    }

    method SetLeafPairs(leaf: Ptr, head: Ptr)
      requires leaf in nodes && nodes[leaf].body.Leaf?
      modifies `nodes
      ensures nodes == old(nodes)[leaf := old(nodes)[leaf].(body := Leaf(old(nodes)[leaf].body.stamp, head))]
    {
      nodes := nodes[leaf := nodes[leaf].(body := nodes[leaf].body.(pairs := head))];
    }

    method SetPrevLink(pair: Ptr, leaf: Ptr, prev: Ptr)
      requires pair != NULL ==> pair in pairs
      requires NULL !in pairs
      modifies `pairs
      ensures pairs == SetPrev(old(pairs), pair, leaf, prev)
    {
      if pair != NULL {
        var q := pairs[pair];
        pairs := pairs[pair := if q.a.leaf == leaf then q.(a := q.a.(prev := prev)) else q.(b := q.b.(prev := prev))];
      }
    }

    method SetNextLink(pair: Ptr, leaf: Ptr, next: Ptr)
      requires pair != NULL ==> pair in pairs
      requires NULL !in pairs
      modifies `pairs
      ensures pairs == SetNext(old(pairs), pair, leaf, next)
    {
      if pair != NULL {
        var q := pairs[pair];
        pairs := pairs[pair := if q.a.leaf == leaf then q.(a := q.a.(next := next)) else q.(b := q.b.(next := next))];
      }
    }

    /** The pointer writes of PairInsert. */
    method LinkPair(pair: Ptr, a: Ptr, b: Ptr)
      requires a in nodes && nodes[a].body.Leaf? && b in nodes && nodes[b].body.Leaf? && pair in pairs && NULL !in pairs
      requires nodes[a].body.pairs != NULL ==> nodes[a].body.pairs in pairs
      requires nodes[b].body.pairs != NULL ==> nodes[b].body.pairs in pairs
      modifies `nodes, `pairs
      ensures LinkWritten(old(nodes), old(pairs), pair, a, b, nodes, pairs)
    {
      var nextA, nextB := nodes[a].body.pairs, nodes[b].body.pairs;
      SetLeafPairs(a, pair);
      SetLeafPairs(b, pair);
      pairs := pairs[pair := Pair(Thread(NULL, a, nextA), Thread(NULL, b, nextB), 0)];
      SetPrevLink(nextA, a, pair);
      SetPrevLink(nextB, b, pair);
    }

    method PairInsert(a: Ptr, b: Ptr) returns (pair: Ptr)
      requires PairsOk() && a != b && a in lists && b in lists
      modifies `nodes, `pairs, `pooledPairs, `pairPool, `pairBrk, `edges, `lists
      ensures PairsOk() && lists.Keys == old(lists.Keys) && OnlyPairs(old(nodes), nodes)
      ensures pair !in old(edges) && edges == old(edges)[pair := (a, b)]
      ensures IdsKept(old(edges), old(pairs), pairs) && pair in pairs && pairs[pair].id == 0
    {
      pair := PairForUse();
      PairLink(pair, a, b);
    }

    /** PairFromPool, seen from the lists. */
    method PairForUse() returns (pair: Ptr)
      requires PairsOk()
      modifies `pairs, `pooledPairs, `pairPool, `pairBrk
      ensures PairStateOk(nodes, pairs, pairBrk, pooledPairs, pairPool, edges, lists)
      ensures pairs.Keys == edges.Keys + AsSet(pairPool) + {pair}
      ensures pair !in edges && pair !in pairPool && pair in pairs && pair != NULL
      ensures IdsKept(edges, old(pairs), pairs)
    {
      ghost var heads := HeadsOf(nodes, lists.Keys);
      pair := PairFromPool();
      WiredKept(old(pairs), heads, edges, lists, pairs);
    }

    method PairLink(pair: Ptr, a: Ptr, b: Ptr)
      requires PairStateOk(nodes, pairs, pairBrk, pooledPairs, pairPool, edges, lists) && a != b && a in lists
      requires b in lists
      requires pair !in edges && pair !in pairPool && pair in pairs && pair != NULL
      modifies `nodes, `pairs, `edges, `lists
      ensures PairStateOk(nodes, pairs, pairBrk, pooledPairs, pairPool, edges, lists) && pairs.Keys == old(pairs.Keys)
      ensures edges == old(edges)[pair := (a, b)] && lists.Keys == old(lists.Keys) && OnlyPairs(old(nodes), nodes)
      ensures IdsKept(old(edges), old(pairs), pairs) && pair in pairs && pairs[pair].id == 0
    {
      HeadsInPairs(nodes, pairs, pairBrk, pooledPairs, pairPool, edges, lists, a);
      HeadsInPairs(nodes, pairs, pairBrk, pooledPairs, pairPool, edges, lists, b);
      LinkPair(pair, a, b);
      PairInsertKeeps(old(nodes), old(pairs), pairBrk, pooledPairs, pairPool, edges, lists, pair, a, b, nodes, pairs);
      edges := edges[pair := (a, b)];
      lists := ListsWith(lists, pair, a, b);
    }

    method ThreadUnlink(thread: Thread)
      requires NULL !in pairs && (thread.next != NULL ==> thread.next in pairs)
      requires thread.prev != NULL ==> thread.prev in pairs
      requires thread.leaf in nodes && nodes[thread.leaf].body.Leaf?
      modifies `nodes, `pairs
      ensures pairs == Unlinked(old(pairs), thread)
      ensures nodes == if thread.prev == NULL then PairsSet(old(nodes), thread.leaf, thread.next) else old(nodes)
    {
      SetPrevLink(thread.next, thread.leaf, thread.prev);
      if thread.prev != NULL {
        SetNextLink(thread.prev, thread.leaf, thread.next);
      } else {
        SetLeafPairs(thread.leaf, thread.next);
      }
    }

    /** Unlink pair from its other leaf (through thread t) and recycle it; returns the next pair of leaf. */
    method UnlinkFirst(leaf: Ptr, pair: Ptr, ghost o: Ptr, ghost k: nat, ghost t: Thread) returns (next: Ptr)
      requires PairsFree() && ClearFacts(nodes, pairs, pairPool, edges, lists, leaf, pair, o, k, t)
      modifies `nodes, `pairs, `pooledPairs, `pairPool
      ensures next == ThreadOf(old(pairs)[pair], leaf).next
      ensures ClearWritten(old(nodes), old(pairs), old(pooledPairs), pair, t, nodes, pairs)
      ensures pooledPairs == pair && pairPool == [pair] + old(pairPool)
    {
      UnlinkedKeys(pairs, t);
      PairPoolInPairs(pairs, pooledPairs, pairPool);
      if pairs[pair].a.leaf == leaf {
        next := pairs[pair].a.next;
        ThreadUnlink(pairs[pair].b);
      } else {
        next := pairs[pair].b.next;
        ThreadUnlink(pairs[pair].a);
      }
      PoolKept(old(pairs), pooledPairs, pairPool, pairs);
      PairRecycle(pair);
    }

    /** One round of the loop in PairsClear; returns the next pair. */
    method ClearOne(leaf: Ptr, pair: Ptr) returns (next: Ptr)
      requires ClearState(nodes, pairs, pairBrk, pooledPairs, pairPool, edges, lists, leaf)
      requires pair != NULL && pair == PairAt(lists[leaf], 0)
      modifies `nodes, `pairs, `pooledPairs, `pairPool, `edges, `lists
      ensures ClearState(nodes, pairs, pairBrk, pooledPairs, pairPool, edges, lists, leaf)
      ensures ClearedOnce(old(nodes), old(pairs), old(edges), old(lists), leaf, pair, nodes, pairs, edges, lists)
      ensures pairPool == [pair] + old(pairPool) && next == PairAt(lists[leaf], 0)
    {
      ghost var o, k, t := ClearSetting(nodes, pairs, pairBrk, pooledPairs, pairPool, edges, lists, leaf);
      next := UnlinkFirst(leaf, pair, o, k, t);
      ClearKeeps(old(nodes), old(pairs), pairBrk, old(pooledPairs), old(pairPool), edges, lists, leaf, pair, o, k, t,
        nodes, pairs);
      ClearLoses(old(nodes), old(pairs), old(pairPool), edges, lists, leaf, pair, o, k, t, old(pooledPairs), nodes,
        pairs);
      edges := edges - {pair};
      lists := ListsWithout(lists, leaf, o, k);
    }

    method PairsClear(leaf: Ptr)
      requires PairsOk() && leaf in lists
      modifies `nodes, `pairs, `pooledPairs, `pairPool, `edges, `lists
      ensures PairsOk() && lists.Keys == old(lists.Keys) && OnlyPairs(old(nodes), nodes)
      ensures edges == CutOff(old(edges), leaf)
      ensures IdsKept(edges, old(pairs), pairs) && pairs.Keys == old(pairs.Keys)
    {
      ClearBegins(nodes, pairs, pairBrk, pooledPairs, pairPool, edges, lists, leaf);
      var pair := nodes[leaf].body.pairs;
      SetLeafPairs(leaf, NULL);
      ghost var n := nodes;
      ClearAll(leaf, pair);
      ClearEnds(old(nodes), n, old(pairs), pairBrk, pooledPairs, pairPool, old(edges), old(lists), leaf, nodes, pairs,
        edges, lists);
    }

    /** The loop of PairsClear. */
    method ClearAll(leaf: Ptr, first: Ptr)
      requires ClearState(nodes, pairs, pairBrk, pooledPairs, pairPool, edges, lists, leaf)
      requires first == PairAt(lists[leaf], 0) && pairs.Keys == edges.Keys + AsSet(pairPool)
      modifies `nodes, `pairs, `pooledPairs, `pairPool, `edges, `lists
      ensures ClearState(nodes, pairs, pairBrk, pooledPairs, pairPool, edges, lists, leaf) && lists[leaf] == []
      ensures ClearedSoFar(old(nodes), old(pairs), old(edges), old(lists), leaf, nodes, pairs, edges, lists)
      ensures pairs.Keys == edges.Keys + AsSet(pairPool)
    {
      var pair := first;
      while pair != NULL
        invariant ClearState(nodes, pairs, pairBrk, pooledPairs, pairPool, edges, lists, leaf)
        invariant pair == PairAt(lists[leaf], 0)
        invariant ClearedSoFar(old(nodes), old(pairs), old(edges), old(lists), leaf, nodes, pairs, edges, lists)
        invariant pairs.Keys == edges.Keys + AsSet(pairPool)
        decreases |lists[leaf]|
      {
        ghost var n, m, e, l, s := nodes, pairs, edges, lists, pairPool;
        var next := ClearOne(leaf, pair);
        ClearedMore(old(nodes), old(pairs), old(edges), old(lists), leaf, n, m, e, l, pair, nodes, pairs, edges, lists);
        RecycledKeys(m.Keys, e, s, pair);
        pair := next;
      }
    }

    // ---- marking ----

    /** The scene sc is what the leaves look like now, and the pair cache is in the middle of marking leaf. */
    ghost predicate InMarking(sc: Scene, done: set<Ptr>, leaf: Ptr, part: set<Ptr>)
      reads `nodes, `pairs, `pairBrk, `pooledPairs, `pairPool, `edges, `lists, `stamp
    {
      && PairsOk() && SceneOk(sc) && Shows(nodes, sc, stamp) && lists.Keys == AsSet(sc.order)
      && Marking(edges, sc, done, leaf, part)
    }

    /** PairInsert during marking: the missing pair e of leaf and other. */
    method MarkInsert(a: Ptr, b: Ptr, ghost leaf: Ptr, ghost other: Ptr, ghost sc: Scene, ghost done: set<Ptr>,
                      ghost part: set<Ptr>)
      requires InMarking(sc, done, leaf, part) && Ends((a, b), leaf, other) && Overlap(sc, leaf, other)
      requires Before(sc.order, a, b)
      requires leaf in sc.order && leaf in sc.moved && leaf !in done && other in sc.order && other != leaf
      requires other !in part && (other in sc.moved ==> other !in done)
      modifies `nodes, `pairs, `pooledPairs, `pairPool, `pairBrk, `edges, `lists
      ensures InMarking(sc, done, leaf, part + {other}) && OnlyPairs(old(nodes), nodes)
      ensures PairsGrown(old(edges), edges, old(pairs), pairs, sc, leaf)
    {
      ghost var n, e, m := nodes, edges, pairs;
      var p := PairInsert(a, b);
      ShowsKept(n, nodes, sc, stamp);
      MarkAdds(e, sc, done, leaf, part, other, p, (a, b));
      GrownByOne(e, m, pairs, sc, leaf, p, (a, b));
    }

    /** The leaf case of MarkLeafQuery: leaf meets one overlapping leaf. */
    method MarkMeets(leaf: Ptr, other: Ptr, left: bool, func: (Ptr, Ptr, nat) -> nat, ghost sc: Scene,
                     ghost done: set<Ptr>, ghost part: set<Ptr>)
      returns (calls: seq<Call>)
      requires InMarking(sc, done, leaf, part) && Meets(sc, done, leaf, part, other, left) && Overlap(sc, leaf, other)
      modifies `nodes, `pairs, `pooledPairs, `pairPool, `pairBrk, `edges, `lists
      ensures InMarking(sc, done, leaf, part + {other}) && OnlyPairs(old(nodes), nodes)
      ensures PairsGrown(old(edges), edges, old(pairs), pairs, sc, leaf)
      ensures leaf in nodes && other in nodes
      ensures calls == if left then [] else [Call(nodes[leaf].obj, nodes[other].obj, 0)]
    {
      if left {
        MarkInsert(leaf, other, leaf, other, sc, done, part);
        calls := [];
      } else {
        if nodes[other].body.stamp < nodes[leaf].body.stamp {
          MarkInsert(other, leaf, leaf, other, sc, done, part);
        } else {
          MarkSkips(edges, sc, done, leaf, part, {other});
        }
        var _ := func(nodes[leaf].obj, nodes[other].obj, 0);
        calls := [Call(nodes[leaf].obj, nodes[other].obj, 0)];
      }
    }

    method MarkLeafQuery(subtree: Ptr, leaf: Ptr, left: bool, func: (Ptr, Ptr, nat) -> nat, ghost t: BoxTree,
                         ghost sc: Scene, ghost done: set<Ptr>, ghost part: set<Ptr>)
      returns (calls: seq<Call>)
      requires InMarking(sc, done, leaf, part) && Queried(nodes, subtree, t) && AllMeet(sc, done, leaf, part, t, left)
      requires leaf in sc.order
      modifies `nodes, `pairs, `pooledPairs, `pairPool, `pairBrk, `edges, `lists
      ensures InMarking(sc, done, leaf, part + AsSet(Leaves(t))) && OnlyPairs(old(nodes), nodes)
      ensures PairsGrown(old(edges), edges, old(pairs), pairs, sc, leaf)
      ensures calls == if left then [] else CallsTo(nodes, leaf, Scan(t, sc.boxes[leaf]))
      decreases t
    {
      QueriedChildren(nodes, subtree, t);
      if Intersects(nodes[leaf].bb, nodes[subtree].bb) {
        if nodes[subtree].obj != NULL {
          assert AsSet(Leaves(t)) == {subtree};
          calls := MarkMeets(leaf, subtree, left, func, sc, done, part);
          CallsToFew(nodes, leaf, subtree);
        } else {
          var a, b := nodes[subtree].body.a, nodes[subtree].body.b;
          calls := MarkBoth(a, b, leaf, left, func, t, sc, done, part);
        }
      } else {
        MarkMisses(nodes, edges, subtree, t, sc, stamp, done, leaf, part, left);
        CallsToFew(nodes, leaf, subtree);
        calls := [];
      }
    }

    /** The two recursive calls of MarkLeafQuery. */
    method MarkBoth(a: Ptr, b: Ptr, leaf: Ptr, left: bool, func: (Ptr, Ptr, nat) -> nat, ghost t: BoxTree,
                    ghost sc: Scene, ghost done: set<Ptr>, ghost part: set<Ptr>)
      returns (calls: seq<Call>)
      requires InMarking(sc, done, leaf, part) && t.Fork? && Queried(nodes, a, t.left) && Queried(nodes, b, t.right)
      requires Proper(t)
      requires AllMeet(sc, done, leaf, part, t, left) && leaf in sc.order
      modifies `nodes, `pairs, `pooledPairs, `pairPool, `pairBrk, `edges, `lists
      ensures InMarking(sc, done, leaf, part + AsSet(Leaves(t))) && OnlyPairs(old(nodes), nodes)
      ensures PairsGrown(old(edges), edges, old(pairs), pairs, sc, leaf)
      ensures calls == if left then [] else CallsTo(nodes, leaf, Scan(t, sc.boxes[leaf]))
      decreases t, 0
    {
      ghost var n, e, m := nodes, edges, pairs;
      MeetBoth(sc, done, leaf, part, t, left);
      var callsA := MarkLeafQuery(a, leaf, left, func, t.left, sc, done, part);
      ghost var n1, e1, m1 := nodes, edges, pairs;
      QueriedKept(n, nodes, b, t.right);
      var callsB := MarkLeafQuery(b, leaf, left, func, t.right, sc, done, part + AsSet(Leaves(t.left)));
      calls := callsA + callsB;
      CallsToKept(n1, nodes, leaf, Scan(t.left, sc.boxes[leaf]));
      CallsToConcat(nodes, leaf, Scan(t.left, sc.boxes[leaf]), Scan(t.right, sc.boxes[leaf]));
      MarkChains(n, n1, nodes, e, e1, edges, m, m1, pairs, sc, leaf);
      assert part + AsSet(Leaves(t.left)) + AsSet(Leaves(t.right)) == part + AsSet(Leaves(t));
    }

    /** One round of the climb in MarkLeaf: leaf meets everything below the sibling of node. */
    method MarkSibling(node: Ptr, leaf: Ptr, func: (Ptr, Ptr, nat) -> nat, ghost p: Path, ghost c: BoxTree,
                       ghost t: BoxTree, ghost sc: Scene, ghost done: set<Ptr>)
      returns (calls: seq<Call>)
      requires InMarking(sc, done, leaf, AsSet(Leaves(c)) - {leaf}) && Climbing(nodes, p, c, t, sc, done, leaf)
      requires !p.Top? && node == c.node && leaf in sc.order
      modifies `nodes, `pairs, `pooledPairs, `pairPool, `pairBrk, `edges, `lists
      ensures InMarking(sc, done, leaf, AsSet(Leaves(Up(p, c))) - {leaf})
      ensures Climbing(nodes, p.up, Up(p, c), t, sc, done, leaf) && OnlyPairs(old(nodes), nodes)
      ensures PairsGrown(old(edges), edges, old(pairs), pairs, sc, leaf)
      ensures calls == if p.InA? then [] else CallsTo(nodes, leaf, Scan(p.sibling, sc.boxes[leaf]))
    {
      ghost var part := AsSet(Leaves(c)) - {leaf};
      ClimbFacts(nodes, p, c, t, sc, done, leaf);
      ClimbMeets(p, c, t, sc, done, leaf);
      var parent := nodes[node].parent;
      if node == nodes[parent].body.a {
        calls := MarkLeafQuery(nodes[parent].body.b, leaf, true, func, p.sibling, sc, done, part);
      } else {
        calls := MarkLeafQuery(nodes[parent].body.a, leaf, false, func, p.sibling, sc, done, part);
      }
      ClimbKept(old(nodes), nodes, p, c, t, sc, done, leaf);
      UpLeaves(p, c, leaf);
    }

    /** The first branch of MarkLeaf: a moved leaf is checked against the whole tree. */
    method MarkMoved(leaf: Ptr, func: (Ptr, Ptr, nat) -> nat, ghost t: BoxTree, ghost sc: Scene, ghost done: set<Ptr>)
      returns (calls: seq<Call>, ghost hits: seq<Ptr>)
      requires InMarking(sc, done, NULL, {}) && Climbing(nodes, Top, t, t, sc, done, leaf)
      modifies `nodes, `pairs, `pooledPairs, `pairPool, `pairBrk, `edges, `lists
      ensures InMarking(sc, done + {leaf}, NULL, {}) && OnlyPairs(old(nodes), nodes)
      ensures PairsGrown(old(edges), edges, old(pairs), pairs, sc, leaf)
      ensures calls == CallsTo(nodes, leaf, hits) && EarlierHits(sc, leaf, hits, sc.order)
    {
      calls, hits := [], [];
      var node := leaf;
      ghost var p, c := PathTo(Top, t, leaf), Tip(leaf, BoxOf(t, leaf));
      ClimbStarts(nodes, t, sc, done, leaf);
      MarkBegins(edges, sc, done, leaf);
      assert AsSet(Leaves(c)) - {leaf} == {};
      while nodes[node].parent != NULL
        invariant Climbed(node, p, c, t, sc, done, leaf, calls, hits)
        invariant OnlyPairs(old(nodes), nodes) && old(edges).Keys <= pairs.Keys
        invariant PairsGrown(old(edges), edges, old(pairs), pairs, sc, leaf)
        decreases p
      {
        ghost var n, e, m := nodes, edges, pairs;
        node, calls, hits := MarkRound(node, leaf, func, calls, hits, p, c, t, sc, done);
        MarkChains(old(nodes), n, nodes, old(edges), e, edges, old(pairs), m, pairs, sc, leaf);
        p, c := p.up, Up(p, c);
      }
      ClimbFacts(nodes, p, c, t, sc, done, leaf);
      MarkEnds(edges, sc, done, leaf, AsSet(Leaves(c)) - {leaf});
    }

    /** The climb of MarkLeaf has come to node; calls are the calls made so far, for the leaves hits. */
    ghost predicate Climbed(node: Ptr, p: Path, c: BoxTree, t: BoxTree, sc: Scene, done: set<Ptr>, leaf: Ptr,
                            calls: seq<Call>, hits: seq<Ptr>)
      reads `nodes, `pairs, `pairBrk, `pooledPairs, `pairPool, `edges, `lists, `stamp
    {
      && InMarking(sc, done, leaf, AsSet(Leaves(c)) - {leaf}) && Climbing(nodes, p, c, t, sc, done, leaf)
        && leaf in sc.order
      && node == c.node && node in nodes && nodes[node].parent == Holder(p)
      && calls == CallsTo(nodes, leaf, hits) && EarlierHits(sc, leaf, hits, Leaves(c))
    }

    /** One round of the climb, with the calls and the leaves behind them. */
    method MarkRound(node: Ptr, leaf: Ptr, func: (Ptr, Ptr, nat) -> nat, calls: seq<Call>, ghost hits: seq<Ptr>,
                     ghost p: Path, ghost c: BoxTree, ghost t: BoxTree, ghost sc: Scene, ghost done: set<Ptr>)
      returns (node': Ptr, calls': seq<Call>, ghost hits': seq<Ptr>)
      requires Climbed(node, p, c, t, sc, done, leaf, calls, hits) && !p.Top?
      modifies `nodes, `pairs, `pooledPairs, `pairPool, `pairBrk, `edges, `lists
      ensures Climbed(node', p.up, Up(p, c), t, sc, done, leaf, calls', hits') && OnlyPairs(old(nodes), nodes)
      ensures PairsGrown(old(edges), edges, old(pairs), pairs, sc, leaf)
    {
      ghost var n := nodes;
      var more := MarkSibling(node, leaf, func, p, c, t, sc, done);
      calls' := calls + more;
      ClimbHits(nodes, p, c, t, sc, done, leaf, hits);
      CallsToKept(n, nodes, leaf, hits);
      hits' := hits + if p.InA? then [] else Scan(p.sibling, sc.boxes[leaf]);
      node' := nodes[node].parent;
      ClimbFacts(nodes, p.up, Up(p, c), t, sc, done, leaf);
    }

    /** The second branch of MarkLeaf: an unmoved leaf answers from the cache and refreshes the collision ids. */
    method MarkCached(leaf: Ptr, func: (Ptr, Ptr, nat) -> nat) returns (calls: seq<Call>)
      requires PairsOk() && leaf in lists
      modifies `pairs
      ensures PairsOk() && calls == CachedCalls(nodes, old(pairs), edges, leaf, lists[leaf])
      ensures SameThreads(old(pairs), pairs) && IdsRefreshed(nodes, old(pairs), edges, leaf, lists[leaf], func, pairs)
    {
      ListOfLeaf(nodes, pairs, pairBrk, pooledPairs, pairPool, edges, lists, leaf);
      calls := CachedWalk(leaf, nodes[leaf].body.pairs, func, lists[leaf]);
      StateSameThreads(nodes, old(pairs), pairBrk, pooledPairs, pairPool, edges, lists, pairs);
    }

    /** The loop over the pair list in MarkLeaf. */
    method CachedWalk(leaf: Ptr, first: Ptr, func: (Ptr, Ptr, nat) -> nat, ghost s: seq<Ptr>) returns (calls: seq<Call>)
      requires CachedList(nodes, pairs, edges, leaf, s) && first == PairAt(s, 0)
      modifies `pairs
      ensures calls == CachedCalls(nodes, old(pairs), edges, leaf, s)
      ensures SameThreads(old(pairs), pairs) && IdsRefreshed(nodes, old(pairs), edges, leaf, s, func, pairs)
    {
      calls := [];
      ghost var i := 0;
      var pair := first;
      while pair != NULL
        invariant 0 <= i <= |s| && pair == PairAt(s, i) && SameThreads(old(pairs), pairs)
        invariant calls == CachedCalls(nodes, old(pairs), edges, leaf, s[..i])
        invariant IdsRefreshed(nodes, old(pairs), edges, leaf, s[..i], func, pairs)
        decreases |s| - i
      {
        CachedPair(nodes, old(pairs), edges, leaf, s, i, func, pairs);
        if pairs[pair].b.leaf == leaf {
          var other := pairs[pair].a.leaf;
          calls := calls + [Call(nodes[other].obj, nodes[leaf].obj, pairs[pair].id)];
          var next := pairs[pair].b.next;
          pairs := pairs[pair := pairs[pair].(id := func(nodes[other].obj, nodes[leaf].obj, pairs[pair].id))];
          pair := next;
        } else {
          pair := pairs[pair].a.next;
        }
        i := i + 1;
      }
      assert s[..i] == s;
    }

    /** A pass that began with the cache e0 and the pairs m0 has visited the leaves in done. */
    ghost predicate InPass(sc: Scene, done: set<Ptr>, e0: Edges, m0: Pairs, func: (Ptr, Ptr, nat) -> nat)
      reads `nodes, `pairs, `pairBrk, `pooledPairs, `pairPool, `edges, `lists, `stamp
    {
      InMarking(sc, done, NULL, {}) && IdsDue(nodes, edges, pairs, e0, m0, sc, done, func) && e0.Keys <= m0.Keys
    }

    /** Visits one leaf of the tree t; reports are the leaves behind the calls. */
    method MarkLeaf(leaf: Ptr, func: (Ptr, Ptr, nat) -> nat, ghost t: BoxTree, ghost sc: Scene, ghost done: set<Ptr>,
                    ghost e0: Edges, ghost m0: Pairs)
      returns (calls: seq<Call>, ghost reports: seq<(Ptr, Ptr)>)
      requires InPass(sc, done, e0, m0, func) && Visiting(nodes, t, sc, done, leaf)
      modifies `nodes, `pairs, `pooledPairs, `pairPool, `pairBrk, `edges, `lists
      ensures InPass(sc, done + {leaf}, e0, m0, func) && OnlyPairs(old(nodes), nodes)
      ensures Answered(nodes, calls, reports, e0, m0, sc, {leaf})
    {
      if nodes[leaf].body.stamp == stamp {
        calls, reports := MarkMovedLeaf(leaf, func, t, sc, done, e0, m0);
      } else {
        calls, reports := MarkUnmovedLeaf(leaf, func, t, sc, done, e0, m0);
      }
    }

    method MarkMovedLeaf(leaf: Ptr, func: (Ptr, Ptr, nat) -> nat, ghost t: BoxTree, ghost sc: Scene,
                         ghost done: set<Ptr>, ghost e0: Edges, ghost m0: Pairs)
      returns (calls: seq<Call>, ghost reports: seq<(Ptr, Ptr)>)
      requires InPass(sc, done, e0, m0, func) && Visiting(nodes, t, sc, done, leaf) && leaf in sc.moved
      modifies `nodes, `pairs, `pooledPairs, `pairPool, `pairBrk, `edges, `lists
      ensures InPass(sc, done + {leaf}, e0, m0, func) && OnlyPairs(old(nodes), nodes)
      ensures Answered(nodes, calls, reports, e0, m0, sc, {leaf})
    {
      ghost var n, e, m := nodes, edges, pairs;
      ghost var hits;
      calls, hits := MarkMoved(leaf, func, t, sc, done);
      reports := ReportsTo(leaf, hits);
      MovedReports(e0, sc, leaf, hits);
      CallsToMatch(nodes, leaf, hits);
      MovedTold(nodes, e0, m0, sc, leaf, hits);
      MovedIds(n, nodes, e, edges, m, pairs, e0, m0, sc, done, leaf, func);
    }

    method MarkUnmovedLeaf(leaf: Ptr, func: (Ptr, Ptr, nat) -> nat, ghost t: BoxTree, ghost sc: Scene,
                           ghost done: set<Ptr>, ghost e0: Edges, ghost m0: Pairs)
      returns (calls: seq<Call>, ghost reports: seq<(Ptr, Ptr)>)
      requires InPass(sc, done, e0, m0, func) && Visiting(nodes, t, sc, done, leaf) && leaf !in sc.moved
      modifies `pairs
      ensures InPass(sc, done + {leaf}, e0, m0, func)
      ensures Answered(nodes, calls, reports, e0, m0, sc, {leaf})
    {
      ghost var m := pairs;
      ListOfLeaf(nodes, pairs, pairBrk, pooledPairs, pairPool, edges, lists, leaf);
      ListMembers(pairs, edges, lists, leaf);
      CachedMatch(nodes, pairs, edges, leaf, lists[leaf]);
      CachedExpected(edges, lists, e0, sc, done, leaf);
      CachedTold(nodes, edges, pairs, e0, m0, sc, done, func, leaf, lists[leaf]);
      MarkUnmoved(edges, sc, done, leaf);
      calls := MarkCached(leaf, func);
      reports := CachedReports(edges, leaf, lists[leaf]);
      UnmovedIds(nodes, edges, m, pairs, e0, m0, sc, done, leaf, lists[leaf], func);
    }

    /** Visits the leaves of a subtree in tree order. */
    method MarkSubtree(subtree: Ptr, func: (Ptr, Ptr, nat) -> nat, ghost t: BoxTree, ghost sub: BoxTree,
                       ghost sc: Scene, ghost prefix: seq<Ptr>, ghost suffix: seq<Ptr>, ghost e0: Edges,
                       ghost m0: Pairs)
      returns (calls: seq<Call>, ghost reports: seq<(Ptr, Ptr)>)
      requires InPass(sc, AsSet(prefix), e0, m0, func) && Pass(nodes, t, sc)
      requires Queried(nodes, subtree, sub) && sc.order == prefix + Leaves(sub) + suffix
      modifies `nodes, `pairs, `pooledPairs, `pairPool, `pairBrk, `edges, `lists
      ensures InPass(sc, AsSet(prefix + Leaves(sub)), e0, m0, func) && OnlyPairs(old(nodes), nodes)
      ensures Answered(nodes, calls, reports, e0, m0, sc, AsSet(Leaves(sub)))
      decreases sub
    {
      QueriedChildren(nodes, subtree, sub);
      if nodes[subtree].obj != NULL {
        VisitNext(nodes, t, sc, prefix, subtree, suffix);
        calls, reports := MarkLeaf(subtree, func, t, sc, AsSet(prefix), e0, m0);
        assert AsSet(prefix + Leaves(sub)) == AsSet(prefix) + {subtree} && AsSet(Leaves(sub)) == {subtree};
      } else {
        calls, reports :=
          MarkHalves(nodes[subtree].body.a, nodes[subtree].body.b, func, t, sub, sc, prefix, suffix, e0, m0);
      }
    }

    /** The two recursive calls of MarkSubtree. */
    method MarkHalves(a: Ptr, b: Ptr, func: (Ptr, Ptr, nat) -> nat, ghost t: BoxTree, ghost sub: BoxTree,
                      ghost sc: Scene, ghost prefix: seq<Ptr>, ghost suffix: seq<Ptr>, ghost e0: Edges,
                      ghost m0: Pairs)
      returns (calls: seq<Call>, ghost reports: seq<(Ptr, Ptr)>)
      requires InPass(sc, AsSet(prefix), e0, m0, func) && Pass(nodes, t, sc)
      requires sub.Fork? && Proper(sub) && Queried(nodes, a, sub.left) && Queried(nodes, b, sub.right)
      requires sc.order == prefix + Leaves(sub) + suffix
      modifies `nodes, `pairs, `pooledPairs, `pairPool, `pairBrk, `edges, `lists
      ensures InPass(sc, AsSet(prefix + Leaves(sub)), e0, m0, func) && OnlyPairs(old(nodes), nodes)
      ensures Answered(nodes, calls, reports, e0, m0, sc, AsSet(Leaves(sub)))
      decreases sub, 0
    {
      ghost var n, la, lb := nodes, Leaves(sub.left), Leaves(sub.right);
      HalvesOrder(sub, prefix, suffix);
      var callsA, callsB;
      ghost var reportsA, reportsB;
      callsA, reportsA := MarkSubtree(a, func, t, sub.left, sc, prefix, lb + suffix, e0, m0);
      ghost var n1 := nodes;
      QueriedKept(n, n1, b, sub.right);
      PassKept(n, n1, t, sc);
      callsB, reportsB := MarkSubtree(b, func, t, sub.right, sc, prefix + la, suffix, e0, m0);
      calls := callsA + callsB;
      reports := reportsA + reportsB;
      OnlyPairsTrans(n, n1, nodes);
      AnsweredBoth(n1, nodes, callsA, reportsA, callsB, reportsB, e0, m0, sc, AsSet(la), AsSet(lb));
    }

    // ---- the index ----

    /** The subtree r is t: the tree, or what is left of it while a leaf is out. */
    ghost predicate Holds(r: Ptr, t: MaybeTree)
      reads `nodes, `nodeBrk, `pooledNodes, `nodePool
    {
      NodesFree() && TreeHeld(nodes, nodePool, r, t)
    }

    lemma AllInMemory(r: Ptr, t: MaybeTree)
      requires Holds(r, t)
      ensures forall n :: n in AllNodes(t) ==> n in nodes && n !in nodePool
    {
      if t.SomeTree? {
        RepresentsLeaves(nodes, t.t, NULL);
      }
    }

    /** SubtreeRemove, seen from the leaves. */
    method Detach(leaf: Ptr, ghost t: BoxTree) returns (r: Ptr)
      requires Holds(root, SomeTree(t)) && leaf in Leaves(t)
      modifies `nodes, `pooledNodes, `nodePool
      ensures Holds(r, Pruned(t, leaf)) && LooseLeaf(leaf) && leaf !in AllNodes(Pruned(t, leaf))
      ensures t.Tip? ==> nodes == old(nodes)
      ensures SameLeaves(old(nodes), nodes, AsSet(Leaves(t))) && forall l :: l in Leaves(t) ==> l !in nodePool
    {
      RepresentsLeaves(nodes, t, NULL);
      LeavesAreNodes(t);
      ghost var gone;
      r, gone := SubtreeRemove(root, leaf, t);
      PrunedShape(t, leaf);
    }

    /** SubtreeInsert, seen from the leaves. */
    method Attach(r: Ptr, leaf: Ptr, ghost rest: MaybeTree) returns (ghost t: BoxTree)
      requires Holds(r, rest) && LooseLeaf(leaf) && leaf !in AllNodes(rest)
      requires rest.NoTree? ==> nodes[leaf].parent == NULL
      modifies `nodes, `root, `pooledNodes, `nodePool, `nodeBrk
      ensures Holds(root, SomeTree(t)) && LeavesKept(old(nodes), nodes, old(nodePool))
      ensures (forall l :: l in Leaves(t) <==> l in AllLeaves(rest) || l == leaf) && (AllBoxesOk(rest) ==> BoxOk(t))
    {
      AllInMemory(r, rest);
      ghost var spare;
      root, spare := SubtreeInsert(r, leaf, rest);
      t := Grown(rest, leaf, old(nodes)[leaf].bb, spare);
      GrownShape(rest, leaf, old(nodes)[leaf].bb, spare);
    }

    /** The tree t with its pair cache, as a marking pass expects it: pairs of updated leaves are still missing. */
    ghost predicate Ready(t: BoxTree)
      reads `root, `nodes, `nodeBrk, `pooledNodes, `nodePool, `pairs, `pairBrk, `pooledPairs, `pairPool, `edges,
        `lists, `stamp
    {
      && Holds(root, SomeTree(t)) && BoxOk(t) && PairsOk() && lists.Keys == AsSet(Leaves(t))
      && CacheReady(nodes, edges, Leaves(t), stamp)
    }

    /** Takes leaf out of the tree and inserts it again where its new box bb belongs. */
    method Reinsert(leaf: Ptr, bb: BB, ghost t: BoxTree) returns (ghost t': BoxTree)
      requires Holds(root, SomeTree(t)) && BoxOk(t) && leaf in Leaves(t) && leaf in nodes
      modifies `nodes, `root, `pooledNodes, `nodePool, `nodeBrk
      ensures Holds(root, SomeTree(t')) && BoxOk(t') && SameSet(Leaves(t), Leaves(t'))
      ensures SameLeaves(old(nodes)[leaf := old(nodes)[leaf].(bb := bb)], nodes, AsSet(Leaves(t)))
    {
      LeafBodies(t);
      Rebound(leaf, bb, t);
      ReboxShape(t, leaf, bb);
      ghost var t0, m0 := Rebox(t, leaf, bb), nodes;
      ReboxPruned(t, leaf, bb);
      PrunedShape(t, leaf);
      ghost var rest := Pruned(t0, leaf);
      var r := Detach(leaf, t0);
      ghost var m1, pool1 := nodes, nodePool;
      t' := Attach(r, leaf, rest);
      SameLeavesTrans(m0, m1, nodes, AsSet(Leaves(t)), pool1);
    }

    /** Reinsert, seen from the cache. */
    method Relocate(leaf: Ptr, bb: BB, ghost t: BoxTree) returns (ghost t': BoxTree)
      requires Holds(root, SomeTree(t)) && BoxOk(t) && leaf in Leaves(t) && leaf in nodes && PairsOk()
      requires lists.Keys == AsSet(Leaves(t))
      modifies `nodes, `root, `pooledNodes, `nodePool, `nodeBrk
      ensures PairsOk() && Holds(root, SomeTree(t')) && BoxOk(t') && SameSet(Leaves(t), Leaves(t'))
      ensures SameLeaves(old(nodes)[leaf := old(nodes)[leaf].(bb := bb)], nodes, AsSet(Leaves(t)))
    {
      t' := Reinsert(leaf, bb, t);
      SameLeavesState(old(nodes)[leaf := old(nodes)[leaf].(bb := bb)], nodes, pairs, pairBrk, pooledPairs, pairPool,
        edges, lists);
    }

    lemma LeafBodies(t: BoxTree)
      requires Holds(root, SomeTree(t))
      ensures forall l :: l in Leaves(t) ==> l in nodes && nodes[l].body.Leaf? && nodes[l].obj != NULL && l !in nodePool
    {
      LeavesAreNodes(t);
      RepresentsLeaves(nodes, t, NULL);
    }

    /** Stores a new box for a leaf. */
    method Rebound(leaf: Ptr, bb: BB, ghost t: BoxTree)
      requires Holds(root, SomeTree(t)) && leaf in Leaves(t) && leaf in nodes
      modifies `nodes
      ensures Holds(root, SomeTree(Rebox(t, leaf, bb))) && nodes == old(nodes)[leaf := old(nodes)[leaf].(bb := bb)]
    {
      RepresentsLeaves(nodes, t, NULL);
      LeavesAreNodes(t);
      ReboxRepresents(nodes, t, NULL, leaf, bb);
      ReboxShape(t, leaf, bb);
      nodes := nodes[leaf := nodes[leaf].(bb := bb)];
      NodePoolKept(old(nodes), pooledNodes, nodePool, nodes);
    }

    /** Drops the pairs of leaf and stamps it. */
    method ClearAndStamp(leaf: Ptr, ghost t: MaybeTree)
      requires Holds(root, t) && PairsOk() && leaf in lists
      modifies `nodes, `pairs, `pooledPairs, `pairPool, `edges, `lists
      ensures Holds(root, t) && PairsOk() && lists.Keys == old(lists.Keys)
      ensures edges == CutOff(old(edges), leaf) && IdsKept(edges, old(pairs), pairs)
      ensures Stamped(old(nodes), nodes, leaf, stamp)
    {
      ClearPairs(root, leaf, t);
      ghost var m := nodes;
      SetStamp(leaf, t);
      StampedAfter(old(nodes), m, nodes, leaf, stamp);
    }

    /** PairsClear, seen from the tree. */
    method ClearPairs(r: Ptr, leaf: Ptr, ghost t: MaybeTree)
      requires Holds(r, t) && PairsOk() && leaf in lists
      modifies `nodes, `pairs, `pooledPairs, `pairPool, `edges, `lists
      ensures Holds(r, t) && PairsOk() && lists.Keys == old(lists.Keys) && OnlyPairs(old(nodes), nodes)
      ensures edges == CutOff(old(edges), leaf) && IdsKept(edges, old(pairs), pairs)
    {
      PairsClear(leaf);
      HeldKept(old(nodes), nodes, nodeBrk, pooledNodes, nodePool, r, t);
    }

    method SetStamp(leaf: Ptr, ghost t: MaybeTree)
      requires Holds(root, t) && PairsOk() && leaf in lists
      modifies `nodes
      ensures Holds(root, t) && PairsOk() && Stamped(old(nodes), nodes, leaf, stamp)
    {
      nodes := nodes[leaf := nodes[leaf].(body := nodes[leaf].body.(stamp := stamp))];
      StampedState(old(nodes), nodes, leaf, stamp, pairs, pairBrk, pooledPairs, pairPool, edges, lists);
      HeldKept(old(nodes), nodes, nodeBrk, pooledNodes, nodePool, root, t);
    }

    method LeafUpdate(leaf: Ptr, w: World, ghost t: BoxTree) returns (updated: bool, ghost t': BoxTree)
      requires Ready(t) && leaf in Leaves(t) && leaf in nodes
      modifies `nodes, `root, `pooledNodes, `nodePool, `nodeBrk, `pairs, `pooledPairs, `pairPool, `edges, `lists
      ensures Ready(t') && SameSet(Leaves(t), Leaves(t'))
      ensures updated == !ContainsBB(old(nodes)[leaf].bb, w.bbfunc(old(nodes)[leaf].obj))
      ensures updated ==> Moved(old(nodes), nodes, Leaves(t), leaf, GetBB(w, old(nodes)[leaf].obj), stamp)
      ensures updated ==> edges == CutOff(old(edges), leaf) && IdsKept(edges, old(pairs), pairs)
      ensures !updated ==> t' == t && nodes == old(nodes) && edges == old(edges) && pairs == old(pairs)
    {
      var bb := w.bbfunc(nodes[leaf].obj);
      if !ContainsBB(nodes[leaf].bb, bb) {
        t' := MoveLeaf(leaf, GetBB(w, nodes[leaf].obj), t);
        return true, t';
      } else {
        return false, t;
      }
    }

    /** The first branch of LeafUpdate: the box has become too small. */
    method MoveLeaf(leaf: Ptr, bb: BB, ghost t: BoxTree) returns (ghost t': BoxTree)
      requires Ready(t) && leaf in Leaves(t) && leaf in nodes
      modifies `nodes, `root, `pooledNodes, `nodePool, `nodeBrk, `pairs, `pooledPairs, `pairPool, `edges, `lists
      ensures Ready(t') && SameSet(Leaves(t), Leaves(t'))
      ensures Moved(old(nodes), nodes, Leaves(t), leaf, bb, stamp)
      ensures edges == CutOff(old(edges), leaf) && IdsKept(edges, old(pairs), pairs)
    {
      t' := Relocate(leaf, bb, t);
      Forget(leaf, bb, old(nodes), Leaves(t), t');
    }

    /** The second half of MoveLeaf: the leaf has its new place t' and loses its pairs. */
    method Forget(leaf: Ptr, bb: BB, ghost m: Nodes, ghost ls: seq<Ptr>, ghost t': BoxTree)
      requires Holds(root, SomeTree(t')) && BoxOk(t') && PairsOk() && leaf in ls && SameSet(ls, Leaves(t'))
      requires lists.Keys == AsSet(ls)
      requires CacheReady(m, edges, ls, stamp) && leaf in m
      requires SameLeaves(m[leaf := m[leaf].(bb := bb)], nodes, AsSet(ls))
      modifies `nodes, `pairs, `pooledPairs, `pairPool, `edges, `lists
      ensures Ready(t') && Moved(m, nodes, ls, leaf, bb, stamp)
      ensures edges == CutOff(old(edges), leaf) && IdsKept(edges, old(pairs), pairs)
    {
      ClearAndStamp(leaf, SomeTree(t'));
      MovedReady(m, old(nodes), nodes, old(edges), ls, Leaves(t'), leaf, bb, stamp);
    }

    // ---- marking passes of the operations ----

    /** The tree t with the cache as it will be under stamp now. */
    ghost predicate Settled(t: MaybeTree, now: nat)
      reads `root, `nodes, `nodeBrk, `pooledNodes, `nodePool, `pairs, `pairBrk, `pooledPairs, `pairPool, `edges, `lists
    {
      && Holds(root, t) && AllBoxesOk(t) && PairsOk() && lists.Keys == AsSet(AllLeaves(t))
      && CacheExact(nodes, edges, AllLeaves(t), now)
    }

    lemma PassStarts(t: BoxTree)
      requires Ready(t)
      ensures InMarking(SceneOf(nodes, Leaves(t), stamp), {}, NULL, {})
      ensures Pass(nodes, t, SceneOf(nodes, Leaves(t), stamp))
    {
      ProperDistinct(t);
    }

    lemma HeldUnder(m: Nodes, m': Nodes, t: MaybeTree)
      requires NodeMemoryOk(m, nodeBrk, pooledNodes, nodePool) && TreeHeld(m, nodePool, root, t) && OnlyPairs(m, m')
      ensures NodeMemoryOk(m', nodeBrk, pooledNodes, nodePool) && TreeHeld(m', nodePool, root, t)
    {
      HeldKept(m, m', nodeBrk, pooledNodes, nodePool, root, t);
    }

    /** For a lone tree: LeafAddPairs after leaf has been stamped. */
    method LeafAddPairs(leaf: Ptr, ghost t: BoxTree)
      requires Ready(t) && SceneOf(nodes, Leaves(t), stamp).moved == {leaf}
      modifies `nodes, `pairs, `pooledPairs, `pairPool, `pairBrk, `edges, `lists
      ensures Settled(SomeTree(t), stamp + 1) && OnlyPairs(old(nodes), nodes)
    {
      ghost var sc := SceneOf(nodes, Leaves(t), stamp);
      PassStarts(t);
      MarkFirst(leaf, t, sc);
      PassDone(old(nodes), t, sc, {} + {leaf});
    }

    /** A marking pass over t that began with the nodes m has visited every moved leaf. */
    lemma PassDone(m: Nodes, t: BoxTree, sc: Scene, done: set<Ptr>)
      requires NodeMemoryOk(m, nodeBrk, pooledNodes, nodePool) && TreeHeld(m, nodePool, root, SomeTree(t)) && BoxOk(t)
      requires LeavesStamped(m, Leaves(t), stamp) && sc == SceneOf(m, Leaves(t), stamp)
      requires InMarking(sc, done, NULL, {}) && OnlyPairs(m, nodes) && forall l :: l in sc.moved ==> l in done
      ensures Settled(SomeTree(t), stamp + 1)
    {
      HeldUnder(m, nodes, SomeTree(t));
      PassEnds(m, nodes, edges, Leaves(t), stamp, done);
    }

    method MarkFirst(leaf: Ptr, ghost t: BoxTree, ghost sc: Scene)
      requires InMarking(sc, {}, NULL, {}) && Pass(nodes, t, sc) && sc.moved == {leaf} && leaf in sc.order
      modifies `nodes, `pairs, `pooledPairs, `pairPool, `pairBrk, `edges, `lists
      ensures InMarking(sc, {} + {leaf}, NULL, {}) && OnlyPairs(old(nodes), nodes)
    {
      assert leaf in sc.moved;
      IdsStart(nodes, edges, pairs, sc, (obj1, obj2, id) => id);
      var _, _ := MarkLeaf(leaf, (obj1, obj2, id) => id, t, sc, {}, edges, pairs);
    }

    // ---- the operations ----

    ghost predicate Valid()
      reads this
    {
      Settled(tree, stamp) && TableOk(nodes, leaves, AllLeaves(tree))
    }

    /** In terms of objects: two objects share a live pair, and only one, exactly when their stored boxes intersect. */
    lemma CacheMeaning(x: Ptr, y: Ptr)
      requires Valid() && x in leaves && y in leaves && x != y
      ensures x in StoredBoxes(nodes, leaves) && y in StoredBoxes(nodes, leaves)
      ensures Intersects(StoredBoxes(nodes, leaves)[x], StoredBoxes(nodes, leaves)[y])
        <==> exists p :: p in edges && Ends(edges[p], leaves[x], leaves[y])
      ensures forall p, q ::
        p in edges && q in edges && Ends(edges[p], leaves[x], leaves[y]) && Ends(edges[q], leaves[x], leaves[y])
        ==> p == q
      ensures forall p :: p in edges ==> p in pairs && pairs[p].a.leaf == edges[p].0 && pairs[p].b.leaf == edges[p].1
    {
      var ls := AllLeaves(tree);
      InTable(nodes, leaves, ls);
      assert Overlap(Scene(ls, BoxesOf(nodes, ls), {}), leaves[x], leaves[y]) <==> Joined(edges, leaves[x], leaves[y]);
      forall p, q | p in edges && q in edges && Ends(edges[p], leaves[x], leaves[y])
        && Ends(edges[q], leaves[x], leaves[y]) ensures p == q
      {
        assert Ends(edges[p], edges[q].0, edges[q].1);
      }
    }

    constructor (nodesPerBuffer: nat, pairsPerBuffer: nat)
      ensures Valid() && leaves == map[]
    {
      this.nodesPerBuffer, this.pairsPerBuffer := nodesPerBuffer, pairsPerBuffer;
      nodes, pairs, root, pooledNodes, pooledPairs, stamp := map[], map[], NULL, NULL, NULL, 0;
      nodeBrk, pairBrk, leaves := 1, 1, map[];
      tree, nodePool, edges, lists, pairPool := NoTree, [], map[], map[], [];
    }

    /** A fresh leaf for obj, not yet part of the tree. */
    method LeafNew(obj: Ptr, w: World) returns (leaf: Ptr)
      requires NodesFree() && obj != NULL
      modifies `nodes, `pooledNodes, `nodePool, `nodeBrk
      ensures NodesFree() && PoolShrunk(leaf) && leaf in nodes
      ensures nodes[leaf] == Node(obj, GetBB(w, obj), NULL, Leaf(0, NULL))
      ensures KeptOutside(old(nodes), nodes, {leaf})
    {
      leaf := NodeFromPool();
      ghost var m := nodes;
      nodes := nodes[leaf := Node(obj, GetBB(w, obj), NULL, Leaf(0, NULL))];
      NodePoolKept(m, pooledNodes, nodePool, nodes);
    }

    /** LeafNew, seen from the tree and the lists. */
    method NewLeaf(obj: Ptr, w: World, ghost t: MaybeTree) returns (leaf: Ptr)
      requires Holds(root, t) && PairsOk() && obj != NULL && lists.Keys == AsSet(AllLeaves(t))
      modifies `nodes, `pooledNodes, `nodePool, `nodeBrk, `lists
      ensures Holds(root, t) && PairsOk() && lists == old(lists)[leaf := []] && leaf !in old(lists)
      ensures leaf !in AllNodes(t) && leaf !in AsSet(AllLeaves(t))
      ensures LooseLeaf(leaf) && nodes[leaf] == Node(obj, GetBB(w, obj), NULL, Leaf(0, NULL))
      ensures SameLeaves(old(nodes), nodes, AsSet(AllLeaves(t)))
      ensures forall l :: l in AllLeaves(t) ==> l in nodes && nodes[l].body.Leaf? && l !in nodePool
    {
      LeavesHeld(root, t);
      leaf := LeafNew(obj, w);
      StillHeld(old(nodes), old(nodePool), leaf, t);
      lists := lists[leaf := []];
      ListAdded(old(nodes), pairs, pairBrk, pooledPairs, pairPool, edges, old(lists), leaf, nodes);
    }

    lemma LeavesHeld(r: Ptr, t: MaybeTree)
      requires Holds(r, t)
      ensures forall n :: n in AllNodes(t) ==> n in nodes && n !in nodePool
      ensures forall l :: l in AllLeaves(t) ==> l in AllNodes(t) && nodes[l].body.Leaf? && nodes[l].obj != NULL
    {
      if t.SomeTree? {
        RepresentsLeaves(nodes, t.t, NULL);
        LeavesAreNodes(t.t);
      }
    }

    lemma StillHeld(m: Nodes, pool: seq<Ptr>, leaf: Ptr, t: MaybeTree)
      requires TreeHeld(m, pool, root, t) && KeptOutside(m, nodes, {leaf}) && leaf !in AllNodes(t)
      requires forall n :: n in nodePool ==> n in pool || n !in m
      ensures TreeHeld(nodes, nodePool, root, t)
    {
      if t.SomeTree? {
        RepresentsLeaves(m, t.t, NULL);
        RepresentsFrame(m, nodes, t.t, NULL);
      }
    }

    /** The new leaf becomes part of the tree. */
    method Hang(r: Ptr, leaf: Ptr, ghost rest: MaybeTree) returns (ghost t: BoxTree)
      requires Holds(r, rest) && LooseLeaf(leaf) && leaf !in AllNodes(rest)
      requires rest.NoTree? ==> nodes[leaf].parent == NULL
      requires AllBoxesOk(rest) && PairsOk() && lists.Keys == AsSet(AllLeaves(rest)) + {leaf}
      modifies `nodes, `root, `pooledNodes, `nodePool, `nodeBrk
      ensures Holds(root, SomeTree(t)) && BoxOk(t) && PairsOk()
      ensures SameLeaves(old(nodes), nodes, AsSet(Leaves(t))) && AsSet(Leaves(t)) == AsSet(AllLeaves(rest)) + {leaf}
    {
      LeavesHeld(r, rest);
      t := Attach(r, leaf, rest);
      SameLeavesOf(old(nodes), nodes, lists.Keys, old(nodePool));
      SameLeavesState(old(nodes), nodes, pairs, pairBrk, pooledPairs, pairPool, edges, lists);
    }

    method Insert(obj: Ptr, w: World)
      requires Valid() && obj != NULL && obj !in leaves
      modifies this
      ensures Valid() && StoredBoxes(nodes, leaves) == StoredBoxes(old(nodes), old(leaves))[obj := GetBB(w, obj)]
    {
      ghost var ls := AllLeaves(tree);
      var leaf := JoinTree(obj, w);
      leaves := leaves[obj := leaf];
      StampNew(leaf, old(nodes), ls, obj, GetBB(w, obj));
      TableJoined(old(nodes), nodes, old(leaves), leaves, ls, AllLeaves(tree), leaf, obj, GetBB(w, obj), stamp);
      PairUp(leaf);
    }

    method NextStamp()
      requires Settled(tree, stamp + 1) && TableOk(nodes, leaves, AllLeaves(tree))
      modifies `stamp
      ensures Valid() && stamp == old(stamp) + 1
    {
      stamp := stamp + 1;
    }

    /** A tree that has got a new leaf without pairs. */
    ghost predicate Joining(m: Nodes, ls: seq<Ptr>, leaf: Ptr, obj: Ptr, bb: BB)
      reads `tree, `root, `nodes, `nodeBrk, `pooledNodes, `nodePool, `pairs, `pairBrk, `pooledPairs, `pairPool,
        `edges, `lists
    {
      && tree.SomeTree? && Holds(root, tree) && BoxOk(tree.t) && PairsOk() && lists.Keys == AsSet(Leaves(tree.t))
      && AsSet(Leaves(tree.t)) == AsSet(ls) + {leaf} && Grafted(m, nodes, ls, leaf, obj, bb)
    }

    /** The first half of Insert: the tree gets a new leaf. */
    method JoinTree(obj: Ptr, w: World) returns (leaf: Ptr)
      requires Settled(tree, stamp) && obj != NULL
      modifies `nodes, `root, `pooledNodes, `nodePool, `nodeBrk, `lists, `tree
      ensures Joining(old(nodes), AllLeaves(old(tree)), leaf, obj, GetBB(w, obj))
    {
      ghost var t0, m0 := tree, nodes;
      leaf := NewLeaf(obj, w, t0);
      Graft(leaf, m0, obj, GetBB(w, obj));
    }

    /** The fresh leaf, not yet part of the tree, is hung into it. */
    method Graft(leaf: Ptr, ghost m: Nodes, ghost obj: Ptr, ghost bb: BB)
      requires Holds(root, tree) && AllBoxesOk(tree) && PairsOk() && lists.Keys == AsSet(AllLeaves(tree)) + {leaf}
      requires LooseLeaf(leaf) && nodes[leaf] == Node(obj, bb, NULL, Leaf(0, NULL)) && leaf !in AllNodes(tree)
      requires SameLeaves(m, nodes, AsSet(AllLeaves(tree))) && leaf !in AllLeaves(tree)
      modifies `nodes, `root, `pooledNodes, `nodePool, `nodeBrk, `tree
      ensures Joining(m, AllLeaves(old(tree)), leaf, obj, bb) && lists == old(lists)
    {
      ghost var t := Hang(root, leaf, tree);
      GraftedIn(m, old(nodes), nodes, AllLeaves(tree), Leaves(t), leaf, obj, bb);
      tree := SomeTree(t);
    }

    /** The new leaf gets the current stamp. */
    method StampNew(leaf: Ptr, ghost m: Nodes, ghost ls: seq<Ptr>, ghost obj: Ptr, ghost bb: BB)
      requires Joining(m, ls, leaf, obj, bb) && CacheExact(m, edges, ls, stamp)
      modifies `nodes
      ensures Ready(tree.t) && SceneOf(nodes, Leaves(tree.t), stamp).moved == {leaf}
      ensures Added(m, nodes, ls, leaf, obj, bb, stamp)
    {
      SetStamp(leaf, tree);
      JoinReady(m, old(nodes), nodes, edges, ls, Leaves(tree.t), leaf, obj, bb, stamp);
    }

    method Remove(obj: Ptr)
      requires Valid() && obj in leaves
      modifies this
      ensures Valid() && StoredBoxes(nodes, leaves) == StoredBoxes(old(nodes), old(leaves)) - {obj}
    {
      var leaf := leaves[obj];
      ghost var ls := AllLeaves(tree);
      InTable(nodes, leaves, ls);
      leaves := leaves - {obj};
      LeaveTree(leaf);
      LeftExact(old(nodes), nodes, old(edges), ls, AllLeaves(tree), leaf, stamp);
      TableLeft(old(nodes), nodes, old(leaves), ls, AllLeaves(tree), obj);
    }

    /** Remove, up to the table of leaves. */
    method LeaveTree(leaf: Ptr)
      requires Settled(tree, stamp) && leaf in AllLeaves(tree)
      modifies `nodes, `root, `pooledNodes, `nodePool, `pairs, `pooledPairs, `pairPool, `edges, `lists, `tree
      ensures Holds(root, tree) && AllBoxesOk(tree) && PairsOk() && lists.Keys == AsSet(AllLeaves(tree))
      ensures edges == CutOff(old(edges), leaf)
      ensures AsSet(AllLeaves(tree)) == AsSet(AllLeaves(old(tree))) - {leaf}
      ensures SameStored(old(nodes), nodes, AllLeaves(tree))
    {
      ghost var ls := AllLeaves(tree);
      LeavesHeld(root, tree);
      root := Uproot(leaf);
      ghost var m1 := nodes;
      ClearPairs(root, leaf, tree);
      ghost var m2 := nodes;
      Discard(leaf);
      StoredAfterRemove(old(nodes), m1, m2, nodes, ls, AllLeaves(tree), leaf);
    }

    /** SubtreeRemove, seen from the cache. */
    method Uproot(leaf: Ptr) returns (r: Ptr)
      requires Settled(tree, stamp) && leaf in AllLeaves(tree)
      modifies `nodes, `pooledNodes, `nodePool, `tree
      ensures Holds(r, tree) && AllBoxesOk(tree) && PairsOk() && LooseLeaf(leaf) && leaf !in AllNodes(tree)
      ensures AsSet(AllLeaves(tree)) == AsSet(AllLeaves(old(tree))) - {leaf}
      ensures SameLeaves(old(nodes), nodes, AsSet(AllLeaves(old(tree))))
    {
      ghost var t := tree.t;
      ReboxPruned(t, leaf, BB(0.0, 0.0, 0.0, 0.0));
      PrunedShape(t, leaf);
      r := Detach(leaf, t);
      tree := Pruned(t, leaf);
      SameLeavesState(old(nodes), nodes, pairs, pairBrk, pooledPairs, pairPool, edges, lists);
    }

    /** Recycles a leaf that is out of the tree and has no pairs. */
    method Discard(leaf: Ptr)
      requires Holds(root, tree) && PairsOk() && leaf in nodes && leaf !in nodePool && leaf !in AllNodes(tree)
      requires forall p :: p in edges ==> !Joins(edges[p], leaf)
      modifies `nodes, `pooledNodes, `nodePool, `lists
      ensures Holds(root, tree) && PairsOk() && lists == old(lists) - {leaf}
      ensures nodes.Keys == old(nodes.Keys) && forall n :: n in nodes && n != leaf ==> nodes[n] == old(nodes)[n]
    {
      NodeRecycle(leaf);
      if tree.SomeTree? {
        RepresentsFrame(old(nodes), nodes, tree.t, NULL);
      }
      ListDropped(old(nodes), pairs, pairBrk, pooledPairs, pairPool, edges, lists, leaf, nodes);
      lists := lists - {leaf};
    }

    /** LeafUpdate for the leaf of an object. */
    method UpdateObject(obj: Ptr, w: World) returns (updated: bool)
      requires tree.SomeTree? && Ready(tree.t) && TableOk(nodes, leaves, AllLeaves(tree)) && obj in leaves
      modifies `nodes, `root, `pooledNodes, `nodePool, `nodeBrk, `pairs, `pooledPairs, `pairPool, `edges, `lists, `tree
      ensures tree.SomeTree? && Ready(tree.t) && TableOk(nodes, leaves, AllLeaves(tree))
      ensures SameSet(AllLeaves(old(tree)), AllLeaves(tree))
      ensures leaves[obj] in old(nodes)
      ensures StoredBoxes(nodes, leaves)
        == StoredBoxes(old(nodes), leaves)[obj := Fitted(old(nodes)[leaves[obj]].bb, w, obj)]
      ensures updated == !ContainsBB(old(nodes)[leaves[obj]].bb, w.bbfunc(obj))
      ensures updated ==> Moved(old(nodes), nodes, AllLeaves(old(tree)), leaves[obj], GetBB(w, obj), stamp)
      ensures updated ==> edges == CutOff(old(edges), leaves[obj]) && IdsKept(edges, old(pairs), pairs)
      ensures !updated ==> nodes == old(nodes) && edges == old(edges) && tree == old(tree) && pairs == old(pairs)
    {
      LeafOf(nodes, leaves, AllLeaves(tree), obj);
      ghost var t;
      updated, t := LeafUpdate(leaves[obj], w, tree.t);
      tree := SomeTree(t);
      FittedStored(old(nodes), nodes, leaves, AllLeaves(old(tree)), AllLeaves(tree), obj, w, updated, stamp);
    }

    method ReindexObject(obj: Ptr, w: World)
      requires Valid()
      modifies `nodes, `root, `pooledNodes, `nodePool, `nodeBrk, `pairs, `pooledPairs, `pairPool, `pairBrk, `edges,
        `lists, `tree, `stamp
      ensures Valid() && leaves == old(leaves)
      ensures var boxes := StoredBoxes(old(nodes), leaves);
              StoredBoxes(nodes, leaves) == if obj in boxes then boxes[obj := Fitted(boxes[obj], w, obj)] else boxes
    {
      ghost var boxes := StoredBoxes(nodes, leaves);
      if obj in leaves {
        SomeLeaf(obj);
        RefreshObject(obj, w);
        assert StoredBoxes(nodes, leaves) == boxes[obj := Fitted(boxes[obj], w, obj)];
      } else {
        assert obj !in boxes;
      }
    }

    /** ReindexObject for an object of the tree. */
    method RefreshObject(obj: Ptr, w: World)
      requires Valid() && obj in leaves && tree.SomeTree? && leaves[obj] in nodes
      modifies `nodes, `root, `pooledNodes, `nodePool, `nodeBrk, `pairs, `pooledPairs, `pairPool, `pairBrk, `edges,
        `lists, `tree, `stamp
      ensures Valid()
      ensures StoredBoxes(nodes, leaves)
        == StoredBoxes(old(nodes), leaves)[obj := Fitted(old(nodes)[leaves[obj]].bb, w, obj)]
    {
      ExactReady(nodes, edges, AllLeaves(tree), stamp);
      var updated := UpdateObject(obj, w);
      if updated {
        OneMoved(old(nodes), nodes, old(edges), AllLeaves(old(tree)), AllLeaves(tree), leaves[obj], GetBB(w, obj),
          stamp);
        PairUp(leaves[obj]);
      } else {
        ExactLater(nodes, edges, AllLeaves(tree), stamp);
        NextStamp();
      }
    }

    lemma SomeLeaf(obj: Ptr)
      requires Valid() && obj in leaves
      ensures tree.SomeTree? && leaves[obj] in AllLeaves(tree) && leaves[obj] in nodes
      ensures obj in StoredBoxes(nodes, leaves) && StoredBoxes(nodes, leaves)[obj] == nodes[leaves[obj]].bb
    {
      InTable(nodes, leaves, AllLeaves(tree));
    }

    /** A stamped leaf gets its pairs, and the stamp moves on. */
    method PairUp(leaf: Ptr)
      requires tree.SomeTree? && Ready(tree.t) && TableOk(nodes, leaves, AllLeaves(tree))
      requires SceneOf(nodes, Leaves(tree.t), stamp).moved == {leaf}
      modifies `nodes, `pairs, `pooledPairs, `pairPool, `pairBrk, `edges, `lists, `stamp
      ensures Valid() && StoredBoxes(nodes, leaves) == StoredBoxes(old(nodes), leaves)
    {
      LeafAddPairs(leaf, tree.t);
      TableUnder(old(nodes), nodes, leaves, AllLeaves(tree));
      NextStamp();
    }

    /** The first half of ReindexQuery: LeafUpdate for every leaf, in any order. */
    method UpdateAll(w: World)
      requires tree.SomeTree? && Ready(tree.t) && TableOk(nodes, leaves, AllLeaves(tree))
      requires CacheExact(nodes, edges, AllLeaves(tree), stamp)
      modifies `nodes, `root, `pooledNodes, `nodePool, `nodeBrk, `pairs, `pooledPairs, `pairPool, `edges, `lists, `tree
      ensures tree.SomeTree? && Ready(tree.t) && TableOk(nodes, leaves, AllLeaves(tree))
      ensures StoredBoxes(nodes, leaves) == HalfFitted(StoredBoxes(old(nodes), leaves), {}, w)
      ensures HalfUpdated(old(nodes), old(edges), old(pairs), nodes, edges, pairs, AllLeaves(tree),
                          StoredBoxes(old(nodes), leaves), w, {}, stamp)
    {
      ghost var boxes := StoredBoxes(nodes, leaves);
      var todo := leaves.Keys;
      InTable(nodes, leaves, AllLeaves(tree));
      assert boxes == HalfFitted(boxes, todo, w);
      UpdateStarts(nodes, edges, pairs, leaves, AllLeaves(tree), boxes, w, stamp);
      while todo != {}
        invariant UpdateGoesOn(old(nodes), old(edges), old(pairs), boxes, w, todo)
      {
        var o :| o in todo;
        UpdateNext(o, w, old(nodes), old(edges), old(pairs), boxes, todo);
        todo := todo - {o};
      }
    }

    /** The leaves of the objects in todo are still to be updated. */
    ghost predicate UpdateGoesOn(n0: Nodes, e0: Edges, m0: Pairs, boxes: map<Ptr, BB>, w: World, todo: set<Ptr>)
      reads this
    {
      && tree.SomeTree? && Ready(tree.t) && TableOk(nodes, leaves, AllLeaves(tree)) && todo <= leaves.Keys
      && StoredBoxes(nodes, leaves) == HalfFitted(boxes, todo, w) && boxes.Keys == leaves.Keys
      && HalfUpdated(n0, e0, m0, nodes, edges, pairs, AllLeaves(tree), boxes, w, todo, stamp)
      && TableOk(n0, leaves, AllLeaves(tree))
      && forall p :: p in e0 ==> e0[p].0 in AllLeaves(tree) && e0[p].1 in AllLeaves(tree)
    }

    method UpdateNext(o: Ptr, w: World, ghost n0: Nodes, ghost e0: Edges, ghost m0: Pairs, ghost boxes: map<Ptr, BB>,
                      ghost todo: set<Ptr>)
      requires UpdateGoesOn(n0, e0, m0, boxes, w, todo) && o in todo
      modifies `nodes, `root, `pooledNodes, `nodePool, `nodeBrk, `pairs, `pooledPairs, `pairPool, `edges, `lists, `tree
      ensures UpdateGoesOn(n0, e0, m0, boxes, w, todo - {o})
    {
      ghost var n, e, m, ls := nodes, edges, pairs, AllLeaves(tree);
      OneFitted(boxes, todo, w, o);
      assert HalfFitted(boxes, todo, w)[o] == boxes[o];
      var _ := UpdateObject(o, w);
      OneUpdated(n0, e0, m0, n, e, m, nodes, edges, pairs, leaves, ls, AllLeaves(tree), boxes, w, todo, o, GetBB(w, o),
        stamp);
    }

    method ReindexQuery(func: (Ptr, Ptr, nat) -> nat, w: World) returns (calls: seq<Call>)
      requires Valid()
      modifies this
      ensures Valid() && leaves == old(leaves)
      ensures StoredBoxes(nodes, leaves) == HalfFitted(StoredBoxes(old(nodes), leaves), {}, w)
      ensures EachOnce(StoredBoxes(nodes, leaves), calls)
      ensures IdsRenewed(old(nodes), old(edges), old(pairs), nodes, edges, pairs, StoredBoxes(old(nodes), leaves), w,
        func)
      ensures forall c :: c in calls ==>
                CallNames(old(nodes), old(edges), old(pairs), StoredBoxes(old(nodes), leaves), w, c)
    {
      if root == NULL {
        assert tree.NoTree?;
        assert leaves.Keys == {} by {
          InTable(nodes, leaves, AllLeaves(tree));
        }
        return [];
      }
      ExactReady(nodes, edges, AllLeaves(tree), stamp);
      UpdateAll(w);
      calls := MarkUpdated(func, w, old(nodes), old(edges), old(pairs), StoredBoxes(old(nodes), leaves));
    }

    /** The second half of ReindexQuery, with the ids. */
    method MarkUpdated(func: (Ptr, Ptr, nat) -> nat, ghost w: World, ghost n0: Nodes, ghost e0: Edges, ghost m0: Pairs,
                       ghost boxes: map<Ptr, BB>) returns (calls: seq<Call>)
      requires tree.SomeTree? && Ready(tree.t) && TableOk(nodes, leaves, AllLeaves(tree))
      requires HalfUpdated(n0, e0, m0, nodes, edges, pairs, AllLeaves(tree), boxes, w, {}, stamp) && e0.Keys <= m0.Keys
      modifies `nodes, `pairs, `pooledPairs, `pairPool, `pairBrk, `edges, `lists, `stamp
      ensures Valid() && StoredBoxes(nodes, leaves) == StoredBoxes(old(nodes), leaves)
      ensures EachOnce(StoredBoxes(nodes, leaves), calls)
      ensures IdsRenewed(n0, e0, m0, nodes, edges, pairs, boxes, w, func)
      ensures forall c :: c in calls ==> CallNames(n0, e0, m0, boxes, w, c)
    {
      ghost var n1, e1, m1, ls, now := nodes, edges, pairs, AllLeaves(tree), stamp;
      calls := MarkAll(func);
      IdsEnd(n0, e0, m0, n1, e1, m1, nodes, edges, pairs, leaves, ls, boxes, w, now, func);
      forall c | c in calls ensures CallNames(n0, e0, m0, boxes, w, c) {
        CallEnd(n0, e0, m0, n1, e1, m1, nodes, ls, boxes, w, now, c);
      }
    }

    /** The marking pass and the next stamp. */
    method MarkAll(func: (Ptr, Ptr, nat) -> nat) returns (calls: seq<Call>)
      requires tree.SomeTree? && Ready(tree.t) && TableOk(nodes, leaves, AllLeaves(tree))
      modifies `nodes, `pairs, `pooledPairs, `pairPool, `pairBrk, `edges, `lists, `stamp
      ensures Valid() && StoredBoxes(nodes, leaves) == StoredBoxes(old(nodes), leaves)
      ensures EachOnce(StoredBoxes(nodes, leaves), calls) && OnlyPairs(old(nodes), nodes)
      ensures var sc := SceneOf(old(nodes), AllLeaves(tree), old(stamp));
              && IdsDue(nodes, edges, pairs, old(edges), old(pairs), sc, AsSet(AllLeaves(tree)), func)
              && forall c :: c in calls ==> Named(nodes, old(edges), old(pairs), sc, c)
    {
      ghost var t, sc, e := tree.t, SceneOf(nodes, Leaves(tree.t), stamp), edges;
      ghost var reports;
      ProperDistinct(t);
      calls, reports := MarkTree(func, t, sc);
      TableUnder(old(nodes), nodes, leaves, AllLeaves(tree));
      PassReports(old(nodes), nodes, leaves, Leaves(t), e, stamp, calls, reports);
      AllNamed(nodes, calls, reports, e, old(pairs), sc, AsSet(Leaves(t)));
      NextStamp();
    }

    method MarkTree(func: (Ptr, Ptr, nat) -> nat, ghost t: BoxTree, ghost sc: Scene)
      returns (calls: seq<Call>, ghost reports: seq<(Ptr, Ptr)>)
      requires Ready(t) && sc == SceneOf(nodes, Leaves(t), stamp)
      modifies `nodes, `pairs, `pooledPairs, `pairPool, `pairBrk, `edges, `lists
      ensures Settled(SomeTree(t), stamp + 1) && OnlyPairs(old(nodes), nodes)
      ensures Answered(nodes, calls, reports, old(edges), old(pairs), sc, AsSet(Leaves(t)))
      ensures IdsDue(nodes, edges, pairs, old(edges), old(pairs), sc, AsSet(Leaves(t)), func)
    {
      PassStarts(t);
      assert Leaves(t) == [] + Leaves(t) + [] && AsSet([]) == {} && [] + Leaves(t) == Leaves(t);
      IdsStart(nodes, edges, pairs, sc, func);
      calls, reports := MarkSubtree(root, func, t, t, sc, [], [], edges, pairs);
      PassDone(old(nodes), t, sc, AsSet(Leaves(t)));
    }

    // ---- queries ----

    method SubtreeQuery(subtree: Ptr, obj: Ptr, bb: BB, ghost t: BoxTree) returns (calls: seq<Call>)
      requires Queried(nodes, subtree, t)
      ensures calls == CallsWith(nodes, obj, Scan(t, bb))
      decreases t
    {
      QueriedChildren(nodes, subtree, t);
      if Intersects(nodes[subtree].bb, bb) {
        if nodes[subtree].obj != NULL {
          calls := [Call(obj, nodes[subtree].obj, 0)];
        } else {
          var callsA := SubtreeQuery(nodes[subtree].body.a, obj, bb, t.left);
          var callsB := SubtreeQuery(nodes[subtree].body.b, obj, bb, t.right);
          calls := callsA + callsB;
          CallsWithConcat(nodes, obj, Scan(t.left, bb), Scan(t.right, bb));
        }
      } else {
        PrunedScan(t, bb);
        calls := [];
      }
    }

    method Query(obj: Ptr, bb: BB) returns (calls: seq<Call>)
      requires Valid()
      ensures var boxes := StoredBoxes(nodes, leaves);
              forall o :: Told(calls, o) == if o in boxes && Intersects(boxes[o], bb) then 1 else 0
      ensures forall c :: c in calls ==> c.obj1 == obj
    {
      if root != NULL {
        calls := SubtreeQuery(root, obj, bb, tree.t);
        ghost var boxes := StoredBoxes(nodes, leaves);
        forall o ensures Told(calls, o) == if o in boxes && Intersects(boxes[o], bb) then 1 else 0 {
          QueryTells(nodes, leaves, tree.t, obj, bb, o);
        }
        CallsFirst(nodes, obj, Scan(tree.t, bb));
      } else {
        InTable(nodes, leaves, AllLeaves(tree));
        calls := [];
      }
    }

    /** entry gives the time at which the segment enters a box, func the result for an object; told are the objects
        called back with. */
    method SubtreeSegmentQuery(subtree: Ptr, tExit: real, entry: BB -> real, func: Ptr -> real, ghost t: BoxTree)
      returns (r: real, told: seq<Ptr>)
      requires Queried(nodes, subtree, t) && Admissible(t, entry, nodes, func, tExit)
      ensures r == var near := Nearest(t, nodes, func); if t.Tip? then near else Min(tExit, near)
      ensures LeastOf(told, func, tExit) == Min(tExit, Nearest(t, nodes, func)) && ObjectsOf(told, nodes, t)
      decreases t, 1
    {
      QueriedChildren(nodes, subtree, t);
      if nodes[subtree].obj != NULL {
        OneTold(nodes, subtree, t, func, tExit);
        return func(nodes[subtree].obj), [nodes[subtree].obj];
      }
      var a, b := nodes[subtree].body.a, nodes[subtree].body.b;
      var tA, tB := entry(nodes[a].bb), entry(nodes[b].bb);
      if tA < tB {
        r, told := SegmentInOrder(a, tA, b, tB, tExit, entry, func, t.left, t.right, t);
      } else {
        r, told := SegmentInOrder(b, tB, a, tA, tExit, entry, func, t.right, t.left, t);
      }
    }

    /** One branch of SubtreeSegmentQuery: both children, in the order in which the segment enters them. */
    method SegmentInOrder(a: Ptr, tA: real, b: Ptr, tB: real, tExit: real, entry: BB -> real, func: Ptr -> real,
                          ghost ta: BoxTree, ghost tb: BoxTree, ghost t: BoxTree)
      returns (r: real, told: seq<Ptr>)
      requires t.Fork? && ((ta == t.left && tb == t.right) || (ta == t.right && tb == t.left))
      requires Queried(nodes, a, ta) && Admissible(ta, entry, nodes, func, tExit) && tA == entry(ta.box)
      requires Queried(nodes, b, tb) && Admissible(tb, entry, nodes, func, tExit) && tB == entry(tb.box)
      ensures r == LeastOf(told, func, tExit) == Min(tExit, Min(Nearest(ta, nodes, func), Nearest(tb, nodes, func)))
      ensures ObjectsOf(told, nodes, t)
      decreases t, 0
    {
      MinAssoc(tExit, Nearest(ta, nodes, func), Nearest(tb, nodes, func));
      var more;
      r, told := SegmentPart(a, tA, tExit, entry, func, ta);
      EarlierExit(tb, entry, nodes, func, tExit, r);
      r, more := SegmentPart(b, tB, r, entry, func, tb);
      LeastConcat(told, more, func, tExit);
      ObjectsOfParts(told, more, nodes, t);
      told := told + more;
    }

    /** A child is asked only when the segment enters it early enough. */
    method SegmentPart(a: Ptr, tA: real, tExit: real, entry: BB -> real, func: Ptr -> real, ghost ta: BoxTree)
      returns (r: real, told: seq<Ptr>)
      requires Queried(nodes, a, ta) && Admissible(ta, entry, nodes, func, tExit) && tA == entry(ta.box)
      ensures r == LeastOf(told, func, tExit) == Min(tExit, Nearest(ta, nodes, func)) && ObjectsOf(told, nodes, ta)
      decreases ta, 2
    {
      EntryFirst(ta, entry, nodes, func, tExit);
      r, told := tExit, [];
      if tA < tExit {
        r, told := SubtreeSegmentQuery(a, tExit, entry, func, ta);
        r := Min(tExit, r);
      }
    }

    /** Whoever keeps the least result called back with has found the nearest object. The times come from a segment test
        that gives tExit or later for a box it misses, and no object may give a result before its boxes are entered. */
    method SegmentQuery(tExit: real, entry: BB -> real, func: Ptr -> real) returns (told: seq<Ptr>)
      requires Valid()
      requires forall o, bb ::
        o in leaves && o in StoredBoxes(nodes, leaves) && ContainsBB(bb, StoredBoxes(nodes, leaves)[o])
        ==> Min(tExit, entry(bb)) <= func(o)
      ensures forall o :: o in told ==> o in leaves
      ensures forall o :: o in leaves ==> LeastOf(told, func, tExit) <= func(o)
    {
      InTable(nodes, leaves, AllLeaves(tree));
      told := [];
      if root != NULL {
        var r;
        SegmentAdmissible(entry, func, tExit);
        r, told := SubtreeSegmentQuery(root, tExit, entry, func, tree.t);
        NearestMeaning(tree.t, nodes, func);
      }
    }

    lemma SegmentAdmissible(entry: BB -> real, func: Ptr -> real, tExit: real)
      requires Valid() && tree.SomeTree?
      requires forall o, bb ::
        o in leaves && o in StoredBoxes(nodes, leaves) && ContainsBB(bb, StoredBoxes(nodes, leaves)[o])
        ==> Min(tExit, entry(bb)) <= func(o)
      ensures Admissible(tree.t, entry, nodes, func, tExit)
    {
      InTable(nodes, leaves, AllLeaves(tree));
      forall l, bb | l in Leaves(tree.t) && ContainsBB(bb, BoxOf(tree.t, l))
        ensures Min(tExit, entry(bb)) <= func(ObjOf(nodes, l))
      {
        RepresentsBoxOf(nodes, tree.t, NULL, l);
        assert nodes[l].obj in StoredBoxes(nodes, leaves);
      }
      EnclosingAdmissible(tree.t, entry, nodes, func, tExit);
    }

    // ---- rebuilding the tree ----

    /** The recursive calls of partitionNodes may take nodes from the pool and change the order of their part of the
        array. */
    twostate predicate PartBuilt(arr: array<Ptr>, lo: nat, count: nat, t: BoxTree)
      requires lo + count <= arr.Length
      reads this, arr
    {
      && NodesFree() && Built(old(nodes), old(nodePool), nodes, nodePool, old(arr[lo..lo + count]), t)
      && forall i :: (0 <= i < lo || lo + count <= i < arr.Length) ==> arr[i] == old(arr[i])
    }

    /** The hull of the boxes, halved at the median of their bounds. */
    method Halve(arr: array<Ptr>, lo: nat, count: nat) returns (h: Halves)
      requires 0 < count && lo + count <= arr.Length && forall l :: l in arr[lo..lo + count] ==> l in nodes
      ensures h == HalvesOf(BoxesAt(nodes, arr[lo..lo + count]))
    {
      ghost var boxes := BoxesAt(nodes, arr[lo..lo + count]);
      var bb := nodes[arr[lo]].bb;
      var i := 1;
      while i < count
        invariant 1 <= i <= count && bb == Hull(boxes[..i])
      {
        BoxesAtNext(nodes, arr[lo..lo + count], i);
        bb := Merge(bb, nodes[arr[lo + i]].bb);
        i := i + 1;
      }
      assert boxes[..count] == boxes;
      var width := SplitsWidth(bb);
      var bounds := [];
      i := 0;
      while i < count
        invariant 0 <= i <= count && bounds == Bounds(boxes[..i], width)
      {
        BoxesAtNext(nodes, arr[lo..lo + count], i);
        BoundsNext(boxes, i, width);
        var node := nodes[arr[lo + i]];
        bounds := bounds + [Low(node.bb, width), High(node.bb, width)];
        i := i + 1;
      }
      var split := SplitPoint(bounds);
      h := Halves(LowHalf(bb, width, split), HighHalf(bb, width, split));
    }

    /** Moves the leaves that are cheaper on the high side to the end of their part of the array. */
    method SplitNodes(arr: array<Ptr>, lo: nat, count: nat, high: BB -> bool) returns (right: nat)
      requires lo + count <= arr.Length && forall l :: l in arr[lo..lo + count] ==> l in nodes
      modifies arr
      ensures right <= count && multiset(arr[lo..lo + count]) == multiset(old(arr[lo..lo + count]))
      ensures Sides(nodes, arr[lo..lo + count], right, right, high)
      ensures forall i :: (0 <= i < lo || lo + count <= i < arr.Length) ==> arr[i] == old(arr[i])
    {
      right := count;
      var left := 0;
      ghost var seg := arr[lo..lo + count];
      while left < right
        invariant 0 <= left <= right <= count && seg == arr[lo..lo + count]
        invariant multiset(seg) == multiset(old(arr[lo..lo + count])) && Sides(nodes, seg, left, right, high)
        invariant forall i :: (0 <= i < lo || lo + count <= i < arr.Length) ==> arr[i] == old(arr[i])
        decreases right - left
      {
        SidesStep(nodes, seg, left, right, high);
        assert arr[lo + left] == seg[left];
        var node := arr[lo + left];
        if high(nodes[node].bb) {
          right := right - 1;
          Swap(arr, lo, count, left, right);
          seg := Exchanged(seg, left, right);
        } else {
          left := left + 1;
        }
      }
    }

    /** The fallback of partitionNodes: the leaves are inserted one by one. */
    method InsertEach(arr: array<Ptr>, lo: nat, count: nat) returns (r: Ptr, ghost t: BoxTree)
      requires NodesFree() && 0 < count && lo + count <= arr.Length && Buildable(nodes, nodePool, arr[lo..lo + count])
      modifies `nodes, `pooledNodes, `nodePool, `nodeBrk
      ensures PartBuilt(arr, lo, count, t) && r == t.node
    {
      ghost var ls := arr[lo..lo + count];
      BuiltFirst(nodes, nodePool, ls);
      r := arr[lo];
      t := Tip(r, nodes[r].bb);
      var i := 1;
      while i < count
        invariant NodesFree() && 1 <= i <= count && Built(old(nodes), old(nodePool), nodes, nodePool, ls[..i], t)
        invariant r == t.node
      {
        PrefixStep(ls, i);
        r, t := InsertNext(r, arr[lo + i], old(nodes), old(nodePool), ls[..i], ls[i..], t);
        i := i + 1;
      }
      assert ls[..count] == ls;
    }

    lemma PrefixStep(ls: seq<Ptr>, i: nat)
      requires i < |ls|
      ensures ls == ls[..i] + ls[i..] && ls[..i + 1] == ls[..i] + [ls[i]] && ls[i..] != [] && ls[i..][0] == ls[i]
    {
    }

    method InsertNext(r: Ptr, leaf: Ptr, ghost m: Nodes, ghost pool: seq<Ptr>, ghost ls: seq<Ptr>,
                      ghost more: seq<Ptr>, ghost t: BoxTree) returns (r': Ptr, ghost t': BoxTree)
      requires NodesFree() && Built(m, pool, nodes, nodePool, ls, t) && r == t.node
      requires Buildable(m, pool, ls + more) && more != [] && leaf == more[0]
      modifies `nodes, `pooledNodes, `nodePool, `nodeBrk
      ensures NodesFree() && Built(m, pool, nodes, nodePool, ls + [leaf], t') && r' == t'.node
    {
      ghost var m1, pool1 := nodes, nodePool;
      NextLeaf(m, pool, m1, pool1, ls, more, t);
      ghost var spare;
      r', spare := SubtreeInsert(r, leaf, SomeTree(t));
      t' := InsertLeaf(t, leaf, m1[leaf].bb, spare);
      assert spare !in nodePool && spare != leaf;
      BuiltMore(m, pool, m1, pool1, nodes, nodePool, ls, t, leaf, spare, r');
    }

    method PartitionNodes(arr: array<Ptr>, lo: nat, count: nat) returns (r: Ptr, ghost t: BoxTree)
      requires NodesFree() && 0 < count && lo + count <= arr.Length && Buildable(nodes, nodePool, arr[lo..lo + count])
      modifies arr, `nodes, `pooledNodes, `nodePool, `nodeBrk
      ensures PartBuilt(arr, lo, count, t) && r == t.node
      decreases count
    {
      ghost var ls := arr[lo..lo + count];
      if count == 1 {
        r := arr[lo];
        t := Tip(r, nodes[r].bb);
        assert ls == [r];
        BuiltOne(nodes, nodePool, r);
      } else if count == 2 {
        r, t := Couple(arr[lo], arr[lo + 1]);
        assert ls == [arr[lo], arr[lo + 1]];
      } else {
        var h := Halve(arr, lo, count);
        var right := SplitNodes(arr, lo, count, Higher(h));
        ghost var ls' := arr[lo..lo + count];
        LowSideTaken(nodes, nodePool, ls, ls', right);
        BuildablePermuted(nodes, nodePool, ls, ls');
        if right == count {
          r, t := InsertEach(arr, lo, count);
        } else {
          r, t := PartitionHalves(arr, lo, count, right);
        }
        BuiltPermuted(old(nodes), old(nodePool), nodes, nodePool, ls', ls, t);
      }
    }

    /** Two leaves below a new node. */
    method Couple(a: Ptr, b: Ptr) returns (r: Ptr, ghost t: BoxTree)
      requires NodesFree() && Buildable(nodes, nodePool, [a, b])
      modifies `nodes, `pooledNodes, `nodePool, `nodeBrk
      ensures NodesFree() && Built(old(nodes), old(nodePool), nodes, nodePool, [a, b], t) && r == t.node
    {
      assert [a, b] == [a] + [b];
      BuildablePart(nodes, nodePool, [a], [b]);
      BuiltOne(nodes, nodePool, a);
      ghost var ta, tb := Tip(a, nodes[a].bb), Tip(b, nodes[b].bb);
      BuildableRest(nodes, nodePool, nodes, nodePool, [a], [b], ta);
      BuiltOne(nodes, nodePool, b);
      r, t := BuildNode(a, b, old(nodes), old(nodePool), old(nodes), old(nodePool), [a], [b], ta, tb);
    }

    /** NodeNew above two finished parts. */
    method BuildNode(a: Ptr, b: Ptr, ghost m0: Nodes, ghost pool0: seq<Ptr>, ghost m1: Nodes, ghost pool1: seq<Ptr>,
                     ghost lsA: seq<Ptr>, ghost lsB: seq<Ptr>, ghost ta: BoxTree, ghost tb: BoxTree)
                       returns (r: Ptr, ghost t: BoxTree)
      requires NodesFree() && Buildable(m0, pool0, lsA + lsB) && a == ta.node && b == tb.node
      requires Built(m0, pool0, m1, pool1, lsA, ta) && Built(m1, pool1, nodes, nodePool, lsB, tb)
      modifies `nodes, `pooledNodes, `nodePool, `nodeBrk
      ensures NodesFree() && Built(m0, pool0, nodes, nodePool, lsA + lsB, t) && r == t.node
    {
      BuiltApart(m0, pool0, m1, pool1, nodes, nodePool, lsA, lsB, ta, tb);
      ghost var m2, pool2 := nodes, nodePool;
      r := NodeNew(a, b);
      t := Fork(r, Merge(ta.box, tb.box), ta, tb);
      BuiltBoth(m0, pool0, m1, pool1, m2, pool2, nodes, nodePool, lsA, lsB, ta, tb, r);
    }

    /** The last case of partitionNodes: both halves are built and joined. */
    method PartitionHalves(arr: array<Ptr>, lo: nat, count: nat, right: nat) returns (r: Ptr, ghost t: BoxTree)
      requires NodesFree() && 0 < right < count && lo + count <= arr.Length
      requires Buildable(nodes, nodePool, arr[lo..lo + count])
      modifies arr, `nodes, `pooledNodes, `nodePool, `nodeBrk
      ensures PartBuilt(arr, lo, count, t) && r == t.node
      decreases count, 0
    {
      ghost var m0, pool0, lsA, lsB := nodes, nodePool, arr[lo..lo + right], arr[lo + right..lo + count];
      assert arr[lo..lo + count] == lsA + lsB;
      BuildablePart(nodes, nodePool, lsA, lsB);
      var a, b;
      ghost var ta, tb;
      a, ta := PartitionNodes(arr, lo, right);
      ghost var m1, pool1 := nodes, nodePool;
      BuildableRest(m0, pool0, m1, pool1, lsA, lsB, ta);
      assert arr[lo + right..lo + right + (count - right)] == lsB;
      b, tb := PartitionNodes(arr, lo + right, count - right);
      r, t := BuildNode(a, b, m0, pool0, m1, pool1, lsA, lsB, ta, tb);
    }

    method SubtreeRecycle(node: Ptr, ghost t: BoxTree)
      requires NodesFree() && node == t.node && node in nodes && Represents(nodes, t, nodes[node].parent) && InUse(t)
      modifies `nodes, `pooledNodes, `nodePool
      ensures NodesFree() && nodes.Keys == old(nodes.Keys)
      ensures KeptOutside(old(nodes), nodes, NodesOf(t) - AsSet(Leaves(t)))
      ensures forall n :: n in nodePool ==> n in old(nodePool) || (n in NodesOf(t) && n !in Leaves(t))
      decreases t
    {
      RepresentsLeaves(nodes, t, nodes[node].parent);
      if nodes[node].obj == NULL {
        RecycleBelow(nodes[node].body.a, nodes[node].body.b, t);
        NodeRecycle(node);
      }
    }

    method RecycleBelow(a: Ptr, b: Ptr, ghost t: BoxTree)
      requires NodesFree() && t.Fork? && a == t.left.node && b == t.right.node && Represents(nodes, t.left, t.node)
      requires Represents(nodes, t.right, t.node) && InUse(t)
      modifies `nodes, `pooledNodes, `nodePool
      ensures NodesFree() && nodes.Keys == old(nodes.Keys)
      ensures KeptOutside(old(nodes), nodes, NodesOf(t) - AsSet(Leaves(t)) - {t.node})
      ensures forall n :: n in nodePool ==> n in old(nodePool) || (n in NodesOf(t) && n !in Leaves(t) && n != t.node)
      decreases t, 0
    {
      LeavesAreNodes(t.left);
      LeavesAreNodes(t.right);
      SubtreeRecycle(a, t.left);
      RepresentsFrame(old(nodes), nodes, t.right, t.node);
      SubtreeRecycle(b, t.right);
    }

    /** The leaves in any order. */
    method LeafArray() returns (arr: array<Ptr>)
      requires TableOk(nodes, leaves, AllLeaves(tree))
      ensures fresh(arr) && AsSet(arr[..]) == AsSet(AllLeaves(tree)) && Distinct(arr[..])
    {
      arr := new Ptr[|leaves|];
      var todo, i := leaves.Keys, 0;
      while todo != {}
        invariant todo <= leaves.Keys && 0 <= i && i + |todo| == |leaves| == arr.Length
        invariant AsSet(arr[..i]) == LeavesBut(leaves, todo) && Distinct(arr[..i])
      {
        var o :| o in todo;
        OneLeafMore(nodes, leaves, AllLeaves(tree), todo, o, arr[..i]);
        ghost var before := arr[..i];
        arr[i] := leaves[o];
        assert arr[..i + 1] == before + [leaves[o]];
        todo := todo - {o};
        i := i + 1;
      }
      assert arr[..i] == arr[..];
      assert LeavesBut(leaves, {}) == leaves.Values;
    }

    /** Rebuilds the tree over the same leaves. */
    method Optimize()
      requires Valid() && forall o :: o in leaves && leaves[o] in nodes ==> Upright(nodes[leaves[o]].bb)
      modifies this
      ensures Valid() && leaves == old(leaves) && edges == old(edges) && pairs == old(pairs)
      ensures StoredBoxes(nodes, leaves) == StoredBoxes(old(nodes), leaves)
    {
      if root == NULL {
        return;
      }
      var arr := LeafArray();
      UprightLeaves();
      Rebuild(arr);
      ExactRebuilt(old(nodes), nodes, edges, AllLeaves(old(tree)), AllLeaves(tree), stamp, leaves);
    }

    lemma UprightLeaves()
      requires TableOk(nodes, leaves, AllLeaves(tree))
      requires forall o :: o in leaves && leaves[o] in nodes ==> Upright(nodes[leaves[o]].bb)
      ensures forall l :: l in AllLeaves(tree) && l in nodes ==> Upright(nodes[l].bb)
    {
      InTable(nodes, leaves, AllLeaves(tree));
    }

    method Rebuild(arr: array<Ptr>)
      requires Settled(tree, stamp) && tree.SomeTree? && AsSet(arr[..]) == AsSet(AllLeaves(tree)) && Distinct(arr[..])
      requires forall l :: l in AllLeaves(tree) && l in nodes ==> Upright(nodes[l].bb)
      modifies arr, `nodes, `root, `pooledNodes, `nodePool, `nodeBrk, `tree
      ensures Holds(root, tree) && AllBoxesOk(tree) && PairsOk() && SameSet(AllLeaves(old(tree)), AllLeaves(tree))
      ensures SameLeaves(old(nodes), nodes, AsSet(AllLeaves(old(tree))))
    {
      RebuildTree(arr);
      SameLeavesState(old(nodes), nodes, pairs, pairBrk, pooledPairs, pairPool, edges, lists);
    }

    method RebuildTree(arr: array<Ptr>)
      requires Holds(root, tree) && tree.SomeTree? && AsSet(arr[..]) == AsSet(AllLeaves(tree)) && Distinct(arr[..])
      requires forall l :: l in AllLeaves(tree) && l in nodes ==> Upright(nodes[l].bb)
      modifies arr, `nodes, `root, `pooledNodes, `nodePool, `nodeBrk, `tree
      ensures Holds(root, tree) && AllBoxesOk(tree) && SameSet(AllLeaves(old(tree)), AllLeaves(tree))
      ensures SameLeaves(old(nodes), nodes, AsSet(AllLeaves(old(tree))))
    {
      ghost var t, ls := tree.t, arr[..];
      SubtreeRecycle(root, t);
      ghost var m1, pool1 := nodes, nodePool;
      RecycledLeaves(old(nodes), old(nodePool), m1, pool1, t, ls);
      assert arr[0..0 + arr.Length] == ls;
      ghost var t';
      root, t' := PartitionNodes(arr, 0, arr.Length);
      RebuiltHeld(old(nodes), m1, pool1, nodes, nodePool, t, ls, t');
      tree := SomeTree(t');
    }
  }
}
