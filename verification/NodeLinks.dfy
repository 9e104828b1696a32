/** The free list of nodes. */
module NodePool {
  import opened Arrays
  import opened Addresses
  import opened Boxes
  import opened TreeMemory
  import opened PairLists

  ghost predicate NodeLink(m: Nodes, s: seq<Ptr>, i: int) {
    0 <= i < |s| && s[i] in m && m[s[i]].parent == PairAt(s, i + 1)
  }

  /** s is the free list of nodes starting at head, linked through parent. */
  ghost predicate NodePoolOk(m: Nodes, head: Ptr, s: seq<Ptr>) {
    && head == PairAt(s, 0)
    && NULL !in s && Distinct(s)
    && forall i {:trigger NodeLink(m, s, i)} :: 0 <= i < |s| ==> NodeLink(m, s, i)
  }

  lemma NodePoolKept(m: Nodes, head: Ptr, s: seq<Ptr>, m': Nodes)
    requires NodePoolOk(m, head, s)
    requires forall p :: p in s && p in m ==> p in m' && m'[p].parent == m[p].parent
    ensures NodePoolOk(m', head, s)
  {
    forall i | 0 <= i < |s| ensures NodeLink(m', s, i) {
      assert NodeLink(m, s, i);
    }
  }

  lemma PoolInNodes(m: Nodes, head: Ptr, s: seq<Ptr>)
    requires NodePoolOk(m, head, s)
    ensures forall p :: p in s ==> p in m
  {
    forall i | 0 <= i < |s| ensures s[i] in m {
      assert NodeLink(m, s, i);
    }
  }

  lemma NodePoolPushed(m: Nodes, head: Ptr, s: seq<Ptr>, p: Ptr, m': Nodes)
    requires NodePoolOk(m, head, s) && p !in s && p != NULL
    requires p in m' && m'[p].parent == head
    requires forall q :: q in s && q in m ==> q in m' && m'[q] == m[q]
    ensures NodePoolOk(m', p, [p] + s)
  {
    var t := [p] + s;
    forall i | 0 <= i < |t| ensures NodeLink(m', t, i) {
      if i > 0 {
        assert t[i] == s[i - 1] && NodeLink(m, s, i - 1);
      }
    }
  }

  lemma NodePoolPopped(m: Nodes, head: Ptr, s: seq<Ptr>)
    requires NodePoolOk(m, head, s) && head != NULL
    ensures head in m && head == s[0] && NodePoolOk(m, m[head].parent, s[1..]) && s == [head] + s[1..]
  {
    assert NodeLink(m, s, 0);
    var t := s[1..];
    forall i | 0 <= i < |t| ensures NodeLink(m, t, i) {
      assert NodeLink(m, s, i + 1);
    }
  }

  ghost predicate NodeMemoryOk(m: Nodes, brk: nat, head: Ptr, pool: seq<Ptr>) {
    NodePoolOk(m, head, pool) && NULL !in m && brk > 0 && forall n :: n in m ==> n < brk
  }
}

/** What the pointer writes of insertion and removal do to the links of the tree. */
module NodeLinks {
  import opened Addresses
  import opened Boxes
  import opened TreeMemory
  import opened BoxTrees
  import opened NodePool

  /** Everything but the given nodes is as before. */
  ghost predicate KeptOutside(m: Nodes, m': Nodes, changed: set<Ptr>) {
    forall n {:trigger m'[n]} {:trigger n in m'} :: n in m && n !in changed ==> n in m' && m'[n] == m[n]
  }

  /** Leaves in use keep everything but their parent link. */
  ghost predicate LeavesKept(m: Nodes, m': Nodes, pool: seq<Ptr>) {
    forall n {:trigger m'[n]} {:trigger n in m'} :: n in m && m[n].body.Leaf? && n !in pool
      ==> n in m' && m'[n].(parent := m[n].parent) == m[n]
  }

  /** The leaves in ls keep everything but their parent link. */
  ghost predicate SameLeaves(m: Nodes, m': Nodes, ls: set<Ptr>) {
    forall l {:trigger m'[l]} {:trigger l in m'} :: l in ls && l in m
      ==> l in m' && m'[l].(parent := m[l].parent) == m[l]
  }

  lemma SameLeavesOf(m: Nodes, m': Nodes, ls: set<Ptr>, pool: seq<Ptr>)
    requires LeavesKept(m, m', pool) && forall l :: l in ls ==> l in m && m[l].body.Leaf? && l !in pool
    ensures SameLeaves(m, m', ls)
  {
  }

  lemma SameLeavesTrans(m: Nodes, m1: Nodes, m2: Nodes, ls: set<Ptr>, pool: seq<Ptr>)
    requires SameLeaves(m, m1, ls) && LeavesKept(m1, m2, pool)
    requires forall l :: l in ls && l in m ==> m[l].body.Leaf? && l !in pool
    ensures SameLeaves(m, m2, ls)
  {
  }

  /** The subtree t of m became InsertLeaf(t, leaf) in m', rooted at r. */
  ghost predicate InsertedAt(m: Nodes, m': Nodes, t: BoxTree, leaf: Ptr, spare: Ptr, r: Ptr, pool: seq<Ptr>) {
    && leaf in m && t.node in m && r in m' && r == InsertLeaf(t, leaf, m[leaf].bb, spare).node
    && Represents(m', InsertLeaf(t, leaf, m[leaf].bb, spare), m'[r].parent)
      && m'[r].parent == (if t.Tip? then NULL else m[t.node].parent)
    && KeptOutside(m, m', NodesOf(t) + {leaf, spare})
    && LeavesKept(m, m', pool)
  }

  lemma InsertedTip(m: Nodes, m': Nodes, t: BoxTree, leaf: Ptr, spare: Ptr, pool: seq<Ptr>)
    requires t.Tip? && t.node in m && Represents(m, t, m[t.node].parent) && leaf in m && m[leaf].body.Leaf?
    requires m[leaf].obj != NULL && leaf != t.node && leaf != NULL
    requires spare in pool || spare !in m
    requires leaf in m' && t.node in m' && spare in m' && spare != leaf && spare != t.node && spare != NULL
    requires m'[spare] == Node(NULL, Merge(m[leaf].bb, m[t.node].bb), NULL, Children(leaf, t.node))
    requires m'[leaf] == m[leaf].(parent := spare) && m'[t.node] == m[t.node].(parent := spare)
    requires KeptOutside(m, m', {leaf, t.node, spare})
    ensures InsertedAt(m, m', t, leaf, spare, spare, pool)
  {
  }

  /** The node that re-attaches the rebuilt child: its links, the child's parent link and the grown box. */
  ghost function Reattached(m: Nodes, node: Ptr, child: Ptr, right: bool, bb: BB): Nodes
    requires node in m && m[node].body.Children? && child in m && child != node
  {
    m[node := m[node].(bb := Merge(m[node].bb, bb), body := if right then m[node].body.(b := child)
      else m[node].body.(a := child))]
     [child := m[child].(parent := node)]
  }

  /** Which child the leaf goes to, and its sibling. */
  ghost function Chosen(t: BoxTree, bb: BB): BoxTree
    requires t.Fork?
  {
    if GoesRight(t.left.box, t.right.box, bb) then t.right else t.left
  }

  lemma InsertedForkKept(m: Nodes, m1: Nodes, t: BoxTree, sub: BoxTree, leaf: Ptr, spare: Ptr, child: Ptr,
                         pool: seq<Ptr>, right: bool, bb: BB)
    requires t.Fork? && t.node in m && m[t.node].body.Children? && t.node in m1 && m1[t.node] == m[t.node]
    requires NodesOf(sub) <= NodesOf(t) && child in NodesOf(sub) + {spare} && child in m1 && child != t.node
    requires KeptOutside(m, m1, NodesOf(sub) + {leaf, spare}) && LeavesKept(m, m1, pool)
    ensures KeptOutside(m, Reattached(m1, t.node, child, right, bb), NodesOf(t) + {leaf, spare})
    ensures LeavesKept(m, Reattached(m1, t.node, child, right, bb), pool)
  {
  }

  lemma InsertedForkLinks(m: Nodes, m1: Nodes, t: BoxTree, leaf: Ptr, spare: Ptr, child: Ptr, sub': BoxTree,
                          right: bool, bb: BB)
    requires t.Fork? && t.node in m && Represents(m, t, m[t.node].parent) && Proper(t) && leaf !in NodesOf(t)
    requires spare !in NodesOf(t)
    requires t.node in m1 && m1[t.node] == m[t.node] && child in m1 && child != t.node && child == sub'.node
    requires Represents(m1, sub', m1[child].parent) && Proper(sub')
    requires NodesOf(sub') == NodesOf(if right then t.right else t.left) + {leaf, spare}
    requires KeptOutside(m, m1, NodesOf(sub'))
    ensures var m2 := Reattached(m1, t.node, child, right, bb);
            Represents(m2, sub', t.node) && Represents(m2, if right then t.left else t.right, t.node)
  {
    var m2 := Reattached(m1, t.node, child, right, bb);
    RepresentsUnder(m1, m2, sub', m1[child].parent, t.node);
    RepresentsFrame(m, m2, if right then t.left else t.right, t.node);
  }

  lemma InsertedFork(m: Nodes, m1: Nodes, t: BoxTree, leaf: Ptr, spare: Ptr, child: Ptr, pool: seq<Ptr>)
    requires t.Fork? && t.node in m && Represents(m, t, m[t.node].parent) && Proper(t) && leaf !in NodesOf(t)
    requires spare !in NodesOf(t) && leaf != spare
    requires leaf in m && m[leaf].body.Leaf? && leaf !in pool
    requires InsertedAt(m, m1, Chosen(t, m[leaf].bb), leaf, spare, child, pool)
    ensures t.node in m1 && m1[t.node] == m[t.node] && leaf in m1 && m1[leaf].bb == m[leaf].bb && child != t.node
    ensures InsertedAt(m, Reattached(m1, t.node, child, GoesRight(t.left.box, t.right.box, m[leaf].bb), m[leaf].bb),
      t, leaf, spare, t.node, pool)
  {
    var bb, n := m[leaf].bb, t.node;
    var right, sub := GoesRight(t.left.box, t.right.box, bb), Chosen(t, bb);
    var sub' := InsertLeaf(sub, leaf, bb, spare);
    InsertNodes(sub, leaf, bb, spare);
    InsertProper(sub, leaf, bb, spare);
    InsertedForkKept(m, m1, t, sub, leaf, spare, child, pool, right, bb);
    InsertedForkLinks(m, m1, t, leaf, spare, child, sub', right, bb);
  }

  /** c sits in the hole q of the tree in m. */
  ghost predicate Focused(m: Nodes, q: Path, c: BoxTree) {
    && RepresentsPath(m, q, c.node) && Represents(m, c, Holder(q))
    && PathProper(q) && Proper(c) && NodesOf(c) !! PathNodes(q)
  }

  /** Memory after child has been recycled and v has taken its place below the holder of p. */
  ghost function Swapped(m: Nodes, p: Path, child: Ptr, v: BoxTree, free: Ptr): Nodes
    requires !p.Top? && p.node in m && m[p.node].body.Children? && child in m && v.node in m
  {
    m[child := m[child].(parent := free)]
     [p.node := m[p.node].(body := if p.InA? then Children(v.node, m[p.node].body.b)
       else Children(m[p.node].body.a, v.node))]
     [v.node := m[v.node].(parent := p.node)]
  }

  lemma SwappedFocus(m: Nodes, p: Path, child: Ptr, v: BoxTree, free: Ptr)
    requires !p.Top? && RepresentsPath(m, p, child) && Represents(m, v, child)
    requires PathProper(p) && Proper(v) && NodesOf(v) !! PathNodes(p)
    requires child in m && child != NULL && m[child].body.Children? && child !in PathNodes(p) && child !in NodesOf(v)
    ensures m[p.node].body.Children? && Focused(Swapped(m, p, child, v, free), p, v)
    ensures p.node != v.node && p.node != child && child != v.node && p.sibling.node != child
  {
    var m' := Swapped(m, p, child, v, free);
    RepresentsUnder(m, m', v, child, p.node);
    RepresentsFrame(m, m', p.sibling, p.node);
    PathFrame(m, m', p.up, p.node);
  }

  /** A leaf at the root is the whole tree. */
  lemma RootLeaf(m: Nodes, t: BoxTree, leaf: Ptr)
    requires Represents(m, t, NULL) && leaf in Leaves(t) && leaf == t.node && Proper(t)
    ensures t.Tip?
  {
    if t.Fork? {
      LeavesAreNodes(t.left);
      LeavesAreNodes(t.right);
    }
  }

  /** Everything SubtreeRemove reads off the links around leaf. */
  lemma RemoveSetting(m: Nodes, t: BoxTree, leaf: Ptr)
    requires Represents(m, t, NULL) && Proper(t) && leaf in Leaves(t) && leaf != t.node
    ensures t.Fork?
    ensures var p := PathTo(Top, t, leaf);
            && !p.Top? && RepresentsPath(m, p, leaf) && leaf in m && m[leaf].parent == p.node
            && PathProper(p) && leaf !in PathNodes(p) && NodesOf(t) == PathNodes(p) + {leaf}
            && RemoveLeaf(t, leaf) == Refit(p.up, p.sibling) && NodesOf(RemoveLeaf(t, leaf)) == PathNodes(p) - {p.node}
            && p.sibling.node != leaf && (p.up.Top? <==> p.node == t.node)
  {
    RemoveShape(t, leaf);
    var p, tip := PathTo(Top, t, leaf), Tip(leaf, BoxOf(t, leaf));
    PathPlugs(Top, t, leaf);
    PlugRepresents(m, p, tip);
    PlugRoot(p, tip);
  }

  ghost function RootOf(p: Path, n: Ptr): Ptr {
    if p.Top? then n else RootOf(p.up, p.node)
  }

  lemma RootInPath(p: Path, n: Ptr)
    ensures RootOf(p, n) in PathNodes(p) + {n}
    ensures !p.Top? ==> RootOf(p, n) in PathNodes(p)
  {
  }

  lemma PlugRoot(p: Path, t: BoxTree)
    requires PathProper(p)
    ensures Plug(p, t).node == RootOf(p, t.node)
    ensures !p.Top? ==> (p.up.Top? <==> p.node == Plug(p, t).node)
  {
    if !p.Top? {
      PlugRoot(p.up, if p.InA? then Fork(p.node, p.box, t, p.sibling) else Fork(p.node, p.box, p.sibling, t));
      RootInPath(p.up, p.node);
    }
  }

  lemma RefitRoot(p: Path, t: BoxTree, n: Ptr)
    requires !p.Top? && RootOf(p, t.node) == n
    ensures Refit(p, t).node == n
  {
    if !p.up.Top? {
      RefitRoot(p.up, Lifted(p, t), n);
    }
  }

  /** r is the tree t in m, all of its nodes in use. */
  ghost predicate TreeHeld(m: Nodes, pool: seq<Ptr>, r: Ptr, t: MaybeTree) {
    match t
    case NoTree => r == NULL
    case SomeTree(x) => r == x.node && Represents(m, x, NULL) && Proper(x) && forall n :: n in NodesOf(x) ==> n !in pool
  }

  /** Only stamps and pair lists of leaves differ. */
  ghost predicate OnlyBodies(m: Nodes, m': Nodes) {
    && m'.Keys == m.Keys
    && forall n {:trigger m'[n]} :: n in m ==>
         m'[n].(body := m[n].body) == m[n] && (m'[n].body == m[n].body || (m[n].body.Leaf? && m'[n].body.Leaf?))
  }

  lemma HeldKept(m: Nodes, m': Nodes, brk: nat, head: Ptr, pool: seq<Ptr>, r: Ptr, t: MaybeTree)
    requires NodeMemoryOk(m, brk, head, pool) && TreeHeld(m, pool, r, t) && OnlyBodies(m, m')
    ensures NodeMemoryOk(m', brk, head, pool) && TreeHeld(m', pool, r, t)
  {
    NodePoolKept(m, head, pool, m');
    if t.SomeTree? {
      RepresentsBodyFrame(m, m', t.t, NULL);
    }
  }
}
