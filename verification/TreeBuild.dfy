/** Building a tree over given leaves: what a finished part of the new tree is. */
module TreeBuild {
  import opened Arrays
  import opened Addresses
  import opened Boxes
  import opened TreeMemory
  import opened PairLists
  import opened BoxTrees
  import opened TreeSplit
  import opened NodeLinks
  import opened PairState

  /** Leaves in use, ready to be built into a tree. */
  ghost predicate Buildable(m: Nodes, pool: seq<Ptr>, ls: seq<Ptr>) {
    Distinct(ls) && forall l :: l in ls ==>
      l in m && l != NULL && l !in pool && m[l].obj != NULL && m[l].body.Leaf? && Upright(m[l].bb)
  }

  /** Between (m0, pool0) and (m, pool) the tree t has been built over the leaves ls. */
  ghost predicate Built(m0: Nodes, pool0: seq<Ptr>, m: Nodes, pool: seq<Ptr>, ls: seq<Ptr>, t: BoxTree) {
    && t.node in m && Represents(m, t, m[t.node].parent) && Proper(t) && BoxOk(t)
    && (if t.Tip? then m == m0 else m[t.node].parent == NULL)
    && (forall l :: l in Leaves(t) <==> l in ls)
    && (forall n :: n in NodesOf(t) ==> n !in pool && (n in ls || n in pool0 || n !in m0))
    && (forall n :: n in pool ==> n in pool0 || n !in m0)
    && KeptOutside(m0, m, NodesOf(t)) && SameLeaves(m0, m, AsSet(ls))
  }

  lemma BuiltOne(m: Nodes, pool: seq<Ptr>, l: Ptr)
    requires Buildable(m, pool, [l])
    ensures Built(m, pool, m, pool, [l], Tip(l, m[l].bb))
  {
    assert l in [l];
  }

  /** A new node above a and b; pool is the rest of the free list. */
  ghost predicate NodeMade(m: Nodes, pool: seq<Ptr>, m': Nodes, pool': seq<Ptr>, a: Ptr, b: Ptr, node: Ptr) {
    && a in m && b in m && a != b && node in m' && node != NULL && node != a && node != b
    && (node in pool || node !in m) && node !in pool' && (forall n :: n in pool' ==> n in pool || n !in m)
    && m'[node] == Node(NULL, Merge(m[a].bb, m[b].bb), NULL, Children(a, b))
    && a in m' && m'[a] == m[a].(parent := node) && b in m' && m'[b] == m[b].(parent := node)
    && KeptOutside(m, m', {a, b, node})
  }

  /** The first half stays as it is while the second half is built. */
  lemma BuiltApart(m0: Nodes, pool0: seq<Ptr>, m1: Nodes, pool1: seq<Ptr>, m2: Nodes, pool2: seq<Ptr>,
                   lsA: seq<Ptr>, lsB: seq<Ptr>, tA: BoxTree, tB: BoxTree)
    requires Buildable(m0, pool0, lsA + lsB) && Built(m0, pool0, m1, pool1, lsA, tA)
    requires Built(m1, pool1, m2, pool2, lsB, tB)
    ensures tA.node in m1 && Represents(m2, tA, m1[tA.node].parent) && NodesOf(tA) !! NodesOf(tB)
    ensures forall n :: n in NodesOf(tA) ==> n !in pool2 && n in m2 && n in m1 && n !in lsB
    ensures forall n :: n in NodesOf(tB) ==> n in m2 && n !in lsA
    ensures forall n :: n in NodesOf(tA) ==> n in lsA || n in pool0 || n !in m0
    ensures forall n :: n in NodesOf(tB) ==> n in lsB || n in pool0 || n !in m0
    ensures forall n :: n in pool2 ==> n in pool0 || n !in m0
  {
    RepresentsLeaves(m1, tA, m1[tA.node].parent);
    RepresentsLeaves(m2, tB, m2[tB.node].parent);
    SplitDistinct(lsA, lsB);
    forall n | n in NodesOf(tA) ensures n !in NodesOf(tB) && n !in lsB {
      assert n in lsB ==> n in lsA + lsB;
    }
    RepresentsFrame(m1, m2, tA, m1[tA.node].parent);
    LeavesAreNodes(tA);
    forall n ensures n !in m1 ==> n !in m0 || n in NodesOf(tA) {
      assert n in m0 && n !in NodesOf(tA) ==> n in m1;
    }
  }

  lemma SplitDistinct(a: seq<Ptr>, b: seq<Ptr>)
    requires Distinct(a + b)
    ensures Distinct(a) && Distinct(b) && forall x :: x in a ==> x !in b
  {
    var c := a + b;
    forall i, j | 0 <= i < j < |b| ensures b[i] != b[j] {
      assert c[|a| + i] == b[i] && c[|a| + j] == b[j];
    }
    forall i, j | 0 <= i < j < |a| ensures a[i] != a[j] {
      assert c[i] == a[i] && c[j] == a[j];
    }
    forall i, j | 0 <= i < |a| && 0 <= j < |b| ensures a[i] != b[j] {
      assert c[i] == a[i] && c[|a| + j] == b[j];
    }
  }

  lemma BuiltBoth(m0: Nodes, pool0: seq<Ptr>, m1: Nodes, pool1: seq<Ptr>, m2: Nodes, pool2: seq<Ptr>, m3: Nodes,
                  pool3: seq<Ptr>,
                  lsA: seq<Ptr>, lsB: seq<Ptr>, tA: BoxTree, tB: BoxTree, node: Ptr)
    requires Buildable(m0, pool0, lsA + lsB) && Built(m0, pool0, m1, pool1, lsA, tA)
    requires Built(m1, pool1, m2, pool2, lsB, tB)
    requires NodeMade(m2, pool2, m3, pool3, tA.node, tB.node, node)
    ensures Built(m0, pool0, m3, pool3, lsA + lsB, Fork(node, Merge(tA.box, tB.box), tA, tB))
  {
    BuiltApart(m0, pool0, m1, pool1, m2, pool2, lsA, lsB, tA, tB);
    JoinedLinks(m2, pool2, m3, pool3, tA, tB, m1[tA.node].parent, m2[tB.node].parent, node);
    JoinedFrame(m0, pool0, m1, m2, pool2, m3, pool3, lsA, lsB, tA, tB, node);
  }

  lemma JoinedLinks(m2: Nodes, pool2: seq<Ptr>, m3: Nodes, pool3: seq<Ptr>, tA: BoxTree, tB: BoxTree, pa: Ptr,
                    pb: Ptr, node: Ptr)
    requires Represents(m2, tA, pa) && Represents(m2, tB, pb) && Proper(tA) && Proper(tB) && NodesOf(tA) !! NodesOf(tB)
    requires NodeMade(m2, pool2, m3, pool3, tA.node, tB.node, node)
    requires forall n :: n in NodesOf(tA) + NodesOf(tB) ==> n !in pool2 && n in m2
    ensures var t := Fork(node, Merge(tA.box, tB.box), tA, tB);
            Represents(m3, t, NULL) && Proper(t) && (forall n :: n in NodesOf(t) ==> n !in pool3)
  {
    RepresentsUnder(m2, m3, tA, pa, node);
    RepresentsUnder(m2, m3, tB, pb, node);
  }

  lemma JoinedFrame(m0: Nodes, pool0: seq<Ptr>, m1: Nodes, m2: Nodes, pool2: seq<Ptr>, m3: Nodes, pool3: seq<Ptr>,
                    lsA: seq<Ptr>, lsB: seq<Ptr>, tA: BoxTree, tB: BoxTree, node: Ptr)
    requires Buildable(m0, pool0, lsA + lsB)
    requires KeptOutside(m0, m1, NodesOf(tA)) && KeptOutside(m1, m2, NodesOf(tB)) && SameLeaves(m0, m1, AsSet(lsA))
    requires SameLeaves(m1, m2, AsSet(lsB))
    requires NodeMade(m2, pool2, m3, pool3, tA.node, tB.node, node) && NodesOf(tA) !! NodesOf(tB)
    requires forall n :: n in NodesOf(tA) ==> n !in lsB && n in m1
    requires forall n :: n in NodesOf(tB) ==> n !in lsA && n in m2
    requires forall n :: n in pool2 ==> n in pool0 || n !in m0
    ensures KeptOutside(m0, m3, NodesOf(tA) + NodesOf(tB) + {node}) && SameLeaves(m0, m3, AsSet(lsA + lsB))
    ensures node in pool0 || node !in m0
    ensures forall n :: n in pool3 ==> n in pool0 || n !in m0
  {
  }

  lemma BuildableRest(m0: Nodes, pool0: seq<Ptr>, m1: Nodes, pool1: seq<Ptr>, lsA: seq<Ptr>, lsB: seq<Ptr>, tA: BoxTree)
    requires Buildable(m0, pool0, lsA + lsB) && Built(m0, pool0, m1, pool1, lsA, tA)
    ensures Buildable(m1, pool1, lsB)
  {
    SplitDistinct(lsA, lsB);
    forall l | l in lsB ensures l in m1 && m1[l] == m0[l] && l !in pool1 {
      assert l in lsA + lsB;
      assert l !in NodesOf(tA);
    }
  }

  lemma BuiltFirst(m: Nodes, pool: seq<Ptr>, ls: seq<Ptr>)
    requires Buildable(m, pool, ls) && ls != []
    ensures ls[0] in m && Built(m, pool, m, pool, ls[..1], Tip(ls[0], m[ls[0]].bb))
  {
    assert ls == ls[..1] + ls[1..] && ls[..1] == [ls[0]];
    BuildablePart(m, pool, ls[..1], ls[1..]);
    BuiltOne(m, pool, ls[0]);
  }

  lemma BuildablePart(m: Nodes, pool: seq<Ptr>, lsA: seq<Ptr>, lsB: seq<Ptr>)
    requires Buildable(m, pool, lsA + lsB)
    ensures Buildable(m, pool, lsA)
  {
    SplitDistinct(lsA, lsB);
    forall l | l in lsA ensures l in lsA + lsB {
    }
  }

  lemma NextLeaf(m0: Nodes, pool0: seq<Ptr>, m1: Nodes, pool1: seq<Ptr>, ls: seq<Ptr>, more: seq<Ptr>, t: BoxTree)
    requires Buildable(m0, pool0, ls + more) && more != [] && Built(m0, pool0, m1, pool1, ls, t)
    ensures var leaf := more[0];
            && leaf in m1 && leaf in m0 && m1[leaf] == m0[leaf] && leaf !in NodesOf(t) && leaf !in pool1
              && leaf != NULL && m1[leaf].obj != NULL && m1[leaf].body.Leaf?
    ensures Buildable(m0, pool0, ls + [more[0]])
  {
    BuildableRest(m0, pool0, m1, pool1, ls, more, t);
    assert ls + more == (ls + [more[0]]) + more[1..];
    BuildablePart(m0, pool0, ls + [more[0]], more[1..]);
    SplitDistinct(ls, more);
    assert more[0] in more;
    assert more[0] in ls + more;
  }

  /** One more leaf is inserted into a finished part. */
  lemma BuiltMore(m0: Nodes, pool0: seq<Ptr>, m1: Nodes, pool1: seq<Ptr>, m2: Nodes, pool2: seq<Ptr>, ls: seq<Ptr>,
                  t: BoxTree, leaf: Ptr, spare: Ptr, r: Ptr)
    requires Buildable(m0, pool0, ls + [leaf]) && Built(m0, pool0, m1, pool1, ls, t)
    requires leaf in m1 && m1[leaf] == m0[leaf] && leaf !in NodesOf(t) && leaf !in pool1
    requires InsertedAt(m1, m2, t, leaf, spare, r, pool1) && (spare in pool1 || spare !in m1) && spare !in pool2
    requires spare != leaf
    requires forall n :: n in pool2 ==> n in pool1 || n !in m1
    ensures Built(m0, pool0, m2, pool2, ls + [leaf], InsertLeaf(t, leaf, m1[leaf].bb, spare))
  {
    var t' := InsertLeaf(t, leaf, m1[leaf].bb, spare);
    RepresentsLeaves(m1, t, m1[t.node].parent);
    LeavesAreNodes(t);
    InsertNodes(t, leaf, m1[leaf].bb, spare);
    InsertProper(t, leaf, m1[leaf].bb, spare);
    InsertBoxOk(t, leaf, m1[leaf].bb, spare);
    MoreFrame(m0, pool0, m1, pool1, m2, pool2, ls, NodesOf(t), leaf, spare);
  }

  lemma MoreFrame(m0: Nodes, pool0: seq<Ptr>, m1: Nodes, pool1: seq<Ptr>, m2: Nodes, pool2: seq<Ptr>, ls: seq<Ptr>,
                  ns: set<Ptr>, leaf: Ptr, spare: Ptr)
    requires Buildable(m0, pool0, ls + [leaf]) && leaf in m1 && m1[leaf] == m0[leaf] && leaf !in pool1
    requires KeptOutside(m0, m1, ns) && SameLeaves(m0, m1, AsSet(ls)) && KeptOutside(m1, m2, ns + {leaf, spare})
    requires LeavesKept(m1, m2, pool1)
    requires (spare in pool1 || spare !in m1) && (forall n :: n in pool1 ==> n in pool0 || n !in m0)
    requires forall n :: n in pool2 ==> n in pool1 || n !in m1
    requires forall n :: n in ns ==> n !in pool1 && n in m1 && (n in ls || n in pool0 || n !in m0)
    requires forall l :: l in ls ==> l in ns
    ensures KeptOutside(m0, m2, ns + {leaf, spare}) && SameLeaves(m0, m2, AsSet(ls + [leaf]))
    ensures forall n :: n in pool2 ==> n in pool0 || n !in m0
    ensures forall n :: n in ns + {leaf, spare} ==> n in ls + [leaf] || n in pool0 || n !in m0
    ensures forall n :: n in ns ==> n !in pool2
  {
    forall l | l in ls + [leaf] ensures l in m0 && m0[l].body.Leaf? && l in m1 && l !in pool1 {
    }
    forall n | n !in m1 ensures n !in m0 {
      assert n in m0 && n !in ns ==> n in m1;
    }
  }

  lemma BuiltPermuted(m0: Nodes, pool0: seq<Ptr>, m: Nodes, pool: seq<Ptr>, ls: seq<Ptr>, ls': seq<Ptr>, t: BoxTree)
    requires Built(m0, pool0, m, pool, ls, t) && multiset(ls) == multiset(ls')
    ensures Built(m0, pool0, m, pool, ls', t)
  {
    forall l ensures l in ls <==> l in ls' {
      assert l in multiset(ls) <==> l in multiset(ls');
    }
    assert AsSet(ls) == AsSet(ls');
  }

  lemma DistinctLast(s: seq<Ptr>, x: Ptr)
    ensures Distinct(s + [x]) <==> Distinct(s) && x !in s
  {
    var t := s + [x];
    if Distinct(t) {
      forall i, j | 0 <= i < j < |s| ensures s[i] != s[j] {
        assert t[i] == s[i] && t[j] == s[j];
      }
      forall i | 0 <= i < |s| ensures s[i] != x {
        assert t[i] == s[i] && t[|s|] == x;
      }
    }
    if Distinct(s) && x !in s {
      forall i, j | 0 <= i < j < |t| ensures t[i] != t[j] {
        assert t[i] == s[i] && (j < |s| ==> t[j] == s[j]);
      }
    }
  }

  lemma {:induction false} DistinctCounts(s: seq<Ptr>)
    ensures Distinct(s) <==> forall x :: multiset(s)[x] <= 1
  {
    if s != [] {
      var r, y := s[..|s| - 1], s[|s| - 1];
      assert s == r + [y];
      DistinctCounts(r);
      DistinctLast(r, y);
      assert multiset(s) == multiset(r) + multiset{y};
      assert y in r <==> multiset(r)[y] > 0;
      assert forall x :: multiset(s)[x] == multiset(r)[x] + if x == y then 1 else 0;
    }
  }

  lemma BuildablePermuted(m: Nodes, pool: seq<Ptr>, ls: seq<Ptr>, ls': seq<Ptr>)
    requires Buildable(m, pool, ls) && multiset(ls) == multiset(ls')
    ensures Buildable(m, pool, ls')
  {
    DistinctCounts(ls);
    DistinctCounts(ls');
    forall l | l in ls' ensures l in ls {
      assert l in multiset(ls');
    }
  }

  // ---- the boxes of the leaves ----

  ghost function BoxesAt(m: Nodes, ls: seq<Ptr>): seq<BB>
    requires forall l :: l in ls ==> l in m
  {
    seq(|ls|, i requires 0 <= i < |ls| => m[ls[i]].bb)
  }

  lemma BoxesAtNext(m: Nodes, ls: seq<Ptr>, i: nat)
    requires (forall l :: l in ls ==> l in m) && i < |ls|
    ensures |BoxesAt(m, ls)| == |ls| && BoxesAt(m, ls)[i] == m[ls[i]].bb
    ensures BoxesAt(m, ls)[..i + 1][..i] == BoxesAt(m, ls)[..i]
  {
  }

  // ---- splitting an array of leaves ----

  /** The leaves up to left stay on the low side, those from right on go to the high side. */
  ghost predicate Sides(m: Nodes, seg: seq<Ptr>, left: nat, right: nat, high: BB -> bool) {
    && left <= right <= |seg| && (forall i :: 0 <= i < |seg| ==> seg[i] in m)
    && (forall i :: 0 <= i < left ==> !high(m[seg[i]].bb))
    && (forall i :: right <= i < |seg| ==> high(m[seg[i]].bb))
  }

  lemma SidesStep(m: Nodes, seg: seq<Ptr>, left: nat, right: nat, high: BB -> bool)
    requires Sides(m, seg, left, right, high) && left < right
    ensures seg[left] in m
    ensures !high(m[seg[left]].bb) ==> Sides(m, seg, left + 1, right, high)
    ensures high(m[seg[left]].bb) ==> Sides(m, Exchanged(seg, left, right - 1), left, right - 1, high)
    ensures multiset(Exchanged(seg, left, right - 1)) == multiset(seg)
  {
    ExchangedSame(seg, left, right - 1);
    if high(m[seg[left]].bb) {
      SidesExchanged(m, seg, left, right, high, Exchanged(seg, left, right - 1));
    }
  }

  lemma SidesExchanged(m: Nodes, seg: seq<Ptr>, left: nat, right: nat, high: BB -> bool, seg': seq<Ptr>)
    requires Sides(m, seg, left, right, high) && left < right && seg' == Exchanged(seg, left, right - 1)
    requires seg[left] in m && high(m[seg[left]].bb)
    ensures Sides(m, seg', left, right - 1, high)
  {
    forall i | 0 <= i < |seg'|
      ensures seg'[i] in m && (i < left ==> !high(m[seg'[i]].bb)) && (i >= right - 1 ==> high(m[seg'[i]].bb))
    {
      assert seg'[i] == if i == right - 1 then seg[left] else if i == left then seg[right - 1] else seg[i];
    }
  }

  /** Is a box strictly cheaper on the high side? */
  function Higher(h: Halves): BB -> bool {
    (bb: BB) => GoesHigh(bb, h.a, h.b)
  }

  /** When every leaf on the high side is strictly cheaper there, some leaf is on the low side. */
  lemma LowSideTaken(m: Nodes, pool: seq<Ptr>, ls: seq<Ptr>, ls': seq<Ptr>, right: nat)
    requires Buildable(m, pool, ls) && ls != [] && multiset(ls) == multiset(ls')
    requires Sides(m, ls', right, right, Higher(HalvesOf(BoxesAt(m, ls))))
    ensures right > 0
  {
    var h := HalvesOf(BoxesAt(m, ls));
    var i := SomeStays(BoxesAt(m, ls));
    assert !Higher(h)(m[ls[i]].bb);
    assert ls[i] in multiset(ls');
    var j :| 0 <= j < |ls'| && ls'[j] == ls[i];
  }

  // ---- the whole tree ----

  lemma RecycledLeaves(m: Nodes, pool: seq<Ptr>, m1: Nodes, pool1: seq<Ptr>, t: BoxTree, ls: seq<Ptr>)
    requires Represents(m, t, NULL) && Proper(t) && (forall n :: n in NodesOf(t) ==> n !in pool)
    requires KeptOutside(m, m1, NodesOf(t) - AsSet(Leaves(t)))
    requires forall n :: n in pool1 ==> n in pool || (n in NodesOf(t) && n !in Leaves(t))
    requires Distinct(ls) && AsSet(ls) == AsSet(Leaves(t)) && forall l :: l in Leaves(t) && l in m ==> Upright(m[l].bb)
    ensures ls != [] && Buildable(m1, pool1, ls) && forall l :: l in Leaves(t) ==> l in m && l in m1 && m1[l] == m[l]
  {
    LeavesAreNodes(t);
    assert Leaves(t)[0] in AsSet(ls);
    RepresentsLeaves(m, t, NULL);
    forall l | l in ls ensures l in Leaves(t) {
      assert l in AsSet(ls);
    }
  }

  /** The rebuilt tree stands where the old one stood. */
  lemma RebuiltHeld(m: Nodes, m1: Nodes, pool1: seq<Ptr>, m2: Nodes, pool2: seq<Ptr>, t: BoxTree, ls: seq<Ptr>,
                    t': BoxTree)
    requires Represents(m, t, NULL) && Proper(t) && AsSet(ls) == AsSet(Leaves(t)) && Built(m1, pool1, m2, pool2, ls, t')
    requires forall l :: l in Leaves(t) ==> l in m && l in m1 && m1[l] == m[l]
    ensures TreeHeld(m2, pool2, t'.node, SomeTree(t')) && AsSet(Leaves(t')) == AsSet(Leaves(t))
    ensures SameLeaves(m, m2, AsSet(Leaves(t)))
  {
    forall l ensures l in Leaves(t') <==> l in Leaves(t) {
      assert l in AsSet(ls) <==> l in AsSet(Leaves(t));
    }
    if t'.Tip? && t.Fork? {
      TwoLeaves(t, t'.node);
    }
  }
}
