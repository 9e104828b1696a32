/** A marking pass over the tree: which pairs it adds and which calls it makes. */
module MarkPass {
  import opened Reals
  import opened Arrays
  import opened Addresses
  import opened Boxes
  import opened TreeMemory
  import opened PairLists
  import opened BoxTrees
  import opened NodeLinks
  import opened BroadPhase
  import opened PairState

  /** One call of a query callback: the two objects and the collision id passed in. */
  datatype Call = Call(obj1: Ptr, obj2: Ptr, id: nat)

  /** The leaves of sc with their boxes; the moved ones carry the current stamp. */
  ghost predicate Shows(m: Nodes, sc: Scene, now: nat) {
    forall l {:trigger l in sc.order} {:trigger l in sc.boxes} :: l in sc.order ==>
      l in m && m[l].body.Leaf? && l in sc.boxes && m[l].bb == sc.boxes[l] && m[l].body.stamp <= now
        && (l in sc.moved <==> m[l].body.stamp == now)
  }

  lemma ShowsKept(m: Nodes, m': Nodes, sc: Scene, now: nat)
    requires Shows(m, sc, now) && OnlyPairs(m, m')
    ensures Shows(m', sc, now)
  {
  }

  /** obj reported with the object of each of hits, in order. */
  ghost function CallsWith(m: Nodes, obj: Ptr, hits: seq<Ptr>): seq<Call> {
    if hits == [] then [] else [Call(obj, ObjOf(m, hits[0]), 0)] + CallsWith(m, obj, hits[1..])
  }

  /** leaf reported with each of hits, in order. */
  ghost function CallsTo(m: Nodes, leaf: Ptr, hits: seq<Ptr>): seq<Call> {
    CallsWith(m, ObjOf(m, leaf), hits)
  }

  lemma CallsWithConcat(m: Nodes, obj: Ptr, a: seq<Ptr>, b: seq<Ptr>)
    ensures CallsWith(m, obj, a + b) == CallsWith(m, obj, a) + CallsWith(m, obj, b)
  {
    if a == [] {
      assert a + b == b;
    } else {
      assert (a + b)[1..] == a[1..] + b;
    }
  }

  lemma CallsToFew(m: Nodes, leaf: Ptr, s: Ptr)
    ensures CallsTo(m, leaf, []) == [] && CallsTo(m, leaf, [s]) == [Call(ObjOf(m, leaf), ObjOf(m, s), 0)]
  {
    assert [s][1..] == [];
  }

  lemma CallsToConcat(m: Nodes, leaf: Ptr, a: seq<Ptr>, b: seq<Ptr>)
    ensures CallsTo(m, leaf, a + b) == CallsTo(m, leaf, a) + CallsTo(m, leaf, b)
  {
    CallsWithConcat(m, ObjOf(m, leaf), a, b);
  }

  lemma CallsFirst(m: Nodes, obj: Ptr, hits: seq<Ptr>)
    ensures forall c :: c in CallsWith(m, obj, hits) ==> c.obj1 == obj
  {
  }

  lemma CallsWithKept(m: Nodes, m': Nodes, obj: Ptr, hits: seq<Ptr>)
    requires OnlyPairs(m, m')
    ensures CallsWith(m', obj, hits) == CallsWith(m, obj, hits)
  {
  }

  lemma CallsToKept(m: Nodes, m': Nodes, leaf: Ptr, hits: seq<Ptr>)
    requires OnlyPairs(m, m')
    ensures CallsTo(m', leaf, hits) == CallsTo(m, leaf, hits)
  {
    CallsWithKept(m, m', ObjOf(m, leaf), hits);
  }

  /** subtree is the root of t in m, fit for a query. */
  ghost predicate Queried(m: Nodes, subtree: Ptr, t: BoxTree) {
    subtree == t.node && subtree in m && Represents(m, t, m[subtree].parent) && BoxOk(t) && Proper(t)
  }

  lemma QueriedKept(m: Nodes, m': Nodes, subtree: Ptr, t: BoxTree)
    requires Queried(m, subtree, t) && OnlyPairs(m, m')
    ensures Queried(m', subtree, t)
  {
    RepresentsBodyFrame(m, m', t, m[subtree].parent);
  }

  ghost predicate AllMeet(sc: Scene, done: set<Ptr>, leaf: Ptr, part: set<Ptr>, t: BoxTree, left: bool) {
    forall s :: s in Leaves(t) ==> Meets(sc, done, leaf, part, s, left)
  }

  lemma MeetBoth(sc: Scene, done: set<Ptr>, leaf: Ptr, part: set<Ptr>, t: BoxTree, left: bool)
    requires t.Fork? && Proper(t) && AllMeet(sc, done, leaf, part, t, left)
    ensures AllMeet(sc, done, leaf, part, t.left, left)
    ensures AllMeet(sc, done, leaf, part + AsSet(Leaves(t.left)), t.right, left)
  {
    LeavesAreNodes(t.left);
    LeavesAreNodes(t.right);
    forall s | s in Leaves(t.right) ensures Meets(sc, done, leaf, part + AsSet(Leaves(t.left)), s, left) {
      assert s in Leaves(t) && Meets(sc, done, leaf, part, s, left);
      assert s in NodesOf(t.right) && s !in NodesOf(t.left);
    }
  }

  lemma QueriedChildren(m: Nodes, subtree: Ptr, t: BoxTree)
    requires Queried(m, subtree, t)
    ensures m[subtree].bb == t.box && (m[subtree].obj != NULL <==> t.Tip?)
    ensures t.Fork? ==>
      m[subtree].body == Children(t.left.node, t.right.node) && Queried(m, t.left.node, t.left)
      && Queried(m, t.right.node, t.right)
  {
    if t.Fork? {
      assert Represents(m, t.left, subtree) && Represents(m, t.right, subtree);
    }
  }

  lemma OneTold(m: Nodes, subtree: Ptr, t: BoxTree, func: Ptr -> real, tExit: real)
    requires Queried(m, subtree, t) && t.Tip?
    ensures Nearest(t, m, func) == func(m[subtree].obj)
    ensures LeastOf([m[subtree].obj], func, tExit) == Min(tExit, func(m[subtree].obj))
    ensures ObjectsOf([m[subtree].obj], m, t)
  {
    assert subtree in Leaves(t);
    assert IsObject(m[subtree].obj, m, t);
    assert [m[subtree].obj][..0] == [] && LeastOf([], func, tExit) == tExit;
  }

  /** A subtree whose box misses the leaf's box has no leaf to pair it with. */
  lemma MarkMisses(m: Nodes, edges: Edges, subtree: Ptr, t: BoxTree, sc: Scene, now: nat, done: set<Ptr>, leaf: Ptr,
                   part: set<Ptr>, left: bool)
    requires Queried(m, subtree, t) && Shows(m, sc, now) && leaf in sc.order && !Intersects(m[leaf].bb, m[subtree].bb)
    requires AllMeet(sc, done, leaf, part, t, left) && Marking(edges, sc, done, leaf, part)
    ensures Marking(edges, sc, done, leaf, part + AsSet(Leaves(t))) && Scan(t, sc.boxes[leaf]) == []
  {
    PrunedScan(t, sc.boxes[leaf]);
    forall s | s in Leaves(t) ensures s in sc.order && s != leaf && !Overlap(sc, leaf, s) {
      assert Meets(sc, done, leaf, part, s, left);
      ScanMeaning(t, sc.boxes[leaf], s);
      RepresentsBoxOf(m, t, m[subtree].parent, s);
    }
    MarkSkips(edges, sc, done, leaf, part, AsSet(Leaves(t)));
  }

  lemma MarkChains(n: Nodes, n1: Nodes, n2: Nodes, e: Edges, e1: Edges, e2: Edges, m: Pairs, m1: Pairs, m2: Pairs,
                   sc: Scene, leaf: Ptr)
    requires OnlyPairs(n, n1) && OnlyPairs(n1, n2)
    requires PairsGrown(e, e1, m, m1, sc, leaf) && PairsGrown(e1, e2, m1, m2, sc, leaf)
    requires e.Keys <= m1.Keys && e1.Keys <= m2.Keys
    ensures OnlyPairs(n, n2) && PairsGrown(e, e2, m, m2, sc, leaf)
  {
    OnlyPairsTrans(n, n1, n2);
  }

  /** The tree around the hole p, one level up. */
  ghost function Up(p: Path, c: BoxTree): BoxTree
    requires !p.Top?
  {
    if p.InA? then Fork(p.node, p.box, c, p.sibling) else Fork(p.node, p.box, p.sibling, c)
  }

  /** Of the moved leaves exactly those before leaf have been marked. */
  ghost predicate DoneBefore(sc: Scene, done: set<Ptr>, leaf: Ptr) {
    leaf !in done && forall s :: s in sc.order && s in sc.moved ==> (s in done <==> Before(sc.order, s, leaf))
  }

  /** In the climb of MarkLeaf: c is the part of the tree t around leaf that has been checked, p the rest. */
  ghost predicate Climbing(m: Nodes, p: Path, c: BoxTree, t: BoxTree, sc: Scene, done: set<Ptr>, leaf: Ptr) {
    && Plug(p, c) == t && Represents(m, t, NULL) && BoxOk(t) && Proper(t) && sc.order == Leaves(t)
    && leaf in Leaves(c) && leaf in sc.moved && DoneBefore(sc, done, leaf)
  }

  lemma ClimbFacts(m: Nodes, p: Path, c: BoxTree, t: BoxTree, sc: Scene, done: set<Ptr>, leaf: Ptr)
    requires Climbing(m, p, c, t, sc, done, leaf)
    ensures c.node in m && m[c.node].parent == Holder(p)
    ensures !p.Top? ==>
      && p.node in m
        && m[p.node].body == (if p.InA? then Children(c.node, p.sibling.node) else Children(p.sibling.node, c.node))
      && c.node != p.sibling.node && Queried(m, p.sibling.node, p.sibling) && p.node != NULL
        && Plug(p.up, Up(p, c)) == t
      && forall s :: s in Leaves(p.sibling) ==> s !in Leaves(c)
  {
    PlugRepresents(m, p, c);
    PlugProper(p, c);
    PlugBoxOk(p, c);
    if !p.Top? {
      LeavesAreNodes(c);
      LeavesAreNodes(p.sibling);
    }
  }

  lemma ClimbApart(p: Path, c: BoxTree, order: seq<Ptr>, s: Ptr)
    requires !p.Top? && order == Leaves(Plug(p, c)) && Distinct(order) && s in Leaves(p.sibling)
    ensures s !in Leaves(c)
  {
    PlugLeaves(p.up, Up(p, c));
    var before, after := LeavesBefore(p.up), LeavesAfter(p.up);
    if s in Leaves(c) {
      if p.InA? {
        SplitBefore(order, before, Leaves(c), Leaves(p.sibling), after, s, s);
      } else {
        SplitBefore(order, before, Leaves(p.sibling), Leaves(c), after, s, s);
      }
    }
  }

  /** The sibling of an A child comes after it in tree order, the sibling of a B child before it. */
  lemma ClimbOrder(p: Path, c: BoxTree, order: seq<Ptr>, leaf: Ptr, s: Ptr)
    requires !p.Top? && order == Leaves(Plug(p, c)) && Distinct(order) && leaf in Leaves(c) && s in Leaves(p.sibling)
    ensures leaf in order && s in order && s !in Leaves(c) && s != leaf
    ensures if p.InA? then Before(order, leaf, s) && !Before(order, s, leaf) else Before(order, s, leaf)
  {
    ClimbApart(p, c, order, s);
    PlugLeaves(p.up, Up(p, c));
    var before, after := LeavesBefore(p.up), LeavesAfter(p.up);
    if p.InA? {
      SplitBefore(order, before, Leaves(c), Leaves(p.sibling), after, leaf, s);
    } else {
      SplitBefore(order, before, Leaves(p.sibling), Leaves(c), after, s, leaf);
    }
  }

  lemma ClimbMeets(p: Path, c: BoxTree, t: BoxTree, sc: Scene, done: set<Ptr>, leaf: Ptr)
    requires Plug(p, c) == t && !p.Top? && sc.order == Leaves(t) && Distinct(sc.order) && leaf in Leaves(c)
    requires leaf in sc.moved && DoneBefore(sc, done, leaf)
    ensures AllMeet(sc, done, leaf, AsSet(Leaves(c)) - {leaf}, p.sibling, p.InA?)
  {
    forall s | s in Leaves(p.sibling) ensures Meets(sc, done, leaf, AsSet(Leaves(c)) - {leaf}, s, p.InA?) {
      ClimbOrder(p, c, sc.order, leaf, s);
    }
  }

  lemma UpLeaves(p: Path, c: BoxTree, leaf: Ptr)
    requires !p.Top? && leaf !in Leaves(p.sibling)
    ensures (AsSet(Leaves(c)) - {leaf}) + AsSet(Leaves(p.sibling)) == AsSet(Leaves(Up(p, c))) - {leaf}
  {
  }

  lemma ClimbKept(m: Nodes, m': Nodes, p: Path, c: BoxTree, t: BoxTree, sc: Scene, done: set<Ptr>, leaf: Ptr)
    requires Climbing(m, p, c, t, sc, done, leaf) && OnlyPairs(m, m')
    ensures Climbing(m', p, c, t, sc, done, leaf)
    ensures !p.Top? ==> Climbing(m', p.up, Up(p, c), t, sc, done, leaf)
  {
    RepresentsBodyFrame(m, m', t, NULL);
  }

  lemma ClimbStarts(m: Nodes, t: BoxTree, sc: Scene, done: set<Ptr>, leaf: Ptr)
    requires Climbing(m, Top, t, t, sc, done, leaf)
    ensures Climbing(m, PathTo(Top, t, leaf), Tip(leaf, BoxOf(t, leaf)), t, sc, done, leaf)
    ensures leaf in m && m[leaf].parent == Holder(PathTo(Top, t, leaf)) && leaf in sc.order
    ensures EarlierHits(sc, leaf, [], [leaf])
  {
    PathPlugs(Top, t, leaf);
    ClimbFacts(m, PathTo(Top, t, leaf), Tip(leaf, BoxOf(t, leaf)), t, sc, done, leaf);
  }

  lemma ScanDistinct(t: BoxTree, bb: BB)
    requires Proper(t)
    ensures Distinct(Scan(t, bb)) && forall s :: s in Scan(t, bb) ==> s in NodesOf(t)
  {
    if t.Fork? {
      ScanDistinct(t.left, bb);
      ScanDistinct(t.right, bb);
      DistinctConcat(Scan(t.left, bb), Scan(t.right, bb));
    }
  }

  lemma DistinctConcat<T(!new)>(a: seq<T>, b: seq<T>)
    requires Distinct(a) && Distinct(b) && forall x :: x in a ==> x !in b
    ensures Distinct(a + b)
  {
    var c := a + b;
    forall i, j | 0 <= i < j < |c| ensures c[i] != c[j] {
      assert i < |a| <= j ==> c[i] in a && c[j] in b;
    }
  }

  lemma SiblingHits(m: Nodes, p: Path, c: BoxTree, t: BoxTree, sc: Scene, done: set<Ptr>, leaf: Ptr, s: Ptr)
    requires Climbing(m, p, c, t, sc, done, leaf) && !p.Top? && SceneOk(sc) && leaf in sc.order
    requires forall l :: l in sc.order ==> l in m && m[l].bb == sc.boxes[l]
    ensures s in Leaves(p.sibling) ==>
      s in sc.order && s != leaf && s !in Leaves(c) && (Before(sc.order, s, leaf) <==> p.InB?)
    ensures s in Scan(p.sibling, sc.boxes[leaf]) <==> s in Leaves(p.sibling) && Overlap(sc, leaf, s)
  {
    ClimbFacts(m, p, c, t, sc, done, leaf);
    ScanMeaning(p.sibling, sc.boxes[leaf], s);
    if s in Leaves(p.sibling) {
      ClimbOrder(p, c, sc.order, leaf, s);
      BeforeAsym(sc.order, s, leaf);
      RepresentsBoxOf(m, p.sibling, m[p.sibling.node].parent, s);
    }
  }

  /** The hits collected below the sibling are those of the part of the tree now checked. */
  lemma ClimbHits(m: Nodes, p: Path, c: BoxTree, t: BoxTree, sc: Scene, done: set<Ptr>, leaf: Ptr, hits: seq<Ptr>)
    requires Climbing(m, p, c, t, sc, done, leaf) && !p.Top? && SceneOk(sc) && leaf in sc.order
    requires EarlierHits(sc, leaf, hits, Leaves(c))
    requires forall l :: l in sc.order ==> l in m && m[l].bb == sc.boxes[l]
    ensures var more := if p.InA? then [] else Scan(p.sibling, sc.boxes[leaf]);
            EarlierHits(sc, leaf, hits + more, Leaves(Up(p, c)))
              && CallsTo(m, leaf, hits + more) == CallsTo(m, leaf, hits) + CallsTo(m, leaf, more)
  {
    var more := if p.InA? then [] else Scan(p.sibling, sc.boxes[leaf]);
    CallsToConcat(m, leaf, hits, more);
    ClimbFacts(m, p, c, t, sc, done, leaf);
    ScanDistinct(p.sibling, sc.boxes[leaf]);
    forall s ensures s in more <==> s in Leaves(p.sibling) && Before(sc.order, s, leaf) && Overlap(sc, leaf, s)
             ensures s in Leaves(p.sibling) ==> s != leaf && s !in Leaves(c)
    {
      SiblingHits(m, p, c, t, sc, done, leaf, s);
    }
    DistinctConcat(hits, more);
  }

  // ---- answering from the cache ----

  ghost function CachedHits(edges: Edges, leaf: Ptr, s: seq<Ptr>): seq<Ptr> {
    if s == [] then [] else
    var p := s[|s| - 1];
    CachedHits(edges, leaf, s[..|s| - 1]) + if p in edges && edges[p].1 == leaf then [edges[p].0] else []
  }

  /** The calls for the pairs in s whose second leaf is leaf. */
  ghost function CachedCalls(m: Nodes, pairs: Pairs, edges: Edges, leaf: Ptr, s: seq<Ptr>): seq<Call> {
    if s == [] then [] else
    var p := s[|s| - 1];
    CachedCalls(m, pairs, edges, leaf, s[..|s| - 1]) +
    if p in edges && p in pairs && edges[p].1 == leaf then [Call(ObjOf(m, edges[p].0), ObjOf(m, leaf), pairs[p].id)]
      else []
  }

  ghost predicate SameThreads(m: Pairs, m': Pairs) {
    m'.Keys == m.Keys && forall p :: p in m ==> m'[p].a == m[p].a && m'[p].b == m[p].b
  }

  /** The pairs in s whose second leaf is leaf carry the id returned by func for their old id; the others keep
      theirs. */
  ghost predicate IdsRefreshed(m: Nodes, pairs: Pairs, edges: Edges, leaf: Ptr, s: seq<Ptr>,
                               func: (Ptr, Ptr, nat) -> nat, pairs': Pairs) {
    forall p :: p in edges && p in pairs && p in pairs' ==>
      pairs'[p].id == if p in s && edges[p].1 == leaf then func(ObjOf(m, edges[p].0), ObjOf(m, leaf), pairs[p].id)
        else pairs[p].id
  }

  ghost predicate CachedAt(m: Nodes, pairs: Pairs, edges: Edges, leaf: Ptr, s: seq<Ptr>, i: int) {
    && 0 <= i < |s| && s[i] in edges && s[i] in pairs && Joins(edges[s[i]], leaf) && edges[s[i]].0 != edges[s[i]].1
      && edges[s[i]].0 in m
    && pairs[s[i]].a.leaf == edges[s[i]].0 && pairs[s[i]].b.leaf == edges[s[i]].1
    && ThreadOf(pairs[s[i]], leaf).next == PairAt(s, i + 1)
  }

  /** What MarkCached reads along the list of leaf. */
  ghost predicate CachedList(m: Nodes, pairs: Pairs, edges: Edges, leaf: Ptr, s: seq<Ptr>) {
    && leaf in m && NULL !in s && Distinct(s) && NULL !in pairs
    && forall i {:trigger CachedAt(m, pairs, edges, leaf, s, i)} ::
      0 <= i < |s| ==> CachedAt(m, pairs, edges, leaf, s, i)
  }

  lemma ListOfLeaf(nodes: Nodes, pairs: Pairs, brk: nat, head: Ptr, pool: seq<Ptr>, edges: Edges, lists: Lists,
                   leaf: Ptr)
    requires PairStateOk(nodes, pairs, brk, head, pool, edges, lists) && leaf in lists
    ensures CachedList(nodes, pairs, edges, leaf, lists[leaf]) && nodes[leaf].body.pairs == PairAt(lists[leaf], 0)
  {
    var s := lists[leaf];
    assert ListOk(pairs, HeadsOf(nodes, lists.Keys)[leaf], leaf, s);
    ListMembers(pairs, edges, lists, leaf);
    forall i | 0 <= i < |s| ensures CachedAt(nodes, pairs, edges, leaf, s, i) {
      assert Linked(pairs, leaf, s, i);
    }
  }

  ghost predicate IsSecond(edges: Edges, p: Ptr, leaf: Ptr) {
    p in edges && edges[p].1 == leaf
  }

  /** One round of the walk: the call and the new id for the i-th pair. */
  lemma CachedPair(m: Nodes, pairs0: Pairs, edges: Edges, leaf: Ptr, s: seq<Ptr>, i: nat,
                   func: (Ptr, Ptr, nat) -> nat, pairs: Pairs)
    requires CachedList(m, pairs0, edges, leaf, s) && i < |s| && SameThreads(pairs0, pairs)
    requires IdsRefreshed(m, pairs0, edges, leaf, s[..i], func, pairs)
    ensures s[i] in pairs && s[i] in edges && pairs[s[i]].a.leaf == edges[s[i]].0 && edges[s[i]].0 in m && leaf in m
    ensures pairs[s[i]].b.leaf == leaf <==> IsSecond(edges, s[i], leaf)
    ensures PairAt(s, i + 1) == if IsSecond(edges, s[i], leaf) then pairs[s[i]].b.next else pairs[s[i]].a.next
    ensures CachedCalls(m, pairs0, edges, leaf, s[..i + 1]) == CachedCalls(m, pairs0, edges, leaf, s[..i]) +
              if IsSecond(edges, s[i], leaf) then [Call(ObjOf(m, edges[s[i]].0), ObjOf(m, leaf), pairs[s[i]].id)]
                else []
    ensures var pairs' := if IsSecond(edges, s[i], leaf)
                          then pairs[s[i] :=
                            pairs[s[i]].(id := func(ObjOf(m, edges[s[i]].0), ObjOf(m, leaf), pairs[s[i]].id))]
                            else pairs;
            SameThreads(pairs0, pairs') && IdsRefreshed(m, pairs0, edges, leaf, s[..i + 1], func, pairs')
  {
    assert CachedAt(m, pairs0, edges, leaf, s, i);
    assert s[..i + 1] == s[..i] + [s[i]] && s[..i + 1][..i] == s[..i];
    assert s[i] !in s[..i];
  }

  /** The calls made stand for these pairs of leaves, in order. */
  ghost predicate Matches(m: Nodes, calls: seq<Call>, reports: seq<(Ptr, Ptr)>) {
    |calls| == |reports| && forall i :: 0 <= i < |calls| ==>
      calls[i].obj1 == ObjOf(m, reports[i].0) && calls[i].obj2 == ObjOf(m, reports[i].1)
  }

  lemma MatchesConcat(m: Nodes, m': Nodes, callsA: seq<Call>, reportsA: seq<(Ptr, Ptr)>, callsB: seq<Call>,
                      reportsB: seq<(Ptr, Ptr)>)
    requires Matches(m, callsA, reportsA) && OnlyPairs(m, m') && Matches(m', callsB, reportsB)
    ensures Matches(m', callsA + callsB, reportsA + reportsB)
  {
  }

  lemma CallsToMatch(m: Nodes, leaf: Ptr, hits: seq<Ptr>)
    ensures Matches(m, CallsTo(m, leaf, hits), ReportsTo(leaf, hits))
  {
    if hits != [] {
      CallsToMatch(m, leaf, hits[1..]);
    }
  }

  ghost function CachedReports(edges: Edges, leaf: Ptr, s: seq<Ptr>): seq<(Ptr, Ptr)> {
    if s == [] then [] else
    var p := s[|s| - 1];
    CachedReports(edges, leaf, s[..|s| - 1]) + if IsSecond(edges, p, leaf) then [edges[p]] else []
  }

  lemma CachedMatch(m: Nodes, pairs: Pairs, edges: Edges, leaf: Ptr, s: seq<Ptr>)
    requires forall p :: p in s ==> p in pairs
    ensures Matches(m, CachedCalls(m, pairs, edges, leaf, s), CachedReports(edges, leaf, s))
  {
    if s != [] {
      CachedMatch(m, pairs, edges, leaf, s[..|s| - 1]);
    }
  }

  /** The first leaves of the pairs in s whose second leaf is leaf. */
  lemma CachedHitsMeaning(edges: Edges, leaf: Ptr, s: seq<Ptr>)
    requires Unique(edges) && Distinct(s)
    ensures forall x :: x in CachedHits(edges, leaf, s) <==> exists p :: p in s && p in edges && edges[p] == (x, leaf)
    ensures Distinct(CachedHits(edges, leaf, s))
    ensures |CachedReports(edges, leaf, s)| == |CachedHits(edges, leaf, s)|
    ensures forall i ::
      0 <= i < |CachedHits(edges, leaf, s)|
      ==> CachedReports(edges, leaf, s)[i] == (CachedHits(edges, leaf, s)[i], leaf)
  {
    if s != [] {
      var r, p := s[..|s| - 1], s[|s| - 1];
      CachedHitsMeaning(edges, leaf, r);
      assert s == r + [p];
      assert p !in r;
      forall x ensures x in CachedHits(edges, leaf, s) <==> exists q :: q in s && q in edges && edges[q] == (x, leaf) {
        if q :| q in s && q in edges && edges[q] == (x, leaf) {
          assert q == p || q in r;
        }
      }
      assert IsSecond(edges, p, leaf) ==> forall q :: q in r && q in edges ==> !Ends(edges[q], edges[p].0, edges[p].1);
    }
  }

  lemma CachedExpected(edges: Edges, lists: Lists, e0: Edges, sc: Scene, done: set<Ptr>, leaf: Ptr)
    requires SceneOk(sc) && Marked(edges, sc, done) && EdgesGrown(e0, edges, sc) && leaf in sc.order
    requires leaf !in sc.moved && DoneBefore(sc, done, leaf)
    requires leaf in lists && Threaded(edges, lists) && Distinct(lists[leaf])
    ensures AsExpected(e0, sc, {leaf}, CachedReports(edges, leaf, lists[leaf]))
  {
    var s := lists[leaf];
    CachedHitsMeaning(edges, leaf, s);
    forall x ensures x in CachedHits(edges, leaf, s) <==> exists p :: p in edges && edges[p] == (x, leaf) {
      if p :| p in edges && edges[p] == (x, leaf) {
        assert Joins(edges[p], leaf);
        assert p in s;
      }
    }
    UnmovedReports(edges, e0, sc, done, leaf, CachedHits(edges, leaf, s), CachedReports(edges, leaf, s));
  }

  // ---- the pass over the tree ----

  ghost predicate Pass(m: Nodes, t: BoxTree, sc: Scene) {
    Represents(m, t, NULL) && BoxOk(t) && Proper(t) && sc.order == Leaves(t)
  }

  ghost predicate Visiting(m: Nodes, t: BoxTree, sc: Scene, done: set<Ptr>, leaf: Ptr) {
    Pass(m, t, sc) && leaf in sc.order && DoneBefore(sc, done, leaf) && AllEarlier(sc, done, leaf)
  }

  lemma PassKept(m: Nodes, m': Nodes, t: BoxTree, sc: Scene)
    requires Pass(m, t, sc) && OnlyPairs(m, m')
    ensures Pass(m', t, sc)
  {
    RepresentsBodyFrame(m, m', t, NULL);
  }

  /** When the leaves before leaf have been visited, leaf is next. */
  lemma VisitNext(m: Nodes, t: BoxTree, sc: Scene, prefix: seq<Ptr>, leaf: Ptr, suffix: seq<Ptr>)
    requires Pass(m, t, sc) && SceneOk(sc) && sc.order == prefix + [leaf] + suffix
    ensures Visiting(m, t, sc, AsSet(prefix), leaf)
  {
    assert sc.order[|prefix|] == leaf;
    assert forall s :: s in prefix ==> s in sc.order;
    forall s | s in sc.order ensures s in prefix <==> Before(sc.order, s, leaf) {
      if s in prefix {
        var i :| 0 <= i < |prefix| && prefix[i] == s;
        assert sc.order[i] == s;
      }
      if Before(sc.order, s, leaf) {
        var i, j :| 0 <= i < j < |sc.order| && sc.order[i] == s && sc.order[j] == leaf;
        assert j == |prefix|;
        assert prefix[i] == s;
      }
    }
  }

  lemma Regrouped(prefix: seq<Ptr>, la: seq<Ptr>, lb: seq<Ptr>, suffix: seq<Ptr>)
    ensures prefix + (la + lb) + suffix == prefix + la + (lb + suffix) == (prefix + la) + lb + suffix
    ensures prefix + la + lb == prefix + (la + lb) && AsSet(la) + AsSet(lb) == AsSet(la + lb)
  {
  }

  lemma HalvesOrder(t: BoxTree, prefix: seq<Ptr>, suffix: seq<Ptr>)
    requires t.Fork? && Proper(t)
    ensures var la, lb := Leaves(t.left), Leaves(t.right);
            && AsSet(la) !! AsSet(lb) && AsSet(la) + AsSet(lb) == AsSet(Leaves(t))
            && prefix + Leaves(t) + suffix == prefix + la + (lb + suffix) == (prefix + la) + lb + suffix
            && prefix + la + lb == prefix + Leaves(t)
  {
    LeavesAreNodes(t.left);
    LeavesAreNodes(t.right);
    Regrouped(prefix, Leaves(t.left), Leaves(t.right), suffix);
  }

  lemma StateSameThreads(nodes: Nodes, pairs: Pairs, brk: nat, head: Ptr, pool: seq<Ptr>, edges: Edges, lists: Lists,
                         pairs': Pairs)
    requires PairStateOk(nodes, pairs, brk, head, pool, edges, lists) && SameThreads(pairs, pairs')
    ensures PairStateOk(nodes, pairs', brk, head, pool, edges, lists)
  {
    var heads := HeadsOf(nodes, lists.Keys);
    forall l | l in lists ensures ListOk(pairs', heads[l], l, lists[l]) {
      ListMembers(pairs, edges, lists, l);
      assert ListOk(pairs, heads[l], l, lists[l]);
      KeptList(pairs, heads[l], l, lists[l], pairs');
    }
    forall i | 0 <= i < |pool| ensures PoolLink(pairs', pool, i) {
      assert PoolLink(pairs, pool, i);
    }
  }

  /** New pairs touch moved leaves only; no pair is lost. */
  ghost predicate EdgesGrown(e: Edges, e': Edges, sc: Scene) {
    && (forall p :: p in e ==> p in e' && e'[p] == e[p])
    && (forall p :: p in e' && p !in e ==> e'[p].0 in sc.moved || e'[p].1 in sc.moved)
  }

  /** While leaf is marked: the pairs that have come since touch leaf, and their id is 0; the others keep theirs. */
  ghost predicate PairsGrown(e: Edges, e': Edges, m: Pairs, m': Pairs, sc: Scene, leaf: Ptr) {
    && EdgesGrown(e, e', sc) && IdsKept(e, m, m')
    && forall p :: p in e' && p !in e ==> p in m' && m'[p].id == 0 && Joins(e'[p], leaf)
  }

  lemma GrownByOne(e: Edges, m: Pairs, m': Pairs, sc: Scene, leaf: Ptr, p: Ptr, ends: (Ptr, Ptr))
    requires p !in e && (ends.0 in sc.moved || ends.1 in sc.moved) && Joins(ends, leaf)
    requires IdsKept(e, m, m') && p in m' && m'[p].id == 0
    ensures PairsGrown(e, e[p := ends], m, m', sc, leaf)
  {
  }

  // ---- collision ids ----

  /** The id with which pair p enters the pass that began with e and m: the stored one, or 0 for a new pair. */
  ghost function IdBefore(e: Edges, m: Pairs, p: Ptr): nat {
    if p in e && p in m then m[p].id else 0
  }

  /** A pair is passed to func when its second leaf is visited, unless that leaf has moved. */
  ghost function IdDue(n: Nodes, ends: (Ptr, Ptr), id: nat, sc: Scene, done: set<Ptr>,
                       func: (Ptr, Ptr, nat) -> nat): nat
  {
    if ends.1 in done && ends.1 !in sc.moved then func(ObjOf(n, ends.0), ObjOf(n, ends.1), id) else id
  }

  /** When the leaves in done have been visited, every pair carries the id it should. */
  ghost predicate IdsDue(n: Nodes, e: Edges, m: Pairs, e0: Edges, m0: Pairs, sc: Scene, done: set<Ptr>,
                         func: (Ptr, Ptr, nat) -> nat) {
    && EdgesGrown(e0, e, sc)
    && forall p :: p in e && p in m ==> m[p].id == IdDue(n, e[p], IdBefore(e0, m0, p), sc, done, func)
  }

  ghost predicate AllEarlier(sc: Scene, done: set<Ptr>, leaf: Ptr) {
    forall s :: s in done ==> s in sc.order && Before(sc.order, s, leaf)
  }

  lemma SameDue(n: Nodes, n': Nodes, ends: (Ptr, Ptr), id: nat, sc: Scene, done: set<Ptr>, leaf: Ptr,
                func: (Ptr, Ptr, nat) -> nat)
    requires OnlyPairs(n, n') && leaf in sc.moved
    ensures IdDue(n', ends, id, sc, done + {leaf}, func) == IdDue(n, ends, id, sc, done, func)
  {
    assert ObjOf(n', ends.0) == ObjOf(n, ends.0) && ObjOf(n', ends.1) == ObjOf(n, ends.1);
  }

  lemma NewDue(n: Nodes, ends: (Ptr, Ptr), sc: Scene, done: set<Ptr>, leaf: Ptr, func: (Ptr, Ptr, nat) -> nat)
    requires leaf in sc.moved && Distinct(sc.order) && Joins(ends, leaf) && leaf in sc.order && ends.1 in sc.order
    requires ends.0 != ends.1 && Before(sc.order, ends.0, ends.1) && AllEarlier(sc, done, leaf)
    ensures IdDue(n, ends, 0, sc, done + {leaf}, func) == 0
  {
    if ends.1 != leaf {
      BeforeAsym(sc.order, leaf, ends.1);
    }
  }

  lemma MovedIds(n: Nodes, n': Nodes, e: Edges, e': Edges, m: Pairs, m': Pairs, e0: Edges, m0: Pairs, sc: Scene,
                 done: set<Ptr>, leaf: Ptr, func: (Ptr, Ptr, nat) -> nat)
    requires OnlyPairs(n, n') && IdsDue(n, e, m, e0, m0, sc, done, func) && PairsGrown(e, e', m, m', sc, leaf)
    requires leaf in sc.moved && leaf in sc.order && SceneOk(sc) && Oriented(e', sc) && Within(e', sc)
    requires AllEarlier(sc, done, leaf) && e.Keys <= m.Keys
    ensures IdsDue(n', e', m', e0, m0, sc, done + {leaf}, func)
  {
    forall p | p in e' && p in m'
      ensures m'[p].id == IdDue(n', e'[p], IdBefore(e0, m0, p), sc, done + {leaf}, func)
    {
      if p in e {
        SameDue(n, n', e[p], IdBefore(e0, m0, p), sc, done, leaf, func);
      } else {
        NewDue(n', e'[p], sc, done, leaf, func);
      }
    }
  }

  lemma UnmovedIds(n: Nodes, e: Edges, m: Pairs, m': Pairs, e0: Edges, m0: Pairs, sc: Scene, done: set<Ptr>, leaf: Ptr,
                   s: seq<Ptr>, func: (Ptr, Ptr, nat) -> nat)
    requires IdsDue(n, e, m, e0, m0, sc, done, func) && leaf !in done && leaf !in sc.moved && SameThreads(m, m')
    requires IdsRefreshed(n, m, e, leaf, s, func, m') && forall p :: p in e && Joins(e[p], leaf) ==> p in s
    ensures IdsDue(n, e, m', e0, m0, sc, done + {leaf}, func)
  {
    forall p | p in e && p in m' ensures m'[p].id == IdDue(n, e[p], IdBefore(e0, m0, p), sc, done + {leaf}, func) {
      assert Joins(e[p], leaf) ==> p in s;
    }
  }

  /** A call about two unmoved leaves passes the stored id of their pair, any other call passes 0. */
  ghost predicate CallIdOk(e0: Edges, m0: Pairs, sc: Scene, call: Call, r: (Ptr, Ptr)) {
    || (exists p :: p in e0 && p in m0 && e0[p] == r && call.id == m0[p].id)
    || (call.id == 0 && (r.0 in sc.moved || r.1 in sc.moved))
  }

  ghost predicate IdsTold(e0: Edges, m0: Pairs, sc: Scene, calls: seq<Call>, reports: seq<(Ptr, Ptr)>) {
    |calls| == |reports| && forall i :: 0 <= i < |calls| ==> CallIdOk(e0, m0, sc, calls[i], reports[i])
  }

  lemma ToldConcat(e0: Edges, m0: Pairs, sc: Scene, callsA: seq<Call>, reportsA: seq<(Ptr, Ptr)>, callsB: seq<Call>,
                   reportsB: seq<(Ptr, Ptr)>)
    requires IdsTold(e0, m0, sc, callsA, reportsA) && IdsTold(e0, m0, sc, callsB, reportsB)
    ensures IdsTold(e0, m0, sc, callsA + callsB, reportsA + reportsB)
  {
  }

  lemma {:induction false} MovedTold(n: Nodes, e0: Edges, m0: Pairs, sc: Scene, leaf: Ptr, hits: seq<Ptr>)
    requires leaf in sc.moved
    ensures IdsTold(e0, m0, sc, CallsTo(n, leaf, hits), ReportsTo(leaf, hits))
  {
    if hits != [] {
      MovedTold(n, e0, m0, sc, leaf, hits[1..]);
    }
  }

  lemma {:induction false} CachedTold(n: Nodes, e: Edges, m: Pairs, e0: Edges, m0: Pairs, sc: Scene, done: set<Ptr>,
                                      func: (Ptr, Ptr, nat) -> nat, leaf: Ptr, s: seq<Ptr>)
    requires IdsDue(n, e, m, e0, m0, sc, done, func) && leaf !in done && e0.Keys <= m0.Keys
    requires forall p :: p in s ==> p in m
    ensures IdsTold(e0, m0, sc, CachedCalls(n, m, e, leaf, s), CachedReports(e, leaf, s))
  {
    if s != [] {
      CachedTold(n, e, m, e0, m0, sc, done, func, leaf, s[..|s| - 1]);
      var p := s[|s| - 1];
      if IsSecond(e, p, leaf) {
        var call := Call(ObjOf(n, e[p].0), ObjOf(n, leaf), m[p].id);
        assert CallIdOk(e0, m0, sc, call, e[p]);
        ToldConcat(e0, m0, sc, CachedCalls(n, m, e, leaf, s[..|s| - 1]), CachedReports(e, leaf, s[..|s| - 1]), [call],
          [e[p]]);
      }
    }
  }

  /** The calls of the visits to the leaves in visited: whom they are about, and with which ids. */
  ghost predicate Answered(n: Nodes, calls: seq<Call>, reports: seq<(Ptr, Ptr)>, e0: Edges, m0: Pairs, sc: Scene,
                           visited: set<Ptr>) {
    Matches(n, calls, reports) && AsExpected(e0, sc, visited, reports) && IdsTold(e0, m0, sc, calls, reports)
  }

  lemma AnsweredBoth(n: Nodes, n': Nodes, callsA: seq<Call>, reportsA: seq<(Ptr, Ptr)>, callsB: seq<Call>,
                     reportsB: seq<(Ptr, Ptr)>, e0: Edges, m0: Pairs, sc: Scene, a: set<Ptr>, b: set<Ptr>)
    requires Answered(n, callsA, reportsA, e0, m0, sc, a) && Answered(n', callsB, reportsB, e0, m0, sc, b)
    requires OnlyPairs(n, n') && a !! b
    ensures Answered(n', callsA + callsB, reportsA + reportsB, e0, m0, sc, a + b)
  {
    MatchesConcat(n, n', callsA, reportsA, callsB, reportsB);
    ReportsAddUp(e0, sc, a, b, reportsA, reportsB);
    ToldConcat(e0, m0, sc, callsA, reportsA, callsB, reportsB);
  }

  ghost predicate Named(n: Nodes, e0: Edges, m0: Pairs, sc: Scene, c: Call) {
    exists r: (Ptr, Ptr) :: r.0 in sc.order && r.1 in sc.order && c.obj1 == ObjOf(n, r.0) && c.obj2 == ObjOf(n, r.1)
      && CallIdOk(e0, m0, sc, c, r)
  }

  lemma AllNamed(n: Nodes, calls: seq<Call>, reports: seq<(Ptr, Ptr)>, e0: Edges, m0: Pairs, sc: Scene,
                 visited: set<Ptr>)
    requires Answered(n, calls, reports, e0, m0, sc, visited)
    ensures forall c :: c in calls ==> Named(n, e0, m0, sc, c)
  {
    forall c | c in calls ensures Named(n, e0, m0, sc, c) {
      var i :| 0 <= i < |calls| && calls[i] == c;
      assert reports[i] in reports && CallIdOk(e0, m0, sc, calls[i], reports[i]);
    }
  }

  lemma IdsStart(n: Nodes, e: Edges, m: Pairs, sc: Scene, func: (Ptr, Ptr, nat) -> nat)
    requires e.Keys <= m.Keys
    ensures IdsDue(n, e, m, e, m, sc, {}, func)
  {
  }

  /** The moved leaf is about to be checked against other, which lies after it (left) or before it in the tree;
      of the moved leaves exactly those before it have been marked. */
  ghost predicate Meets(sc: Scene, done: set<Ptr>, leaf: Ptr, part: set<Ptr>, other: Ptr, left: bool) {
    && leaf in sc.order && leaf in sc.moved && leaf !in done && other in sc.order && other != leaf && other !in part
    && (if left then Before(sc.order, leaf, other) else Before(sc.order, other, leaf))
    && (other in sc.moved ==> (left <==> other !in done))
  }

  // ---- the scene in memory ----

  ghost function BoxesOf(m: Nodes, ls: seq<Ptr>): map<Ptr, BB> {
    map l | l in ls && l in m :: m[l].bb
  }

  ghost function SceneOf(m: Nodes, ls: seq<Ptr>, now: nat): Scene {
    Scene(ls, BoxesOf(m, ls), set l | l in ls && l in m && m[l].body.Leaf? && m[l].body.stamp == now)
  }

  /** Only pair lists have changed, and leaf has been stamped. */
  ghost predicate Stamped(m: Nodes, m': Nodes, leaf: Ptr, now: nat) {
    && m'.Keys == m.Keys
    && forall n {:trigger m'[n]} :: n in m ==>
         m'[n].(body := m[n].body) == m[n] &&
         if m[n].body.Leaf? then m'[n].body.Leaf? && m'[n].body.stamp == (if n == leaf then now else m[n].body.stamp)
         else m'[n].body == m[n].body
  }

  lemma StampedAfter(m: Nodes, m1: Nodes, m2: Nodes, leaf: Ptr, now: nat)
    requires OnlyPairs(m, m1) && Stamped(m1, m2, leaf, now)
    ensures Stamped(m, m2, leaf, now)
  {
  }

  lemma StampedState(m: Nodes, m': Nodes, leaf: Ptr, now: nat, pairs: Pairs, brk: nat, head: Ptr, pool: seq<Ptr>,
                     edges: Edges, lists: Lists)
    requires PairStateOk(m, pairs, brk, head, pool, edges, lists) && leaf in m && m[leaf].body.Leaf?
    requires m' == m[leaf := m[leaf].(body := Leaf(now, m[leaf].body.pairs))]
    ensures PairStateOk(m', pairs, brk, head, pool, edges, lists)
  {
    assert HeadsOf(m', lists.Keys) == HeadsOf(m, lists.Keys);
  }

  lemma SameLeavesState(m: Nodes, m': Nodes, pairs: Pairs, brk: nat, head: Ptr, pool: seq<Ptr>, edges: Edges,
                        lists: Lists)
    requires PairStateOk(m, pairs, brk, head, pool, edges, lists) && SameLeaves(m, m', lists.Keys)
    ensures PairStateOk(m', pairs, brk, head, pool, edges, lists)
  {
    assert HeadsOf(m', lists.Keys) == HeadsOf(m, lists.Keys);
  }

  /** One leaf has a new box and the current stamp; the other leaves keep box, object and stamp. */
  ghost predicate Moved(m: Nodes, m': Nodes, ls: seq<Ptr>, leaf: Ptr, bb: BB, now: nat) {
    forall l {:trigger l in ls} :: l in ls ==>
      l in m && m[l].body.Leaf? && l in m' && m'[l].body.Leaf? && m'[l].obj == m[l].obj
      && m'[l].bb == (if l == leaf then bb else m[l].bb)
        && m'[l].body.stamp == (if l == leaf then now else m[l].body.stamp)
  }

  lemma MovedLeaf(m: Nodes, m1: Nodes, m2: Nodes, ls: seq<Ptr>, leaf: Ptr, bb: BB, now: nat)
    requires forall l :: l in ls ==> l in m && m[l].body.Leaf?
    requires leaf in m && SameLeaves(m[leaf := m[leaf].(bb := bb)], m1, AsSet(ls)) && Stamped(m1, m2, leaf, now)
    ensures Moved(m, m2, ls, leaf, bb, now)
  {
  }

  ghost predicate SameSet(a: seq<Ptr>, b: seq<Ptr>) {
    AsSet(a) == AsSet(b)
  }

  lemma MovedScene(m: Nodes, m': Nodes, ls: seq<Ptr>, ls': seq<Ptr>, leaf: Ptr, bb: BB, now: nat)
    requires Moved(m, m', ls, leaf, bb, now) && leaf in ls && SameSet(ls, ls')
    ensures MovedOne(SceneOf(m, ls, now), SceneOf(m', ls', now), leaf)
  {
    forall l ensures l in ls' <==> l in ls {
      assert l in AsSet(ls) <==> l in AsSet(ls');
    }
  }

  ghost predicate LeavesStamped(m: Nodes, ls: seq<Ptr>, now: nat) {
    forall l :: l in ls ==> l in m && m[l].body.Leaf? && m[l].body.stamp <= now
  }

  /** Between passes: the cache is exact but for the pairs of the leaves that carry the current stamp. */
  ghost predicate CacheReady(m: Nodes, edges: Edges, ls: seq<Ptr>, now: nat) {
    Marked(edges, SceneOf(m, ls, now), {}) && LeavesStamped(m, ls, now)
  }

  lemma MovedReady(m: Nodes, m1: Nodes, m2: Nodes, edges: Edges, ls: seq<Ptr>, ls': seq<Ptr>, leaf: Ptr, bb: BB,
                   now: nat)
    requires CacheReady(m, edges, ls, now) && leaf in ls && leaf in m && SameSet(ls, ls')
    requires SameLeaves(m[leaf := m[leaf].(bb := bb)], m1, AsSet(ls)) && Stamped(m1, m2, leaf, now)
    ensures CacheReady(m2, CutOff(edges, leaf), ls', now) && Moved(m, m2, ls, leaf, bb, now)
  {
    MovedLeaf(m, m1, m2, ls, leaf, bb, now);
    MovedScene(m, m2, ls, ls', leaf, bb, now);
    UpdateMarked(edges, SceneOf(m, ls, now), SceneOf(m2, ls', now), leaf);
  }

  ghost predicate LeavesOlder(m: Nodes, ls: seq<Ptr>, now: nat) {
    forall l :: l in ls ==> l in m && m[l].body.Leaf? && m[l].body.stamp < now
  }

  /** Outside an operation: the cache is exact, and no leaf carries the current stamp. */
  ghost predicate CacheExact(m: Nodes, edges: Edges, ls: seq<Ptr>, now: nat) {
    Exact(edges, ls, BoxesOf(m, ls)) && LeavesOlder(m, ls, now)
  }

  lemma ExactReady(m: Nodes, edges: Edges, ls: seq<Ptr>, now: nat)
    requires CacheExact(m, edges, ls, now)
    ensures CacheReady(m, edges, ls, now) && SceneOf(m, ls, now).moved == {}
  {
    assert SceneOf(m, ls, now).moved == {};
    ExactIsMarked(edges, SceneOf(m, ls, now));
  }

  lemma ExactLater(m: Nodes, edges: Edges, ls: seq<Ptr>, now: nat)
    requires CacheExact(m, edges, ls, now)
    ensures CacheExact(m, edges, ls, now + 1)
  {
  }

  /** When every moved leaf has been marked, the next stamp makes the cache exact. */
  lemma PassEnds(m: Nodes, m': Nodes, edges: Edges, ls: seq<Ptr>, now: nat, done: set<Ptr>)
    requires LeavesStamped(m, ls, now) && OnlyPairs(m, m') && Marking(edges, SceneOf(m, ls, now), done, NULL, {})
    requires forall l :: l in ls ==> l in done || l !in SceneOf(m, ls, now).moved
    ensures CacheExact(m', edges, ls, now + 1)
  {
    AllMarked(edges, SceneOf(m, ls, now), done);
    assert BoxesOf(m', ls) == BoxesOf(m, ls);
  }

  /** A new leaf has joined; the others keep box, object and stamp. */
  ghost predicate Added(m: Nodes, m': Nodes, ls: seq<Ptr>, leaf: Ptr, obj: Ptr, bb: BB, now: nat) {
    && leaf in m' && m'[leaf].obj == obj && m'[leaf].bb == bb && m'[leaf].body.Leaf? && m'[leaf].body.stamp == now
    && forall l {:trigger l in ls} :: l in ls ==>
         l in m && m[l].body.Leaf? && l in m' && m'[l].body.Leaf? && m'[l].obj == m[l].obj && m'[l].bb == m[l].bb
           && m'[l].body.stamp == m[l].body.stamp
  }

  /** A new leaf has been made and hung into the tree; the others keep all but their parent link. */
  ghost predicate Grafted(m: Nodes, m': Nodes, ls: seq<Ptr>, leaf: Ptr, obj: Ptr, bb: BB) {
    SameLeaves(m, m', AsSet(ls)) && leaf in m' && m'[leaf].(parent := NULL) == Node(obj, bb, NULL, Leaf(0, NULL))
      && leaf !in AsSet(ls)
  }

  lemma GraftedIn(m: Nodes, m1: Nodes, m2: Nodes, ls: seq<Ptr>, ls': seq<Ptr>, leaf: Ptr, obj: Ptr, bb: BB)
    requires leaf !in AsSet(ls) && AsSet(ls') == AsSet(ls) + {leaf}
    requires SameLeaves(m, m1, AsSet(ls)) && leaf in m1 && m1[leaf] == Node(obj, bb, NULL, Leaf(0, NULL))
    requires SameLeaves(m1, m2, AsSet(ls'))
    ensures Grafted(m, m2, ls, leaf, obj, bb)
  {
  }

  lemma JoinReady(m: Nodes, m1: Nodes, m2: Nodes, edges: Edges, ls: seq<Ptr>, ls': seq<Ptr>, leaf: Ptr, obj: Ptr,
                  bb: BB, now: nat)
    requires CacheExact(m, edges, ls, now) && Grafted(m, m1, ls, leaf, obj, bb) && AsSet(ls') == AsSet(ls) + {leaf}
    requires Stamped(m1, m2, leaf, now)
    ensures CacheReady(m2, edges, ls', now) && SceneOf(m2, ls', now).moved == {leaf}
    ensures Added(m, m2, ls, leaf, obj, bb, now)
  {
    forall l ensures l in ls' <==> l in ls || l == leaf {
      assert l in AsSet(ls') <==> l in AsSet(ls) + {leaf};
    }
    ExactReady(m, edges, ls, now);
    assert SceneOf(m2, ls', now).moved == {leaf};
    InsertMarked(edges, SceneOf(m, ls, now), SceneOf(m2, ls', now), leaf);
  }

  /** The leaves in ls keep box, object and stamp. */
  ghost predicate SameStored(m: Nodes, m': Nodes, ls: seq<Ptr>) {
    forall l {:trigger l in ls} :: l in ls ==>
      l in m && m[l].body.Leaf? && l in m' && m'[l].body.Leaf? && m'[l].obj == m[l].obj && m'[l].bb == m[l].bb
        && m'[l].body.stamp == m[l].body.stamp
  }

  /** A leaf has left together with its pairs. */
  lemma LeftExact(m: Nodes, m': Nodes, edges: Edges, ls: seq<Ptr>, ls': seq<Ptr>, leaf: Ptr, now: nat)
    requires CacheExact(m, edges, ls, now) && SameStored(m, m', ls') && AsSet(ls') == AsSet(ls) - {leaf}
    ensures CacheExact(m', CutOff(edges, leaf), ls', now)
  {
    forall l ensures l in ls' <==> l in ls && l != leaf {
      assert l in AsSet(ls') <==> l in AsSet(ls) - {leaf};
    }
    RemoveExact(edges, ls, BoxesOf(m, ls), leaf, ls', BoxesOf(m', ls'));
  }

  lemma StoredAfterRemove(m: Nodes, m1: Nodes, m2: Nodes, m3: Nodes, ls: seq<Ptr>, ls': seq<Ptr>, leaf: Ptr)
    requires forall l :: l in ls ==> l in m && m[l].body.Leaf?
    requires SameLeaves(m, m1, AsSet(ls)) && OnlyPairs(m1, m2) && AsSet(ls') == AsSet(ls) - {leaf}
    requires leaf in m2 && m3.Keys == m2.Keys && forall n :: n in m2 && n != leaf ==> m3[n] == m2[n]
    ensures SameStored(m, m3, ls')
  {
    forall l | l in ls' ensures l in ls && l in m1 && l in m2 && l != leaf {
      assert l in AsSet(ls');
      assert l in AsSet(ls);
    }
  }

  lemma OneMoved(m: Nodes, m': Nodes, edges: Edges, ls: seq<Ptr>, ls': seq<Ptr>, leaf: Ptr, bb: BB, now: nat)
    requires CacheExact(m, edges, ls, now) && Moved(m, m', ls, leaf, bb, now) && SameSet(ls, ls') && leaf in ls
    ensures SceneOf(m', ls', now).moved == {leaf}
  {
    forall l ensures l in ls' <==> l in ls {
      assert l in AsSet(ls) <==> l in AsSet(ls');
    }
  }

  /** Neither the order of the leaves nor their place in the tree matters to the cache. */
  lemma ExactRebuilt(m: Nodes, m': Nodes, edges: Edges, ls: seq<Ptr>, ls': seq<Ptr>, now: nat, leaves: map<Ptr, Ptr>)
    requires CacheExact(m, edges, ls, now) && TableOk(m, leaves, ls) && SameSet(ls, ls') && SameLeaves(m, m', AsSet(ls))
    ensures CacheExact(m', edges, ls', now) && TableOk(m', leaves, ls')
    ensures StoredBoxes(m', leaves) == StoredBoxes(m, leaves)
  {
    forall l ensures l in ls' <==> l in ls {
      assert l in AsSet(ls) <==> l in AsSet(ls');
    }
    forall l | l in ls
      ensures l in m && l in m' && m'[l].bb == m[l].bb && m'[l].body == m[l].body && m'[l].obj == m[l].obj
    {
      assert l in AsSet(ls);
    }
    var sc, sc' := Scene(ls, BoxesOf(m, ls), {}), Scene(ls', BoxesOf(m', ls'), {});
    forall x, y | x in ls' && y in ls' && x != y ensures Joined(edges, x, y) <==> Overlap(sc', x, y) {
      assert Overlap(sc, x, y) <==> Overlap(sc', x, y);
    }
    TableKept(m, m', leaves, ls, ls');
  }

  /** The leaves by object. */
  ghost predicate TableOk(m: Nodes, leaves: map<Ptr, Ptr>, ls: seq<Ptr>) {
    leaves.Values == AsSet(ls) && forall o :: o in leaves ==> o != NULL && leaves[o] in m && m[leaves[o]].obj == o
  }

  ghost predicate SameObjects(m: Nodes, m': Nodes, ls: seq<Ptr>) {
    forall l {:trigger l in ls} :: l in ls ==> l in m && l in m' && m'[l].obj == m[l].obj
  }

  lemma TableKept(m: Nodes, m': Nodes, leaves: map<Ptr, Ptr>, ls: seq<Ptr>, ls': seq<Ptr>)
    requires TableOk(m, leaves, ls) && SameObjects(m, m', ls) && SameSet(ls, ls')
    ensures TableOk(m', leaves, ls')
  {
    forall o | o in leaves ensures leaves[o] in ls {
      assert leaves[o] in leaves.Values;
      assert leaves[o] in AsSet(ls);
    }
  }

  /** A table with one more leaf, and the boxes it leads to. */
  lemma TableJoined(m: Nodes, m': Nodes, leaves: map<Ptr, Ptr>, leaves': map<Ptr, Ptr>, ls: seq<Ptr>, ls': seq<Ptr>,
                    leaf: Ptr, obj: Ptr, bb: BB, now: nat)
    requires TableOk(m, leaves, ls) && Added(m, m', ls, leaf, obj, bb, now)
    requires AsSet(ls') == AsSet(ls) + {leaf} && obj !in leaves && obj != NULL && leaves' == leaves[obj := leaf]
    ensures TableOk(m', leaves', ls') && StoredBoxes(m', leaves') == StoredBoxes(m, leaves)[obj := bb]
  {
    InTable(m, leaves, ls);
    TableKept(m, m', leaves, ls, ls);
    forall l ensures l in leaves'.Values <==> l in AsSet(ls') {
      if l in leaves.Values {
        var o :| o in leaves && leaves[o] == l;
        assert leaves'[o] == l;
      }
      assert leaves'[obj] == leaf;
    }
  }

  lemma TableLeft(m: Nodes, m': Nodes, leaves: map<Ptr, Ptr>, ls: seq<Ptr>, ls': seq<Ptr>, obj: Ptr)
    requires TableOk(m, leaves, ls) && obj in leaves && AsSet(ls') == AsSet(ls) - {leaves[obj]}
    requires SameStored(m, m', ls')
    ensures TableOk(m', leaves - {obj}, ls') && StoredBoxes(m', leaves - {obj}) == StoredBoxes(m, leaves) - {obj}
  {
    var leaves' := leaves - {obj};
    InTable(m, leaves, ls);
    forall l ensures l in ls' <==> l in ls && l != leaves[obj] {
      assert l in AsSet(ls') <==> l in AsSet(ls) - {leaves[obj]};
    }
    forall l ensures l in leaves'.Values <==> l in AsSet(ls') {
      if l in AsSet(ls') {
        assert leaves'[m[l].obj] == l;
      }
    }
  }

  lemma TableMoved(m: Nodes, m': Nodes, leaves: map<Ptr, Ptr>, ls: seq<Ptr>, ls': seq<Ptr>, obj: Ptr, bb: BB, now: nat)
    requires TableOk(m, leaves, ls) && obj in leaves && Moved(m, m', ls, leaves[obj], bb, now) && SameSet(ls, ls')
    ensures TableOk(m', leaves, ls') && StoredBoxes(m', leaves) == StoredBoxes(m, leaves)[obj := bb]
  {
    InTable(m, leaves, ls);
    TableKept(m, m', leaves, ls, ls');
  }

  /** The stored box of every object. */
  ghost function StoredBoxes(m: Nodes, leaves: map<Ptr, Ptr>): map<Ptr, BB> {
    map o | o in leaves && leaves[o] in m :: m[leaves[o]].bb
  }

  lemma InTable(m: Nodes, leaves: map<Ptr, Ptr>, ls: seq<Ptr>)
    requires TableOk(m, leaves, ls)
    ensures forall o :: o in leaves ==> leaves[o] in ls
    ensures forall o, p :: o in leaves && p in leaves && leaves[o] == leaves[p] ==> o == p
    ensures forall l :: l in ls ==> l in m && m[l].obj in leaves && leaves[m[l].obj] == l
  {
    forall o | o in leaves ensures leaves[o] in ls {
      assert leaves[o] in leaves.Values;
      assert leaves[o] in AsSet(ls);
    }
    forall l | l in ls ensures l in m && m[l].obj in leaves && leaves[m[l].obj] == l {
      assert l in AsSet(ls);
      var o :| o in leaves && leaves[o] == l;
    }
  }

  lemma LeafOf(m: Nodes, leaves: map<Ptr, Ptr>, ls: seq<Ptr>, o: Ptr)
    requires TableOk(m, leaves, ls) && o in leaves
    ensures leaves[o] in ls && leaves[o] in m && m[leaves[o]].obj == o
  {
    InTable(m, leaves, ls);
  }

  lemma TableUnder(m: Nodes, m': Nodes, leaves: map<Ptr, Ptr>, ls: seq<Ptr>)
    requires TableOk(m, leaves, ls) && OnlyPairs(m, m')
    ensures TableOk(m', leaves, ls) && StoredBoxes(m', leaves) == StoredBoxes(m, leaves)
  {
  }

  // ---- the calls, seen from outside ----

  /** How often x and y are passed to the callback, in either order. */
  ghost function Reported(calls: seq<Call>, x: Ptr, y: Ptr): nat {
    if calls == [] then 0
      else (if Ends((calls[0].obj1, calls[0].obj2), x, y) then 1 else 0) + Reported(calls[1..], x, y)
  }

  /** Every two objects whose boxes intersect are passed to the callback exactly once, and no others are. */
  ghost predicate EachOnce(boxes: map<Ptr, BB>, calls: seq<Call>) {
    && (forall c :: c in calls ==> c.obj1 in boxes && c.obj2 in boxes && c.obj1 != c.obj2)
    && (forall x, y ::
      x in boxes && y in boxes && x != y ==> Reported(calls, x, y) == if Intersects(boxes[x], boxes[y]) then 1 else 0)
  }

  lemma ReportedHits(m: Nodes, leaves: map<Ptr, Ptr>, ls: seq<Ptr>, calls: seq<Call>, reports: seq<(Ptr, Ptr)>,
                     x: Ptr, y: Ptr)
    requires TableOk(m, leaves, ls) && Matches(m, calls, reports) && x in leaves && y in leaves
    requires forall r :: r in reports ==> r.0 in ls && r.1 in ls
    ensures Reported(calls, x, y) == Hits(reports, leaves[x], leaves[y])
  {
    if calls != [] {
      InTable(m, leaves, ls);
      ReportedHits(m, leaves, ls, calls[1..], reports[1..], x, y);
    }
  }

  lemma PassReports(m: Nodes, m': Nodes, leaves: map<Ptr, Ptr>, ls: seq<Ptr>, edges: Edges, now: nat,
                    calls: seq<Call>, reports: seq<(Ptr, Ptr)>)
    requires TableOk(m, leaves, ls) && CacheReady(m, edges, ls, now) && Distinct(ls) && OnlyPairs(m, m')
    requires Matches(m', calls, reports) && AsExpected(edges, SceneOf(m, ls, now), AsSet(ls), reports)
    ensures EachOnce(StoredBoxes(m', leaves), calls)
  {
    var sc, boxes := SceneOf(m, ls, now), StoredBoxes(m', leaves);
    TableUnder(m, m', leaves, ls);
    InTable(m', leaves, ls);
    forall x, y | x in boxes && y in boxes && x != y
      ensures Reported(calls, x, y) == if Intersects(boxes[x], boxes[y]) then 1 else 0
    {
      ReportedHits(m', leaves, ls, calls, reports, x, y);
      ReportedOnce(edges, sc, AsSet(ls), leaves[x], leaves[y]);
    }
    forall c | c in calls ensures c.obj1 in boxes && c.obj2 in boxes && c.obj1 != c.obj2 {
      var i :| 0 <= i < |calls| && calls[i] == c;
      assert reports[i] in reports;
    }
  }

  /** The leaves of the objects that are not in todo. */
  ghost function LeavesBut(leaves: map<Ptr, Ptr>, todo: set<Ptr>): set<Ptr> {
    set o | o in leaves && o !in todo :: leaves[o]
  }

  lemma OneLeafMore(m: Nodes, leaves: map<Ptr, Ptr>, ls: seq<Ptr>, todo: set<Ptr>, o: Ptr, before: seq<Ptr>)
    requires TableOk(m, leaves, ls) && o in todo && todo <= leaves.Keys && AsSet(before) == LeavesBut(leaves, todo)
    requires Distinct(before)
    ensures AsSet(before + [leaves[o]]) == LeavesBut(leaves, todo - {o}) && Distinct(before + [leaves[o]])
    ensures |todo - {o}| + 1 == |todo|
  {
    InTable(m, leaves, ls);
    assert LeavesBut(leaves, todo - {o}) == LeavesBut(leaves, todo) + {leaves[o]};
    assert leaves[o] !in AsSet(before);
    assert AsSet(before + [leaves[o]]) == AsSet(before) + {leaves[o]};
  }

  // ---- queries ----

  /** How often o is the second object of a call. */
  ghost function Told(calls: seq<Call>, o: Ptr): nat {
    if calls == [] then 0 else (if calls[0].obj2 == o then 1 else 0) + Told(calls[1..], o)
  }

  lemma ToldHits(m: Nodes, leaves: map<Ptr, Ptr>, ls: seq<Ptr>, obj: Ptr, hits: seq<Ptr>, o: Ptr)
    requires TableOk(m, leaves, ls) && Distinct(hits) && forall l :: l in hits ==> l in ls
    ensures Told(CallsWith(m, obj, hits), o) == if o in leaves && leaves[o] in hits then 1 else 0
  {
    if hits != [] {
      InTable(m, leaves, ls);
      ToldHits(m, leaves, ls, obj, hits[1..], o);
      assert hits == [hits[0]] + hits[1..];
    }
  }

  /** A query tells of every object whose stored box meets bb, once, and of no other. */
  lemma QueryTells(m: Nodes, leaves: map<Ptr, Ptr>, t: BoxTree, obj: Ptr, bb: BB, o: Ptr)
    requires TableOk(m, leaves, Leaves(t)) && Represents(m, t, NULL) && Proper(t)
    ensures var boxes := StoredBoxes(m, leaves);
            Told(CallsWith(m, obj, Scan(t, bb)), o) == if o in boxes && Intersects(boxes[o], bb) then 1 else 0
  {
    ScanDistinct(t, bb);
    forall l ensures l in Scan(t, bb) <==> l in Leaves(t) && Intersects(BoxOf(t, l), bb) {
      ScanMeaning(t, bb, l);
    }
    ToldHits(m, leaves, Leaves(t), obj, Scan(t, bb), o);
    InTable(m, leaves, Leaves(t));
    if o in leaves {
      RepresentsBoxOf(m, t, NULL, leaves[o]);
    }
  }
}
