/** The pair lists of all leaves and the free list of pairs: what adding and clearing pairs keeps. */
module PairState {
  import opened Addresses
  import opened Boxes
  import opened TreeMemory
  import opened PairLists

  ghost function AsSet(s: seq<Ptr>): set<Ptr> {
    set p | p in s
  }

  ghost function HeadsOf(m: Nodes, ls: set<Ptr>): Heads {
    map l | l in ls :: if l in m && m[l].body.Leaf? then m[l].body.pairs else NULL
  }

  /** Only the pair lists of leaves have changed. */
  ghost predicate OnlyPairs(m: Nodes, m': Nodes) {
    && m'.Keys == m.Keys
    && forall n {:trigger m'[n]} :: n in m ==>
         m'[n] == m[n]
           || (m[n].body.Leaf? && m'[n].body.Leaf? && m'[n] == m[n].(body := Leaf(m[n].body.stamp, m'[n].body.pairs)))
  }

  /** The pairs recorded in edges keep their collision id. */
  ghost predicate IdsKept(edges: Edges, m: Pairs, m': Pairs) {
    forall p :: p in edges && p in m && p in m' ==> m'[p].id == m[p].id
  }

  lemma PairPoolInPairs(m: Pairs, head: Ptr, s: seq<Ptr>)
    requires PoolOk(m, head, s)
    ensures forall p :: p in s ==> p in m
    ensures head != NULL ==> s == [head] + s[1..]
  {
    forall i | 0 <= i < |s| ensures s[i] in m {
      assert PoolLink(m, s, i);
    }
  }

  lemma WiredKept(m: Pairs, heads: Heads, edges: Edges, lists: Lists, m': Pairs)
    requires Wired(m, heads, edges, lists)
    requires forall p :: p in edges && p in m ==> p in m' && m'[p] == m[p]
    ensures Wired(m', heads, edges, lists)
  {
    forall l | l in lists ensures ListOk(m', heads[l], l, lists[l]) {
      ListMembers(m, edges, lists, l);
      KeptList(m, heads[l], l, lists[l], m');
    }
  }

  ghost predicate PairMemoryOk(pairs: Pairs, brk: nat, head: Ptr, pool: seq<Ptr>) {
    PoolOk(pairs, head, pool) && NULL !in pairs && brk > 0 && forall p :: p in pairs ==> p < brk
  }

  /** The lists of all leaves are intact, and no live pair is pooled. */
  ghost predicate PairStateOk(nodes: Nodes, pairs: Pairs, brk: nat, head: Ptr, pool: seq<Ptr>, edges: Edges,
                              lists: Lists) {
    && PairMemoryOk(pairs, brk, head, pool)
    && (forall l :: l in lists ==> l in nodes && nodes[l].body.Leaf?)
    && Wired(pairs, HeadsOf(nodes, lists.Keys), edges, lists)
    && (forall p :: p in pool ==> p !in edges)
  }

  lemma HeadsInPairs(nodes: Nodes, pairs: Pairs, brk: nat, head: Ptr, pool: seq<Ptr>, edges: Edges, lists: Lists,
                     l: Ptr)
    requires PairStateOk(nodes, pairs, brk, head, pool, edges, lists) && l in lists
    ensures l in nodes && nodes[l].body.Leaf? && NULL !in pairs
    ensures nodes[l].body.pairs != NULL ==> nodes[l].body.pairs in pairs
  {
    HeadListed(pairs, HeadsOf(nodes, lists.Keys), edges, lists, l);
  }

  lemma InsertedKeys(m: Pairs, p: Ptr, a: Ptr, b: Ptr, nextA: Ptr, nextB: Ptr)
    ensures var m' := Inserted(m, p, a, b, nextA, nextB);
            m'.Keys == m.Keys + {p} && m'[p].id == 0 && forall q :: q in m && q != p ==> m'[q].id == m[q].id
  {
  }

  lemma InsertedElsewhere(m: Pairs, p: Ptr, a: Ptr, b: Ptr, nextA: Ptr, nextB: Ptr, q: Ptr)
    requires q in m && q != p && q != nextA && q != nextB
    ensures var m' := Inserted(m, p, a, b, nextA, nextB); q in m' && m'[q] == m[q]
  {
  }

  lemma LinkedHeads(nodes: Nodes, nodes': Nodes, ls: set<Ptr>, pair: Ptr, a: Ptr, b: Ptr)
    requires forall l :: l in ls ==> l in nodes && nodes[l].body.Leaf? && l in nodes' && nodes'[l].body.Leaf?
    requires forall l :: l in ls ==> nodes'[l].body.pairs == if l == a || l == b then pair else nodes[l].body.pairs
    ensures HeadsOf(nodes', ls) == HeadsWith(HeadsOf(nodes, ls), pair, a, b)
  {
  }

  /** The pointer writes of PairInsert: heads of a and b, the new pair, and the old heads' prev links. */
  ghost predicate LinkWritten(nodes: Nodes, pairs: Pairs, pair: Ptr, a: Ptr, b: Ptr, nodes': Nodes, pairs': Pairs) {
    && OnlyPairs(nodes, nodes') && a in nodes && nodes[a].body.Leaf? && b in nodes && nodes[b].body.Leaf?
    && (forall l {:trigger nodes'[l]} :: l in nodes' && nodes'[l].body.Leaf? ==>
          l in nodes && nodes[l].body.Leaf? && nodes'[l].body.pairs == if l == a || l == b then pair
            else nodes[l].body.pairs)
    && pairs' == Inserted(pairs, pair, a, b, nodes[a].body.pairs, nodes[b].body.pairs)
  }

  lemma PairInsertKeeps(nodes: Nodes, pairs: Pairs, brk: nat, head: Ptr, pool: seq<Ptr>, edges: Edges, lists: Lists,
                        pair: Ptr, a: Ptr, b: Ptr,
                        nodes': Nodes, pairs': Pairs)
    requires PairStateOk(nodes, pairs, brk, head, pool, edges, lists) && a != b && a in lists && b in lists
    requires pair in pairs && pair !in edges && pair !in pool
    requires LinkWritten(nodes, pairs, pair, a, b, nodes', pairs')
    ensures PairStateOk(nodes', pairs', brk, head, pool, edges[pair := (a, b)], ListsWith(lists, pair, a, b))
    ensures IdsKept(edges, pairs, pairs') && pairs'.Keys == pairs.Keys && OnlyPairs(nodes, nodes')
    ensures pairs'[pair].id == 0
  {
    var heads, nextA, nextB := HeadsOf(nodes, lists.Keys), nodes[a].body.pairs, nodes[b].body.pairs;
    HeadListed(pairs, heads, edges, lists, a);
    HeadListed(pairs, heads, edges, lists, b);
    LinkedHeads(nodes, nodes', lists.Keys, pair, a, b);
    InsertedKeys(pairs, pair, a, b, nextA, nextB);
    InsertKeepsWired(pairs, heads, edges, lists, pair, a, b);
    InsertedPool(pairs, brk, head, pool, pair, a, b, nextA, nextB);
  }

  lemma InsertedPool(pairs: Pairs, brk: nat, head: Ptr, pool: seq<Ptr>, pair: Ptr, a: Ptr, b: Ptr, nextA: Ptr,
                     nextB: Ptr)
    requires PairMemoryOk(pairs, brk, head, pool) && pair in pairs
    requires pair !in pool && nextA !in pool && nextB !in pool
    ensures PairMemoryOk(Inserted(pairs, pair, a, b, nextA, nextB), brk, head, pool)
  {
    var pairs' := Inserted(pairs, pair, a, b, nextA, nextB);
    PairPoolInPairs(pairs, head, pool);
    InsertedKeys(pairs, pair, a, b, nextA, nextB);
    forall q | q in pool ensures q in pairs' && pairs'[q] == pairs[q] {
      InsertedElsewhere(pairs, pair, a, b, nextA, nextB, q);
    }
    PoolKept(pairs, head, pool, pairs');
  }

  ghost function PairsSet(m: Nodes, leaf: Ptr, head: Ptr): Nodes
    requires leaf in m && m[leaf].body.Leaf?
  {
    m[leaf := m[leaf].(body := Leaf(m[leaf].body.stamp, head))]
  }

  /** In the middle of PairsClear(leaf): leaf's list is detached and partly recycled, all other lists are intact. */
  ghost predicate ClearState(nodes: Nodes, pairs: Pairs, brk: nat, head: Ptr, pool: seq<Ptr>, edges: Edges,
                             lists: Lists, leaf: Ptr) {
    && PairMemoryOk(pairs, brk, head, pool)
    && (forall l :: l in lists ==> l in nodes && nodes[l].body.Leaf?)
    && HalfWired(pairs, HeadsOf(nodes, lists.Keys), edges, lists, leaf) && nodes[leaf].body.pairs == NULL
    && (forall p :: p in pool ==> p !in edges)
  }

  /** p is the first remaining pair of leaf, o the other leaf it joins, k its place in o's list, t its thread there. */
  ghost predicate ClearFacts(nodes: Nodes, pairs: Pairs, pool: seq<Ptr>, edges: Edges, lists: Lists, leaf: Ptr,
                             p: Ptr, o: Ptr, k: nat, t: Thread) {
    && leaf in lists && lists[leaf] != [] && p == lists[leaf][0]
    && p in edges && p in pairs && p !in pool && Joins(edges[p], leaf) && o == Other(edges[p], leaf) && o != leaf
    && o in lists && k < |lists[o]| && lists[o][k] == p && o in nodes && nodes[o].body.Leaf?
    && ThreadOf(pairs[p], leaf).next == PairAt(lists[leaf][1..], 0)
    && t == ThreadOf(pairs[p], o) && t.leaf == o && t == (if pairs[p].a.leaf == leaf then pairs[p].b else pairs[p].a)
    && (t.next != NULL ==> t.next in edges && t.next in pairs && t.next !in pool && t.next != p)
    && (t.prev != NULL ==> t.prev in edges && t.prev in pairs && t.prev !in pool && t.prev != p)
  }

  lemma ClearSetting(nodes: Nodes, pairs: Pairs, brk: nat, head: Ptr, pool: seq<Ptr>, edges: Edges, lists: Lists,
                     leaf: Ptr) returns (o: Ptr, k: nat, t: Thread)
    requires ClearState(nodes, pairs, brk, head, pool, edges, lists, leaf) && lists[leaf] != []
    ensures ClearFacts(nodes, pairs, pool, edges, lists, leaf, lists[leaf][0], o, k, t)
  {
    var p := lists[leaf][0];
    assert p in lists[leaf] && DrainLink(pairs, leaf, lists[leaf], 0);
    o := Other(edges[p], leaf);
    assert Joins(edges[p], o);
    k :| 0 <= k < |lists[o]| && lists[o][k] == p;
    ListMembers(pairs, edges, lists, o);
    assert ListOk(pairs, HeadsOf(nodes, lists.Keys)[o], o, lists[o]) && Linked(pairs, o, lists[o], k);
    assert PairAt(lists[o], k + 1) != NULL ==> PairAt(lists[o], k + 1) in lists[o];
    assert PairAt(lists[o], k - 1) != NULL ==> PairAt(lists[o], k - 1) in lists[o];
    t := ThreadOf(pairs[p], o);
  }

  /** Memory after the first pair of leaf has been unlinked from o and recycled. */
  ghost function Cleared(pairs: Pairs, t: Thread, p: Ptr, free: Ptr): Pairs
    requires p in Unlinked(pairs, t)
  {
    var m := Unlinked(pairs, t);
    m[p := m[p].(a := m[p].a.(next := free))]
  }

  lemma UnlinkedKeys(m: Pairs, t: Thread)
    ensures Unlinked(m, t).Keys == m.Keys && forall q :: q in m ==> Unlinked(m, t)[q].id == m[q].id
    ensures forall q :: q in m && q != t.next && q != t.prev ==> Unlinked(m, t)[q] == m[q]
  {
  }

  lemma ClearedPool(pairs: Pairs, brk: nat, head: Ptr, pool: seq<Ptr>, t: Thread, p: Ptr)
    requires PairMemoryOk(pairs, brk, head, pool) && p in pairs && p !in pool && t.next !in pool && t.prev !in pool
    ensures p in Unlinked(pairs, t) && PairMemoryOk(Cleared(pairs, t, p, head), brk, p, [p] + pool)
    ensures Cleared(pairs, t, p, head).Keys == pairs.Keys
    ensures forall q :: q in pairs ==> Cleared(pairs, t, p, head)[q].id == pairs[q].id
  {
    UnlinkedKeys(pairs, t);
    PairPoolInPairs(pairs, head, pool);
    PoolPushed(pairs, head, pool, p, Cleared(pairs, t, p, head));
  }

  /** The pointer writes of one clearing round: pair p is unlinked through thread t and goes to the pool. */
  ghost predicate ClearWritten(nodes: Nodes, pairs: Pairs, head: Ptr, p: Ptr, t: Thread, nodes': Nodes, pairs': Pairs) {
    && p in Unlinked(pairs, t) && pairs' == Cleared(pairs, t, p, head)
    && t.leaf in nodes && nodes[t.leaf].body.Leaf? && nodes' == if t.prev == NULL then PairsSet(nodes, t.leaf, t.next)
      else nodes
  }

  lemma ClearedHeads(nodes: Nodes, ls: set<Ptr>, o: Ptr, next: Ptr)
    requires forall l :: l in ls ==> l in nodes && nodes[l].body.Leaf?
    requires o in ls
    ensures HeadsOf(PairsSet(nodes, o, next), ls) == HeadsOf(nodes, ls)[o := next]
  {
  }

  /** One clearing round: pair p leaves the live pairs and the list of leaf, nothing else is lost. */
  ghost predicate ClearedOnce(nodes: Nodes, pairs: Pairs, edges: Edges, lists: Lists, leaf: Ptr, p: Ptr,
                              nodes': Nodes, pairs': Pairs, edges': Edges, lists': Lists) {
    && p in edges && Joins(edges[p], leaf) && edges' == edges - {p}
    && leaf in lists && lists'.Keys == lists.Keys && lists[leaf] != [] && lists'[leaf] == lists[leaf][1..]
    && IdsKept(edges', pairs, pairs') && pairs'.Keys == pairs.Keys && OnlyPairs(nodes, nodes')
  }

  lemma ClearKeeps(nodes: Nodes, pairs: Pairs, brk: nat, head: Ptr, pool: seq<Ptr>, edges: Edges, lists: Lists,
                   leaf: Ptr, p: Ptr, o: Ptr, k: nat, t: Thread,
                   nodes': Nodes, pairs': Pairs)
    requires ClearState(nodes, pairs, brk, head, pool, edges, lists, leaf)
    requires ClearFacts(nodes, pairs, pool, edges, lists, leaf, p, o, k, t)
    requires ClearWritten(nodes, pairs, head, p, t, nodes', pairs')
    ensures ClearState(nodes', pairs', brk, p, [p] + pool, edges - {p}, ListsWithout(lists, leaf, o, k), leaf)
  {
    ClearedPool(pairs, brk, head, pool, t, p);
    ClearKeepsRest(nodes, pairs, brk, head, pool, edges, lists, leaf, p, o, k, t, nodes', pairs');
    ClearKeepsWired(nodes, pairs, brk, head, pool, edges, lists, leaf, p, o, k, t, nodes', pairs');
  }

  lemma ClearKeepsRest(nodes: Nodes, pairs: Pairs, brk: nat, head: Ptr, pool: seq<Ptr>, edges: Edges, lists: Lists,
                       leaf: Ptr, p: Ptr, o: Ptr, k: nat, t: Thread,
                       nodes': Nodes, pairs': Pairs)
    requires ClearState(nodes, pairs, brk, head, pool, edges, lists, leaf)
    requires ClearFacts(nodes, pairs, pool, edges, lists, leaf, p, o, k, t)
    requires ClearWritten(nodes, pairs, head, p, t, nodes', pairs')
    ensures forall l :: l in ListsWithout(lists, leaf, o, k) ==> l in nodes' && nodes'[l].body.Leaf?
    ensures nodes'[leaf].body.pairs == NULL && forall q :: q in [p] + pool ==> q !in edges - {p}
  {
  }

  lemma ClearKeepsWired(nodes: Nodes, pairs: Pairs, brk: nat, head: Ptr, pool: seq<Ptr>, edges: Edges, lists: Lists,
                        leaf: Ptr, p: Ptr, o: Ptr, k: nat, t: Thread,
                        nodes': Nodes, pairs': Pairs)
    requires ClearState(nodes, pairs, brk, head, pool, edges, lists, leaf)
    requires ClearFacts(nodes, pairs, pool, edges, lists, leaf, p, o, k, t)
    requires ClearWritten(nodes, pairs, head, p, t, nodes', pairs')
    ensures HalfWired(pairs', HeadsOf(nodes', ListsWithout(lists, leaf, o, k).Keys), edges - {p},
      ListsWithout(lists, leaf, o, k), leaf)
  {
    var edges', lists' := edges - {p}, ListsWithout(lists, leaf, o, k);
    if t.prev == NULL {
      ClearedHeads(nodes, lists.Keys, o, t.next);
    }
    assert lists'.Keys == lists.Keys;
    DrainOnce(pairs, HeadsOf(nodes, lists.Keys), edges, lists, leaf, k, head, pairs', HeadsOf(nodes', lists.Keys),
      edges', lists');
  }

  lemma ClearLoses(nodes: Nodes, pairs: Pairs, pool: seq<Ptr>, edges: Edges, lists: Lists, leaf: Ptr, p: Ptr, o: Ptr,
                   k: nat, t: Thread,
                   head: Ptr, nodes': Nodes, pairs': Pairs)
    requires ClearFacts(nodes, pairs, pool, edges, lists, leaf, p, o, k, t)
    requires ClearWritten(nodes, pairs, head, p, t, nodes', pairs')
    ensures ClearedOnce(nodes, pairs, edges, lists, leaf, p, nodes', pairs', edges - {p},
      ListsWithout(lists, leaf, o, k))
    ensures ListsWithout(lists, leaf, o, k)[leaf] == lists[leaf][1..]
  {
    UnlinkedKeys(pairs, t);
  }

  /** What clearing has changed so far: only pairs touching leaf have gone. */
  ghost predicate ClearedSoFar(nodes: Nodes, pairs: Pairs, edges: Edges, lists: Lists, leaf: Ptr,
                               nodes': Nodes, pairs': Pairs, edges': Edges, lists': Lists) {
    && (forall p :: p in edges' ==> p in edges && edges'[p] == edges[p])
    && (forall p :: p in edges && p !in edges' ==> Joins(edges[p], leaf))
    && lists'.Keys == lists.Keys
    && IdsKept(edges', pairs, pairs') && pairs'.Keys == pairs.Keys && OnlyPairs(nodes, nodes')
  }

  lemma ClearedMore(n: Nodes, m: Pairs, e: Edges, l: Lists, leaf: Ptr, n1: Nodes, m1: Pairs, e1: Edges, l1: Lists,
                    p: Ptr, n2: Nodes, m2: Pairs, e2: Edges, l2: Lists)
    requires ClearedSoFar(n, m, e, l, leaf, n1, m1, e1, l1) && ClearedOnce(n1, m1, e1, l1, leaf, p, n2, m2, e2, l2)
    ensures ClearedSoFar(n, m, e, l, leaf, n2, m2, e2, l2)
  {
  }

  /** Recycling moves a pair from the live ones to the pool. */
  lemma RecycledKeys(keys: set<Ptr>, edges: Edges, pool: seq<Ptr>, p: Ptr)
    requires keys == edges.Keys + AsSet(pool) && p in edges
    ensures keys == (edges - {p}).Keys + AsSet([p] + pool)
  {
    assert AsSet([p] + pool) == {p} + AsSet(pool);
  }

  lemma OnlyPairsTrans(a: Nodes, b: Nodes, c: Nodes)
    requires OnlyPairs(a, b) && OnlyPairs(b, c)
    ensures OnlyPairs(a, c)
  {
  }

  lemma ClearEnds(nodes0: Nodes, nodes: Nodes, pairs: Pairs, brk: nat, head: Ptr, pool: seq<Ptr>, edges: Edges,
                  lists: Lists, leaf: Ptr,
                  nodes': Nodes, pairs': Pairs, edges': Edges, lists': Lists)
    requires ClearState(nodes', pairs', brk, head, pool, edges', lists', leaf) && lists'[leaf] == []
    requires ClearedSoFar(nodes, pairs, edges, lists, leaf, nodes', pairs', edges', lists')
    requires leaf in nodes0 && nodes0[leaf].body.Leaf? && nodes == PairsSet(nodes0, leaf, NULL)
    ensures PairStateOk(nodes', pairs', brk, head, pool, edges', lists') && OnlyPairs(nodes0, nodes')
    ensures edges' == CutOff(edges, leaf)
  {
    EndDraining(pairs', HeadsOf(nodes', lists'.Keys), edges', lists', leaf);
    OnlyPairsTrans(nodes0, nodes, nodes');
  }

  lemma ClearBegins(nodes: Nodes, pairs: Pairs, brk: nat, head: Ptr, pool: seq<Ptr>, edges: Edges, lists: Lists,
                    leaf: Ptr)
    requires PairStateOk(nodes, pairs, brk, head, pool, edges, lists) && leaf in lists
    ensures leaf in nodes && nodes[leaf].body.Leaf? && nodes[leaf].body.pairs == PairAt(lists[leaf], 0)
    ensures ClearState(PairsSet(nodes, leaf, NULL), pairs, brk, head, pool, edges, lists, leaf)
  {
    StartDraining(pairs, HeadsOf(nodes, lists.Keys), edges, lists, leaf);
    ClearedHeads(nodes, lists.Keys, leaf, NULL);
  }

  /** A new leaf with an empty list. */
  lemma ListAdded(m: Nodes, pairs: Pairs, brk: nat, head: Ptr, pool: seq<Ptr>, edges: Edges, lists: Lists, leaf: Ptr,
                  m': Nodes)
    requires PairStateOk(m, pairs, brk, head, pool, edges, lists) && leaf !in lists
    requires forall l :: l in lists ==> l in m' && m'[l].body == m[l].body
    requires leaf in m' && m'[leaf].body.Leaf? && m'[leaf].body.pairs == NULL
    ensures PairStateOk(m', pairs, brk, head, pool, edges, lists[leaf := []])
  {
    var heads, heads', lists' := HeadsOf(m, lists.Keys), HeadsOf(m', lists.Keys + {leaf}), lists[leaf := []];
    assert lists'.Keys == lists.Keys + {leaf};
    forall l | l in lists' ensures ListOk(pairs, heads'[l], l, lists'[l]) {
      assert l != leaf ==> ListOk(pairs, heads[l], l, lists[l]);
    }
  }

  /** A leaf without pairs gives up its list. */
  lemma ListDropped(m: Nodes, pairs: Pairs, brk: nat, head: Ptr, pool: seq<Ptr>, edges: Edges, lists: Lists,
                    leaf: Ptr, m': Nodes)
    requires PairStateOk(m, pairs, brk, head, pool, edges, lists) && forall p :: p in edges ==> !Joins(edges[p], leaf)
    requires forall l :: l in lists && l != leaf ==> l in m' && m'[l].body == m[l].body
    ensures PairStateOk(m', pairs, brk, head, pool, edges, lists - {leaf})
  {
    var heads, heads', lists' := HeadsOf(m, lists.Keys), HeadsOf(m', lists.Keys - {leaf}), lists - {leaf};
    assert lists'.Keys == lists.Keys - {leaf};
    forall l | l in lists' ensures ListOk(pairs, heads'[l], l, lists'[l]) {
      assert ListOk(pairs, heads[l], l, lists[l]);
    }
  }
}
