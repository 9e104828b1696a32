/** Memory of the bounding-box tree, and the pair lists threaded through it. */
module TreeMemory {
  import opened Addresses
  import opened Boxes

  /** One of the two threads of a pair: its place in the pair list of one leaf. */
  datatype Thread = Thread(prev: Ptr, leaf: Ptr, next: Ptr)

  datatype Pair = Pair(a: Thread, b: Thread, id: nat)

  /** The union inside a node: internal nodes have children, leaves a stamp and a pair list. */
  datatype Body = Children(a: Ptr, b: Ptr) | Leaf(stamp: nat, pairs: Ptr)

  datatype Node = Node(obj: Ptr, bb: BB, parent: Ptr, body: Body)

  type Pairs = map<Ptr, Pair>
  type Nodes = map<Ptr, Node>

  function ObjOf(m: Nodes, n: Ptr): Ptr {
    if n in m then m[n].obj else NULL
  }
}

/** Doubly linked pair lists: every pair sits in the lists of its two leaves at once. */
module PairLists {
  import opened Arrays
  import opened Addresses
  import opened Boxes
  import opened TreeMemory

  type Edges = map<Ptr, (Ptr, Ptr)>
  type Lists = map<Ptr, seq<Ptr>>
  type Heads = map<Ptr, Ptr>

  function PairAt(s: seq<Ptr>, i: int): Ptr {
    if 0 <= i < |s| then s[i] else NULL
  }

  ghost predicate Touches(p: Pair, l: Ptr) {
    p.a.leaf == l || p.b.leaf == l
  }

  /** The thread of p that runs through leaf l, found as the C code finds it. */
  function ThreadOf(p: Pair, l: Ptr): Thread {
    if p.a.leaf == l then p.a else p.b
  }

  function WithThread(p: Pair, l: Ptr, t: Thread): Pair {
    if p.a.leaf == l then p.(a := t) else p.(b := t)
  }

  ghost predicate Linked(m: Pairs, l: Ptr, s: seq<Ptr>, i: int) {
    0 <= i < |s| && s[i] in m && Touches(m[s[i]], l) &&
    ThreadOf(m[s[i]], l) == Thread(PairAt(s, i - 1), l, PairAt(s, i + 1))
  }

  /** s is the doubly linked list of leaf l, starting at head. */
  ghost predicate ListOk(m: Pairs, head: Ptr, l: Ptr, s: seq<Ptr>) {
    && head == PairAt(s, 0)
    && NULL !in s && Distinct(s)
    && forall i {:trigger Linked(m, l, s, i)} :: 0 <= i < |s| ==> Linked(m, l, s, i)
  }

  ghost predicate PoolLink(m: Pairs, s: seq<Ptr>, i: int) {
    0 <= i < |s| && s[i] in m && m[s[i]].a.next == PairAt(s, i + 1)
  }

  /** s is the free list starting at head, linked through a.next. */
  ghost predicate PoolOk(m: Pairs, head: Ptr, s: seq<Ptr>) {
    && head == PairAt(s, 0)
    && NULL !in s && Distinct(s)
    && forall i {:trigger PoolLink(m, s, i)} :: 0 <= i < |s| ==> PoolLink(m, s, i)
  }

  /** The leaves stored in the pairs are the recorded ones. */
  ghost predicate Anchored(m: Pairs, edges: Edges) {
    forall p :: p in edges ==>
      p != NULL && p in m && m[p].a.leaf == edges[p].0 && m[p].b.leaf == edges[p].1 && edges[p].0 != edges[p].1
  }

  ghost predicate Joins(e: (Ptr, Ptr), l: Ptr) {
    e.0 == l || e.1 == l
  }

  /** What is left of the pairs without those of leaf. */
  ghost function CutOff(edges: Edges, leaf: Ptr): Edges {
    map p | p in edges && !Joins(edges[p], leaf) :: edges[p]
  }

  /** The list of every leaf holds exactly the pairs that touch that leaf. */
  ghost predicate Threaded(edges: Edges, lists: Lists) {
    && (forall p :: p in edges ==> edges[p].0 in lists && edges[p].1 in lists)
    && (forall l, p {:trigger p in lists[l]} {:trigger Joins(edges[p], l)} ::
      l in lists ==> (p in lists[l] <==> p in edges && Joins(edges[p], l)))
  }

  ghost predicate AllLists(m: Pairs, heads: Heads, lists: Lists) {
    heads.Keys == lists.Keys &&
    forall l :: l in lists ==> ListOk(m, heads[l], l, lists[l])
  }

  ghost predicate Wired(m: Pairs, heads: Heads, edges: Edges, lists: Lists) {
    Anchored(m, edges) && Threaded(edges, lists) && AllLists(m, heads, lists)
  }

  // ---- what the pointer writes do ----

  function SetPrev(m: Pairs, q: Ptr, l: Ptr, p: Ptr): Pairs {
    if q in m then m[q := WithThread(m[q], l, ThreadOf(m[q], l).(prev := p))] else m
  }

  function SetNext(m: Pairs, q: Ptr, l: Ptr, p: Ptr): Pairs {
    if q in m then m[q := WithThread(m[q], l, ThreadOf(m[q], l).(next := p))] else m
  }

  ghost function Inserted(m: Pairs, p: Ptr, a: Ptr, b: Ptr, nextA: Ptr, nextB: Ptr): Pairs {
    SetPrev(SetPrev(m[p := Pair(Thread(NULL, a, nextA), Thread(NULL, b, nextB), 0)], nextA, a, p), nextB, b, p)
  }

  function Unlinked(m: Pairs, t: Thread): Pairs {
    SetNext(SetPrev(m, t.next, t.leaf, t.prev), t.prev, t.leaf, t.next)
  }

  // ---- single lists ----

  lemma PushedList(m: Pairs, head: Ptr, l: Ptr, s: seq<Ptr>, p: Ptr, m': Pairs)
    requires ListOk(m, head, l, s) && p !in s && p != NULL
    requires p in m' && Touches(m'[p], l) && ThreadOf(m'[p], l) == Thread(NULL, l, head)
    requires forall q :: q in s ==> q in m && q in m' && Touches(m'[q], l)
    requires forall q :: q in s ==> ThreadOf(m'[q], l) == if q == head then ThreadOf(m[q], l).(prev := p)
      else ThreadOf(m[q], l)
    ensures ListOk(m', p, l, [p] + s)
  {
    var t := [p] + s;
    forall i | 0 <= i < |t| ensures Linked(m', l, t, i) {
      if i > 0 {
        assert t[i] == s[i - 1];
        assert Linked(m, l, s, i - 1);
      }
    }
  }

  lemma KeptList(m: Pairs, head: Ptr, l: Ptr, s: seq<Ptr>, m': Pairs)
    requires ListOk(m, head, l, s)
    requires forall q :: q in s ==> q in m && q in m' && Touches(m'[q], l) && ThreadOf(m'[q], l) == ThreadOf(m[q], l)
    ensures ListOk(m', head, l, s)
  {
    forall i | 0 <= i < |s| ensures Linked(m', l, s, i) {
      assert Linked(m, l, s, i);
    }
  }

  ghost function Without<T>(s: seq<T>, k: nat): seq<T>
    requires k < |s|
  {
    s[..k] + s[k + 1..]
  }

  /** Thread t of q after its neighbour s[k] has been bridged over. */
  ghost function Bridged(t: Thread, q: Ptr, s: seq<Ptr>, k: nat): Thread {
    Thread(if q == PairAt(s, k + 1) then PairAt(s, k - 1) else t.prev, t.leaf, if q == PairAt(s, k - 1)
      then PairAt(s, k + 1) else t.next)
  }

  lemma DroppedList(m: Pairs, head: Ptr, l: Ptr, s: seq<Ptr>, k: nat, m': Pairs)
    requires ListOk(m, head, l, s) && k < |s|
    requires forall q :: q in s && q != s[k] ==> q in m && q in m' && Touches(m'[q], l)
    requires forall q :: q in s && q != s[k] ==> ThreadOf(m'[q], l) == Bridged(ThreadOf(m[q], l), q, s, k)
    ensures ListOk(m', if k == 0 then PairAt(s, 1) else head, l, Without(s, k))
  {
    var t := Without(s, k);
    forall i | 0 <= i < |t| ensures Linked(m', l, t, i) {
      var j := if i < k then i else i + 1;
      assert t[i] == s[j] && s[j] != s[k];
      assert Linked(m, l, s, j);
      assert PairAt(t, i - 1) == (if j == k + 1 then PairAt(s, k - 1) else PairAt(s, j - 1));
      assert PairAt(t, i + 1) == (if j == k - 1 then PairAt(s, k + 1) else PairAt(s, j + 1));
    }
  }

  // ---- insertion ----

  /** Insertion changes one prev link for a and one for b, and nothing in the other threads. */
  lemma InsertedThread(m: Pairs, p: Ptr, a: Ptr, b: Ptr, nextA: Ptr, nextB: Ptr, q: Ptr, l: Ptr)
    requires q in m && q != p && Touches(m[q], l) && a != b && m[q].a.leaf != m[q].b.leaf
    requires nextA in m ==> nextA != p && m[nextA].a.leaf != m[nextA].b.leaf && Touches(m[nextA], a)
    requires nextB in m ==> nextB != p && m[nextB].a.leaf != m[nextB].b.leaf && Touches(m[nextB], b)
    ensures var m' := Inserted(m, p, a, b, nextA, nextB);
            q in m' && m'[q].a.leaf == m[q].a.leaf && m'[q].b.leaf == m[q].b.leaf && m'[q].id == m[q].id &&
            ThreadOf(m'[q], l) == if (l == a && q == nextA) || (l == b && q == nextB)
              then ThreadOf(m[q], l).(prev := p) else ThreadOf(m[q], l)
  {
  }

  lemma HeadListed(m: Pairs, heads: Heads, edges: Edges, lists: Lists, l: Ptr)
    requires Wired(m, heads, edges, lists) && l in lists
    ensures heads[l] != NULL ==> heads[l] in edges && Joins(edges[heads[l]], l) && heads[l] in m
  {
    assert ListOk(m, heads[l], l, lists[l]);
    assert heads[l] != NULL ==> heads[l] in lists[l];
  }

  ghost function ListsWith(lists: Lists, p: Ptr, a: Ptr, b: Ptr): (r: Lists) {
    map l | l in lists :: if l == a || l == b then [p] + lists[l] else lists[l]
  }

  ghost function HeadsWith(heads: Heads, p: Ptr, a: Ptr, b: Ptr): (r: Heads) {
    map l | l in heads :: if l == a || l == b then p else heads[l]
  }

  lemma InsertKeepsList(m: Pairs, heads: Heads, edges: Edges, lists: Lists, p: Ptr, a: Ptr, b: Ptr, l: Ptr)
    requires Wired(m, heads, edges, lists) && NULL !in m
    requires p !in edges && p != NULL && a != b && a in lists && b in lists && l in lists
    ensures var m' := Inserted(m, p, a, b, heads[a], heads[b]);
            if l == a || l == b then ListOk(m', p, l, [p] + lists[l]) else ListOk(m', heads[l], l, lists[l])
  {
    var m' := Inserted(m, p, a, b, heads[a], heads[b]);
    var s := lists[l];
    HeadListed(m, heads, edges, lists, a);
    HeadListed(m, heads, edges, lists, b);
    assert ListOk(m, heads[l], l, s);
    forall q | q in s
      ensures q in m && q in m' && Touches(m'[q], l)
      ensures ThreadOf(m'[q], l) == if (l == a || l == b) && q == heads[l] then ThreadOf(m[q], l).(prev := p)
        else ThreadOf(m[q], l)
    {
      InsertedThread(m, p, a, b, heads[a], heads[b], q, l);
    }
    if l == a || l == b {
      PushedList(m, heads[l], l, s, p, m');
    } else {
      KeptList(m, heads[l], l, s, m');
    }
  }

  lemma InsertKeepsThreaded(edges: Edges, lists: Lists, p: Ptr, a: Ptr, b: Ptr)
    requires Threaded(edges, lists)
    requires p !in edges && a != b && a in lists && b in lists
    ensures Threaded(edges[p := (a, b)], ListsWith(lists, p, a, b))
  {
  }

  lemma InsertKeepsWired(m: Pairs, heads: Heads, edges: Edges, lists: Lists, p: Ptr, a: Ptr, b: Ptr)
    requires Wired(m, heads, edges, lists) && NULL !in m
    requires p !in edges && p != NULL && a != b && a in lists && b in lists
    ensures Wired(Inserted(m, p, a, b, heads[a], heads[b]), HeadsWith(heads, p, a, b), edges[p := (a, b)],
      ListsWith(lists, p, a, b))
  {
    HeadListed(m, heads, edges, lists, a);
    HeadListed(m, heads, edges, lists, b);
    InsertKeepsThreaded(edges, lists, p, a, b);
    var m', lists' := Inserted(m, p, a, b, heads[a], heads[b]), ListsWith(lists, p, a, b);
    forall l | l in lists' ensures ListOk(m', HeadsWith(heads, p, a, b)[l], l, lists'[l]) {
      InsertKeepsList(m, heads, edges, lists, p, a, b, l);
    }
  }

  // ---- removal ----

  /** Unlinking bridges the thread's neighbours in its own list and touches no other list. */
  lemma UnlinkedThread(m: Pairs, s: seq<Ptr>, k: nat, o: Ptr, q: Ptr, l: Ptr)
    requires k < |s| && NULL !in s && Distinct(s) && NULL !in m && Linked(m, o, s, k)
    requires forall r :: r in s ==> r in m && Touches(m[r], o) && m[r].a.leaf != m[r].b.leaf
    requires q in m && q != s[k] && Touches(m[q], l) && m[q].a.leaf != m[q].b.leaf
    ensures var m' := Unlinked(m, ThreadOf(m[s[k]], o));
            q in m' && m'[q].a.leaf == m[q].a.leaf && m'[q].b.leaf == m[q].b.leaf &&
            ThreadOf(m'[q], l) == if l == o then Bridged(ThreadOf(m[q], l), q, s, k) else ThreadOf(m[q], l)
  {
    assert PairAt(s, k + 1) != NULL ==> PairAt(s, k + 1) in s;
    assert PairAt(s, k - 1) != NULL ==> PairAt(s, k - 1) in s;
  }

  /** The remaining list of a leaf that is being cleared: its next links, but not its prev links, are good. */
  ghost predicate Draining(m: Pairs, leaf: Ptr, rest: seq<Ptr>) {
    && NULL !in rest && Distinct(rest)
    && forall i {:trigger DrainLink(m, leaf, rest, i)} :: 0 <= i < |rest| ==> DrainLink(m, leaf, rest, i)
  }

  ghost predicate DrainLink(m: Pairs, leaf: Ptr, rest: seq<Ptr>, i: int) {
    0 <= i < |rest| && rest[i] in m && Touches(m[rest[i]], leaf)
      && ThreadOf(m[rest[i]], leaf).next == PairAt(rest, i + 1)
  }

  /** Wired, except that the list of leaf is being drained. */
  ghost predicate HalfWired(m: Pairs, heads: Heads, edges: Edges, lists: Lists, leaf: Ptr) {
    && Anchored(m, edges) && Threaded(edges, lists) && heads.Keys == lists.Keys
    && leaf in lists && Draining(m, leaf, lists[leaf])
    && forall l :: l in lists && l != leaf ==> ListOk(m, heads[l], l, lists[l])
  }

  ghost function Other(e: (Ptr, Ptr), l: Ptr): Ptr {
    if e.0 == l then e.1 else e.0
  }

  lemma StartDraining(m: Pairs, heads: Heads, edges: Edges, lists: Lists, leaf: Ptr)
    requires Wired(m, heads, edges, lists) && leaf in lists
    ensures heads[leaf] == PairAt(lists[leaf], 0) && HalfWired(m, heads[leaf := NULL], edges, lists, leaf)
  {
    var s := lists[leaf];
    assert ListOk(m, heads[leaf], leaf, s);
    forall i | 0 <= i < |s| ensures DrainLink(m, leaf, s, i) {
      assert Linked(m, leaf, s, i);
    }
  }

  lemma EndDraining(m: Pairs, heads: Heads, edges: Edges, lists: Lists, leaf: Ptr)
    requires HalfWired(m, heads, edges, lists, leaf) && heads[leaf] == NULL && lists[leaf] == []
    ensures Wired(m, heads, edges, lists)
    ensures forall p :: p in edges ==> !Joins(edges[p], leaf)
  {
  }

  ghost function ListsWithout(lists: Lists, leaf: Ptr, o: Ptr, k: nat): Lists
    requires leaf in lists && lists[leaf] != [] && o in lists && k < |lists[o]|
  {
    map l | l in lists :: if l == leaf then lists[l][1..] else if l == o then Without(lists[o], k) else lists[l]
  }

  /** What one round of the clearing loop leaves behind: first pair p of leaf, k its place in the other leaf's list. */
  ghost predicate DrainStep(m: Pairs, heads: Heads, edges: Edges, lists: Lists, leaf: Ptr, k: nat, free: Ptr,
                            m': Pairs, heads': Heads, edges': Edges, lists': Lists)
  {
    && leaf in lists && lists[leaf] != [] && lists[leaf][0] in m && lists[leaf][0] in edges
    && var p := lists[leaf][0];
       var o := Other(edges[p], leaf);
       && o in lists && o in heads && k < |lists[o]| && lists[o][k] == p
       && var t := ThreadOf(m[p], o);
          var m1 := Unlinked(m, t);
          && p in m1 && m' == m1[p := m1[p].(a := m1[p].a.(next := free))]
          && heads' == (if t.prev == NULL then heads[o := t.next] else heads)
          && edges' == edges - {p}
          && lists' == ListsWithout(lists, leaf, o, k)
  }

  lemma InWithout(s: seq<Ptr>, k: nat, q: Ptr)
    requires k < |s| && Distinct(s)
    ensures q in Without(s, k) <==> q in s && q != s[k]
  {
    if q in s && q != s[k] {
      var j :| 0 <= j < |s| && s[j] == q;
      assert Without(s, k)[if j < k then j else j - 1] == q;
    }
  }

  /** The first pair of leaf leads to o, where it is the k-th pair. */
  ghost predicate Drainable(edges: Edges, lists: Lists, leaf: Ptr, o: Ptr, k: nat) {
    && leaf in lists && lists[leaf] != [] && Distinct(lists[leaf])
    && o in lists && k < |lists[o]| && Distinct(lists[o]) && lists[o][k] == lists[leaf][0] && o != leaf
    && lists[leaf][0] in edges && edges[lists[leaf][0]] in {(leaf, o), (o, leaf)}
  }

  lemma InDrained(edges: Edges, lists: Lists, leaf: Ptr, o: Ptr, k: nat, l: Ptr, q: Ptr)
    requires Threaded(edges, lists) && Drainable(edges, lists, leaf, o, k) && l in lists
    ensures q in ListsWithout(lists, leaf, o, k)[l] <==> q in lists[l] && q != lists[leaf][0]
  {
    var p := lists[leaf][0];
    if l == leaf {
      assert lists[leaf] == [p] + lists[leaf][1..];
    } else if l == o {
      InWithout(lists[o], k, q);
    } else {
      assert p in lists[l] ==> Joins(edges[p], l);
    }
  }

  lemma DrainKeepsThreaded(edges: Edges, lists: Lists, leaf: Ptr, o: Ptr, k: nat, edges': Edges, lists': Lists)
    requires Threaded(edges, lists) && Drainable(edges, lists, leaf, o, k)
    requires edges' == edges - {lists[leaf][0]} && lists' == ListsWithout(lists, leaf, o, k)
    ensures Threaded(edges', lists')
  {
    forall l, q | l in lists' ensures q in lists'[l] <==> q in edges' && Joins(edges'[q], l) {
      InDrained(edges, lists, leaf, o, k, l, q);
    }
  }

  lemma ListMembers(m: Pairs, edges: Edges, lists: Lists, l: Ptr)
    requires Anchored(m, edges) && Threaded(edges, lists) && l in lists
    ensures forall q :: q in lists[l] ==>
      q in edges && Joins(edges[q], l) && q in m && Touches(m[q], l) && m[q].a.leaf != m[q].b.leaf
  {
  }

  /** Effect of one draining round on the threads of the other pairs. */
  lemma DrainedThread(m: Pairs, heads: Heads, edges: Edges, lists: Lists, leaf: Ptr, k: nat, free: Ptr,
                      m': Pairs, heads': Heads, edges': Edges, lists': Lists, q: Ptr, l: Ptr)
    requires HalfWired(m, heads, edges, lists, leaf) && NULL !in m
    requires DrainStep(m, heads, edges, lists, leaf, k, free, m', heads', edges', lists')
    requires q in edges && q != lists[leaf][0] && Joins(edges[q], l)
    ensures q in m && q in m' && Touches(m'[q], l) && m'[q].a.leaf == m[q].a.leaf && m'[q].b.leaf == m[q].b.leaf
    ensures var o := Other(edges[lists[leaf][0]], leaf);
            ThreadOf(m'[q], l) == if l == o then Bridged(ThreadOf(m[q], l), q, lists[o], k) else ThreadOf(m[q], l)
  {
    var o := Other(edges[lists[leaf][0]], leaf);
    var s := lists[o];
    assert o != leaf by { assert Joins(edges[lists[leaf][0]], leaf); }
    assert ListOk(m, heads[o], o, s) && Linked(m, o, s, k);
    ListMembers(m, edges, lists, o);
    UnlinkedThread(m, s, k, o, q, l);
  }

  lemma DrainKeepsLists(m: Pairs, heads: Heads, edges: Edges, lists: Lists, leaf: Ptr, k: nat, free: Ptr,
                        m': Pairs, heads': Heads, edges': Edges, lists': Lists, l: Ptr)
    requires HalfWired(m, heads, edges, lists, leaf) && NULL !in m && l in lists && l != leaf
    requires DrainStep(m, heads, edges, lists, leaf, k, free, m', heads', edges', lists')
    ensures l in heads' && ListOk(m', heads'[l], l, lists'[l])
  {
    var o := Other(edges[lists[leaf][0]], leaf);
    var s := lists[l];
    assert ListOk(m, heads[l], l, s);
    assert Joins(edges[lists[leaf][0]], leaf);
    forall q | q in s && q != lists[leaf][0]
      ensures q in m && q in m' && Touches(m'[q], l)
      ensures ThreadOf(m'[q], l) == if l == o then Bridged(ThreadOf(m[q], l), q, s, k) else ThreadOf(m[q], l)
    {
      DrainedThread(m, heads, edges, lists, leaf, k, free, m', heads', edges', lists', q, l);
    }
    if l == o {
      assert Linked(m, o, s, k);
      DroppedList(m, heads[o], o, s, k, m');
    } else {
      KeptList(m, heads[l], l, s, m');
    }
  }

  lemma DrainKeepsRest(m: Pairs, heads: Heads, edges: Edges, lists: Lists, leaf: Ptr, k: nat, free: Ptr,
                       m': Pairs, heads': Heads, edges': Edges, lists': Lists)
    requires HalfWired(m, heads, edges, lists, leaf) && NULL !in m
    requires DrainStep(m, heads, edges, lists, leaf, k, free, m', heads', edges', lists')
    ensures Draining(m', leaf, lists'[leaf])
  {
    var rest, t := lists[leaf], lists'[leaf];
    ListMembers(m, edges, lists, leaf);
    forall i | 0 <= i < |t| ensures DrainLink(m', leaf, t, i) {
      assert DrainLink(m, leaf, rest, i + 1);
      assert rest[i + 1] in rest && rest[0] != rest[i + 1];
      DrainedThread(m, heads, edges, lists, leaf, k, free, m', heads', edges', lists', rest[i + 1], leaf);
    }
  }

  lemma DrainKeepsAnchors(m: Pairs, heads: Heads, edges: Edges, lists: Lists, leaf: Ptr, k: nat, free: Ptr,
                          m': Pairs, heads': Heads, edges': Edges, lists': Lists)
    requires HalfWired(m, heads, edges, lists, leaf) && NULL !in m
    requires DrainStep(m, heads, edges, lists, leaf, k, free, m', heads', edges', lists')
    ensures Anchored(m', edges')
  {
    forall q | q in edges' ensures q in m' && m'[q].a.leaf == edges[q].0 && m'[q].b.leaf == edges[q].1 {
      DrainedThread(m, heads, edges, lists, leaf, k, free, m', heads', edges', lists', q, edges[q].0);
    }
  }

  lemma DrainOnce(m: Pairs, heads: Heads, edges: Edges, lists: Lists, leaf: Ptr, k: nat, free: Ptr,
                  m': Pairs, heads': Heads, edges': Edges, lists': Lists)
    requires HalfWired(m, heads, edges, lists, leaf) && NULL !in m
    requires DrainStep(m, heads, edges, lists, leaf, k, free, m', heads', edges', lists')
    ensures HalfWired(m', heads', edges', lists', leaf)
  {
    var p := lists[leaf][0];
    var o := Other(edges[p], leaf);
    assert o != leaf && Joins(edges[p], leaf) && ListOk(m, heads[o], o, lists[o]);
    DrainKeepsThreaded(edges, lists, leaf, o, k, edges', lists');
    DrainKeepsAnchors(m, heads, edges, lists, leaf, k, free, m', heads', edges', lists');
    DrainKeepsRest(m, heads, edges, lists, leaf, k, free, m', heads', edges', lists');
    forall l | l in lists && l != leaf ensures l in heads' && ListOk(m', heads'[l], l, lists'[l]) {
      DrainKeepsLists(m, heads, edges, lists, leaf, k, free, m', heads', edges', lists', l);
    }
  }

  // ---- the free list ----

  lemma PoolKept(m: Pairs, head: Ptr, s: seq<Ptr>, m': Pairs)
    requires PoolOk(m, head, s)
    requires forall p :: p in s && p in m ==> p in m' && m'[p] == m[p]
    ensures PoolOk(m', head, s)
  {
    forall i | 0 <= i < |s| ensures PoolLink(m', s, i) {
      assert PoolLink(m, s, i);
    }
  }

  lemma PoolPushed(m: Pairs, head: Ptr, s: seq<Ptr>, p: Ptr, m': Pairs)
    requires PoolOk(m, head, s) && p !in s && p != NULL
    requires p in m' && m'[p].a.next == head
    requires forall q :: q in s && q in m ==> q in m' && m'[q] == m[q]
    ensures PoolOk(m', p, [p] + s)
  {
    var t := [p] + s;
    forall i | 0 <= i < |t| ensures PoolLink(m', t, i) {
      if i > 0 {
        assert t[i] == s[i - 1] && PoolLink(m, s, i - 1);
      }
    }
  }

  lemma PoolPopped(m: Pairs, head: Ptr, s: seq<Ptr>)
    requires PoolOk(m, head, s) && head != NULL
    ensures head in m && head == s[0] && PoolOk(m, m[head].a.next, s[1..])
  {
    assert PoolLink(m, s, 0);
    var t := s[1..];
    forall i | 0 <= i < |t| ensures PoolLink(m, t, i) {
      assert PoolLink(m, s, i + 1);
    }
  }
}
