/** Bins in memory: chains for the table and a free list, all linked through one field. */
module HashChains {
  import opened Options
  import opened Arrays
  import opened Addresses

  /** A bin in use holds an element; a pooled one does not. */
  datatype Bin<E> = Bin(elt: Option<E>, hash: nat, next: Ptr)
  type Bins<E> = map<Ptr, Bin<E>>

  function At(s: seq<Ptr>, i: int): Ptr {
    if 0 <= i < |s| then s[i] else NULL
  }

  ghost predicate Linked<E>(m: Bins<E>, s: seq<Ptr>, i: int)
    requires 0 <= i < |s|
  {
    s[i] in m && m[s[i]].next == At(s, i + 1)
  }

  /** The bins from head on, in order. */
  ghost predicate Chain<E>(m: Bins<E>, head: Ptr, s: seq<Ptr>) {
    head == At(s, 0) && Distinct(s) && forall i {:trigger Linked(m, s, i)} :: 0 <= i < |s| ==> Linked(m, s, i)
  }

  lemma ChainKept<E>(m: Bins<E>, m': Bins<E>, head: Ptr, s: seq<Ptr>)
    requires Chain(m, head, s) && forall p :: p in s && p in m ==> p in m' && m'[p].next == m[p].next
    ensures Chain(m', head, s)
  {
    forall i | 0 <= i < |s| ensures Linked(m', s, i) {
      assert Linked(m, s, i);
    }
  }

  lemma ChainInMemory<E>(m: Bins<E>, head: Ptr, s: seq<Ptr>)
    requires Chain(m, head, s)
    ensures forall p :: p in s ==> p in m
  {
    forall p | p in s ensures p in m {
      var i :| 0 <= i < |s| && s[i] == p;
      assert Linked(m, s, i);
    }
  }

  lemma NoRest<E>(m: Bins<E>, s: seq<Ptr>)
    requires Chain(m, NULL, s) && NULL !in m
    ensures s == []
  {
    if s != [] {
      ChainHead(m, NULL, s);
    }
  }

  lemma ChainHead<E>(m: Bins<E>, head: Ptr, s: seq<Ptr>)
    requires Chain(m, head, s) && s != []
    ensures head == s[0] && head in m
  {
    assert Linked(m, s, 0);
  }

  lemma ChainPushed<E>(m: Bins<E>, head: Ptr, s: seq<Ptr>, p: Ptr, m': Bins<E>)
    requires Chain(m, head, s) && p !in s && p in m' && m'[p].next == head
    requires forall q :: q in s && q in m ==> q in m' && m'[q].next == m[q].next
    ensures Chain(m', p, [p] + s)
  {
    ChainKept(m, m', head, s);
    forall i | 0 <= i < |[p] + s| ensures Linked(m', [p] + s, i) {
      if i > 0 {
        assert Linked(m', s, i - 1);
      }
    }
  }

  lemma ChainPopped<E>(m: Bins<E>, head: Ptr, s: seq<Ptr>)
    requires Chain(m, head, s) && s != []
    ensures head == s[0] && head in m && Chain(m, m[head].next, s[1..]) && head !in s[1..]
  {
    assert Linked(m, s, 0);
    forall i | 0 <= i < |s[1..]| ensures Linked(m, s[1..], i) {
      assert Linked(m, s, i + 1);
    }
  }

  /** The chain without its bin at place k. */
  function Cut(s: seq<Ptr>, k: nat): seq<Ptr>
    requires k < |s|
  {
    s[..k] + s[k + 1..]
  }

  lemma CutMembers(s: seq<Ptr>, k: nat)
    requires Distinct(s) && k < |s|
    ensures Distinct(Cut(s, k)) && forall p :: p in Cut(s, k) <==> p in s && p != s[k]
  {
    forall p ensures p in Cut(s, k) <==> p in s && p != s[k] {
      if p in s && p != s[k] {
        var i :| 0 <= i < |s| && s[i] == p;
        assert Cut(s, k)[if i < k then i else i - 1] == p;
      }
    }
  }

  /** The predecessor, or the head, skips bin k. */
  lemma ChainCut<E>(m: Bins<E>, head: Ptr, s: seq<Ptr>, k: nat, m': Bins<E>)
    requires Chain(m, head, s) && k < |s| && forall p :: p in s && p != s[k] ==> p in m'
    requires k > 0 ==> m'[s[k - 1]].next == At(s, k + 1)
    requires forall p :: p in s && p in m && p != s[k] && (k > 0 ==> p != s[k - 1]) ==> m'[p].next == m[p].next
    ensures Chain(m', if k == 0 then At(s, 1) else head, Cut(s, k))
  {
    CutMembers(s, k);
    forall i | 0 <= i < |Cut(s, k)| ensures Linked(m', Cut(s, k), i) {
      assert Linked(m, s, if i < k then i else i + 1);
    }
  }
}

/** The hash table as a whole. */
module HashTables {
  import opened Options
  import opened Arrays
  import opened Addresses
  import opened HashChains

  /** How lookup keys and elements are told apart: a key finds an element when their classes agree. */
  datatype Matching<!K, !E, !C> = Matching(ofKey: K -> C, ofElt: E -> C, hash: C -> nat)

  function Slot(hash: nat, size: nat): (i: nat)
    requires size > 0
    ensures i < size
  {
    hash % size
  }

  ghost predicate ChainsOk<E>(m: Bins<E>, table: seq<Ptr>, chains: seq<seq<Ptr>>) {
    0 < |table| == |chains| && forall i {:trigger table[i]} {:trigger chains[i]} ::
      0 <= i < |table| ==> Chain(m, table[i], chains[i])
  }

  /** Bin p is in use, and its hash belongs to chain i of size. */
  ghost predicate Placed<E>(m: Bins<E>, size: nat, p: Ptr, i: int)
    requires size > 0
  {
    p in m && m[p].elt.Some? && Slot(m[p].hash, size) == i
  }

  /** Every bin in use is in the chain for its hash, and nothing else is in a chain. */
  ghost predicate PlacesOk<E>(m: Bins<E>, chains: seq<seq<Ptr>>) {
    && 0 < |chains|
    && (forall i, p {:trigger p in chains[i]} {:trigger Placed(m, |chains|, p, i)} ::
      0 <= i < |chains| ==> (p in chains[i] <==> Placed(m, |chains|, p, i)))
  }

  /** The bins in use by the class of their element: no two of them match. */
  ghost predicate Filed<K, E, C>(f: Matching<K, E, C>, m: Bins<E>, contents: map<C, Ptr>) {
    && (forall c :: c in contents ==>
      contents[c] in m && m[contents[c]].elt.Some? && f.ofElt(m[contents[c]].elt.value) == c)
    && (forall p :: p in m && m[p].elt.Some? ==> FiledAs(f, m, contents, p, f.ofElt(m[p].elt.value)))
  }

  ghost predicate FiledAs<K, E, C>(f: Matching<K, E, C>, m: Bins<E>, contents: map<C, Ptr>, p: Ptr, c: C)
    requires p in m
  {
    m[p].hash == f.hash(c) && c in contents && contents[c] == p
  }

  ghost predicate Chained<K, E,
    C>(f: Matching<K, E, C>, m: Bins<E>, table: seq<Ptr>, chains: seq<seq<Ptr>>, contents: map<C, Ptr>) {
    ChainsOk(m, table, chains) && PlacesOk(m, chains) && Filed(f, m, contents)
  }

  /** The unused bins are the pool and the spare ones. */
  ghost predicate PooledBut<E>(m: Bins<E>, head: Ptr, pool: seq<Ptr>, brk: nat, spares: set<Ptr>) {
    && Chain(m, head, pool) && 0 < brk && (forall p :: p in m ==> 0 < p < brk)
    && (forall p :: p in pool || p in spares <==> p in m && m[p].elt.None?) && (forall p :: p in spares ==> p !in pool)
  }

  ghost predicate Pooled<E>(m: Bins<E>, head: Ptr, pool: seq<Ptr>, brk: nat) {
    PooledBut(m, head, pool, brk, {})
  }

  /** The elements by class. */
  ghost function View<C, E>(m: Bins<E>, contents: map<C, Ptr>): map<C, E> {
    map c | c in contents && contents[c] in m && m[contents[c]].elt.Some? :: m[contents[c]].elt.value
  }

  // ---- one bin more, one bin less ----

  lemma UsedChains<E>(m: Bins<E>, table: seq<Ptr>, chains: seq<seq<Ptr>>, bin: Ptr, used: Bin<E>, i: nat, m': Bins<E>,
                      table': seq<Ptr>, chains': seq<seq<Ptr>>)
    requires ChainsOk(m, table, chains) && PlacesOk(m, chains) && bin in m && m[bin].elt.None? && i < |table|
    requires used.next == table[i] && m' == m[bin := used] && table' == table[i := bin]
    requires chains' == chains[i := [bin] + chains[i]]
    ensures ChainsOk(m', table', chains')
  {
    forall j | 0 <= j < |table'| ensures Chain(m', table'[j], chains'[j]) {
      assert !Placed(m, |chains|, bin, j);
      if j == i {
        ChainPushed(m, table[i], chains[i], bin, m');
      } else {
        ChainKept(m, m', table[j], chains[j]);
      }
    }
  }

  lemma UsedPlaces<E>(m: Bins<E>, chains: seq<seq<Ptr>>, bin: Ptr, used: Bin<E>, i: nat, m': Bins<E>,
                      chains': seq<seq<Ptr>>)
    requires PlacesOk(m, chains) && bin in m && m[bin].elt.None? && used.elt.Some? && i == Slot(used.hash, |chains|)
    requires m' == m[bin := used] && chains' == chains[i := [bin] + chains[i]]
    ensures PlacesOk(m', chains')
  {
    forall j, p | 0 <= j < |chains'| ensures p in chains'[j] <==> Placed(m', |chains'|, p, j) {
      assert p in chains[j] <==> Placed(m, |chains|, p, j);
    }
  }

  lemma BinUsed<K, E,
    C>(f: Matching<K, E, C>, m: Bins<E>, table: seq<Ptr>, chains: seq<seq<Ptr>>, contents: map<C, Ptr>,
                         bin: Ptr, elt: E, hash: nat, i: nat, m': Bins<E>)
    requires Chained(f, m, table, chains, contents) && bin in m && m[bin].elt.None?
    requires i == Slot(hash, |table|) && f.ofElt(elt) !in contents && hash == f.hash(f.ofElt(elt))
    requires m' == m[bin := Bin(Some(elt), hash, table[i])]
    ensures Chained(f, m', table[i := bin], chains[i := [bin] + chains[i]], contents[f.ofElt(elt) := bin])
    ensures View(m', contents[f.ofElt(elt) := bin]) == View(m, contents)[f.ofElt(elt) := elt]
  {
    UsedChains(m, table, chains, bin, m'[bin], i, m', table[i := bin], chains[i := [bin] + chains[i]]);
    UsedPlaces(m, chains, bin, m'[bin], i, m', chains[i := [bin] + chains[i]]);
    forall p | p in m' && m'[p].elt.Some?
      ensures FiledAs(f, m', contents[f.ofElt(elt) := bin], p, f.ofElt(m'[p].elt.value))
    {
      assert p != bin ==> FiledAs(f, m, contents, p, f.ofElt(m[p].elt.value));
    }
  }

  lemma SpareUsed<E>(m: Bins<E>, head: Ptr, pool: seq<Ptr>, brk: nat, bin: Ptr, used: Bin<E>)
    requires PooledBut(m, head, pool, brk, {bin}) && used.elt.Some?
    ensures Pooled(m[bin := used], head, pool, brk)
  {
    assert bin in {bin};
    ChainKept(m, m[bin := used], head, pool);
  }

  /** A new bin, and all the rest as before. */
  lemma SpareAdded<E>(m: Bins<E>, head: Ptr, pool: seq<Ptr>, brk: nat, spares: set<Ptr>, bin: Bin<E>)
    requires PooledBut(m, head, pool, brk, spares) && bin.elt.None?
    ensures PooledBut(m[brk := bin], head, pool, brk + 1, spares + {brk})
  {
    assert brk !in m;
    ChainInMemory(m, head, pool);
    ChainKept(m, m[brk := bin], head, pool);
    forall p ensures p in pool || p in spares + {brk} <==> p in m[brk := bin] && m[brk := bin][p].elt.None? {
      assert p in pool || p in spares <==> p in m && m[p].elt.None?;
    }
  }

  lemma SpareRecycled<E>(m: Bins<E>, head: Ptr, pool: seq<Ptr>, brk: nat, spares: set<Ptr>, bin: Ptr)
    requires PooledBut(m, head, pool, brk, spares) && bin in spares && bin in m
    ensures PooledBut(m[bin := m[bin].(elt := None, next := head)], bin, [bin] + pool, brk, spares - {bin})
  {
    ChainPushed(m, head, pool, bin, m[bin := m[bin].(elt := None, next := head)]);
  }

  lemma SpareTaken<E>(m: Bins<E>, head: Ptr, pool: seq<Ptr>, brk: nat)
    requires Pooled(m, head, pool, brk) && head != NULL
    ensures head in m && m[head].elt.None? && pool != [] && PooledBut(m, m[head].next, pool[1..], brk, {head})
  {
    ChainPopped(m, head, pool);
    assert pool == [head] + pool[1..] && head in pool;
  }

  /** New unused bins do not matter to the table. */
  lemma ChainedGrown<K, E,
    C>(f: Matching<K, E, C>, m: Bins<E>, m': Bins<E>, table: seq<Ptr>, chains: seq<seq<Ptr>>, contents: map<C, Ptr>)
    requires Chained(f, m, table, chains, contents) && Grown(m, m')
    ensures Chained(f, m', table, chains, contents) && View(m', contents) == View(m, contents)
  {
    forall i | 0 <= i < |table| ensures Chain(m', table[i], chains[i]) {
      ChainKept(m, m', table[i], chains[i]);
    }
    forall i, p | 0 <= i < |chains| ensures p in chains[i] <==> Placed(m', |chains|, p, i) {
      assert p in chains[i] <==> Placed(m, |chains|, p, i);
    }
    forall p | p in m' && m'[p].elt.Some? ensures FiledAs(f, m', contents, p, f.ofElt(m'[p].elt.value)) {
      assert FiledAs(f, m, contents, p, f.ofElt(m[p].elt.value));
    }
  }

  /** Bins in use are the same in m and m'. */
  ghost predicate Grown<E>(m: Bins<E>, m': Bins<E>) {
    && (forall p :: p in m && m[p].elt.Some? ==> p in m' && m'[p] == m[p])
    && (forall p :: p in m' && m'[p].elt.Some? ==> p in m && m[p].elt.Some?)
  }

  /** Memory after bin b, which follows prev (or is the first), has been unlinked and recycled. */
  function Recycled<E>(m: Bins<E>, prev: Ptr, b: Ptr, free: Ptr): Bins<E>
    requires b in m && (prev != NULL ==> prev in m)
  {
    var m1 := if prev == NULL then m else m[prev := m[prev].(next := m[b].next)];
    m1[b := m1[b].(elt := None, next := free)]
  }

  lemma CutChains<E>(m: Bins<E>, table: seq<Ptr>, chains: seq<seq<Ptr>>, i: nat, k: nat, b: Ptr, prev: Ptr, free: Ptr,
                     m': Bins<E>, table': seq<Ptr>, chains': seq<seq<Ptr>>)
    requires ChainsOk(m, table, chains) && PlacesOk(m, chains) && NULL !in m
    requires i < |table| && k < |chains[i]| && b == chains[i][k] && prev == At(chains[i], k - 1) && b in m
    requires prev != NULL ==> prev in m
    requires m' == Recycled(m, prev, b, free) && chains' == chains[i := Cut(chains[i], k)]
    requires table' == if prev == NULL then table[i := m[b].next] else table
    ensures ChainsOk(m', table', chains')
  {
    var s := chains[i];
    ChainInMemory(m, table[i], s);
    assert b in s && Placed(m, |chains|, b, i);
    assert k > 0 ==> s[k - 1] in s && Placed(m, |chains|, s[k - 1], i);
    assert Linked(m, s, k);
    forall j | 0 <= j < |table'| ensures Chain(m', table'[j], chains'[j]) {
      if j == i {
        ChainCut(m, table[i], s, k, m');
      } else {
        assert !Placed(m, |chains|, b, j) && (k > 0 ==> !Placed(m, |chains|, s[k - 1], j));
        ChainKept(m, m', table[j], chains[j]);
      }
    }
  }

  lemma CutPlaces<E>(m: Bins<E>, table: seq<Ptr>, chains: seq<seq<Ptr>>, i: nat, k: nat, b: Ptr, prev: Ptr, free: Ptr,
                     m': Bins<E>, chains': seq<seq<Ptr>>)
    requires ChainsOk(m, table, chains) && PlacesOk(m, chains) && i < |chains| && k < |chains[i]| && b == chains[i][k]
    requires b in m && (prev != NULL ==> prev in m) && m' == Recycled(m, prev, b, free)
    requires chains' == chains[i := Cut(chains[i], k)]
    ensures PlacesOk(m', chains')
  {
    CutMembers(chains[i], k);
    assert b in chains[i] && Placed(m, |chains|, b, i);
    forall j, p | 0 <= j < |chains'| ensures p in chains'[j] <==> Placed(m', |chains'|, p, j) {
      assert p in chains[j] <==> Placed(m, |chains|, p, j);
    }
  }

  lemma BinRecycled<K, E,
    C>(f: Matching<K, E, C>, m: Bins<E>, table: seq<Ptr>, chains: seq<seq<Ptr>>, contents: map<C, Ptr>,
                             i: nat, k: nat, b: Ptr, prev: Ptr, c: C, free: Ptr, m': Bins<E>)
    requires Chained(f, m, table, chains, contents) && NULL !in m
    requires i < |table| && k < |chains[i]| && b == chains[i][k] && prev == At(chains[i], k - 1)
    requires b in m && m[b].elt.Some? && c == f.ofElt(m[b].elt.value) && (prev != NULL ==> prev in m)
    requires m' == Recycled(m, prev, b, free)
    ensures Chained(f, m', if prev == NULL then table[i := m[b].next] else table, chains[i := Cut(chains[i], k)],
      contents - {c})
    ensures c in contents && View(m', contents - {c}) == View(m, contents) - {c}
  {
    CutChains(m, table, chains, i, k, b, prev, free, m', if prev == NULL then table[i := m[b].next]
      else table, chains[i := Cut(chains[i], k)]);
    CutPlaces(m, table, chains, i, k, b, prev, free, m', chains[i := Cut(chains[i], k)]);
    assert FiledAs(f, m, contents, b, c);
    forall p | p in m' && m'[p].elt.Some? ensures FiledAs(f, m', contents - {c}, p, f.ofElt(m'[p].elt.value)) {
      assert FiledAs(f, m, contents, p, f.ofElt(m[p].elt.value));
    }
  }

  lemma RecycledPooled<E>(m: Bins<E>, prev: Ptr, b: Ptr, free: Ptr, pool: seq<Ptr>, brk: nat)
    requires Pooled(m, free, pool, brk) && b in m && m[b].elt.Some? && (prev != NULL ==> prev in m && m[prev].elt.Some?)
    ensures Pooled(Recycled(m, prev, b, free), b, [b] + pool, brk)
  {
    ChainPushed(m, free, pool, b, Recycled(m, prev, b, free));
  }

  /** All that unlinking and recycling a bin does. */
  lemma BinUnlinked<K, E,
    C>(f: Matching<K, E, C>, m: Bins<E>, table: seq<Ptr>, chains: seq<seq<Ptr>>, contents: map<C, Ptr>,
                             i: nat, k: nat, b: Ptr, prev: Ptr, c: C, free: Ptr, pool: seq<Ptr>, brk: nat,
                               m': Bins<E>, table': seq<Ptr>)
    requires Chained(f, m, table, chains, contents) && Pooled(m, free, pool, brk)
    requires i < |table| && k < |chains[i]| && b == chains[i][k] && prev == At(chains[i], k - 1)
    requires b in m && m[b].elt.Some? && c == f.ofElt(m[b].elt.value)
    requires prev != NULL ==> prev in m && m[prev].elt.Some?
    requires m' == Recycled(m, prev, b, free) && table' == if prev == NULL then table[i := m[b].next] else table
    ensures Chained(f, m', table', chains[i := Cut(chains[i], k)], contents - {c})
    ensures Pooled(m', b, [b] + pool, brk) && |contents - {c}| == |contents| - 1
    ensures View(m', contents - {c}) == View(m, contents) - {c}
    ensures m[b].next == At(Cut(chains[i], k), k) && forall p :: p in m && p != b ==> p in m' && m'[p].elt == m[p].elt
  {
    BinRecycled(f, m, table, chains, contents, i, k, b, prev, c, free, m');
    RecycledPooled(m, prev, b, free, pool, brk);
    assert Linked(m, chains[i], k);
    assert contents == (contents - {c})[c := contents[c]];
  }

  // ---- bins in use and in the pool ----

  lemma {:induction false} ValuesCount<C>(m: map<C, Ptr>)
    requires forall c, d :: c in m && d in m && m[c] == m[d] ==> c == d
    ensures |m.Values| == |m|
    decreases |m|
  {
    if m != map[] {
      var c :| c in m;
      var rest := m - {c};
      assert m == rest[c := m[c]];
      ValuesCount(rest);
      assert m.Values == rest.Values + {m[c]} && m[c] !in rest.Values;
    }
  }

  lemma {:induction false} MembersCount(a: set<Ptr>, s: seq<Ptr>)
    requires Distinct(s) && forall p :: p in a <==> p in s
    ensures |a| == |s|
    decreases |s|
  {
    if s != [] {
      var rest := s[1..];
      assert s == [s[0]] + rest;
      forall p ensures p in a - {s[0]} <==> p in rest {
        assert p in a <==> p in s;
      }
      MembersCount(a - {s[0]}, rest);
    } else {
      assert a == {};
    }
  }

  lemma InUse<K, E, C>(f: Matching<K, E, C>, m: Bins<E>, contents: map<C, Ptr>)
    requires Filed(f, m, contents)
    ensures (forall p :: p in contents.Values <==> p in m && m[p].elt.Some?) && |contents.Values| == |contents|
  {
    forall p ensures p in contents.Values <==> p in m && m[p].elt.Some? {
      if p in m && m[p].elt.Some? {
        assert FiledAs(f, m, contents, p, f.ofElt(m[p].elt.value));
      }
    }
    ValuesCount(contents);
  }

  lemma BinsCount<E>(m: Bins<E>, used: set<Ptr>, pool: seq<Ptr>)
    requires Distinct(pool) && (forall p :: p in used <==> p in m && m[p].elt.Some?)
    requires forall p :: p in pool <==> p in m && m[p].elt.None?
    ensures |m| == |used| + |pool|
  {
    var pooled := m.Keys - used;
    MembersCount(pooled, pool);
    assert m.Keys == used + pooled;
  }

  // ---- what a filter has kept so far ----

  ghost predicate KeptBin<E>(m: Bins<E>, p: Ptr, keep: E -> bool) {
    p in m && m[p].elt.Some? && keep(m[p].elt.value)
  }

  /** The chains before i, and the first k bins of chain i, hold only elements that are kept. */
  ghost predicate KeptUpTo<E>(m: Bins<E>, chains: seq<seq<Ptr>>, i: nat, k: nat, keep: E -> bool)
    requires i <= |chains| && (k > 0 ==> i < |chains| && k <= |chains[i]|)
  {
    && (forall j, p :: 0 <= j < i && p in chains[j] ==> KeptBin(m, p, keep))
    && forall j :: 0 <= j < k ==> KeptBin(m, chains[i][j], keep)
  }

  lemma KeptAfterCut<E>(m: Bins<E>, m': Bins<E>, chains: seq<seq<Ptr>>, i: nat, k: nat, keep: E -> bool)
    requires PlacesOk(m, chains) && i < |chains| && k < |chains[i]| && KeptUpTo(m, chains, i, k, keep)
    requires forall p :: p in m && p != chains[i][k] ==> p in m' && m'[p].elt == m[p].elt
    requires Distinct(chains[i])
    ensures KeptUpTo(m', chains[i := Cut(chains[i], k)], i, k, keep)
  {
    var b := chains[i][k];
    assert b in chains[i] && Placed(m, |chains|, b, i);
    forall j, p | 0 <= j < i && p in chains[j] ensures KeptBin(m', p, keep) {
      assert Placed(m, |chains|, p, j) && KeptBin(m, p, keep);
    }
    forall j | 0 <= j < k ensures KeptBin(m', chains[i][j], keep) {
      assert KeptBin(m, chains[i][j], keep);
    }
  }

  lemma KeptChain<E>(m: Bins<E>, chains: seq<seq<Ptr>>, i: nat, keep: E -> bool)
    requires i < |chains| && KeptUpTo(m, chains, i, |chains[i]|, keep)
    ensures KeptUpTo(m, chains, i + 1, 0, keep)
  {
  }

  // ---- rehashing ----

  /** Bin p has still to be moved: it is in rest, the end of chain i, or in a later chain. */
  ghost predicate Waiting<E>(m: Bins<E>, size: nat, i: nat, rest: seq<Ptr>, p: Ptr)
    requires size > 0 && p in m
  {
    p in rest || Slot(m[p].hash, size) > i
  }

  /** The chains before i and the front of chain i have moved to the new table; rest, from bin on, is what is left
      of chain i. */
  ghost predicate Moving<E>(m: Bins<E>, table: seq<Ptr>, chains: seq<seq<Ptr>>, i: nat, bin: Ptr, rest: seq<Ptr>,
                            table': seq<Ptr>, chains': seq<seq<Ptr>>) {
    && i < |table| == |chains| && Chain(m, bin, rest) && ChainsOk(m, table', chains')
    && (forall j :: i < j < |table| ==> Chain(m, table[j], chains[j]))
    && (forall p :: p in rest ==> Placed(m, |chains|, p, i))
    && (forall j, p {:trigger p in chains[j]} {:trigger Placed(m, |chains|, p, j)} ::
      i < j < |chains| ==> (p in chains[j] <==> Placed(m, |chains|, p, j)))
    && (forall j, p {:trigger p in chains'[j]} {:trigger Placed(m, |chains'|, p, j)} :: 0 <= j < |chains'| ==>
          (p in chains'[j] <==> Placed(m, |chains'|, p, j) && !Waiting(m, |chains|, i, rest, p)))
  }

  lemma MovedChains<E>(m: Bins<E>, table: seq<Ptr>, chains: seq<seq<Ptr>>, i: nat, bin: Ptr, rest: seq<Ptr>,
                       table': seq<Ptr>, chains': seq<seq<Ptr>>,
                       x: nat, m': Bins<E>, table1: seq<Ptr>, chains1: seq<seq<Ptr>>)
    requires Moving(m, table, chains, i, bin, rest, table', chains') && rest != [] && bin in m && x < |table'|
    requires bin == rest[0]
    requires m' == m[bin := m[bin].(next := table'[x])] && table1 == table'[x := bin]
    requires chains1 == chains'[x := [bin] + chains'[x]]
    ensures ChainsOk(m', table1, chains1) && forall j :: i < j < |table| ==> Chain(m', table[j], chains[j])
  {
    assert Placed(m, |chains|, bin, i);
    forall j | i < j < |table| ensures Chain(m', table[j], chains[j]) {
      assert !Placed(m, |chains|, bin, j);
      ChainKept(m, m', table[j], chains[j]);
    }
    forall j | 0 <= j < |table1| ensures Chain(m', table1[j], chains1[j]) {
      assert Waiting(m, |chains|, i, rest, bin);
      assert bin !in chains'[j];
      if j == x {
        ChainPushed(m, table'[x], chains'[x], bin, m');
      } else {
        ChainKept(m, m', table'[j], chains'[j]);
      }
    }
  }

  lemma MovedPlaces<E>(m: Bins<E>, table: seq<Ptr>, chains: seq<seq<Ptr>>, i: nat, bin: Ptr, rest: seq<Ptr>,
                       table': seq<Ptr>, chains': seq<seq<Ptr>>,
                       x: nat, m': Bins<E>, rest1: seq<Ptr>, chains1: seq<seq<Ptr>>)
    requires Moving(m, table, chains, i, bin, rest, table', chains') && rest != [] && bin in m
    requires x == Slot(m[bin].hash, |table'|) && bin == rest[0]
    requires m' == m[bin := m[bin].(next := table'[x])] && chains1 == chains'[x := [bin] + chains'[x]]
    requires rest == [bin] + rest1 && bin !in rest1
    ensures forall p :: p in rest1 ==> Placed(m', |chains|, p, i)
    ensures forall j, p :: i < j < |chains| ==> (p in chains[j] <==> Placed(m', |chains|, p, j))
    ensures forall j, p ::
      0 <= j < |chains1| ==> (p in chains1[j] <==> Placed(m', |chains1|, p, j) && !Waiting(m', |chains|, i, rest1, p))
  {
    assert Placed(m, |chains|, bin, i);
    forall p | p in rest1 ensures Placed(m', |chains|, p, i) {
      assert p in rest;
    }
    forall j, p | i < j < |chains| ensures p in chains[j] <==> Placed(m', |chains|, p, j) {
      assert p in chains[j] <==> Placed(m, |chains|, p, j);
    }
    forall j, p | 0 <= j < |chains1|
      ensures p in chains1[j] <==> Placed(m', |chains1|, p, j) && !Waiting(m', |chains|, i, rest1, p)
    {
      assert p in chains'[j] <==> Placed(m, |chains'|, p, j) && !Waiting(m, |chains|, i, rest, p);
    }
  }

  lemma MoveBin<E>(m: Bins<E>, table: seq<Ptr>, chains: seq<seq<Ptr>>, i: nat, bin: Ptr, rest: seq<Ptr>,
                   table': seq<Ptr>, chains': seq<seq<Ptr>>,
                   x: nat, m': Bins<E>)
    requires Moving(m, table, chains, i, bin, rest, table', chains') && rest != [] && bin in m
    requires x == Slot(m[bin].hash, |table'|) && m' == m[bin := m[bin].(next := table'[x])]
    ensures Moving(m', table, chains, i, m[bin].next, rest[1..], table'[x := bin], chains'[x := [bin] + chains'[x]])
  {
    ChainPopped(m, bin, rest);
    ChainKept(m, m', m[bin].next, rest[1..]);
    MovedChains(m, table, chains, i, bin, rest, table', chains', x, m', table'[x := bin],
      chains'[x := [bin] + chains'[x]]);
    MovedPlaces(m, table, chains, i, bin, rest, table', chains', x, m', rest[1..], chains'[x := [bin] + chains'[x]]);
  }

  /** The next chain. */
  lemma MoveOn<E>(m: Bins<E>, table: seq<Ptr>, chains: seq<seq<Ptr>>, i: nat, bin: Ptr, table': seq<Ptr>,
                  chains': seq<seq<Ptr>>)
    requires Moving(m, table, chains, i, bin, [], table', chains') && i + 1 < |table|
    ensures Moving(m, table, chains, i + 1, table[i + 1], chains[i + 1], table', chains')
  {
    var next := i + 1;
    forall p | p in chains[next] ensures Placed(m, |chains|, p, next) {
    }
    forall j, p | 0 <= j < |chains'|
      ensures p in chains'[j] <==> Placed(m, |chains'|, p, j) && !Waiting(m, |chains|, next, chains[next], p)
    {
      assert p in chains'[j] <==> Placed(m, |chains'|, p, j) && !Waiting(m, |chains|, i, [], p);
      assert p in chains[next] <==> Placed(m, |chains|, p, next);
    }
  }

  lemma MoveStarts<K, E,
    C>(f: Matching<K, E, C>, m: Bins<E>, table: seq<Ptr>, chains: seq<seq<Ptr>>, contents: map<C, Ptr>,
    table': seq<Ptr>, chains': seq<seq<Ptr>>)
    requires Chained(f, m, table, chains, contents) && 0 < |table'| == |chains'|
    requires forall j :: 0 <= j < |table'| ==> table'[j] == NULL && chains'[j] == []
    ensures Moving(m, table, chains, 0, table[0], chains[0], table', chains')
  {
    forall j, p | 0 <= j < |chains'|
      ensures p in chains'[j] <==> Placed(m, |chains'|, p, j) && !Waiting(m, |chains|, 0, chains[0], p)
    {
      if Placed(m, |chains'|, p, j) && Slot(m[p].hash, |chains|) == 0 {
        assert Placed(m, |chains|, p, 0);
      }
    }
  }

  lemma MoveEnds<K, E,
    C>(f: Matching<K, E, C>, m: Bins<E>, m': Bins<E>, table: seq<Ptr>, chains: seq<seq<Ptr>>, contents: map<C, Ptr>,
    bin: Ptr,
                          table': seq<Ptr>, chains': seq<seq<Ptr>>)
    requires Filed(f, m, contents) && SameElements(m, m') && 0 < |table|
    requires Moving(m', table, chains, |table| - 1, bin, [], table', chains')
    ensures Chained(f, m', table', chains', contents) && View(m', contents) == View(m, contents)
  {
    var last := |table| - 1;
    forall i, p | 0 <= i < |chains'| ensures p in chains'[i] <==> Placed(m', |chains'|, p, i) {
      assert p in chains'[i] <==> Placed(m', |chains'|, p, i) && !Waiting(m', |chains|, last, [], p);
    }
    forall p | p in m' && m'[p].elt.Some? ensures FiledAs(f, m', contents, p, f.ofElt(m'[p].elt.value)) {
      assert FiledAs(f, m, contents, p, f.ofElt(m[p].elt.value));
    }
  }

  /** Only links between bins in use differ. */
  ghost predicate SameElements<E>(m: Bins<E>, m': Bins<E>) {
    && m'.Keys == m.Keys && (forall p :: p in m ==> m'[p].elt == m[p].elt && m'[p].hash == m[p].hash)
    && forall p :: p in m && m[p].elt.None? ==> m'[p].next == m[p].next
  }

  lemma SamePool<E>(m: Bins<E>, m': Bins<E>, head: Ptr, pool: seq<Ptr>, brk: nat)
    requires Pooled(m, head, pool, brk) && SameElements(m, m')
    ensures Pooled(m', head, pool, brk)
  {
    ChainKept(m, m', head, pool);
  }
}

/** The chained hash set. */
module HashSets {
  import opened Options
  import opened Arrays
  import opened Addresses
  import opened HashChains
  import opened HashTables

  const PRIMES: seq<nat> := [
    5, 13, 23, 47, 97, 193, 389, 769, 1543, 3079, 6151, 12289, 24593, 49157, 98317, 196613, 393241, 786433, 1572869,
      3145739, 6291469,
    12582917, 25165843, 50331653, 100663319, 201326611, 402653189, 805306457, 1610612741, 0]

  /** p is the first size of the table of primes that is at least n. */
  ghost predicate FirstPrime(n: int, p: nat) {
    exists i :: 0 <= i < |PRIMES| - 1 && PRIMES[i] == p && n <= p && forall k :: 0 <= k < i ==> PRIMES[k] < n
  }

  /** The table of primes has nothing as large as n. */
  ghost predicate TooLarge(n: int) {
    forall k :: 0 <= k < |PRIMES| - 1 ==> PRIMES[k] < n
  }

  /** The table ends with its only zero. */
  lemma OnlyLastIsZero(i: nat)
    requires i < |PRIMES|
    ensures PRIMES[i] == 0 <==> i == |PRIMES| - 1
  {
  }

  /** None stands for the failed assertion. */
  method NextPrime(n: int) returns (r: Option<nat>)
    ensures if r.Some? then 0 < r.value && FirstPrime(n, r.value) else TooLarge(n)
  {
    var i := 0;
    assert PRIMES[0] == 5;
    while n > PRIMES[i]
      invariant 0 <= i < |PRIMES| - 1 && PRIMES[i] != 0 && forall k :: 0 <= k < i ==> PRIMES[k] < n
    {
      i := i + 1;
      if PRIMES[i] == 0 {
        OnlyLastIsZero(i);
        return None;
      }
      OnlyLastIsZero(|PRIMES| - 1);
    }
    return Some(PRIMES[i]);
  }

  class HashSet<K(!new), E(!new), C(!new,==)> {
    const f: Matching<K, E, C>
    const binsPerBuffer: nat
    var entries: nat
    var table: seq<Ptr>
    var bins: Bins<E>
    var pooledBins: Ptr
    var brk: nat  // addresses from here on have never been allocated
    var defaultValue: Option<E>

    ghost var chains: seq<seq<Ptr>>
    ghost var pool: seq<Ptr>
    ghost var contents: map<C, Ptr>

    ghost predicate Valid()
      reads this
    {
      && Chained(f, bins, table, chains, contents) && Pooled(bins, pooledBins, pool, brk)
      && entries == |contents| && entries < |table|
    }

    /** The set as a map from classes to elements. */
    ghost function Model(): map<C, E>
      reads this
    {
      View(bins, contents)
    }

    /** An empty table with the given size, the result of NextPrime. */
    constructor (first: nat, f: Matching<K, E, C>, binsPerBuffer: nat)
      requires 0 < first
      ensures Valid() && Model() == map[] && defaultValue == None && this.f == f
    {
      this.f, this.binsPerBuffer := f, binsPerBuffer;
      entries, table, bins, pooledBins, brk, defaultValue := 0, seq(first, i => NULL), map[], NULL, 1, None;
      chains, pool, contents := seq(first, i => []), [], map[];
    }

    method RecycleBin(bin: Ptr)
      requires bin in bins
      modifies `bins, `pooledBins, `pool
      ensures bins == old(bins)[bin := old(bins)[bin].(elt := None, next := old(pooledBins))] && pooledBins == bin
      ensures pool == [bin] + old(pool)
    {
      bins := bins[bin := bins[bin].(next := pooledBins)];
      pooledBins := bin;
      bins := bins[bin := bins[bin].(elt := None)];
      pool := [bin] + pool;
    }

    method GetUnusedBin() returns (bin: Ptr)
      requires Pooled(bins, pooledBins, pool, brk)
      modifies `bins, `pooledBins, `pool, `brk
      ensures PooledBut(bins, pooledBins, pool, brk, {bin}) && Grown(old(bins), bins) && bin in bins
      ensures bins[bin].elt.None?
    {
      bin := pooledBins;
      if bin != NULL {
        SpareTaken(bins, pooledBins, pool, brk);
        pooledBins := bins[bin].next;
        pool := pool[1..];
      } else {
        bin := NewBin({});
        var i := 1;
        while i < binsPerBuffer
          invariant PooledBut(bins, pooledBins, pool, brk, {bin}) && Grown(old(bins), bins)
        {
          var more := NewBin({bin});
          SpareRecycled(bins, pooledBins, pool, brk, {bin, more}, more);
          RecycleBin(more);
          assert {bin, more} - {more} == {bin};
          i := i + 1;
        }
        assert bin in {bin};
      }
    }

    /** A zeroed bin at a new address. */
    method NewBin(ghost spares: set<Ptr>) returns (bin: Ptr)
      requires PooledBut(bins, pooledBins, pool, brk, spares)
      modifies `bins, `brk
      ensures PooledBut(bins, pooledBins, pool, brk, spares + {bin}) && Grown(old(bins), bins) && bin in bins
      ensures bin !in spares
      ensures bins == old(bins)[bin := Bin(None, 0, NULL)] && bin !in old(bins)
    {
      assert forall p :: p in spares ==> p in bins;
      SpareAdded(bins, pooledBins, pool, brk, spares, Bin(None, 0, NULL));
      bin := brk;
      bins, brk := bins[bin := Bin(None, 0, NULL)], brk + 1;
    }

    /** The bin in chain i whose element matches ptr, and the bin before it; k is its place. */
    method FindBin(i: nat, ptr: K) returns (bin: Ptr, prev: Ptr, ghost k: nat)
      requires Chained(f, bins, table, chains, contents) && NULL !in bins && i < |table|
      requires i == Slot(f.hash(f.ofKey(ptr)), |table|)
      ensures var c := f.ofKey(ptr); c in contents <==> bin != NULL
      ensures bin != NULL ==>
        && k < |chains[i]| && chains[i][k] == bin && prev == At(chains[i], k - 1)
        && (prev != NULL ==> prev in bins && bins[prev].elt.Some?)
        && bin == contents[f.ofKey(ptr)] && bin in bins && bins[bin].elt.Some?
          && f.ofElt(bins[bin].elt.value) == f.ofKey(ptr)
    {
      bin, prev, k := table[i], NULL, 0;
      ChainElements(i, 0);
      while bin != NULL && !(f.ofKey(ptr) == f.ofElt(bins[bin].elt.value))
        invariant 0 <= k <= |chains[i]| && bin == At(chains[i], k) && prev == At(chains[i], k - 1)
        invariant prev != NULL ==> prev in bins && bins[prev].elt.Some?
        invariant (bin != NULL <==> k < |chains[i]|) && (bin != NULL ==> bin in bins && bins[bin].elt.Some?)
        invariant forall j :: 0 <= j < k ==> NoMatch(chains[i][j], ptr)
        decreases |chains[i]| - k
      {
        assert Linked(bins, chains[i], k);
        prev := bin;
        bin := bins[bin].next;
        k := k + 1;
        ChainElements(i, k);
      }
      if bin != NULL {
        assert FiledAs(f, bins, contents, bin, f.ofKey(ptr));
      } else {
        NotInChain(i, k, ptr);
      }
    }

    ghost predicate NoMatch(p: Ptr, ptr: K)
      reads `bins
    {
      p in bins && bins[p].elt.Some? && f.ofElt(bins[p].elt.value) != f.ofKey(ptr)
    }

    lemma ChainElements(i: nat, k: nat)
      requires Chained(f, bins, table, chains, contents) && NULL !in bins && i < |table| && k <= |chains[i]|
      ensures At(chains[i], k) != NULL <==> k < |chains[i]|
      ensures k < |chains[i]| ==> At(chains[i], k) in bins && bins[At(chains[i], k)].elt.Some?
    {
      if k < |chains[i]| {
        assert chains[i][k] in chains[i] && Placed(bins, |chains|, chains[i][k], i);
      }
    }

    lemma NotInChain(i: nat, k: nat, ptr: K)
      requires Chained(f, bins, table, chains, contents) && i < |table| && i == Slot(f.hash(f.ofKey(ptr)), |table|)
      requires k == |chains[i]|
      requires forall j :: 0 <= j < k ==> NoMatch(chains[i][j], ptr)
      ensures f.ofKey(ptr) !in contents
    {
      var c := f.ofKey(ptr);
      assert c in contents ==> FiledAs(f, bins, contents, contents[c], c) && Placed(bins, |chains|, contents[c], i);
      forall p | p in chains[i] ensures NoMatch(p, ptr) {
      }
    }

    method Find(hash: nat, ptr: K) returns (r: Option<E>)
      requires Valid() && hash == f.hash(f.ofKey(ptr))
      ensures r == if f.ofKey(ptr) in Model() then Some(Model()[f.ofKey(ptr)]) else defaultValue
    {
      var bin, _, _ := FindBin(Slot(hash, |table|), ptr);
      r := if bin != NULL then bins[bin].elt else defaultValue;
    }

    /** trans makes the element for a key; None stands for the failed assertion of a table that cannot grow. */
    method Insert(hash: nat, ptr: K, trans: K -> E) returns (r: Option<E>)
      requires Valid() && hash == f.hash(f.ofKey(ptr)) && f.ofElt(trans(ptr)) == f.ofKey(ptr)
      modifies this
      ensures r.Some? ==> Valid() && f.ofKey(ptr) in Model() && r.value == Model()[f.ofKey(ptr)]
      ensures r.Some? ==> Model() == if f.ofKey(ptr) in old(Model()) then old(Model())
        else old(Model())[f.ofKey(ptr) := trans(ptr)]
      ensures r.None? <==>
        f.ofKey(ptr) !in old(Model()) && old(entries) + 1 == |old(table)| && TooLarge(|old(table)| + 1)
    {
      var i := Slot(hash, |table|);
      var bin, _, _ := FindBin(i, ptr);
      if bin != NULL {
        return bins[bin].elt;
      }
      bin := Push(hash, i, trans(ptr));
      var elt := bins[bin].elt;
      if entries >= |table| {
        var ok := Resize();
        if !ok {
          return None;
        }
      }
      return elt;
    }

    /** Valid, but the table may be full. */
    ghost predicate Sound()
      reads this
    {
      && Chained(f, bins, table, chains, contents) && Pooled(bins, pooledBins, pool, brk)
      && entries == |contents| && entries <= |table|
    }

    /** A new element at the head of chain i. */
    method Push(hash: nat, i: nat, elt: E) returns (bin: Ptr)
      requires Valid() && i == Slot(hash, |table|) && f.ofElt(elt) !in contents && hash == f.hash(f.ofElt(elt))
      modifies `bins, `pooledBins, `pool, `brk, `table, `entries, `chains, `contents
      ensures Sound() && |table| == |old(table)| && entries == old(entries) + 1
      ensures Model() == old(Model())[f.ofElt(elt) := elt] && bin in bins && bins[bin].elt == Some(elt)
    {
      ghost var m := bins;
      bin := GetUnusedBin();
      ChainedGrown(f, m, bins, table, chains, contents);
      SpareUsed(bins, pooledBins, pool, brk, bin, Bin(Some(elt), hash, table[i]));
      BinUsed(f, bins, table, chains, contents, bin, elt, hash, i, bins[bin := Bin(Some(elt), hash, table[i])]);
      bins := bins[bin := bins[bin].(hash := hash, elt := Some(elt), next := table[i])];
      table := table[i := bin];
      entries := entries + 1;
      chains, contents := chains[i := [bin] + chains[i]], contents[f.ofElt(elt) := bin];
    }

    /** Rehashes all bins into a larger table. */
    method Resize() returns (ok: bool)
      requires Sound()
      modifies `bins, `table, `chains
      ensures ok <==> !TooLarge(|old(table)| + 1)
      ensures ok ==> Valid() && Model() == old(Model()) && |table| > |old(table)|
    {
      var newSize := NextPrime(|table| + 1);
      if newSize.None? {
        return false;
      }
      FirstNotTooLarge(|table| + 1, newSize.value);
      Rehash(newSize.value);
      return true;
    }

    method Rehash(newSize: nat)
      requires Sound() && |table| < newSize
      modifies `bins, `table, `chains
      ensures Valid() && Model() == old(Model()) && |table| == newSize
    {
      var newTable: seq<Ptr> := seq(newSize, i => NULL);
      ghost var newChains: seq<seq<Ptr>> := seq(newSize, i => []);
      ghost var m := bins;
      MoveStarts(f, bins, table, chains, contents, newTable, newChains);
      newTable, newChains := MoveChains(newTable, newChains);
      MoveEnds(f, m, bins, table, chains, contents, NULL, newTable, newChains);
      SamePool(m, bins, pooledBins, pool, brk);
      table, chains := newTable, newChains;
    }

    /** The outer loop of the rehashing. */
    method MoveChains(newTable: seq<Ptr>, ghost newChains: seq<seq<Ptr>>)
      returns (newTable': seq<Ptr>, ghost newChains': seq<seq<Ptr>>)
      requires 0 < |table| == |chains| && Moving(bins, table, chains, 0, table[0], chains[0], newTable, newChains)
      requires NULL !in bins
      modifies `bins
      ensures Moving(bins, table, chains, |table| - 1, NULL, [], newTable', newChains') && SameElements(old(bins), bins)
      ensures |newTable'| == |newTable|
    {
      newTable', newChains' := MoveChain(0, newTable, newChains);
      var i := 1;
      while i < |table|
        invariant 0 < i <= |table| == |chains| && |newTable'| == |newTable| && SameElements(old(bins), bins)
        invariant Moving(bins, table, chains, i - 1, NULL, [], newTable', newChains')
      {
        MoveOn(bins, table, chains, i - 1, NULL, newTable', newChains');
        newTable', newChains' := MoveChain(i, newTable', newChains');
        i := i + 1;
      }
    }

    /** The inner loop of the rehashing: chain i moves to the new table. */
    method MoveChain(i: nat, newTable: seq<Ptr>, ghost newChains: seq<seq<Ptr>>)
      returns (newTable': seq<Ptr>, ghost newChains': seq<seq<Ptr>>)
      requires i < |table| == |chains| && Moving(bins, table, chains, i, table[i], chains[i], newTable, newChains)
      requires NULL !in bins
      modifies `bins
      ensures Moving(bins, table, chains, i, NULL, [], newTable', newChains') && SameElements(old(bins), bins)
      ensures |newTable'| == |newTable|
    {
      newTable', newChains' := newTable, newChains;
      var bin := table[i];
      ghost var rest := chains[i];
      while bin != NULL
        invariant Moving(bins, table, chains, i, bin, rest, newTable', newChains') && SameElements(old(bins), bins)
        invariant |newTable'| == |newTable|
        decreases |rest|
      {
        ChainPopped(bins, bin, rest);
        assert bin in rest && Placed(bins, |chains|, bin, i);
        var next, x := bins[bin].next, Slot(bins[bin].hash, |newTable'|);
        MoveBin(bins, table, chains, i, bin, rest, newTable', newChains', x,
          bins[bin := bins[bin].(next := newTable'[x])]);
        bins := bins[bin := bins[bin].(next := newTable'[x])];
        newTable', newChains' := newTable'[x := bin], newChains'[x := [bin] + newChains'[x]];
        bin, rest := next, rest[1..];
      }
      NoRest(bins, rest);
    }

    method Remove(hash: nat, ptr: K) returns (r: Option<E>)
      requires Valid() && hash == f.hash(f.ofKey(ptr))
      modifies this
      ensures Valid() && Model() == old(Model()) - {f.ofKey(ptr)}
      ensures r == if f.ofKey(ptr) in old(Model()) then Some(old(Model())[f.ofKey(ptr)]) else None
    {
      var i := Slot(hash, |table|);
      var bin, prev;
      ghost var k;
      bin, prev, k := FindBin(i, ptr);
      if bin != NULL {
        r := bins[bin].elt;
        var _ := Unlink(i, k, bin, prev);
      } else {
        r := None;
      }
    }

    /** Unlinks and recycles the bin at place k of chain i; returns the bin behind it. */
    method Unlink(i: nat, ghost k: nat, bin: Ptr, prev: Ptr) returns (next: Ptr)
      requires Valid() && i < |table| && k < |chains[i]| && bin == chains[i][k] && prev == At(chains[i], k - 1)
      requires bin in bins && bins[bin].elt.Some? && (prev != NULL ==> prev in bins && bins[prev].elt.Some?)
      modifies `bins, `pooledBins, `pool, `table, `entries, `chains, `contents
      ensures Valid() && |table| == |old(table)| && chains == old(chains)[i := Cut(old(chains)[i], k)]
      ensures next == At(chains[i], k)
      ensures Model() == old(Model()) - {f.ofElt(old(bins)[bin].elt.value)}
      ensures forall p :: p in old(bins) && p != bin ==> p in bins && bins[p].elt == old(bins)[p].elt
    {
      ghost var c := f.ofElt(bins[bin].elt.value);
      next := bins[bin].next;
      UnlinkBin(i, bin, prev);
      BinUnlinked(f, old(bins), old(table), chains, contents, i, k, bin, prev, c, old(pooledBins), old(pool), brk,
        bins, table);
      entries := entries - 1;
      chains, contents := chains[i := Cut(chains[i], k)], contents - {c};
    }

    /** The pointer writes of Unlink. */
    method UnlinkBin(i: nat, bin: Ptr, prev: Ptr)
      requires i < |table| && bin in bins && (prev != NULL ==> prev in bins)
      modifies `bins, `pooledBins, `pool, `table
      ensures bins == Recycled(old(bins), prev, bin, old(pooledBins)) && pooledBins == bin && pool == [bin] + old(pool)
      ensures table == if prev == NULL then old(table)[i := old(bins)[bin].next] else old(table)
    {
      if prev == NULL {
        table := table[i := bins[bin].next];
      } else {
        bins := bins[prev := bins[prev].(next := bins[bin].next)];
      }
      RecycleBin(bin);
    }

    /** Keeps the elements for which keep holds. */
    method Filter(keep: E -> bool)
      requires Valid()
      modifies this
      ensures Valid() && Model() == Kept(old(Model()), keep)
    {
      var i := 0;
      while i < |table|
        invariant Valid() && 0 <= i <= |table| && Between(old(Model()), Model(), keep)
        invariant KeptUpTo(bins, chains, i, 0, keep)
      {
        FilterChain(i, keep, old(Model()));
        i := i + 1;
      }
      AllKept(keep, old(Model()));
    }

    lemma AllKept(keep: E -> bool, all: map<C, E>)
      requires Valid() && Between(all, Model(), keep) && KeptUpTo(bins, chains, |chains|, 0, keep)
      ensures Model() == Kept(all, keep)
    {
      forall c | c in Model() ensures keep(Model()[c]) {
        var p := contents[c];
        assert Placed(bins, |chains|, p, Slot(bins[p].hash, |chains|)) && KeptBin(bins, p, keep);
      }
    }

    /** The inner loop of Filter. */
    method FilterChain(i: nat, keep: E -> bool, ghost all: map<C, E>)
      requires Valid() && i < |table| && Between(all, Model(), keep) && KeptUpTo(bins, chains, i, 0, keep)
      modifies `bins, `pooledBins, `pool, `table, `entries, `chains, `contents
      ensures Valid() && |table| == |old(table)| && Between(all, Model(), keep)
      ensures KeptUpTo(bins, chains, i + 1, 0, keep)
    {
      var prev, bin := NULL, table[i];
      ghost var k := 0;
      while bin != NULL
        invariant Filtering(i, k, bin, prev, keep, all) && |table| == |old(table)|
        decreases |chains[i]| - k
      {
        bin, prev, k := FilterStep(i, k, bin, prev, keep, all);
      }
      ChainElements(i, k);
      KeptChain(bins, chains, i, keep);
    }

    /** The filter has come to bin, at place k of chain i. */
    ghost predicate Filtering(i: nat, k: nat, bin: Ptr, prev: Ptr, keep: E -> bool, all: map<C, E>)
      reads this
    {
      && Valid() && Between(all, Model(), keep) && i < |table| && k <= |chains[i]|
      && bin == At(chains[i], k) && prev == At(chains[i], k - 1) && KeptUpTo(bins, chains, i, k, keep)
    }

    method FilterStep(i: nat, ghost k: nat, bin: Ptr, prev: Ptr, keep: E -> bool, ghost all: map<C, E>)
      returns (bin': Ptr, prev': Ptr, ghost k': nat)
      requires Filtering(i, k, bin, prev, keep, all) && bin != NULL
      modifies `bins, `pooledBins, `pool, `table, `entries, `chains, `contents
      ensures Filtering(i, k', bin', prev', keep, all) && |table| == |old(table)|
      ensures |chains[i]| - k' < |old(chains)[i]| - k
    {
      ChainElements(i, k);
      if keep(bins[bin].elt.value) {
        assert Linked(bins, chains[i], k) && KeptBin(bins, bin, keep);
        bin', prev', k' := bins[bin].next, bin, k + 1;
      } else {
        bin' := Drop(i, k, bin, prev, keep, all);
        prev', k' := prev, k;
      }
    }

    /** One step of the inner loop of Filter: the bin at place k is dropped; returns the next bin. */
    method Drop(i: nat, ghost k: nat, bin: Ptr, prev: Ptr, keep: E -> bool, ghost all: map<C, E>) returns (next: Ptr)
      requires Valid() && i < |table| && k < |chains[i]| && bin == chains[i][k] && prev == At(chains[i], k - 1)
      requires bin in bins && bins[bin].elt.Some? && !keep(bins[bin].elt.value) && Between(all, Model(), keep)
      requires KeptUpTo(bins, chains, i, k, keep)
      modifies `bins, `pooledBins, `pool, `table, `entries, `chains, `contents
      ensures Valid() && |table| == |old(table)| && Between(all, Model(), keep)
      ensures |chains[i]| == |old(chains)[i]| - 1 && next == At(chains[i], k) && prev == At(chains[i], k - 1)
      ensures KeptUpTo(bins, chains, i, k, keep)
    {
      DropFacts(i, k, bin, keep);
      ghost var m, was := bins, chains;
      next := Unlink(i, k, bin, prev);
      KeptAfterCut(m, bins, was, i, k, keep);
    }

    lemma DropFacts(i: nat, k: nat, bin: Ptr, keep: E -> bool)
      requires Valid() && i < |table| && k < |chains[i]| && bin == chains[i][k] && KeptUpTo(bins, chains, i, k, keep)
      requires bin in bins && bins[bin].elt.Some?
      ensures f.ofElt(bins[bin].elt.value) in Model() && Model()[f.ofElt(bins[bin].elt.value)] == bins[bin].elt.value
      ensures var prev := At(chains[i], k - 1); prev != NULL ==> prev in bins && bins[prev].elt.Some?
      ensures Distinct(chains[i])
    {
      assert Chain(bins, table[i], chains[i]);
      assert FiledAs(f, bins, contents, bin, f.ofElt(bins[bin].elt.value));
      assert k > 0 ==> KeptBin(bins, chains[i][k - 1], keep);
    }

    method Count() returns (n: nat)
      requires Valid()
      ensures n == |Model()|
    {
      assert Model().Keys == contents.Keys;
      n := entries;
    }

    /** Every bin ever allocated is either in use, once, or in the pool. */
    lemma Conserved()
      requires Valid()
      ensures |bins| == entries + |pool|
      ensures forall p :: p in bins <==> (exists i :: 0 <= i < |chains| && p in chains[i]) || p in pool
    {
      InUse(f, bins, contents);
      assert forall p :: p in pool <==> p in pool || p in {};
      BinsCount(bins, contents.Values, pool);
      forall p ensures p in bins <==> (exists i :: 0 <= i < |chains| && p in chains[i]) || p in pool {
        Somewhere(p);
      }
    }

    lemma Somewhere(p: Ptr)
      requires Valid()
      ensures p in bins <==> (exists i :: 0 <= i < |chains| && p in chains[i]) || p in pool
    {
      assert p in pool || p in {} <==> p in bins && bins[p].elt.None?;
      if p in bins && bins[p].elt.Some? {
        assert Placed(bins, |chains|, p, Slot(bins[p].hash, |chains|));
      }
    }

    /** Calls back with every element, chain by chain. */
    method Each() returns (seen: seq<E>)
      requires Valid()
      ensures forall c :: c in Model() <==> exists j :: 0 <= j < |seen| && f.ofElt(seen[j]) == c
      ensures forall j :: 0 <= j < |seen| ==> f.ofElt(seen[j]) in Model() && Model()[f.ofElt(seen[j])] == seen[j]
      ensures forall j, k :: 0 <= j < k < |seen| ==> f.ofElt(seen[j]) != f.ofElt(seen[k])
    {
      seen := [];
      ghost var visited: seq<Ptr> := [];
      var i := 0;
      while i < |table|
        invariant 0 <= i <= |table| && Seen(visited, seen)
        invariant forall p :: p in visited <==> p in bins && bins[p].elt.Some? && Slot(bins[p].hash, |table|) < i
      {
        ghost var before := visited;
        var bin := table[i];
        ghost var k := 0;
        while bin != NULL
          invariant 0 <= k <= |chains[i]| && bin == At(chains[i], k) && Seen(visited, seen)
          invariant forall p :: p in visited <==> p in before || p in chains[i][..k]
          decreases |chains[i]| - k
        {
          ChainElements(i, k);
          assert Linked(bins, chains[i], k) && bin in chains[i] && Placed(bins, |chains|, bin, i);
          assert chains[i][..k + 1] == chains[i][..k] + [bin];
          SeenMore(visited, seen, bin);
          seen, visited := seen + [bins[bin].elt.value], visited + [bin];
          bin := bins[bin].next;
          k := k + 1;
        }
        ChainElements(i, k);
        assert chains[i][..k] == chains[i];
        forall p ensures p in visited <==> p in bins && bins[p].elt.Some? && Slot(bins[p].hash, |table|) < i + 1 {
          assert p in chains[i] <==> Placed(bins, |chains|, p, i);
        }
        i := i + 1;
      }
      SeenAll(visited, seen);
    }

    /** seen are the elements of the bins visited, each visited once. */
    ghost predicate Seen(visited: seq<Ptr>, seen: seq<E>)
      reads `bins
    {
      && Distinct(visited) && |seen| == |visited|
      && forall j :: 0 <= j < |seen| ==> visited[j] in bins && bins[visited[j]].elt == Some(seen[j])
    }

    lemma SeenMore(visited: seq<Ptr>, seen: seq<E>, bin: Ptr)
      requires Seen(visited, seen) && bin in bins && bins[bin].elt.Some? && bin !in visited
      ensures Seen(visited + [bin], seen + [bins[bin].elt.value])
    {
    }

    lemma SeenAll(visited: seq<Ptr>, seen: seq<E>)
      requires Valid() && Seen(visited, seen) && forall p :: p in bins && bins[p].elt.Some? ==> p in visited
      ensures forall c :: c in Model() <==> exists j :: 0 <= j < |seen| && f.ofElt(seen[j]) == c
      ensures forall j :: 0 <= j < |seen| ==> f.ofElt(seen[j]) in Model() && Model()[f.ofElt(seen[j])] == seen[j]
      ensures forall j, k :: 0 <= j < k < |seen| ==> f.ofElt(seen[j]) != f.ofElt(seen[k])
    {
      forall j | 0 <= j < |seen| ensures f.ofElt(seen[j]) in contents && contents[f.ofElt(seen[j])] == visited[j] {
        assert FiledAs(f, bins, contents, visited[j], f.ofElt(seen[j]));
      }
      forall c | c in Model() ensures exists j :: 0 <= j < |seen| && f.ofElt(seen[j]) == c {
        assert contents[c] in visited;
        var j :| 0 <= j < |visited| && visited[j] == contents[c];
        assert f.ofElt(seen[j]) == c;
      }
    }

  }

  /** A new set; null stands for the failed assertion of a size beyond the table of primes. */
  method NewHashSet<K(!new), E(!new), C(!new,==)>(size: int, f: Matching<K, E, C>, binsPerBuffer: nat)
    returns (s: HashSet?<K, E, C>)
    ensures s == null <==> TooLarge(size)
    ensures s != null ==> fresh(s) && s.f == f && s.Valid() && s.Model() == map[] && s.defaultValue == None
  {
    var first := NextPrime(size);
    if first.None? {
      return null;
    }
    FirstNotTooLarge(size, first.value);
    s := new HashSet<K, E, C>(first.value, f, binsPerBuffer);
  }

  lemma FirstNotTooLarge(n: int, p: nat)
    requires FirstPrime(n, p)
    ensures !TooLarge(n)
  {
  }

  /** The part of a set that a filter keeps. */
  ghost function Kept<C, E>(m: map<C, E>, keep: E -> bool): map<C, E> {
    map c | c in m && keep(m[c]) :: m[c]
  }

  /** Some of the elements that are not kept have gone. */
  ghost predicate Between<C, E>(all: map<C, E>, m: map<C, E>, keep: E -> bool) {
    (forall c :: c in m ==> c in all && m[c] == all[c]) && (forall c :: c in all && keep(all[c]) ==> c in m)
  }
}
