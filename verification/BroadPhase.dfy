/** What the pair cache means: which pairs it must hold at every moment of a marking pass, and which calls are made. */
module BroadPhase {
  import opened Arrays
  import opened Addresses
  import opened Boxes
  import opened TreeMemory
  import opened PairLists
  import opened BoxTrees

  /** The leaves in tree order, their stored boxes, and those that were updated since the last pass. */
  datatype Scene = Scene(order: seq<Ptr>, boxes: map<Ptr, BB>, moved: set<Ptr>)

  ghost predicate SceneOk(sc: Scene) {
    Distinct(sc.order) && forall l :: l in sc.order ==> l in sc.boxes
  }

  ghost predicate Overlap(sc: Scene, x: Ptr, y: Ptr) {
    x in sc.boxes && y in sc.boxes && Intersects(sc.boxes[x], sc.boxes[y])
  }

  ghost predicate Before(order: seq<Ptr>, x: Ptr, y: Ptr) {
    exists i, j :: 0 <= i < j < |order| && order[i] == x && order[j] == y
  }

  ghost predicate Ends(e: (Ptr, Ptr), x: Ptr, y: Ptr) {
    e == (x, y) || e == (y, x)
  }

  ghost predicate Joined(edges: Edges, x: Ptr, y: Ptr) {
    exists p :: p in edges && Ends(edges[p], x, y)
  }

  ghost predicate Unique(edges: Edges) {
    forall p, q :: p in edges && q in edges && Ends(edges[p], edges[q].0, edges[q].1) ==> p == q
  }

  ghost predicate Within(edges: Edges, sc: Scene) {
    forall p :: p in edges ==> edges[p].0 in sc.order && edges[p].1 in sc.order && edges[p].0 != edges[p].1
  }

  /** A pair with a moved leaf runs from the earlier to the later leaf. */
  ghost predicate Oriented(edges: Edges, sc: Scene) {
    forall p :: p in edges && (edges[p].0 in sc.moved || edges[p].1 in sc.moved)
      ==> Before(sc.order, edges[p].0, edges[p].1)
  }

  /** Must x and y be paired when the leaves in done have been marked, and leaf has been checked against those in
      part? */
  ghost predicate Due(sc: Scene, done: set<Ptr>, leaf: Ptr, part: set<Ptr>, x: Ptr, y: Ptr) {
    Overlap(sc, x, y) &&
    ((x !in sc.moved && y !in sc.moved) || (x in sc.moved && x in done) || (y in sc.moved && y in done)
     || (x == leaf && y in part) || (y == leaf && x in part))
  }

  /** The cache in the middle of marking leaf. */
  ghost predicate Marking(edges: Edges, sc: Scene, done: set<Ptr>, leaf: Ptr, part: set<Ptr>) {
    && Unique(edges) && Within(edges, sc) && Oriented(edges, sc)
    && forall x, y ::
      x in sc.order && y in sc.order && x != y ==> (Joined(edges, x, y) <==> Due(sc, done, leaf, part, x, y))
  }

  /** The cache between marking two leaves. */
  ghost predicate Marked(edges: Edges, sc: Scene, done: set<Ptr>) {
    Marking(edges, sc, done, NULL, {})
  }

  /** Exactly one pair for every two leaves whose stored boxes overlap, and no others. */
  ghost predicate Exact(edges: Edges, order: seq<Ptr>, boxes: map<Ptr, BB>) {
    var sc := Scene(order, boxes, {});
    && Unique(edges) && Within(edges, sc)
    && forall x, y :: x in order && y in order && x != y ==> (Joined(edges, x, y) <==> Overlap(sc, x, y))
  }

  lemma BeforeAsym(order: seq<Ptr>, x: Ptr, y: Ptr)
    requires Distinct(order) && x in order && y in order && x != y
    ensures Before(order, x, y) <==> !Before(order, y, x)
  {
    var i :| 0 <= i < |order| && order[i] == x;
    var j :| 0 <= j < |order| && order[j] == y;
    if i < j {
      assert Before(order, x, y);
    } else {
      assert Before(order, y, x);
    }
  }

  lemma SplitBefore(order: seq<Ptr>, a: seq<Ptr>, b: seq<Ptr>, c: seq<Ptr>, d: seq<Ptr>, x: Ptr, y: Ptr)
    requires order == a + b + c + d && Distinct(order) && x in b && y in c
    ensures x in order && y in order && x != y && Before(order, x, y) && !Before(order, y, x)
  {
    var i :| 0 <= i < |b| && b[i] == x;
    var j :| 0 <= j < |c| && c[j] == y;
    assert order[|a| + i] == x && order[|a| + |b| + j] == y;
    BeforeAsym(order, x, y);
  }

  // ---- one leaf against another ----

  /** A missing pair is added. */
  lemma MarkAdds(edges: Edges, sc: Scene, done: set<Ptr>, leaf: Ptr, part: set<Ptr>, s: Ptr, p: Ptr, e: (Ptr, Ptr))
    requires SceneOk(sc) && Marking(edges, sc, done, leaf, part) && p !in edges && Ends(e, leaf, s)
    requires leaf in sc.order && s in sc.order && s != leaf && s !in part && Overlap(sc, leaf, s)
    requires Before(sc.order, e.0, e.1)
    requires leaf in sc.moved && leaf !in done && (s in sc.moved ==> s !in done)
    ensures Marking(edges[p := e], sc, done, leaf, part + {s})
  {
    var edges' := edges[p := e];
    assert !Due(sc, done, leaf, part, leaf, s);
    assert !Joined(edges, leaf, s);
    forall x, y | x in sc.order && y in sc.order && x != y
      ensures Joined(edges', x, y) <==> Due(sc, done, leaf, part + {s}, x, y)
    {
      if Joined(edges, x, y) {
        var q :| q in edges && Ends(edges[q], x, y);
        assert q in edges' && Ends(edges'[q], x, y);
      }
      if Ends(e, x, y) {
        assert Ends(edges'[p], x, y);
      } else if Joined(edges', x, y) {
        var q :| q in edges' && Ends(edges'[q], x, y);
        assert q in edges && Ends(edges[q], x, y);
      }
    }
    forall q | q in edges ensures !Ends(edges[q], e.0, e.1) && !Ends(e, edges[q].0, edges[q].1) {
      assert Ends(edges[q], e.0, e.1) ==> Joined(edges, leaf, s);
    }
  }

  /** Nothing is missing: the boxes miss each other, or s was marked before. */
  lemma MarkSkips(edges: Edges, sc: Scene, done: set<Ptr>, leaf: Ptr, part: set<Ptr>, more: set<Ptr>)
    requires Marking(edges, sc, done, leaf, part) && leaf in sc.order
    requires forall s :: s in more ==>
      s in sc.order && s != leaf && (!Overlap(sc, leaf, s) || (s in sc.moved && s in done))
    ensures Marking(edges, sc, done, leaf, part + more)
  {
    forall x, y | x in sc.order && y in sc.order && x != y
      ensures Due(sc, done, leaf, part + more, x, y) <==> Due(sc, done, leaf, part, x, y)
    {
      assert Overlap(sc, x, y) <==> Overlap(sc, y, x);
    }
  }

  lemma MarkBegins(edges: Edges, sc: Scene, done: set<Ptr>, leaf: Ptr)
    requires Marked(edges, sc, done)
    ensures Marking(edges, sc, done, leaf, {})
  {
  }

  /** A leaf checked against all others is done. */
  lemma MarkEnds(edges: Edges, sc: Scene, done: set<Ptr>, leaf: Ptr, part: set<Ptr>)
    requires Marking(edges, sc, done, leaf, part) && leaf in sc.order && leaf in sc.moved
    requires forall s :: s in sc.order && s != leaf ==> s in part
    ensures Marked(edges, sc, done + {leaf})
  {
  }

  lemma MarkUnmoved(edges: Edges, sc: Scene, done: set<Ptr>, leaf: Ptr)
    requires Marked(edges, sc, done) && leaf !in sc.moved
    ensures Marked(edges, sc, done + {leaf})
  {
  }

  lemma AllMarked(edges: Edges, sc: Scene, done: set<Ptr>)
    requires Marked(edges, sc, done) && forall l :: l in sc.order ==> l in done || l !in sc.moved
    ensures Exact(edges, sc.order, sc.boxes)
  {
    var sc0 := Scene(sc.order, sc.boxes, {});
    forall x, y | x in sc.order && y in sc.order && x != y
      ensures Due(sc, done, NULL, {}, x, y) <==> Overlap(sc0, x, y)
    {
    }
  }

  // ---- calls ----

  /** How often x and y are reported, in either order. */
  ghost function Hits(calls: seq<(Ptr, Ptr)>, x: Ptr, y: Ptr): nat {
    if calls == [] then 0 else (if Ends(calls[0], x, y) then 1 else 0) + Hits(calls[1..], x, y)
  }

  lemma HitsConcat(a: seq<(Ptr, Ptr)>, b: seq<(Ptr, Ptr)>, x: Ptr, y: Ptr)
    ensures Hits(a + b, x, y) == Hits(a, x, y) + Hits(b, x, y)
  {
    if a == [] {
      assert a + b == b;
    } else {
      assert (a + b)[1..] == a[1..] + b;
    }
  }

  /** Is the pair of x and leaf reported when leaf is visited? Pairs with a moved leaf are reported at the later leaf,
      pairs of two unmoved leaves at the second leaf of the cached pair. */
  ghost predicate ReportedAt(edges: Edges, sc: Scene, leaf: Ptr, x: Ptr) {
    Overlap(sc, x, leaf) && x != leaf && x in sc.order && leaf in sc.order &&
    if x in sc.moved || leaf in sc.moved then Before(sc.order, x, leaf) else exists p ::
      p in edges && edges[p] == (x, leaf)
  }

  ghost function Expected(edges: Edges, sc: Scene, done: set<Ptr>, x: Ptr, y: Ptr): nat {
    (if y in done && ReportedAt(edges, sc, y, x) then 1 else 0)
      + (if x in done && ReportedAt(edges, sc, x, y) then 1 else 0)
  }

  /** Over the whole pass every overlapping pair of leaves is reported exactly once, and nothing else. */
  lemma ReportedOnce(edges: Edges, sc: Scene, done: set<Ptr>, x: Ptr, y: Ptr)
    requires SceneOk(sc) && Marked(edges, sc, {}) && x in sc.order && y in sc.order && x != y && x in done && y in done
    ensures Expected(edges, sc, done, x, y) == if Overlap(sc, x, y) then 1 else 0
  {
    assert Overlap(sc, x, y) <==> Overlap(sc, y, x);
    BeforeAsym(sc.order, x, y);
    if Overlap(sc, x, y) && x !in sc.moved && y !in sc.moved {
      assert Due(sc, {}, NULL, {}, x, y);
      var p :| p in edges && Ends(edges[p], x, y);
      forall q | q in edges && Ends(edges[q], x, y) ensures q == p {
        assert Ends(edges[q], edges[p].0, edges[p].1);
      }
    }
  }

  /** leaf reported with each of hits. */
  ghost function ReportsTo(leaf: Ptr, hits: seq<Ptr>): seq<(Ptr, Ptr)> {
    if hits == [] then [] else [(leaf, hits[0])] + ReportsTo(leaf, hits[1..])
  }

  lemma HitsReportsTo(leaf: Ptr, hits: seq<Ptr>, x: Ptr, y: Ptr)
    requires Distinct(hits) && leaf !in hits && x != y
    ensures Hits(ReportsTo(leaf, hits), x, y) == if (x == leaf && y in hits) || (y == leaf && x in hits) then 1 else 0
  {
    if hits != [] {
      assert hits == [hits[0]] + hits[1..];
      HitsReportsTo(leaf, hits[1..], x, y);
    }
  }

  /** The reports of a pass over the leaves in visited are the expected ones. */
  ghost predicate AsExpected(edges: Edges, sc: Scene, visited: set<Ptr>, reports: seq<(Ptr, Ptr)>) {
    && (forall r :: r in reports ==> r.0 in sc.order && r.1 in sc.order && r.0 != r.1)
    && (forall x, y ::
      x in sc.order && y in sc.order && x != y ==> Hits(reports, x, y) == Expected(edges, sc, visited, x, y))
  }

  /** The leaves that a moved leaf is reported with. */
  ghost predicate EarlierHits(sc: Scene, leaf: Ptr, hits: seq<Ptr>, among: seq<Ptr>) {
    Distinct(hits) && forall s :: s in hits <==>
      s in among && s != leaf && Before(sc.order, s, leaf) && Overlap(sc, leaf, s)
  }

  lemma MovedReports(edges: Edges, sc: Scene, leaf: Ptr, hits: seq<Ptr>)
    requires SceneOk(sc) && leaf in sc.order && leaf in sc.moved && EarlierHits(sc, leaf, hits, sc.order)
    ensures AsExpected(edges, sc, {leaf}, ReportsTo(leaf, hits))
  {
    ReportsToOf(leaf, hits);
    forall x, y | x in sc.order && y in sc.order && x != y
      ensures Hits(ReportsTo(leaf, hits), x, y) == Expected(edges, sc, {leaf}, x, y)
    {
      HitsReportsTo(leaf, hits, x, y);
      assert Overlap(sc, x, y) <==> Overlap(sc, y, x);
    }
  }

  lemma ReportsToOf(leaf: Ptr, hits: seq<Ptr>)
    ensures |ReportsTo(leaf, hits)| == |hits|
    ensures forall i :: 0 <= i < |hits| ==> ReportsTo(leaf, hits)[i] == (leaf, hits[i])
    ensures forall r :: r in ReportsTo(leaf, hits) ==> r.0 == leaf && r.1 in hits
  {
  }

  /** Visiting more leaves adds up. */
  lemma ReportsAddUp(edges: Edges, sc: Scene, a: set<Ptr>, b: set<Ptr>, ra: seq<(Ptr, Ptr)>, rb: seq<(Ptr, Ptr)>)
    requires AsExpected(edges, sc, a, ra) && AsExpected(edges, sc, b, rb) && a !! b
    ensures AsExpected(edges, sc, a + b, ra + rb)
  {
    forall x, y | x in sc.order && y in sc.order && x != y
      ensures Hits(ra + rb, x, y) == Expected(edges, sc, a + b, x, y)
    {
      HitsConcat(ra, rb, x, y);
    }
  }

  lemma HitsFlipped(reports: seq<(Ptr, Ptr)>, flipped: seq<(Ptr, Ptr)>, x: Ptr, y: Ptr)
    requires |flipped| == |reports| && forall i :: 0 <= i < |reports| ==> flipped[i] == (reports[i].1, reports[i].0)
    ensures Hits(flipped, x, y) == Hits(reports, x, y)
  {
    if reports != [] {
      HitsFlipped(reports[1..], flipped[1..], x, y);
    }
  }

  /** The second leaves of cached pairs are reported with the first: for an unmoved leaf this is what is expected of
      it. */
  lemma UnmovedReports(edges: Edges, edges0: Edges, sc: Scene, done: set<Ptr>, leaf: Ptr, hits: seq<Ptr>,
                       reports: seq<(Ptr, Ptr)>)
    requires SceneOk(sc) && Marked(edges, sc, done) && leaf in sc.order && leaf !in sc.moved
    requires forall s :: s in sc.order && s in sc.moved ==> (s in done <==> Before(sc.order, s, leaf))
    requires forall p :: p in edges0 ==> p in edges && edges[p] == edges0[p]
    requires forall p :: p in edges && p !in edges0 ==> edges[p].0 in sc.moved || edges[p].1 in sc.moved
    requires Distinct(hits) && forall s :: s in hits <==> exists p :: p in edges && edges[p] == (s, leaf)
    requires |reports| == |hits| && forall i :: 0 <= i < |hits| ==> reports[i] == (hits[i], leaf)
    ensures AsExpected(edges0, sc, {leaf}, reports)
  {
    ReportsToOf(leaf, hits);
    forall x | x in sc.order && x != leaf ensures x in hits <==> ReportedAt(edges0, sc, leaf, x) {
      UnmovedHit(edges, edges0, sc, done, leaf, x);
    }
    forall x, y | x in sc.order && y in sc.order && x != y
      ensures Hits(reports, x, y) == Expected(edges0, sc, {leaf}, x, y)
    {
      HitsFlipped(ReportsTo(leaf, hits), reports, x, y);
      assert leaf !in hits;
      HitsReportsTo(leaf, hits, x, y);
    }
  }

  lemma UnmovedHit(edges: Edges, edges0: Edges, sc: Scene, done: set<Ptr>, leaf: Ptr, x: Ptr)
    requires SceneOk(sc) && Marked(edges, sc, done) && leaf in sc.order && leaf !in sc.moved && x in sc.order
    requires x != leaf
    requires x in sc.moved ==> (x in done <==> Before(sc.order, x, leaf))
    requires forall p :: p in edges0 ==> p in edges && edges[p] == edges0[p]
    requires forall p :: p in edges && p !in edges0 ==> edges[p].0 in sc.moved || edges[p].1 in sc.moved
    ensures (exists p :: p in edges && edges[p] == (x, leaf)) <==> ReportedAt(edges0, sc, leaf, x)
  {
    assert Overlap(sc, x, leaf) <==> Overlap(sc, leaf, x);
    assert Joined(edges, x, leaf) <==> Due(sc, done, NULL, {}, x, leaf);
    BeforeAsym(sc.order, x, leaf);
    if p :| p in edges && edges[p] == (x, leaf) {
      assert Ends(edges[p], x, leaf);
    }
  }

  // ---- between passes ----

  /** No pair touches a moved leaf before the pass starts. */
  lemma NoMovedPairs(edges: Edges, sc: Scene, p: Ptr)
    requires Marked(edges, sc, {}) && p in edges
    ensures edges[p].0 !in sc.moved && edges[p].1 !in sc.moved
  {
    assert Ends(edges[p], edges[p].0, edges[p].1);
    assert Joined(edges, edges[p].0, edges[p].1);
  }

  lemma ExactIsMarked(edges: Edges, sc: Scene)
    requires sc.moved == {} && Exact(edges, sc.order, sc.boxes)
    ensures Marked(edges, sc, {})
  {
    var sc0 := Scene(sc.order, sc.boxes, {});
    forall x, y | x in sc.order && y in sc.order && x != y ensures Due(sc, {}, NULL, {}, x, y) <==> Overlap(sc0, x, y) {
    }
  }

  /** The same leaves with the same boxes, except that leaf has moved. */
  ghost predicate MovedOne(sc: Scene, sc': Scene, leaf: Ptr) {
    && (forall l :: l in sc'.order <==> l in sc.order) && leaf in sc.order
    && (forall l :: l in sc.order && l != leaf ==> l in sc.boxes && l in sc'.boxes && sc'.boxes[l] == sc.boxes[l])
    && sc'.moved == sc.moved + {leaf}
  }

  /** Dropping the pairs of an updated leaf leaves the cache as a pass expects it. */
  lemma UpdateMarked(edges: Edges, sc: Scene, sc': Scene, leaf: Ptr)
    requires Marked(edges, sc, {}) && MovedOne(sc, sc', leaf)
    ensures Marked(CutOff(edges, leaf), sc', {})
  {
    var edges' := CutOff(edges, leaf);
    forall p | p in edges' ensures edges'[p].0 !in sc'.moved && edges'[p].1 !in sc'.moved {
      NoMovedPairs(edges, sc, p);
    }
    forall x, y | x in sc'.order && y in sc'.order && x != y
      ensures Joined(edges', x, y) <==> Due(sc', {}, NULL, {}, x, y)
    {
      if x != leaf && y != leaf {
        if p :| p in edges && Ends(edges[p], x, y) {
          assert p in edges' && Ends(edges'[p], x, y);
        }
        if p :| p in edges' && Ends(edges'[p], x, y) {
          assert p in edges && Ends(edges[p], x, y);
        }
        assert Due(sc', {}, NULL, {}, x, y) <==> Due(sc, {}, NULL, {}, x, y);
      }
    }
  }

  /** A new leaf, moved and without pairs. */
  lemma InsertMarked(edges: Edges, sc: Scene, sc': Scene, leaf: Ptr)
    requires Marked(edges, sc, {}) && leaf !in sc.order && sc.moved == {} && sc'.moved == {leaf}
    requires forall l :: l in sc'.order <==> l in sc.order || l == leaf
    requires forall l :: l in sc.order ==> l in sc.boxes && l in sc'.boxes && sc'.boxes[l] == sc.boxes[l]
    ensures Marked(edges, sc', {})
  {
    forall x, y | x in sc'.order && y in sc'.order && x != y
      ensures Joined(edges, x, y) <==> Due(sc', {}, NULL, {}, x, y)
    {
      if x != leaf && y != leaf {
        assert Due(sc', {}, NULL, {}, x, y) <==> Due(sc, {}, NULL, {}, x, y);
      }
    }
  }

  /** Removing a leaf together with its pairs. */
  lemma RemoveExact(edges: Edges, order: seq<Ptr>, boxes: map<Ptr, BB>, leaf: Ptr, order': seq<Ptr>, boxes': map<Ptr,
                    BB>)
    requires Exact(edges, order, boxes)
    requires forall l :: l in order' <==> l in order && l != leaf
    requires forall l :: l in order' ==> l in boxes && l in boxes' && boxes'[l] == boxes[l]
    ensures Exact(CutOff(edges, leaf), order', boxes')
  {
    var edges' := CutOff(edges, leaf);
    var sc, sc' := Scene(order, boxes, {}), Scene(order', boxes', {});
    forall x, y | x in order' && y in order' && x != y ensures Joined(edges', x, y) <==> Overlap(sc', x, y) {
      assert Joined(edges, x, y) <==> Overlap(sc, x, y);
      if p :| p in edges && Ends(edges[p], x, y) {
        assert p in edges' && Ends(edges'[p], x, y);
      }
      if p :| p in edges' && Ends(edges'[p], x, y) {
        assert p in edges && Ends(edges[p], x, y);
      }
    }
  }
}
