/** Depth-first search over a directed graph: finds out whether there is a cycle and lists dependencies first. */
module DepthFirst {
  import opened Arrays

  /** The out-edges of every vertex. */
  type Graph = seq<seq<nat>>

  ghost predicate InRange(out: Graph) {
    forall u, v :: 0 <= u < |out| && v in out[u] ==> v < |out|
  }

  ghost predicate Edge(out: Graph, u: nat, v: nat) {
    u < |out| && v in out[u]
  }

  ghost predicate HasSource(out: Graph, v: nat) {
    exists u :: Edge(out, u, v)
  }

  ghost predicate WalkStep(out: Graph, p: seq<nat>, i: nat)
    requires i + 1 < |p|
  {
    Edge(out, p[i], p[i + 1])
  }

  ghost predicate Walk(out: Graph, p: seq<nat>) {
    p != [] && forall i :: 0 <= i < |p| - 1 ==> WalkStep(out, p, i)
  }

  ghost predicate Reaches(out: Graph, u: nat, v: nat) {
    exists p :: Walk(out, p) && p[0] == u && p[|p| - 1] == v
  }

  ghost predicate Closed(out: Graph, p: seq<nat>) {
    Walk(out, p) && |p| >= 2 && p[0] == p[|p| - 1]
  }

  ghost predicate Cyclic(out: Graph) {
    exists p :: Closed(out, p)
  }

  // ---- walks ----

  lemma WalkPart(out: Graph, p: seq<nat>, i: nat, j: nat)
    requires Walk(out, p) && i < j <= |p|
    ensures Walk(out, p[i..j])
  {
    forall k | 0 <= k < j - i - 1 ensures WalkStep(out, p[i..j], k) {
      assert WalkStep(out, p, i + k);
    }
  }

  lemma WalkJoin(out: Graph, p: seq<nat>, q: seq<nat>)
    requires Walk(out, p) && Walk(out, q) && Edge(out, p[|p| - 1], q[0])
    ensures Walk(out, p + q)
  {
    forall k | 0 <= k < |p + q| - 1 ensures WalkStep(out, p + q, k) {
      if k < |p| - 1 {
        assert WalkStep(out, p, k);
      } else if k >= |p| {
        assert WalkStep(out, q, k - |p|);
      }
    }
  }

  lemma WalkKept(out: Graph, out': Graph, p: seq<nat>)
    requires Walk(out, p) && forall u, v :: Edge(out, u, v) ==> Edge(out', u, v)
    ensures Walk(out', p)
  {
    forall k | 0 <= k < |p| - 1 ensures WalkStep(out', p, k) {
      assert WalkStep(out, p, k);
    }
  }

  // ---- dependencies first ----

  /** Every vertex of done comes after all vertices its edges lead to. */
  ghost predicate Ordered(out: Graph, done: seq<nat>) {
    forall i, v :: 0 <= i < |done| && Edge(out, done[i], v) ==> v in done[..i]
  }

  lemma {:induction false} WalkDescends(out: Graph, done: seq<nat>, p: seq<nat>, i: nat)
    requires Ordered(out, done) && Walk(out, p) && |p| >= 2 && i < |done| && p[0] == done[i]
    ensures p[|p| - 1] in done[..i]
    decreases |p|
  {
    assert WalkStep(out, p, 0);
    var j :| 0 <= j < i && done[j] == p[1];
    if |p| > 2 {
      WalkPart(out, p, 1, |p|);
      WalkDescends(out, done, p[1..|p|], j);
      assert done[..j] <= done[..i];
    }
  }

  lemma OrderedAcyclic(out: Graph, done: seq<nat>)
    requires Ordered(out, done) && Distinct(done) && forall v: nat :: v < |out| ==> v in done
    ensures !Cyclic(out)
  {
    forall p | Closed(out, p) ensures false {
      assert WalkStep(out, p, 0);
      assert p[0] in done;
      var i :| 0 <= i < |done| && done[i] == p[0];
      WalkDescends(out, done, p, i);
    }
  }

  // ---- the search ----

  /** white: not seen; done: finished, in that order; stack: in between, a walk from the root. */
  ghost predicate Searching(out: Graph, white: set<nat>, done: seq<nat>, stack: seq<nat>, cycle: bool) {
    && InRange(out) && Distinct(done) && (stack == [] || Walk(out, stack))
    && (forall v: nat :: v < |out| <==> v in white || v in done || v in stack)
    && (forall v :: v in white ==> v !in done && v !in stack) && (forall v :: v in done ==> v !in stack)
    && (if cycle then Cyclic(out) else Ordered(out, done))
  }

  lemma StartVertex(out: Graph, u: nat, white: set<nat>, done: seq<nat>, stack: seq<nat>, cycle: bool)
    requires Searching(out, white, done, stack, cycle) && u in white
    requires stack == [] || Edge(out, stack[|stack| - 1], u)
    ensures Searching(out, white - {u}, done, stack + [u], cycle)
  {
    assert Walk(out, [u]);
    if stack != [] {
      WalkJoin(out, stack, [u]);
    } else {
      assert stack + [u] == [u];
    }
  }

  /** An edge back to a vertex on the stack closes a cycle. */
  lemma BackEdge(out: Graph, stack: seq<nat>, u: nat, v: nat)
    requires Walk(out, stack + [u]) && Edge(out, u, v) && v in stack + [u]
    ensures Cyclic(out)
  {
    var p := stack + [u];
    var i :| 0 <= i < |p| && p[i] == v;
    WalkPart(out, p, i, |p|);
    assert p[i..|p|] == p[i..];
    WalkJoin(out, p[i..], [v]);
    assert Closed(out, p[i..] + [v]);
  }

  lemma FinishVertex(out: Graph, u: nat, white: set<nat>, done: seq<nat>, stack: seq<nat>, cycle: bool)
    requires Searching(out, white, done, stack + [u], cycle) && u !in stack
    requires !cycle ==> forall v :: Edge(out, u, v) ==> v in done
    ensures Searching(out, white, done + [u], stack, cycle)
  {
    if stack != [] {
      WalkPart(out, stack + [u], 0, |stack|);
      assert (stack + [u])[0..|stack|] == stack;
    }
    forall v ensures v in stack + [u] <==> v in stack || v == u {
    }
    if !cycle {
      forall i, v | 0 <= i < |done + [u]| && Edge(out, (done + [u])[i], v) ensures v in (done + [u])[..i] {
        assert (done + [u])[..i] == done[..i];
      }
    }
  }

  /** What a finished search below one vertex has added. */
  ghost predicate Finished(out: Graph, u: nat, done: seq<nat>, done': seq<nat>) {
    && done <= done'
    && forall i :: |done| <= i < |done'| ==> done'[i] == u || HasSource(out, done'[i])
  }

  method Visit(out: Graph, u: nat, white: set<nat>, done: seq<nat>, cycle: bool, ghost stack: seq<nat>)
    returns (white': set<nat>, done': seq<nat>, cycle': bool)
    requires Searching(out, white, done, stack, cycle) && u in white
    requires stack == [] || Edge(out, stack[|stack| - 1], u)
    ensures Searching(out, white', done', stack, cycle')
    ensures white' <= white - {u} && u in done' && Finished(out, u, done, done') && (cycle ==> cycle')
    decreases white
  {
    white', done', cycle' := white - {u}, done, cycle;
    StartVertex(out, u, white, done, stack, cycle);
    var i := 0;
    while i < |out[u]|
      invariant 0 <= i <= |out[u]| && Searching(out, white', done', stack + [u], cycle')
      invariant white' <= white - {u} && done <= done' && (cycle ==> cycle')
      invariant forall k :: |done| <= k < |done'| ==> HasSource(out, done'[k])
      invariant !cycle' ==> forall k :: 0 <= k < i ==> out[u][k] in done'
    {
      var v := out[u][i];
      assert Edge(out, u, v);
      if v in white' {
        ghost var done1 := done';
        white', done', cycle' := Visit(out, v, white', done', cycle', stack + [u]);
        assert HasSource(out, v);
      } else if v !in done' {
        BackEdge(out, stack, u, v);
        cycle' := true;
      }
      i := i + 1;
    }
    FinishVertex(out, u, white', done', stack, cycle');
    done' := done' + [u];
  }

  /** A vertex no edge leads to comes after all vertices with a smaller index. */
  ghost predicate RootsInOrder(out: Graph, done: seq<nat>) {
    forall i, x :: 0 <= i < |done| && !HasSource(out, done[i]) && x < done[i] ==> x in done[..i]
  }

  /** done lists the numbers below n. */
  ghost predicate Covers(done: seq<nat>, n: nat) {
    Distinct(done) && (forall v: nat :: v < n ==> v in done) && forall i :: 0 <= i < |done| ==> done[i] < n
  }

  method Search(out: Graph) returns (done: seq<nat>, cycle: bool)
    requires InRange(out)
    ensures cycle <==> Cyclic(out)
    ensures Covers(done, |out|)
    ensures !cycle ==> Ordered(out, done)
    ensures RootsInOrder(out, done)
  {
    var white: set<nat> := {};
    var r := 0;
    while r < |out|
      invariant 0 <= r <= |out| && forall v: nat :: v in white <==> v < r
    {
      white := white + {r};
      r := r + 1;
    }
    done, cycle, r := [], false, 0;
    while r < |out|
      invariant 0 <= r <= |out| && Searching(out, white, done, [], cycle) && RootsInOrder(out, done)
      invariant forall v: nat :: v < r ==> v in done
    {
      if r in white {
        ghost var before := done;
        white, done, cycle := Visit(out, r, white, done, cycle, []);
        forall i, x | 0 <= i < |done| && !HasSource(out, done[i]) && x < done[i] ensures x in done[..i] {
          if i < |before| {
            assert done[..i] == before[..i];
          } else {
            assert done[i] == r && x in before && before <= done[..i];
          }
        }
      }
      r := r + 1;
    }
    forall i | 0 <= i < |done| ensures done[i] < |out| {
      assert done[i] in done;
    }
    if !cycle {
      OrderedAcyclic(out, done);
    }
  }
}
