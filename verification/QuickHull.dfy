/** What makes a chain of points a part of a convex hull. */
module HullGeometry {
  import opened Vectors

  /** p lies strictly to the right of the line from a to b. */
  ghost predicate Right(a: Vect, b: Vect, p: Vect) {
    Cross(Sub(p, a), Sub(b, a)) > 0.0
  }

  ghost predicate NoneRight(ps: set<Vect>, a: Vect, b: Vect) {
    forall p :: p in ps ==> !Right(a, b, p)
  }

  /** The line through a in direction u has no point to its right, and other strictly to its left. */
  ghost predicate Support(ps: set<Vect>, a: Vect, u: Vect, other: Vect) {
    (forall p :: p in ps ==> Cross(Sub(p, a), u) <= 0.0) && Cross(Sub(other, a), u) < 0.0
  }

  /** Nothing lies right of the edge, or both of its ends are on supporting lines. */
  ghost predicate EdgeOk(ps: set<Vect>, a: Vect, b: Vect, u: Vect, w: Vect) {
    NoneRight(ps, a, b) || (Support(ps, a, u, b) && Support(ps, b, w, a))
  }

  /** q is a point of ps furthest to the right of the line from a to b. */
  ghost predicate Furthest(ps: set<Vect>, a: Vect, b: Vect, q: Vect) {
    q in ps && Right(a, b, q) && forall p :: p in ps ==> Cross(Sub(p, a), Sub(b, a)) <= Cross(Sub(q, a), Sub(b, a))
  }

  lemma ThreeTerms(x: Vect, y: Vect, z: Vect, u: Vect)
    ensures Cross(x, u) * Cross(z, y) + Cross(y, u) * Cross(x, z) + Cross(z, u) * Cross(y, x) == 0.0
  {
  }

  lemma SignOfTerm(pu: real, qb: real, bu: real, pq: real, qu: real, bp: real)
    requires pu * qb + bu * pq + qu * bp == 0.0
    requires pu <= 0.0 && qb > 0.0 && bu < 0.0 && qu <= 0.0 && (bp >= 0.0 || qu == 0.0)
    ensures pq <= 0.0
  {
    assert pu * qb <= 0.0;
    assert qu * bp <= 0.0;
    assert pq > 0.0 ==> bu * pq < 0.0;
  }

  /** A point right of the first half of a broken edge is right of the whole edge. */
  lemma RightOfFirst(ps: set<Vect>, a: Vect, b: Vect, q: Vect, u: Vect, p: Vect)
    requires Support(ps, a, u, b) && q in ps && p in ps && Right(a, b, q)
    requires !Right(a, b, p) || Cross(Sub(q, a), u) == 0.0
    ensures !Right(a, q, p)
  {
    var x, y, z := Sub(p, a), Sub(b, a), Sub(q, a);
    ThreeTerms(x, y, z, u);
    SignOfTerm(Cross(x, u), Cross(z, y), Cross(y, u), Cross(x, z), Cross(z, u), Cross(y, x));
  }

  lemma RightOfSecond(ps: set<Vect>, a: Vect, b: Vect, q: Vect, w: Vect, p: Vect)
    requires Support(ps, b, w, a) && q in ps && p in ps && Right(a, b, q)
    requires !Right(a, b, p) || Cross(Sub(q, b), w) == 0.0
    ensures !Right(q, b, p)
  {
    var x, y, z := Sub(p, b), Sub(a, b), Sub(q, b);
    ThreeTerms(x, y, z, w);
    assert Cross(Sub(q, a), Sub(b, a)) == -Cross(z, y) && Cross(Sub(p, a), Sub(b, a)) == Cross(y, x)
      && Cross(Sub(p, q), Sub(b, q)) == -Cross(x, z);
    SignOfTerm(Cross(x, w), -Cross(z, y), Cross(y, w), -Cross(x, z), Cross(z, w), -Cross(y, x));
  }

  /** The line through the furthest point parallel to the edge supports the points. */
  lemma FurthestSupports(ps: set<Vect>, a: Vect, b: Vect, q: Vect)
    requires Furthest(ps, a, b, q)
    ensures Support(ps, q, Sub(b, a), a) && Support(ps, q, Sub(b, a), b)
  {
    forall p | p in ps ensures Cross(Sub(p, q), Sub(b, a)) <= 0.0 {
      assert Cross(Sub(p, q), Sub(b, a)) == Cross(Sub(p, a), Sub(b, a)) - Cross(Sub(q, a), Sub(b, a));
    }
    assert Cross(Sub(a, q), Sub(b, a)) == -Cross(Sub(q, a), Sub(b, a));
    assert Cross(Sub(b, q), Sub(b, a)) == -Cross(Sub(q, a), Sub(b, a));
  }

  /** Both halves of an edge broken at its furthest point are fit to be reduced in turn. */
  lemma HalvesOk(ps: set<Vect>, a: Vect, b: Vect, q: Vect, u: Vect, w: Vect)
    requires EdgeOk(ps, a, b, u, w) && Furthest(ps, a, b, q)
    ensures EdgeOk(ps, a, q, u, Sub(b, a)) && EdgeOk(ps, q, b, Sub(b, a), w)
    ensures forall p :: p in ps && (Right(a, q, p) || Right(q, b, p)) ==> Right(a, b, p)
    ensures forall p :: p in ps ==> !Right(a, q, p) || !Right(q, b, p)
  {
    FurthestSupports(ps, a, b, q);
    forall p | p in ps
      ensures Right(a, q, p) || Right(q, b, p) ==> Right(a, b, p)
      ensures Cross(Sub(q, a), u) == 0.0 ==> !Right(a, q, p)
      ensures Cross(Sub(q, b), w) == 0.0 ==> !Right(q, b, p)
      ensures !Right(a, q, p) || !Right(q, b, p)
    {
      if !Right(a, b, p) || Cross(Sub(q, a), u) == 0.0 {
        RightOfFirst(ps, a, b, q, u, p);
      }
      if !Right(a, b, p) || Cross(Sub(q, b), w) == 0.0 {
        RightOfSecond(ps, a, b, q, w, p);
      }
      assert Cross(Sub(p, a), Sub(b, a)) - Cross(Sub(q, a), Sub(b, a)) == Cross(Sub(p, a), Sub(q, a))
        + Cross(Sub(p, q), Sub(b, q));
    }
  }

  // ---- chains ----

  /** out leads from a to b, and nothing lies right of any of its edges. */
  ghost predicate HullChain(ps: set<Vect>, a: Vect, out: seq<Vect>, b: Vect)
    decreases |out|
  {
    if out == [] then NoneRight(ps, a, b) else NoneRight(ps, a, out[0]) && HullChain(ps, out[0], out[1..], b)
  }

  lemma {:induction false} ChainConcat(ps: set<Vect>, a: Vect, left: seq<Vect>, m: Vect, right: seq<Vect>, b: Vect)
    requires HullChain(ps, a, left, m) && HullChain(ps, m, right, b)
    ensures HullChain(ps, a, left + [m] + right, b)
    decreases |left|
  {
    if left == [] {
      assert (left + [m] + right)[1..] == right && (left + [m] + right)[0] == m;
    } else {
      ChainConcat(ps, left[0], left[1..], m, right, b);
      assert (left + [m] + right)[1..] == left[1..] + [m] + right;
    }
  }

  lemma {:induction false} ChainEdges(ps: set<Vect>, a: Vect, out: seq<Vect>, b: Vect, i: nat)
    requires HullChain(ps, a, out, b) && i <= |out|
    ensures NoneRight(ps, ([a] + out + [b])[i], ([a] + out + [b])[i + 1])
    decreases |out|
  {
    var c := [a] + out + [b];
    if out != [] && i > 0 {
      ChainEdges(ps, out[0], out[1..], b, i - 1);
      assert [out[0]] + out[1..] + [b] == c[1..];
    }
  }
}

/** The algorithm as a function on sequences, and what it computes. */
module HullFunction {
  import opened Arrays
  import opened Vectors
  import opened HullGeometry

  /** Twice the area of the triangle a, p, b, positive when p is on the right. */
  function Score(a: Vect, b: Vect): Vect -> real {
    (p: Vect) => Cross(Sub(p, a), Sub(b, a))
  }

  /** How far right of a line a point may lie without being noticed. */
  function Slack(tol: real, length: Vect -> real, delta: Vect): real {
    tol * length(delta)
  }

  /** The first head points score more than tol, the others do not, and none beats the first. */
  ghost predicate Parted(seg: seq<Vect>, head: nat, score: Vect -> real, tol: real) {
    && head <= |seg|
    && (forall i :: 0 <= i < head ==> score(seg[i]) > tol)
    && (forall i :: head <= i < |seg| ==> score(seg[i]) <= tol)
    && (tol >= 0.0 ==> forall i :: 0 <= i < head ==> score(seg[i]) <= score(seg[0]))
  }

  /** The loop of QHullPartition in mid run. */
  ghost predicate Parting(seg: seq<Vect>, head: nat, tail: int, pivot: nat, max: real, score: Vect -> real, tol: real) {
    && head <= tail + 1 <= |seg| && (if head == 0 then pivot == 0 && max == 0.0 else pivot < head) && max >= 0.0
    && (forall i :: 0 <= i < head ==> tol < score(seg[i]) <= max)
    && (forall i :: tail < i < |seg| ==> score(seg[i]) <= tol)
    && (tol >= 0.0 && head > 0 ==> max == score(seg[pivot]))
  }

  lemma PartingKept(seg: seq<Vect>, head: nat, tail: int, pivot: nat, max: real, score: Vect -> real, tol: real)
    requires Parting(seg, head, tail, pivot, max, score, tol) && head <= tail
    ensures var v := score(seg[head]);
            if v > tol then Parting(seg, head + 1, tail, if v > max then head else pivot, if v > max then v
              else max, score, tol)
            else Parting(Exchanged(seg, head, tail), head, tail - 1, pivot, max, score, tol)
    ensures multiset(Exchanged(seg, head, tail)) == multiset(seg)
  {
    ExchangedSame(seg, head, tail);
  }

  lemma PartingEnds(seg: seq<Vect>, head: nat, tail: int, pivot: nat, max: real, score: Vect -> real, tol: real)
    requires Parting(seg, head, tail, pivot, max, score, tol) && head == tail + 1 && seg != []
    ensures Parted(Exchanged(seg, 0, pivot), head, score, tol) && multiset(Exchanged(seg, 0, pivot)) == multiset(seg)
    ensures pivot == 0 ==> Exchanged(seg, 0, pivot) == seg
  {
    ExchangedSame(seg, 0, pivot);
  }

  datatype Partition = Partition(seg: seq<Vect>, head: nat)

  /** The loop of QHullPartition and the swap that ends it. */
  function PartLoop(seg: seq<Vect>, head: nat, tail: int, pivot: nat, max: real, score: Vect -> real,
                    tol: real): Partition
    requires head <= tail + 1 <= |seg| && (pivot < head || pivot == 0) && seg != []
    decreases tail - head
  {
    if head > tail then Partition(if pivot != 0 then Exchanged(seg, 0, pivot) else seg, head)
    else
      var value := score(seg[head]);
      if value > tol then
        PartLoop(seg, head + 1, tail, if value > max then head else pivot, if value > max then value
          else max, score, tol)
      else
        PartLoop(Exchanged(seg, head, tail), head, tail - 1, pivot, max, score, tol)
  }

  /** Moves the points that score more than tol to the front, the highest score first. */
  function PartitionBy(seg: seq<Vect>, score: Vect -> real, tol: real): Partition {
    if seg == [] then Partition([], 0) else PartLoop(seg, 0, |seg| - 1, 0, 0.0, score, tol)
  }

  lemma {:induction false} PartLoopParts(seg: seq<Vect>, head: nat, tail: int, pivot: nat, max: real,
                                         score: Vect -> real, tol: real)
    requires Parting(seg, head, tail, pivot, max, score, tol) && seg != []
    ensures var r := PartLoop(seg, head, tail, pivot, max, score, tol);
            Parted(r.seg, r.head, score, tol) && multiset(r.seg) == multiset(seg) && |r.seg| == |seg|
    decreases tail - head
  {
    if head > tail {
      PartingEnds(seg, head, tail, pivot, max, score, tol);
    } else {
      PartingKept(seg, head, tail, pivot, max, score, tol);
      var v := score(seg[head]);
      if v > tol {
        PartLoopParts(seg, head + 1, tail, if v > max then head else pivot, if v > max then v else max, score, tol);
      } else {
        PartLoopParts(Exchanged(seg, head, tail), head, tail - 1, pivot, max, score, tol);
      }
    }
  }

  lemma PartitionParts(seg: seq<Vect>, score: Vect -> real, tol: real)
    ensures var r := PartitionBy(seg, score, tol);
            Parted(r.seg, r.head, score, tol) && multiset(r.seg) == multiset(seg) && |r.seg| == |seg|
  {
    if seg != [] {
      PartLoopParts(seg, 0, |seg| - 1, 0, 0.0, score, tol);
    }
  }

  type Parter = (seq<Vect>, Vect, Vect) -> Partition

  /** A partition rearranges the points. */
  ghost predicate Splits(part: Parter) {
    forall seg, a, b {:trigger part(seg, a, b)} ::
      var r := part(seg, a, b); r.head <= |r.seg| == |seg| && multiset(r.seg) == multiset(seg)
  }

  /** The points right of the line come first, the furthest one in front. */
  ghost predicate SplitsRightAt(part: Parter, seg: seq<Vect>, a: Vect, b: Vect) {
    var r := part(seg, a, b); Parted(r.seg, r.head, Score(a, b), 0.0)
  }

  ghost predicate SplitsRight(part: Parter) {
    forall seg, a, b {:trigger SplitsRightAt(part, seg, a, b)} :: SplitsRightAt(part, seg, a, b)
  }

  function Along(tol: real, length: Vect -> real): Parter {
    (seg: seq<Vect>, a: Vect, b: Vect) => PartitionBy(seg, Score(a, b), Slack(tol, length, Sub(b, a)))
  }

  lemma AlongSplits(tol: real, length: Vect -> real)
    ensures Splits(Along(tol, length)) && (tol == 0.0 ==> SplitsRight(Along(tol, length)))
  {
    var part := Along(tol, length);
    forall seg, a, b
      ensures
        var r := part(seg, a, b);
        && r.head <= |r.seg| == |seg| && multiset(r.seg) == multiset(seg)
        && (tol == 0.0 ==> Parted(r.seg, r.head, Score(a, b), 0.0))
    {
      AlongParts(tol, length, seg, a, b);
    }
  }

  lemma AlongParts(tol: real, length: Vect -> real, seg: seq<Vect>, a: Vect, b: Vect)
    ensures var r := Along(tol, length)(seg, a, b);
            r.head <= |r.seg| == |seg| && multiset(r.seg) == multiset(seg)
              && (tol == 0.0 ==> Parted(r.seg, r.head, Score(a, b), 0.0))
  {
    NoSlack(tol, length, Sub(b, a));
    PartitionParts(seg, Score(a, b), Slack(tol, length, Sub(b, a)));
  }

  lemma NoSlack(tol: real, length: Vect -> real, delta: Vect)
    ensures tol == 0.0 ==> Slack(tol, length, delta) == 0.0
  {
  }

  /** The part of the hull from a to b, both excluded, with pivot between the points left and right of it. */
  function Reduce(part: Parter, rest: seq<Vect>, a: Vect, pivot: Vect, b: Vect): seq<Vect>
    requires Splits(part)
    decreases |rest|, 1
  {
    if rest == [] then [pivot] else
    var left := part(rest, a, pivot);
    var right := part(left.seg[left.head..], pivot, b);
    ReduceRight(part, left, a, pivot) + [pivot] + ReduceRight(part, right, pivot, b)
  }

  /** The part of the hull over an edge along which the points have been partitioned. */
  function ReduceRight(part: Parter, r: Partition, a: Vect, b: Vect): seq<Vect>
    requires Splits(part) && r.head <= |r.seg|
    decreases r.head, 0
  {
    if r.head == 0 then [] else Reduce(part, r.seg[1..r.head], a, r.seg[0], b)
  }

  // ---- one level of the recursion ----

  /** The points rest are all that is left to look at right of the edges from a over pivot to b. */
  ghost predicate Reducible(ps: set<Vect>, rest: seq<Vect>, a: Vect, pivot: Vect, b: Vect, u: Vect, x: Vect, w: Vect) {
    && EdgeOk(ps, a, pivot, u, x) && EdgeOk(ps, pivot, b, x, w) && (forall p :: p in rest ==> p in ps)
    && (forall p :: p in ps && (Right(a, pivot, p) || Right(pivot, b, p)) ==> p in rest)
    && (forall p :: p in ps ==> !Right(a, pivot, p) || !Right(pivot, b, p))
  }

  /** out uses pivot and points of rest, none more often than it occurs. */
  ghost predicate Taken(rest: seq<Vect>, pivot: Vect, out: seq<Vect>) {
    multiset(out) <= multiset(rest) + multiset{pivot}
  }

  /** out completes the hull between a and b; its points are distinct and lie at pivot or right of the two edges
      over pivot. */
  ghost predicate Reduced(ps: set<Vect>, a: Vect, pivot: Vect, b: Vect, out: seq<Vect>) {
    && HullChain(ps, a, out, b) && Distinct(out)
    && forall v :: v in out ==> v == pivot || Right(a, pivot, v) || Right(pivot, b, v)
  }

  lemma PartedScores(ps: set<Vect>, seg: seq<Vect>, head: nat, score: Vect -> real)
    requires Parted(seg, head, score, 0.0) && (forall p :: p in seg ==> p in ps)
    requires forall p :: p in ps && score(p) > 0.0 ==> p in seg
    ensures forall p :: p in ps ==> (score(p) > 0.0 <==> p in seg[..head])
    ensures head > 0 ==> seg[0] in ps && score(seg[0]) > 0.0 && forall p :: p in ps ==> score(p) <= score(seg[0])
  {
    forall p | p in ps
      ensures score(p) > 0.0 <==> p in seg[..head]
      ensures head > 0 ==> score(p) <= score(seg[0])
    {
      if score(p) > 0.0 {
        var i :| 0 <= i < |seg| && seg[i] == p;
        assert seg[..head][i] == p;
      }
      if p in seg[..head] {
        var i :| 0 <= i < head && seg[i] == p;
      }
    }
    assert head > 0 ==> seg[0] in seg;
  }

  lemma PartedRight(ps: set<Vect>, seg: seq<Vect>, head: nat, a: Vect, b: Vect)
    requires Parted(seg, head, Score(a, b), 0.0) && (forall p :: p in seg ==> p in ps)
    requires forall p :: p in ps && Right(a, b, p) ==> p in seg
    ensures forall p :: p in ps ==> (Right(a, b, p) <==> p in seg[..head])
    ensures head > 0 ==> Furthest(ps, a, b, seg[0])
  {
    var score := Score(a, b);
    assert forall p :: Right(a, b, p) <==> score(p) > 0.0;
    PartedScores(ps, seg, head, score);
  }

  /** After a partition along one edge, that edge is final or broken at its furthest point. */
  lemma EdgeParted(ps: set<Vect>, seg: seq<Vect>, head: nat, a: Vect, b: Vect, u: Vect, w: Vect)
    requires EdgeOk(ps, a, b, u, w) && Parted(seg, head, Score(a, b), 0.0)
    requires (forall p :: p in seg ==> p in ps) && (forall p :: p in ps && Right(a, b, p) ==> p in seg)
    ensures head == 0 ==> NoneRight(ps, a, b)
    ensures head > 0 ==> Reducible(ps, seg[1..head], a, seg[0], b, u, Sub(b, a), w)
    ensures forall p :: p in ps ==> (Right(a, b, p) <==> p in seg[..head])
  {
    PartedRight(ps, seg, head, a, b);
    if head > 0 {
      BrokenEdge(ps, seg[..head], a, b, u, w);
      assert seg[..head][1..] == seg[1..head];
    }
  }

  /** The points right of an edge, the furthest one first, are what has to be looked at once the edge is broken
      there. */
  lemma BrokenEdge(ps: set<Vect>, right: seq<Vect>, a: Vect, b: Vect, u: Vect, w: Vect)
    requires EdgeOk(ps, a, b, u, w) && right != [] && Furthest(ps, a, b, right[0])
    requires (forall p :: p in right ==> p in ps) && (forall p :: p in ps && Right(a, b, p) ==> p in right)
    ensures Reducible(ps, right[1..], a, right[0], b, u, Sub(b, a), w)
  {
    var q, rest := right[0], right[1..];
    HalvesOk(ps, a, b, q, u, w);
    assert right == [q] + rest;
    NotItself(a, q);
    NotItself(q, b);
    forall p | p in ps && (Right(a, q, p) || Right(q, b, p)) ensures p in rest {
      assert p != q;
    }
  }

  lemma NotItself(a: Vect, b: Vect)
    ensures !Right(a, b, a) && !Right(a, b, b)
  {
  }

  lemma SameMembers(s: seq<Vect>, t: seq<Vect>)
    requires multiset(s) == multiset(t)
    ensures |s| == |t| && forall p :: p in s <==> p in t
  {
    assert |multiset(s)| == |s| && |multiset(t)| == |t|;
    forall p ensures p in s <==> p in t {
      assert p in multiset(s) <==> p in multiset(t);
    }
  }

  /** All points right of the edge from a to b are among seg. */
  ghost predicate EdgeOpen(ps: set<Vect>, seg: seq<Vect>, a: Vect, b: Vect, u: Vect, w: Vect) {
    EdgeOk(ps, a, b, u, w) && (forall p :: p in seg ==> p in ps) && (forall p :: p in ps && Right(a, b, p) ==> p in seg)
  }

  /** The points in right are exactly those right of the edge from a to b. */
  ghost predicate RightPart(ps: set<Vect>, a: Vect, b: Vect, right: seq<Vect>) {
    (forall p :: p in right ==> p in ps && Right(a, b, p)) && (forall p :: p in ps && Right(a, b, p) ==> p in right)
  }

  /** A partition along an open edge. */
  lemma EdgeSplit(ps: set<Vect>, rest: seq<Vect>, seg: seq<Vect>, head: nat, a: Vect, b: Vect, u: Vect, w: Vect)
    requires EdgeOpen(ps, rest, a, b, u, w) && multiset(seg) == multiset(rest) && Parted(seg, head, Score(a, b), 0.0)
    ensures RightPart(ps, a, b, seg[..head])
    ensures head > 0 ==> Reducible(ps, seg[1..head], a, seg[0], b, u, Sub(b, a), w)
  {
    SameMembers(seg, rest);
    EdgeParted(ps, seg, head, a, b, u, w);
    forall p | p in seg[..head] ensures p in ps && Right(a, b, p) {
      assert p in seg;
    }
  }

  /** What the first partition leaves over is open for the second edge. */
  lemma SecondOpen(ps: set<Vect>, rest: seq<Vect>, seg: seq<Vect>, left: nat, a: Vect, pivot: Vect, b: Vect, u: Vect,
                   x: Vect, w: Vect)
    requires Reducible(ps, rest, a, pivot, b, u, x, w) && multiset(seg) == multiset(rest) && left <= |seg|
    requires RightPart(ps, a, pivot, seg[..left])
    ensures EdgeOpen(ps, seg[left..], pivot, b, x, w)
  {
    SameMembers(seg, rest);
    assert seg == seg[..left] + seg[left..];
  }

  /** What one recursive call returns for the points right of an edge, the furthest one first. */
  ghost predicate EdgeDone(ps: set<Vect>, a: Vect, b: Vect, right: seq<Vect>, out: seq<Vect>) {
    if right == [] then out == [] else Reduced(ps, a, right[0], b, out)
  }

  /** ... in any case. */
  ghost predicate EdgeTaken(right: seq<Vect>, out: seq<Vect>) {
    multiset(out) <= multiset(right)
  }

  lemma TakenParts(rest: seq<Vect>, seg: seq<Vect>, left: nat, seg2: seq<Vect>, right: nat, pivot: Vect,
                   out1: seq<Vect>, out2: seq<Vect>)
    requires multiset(seg) == multiset(rest) && left <= |seg| && multiset(seg2) == multiset(seg[left..])
    requires right <= |seg2|
    requires EdgeTaken(seg[..left], out1) && EdgeTaken(seg2[..right], out2)
    ensures Taken(rest, pivot, out1 + [pivot] + out2)
  {
    assert seg == seg[..left] + seg[left..] && seg2 == seg2[..right] + seg2[right..];
    assert multiset(out1 + [pivot] + out2) == multiset(out1) + multiset{pivot} + multiset(out2);
  }

  lemma TakenMembers(right: seq<Vect>, out: seq<Vect>)
    requires EdgeTaken(right, out)
    ensures forall p :: p in out ==> p in right
    ensures |out| <= |right|
  {
    assert forall p :: p in out ==> p in multiset(out) && p in multiset(right);
    assert multiset(right) == multiset(out) + (multiset(right) - multiset(out));
    assert |multiset(out)| == |out| && |multiset(right)| == |right|;
  }

  lemma ReducedParts(ps: set<Vect>, a: Vect, pivot: Vect, b: Vect, rightA: seq<Vect>, rightB: seq<Vect>,
                     out1: seq<Vect>, out2: seq<Vect>)
    requires RightPart(ps, a, pivot, rightA) && EdgeDone(ps, a, pivot, rightA, out1) && EdgeTaken(rightA, out1)
    requires RightPart(ps, pivot, b, rightB) && EdgeDone(ps, pivot, b, rightB, out2) && EdgeTaken(rightB, out2)
    requires forall p :: p in ps ==> !Right(a, pivot, p) || !Right(pivot, b, p)
    ensures Reduced(ps, a, pivot, b, out1 + [pivot] + out2)
  {
    TakenMembers(rightA, out1);
    TakenMembers(rightB, out2);
    NotItself(a, pivot);
    NotItself(pivot, b);
    ChainConcat(ps, a, out1, pivot, out2, b);
    DistinctParts(out1, pivot, out2);
  }

  lemma DistinctParts(out1: seq<Vect>, pivot: Vect, out2: seq<Vect>)
    requires Distinct(out1) && Distinct(out2) && pivot !in out1 && pivot !in out2
    requires forall v :: v in out1 ==> v !in out2
    ensures Distinct(out1 + [pivot] + out2)
  {
    var out := out1 + [pivot] + out2;
    forall i, j | 0 <= i < j < |out| ensures out[i] != out[j] {
      assert j < |out1| ==> out[i] == out1[i] && out[j] == out1[j];
      assert i > |out1| ==> out[i] == out2[i - |out1| - 1] && out[j] == out2[j - |out1| - 1];
      assert i < |out1| < j ==> out[i] in out1 && out[j] in out2;
      assert i < |out1| ==> out[i] in out1;
      assert |out1| < j ==> out[j] in out2;
    }
  }

  lemma {:induction false} ReduceTakes(part: Parter, rest: seq<Vect>, a: Vect, pivot: Vect, b: Vect)
    requires Splits(part)
    ensures Taken(rest, pivot, Reduce(part, rest, a, pivot, b)) && 0 < |Reduce(part, rest, a, pivot, b)| <= |rest| + 1
    decreases |rest|, 1
  {
    if rest == [] {
    } else {
      var left := part(rest, a, pivot);
      var right := part(left.seg[left.head..], pivot, b);
      var out1, out2 := ReduceRight(part, left, a, pivot), ReduceRight(part, right, pivot, b);
      ReduceRightTakes(part, left, a, pivot);
      ReduceRightTakes(part, right, pivot, b);
      TakenParts(rest, left.seg, left.head, right.seg, right.head, pivot, out1, out2);
    }
  }

  /** The pivot itself is among the reduced points. */
  lemma PivotReduced(part: Parter, rest: seq<Vect>, a: Vect, pivot: Vect, b: Vect)
    requires Splits(part)
    ensures pivot in Reduce(part, rest, a, pivot, b)
  {
  }

  lemma ReduceRightTakes(part: Parter, r: Partition, a: Vect, b: Vect)
    requires Splits(part) && r.head <= |r.seg|
    ensures EdgeTaken(r.seg[..r.head], ReduceRight(part, r, a, b)) && |ReduceRight(part, r, a, b)| <= r.head
    decreases r.head, 0
  {
    if r.head > 0 {
      ReduceTakes(part, r.seg[1..r.head], a, r.seg[0], b);
      assert r.seg[..r.head] == [r.seg[0]] + r.seg[1..r.head];
    }
  }

  /** With an exact partition the reduced points complete the hull. */
  lemma {:induction false} ReduceHull(part: Parter, ps: set<Vect>, rest: seq<Vect>, a: Vect, pivot: Vect, b: Vect,
                                      u: Vect, x: Vect, w: Vect)
    requires Splits(part) && SplitsRight(part) && Reducible(ps, rest, a, pivot, b, u, x, w)
    ensures Reduced(ps, a, pivot, b, Reduce(part, rest, a, pivot, b))
    decreases |rest|, 1
  {
    if rest == [] {
      ReducedParts(ps, a, pivot, b, [], [], [], []);
      assert [] + [pivot] + [] == [pivot];
    } else {
      var left := part(rest, a, pivot);
      var right := part(left.seg[left.head..], pivot, b);
      assert left.head <= |left.seg| && right.head <= |right.seg|;
      EdgeHull(part, ps, rest, left, a, pivot, u, x);
      SecondOpen(ps, rest, left.seg, left.head, a, pivot, b, u, x, w);
      EdgeHull(part, ps, left.seg[left.head..], right, pivot, b, x, w);
      ReducedParts(ps, a, pivot, b, left.seg[..left.head], right.seg[..right.head],
                   ReduceRight(part, left, a, pivot), ReduceRight(part, right, pivot, b));
    }
  }

  lemma EdgeHull(part: Parter, ps: set<Vect>, rest: seq<Vect>, r: Partition, a: Vect, b: Vect, u: Vect, w: Vect)
    requires Splits(part) && SplitsRight(part) && EdgeOpen(ps, rest, a, b, u, w) && r == part(rest, a, b)
    ensures RightPart(ps, a, b, r.seg[..r.head])
    ensures EdgeDone(ps, a, b, r.seg[..r.head], ReduceRight(part, r, a, b))
    ensures EdgeTaken(r.seg[..r.head], ReduceRight(part, r, a, b))
    decreases r.head, 0
  {
    assert SplitsRightAt(part, rest, a, b);
    EdgeSplit(ps, rest, r.seg, r.head, a, b, u, w);
    ReduceRightTakes(part, r, a, b);
    if r.head > 0 {
      ReduceHull(part, ps, r.seg[1..r.head], a, r.seg[0], b, u, Sub(b, a), w);
    }
  }

  // ---- the whole hull ----

  predicate LexLess(a: Vect, b: Vect) {
    a.x < b.x || (a.x == b.x && a.y < b.y)
  }

  ghost predicate Extremes(ps: set<Vect>, a: Vect, b: Vect) {
    a in ps && b in ps && forall p :: p in ps ==> !LexLess(p, a) && !LexLess(b, p)
  }

  ghost function PointsOf(s: seq<Vect>): set<Vect> {
    set p | p in s
  }

  const DOWN := Vect(0.0, -1.0)
  const UP := Vect(0.0, 1.0)

  lemma BetweenExtremes(a: Vect, b: Vect, p: Vect)
    requires !LexLess(p, a) && !LexLess(b, p)
    ensures Cross(Sub(p, a), DOWN) <= 0.0 && Cross(Sub(p, b), UP) <= 0.0
    ensures a.x == b.x ==> !Right(a, b, p) && !Right(b, a, p)
    ensures !Right(a, b, p) || !Right(b, a, p)
  {
    if a.x == b.x {
      assert Sub(p, a).x == 0.0 && Sub(b, a).x == 0.0 && Sub(p, b).x == 0.0 && Sub(a, b).x == 0.0;
    }
    assert Cross(Sub(p, a), Sub(b, a)) == -Cross(Sub(p, b), Sub(a, b));
  }

  lemma VerticalLine(ps: set<Vect>, a: Vect, b: Vect)
    requires Extremes(ps, a, b) && a.x == b.x
    ensures NoneRight(ps, a, b) && NoneRight(ps, b, a)
  {
    forall p | p in ps ensures !Right(a, b, p) && !Right(b, a, p) {
      BetweenExtremes(a, b, p);
    }
  }

  /** The first and the last point in lexicographic order have vertical supporting lines. */
  lemma SupportFirst(ps: set<Vect>, a: Vect, b: Vect)
    requires Extremes(ps, a, b) && a.x < b.x
    ensures Support(ps, a, DOWN, b)
  {
    VerticalSides(a, b);
    forall p | p in ps ensures Cross(Sub(p, a), DOWN) <= 0.0 {
      BetweenExtremes(a, b, p);
    }
  }

  lemma SupportLast(ps: set<Vect>, a: Vect, b: Vect)
    requires Extremes(ps, a, b) && a.x < b.x
    ensures Support(ps, b, UP, a)
  {
    VerticalSides(a, b);
    forall p | p in ps ensures Cross(Sub(p, b), UP) <= 0.0 {
      BetweenExtremes(a, b, p);
    }
  }

  lemma VerticalSides(a: Vect, b: Vect)
    requires a.x < b.x
    ensures Cross(Sub(b, a), DOWN) < 0.0 && Cross(Sub(a, b), UP) < 0.0
  {
  }

  lemma ExtremeEdge(ps: set<Vect>, a: Vect, b: Vect)
    requires Extremes(ps, a, b)
    ensures EdgeOk(ps, a, b, DOWN, UP) && EdgeOk(ps, b, a, UP, DOWN)
  {
    if a.x == b.x {
      VerticalLine(ps, a, b);
    } else {
      SupportFirst(ps, a, b);
      SupportLast(ps, a, b);
    }
  }

  lemma NotBothSides(ps: set<Vect>, a: Vect, b: Vect)
    requires Extremes(ps, a, b)
    ensures forall p :: p in ps ==> !Right(a, b, p) || !Right(b, a, p)
  {
    forall p | p in ps ensures !Right(a, b, p) || !Right(b, a, p) {
      BetweenExtremes(a, b, p);
    }
  }

  lemma BetweenEnds(ps: set<Vect>, rest: seq<Vect>, a: Vect, b: Vect)
    requires ps == PointsOf([a, b] + rest)
    ensures forall p :: p in ps && (Right(a, b, p) || Right(b, a, p)) ==> p in rest
  {
    RestMembers(ps, rest, a, b);
    forall p | p in ps && (Right(a, b, p) || Right(b, a, p)) ensures p in rest {
      NotItself(a, b);
      NotItself(b, a);
    }
  }

  lemma ExtremesReducible(ps: set<Vect>, rest: seq<Vect>, a: Vect, b: Vect)
    requires Extremes(ps, a, b) && ps == PointsOf([a, b] + rest)
    ensures Reducible(ps, rest, a, b, a, DOWN, UP, DOWN)
  {
    ExtremeEdge(ps, a, b);
    NotBothSides(ps, a, b);
    BetweenEnds(ps, rest, a, b);
    RestMembers(ps, rest, a, b);
  }

  lemma RestMembers(ps: set<Vect>, rest: seq<Vect>, a: Vect, b: Vect)
    requires ps == PointsOf([a, b] + rest)
    ensures forall p :: p in ps ==> p == a || p == b || p in rest
    ensures forall p :: p in rest ==> p in ps
  {
    forall p | p in ps ensures p == a || p == b || p in rest {
      assert p in [a, b] + rest;
    }
    forall p | p in rest ensures p in ps {
      assert p in [a, b] + rest;
    }
  }

  function Next(hull: seq<Vect>, i: nat): Vect
    requires i < |hull|
  {
    if i + 1 < |hull| then hull[i + 1] else hull[0]
  }

  /** The polygon has no point of ps on the outside of any edge, and no vertex twice. */
  ghost predicate IsHull(ps: set<Vect>, hull: seq<Vect>) {
    && hull != [] && Distinct(hull) && (forall v :: v in hull ==> v in ps)
    && forall i {:trigger Next(hull, i)} :: 0 <= i < |hull| ==> NoneRight(ps, hull[i], Next(hull, i))
  }

  lemma ReducedIsHull(ps: set<Vect>, a: Vect, b: Vect, out: seq<Vect>)
    requires Reduced(ps, a, b, a, out) && a != b && a in ps && forall v :: v in out ==> v in ps
    ensures IsHull(ps, [a] + out)
  {
    var hull := [a] + out;
    NotItself(a, b);
    NotItself(b, a);
    assert a !in out;
    DistinctFirst(a, out);
    forall i {:trigger Next(hull, i)} | 0 <= i < |hull| ensures NoneRight(ps, hull[i], Next(hull, i)) {
      ChainEdges(ps, a, out, a, i);
      assert ([a] + out + [a])[i] == hull[i];
      assert ([a] + out + [a])[i + 1] == Next(hull, i);
    }
  }

  lemma DistinctFirst(a: Vect, out: seq<Vect>)
    requires Distinct(out) && a !in out
    ensures Distinct([a] + out)
  {
    var hull := [a] + out;
    forall i, j | 0 <= i < j < |hull| ensures hull[i] != hull[j] {
      assert hull[j] == out[j - 1] && out[j - 1] in out;
      assert i > 0 ==> hull[i] == out[i - 1];
    }
  }

  lemma SinglePoint(ps: set<Vect>, a: Vect)
    requires ps == {a}
    ensures IsHull(ps, [a])
  {
    NotItself(a, a);
    var hull := [a];
    forall i {:trigger Next(hull, i)} | 0 <= i < |hull| ensures NoneRight(ps, hull[i], Next(hull, i)) {
      assert Next(hull, i) == a;
    }
  }

  /** A hull that starts at the first point in lexicographic order and reaches the last one. */
  ghost predicate Encloses(ps: set<Vect>, hull: seq<Vect>) {
    && IsHull(ps, hull) && (forall p :: p in ps ==> !LexLess(p, hull[0]))
    && exists b :: b in hull && forall p :: p in ps ==> !LexLess(b, p)
  }

  lemma HullTakes(part: Parter, rest: seq<Vect>, a: Vect, b: Vect)
    requires Splits(part)
    ensures var hull := [a] + Reduce(part, rest, a, b, a);
            multiset(hull) <= multiset([a, b] + rest) && 1 <= |hull| <= |rest| + 2
  {
    var out := Reduce(part, rest, a, b, a);
    ReduceTakes(part, rest, a, b, a);
    assert [a, b] + rest == [a] + ([b] + rest);
    assert multiset([a] + out) == multiset{a} + multiset(out);
    assert multiset([a, b] + rest) == multiset{a} + (multiset{b} + multiset(rest));
  }

  lemma TakenPoints(rest: seq<Vect>, a: Vect, b: Vect, out: seq<Vect>)
    requires Taken(rest, b, out)
    ensures forall v :: v in out ==> v in PointsOf([a, b] + rest)
  {
    forall v | v in out ensures v in [a, b] + rest {
      assert v in multiset(out) && v in multiset(rest) + multiset{b};
    }
  }

  /** The hull of [a, b] + rest, where a and b are the extreme points. */
  lemma HullOf(part: Parter, rest: seq<Vect>, a: Vect, b: Vect)
    requires Splits(part) && SplitsRight(part) && Extremes(PointsOf([a, b] + rest), a, b) && a != b
    ensures Encloses(PointsOf([a, b] + rest), [a] + Reduce(part, rest, a, b, a))
  {
    var ps, out := PointsOf([a, b] + rest), Reduce(part, rest, a, b, a);
    ReduceTakes(part, rest, a, b, a);
    TakenPoints(rest, a, b, out);
    ExtremesReducible(ps, rest, a, b);
    ReduceHull(part, ps, rest, a, b, a, DOWN, UP, DOWN);
    PivotReduced(part, rest, a, b, a);
    EnclosesFrom(ps, a, b, out);
  }

  lemma EnclosesFrom(ps: set<Vect>, a: Vect, b: Vect, out: seq<Vect>)
    requires Reduced(ps, a, b, a, out) && Extremes(ps, a, b) && a != b && b in out && forall v :: v in out ==> v in ps
    ensures Encloses(ps, [a] + out)
  {
    ReducedIsHull(ps, a, b, out);
    assert b in [a] + out;
  }
}

/** Why such a hull cannot be made smaller: every corner of the point set is one of its vertices. */
module HullCorners {
  import opened Vectors
  import opened HullGeometry
  import opened HullFunction

  /** q is a corner: some line through q has all other points strictly on one side. */
  ghost predicate Corner(ps: set<Vect>, q: Vect, u: Vect) {
    q in ps && forall p :: p in ps && p != q ==> Cross(Sub(p, q), u) < 0.0
  }

  lemma SumOfThree(x: real, y: real, z: real)
    requires x <= 0.0 && y <= 0.0 && z <= 0.0 && x + y + z == 0.0
    ensures x == 0.0 && y == 0.0 && z == 0.0
  {
  }

  lemma NotPositive(x: real, y: real)
    requires x >= 0.0 && y <= 0.0
    ensures x * y <= 0.0 && (x > 0.0 && x * y == 0.0 ==> y == 0.0)
  {
  }

  /** Two edges that meet at a vertex, a before and b behind it, and a point at d further out than the vertex. */
  lemma TurnIsFlat(a: Vect, b: Vect, d: Vect, u: Vect)
    requires Cross(d, u) > 0.0 && Cross(a, u) >= 0.0 && Cross(b, u) <= 0.0
    requires Cross(d, a) <= 0.0 && Cross(d, b) <= 0.0 && Cross(b, a) <= 0.0
    ensures Cross(b, a) == 0.0 && Cross(a, u) * Cross(d, b) == 0.0 && Cross(b, u) * Cross(a, d) == 0.0
  {
    ThreeTerms(d, a, b, u);
    NotPositive(Cross(d, u), Cross(b, a));
    NotPositive(Cross(a, u), Cross(d, b));
    Flipped(a, d);
    NotPositive(Cross(a, d), Cross(b, u));
    assert Cross(b, u) * Cross(a, d) == Cross(a, d) * Cross(b, u);
    SumOfThree(Cross(d, u) * Cross(b, a), Cross(a, u) * Cross(d, b), Cross(b, u) * Cross(a, d));
  }

  lemma Flipped(a: Vect, b: Vect)
    ensures Cross(a, b) == -Cross(b, a)
  {
  }

  lemma Lagrange(b: Vect, u: Vect)
    ensures Dot(b, u) * Dot(b, u) + Cross(b, u) * Cross(b, u) == Dot(b, b) * Dot(u, u)
  {
  }

  lemma CrossAndDot(d: Vect, b: Vect, u: Vect)
    ensures Cross(d, b) * Dot(u, u) == Cross(d, u) * Dot(b, u) - Dot(d, u) * Cross(b, u)
  {
  }

  lemma ProductPositive(x: real, y: real, s: real)
    requires s == x * y && x > 0.0 && y > 0.0
    ensures s > 0.0
  {
  }

  lemma SquarePositive(x: real, s: real)
    requires s == x * x
    ensures s >= 0.0 && (x != 0.0 ==> s > 0.0)
  {
    if x > 0.0 {
      ProductPositive(x, x, s);
    } else if x < 0.0 {
      ProductPositive(-x, -x, s);
    }
  }

  lemma DotIs(v: Vect, a: real, b: real)
    requires v.x * v.x == a && v.y * v.y == b
    ensures Dot(v, v) == a + b
  {
  }

  lemma Positive(v: Vect)
    requires v != ZERO
    ensures Dot(v, v) > 0.0
  {
    var a, b := v.x * v.x, v.y * v.y;
    SquarePositive(v.x, a);
    SquarePositive(v.y, b);
    DotIs(v, a, b);
  }

  /** A vector along u with a point left of it that lies right of u runs against u. */
  lemma RunsBack(b: Vect, d: Vect, u: Vect)
    requires Cross(b, u) == 0.0 && Cross(d, b) <= 0.0 && Cross(d, u) > 0.0 && b != ZERO
    ensures Dot(b, u) < 0.0
  {
    Positive(b);
    assert u != ZERO by {
      assert u == ZERO ==> Cross(d, u) == 0.0;
    }
    Positive(u);
    Lagrange(b, u);
    CrossAndDot(d, b, u);
    SignOfDot(Cross(d, b), Dot(u, u), Cross(d, u), Dot(b, u), Dot(b, b));
  }

  lemma SignOfDot(db: real, uu: real, du: real, bu: real, bb: real)
    requires db <= 0.0 && uu > 0.0 && du > 0.0 && bb > 0.0 && db * uu == du * bu && bu * bu == bb * uu
    ensures bu < 0.0
  {
    NotPositive(uu, db);
    assert du * bu <= 0.0;
    assert bb * uu > 0.0;
    assert bu > 0.0 ==> du * bu > 0.0;
    assert bu == 0.0 ==> bu * bu == 0.0;
  }

  /** Parallel to a vector along u, a nonzero vector is along u. */
  lemma AlongToo(a: Vect, b: Vect, u: Vect)
    requires Cross(a, u) == 0.0 && Cross(b, a) == 0.0 && a != ZERO
    ensures Cross(b, u) == 0.0
  {
    CrossAndDot(b, u, a);
    Flipped(u, a);
    Positive(a);
    ZeroFactor(Cross(b, u), Dot(a, a));
  }

  lemma ZeroFactor(x: real, y: real)
    requires x * y == 0.0 && y > 0.0
    ensures x == 0.0
  {
  }

  // ---- on one line ----

  /** Points on a line through m that run against u from q lie on one side of q in lexicographic order. */
  lemma OnLine(v: Vect, a: Vect, u: Vect)
    requires Cross(v, a) == 0.0 && Cross(a, u) > 0.0 && Cross(v, u) < 0.0
    ensures v.x * Cross(a, u) == a.x * Cross(v, u) && v.y * Cross(a, u) == a.y * Cross(v, u)
  {
    assert v.x * Cross(a, u) - a.x * Cross(v, u) == -u.x * Cross(v, a);
    assert v.y * Cross(a, u) - a.y * Cross(v, u) == -u.y * Cross(v, a);
  }

  lemma Opposed(x: real, s: real, y: real, t: real)
    requires x * s == y * t && s > 0.0 && t < 0.0
    ensures (y > 0.0 ==> x < 0.0) && (y < 0.0 ==> x > 0.0) && (y == 0.0 ==> x == 0.0)
  {
    if y > 0.0 {
      assert y * t < 0.0;
    } else if y < 0.0 {
      assert y * t > 0.0;
    } else {
      ZeroFactor(x, s);
    }
  }

  predicate Forward(a: Vect) {
    a.x > 0.0 || (a.x == 0.0 && a.y > 0.0)
  }

  lemma LineOrder(p: Vect, q: Vect, a: Vect, u: Vect)
    requires Cross(Sub(p, q), a) == 0.0 && Cross(a, u) > 0.0 && Cross(Sub(p, q), u) < 0.0
    ensures if Forward(a) then LexLess(p, q) else LexLess(q, p)
  {
    var v := Sub(p, q);
    OnLine(v, a, u);
    Opposed(v.x, Cross(a, u), a.x, Cross(v, u));
    Opposed(v.y, Cross(a, u), a.y, Cross(v, u));
    assert a.x == 0.0 && a.y == 0.0 ==> Cross(a, u) == 0.0;
  }

  /** A point left of two opposite edges lies on their line. */
  lemma BetweenOpposites(w: Vect, a: Vect, b: Vect, u: Vect)
    requires Cross(b, a) == 0.0 && Cross(a, u) > 0.0 && Cross(b, u) < 0.0 && Cross(w, a) <= 0.0 && Cross(w, b) <= 0.0
    ensures Cross(w, a) == 0.0
  {
    ThreeTerms(w, a, b, u);
    Flipped(a, w);
    OnlyZero(Cross(w, u), Cross(b, a), Cross(a, u), Cross(w, b), Cross(b, u), Cross(a, w));
  }

  lemma OnlyZero(wu: real, ba: real, au: real, wb: real, bu: real, aw: real)
    requires wu * ba + au * wb + bu * aw == 0.0 && ba == 0.0 && au > 0.0 && bu < 0.0 && wb <= 0.0 && aw >= 0.0
    ensures aw == 0.0
  {
    assert wu * ba == 0.0;
    NotPositive(au, wb);
    NotPositive(aw, bu);
    assert bu * aw == aw * bu;
    assert aw > 0.0 ==> aw * bu < 0.0;
  }

  // ---- the vertex furthest out ----

  /** Is x at least as far out as y? Ties go to the smaller second score. */
  predicate AsGood(out: Vect -> real, tie: Vect -> real, x: Vect, y: Vect) {
    out(y) < out(x) || (out(y) == out(x) && tie(x) <= tie(y))
  }

  lemma {:induction false} BestVertex(out: Vect -> real, tie: Vect -> real, hull: seq<Vect>) returns (i: nat)
    requires hull != []
    ensures i < |hull| && forall j :: 0 <= j < |hull| ==> AsGood(out, tie, hull[i], hull[j])
  {
    var n := |hull| - 1;
    i := n;
    if n > 0 {
      var k := BestVertex(out, tie, hull[..n]);
      if AsGood(out, tie, hull[k], hull[n]) {
        i := k;
      }
      forall j | 0 <= j < |hull| ensures AsGood(out, tie, hull[i], hull[j]) {
        assert j < n ==> AsGood(out, tie, hull[k], hull[..n][j]);
      }
    }
  }

  function Outward(u: Vect): Vect -> real { (v: Vect) => Cross(v, u) }
  function Sideways(u: Vect): Vect -> real { (v: Vect) => Dot(v, u) }

  lemma Differences(x: Vect, y: Vect, u: Vect)
    ensures Cross(Sub(x, y), u) == Cross(x, u) - Cross(y, u) && Dot(Sub(x, y), u) == Dot(x, u) - Dot(y, u)
    ensures Sub(x, y) == ZERO ==> x == y
  {
    assert x == Vect(x.x, x.y) && y == Vect(y.x, y.y);
  }

  /** What a vertex furthest out in direction u has to look like when some point q of ps is further out. */
  lemma AtBestVertex(ps: set<Vect>, prev: Vect, m: Vect, next: Vect, q: Vect, u: Vect)
    requires NoneRight(ps, prev, m) && NoneRight(ps, m, next) && prev in ps && next in ps && q in ps && prev != m
    requires m != next
    requires AsGood(Outward(u), Sideways(u), m, prev) && AsGood(Outward(u), Sideways(u), m, next)
    requires Cross(Sub(m, q), u) < 0.0
    ensures var a := Sub(m, prev);
            Cross(a, u) > 0.0 && forall p :: p in ps ==> Cross(Sub(p, m), a) == 0.0
  {
    var a, b, d := Sub(m, prev), Sub(next, m), Sub(q, m);
    Differences(m, prev, u);
    Differences(next, m, u);
    Differences(m, q, u);
    Differences(q, m, u);
    LeftOfBoth(prev, m, next, q);
    LeftOfBoth(prev, m, next, next);
    TurnIsFlat(a, b, d, u);
    if Cross(a, u) == 0.0 {
      AlongToo(a, b, u);
      RunsBack(b, d, u);
      assert false;
    }
    OutAndBack(a, b, u);
    forall p | p in ps ensures Cross(Sub(p, m), a) == 0.0 {
      LeftOfBoth(prev, m, next, p);
      BetweenOpposites(Sub(p, m), a, b, u);
    }
  }

  lemma LeftOfBoth(prev: Vect, m: Vect, next: Vect, p: Vect)
    requires !Right(prev, m, p) && !Right(m, next, p)
    ensures Cross(Sub(p, m), Sub(m, prev)) <= 0.0 && Cross(Sub(p, m), Sub(next, m)) <= 0.0
  {
    assert Cross(Sub(p, prev), Sub(m, prev)) == Cross(Sub(p, m), Sub(m, prev));
  }

  lemma OutAndBack(a: Vect, b: Vect, u: Vect)
    requires Cross(b, a) == 0.0 && Cross(a, u) > 0.0 && Cross(b, u) <= 0.0 && b != ZERO
    ensures Cross(b, u) < 0.0
  {
    if Cross(b, u) == 0.0 {
      Flipped(a, b);
      AlongToo(b, a, u);
    }
  }

  /** Every corner of the points is a vertex of the hull: nothing smaller encloses them. */
  lemma CornersAreVertices(ps: set<Vect>, hull: seq<Vect>, q: Vect, u: Vect)
    requires Encloses(ps, hull) && Corner(ps, q, u)
    ensures q in hull
  {
    if q !in hull {
      var i := BestVertex(Outward(u), Sideways(u), hull);
      var m := hull[i];
      assert m in hull && hull[0] in hull;
      if |hull| == 1 {
        LoneVertex(ps, hull, q);
      } else {
        var h := if i == 0 then |hull| - 1 else i - 1;
        assert Next(hull, h) == m && hull[h] in hull && Next(hull, i) in hull;
        AtBestVertex(ps, hull[h], m, Next(hull, i), q, u);
        LineEnds(ps, hull, q, m, Sub(m, hull[h]), u);
      }
    }
  }

  lemma LoneVertex(ps: set<Vect>, hull: seq<Vect>, q: Vect)
    requires Encloses(ps, hull) && |hull| == 1 && q in ps
    ensures q in hull
  {
    var b :| b in hull && forall p :: p in ps ==> !LexLess(b, p);
    assert b == hull[0] && !LexLess(q, b) && !LexLess(b, q);
    assert q == Vect(q.x, q.y) && b == Vect(b.x, b.y);
  }

  /** On a line a corner is the first or the last point. */
  lemma LineEnds(ps: set<Vect>, hull: seq<Vect>, q: Vect, m: Vect, a: Vect, u: Vect)
    requires Encloses(ps, hull) && Corner(ps, q, u) && m in ps && Cross(a, u) > 0.0
    requires forall p :: p in ps ==> Cross(Sub(p, m), a) == 0.0
    ensures q in hull
  {
    var b :| b in hull && forall p :: p in ps ==> !LexLess(b, p);
    var e := if Forward(a) then b else hull[0];
    assert e in hull && e in ps;
    if e != q {
      Differences(e, m, a);
      Differences(q, m, a);
      Differences(e, q, a);
      LineOrder(e, q, a, u);
      assert false;
    }
  }
}

/** The in-place algorithm. The hull is written into the same array that holds the points still to be looked at. */
module QuickHull {
  import opened Arrays
  import opened Vectors
  import opened HullGeometry
  import opened HullFunction
  import opened HullTolerance

  ghost predicate Outside(arr: array<Vect>, was: seq<Vect>, lo: int, hi: int)
    requires |was| == arr.Length
    reads arr
  {
    forall i :: 0 <= i < arr.Length && (i < lo || hi <= i) ==> arr[i] == was[i]
  }

  method PartitionLoop(arr: array<Vect>, vs: nat, count: nat, score: Vect -> real, valueTol: real) returns (head: nat)
    requires vs + count <= arr.Length && count > 0
    modifies arr
    ensures Partition(arr[vs..vs + count], head) == PartitionBy(old(arr[vs..vs + count]), score, valueTol)
    ensures Outside(arr, old(arr[..]), vs, vs + count)
  {
    var max, pivot := 0.0, 0;
    head := 0;
    var tail := count - 1;
    ghost var seg := arr[vs..vs + count];
    while head <= tail
      invariant seg == arr[vs..vs + count] && head <= tail + 1 <= count && (pivot < head || pivot == 0)
      invariant PartLoop(seg, head, tail, pivot, max, score, valueTol)
        == PartitionBy(old(arr[vs..vs + count]), score, valueTol)
      invariant Outside(arr, old(arr[..]), vs, vs + count)
      decreases tail - head
    {
      assert arr[vs + head] == seg[head];
      var value := score(arr[vs + head]);
      if value > valueTol {
        if value > max {
          max := value;
          pivot := head;
        }
        head := head + 1;
      } else {
        Swap(arr, vs, count, head, tail);
        seg := Exchanged(seg, head, tail);
        tail := tail - 1;
      }
    }
    if pivot != 0 {
      Swap(arr, vs, count, 0, pivot);
    }
  }

  /** Moves the points right of the line from a to b to the front, the furthest one first. */
  method QHullPartition(arr: array<Vect>, vs: nat, count: nat, a: Vect, b: Vect, tol: real, length: Vect -> real)
    returns (head: nat)
    requires vs + count <= arr.Length
    modifies arr
    ensures Partition(arr[vs..vs + count], head) == Along(tol, length)(old(arr[vs..vs + count]), a, b)
    ensures Outside(arr, old(arr[..]), vs, vs + count)
  {
    if count == 0 {
      assert arr[vs..vs + count] == [];
      return 0;
    }
    head := PartitionLoop(arr, vs, count, Score(a, b), Slack(tol, length, Sub(b, a)));
  }

  ghost predicate PartsAt(part: Parter, tol: real, length: Vect -> real, seg: seq<Vect>, a: Vect, b: Vect) {
    part(seg, a, b) == Along(tol, length)(seg, a, b)
  }

  /** part stands for QHullPartition. */
  ghost predicate Parts(part: Parter, tol: real, length: Vect -> real) {
    Splits(part) && forall seg, a, b {:trigger PartsAt(part, tol, length, seg, a, b)} ::
      PartsAt(part, tol, length, seg, a, b)
  }

  /** The points s lie in the array from lo on. */
  ghost predicate Holds(arr: array<Vect>, lo: nat, s: seq<Vect>)
    reads arr
  {
    lo + |s| <= arr.Length && forall i {:trigger s[i]} :: 0 <= i < |s| ==> arr[lo + i] == s[i]
  }

  lemma HoldsSlice(arr: array<Vect>, lo: nat, s: seq<Vect>)
    ensures Holds(arr, lo, s) <==> lo + |s| <= arr.Length && arr[lo..lo + |s|] == s
  {
    if lo + |s| <= arr.Length && arr[lo..lo + |s|] == s {
      forall i | 0 <= i < |s| ensures arr[lo + i] == s[i] {
        assert arr[lo..lo + |s|][i] == s[i];
      }
    }
  }

  method PartitionEdge(tol: real, length: Vect -> real, arr: array<Vect>, vs: nat, count: nat, a: Vect, b: Vect,
                       ghost part: Parter, ghost rest: seq<Vect>) returns (head: nat)
    requires |rest| == count && Holds(arr, vs, rest) && Parts(part, tol, length)
    modifies arr
    ensures var r := part(rest, a, b); head == r.head <= count == |r.seg| && Holds(arr, vs, r.seg)
    ensures Outside(arr, old(arr[..]), vs, vs + count)
  {
    head := PartitionHeld(tol, length, arr, vs, count, a, b, rest);
    PartIs(part, tol, length, rest, a, b, Along(tol, length)(rest, a, b));
  }

  /** QHullPartition, seen from the points held. */
  method PartitionHeld(tol: real, length: Vect -> real, arr: array<Vect>, vs: nat, count: nat, a: Vect, b: Vect,
                       ghost rest: seq<Vect>) returns (head: nat)
    requires |rest| == count && Holds(arr, vs, rest)
    modifies arr
    ensures var r := Along(tol, length)(rest, a, b); head == r.head && |r.seg| == count && Holds(arr, vs, r.seg)
    ensures Outside(arr, old(arr[..]), vs, vs + count)
  {
    HoldsSlice(arr, vs, rest);
    ghost var r := Along(tol, length)(arr[vs..vs + count], a, b);
    head := QHullPartition(arr, vs, count, a, b, tol, length);
    SliceHeld(arr, vs, count, head, r);
  }

  lemma SliceHeld(arr: array<Vect>, lo: nat, count: nat, head: nat, r: Partition)
    requires lo + count <= arr.Length && Partition(arr[lo..lo + count], head) == r
    ensures head == r.head && |r.seg| == count && Holds(arr, lo, r.seg)
  {
    HoldsSlice(arr, lo, r.seg);
  }

  lemma PartIs(part: Parter, tol: real, length: Vect -> real, rest: seq<Vect>, a: Vect, b: Vect, r: Partition)
    requires Parts(part, tol, length) && r == Along(tol, length)(rest, a, b)
    ensures part(rest, a, b) == r && r.head <= |r.seg| == |rest|
  {
    assert PartsAt(part, tol, length, rest, a, b);
  }

  method QHullReduce(tol: real, length: Vect -> real, arr: array<Vect>, vs: nat, count: int, a: Vect, pivot: Vect,
                     b: Vect, rs: nat,
                     ghost part: Parter, ghost rest: seq<Vect>) returns (k: nat)
    requires rs + 1 <= vs && (count >= 0 ==> |rest| == count && Holds(arr, vs, rest)) && Parts(part, tol, length)
    modifies arr
    ensures count < 0 ==> k == 0 && arr[..] == old(arr[..])
    ensures count >= 0 ==> Outside(arr, old(arr[..]), rs, vs + count)
    ensures count >= 0 ==> var out := Reduce(part, rest, a, pivot, b); k == |out| <= count + 1 && Holds(arr, rs, out)
    decreases count, 2
  {
    if count < 0 {
      return 0;
    } else if count == 0 {
      arr[rs] := pivot;
      return 1;
    } else {
      var left, more, right;
      k, left := ReduceLeft(tol, length, arr, vs, count, a, pivot, rs, part, rest);
      ghost var r := part(rest, a, pivot);
      ghost var r2, out1 := part(r.seg[left..], pivot, b), ReduceRight(part, r, a, pivot);
      more, right := ReduceEdge(tol, length, arr, vs + left, count - left, pivot, b, rs + k, part, r.seg[left..]);
      ReduceUnfolds(part, rest, a, pivot, b);
      HoldsBoth(arr, rs, out1 + [pivot], ReduceRight(part, r2, pivot, b));
      k := k + more;
    }
  }

  /** The left half of QHullReduce, and the pivot behind it. */
  method ReduceLeft(tol: real, length: Vect -> real, arr: array<Vect>, vs: nat, count: nat, a: Vect, pivot: Vect,
                    rs: nat,
                    ghost part: Parter, ghost rest: seq<Vect>) returns (k: nat, left: nat)
    requires rs + 1 <= vs && 0 < count == |rest| && Holds(arr, vs, rest) && Parts(part, tol, length)
    modifies arr
    ensures var r := part(rest, a, pivot); var out := ReduceRight(part, r, a, pivot) + [pivot];
            && left == r.head <= count == |r.seg| && Holds(arr, vs + left, r.seg[left..])
            && k == |out| <= left + 1 && Holds(arr, rs, out)
    ensures Outside(arr, old(arr[..]), rs, vs + count)
    decreases count, 1
  {
    k, left := ReduceEdge(tol, length, arr, vs, count, a, pivot, rs, part, rest);
    arr[rs + k] := pivot;
    k := k + 1;
  }

  lemma HoldsBoth(arr: array<Vect>, lo: nat, s: seq<Vect>, t: seq<Vect>)
    requires Holds(arr, lo, s) && Holds(arr, lo + |s|, t)
    ensures Holds(arr, lo, s + t)
  {
    forall i | 0 <= i < |s + t| ensures arr[lo + i] == (s + t)[i] {
      assert i >= |s| ==> (s + t)[i] == t[i - |s|];
    }
  }

  lemma ReduceUnfolds(part: Parter, rest: seq<Vect>, a: Vect, pivot: Vect, b: Vect)
    requires Splits(part) && rest != []
    ensures var left := part(rest, a, pivot);
            var right := part(left.seg[left.head..], pivot, b);
            Reduce(part, rest, a, pivot, b) == ReduceRight(part, left, a, pivot) + [pivot]
              + ReduceRight(part, right, pivot, b)
  {
  }

  /** One half of QHullReduce: partition along the edge from a to b and reduce the points found right of it. */
  method ReduceEdge(tol: real, length: Vect -> real, arr: array<Vect>, vs: nat, count: nat, a: Vect, b: Vect, rs: nat,
                    ghost part: Parter, ghost rest: seq<Vect>) returns (k: nat, head: nat)
    requires rs <= vs && |rest| == count && Holds(arr, vs, rest) && Parts(part, tol, length)
    modifies arr
    ensures var r := part(rest, a, b);
            && head == r.head <= count == |r.seg| && Holds(arr, vs + head, r.seg[head..])
            && k == |ReduceRight(part, r, a, b)| <= head && Holds(arr, rs, ReduceRight(part, r, a, b))
    ensures Outside(arr, old(arr[..]), rs, vs + count)
    decreases count, 0
  {
    ghost var r := part(rest, a, b);
    head := PartitionEdge(tol, length, arr, vs, count, a, b, part, rest);
    assert Holds(arr, vs + head, r.seg[head..]);
    // verts[left_count] is only looked at when there is a point right of the edge
    var pivot := if head > 0 then arr[vs] else b;
    assert head > 0 ==> pivot == r.seg[0];
    k := QHullReduce(tol, length, arr, vs + 1, head - 1, a, pivot, b, rs, part, if head > 0 then r.seg[1..head]
      else []);
  }

  /** The first and the last point in lexicographic order. */
  method LoopIndexes(verts: array<Vect>, count: nat) returns (start: nat, end: nat)
    requires 0 < count <= verts.Length
    ensures start < count && end < count && (start == end ==> start == 0)
    ensures start != end ==> verts[start] != verts[end]
    ensures Extremes(PointsOf(verts[..count]), verts[start], verts[end])
  {
    start, end := 0, 0;
    var min, max := verts[0], verts[0];
    var i := 1;
    while i < count
      invariant 1 <= i <= count && start < i && end < i && min == verts[start] && max == verts[end]
      invariant if start == end then start == 0 else LexLess(min, max)
      invariant forall j :: 0 <= j < i ==> !LexLess(verts[j], min) && !LexLess(max, verts[j])
    {
      var v := verts[i];
      if v.x < min.x || (v.x == min.x && v.y < min.y) {
        min := v;
        start := i;
      } else if v.x > max.x || (v.x == max.x && v.y > max.y) {
        max := v;
        end := i;
      }
      i := i + 1;
    }
    assert verts[start] in verts[..count] && verts[end] in verts[..count];
  }

  /** memcpy from verts to result, unless they are the same array. */
  method CopyVerts(count: nat, verts: array<Vect>, result: array<Vect>)
    requires count <= verts.Length && count <= result.Length
    modifies result
    ensures result[..count] == old(verts[..count])
  {
    if verts != result {
      var i := 0;
      while i < count
        invariant 0 <= i <= count && result[..i] == verts[..i] && verts[..] == old(verts[..])
      {
        result[i] := verts[i];
        i := i + 1;
      }
    }
  }

  /** The extreme points go to the front. */
  method ExtremesFirst(result: array<Vect>, count: nat, start: nat, end: nat)
    requires count <= result.Length && start < count && end < count && start != end
    modifies result
    ensures multiset(result[..count]) == multiset(old(result[..count]))
    ensures result[0] == old(result[start]) && result[1] == old(result[end])
  {
    ghost var s := result[0..count];
    assert s == result[..count];
    Swap(result, 0, count, 0, start);
    var other := if end == 0 then start else end;
    Swap(result, 0, count, 1, other);
    FirstTwo(s, start, end, other, result[0..count]);
    assert result[0] == result[0..count][0] && result[1] == result[0..count][1] && result[0..count] == result[..count];
  }

  lemma FirstTwo(s: seq<Vect>, start: nat, end: nat, other: nat, s': seq<Vect>)
    requires start < |s| && end < |s| && start != end && other == if end == 0 then start else end
    requires s' == Exchanged(Exchanged(s, 0, start), 1, other)
    ensures multiset(s') == multiset(s) && s'[0] == s[start] && s'[1] == s[end]
  {
    ExchangedSame(s, 0, start);
    ExchangedSame(Exchanged(s, 0, start), 1, other);
  }

  method ConvexHull(count: nat, verts: array<Vect>, result: array<Vect>, tol: real, length: Vect -> real)
    returns (k: nat, first: nat)
    requires 0 < count <= verts.Length && count <= result.Length
    modifies result
    ensures 1 <= k <= count && first < count && result[0] == old(verts[first])
    ensures forall i :: 0 <= i < count ==> !LexLess(old(verts[i]), result[0])
    ensures multiset(result[..k]) <= multiset(old(verts[..count]))
    ensures tol == 0.0 ==> Encloses(PointsOf(old(verts[..count])), result[..k])
    ensures Tolerates(tol, length, PointsOf(old(verts[..count])), result[..k])
  {
    ghost var pts := verts[..count];
    CopyVerts(count, verts, result);
    var start, end := LoopIndexes(result, count);
    assert result[start] == pts[start] && result[end] == pts[end];
    if start == end {
      AllEqual(pts, pts[0]);
      assert result[..1] == [pts[0]];
      SingleTolerates(tol, length, PointsOf(pts), pts[0]);
      return 1, 0;
    }
    ExtremesFirst(result, count, start, end);
    first := start;
    k := HullBetween(result, count, tol, length, pts);
  }

  /** The rest of cpConvexHull, when the extreme points are in front. */
  method HullBetween(result: array<Vect>, count: nat, tol: real, length: Vect -> real, ghost pts: seq<Vect>)
    returns (k: nat)
    requires 2 <= count <= result.Length && multiset(result[..count]) == multiset(pts)
    requires Extremes(PointsOf(pts), result[0], result[1]) && result[0] != result[1]
    modifies result
    ensures 1 <= k <= count && result[0] == old(result[0]) && multiset(result[..k]) <= multiset(pts)
    ensures tol == 0.0 ==> Encloses(PointsOf(pts), result[..k])
    ensures Tolerates(tol, length, PointsOf(pts), result[..k])
  {
    var a, b := result[0], result[1];
    ghost var rest := result[2..count];
    assert result[..count] == [a, b] + rest;
    ghost var part := SomeParter(tol, length);
    SamePoints(pts, [a, b] + rest);
    HullTakes(part, rest, a, b);
    if tol == 0.0 {
      HullOf(part, rest, a, b);
    }
    HullTolerates(part, tol, length, PointsOf(pts), rest, a, b);
    k := HullAfter(result, count, tol, length, a, b, part, rest);
  }

  method HullAfter(result: array<Vect>, count: nat, tol: real, length: Vect -> real, a: Vect, b: Vect,
                   ghost part: Parter, ghost rest: seq<Vect>) returns (k: nat)
    requires 2 <= count <= result.Length && rest == result[2..count] && a == result[0] && Parts(part, tol, length)
    modifies result
    ensures var hull := [a] + Reduce(part, rest, a, b, a); k == |hull| <= count && result[..k] == hull && result[0] == a
  {
    HoldsSlice(result, 2, rest);
    k := QHullReduce(tol, length, result, 2, count - 2, a, b, a, 1, part, rest);
    ghost var out := Reduce(part, rest, a, b, a);
    HoldsSlice(result, 1, out);
    k := k + 1;
    assert result[..k] == [result[0]] + result[1..1 + |out|];
  }

  lemma SomeParter(tol: real, length: Vect -> real) returns (part: Parter)
    ensures Parts(part, tol, length) && (tol == 0.0 ==> SplitsRight(part))
    ensures Usable(tol, length) ==> FarParter(part, FarSet(tol, length))
  {
    part := Along(tol, length);
    AlongSplits(tol, length);
    if Usable(tol, length) {
      AlongIsFarParter(tol, length);
    }
  }

  lemma SamePoints(s: seq<Vect>, t: seq<Vect>)
    requires multiset(s) == multiset(t)
    ensures PointsOf(s) == PointsOf(t)
  {
    SameMembers(s, t);
  }

  lemma AllEqual(pts: seq<Vect>, a: Vect)
    requires pts != [] && a == pts[0] && Extremes(PointsOf(pts), a, a)
    ensures PointsOf(pts) == {a} && Encloses(PointsOf(pts), [a]) && multiset([a]) <= multiset(pts)
  {
    forall p | p in PointsOf(pts) ensures p == a {
      assert !LexLess(p, a) && !LexLess(a, p);
    }
    assert pts[0] in PointsOf(pts);
    SinglePoint(PointsOf(pts), a);
    assert a in [a];
  }
}
