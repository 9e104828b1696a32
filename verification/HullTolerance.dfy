/** What the tolerance of the hull means: which vertices are kept, and which points may be left outside. */
module HullTolerance {
  import opened Arrays
  import opened Vectors
  import opened HullGeometry
  import opened HullFunction
  import opened HullCorners

  /** p lies more than tol to the right of the line from a to b. */
  ghost predicate Far(tol: real, length: Vect -> real, a: Vect, b: Vect, p: Vect) {
    Cross(Sub(p, a), Sub(b, a)) > tol * length(Sub(b, a))
  }

  /** The triples a, b, p with p far right of the line from a to b. */
  type Outliers = iset<(Vect, Vect, Vect)>

  ghost function FarSet(tol: real, length: Vect -> real): Outliers {
    iset a: Vect, b: Vect, p: Vect | Far(tol, length, a, b, p) :: (a, b, p)
  }

  // ---- which vertices are kept ----

  /** The point at i of a chain is far right of the line through two others, one on either side of it. */
  ghost predicate StandsOut(far: Outliers, c: seq<Vect>, i: nat)
    requires i < |c|
  {
    exists j, k :: 0 <= j < i < k < |c| && (c[j], c[k], c[i]) in far
  }

  ghost predicate AllStandOut(far: Outliers, c: seq<Vect>, but: nat) {
    forall i {:trigger StandsOut(far, c, i)} :: 0 < i < |c| - 1 && i != but ==> StandsOut(far, c, i)
  }

  /** The first head points of seg are the far ones, and the furthest of them comes first. */
  ghost predicate FarFirst(far: Outliers, seg: seq<Vect>, head: nat, a: Vect, b: Vect) {
    && head <= |seg|
    && (forall i :: 0 <= i < head ==> (a, b, seg[i]) in far)
    && (forall i :: head <= i < |seg| ==> (a, b, seg[i]) !in far)
    && forall i :: 0 <= i < head ==> Cross(Sub(seg[i], a), Sub(b, a)) <= Cross(Sub(seg[0], a), Sub(b, a))
  }

  ghost predicate FarFirstAt(part: Parter, far: Outliers, seg: seq<Vect>, a: Vect, b: Vect) {
    var r := part(seg, a, b); FarFirst(far, r.seg, r.head, a, b)
  }

  ghost predicate SplitsFar(part: Parter, far: Outliers) {
    forall seg, a, b {:trigger FarFirstAt(part, far, seg, a, b)} :: FarFirstAt(part, far, seg, a, b)
  }

  ghost predicate LengthAt(length: Vect -> real, v: Vect) {
    length(v) >= 0.0 && length(v) * length(v) == Dot(v, v)
  }

  /** length is the exact length of a vector. */
  ghost predicate IsLength(length: Vect -> real) {
    forall v {:trigger LengthAt(length, v)} :: LengthAt(length, v)
  }

  lemma PartedFar(far: Outliers, seg: seq<Vect>, head: nat, a: Vect, b: Vect, slack: real)
    requires Parted(seg, head, Score(a, b), slack) && slack >= 0.0
    requires forall p :: (a, b, p) in far <==> Score(a, b)(p) > slack
    ensures FarFirst(far, seg, head, a, b)
  {
    var score := Score(a, b);
    forall i | 0 <= i < head ensures (a, b, seg[i]) in far && score(seg[i]) <= score(seg[0]) {
    }
  }

  lemma FarScore(tol: real, length: Vect -> real, a: Vect, b: Vect, p: Vect)
    ensures (a, b, p) in FarSet(tol, length) <==> Score(a, b)(p) > Slack(tol, length, Sub(b, a))
  {
  }

  ghost predicate Usable(tol: real, length: Vect -> real) {
    tol >= 0.0 && forall v :: length(v) >= 0.0
  }

  lemma SlackAtLeast(tol: real, length: Vect -> real, v: Vect)
    requires Usable(tol, length)
    ensures Slack(tol, length, v) >= 0.0
  {
    assert length(v) >= 0.0;
  }

  lemma AlongFar(tol: real, length: Vect -> real, seg: seq<Vect>, a: Vect, b: Vect)
    requires Usable(tol, length)
    ensures FarFirstAt(Along(tol, length), FarSet(tol, length), seg, a, b)
  {
    var r, slack := Along(tol, length)(seg, a, b), Slack(tol, length, Sub(b, a));
    PartitionParts(seg, Score(a, b), slack);
    SlackAtLeast(tol, length, Sub(b, a));
    forall p ensures (a, b, p) in FarSet(tol, length) <==> Score(a, b)(p) > slack {
      FarScore(tol, length, a, b, p);
    }
    PartedFar(FarSet(tol, length), r.seg, r.head, a, b, slack);
  }

  lemma ChainStandsOut(far: Outliers, c1: seq<Vect>, c2: seq<Vect>, m: nat)
    requires c1 != [] && c2 != [] && c1[|c1| - 1] == c2[0] && m == |c1| - 1
    requires AllStandOut(far, c1, 0) && AllStandOut(far, c2, 0)
    ensures AllStandOut(far, c1 + c2[1..], m)
  {
    var c := c1 + c2[1..];
    assert forall i :: 0 <= i < |c2| ==> c[m + i] == c2[i];
    forall i: nat {:trigger StandsOut(far, c, i)} | 0 < i < |c| - 1 && i != m
      ensures StandsOut(far, c, i)
    {
      if i < m {
        assert StandsOut(far, c1, i);
        var j, k :| 0 <= j < i < k < |c1| && (c1[j], c1[k], c1[i]) in far;
        assert c[j] == c1[j] && c[k] == c1[k] && c[i] == c1[i];
      } else {
        assert StandsOut(far, c2, i - m);
        var j, k :| 0 <= j < i - m < k < |c2| && (c2[j], c2[k], c2[i - m]) in far;
        assert c[m + j] == c2[j] && c[m + k] == c2[k] && c[i] == c2[i - m];
      }
    }
  }

  /** Every vertex the reduction adds to a and b, but for the pivot it was given, stands out. */
  lemma {:induction false} ReduceStandsOut(part: Parter, far: Outliers, rest: seq<Vect>, a: Vect, pivot: Vect, b: Vect)
    returns (m: nat)
    requires Splits(part) && SplitsFar(part, far)
    ensures var out := Reduce(part, rest, a, pivot, b);
            0 < m <= |out| && out[m - 1] == pivot && AllStandOut(far, [a] + out + [b], m)
    decreases |rest|, 1
  {
    var out := Reduce(part, rest, a, pivot, b);
    if rest == [] {
      m := 1;
    } else {
      var left := part(rest, a, pivot);
      var right := part(left.seg[left.head..], pivot, b);
      var out1, out2 := ReduceRight(part, left, a, pivot), ReduceRight(part, right, pivot, b);
      assert FarFirstAt(part, far, rest, a, pivot) && FarFirstAt(part, far, left.seg[left.head..], pivot, b);
      EdgeStandsOut(part, far, left, a, pivot);
      EdgeStandsOut(part, far, right, pivot, b);
      m := |out1| + 1;
      ChainStandsOut(far, [a] + out1 + [pivot], [pivot] + out2 + [b], m);
      assert [a] + out + [b] == [a] + out1 + [pivot] + ([pivot] + out2 + [b])[1..];
    }
  }

  lemma EdgeStandsOut(part: Parter, far: Outliers, r: Partition, a: Vect, b: Vect)
    requires Splits(part) && SplitsFar(part, far) && FarFirst(far, r.seg, r.head, a, b)
    ensures AllStandOut(far, [a] + ReduceRight(part, r, a, b) + [b], 0)
    decreases r.head, 0
  {
    if r.head > 0 {
      var out := ReduceRight(part, r, a, b);
      var m := ReduceStandsOut(part, far, r.seg[1..r.head], a, r.seg[0], b);
      PivotStandsOut(far, a, out, b, m);
    }
  }

  lemma PivotStandsOut(far: Outliers, a: Vect, out: seq<Vect>, b: Vect, m: nat)
    requires 0 < m <= |out| && (a, b, out[m - 1]) in far && AllStandOut(far, [a] + out + [b], m)
    ensures AllStandOut(far, [a] + out + [b], 0)
  {
    var c := [a] + out + [b];
    assert c[0] == a && c[|c| - 1] == b && c[m] == out[m - 1];
    assert StandsOut(far, c, m);
  }

  /** Without far points only the two extreme ones are left. */
  lemma NothingFar(part: Parter, far: Outliers, rest: seq<Vect>, a: Vect, b: Vect)
    requires Splits(part) && SplitsFar(part, far)
    requires forall p :: p in rest ==> (a, b, p) !in far && (b, a, p) !in far
    ensures Reduce(part, rest, a, b, a) == [b]
  {
    if rest != [] {
      var left := part(rest, a, b);
      var right := part(left.seg[left.head..], b, a);
      assert FarFirstAt(part, far, rest, a, b) && FarFirstAt(part, far, left.seg[left.head..], b, a);
      SameMembers(left.seg, rest);
      NoneAhead(far, left.seg, left.head, a, b);
      assert left.seg[left.head..] == left.seg;
      SameMembers(right.seg, left.seg);
      NoneAhead(far, right.seg, right.head, b, a);
    }
  }

  lemma NoneAhead(far: Outliers, seg: seq<Vect>, head: nat, a: Vect, b: Vect)
    requires FarFirst(far, seg, head, a, b) && forall p :: p in seg ==> (a, b, p) !in far
    ensures head == 0
  {
    assert seg != [] ==> seg[0] in seg;
  }

  // ---- which points are left outside ----

  /** Nothing lies right of the edge, or all points lie beside it: the supporting lines at its ends do not lean
      back over it. */
  ghost predicate Beside(ps: set<Vect>, a: Vect, b: Vect, u: Vect, w: Vect) {
    || NoneRight(ps, a, b)
    || (Support(ps, a, u, b) && Support(ps, b, w, a) && Dot(u, Sub(b, a)) >= 0.0 && Dot(w, Sub(b, a)) >= 0.0)
  }

  lemma DotAndCross(u: Vect, z: Vect, e: Vect)
    ensures Dot(u, z) * Dot(e, e) == Dot(u, e) * Dot(z, e) + Cross(u, e) * Cross(z, e)
  {
  }

  lemma SignOfAhead(zu: real, ee: real, ze: real, ue: real, zd: real, ud: real)
    requires zu * ee == ze * ud - zd * ue && zu <= 0.0 && ee >= 0.0 && ze > 0.0 && ue > 0.0 && ud >= 0.0
    ensures zd >= 0.0
  {
    NotPositive(ee, zu);
    assert zu * ee == ee * zu;
    assert ze * ud >= 0.0;
    assert zd < 0.0 ==> zd * ue < 0.0;
  }

  lemma SquareOf(v: Vect)
    ensures Dot(v, v) >= 0.0
  {
    if v != ZERO {
      Positive(v);
    }
  }

  /** A point right of e and left of a supporting line that does not lean back lies ahead of where e starts. */
  lemma Ahead(x: Vect, e: Vect, u: Vect)
    requires Cross(x, e) > 0.0 && Cross(x, u) <= 0.0 && Cross(e, u) < 0.0 && Dot(u, e) >= 0.0
    ensures Dot(x, e) >= 0.0 && Dot(u, x) >= 0.0
  {
    Flipped(u, e);
    CrossAndDot(x, u, e);
    SquareOf(e);
    SignOfAhead(Cross(x, u), Dot(e, e), Cross(x, e), Cross(u, e), Dot(x, e), Dot(u, e));
    DotAndCross(u, x, e);
    assert e != ZERO by {
      assert e == ZERO ==> Cross(x, e) == 0.0;
    }
    Positive(e);
    Quotient(Dot(u, x), Dot(e, e), Dot(u, e) * Dot(x, e) + Cross(u, e) * Cross(x, e));
  }

  lemma Quotient(x: real, y: real, s: real)
    requires x * y == s && y > 0.0 && s >= 0.0
    ensures x >= 0.0
  {
    assert x < 0.0 ==> x * y < 0.0;
  }

  /** A product of lengths bounds the scalar product. */
  lemma DotAtMost(u: Vect, v: Vect, lu: real, lv: real)
    requires lu >= 0.0 && lv >= 0.0 && lu * lu == Dot(u, u) && lv * lv == Dot(v, v)
    ensures Dot(u, v) <= lu * lv
  {
    var d, c := Dot(u, v), Cross(u, v);
    Lagrange(u, v);
    SquarePositive(c, c * c);
    SquaresOf(lu, lv, Dot(u, u), Dot(v, v), lu * lv);
    assert lu * lv >= 0.0;
    RootsCompare(d, lu * lv, d * d, (lu * lv) * (lu * lv));
  }

  lemma SquaresOf(x: real, y: real, xx: real, yy: real, p: real)
    requires p == x * y && xx == x * x && yy == y * y
    ensures p * p == xx * yy
  {
    assert p * p == (x * y) * (x * y);
  }

  lemma RootsCompare(x: real, y: real, xx: real, yy: real)
    requires xx == x * x && yy == y * y && xx <= yy && y >= 0.0
    ensures x <= y
  {
    if x > y {
      Products(x, y);
    }
  }

  lemma Products(x: real, y: real)
    requires x > y >= 0.0
    ensures x * x > y * y
  {
    ProductPositive(x - y, x + y, (x - y) * (x + y));
    assert (x - y) * (x + y) == x * x - y * y;
  }

  /** How far p is right of a half of the broken edge: x and z say how far p and the break are right of the whole
      edge, xd and zd how far along it they are. */
  lemma StillNear(s: real, ee: real, x: real, zd: real, xd: real, z: real, tol: real, le: real, lz: real)
    requires s * ee == x * zd - xd * z && ee == le * le && ee > 0.0
    requires xd >= 0.0 && z >= 0.0 && zd >= 0.0 && x <= tol * le && zd <= le * lz && tol >= 0.0 && le >= 0.0
    ensures s <= tol * lz
  {
    assert xd * z >= 0.0;
    assert x * zd <= (tol * le) * zd;
    assert (tol * le) * zd <= (tol * le) * (le * lz) by {
      assert tol * le >= 0.0;
      Scaled(zd, le * lz, tol * le);
    }
    Regroup(tol, le, lz, ee);
    AtMostBy(s, tol * lz, ee);
  }

  lemma Scaled(x: real, y: real, f: real)
    requires x <= y && f >= 0.0
    ensures f * x <= f * y
  {
  }

  lemma Regroup(tol: real, le: real, lz: real, ee: real)
    requires ee == le * le
    ensures (tol * le) * (le * lz) == (tol * lz) * ee
  {
  }

  lemma AtMostBy(x: real, y: real, f: real)
    requires x * f <= y * f && f > 0.0
    ensures x <= y
  {
    assert x > y ==> x * f > y * f;
  }

  /** A point ahead of where e starts and at most tol right of e is no further right of a vector z that ends further
      right. */
  lemma NearFirst(x: Vect, e: Vect, z: Vect, tol: real, le: real, lz: real)
    requires le >= 0.0 && lz >= 0.0 && le * le == Dot(e, e) && lz * lz == Dot(z, z) && tol >= 0.0
    requires Cross(x, e) <= tol * le && Cross(z, e) > 0.0 && Dot(x, e) >= 0.0 && Dot(z, e) >= 0.0
    ensures Cross(x, z) <= tol * lz
  {
    NonZero(z, e);
    Positive(e);
    CrossAndDot(x, z, e);
    DotAtMost(z, e, lz, le);
    assert lz * le == le * lz;
    StillNear(Cross(x, z), Dot(e, e), Cross(x, e), Dot(z, e), Dot(x, e), Cross(z, e), tol, le, lz);
  }

  lemma NonZero(x: Vect, e: Vect)
    requires Cross(x, e) > 0.0
    ensures e != ZERO
  {
    assert e == ZERO ==> Cross(x, e) == 0.0;
  }

  /** The reflection at the vertical axis. */
  function Mirror(v: Vect): Vect { Vect(-v.x, v.y) }

  lemma Mirrored(u: Vect, v: Vect)
    ensures Cross(Mirror(u), Mirror(v)) == -Cross(u, v) && Dot(Mirror(u), Mirror(v)) == Dot(u, v)
    ensures Cross(Mirror(u), Neg(Mirror(v))) == Cross(u, v) && Dot(Neg(Mirror(v)), Mirror(u)) == -Dot(v, u)
  {
  }

  /** The same at the other end of an edge. */
  lemma NearSecond(x: Vect, e: Vect, z: Vect, tol: real, le: real, lz: real)
    requires le >= 0.0 && lz >= 0.0 && le * le == Dot(e, e) && lz * lz == Dot(z, z) && tol >= 0.0
    requires -Cross(x, e) <= tol * le && -Cross(z, e) > 0.0 && Dot(x, e) >= 0.0 && Dot(z, e) >= 0.0
    ensures -Cross(x, z) <= tol * lz
  {
    Mirrored(x, e);
    Mirrored(z, e);
    Mirrored(x, z);
    Mirrored(e, e);
    Mirrored(z, z);
    NearFirst(Mirror(x), Mirror(e), Mirror(z), tol, le, lz);
  }

  lemma AheadBack(x: Vect, e: Vect, w: Vect)
    requires -Cross(x, e) > 0.0 && Cross(x, w) <= 0.0 && Cross(e, w) < 0.0 && -Dot(w, e) >= 0.0
    ensures Dot(x, e) >= 0.0 && -Dot(w, x) >= 0.0
  {
    Mirrored(x, e);
    Mirrored(x, w);
    Mirrored(e, w);
    Ahead(Mirror(x), Mirror(e), Neg(Mirror(w)));
  }

  /** What a point says about the first half of an edge broken at q. */
  lemma FirstHalf(ps: set<Vect>, a: Vect, b: Vect, q: Vect, u: Vect, p: Vect, tol: real, length: Vect -> real)
    requires Support(ps, a, u, b) && Dot(u, Sub(b, a)) >= 0.0 && q in ps && p in ps && Right(a, b, q)
    requires tol >= 0.0 && IsLength(length) && !Far(tol, length, a, b, p)
    ensures !Far(tol, length, a, q, p)
  {
    var x, e, z := Sub(p, a), Sub(b, a), Sub(q, a);
    assert LengthAt(length, e) && LengthAt(length, z);
    if Right(a, b, p) {
      Ahead(x, e, u);
      Ahead(z, e, u);
      NearFirst(x, e, z, tol, length(e), length(z));
    } else {
      RightOfFirst(ps, a, b, q, u, p);
      assert tol * length(z) >= 0.0;
    }
  }

  lemma BothWays(a: Vect, b: Vect, p: Vect)
    ensures Cross(Sub(p, a), Sub(b, a)) == -Cross(Sub(p, b), Sub(a, b))
    ensures Cross(Sub(p, a), Sub(b, a)) == -Cross(Sub(b, a), Sub(p, a))
    ensures Neg(Sub(a, b)) == Sub(b, a)
  {
  }

  lemma DotNeg(u: Vect, v: Vect)
    ensures Dot(u, Neg(v)) == -Dot(u, v) && Dot(Neg(v), Neg(v)) == Dot(v, v)
  {
  }

  lemma SameRoot(x: real, y: real, s: real)
    requires x * x == s && y * y == s && x >= 0.0 && y >= 0.0
    ensures x == y
  {
    RootsCompare(x, y, s, s);
    RootsCompare(y, x, s, s);
  }

  lemma SameLength(length: Vect -> real, a: Vect, b: Vect)
    requires IsLength(length)
    ensures length(Sub(a, b)) == length(Sub(b, a))
  {
    assert LengthAt(length, Sub(a, b)) && LengthAt(length, Sub(b, a));
    BothWays(a, b, a);
    DotNeg(a, Sub(a, b));
    SameRoot(length(Sub(a, b)), length(Sub(b, a)), Dot(Sub(a, b), Sub(a, b)));
  }

  lemma SecondHalf(ps: set<Vect>, a: Vect, b: Vect, q: Vect, w: Vect, p: Vect, tol: real, length: Vect -> real)
    requires Support(ps, b, w, a) && Dot(w, Sub(b, a)) >= 0.0 && q in ps && p in ps && Right(a, b, q)
    requires tol >= 0.0 && IsLength(length) && !Far(tol, length, a, b, p)
    ensures !Far(tol, length, q, b, p)
  {
    var x, e, z := Sub(p, b), Sub(a, b), Sub(q, b);
    assert LengthAt(length, e) && LengthAt(length, z);
    SameLength(length, a, b);
    SameLength(length, q, b);
    BothWays(a, b, p);
    BothWays(a, b, q);
    BothWays(q, b, p);
    DotNeg(w, e);
    if Right(a, b, p) {
      AheadBack(x, e, w);
      AheadBack(z, e, w);
      NearSecond(x, e, z, tol, length(e), length(z));
    } else {
      RightOfSecond(ps, a, b, q, w, p);
      assert tol * length(z) >= 0.0;
    }
  }

  /** No point lies far right of the edge. */
  ghost predicate NoneFar(far: Outliers, ps: set<Vect>, a: Vect, b: Vect) {
    forall p :: p in ps ==> (a, b, p) !in far
  }

  /** Breaking an edge at its furthest point: nothing that was near the edge is far from a half, and nothing is far
      from both. */
  ghost predicate Breaks(far: Outliers, ps: set<Vect>, a: Vect, b: Vect, q: Vect) {
    && (forall p :: p in ps && ((a, q, p) in far || (q, b, p) in far) ==> (a, b, p) in far)
    && (forall p :: p in ps ==> (a, q, p) !in far || (q, b, p) !in far)
  }

  lemma FarIsRight(tol: real, length: Vect -> real, a: Vect, b: Vect, p: Vect)
    requires Usable(tol, length) && Far(tol, length, a, b, p)
    ensures Right(a, b, p)
  {
    assert length(Sub(b, a)) >= 0.0;
    assert tol * length(Sub(b, a)) >= 0.0;
  }

  lemma LengthsUsable(tol: real, length: Vect -> real)
    requires tol >= 0.0 && IsLength(length)
    ensures Usable(tol, length)
  {
    forall v ensures length(v) >= 0.0 {
      assert LengthAt(length, v);
    }
  }

  /** The halves of an edge broken at its furthest point have all points beside them. */
  lemma HalvesBeside(ps: set<Vect>, a: Vect, b: Vect, q: Vect, u: Vect, w: Vect)
    requires Beside(ps, a, b, u, w) && Furthest(ps, a, b, q)
    ensures Beside(ps, a, q, u, Sub(b, a)) && Beside(ps, q, b, Sub(b, a), w)
  {
    var e := Sub(b, a);
    HalvesOk(ps, a, b, q, u, w);
    Ahead(Sub(q, a), e, u);
    BothWays(a, b, q);
    BothWays(q, b, q);
    DotNeg(w, Sub(a, b));
    DotNeg(w, Sub(q, b));
    AheadBack(Sub(q, b), Sub(a, b), w);
    AlongBoth(a, b, q);
  }

  lemma AlongBoth(a: Vect, b: Vect, q: Vect)
    ensures Dot(Sub(b, a), Sub(q, a)) == Dot(Sub(q, a), Sub(b, a))
    ensures Dot(Sub(b, a), Sub(b, q)) == Dot(Sub(q, b), Sub(a, b))
  {
  }

  lemma EdgeBreaks(ps: set<Vect>, a: Vect, b: Vect, q: Vect, u: Vect, w: Vect, tol: real, length: Vect -> real)
    requires Beside(ps, a, b, u, w) && Furthest(ps, a, b, q) && tol >= 0.0 && IsLength(length)
    ensures Breaks(FarSet(tol, length), ps, a, b, q)
  {
    LengthsUsable(tol, length);
    HalvesOk(ps, a, b, q, u, w);
    forall p | p in ps
      ensures Far(tol, length, a, q, p) || Far(tol, length, q, b, p) ==> Far(tol, length, a, b, p)
      ensures !Far(tol, length, a, q, p) || !Far(tol, length, q, b, p)
    {
      if !Far(tol, length, a, b, p) {
        FirstHalf(ps, a, b, q, u, p, tol, length);
        SecondHalf(ps, a, b, q, w, p, tol, length);
      } else if Far(tol, length, a, q, p) && Far(tol, length, q, b, p) {
        FarIsRight(tol, length, a, q, p);
        FarIsRight(tol, length, q, b, p);
      }
    }
  }

  // ---- the reduction ----

  /** Edges with the directions of the lines supporting their ends. */
  type Supports = iset<(Vect, Vect, Vect, Vect)>

  ghost function BesideSet(ps: set<Vect>): Supports {
    iset a: Vect, b: Vect, u: Vect, w: Vect | Beside(ps, a, b, u, w) :: (a, b, u, w)
  }

  /** All that is far right of the two edges is in rest. */
  ghost predicate Pending(far: Outliers, ps: set<Vect>, rest: seq<Vect>, a: Vect, pivot: Vect, b: Vect) {
    && (forall p :: p in rest ==> p in ps)
    && (forall p :: p in ps && ((a, pivot, p) in far || (pivot, b, p) in far) ==> p in rest)
    && (forall p :: p in ps ==> (a, pivot, p) !in far || (pivot, b, p) !in far)
  }

  ghost predicate PendingEdge(far: Outliers, ps: set<Vect>, rest: seq<Vect>, a: Vect, b: Vect) {
    (forall p :: p in rest ==> p in ps) && forall p :: p in ps && (a, b, p) in far ==> p in rest
  }

  ghost predicate NoneFarAt(far: Outliers, ps: set<Vect>, c: seq<Vect>, i: nat)
    requires i + 1 < |c|
  {
    NoneFar(far, ps, c[i], c[i + 1])
  }

  /** No point is far right of any edge of the chain. */
  ghost predicate Covers(far: Outliers, ps: set<Vect>, c: seq<Vect>) {
    forall i: nat {:trigger NoneFarAt(far, ps, c, i)} :: i + 1 < |c| ==> NoneFarAt(far, ps, c, i)
  }

  lemma ChainCovers(far: Outliers, ps: set<Vect>, c1: seq<Vect>, c2: seq<Vect>)
    requires c1 != [] && c2 != [] && c1[|c1| - 1] == c2[0] && Covers(far, ps, c1) && Covers(far, ps, c2)
    ensures Covers(far, ps, c1 + c2[1..])
  {
    var c, m := c1 + c2[1..], |c1| - 1;
    assert forall i :: 0 <= i < |c2| ==> c[m + i] == c2[i];
    forall i: nat {:trigger NoneFarAt(far, ps, c, i)} | i + 1 < |c| ensures NoneFarAt(far, ps, c, i) {
      if i < m {
        assert NoneFarAt(far, ps, c1, i) && c[i + 1] == c1[i + 1];
      } else {
        assert NoneFarAt(far, ps, c2, i - m) && c[m + (i - m)] == c2[i - m] && c[m + (i - m + 1)] == c2[i - m + 1];
      }
    }
  }

  /** What breaking edges keeps, as far as the recursion has to know. */
  ghost predicate Stable(far: Outliers, ps: set<Vect>, beside: Supports) {
    forall a, b, q, u, w {:trigger (a, b, u, w) in beside, (a, b, q) in far} ::
      (a, b, u, w) in beside && (a, b, q) in far && q in ps && TopMost(far, ps, a, b, q) ==>
        Breaks(far, ps, a, b, q) && (a, q, u, Sub(b, a)) in beside && (q, b, Sub(b, a), w) in beside
  }

  ghost predicate TopMost(far: Outliers, ps: set<Vect>, a: Vect, b: Vect, q: Vect) {
    forall p :: p in ps && (a, b, p) in far ==> Cross(Sub(p, a), Sub(b, a)) <= Cross(Sub(q, a), Sub(b, a))
  }

  lemma TopMostFurthest(ps: set<Vect>, a: Vect, b: Vect, q: Vect, tol: real, length: Vect -> real)
    requires Usable(tol, length) && q in ps && Far(tol, length, a, b, q) && TopMost(FarSet(tol, length), ps, a, b, q)
    ensures Furthest(ps, a, b, q)
  {
    FarIsRight(tol, length, a, b, q);
    forall p | p in ps ensures Cross(Sub(p, a), Sub(b, a)) <= Cross(Sub(q, a), Sub(b, a)) {
      assert (a, b, p) in FarSet(tol, length) <==> Far(tol, length, a, b, p);
    }
  }

  lemma BesideStable(ps: set<Vect>, tol: real, length: Vect -> real)
    requires tol >= 0.0 && IsLength(length)
    ensures Stable(FarSet(tol, length), ps, BesideSet(ps))
  {
    var far := FarSet(tol, length);
    LengthsUsable(tol, length);
    forall a, b, q, u, w | Beside(ps, a, b, u, w) && Far(tol, length, a, b, q) && q in ps && TopMost(far, ps, a, b, q)
      ensures Breaks(far, ps, a, b, q) && Beside(ps, a, q, u, Sub(b, a)) && Beside(ps, q, b, Sub(b, a), w)
    {
      TopMostFurthest(ps, a, b, q, tol, length);
      EdgeBreaks(ps, a, b, q, u, w, tol, length);
      HalvesBeside(ps, a, b, q, u, w);
    }
  }

  lemma EdgePending(far: Outliers, ps: set<Vect>, rest: seq<Vect>, seg: seq<Vect>, head: nat, a: Vect, b: Vect)
    requires PendingEdge(far, ps, rest, a, b) && multiset(seg) == multiset(rest) && FarFirst(far, seg, head, a, b)
    ensures head > 0 ==> seg[0] in ps && TopMost(far, ps, a, b, seg[0]) && (a, b, seg[0]) in far
    ensures forall p :: p in ps ==> ((a, b, p) in far <==> p in seg[..head])
  {
    SameMembers(seg, rest);
    forall p | p in ps && (a, b, p) in far
      ensures p in seg[..head] && Cross(Sub(p, a), Sub(b, a)) <= Cross(Sub(seg[0], a), Sub(b, a))
    {
      var i :| 0 <= i < |seg| && seg[i] == p;
      assert seg[..head][i] == p;
    }
    assert head > 0 ==> seg[0] in seg;
  }

  lemma BrokenPending(far: Outliers, ps: set<Vect>, seg: seq<Vect>, head: nat, a: Vect, b: Vect)
    requires 0 < head <= |seg| && (forall p :: p in seg ==> p in ps) && Breaks(far, ps, a, b, seg[0])
    requires (forall p :: p in ps ==> ((a, b, p) in far <==> p in seg[..head]))
    requires (a, seg[0], seg[0]) !in far && (seg[0], b, seg[0]) !in far
    ensures Pending(far, ps, seg[1..head], a, seg[0], b)
  {
    assert seg[..head] == [seg[0]] + seg[1..head];
    assert forall p :: p in seg[1..head] ==> p in seg;
  }

  lemma SecondPending(far: Outliers, ps: set<Vect>, rest: seq<Vect>, seg: seq<Vect>, left: nat, a: Vect, pivot: Vect,
                      b: Vect)
    requires Pending(far, ps, rest, a, pivot, b) && multiset(seg) == multiset(rest) && left <= |seg|
    requires (forall p :: p in ps ==> ((a, pivot, p) in far <==> p in seg[..left]))
    ensures PendingEdge(far, ps, seg[left..], pivot, b)
  {
    SameMembers(seg, rest);
    assert seg == seg[..left] + seg[left..];
  }

  /** Nothing is far from an edge that ends in it. */
  ghost predicate NeverItself(far: Outliers) {
    forall a, b {:trigger (a, b, b) in far} {:trigger (a, b, a) in far} :: (a, b, b) !in far && (a, b, a) !in far
  }

  lemma {:induction false} ReduceCovers(part: Parter, far: Outliers, beside: Supports, ps: set<Vect>, rest: seq<Vect>,
                                        a: Vect, pivot: Vect, b: Vect, u: Vect, x: Vect, w: Vect)
    requires Splits(part) && SplitsFar(part, far) && Stable(far, ps, beside) && NeverItself(far)
    requires Pending(far, ps, rest, a, pivot, b) && (a, pivot, u, x) in beside && (pivot, b, x, w) in beside
    ensures Covers(far, ps, [a] + Reduce(part, rest, a, pivot, b) + [b])
    decreases |rest|, 1
  {
    if rest == [] {
      var c := [a] + [pivot] + [b];
      assert forall i: nat {:trigger NoneFarAt(far, ps, c, i)} :: i + 1 < |c| ==> i == 0 || i == 1;
    } else {
      var left := part(rest, a, pivot);
      var right := part(left.seg[left.head..], pivot, b);
      var out1, out2 := ReduceRight(part, left, a, pivot), ReduceRight(part, right, pivot, b);
      assert left.head <= |left.seg| && right.head <= |right.seg|;
      EdgeCovers(part, far, beside, ps, rest, left, a, pivot, u, x);
      SecondPending(far, ps, rest, left.seg, left.head, a, pivot, b);
      EdgeCovers(part, far, beside, ps, left.seg[left.head..], right, pivot, b, x, w);
      ChainCovers(far, ps, [a] + out1 + [pivot], [pivot] + out2 + [b]);
      assert [a] + (out1 + [pivot] + out2) + [b] == [a] + out1 + [pivot] + ([pivot] + out2 + [b])[1..];
    }
  }

  lemma EdgeCovers(part: Parter, far: Outliers, beside: Supports, ps: set<Vect>, rest: seq<Vect>, r: Partition,
                   a: Vect, b: Vect, u: Vect, w: Vect)
    requires Splits(part) && SplitsFar(part, far) && Stable(far, ps, beside) && NeverItself(far)
    requires PendingEdge(far, ps, rest, a, b) && (a, b, u, w) in beside && r == part(rest, a, b)
    ensures forall p :: p in ps ==> ((a, b, p) in far <==> p in r.seg[..r.head])
    ensures Covers(far, ps, [a] + ReduceRight(part, r, a, b) + [b])
    decreases r.head, 0
  {
    assert FarFirstAt(part, far, rest, a, b);
    EdgePending(far, ps, rest, r.seg, r.head, a, b);
    SameMembers(r.seg, rest);
    if r.head > 0 {
      BrokenPending(far, ps, r.seg, r.head, a, b);
      ReduceCovers(part, far, beside, ps, r.seg[1..r.head], a, r.seg[0], b, u, Sub(b, a), w);
    } else {
      assert [a] + [] + [b] == [a, b];
    }
  }

  // ---- the whole hull ----

  ghost predicate First(ps: set<Vect>, a: Vect) {
    a in ps && forall p :: p in ps ==> !LexLess(p, a)
  }

  ghost predicate Last(ps: set<Vect>, b: Vect) {
    b in ps && forall p :: p in ps ==> !LexLess(b, p)
  }

  /** The vertex at k in the round. */
  function Vertex(hull: seq<Vect>, k: nat): Vect
    requires hull != [] && k <= |hull|
  {
    if k < |hull| then hull[k] else hull[0]
  }

  /** The vertex at i is more than tol right of the line through two others, one before and one behind it in the
      round. */
  ghost predicate Juts(tol: real, length: Vect -> real, hull: seq<Vect>, i: nat)
    requires i < |hull|
  {
    exists j: nat, k: nat {:trigger Vertex(hull, j), Vertex(hull, k)} ::
      j < i < k <= |hull| && Far(tol, length, Vertex(hull, j), Vertex(hull, k), hull[i])
  }

  /** Nothing is more than tol to either side of the line through a and b. */
  ghost predicate Flat(tol: real, length: Vect -> real, ps: set<Vect>, a: Vect, b: Vect) {
    forall p :: p in ps ==> !Far(tol, length, a, b, p) && !Far(tol, length, b, a, p)
  }

  /** Every vertex but the first and the last point in lexicographic order juts out by more than tol, and when nothing
      does only the two are left. */
  ghost predicate Sharp(tol: real, length: Vect -> real, ps: set<Vect>, hull: seq<Vect>)
    requires hull != []
  {
    forall b :: Last(ps, b) ==>
      && (forall i: nat {:trigger Juts(tol, length, hull, i)} :: 0 < i < |hull| && hull[i] != b ==>
            Juts(tol, length, hull, i))
      && (Flat(tol, length, ps, hull[0], b) ==> hull == if hull[0] == b then [b] else [hull[0], b])
  }

  /** No point lies behind a or behind b on the way from one to the other. */
  ghost predicate NoneBehind(ps: set<Vect>, a: Vect, b: Vect) {
    forall p :: p in ps ==> 0.0 <= Dot(Sub(p, a), Sub(b, a)) <= Dot(Sub(b, a), Sub(b, a))
  }

  /** No point lies more than tol right of any edge. */
  ghost predicate WithinTol(tol: real, length: Vect -> real, ps: set<Vect>, hull: seq<Vect>) {
    forall i: nat, p {:trigger Far(tol, length, hull[i], Next(hull, i), p)} ::
      i < |hull| && p in ps ==> !Far(tol, length, hull[i], Next(hull, i), p)
  }

  /** part rearranges the points and puts the far ones first. */
  ghost predicate FarParter(part: Parter, far: Outliers) {
    Splits(part) && SplitsFar(part, far)
  }

  lemma AlongIsFarParter(tol: real, length: Vect -> real)
    requires Usable(tol, length)
    ensures FarParter(Along(tol, length), FarSet(tol, length))
  {
    AlongSplits(tol, length);
    forall seg, a, b {:trigger FarFirstAt(Along(tol, length), FarSet(tol, length), seg, a, b)}
      ensures FarFirstAt(Along(tol, length), FarSet(tol, length), seg, a, b)
    {
      AlongFar(tol, length, seg, a, b);
    }
  }

  lemma FarNeverItself(tol: real, length: Vect -> real)
    requires Usable(tol, length)
    ensures NeverItself(FarSet(tol, length))
  {
    forall a, b ensures !Far(tol, length, a, b, a) && !Far(tol, length, a, b, b) {
      NotItself(a, b);
      if Far(tol, length, a, b, a) {
        FarIsRight(tol, length, a, b, a);
      }
      if Far(tol, length, a, b, b) {
        FarIsRight(tol, length, a, b, b);
      }
    }
  }

  lemma OnlyLast(ps: set<Vect>, b: Vect, b': Vect)
    requires Last(ps, b) && Last(ps, b')
    ensures b == b'
  {
    assert !LexLess(b, b') && !LexLess(b', b);
  }

  lemma HullStandsOut(tol: real, length: Vect -> real, hull: seq<Vect>, m: nat, i: nat)
    requires hull != [] && AllStandOut(FarSet(tol, length), hull + [hull[0]], m) && 0 < i < |hull| && i != m
    ensures Juts(tol, length, hull, i)
  {
    var c := hull + [hull[0]];
    assert StandsOut(FarSet(tol, length), c, i);
    var j, k :| 0 <= j < i < k < |c| && (c[j], c[k], c[i]) in FarSet(tol, length);
    assert c[j] == Vertex(hull, j) && c[i] == hull[i] && c[k] == Vertex(hull, k);
  }

  lemma FlatHull(part: Parter, tol: real, length: Vect -> real, ps: set<Vect>, rest: seq<Vect>, a: Vect, b: Vect)
    requires FarParter(part, FarSet(tol, length)) && Flat(tol, length, ps, a, b)
    requires forall p :: p in rest ==> p in ps
    ensures Reduce(part, rest, a, b, a) == [b]
  {
    var far := FarSet(tol, length);
    forall p | p in rest ensures (a, b, p) !in far && (b, a, p) !in far {
      assert !Far(tol, length, a, b, p) && !Far(tol, length, b, a, p);
    }
    NothingFar(part, far, rest, a, b);
  }

  /** The hull of [a, b] + rest, where a and b are the extreme points. */
  lemma HullSharp(part: Parter, tol: real, length: Vect -> real, rest: seq<Vect>, a: Vect, b: Vect)
    requires FarParter(part, FarSet(tol, length)) && a != b && Last(PointsOf([a, b] + rest), b)
    ensures Sharp(tol, length, PointsOf([a, b] + rest), [a] + Reduce(part, rest, a, b, a))
  {
    var far, ps := FarSet(tol, length), PointsOf([a, b] + rest);
    var out := Reduce(part, rest, a, b, a);
    var hull := [a] + out;
    var m := ReduceStandsOut(part, far, rest, a, b, a);
    RestMembers(ps, rest, a, b);
    assert hull[m] == b && [a] + out + [a] == hull + [hull[0]];
    forall i: nat {:trigger Juts(tol, length, hull, i)} | 0 < i < |hull| && hull[i] != b
      ensures Juts(tol, length, hull, i)
    {
      HullStandsOut(tol, length, hull, m, i);
    }
    if Flat(tol, length, ps, a, b) {
      FlatHull(part, tol, length, ps, rest, a, b);
    }
    forall b' | Last(ps, b') ensures b' == b {
      OnlyLast(ps, b, b');
    }
  }

  lemma SingleSharp(tol: real, length: Vect -> real, ps: set<Vect>, a: Vect)
    requires Last(ps, a) && ps == {a}
    ensures Sharp(tol, length, ps, [a])
  {
    forall b | Last(ps, b) ensures b == a {
      OnlyLast(ps, a, b);
    }
  }

  lemma CrossOfPerp(x: Vect, e: Vect)
    ensures Cross(x, Perp(e)) == Dot(x, e) && Cross(x, Neg(Perp(e))) == -Dot(x, e)
    ensures Dot(Perp(e), e) == 0.0 && Dot(Neg(Perp(e)), e) == 0.0
    ensures Dot(Neg(e), Neg(e)) == Dot(e, e) && Dot(x, Neg(e)) == -Dot(x, e) && Dot(Neg(e), x) == -Dot(x, e)
    ensures Neg(Neg(Perp(e))) == Perp(e) && Neg(Perp(Neg(e))) == Perp(e) && Perp(Neg(e)) == Neg(Perp(e))
  {
    var p := Perp(e);
    assert Neg(Neg(p)) == Vect(p.x, p.y);
  }

  /** When no point lies behind the ends, the perpendiculars through them support the points. */
  lemma WallsSupport(ps: set<Vect>, a: Vect, b: Vect)
    requires NoneBehind(ps, a, b) && a != b
    ensures Beside(ps, a, b, Neg(Perp(Sub(b, a))), Perp(Sub(b, a)))
  {
    var e := Sub(b, a);
    Differences(b, a, e);
    Positive(e);
    CrossOfPerp(e, e);
    BothWays(b, a, a);
    assert Sub(a, b) == Neg(e);
    CrossOfPerp(Neg(e), e);
    CrossOfPerp(e, e);
    forall p | p in ps
      ensures Cross(Sub(p, a), Neg(Perp(e))) <= 0.0 && Cross(Sub(p, b), Perp(e)) <= 0.0
    {
      assert 0.0 <= Dot(Sub(p, a), e) <= Dot(e, e);
      CrossOfPerp(Sub(p, a), e);
      CrossOfPerp(Sub(p, b), e);
      FromOtherEnd(a, b, p);
    }
  }

  lemma FromOtherEnd(a: Vect, b: Vect, p: Vect)
    ensures var e := Sub(b, a); Dot(Sub(p, b), e) == Dot(Sub(p, a), e) - Dot(e, e)
    ensures Sub(a, b) == Neg(Sub(b, a))
    ensures Dot(Sub(p, b), Sub(a, b)) == -Dot(Sub(p, b), Sub(b, a))
    ensures Dot(Sub(a, b), Sub(a, b)) == Dot(Sub(b, a), Sub(b, a))
  {
  }

  lemma BehindBothWays(ps: set<Vect>, a: Vect, b: Vect)
    requires NoneBehind(ps, a, b)
    ensures NoneBehind(ps, b, a)
  {
    forall p | p in ps ensures 0.0 <= Dot(Sub(p, b), Sub(a, b)) <= Dot(Sub(a, b), Sub(a, b)) {
      assert 0.0 <= Dot(Sub(p, a), Sub(b, a)) <= Dot(Sub(b, a), Sub(b, a));
      FromOtherEnd(a, b, p);
    }
  }

  lemma NotBothFar(tol: real, length: Vect -> real, a: Vect, b: Vect, p: Vect)
    requires Usable(tol, length)
    ensures !Far(tol, length, a, b, p) || !Far(tol, length, b, a, p)
  {
    BothWays(a, b, p);
    if Far(tol, length, a, b, p) && Far(tol, length, b, a, p) {
      FarIsRight(tol, length, a, b, p);
      FarIsRight(tol, length, b, a, p);
    }
  }

  lemma HullPending(tol: real, length: Vect -> real, ps: set<Vect>, rest: seq<Vect>, a: Vect, b: Vect)
    requires Usable(tol, length) && ps == PointsOf([a, b] + rest)
    ensures Pending(FarSet(tol, length), ps, rest, a, b, a)
  {
    var far := FarSet(tol, length);
    RestMembers(ps, rest, a, b);
    FarNeverItself(tol, length);
    forall p | p in ps
      ensures (a, b, p) in far || (b, a, p) in far ==> p in rest
      ensures (a, b, p) !in far || (b, a, p) !in far
    {
      NotBothFar(tol, length, a, b, p);
      assert (a, b, b) !in far && (a, b, a) !in far && (b, a, b) !in far && (b, a, a) !in far;
    }
  }

  lemma CoversAll(tol: real, length: Vect -> real, ps: set<Vect>, hull: seq<Vect>)
    requires hull != [] && Covers(FarSet(tol, length), ps, hull + [hull[0]])
    ensures WithinTol(tol, length, ps, hull)
  {
    var c, far := hull + [hull[0]], FarSet(tol, length);
    forall i: nat, p {:trigger Far(tol, length, hull[i], Next(hull, i), p)} | i < |hull| && p in ps
      ensures !Far(tol, length, hull[i], Next(hull, i), p)
    {
      assert NoneFarAt(far, ps, c, i);
      assert c[i] == hull[i] && c[i + 1] == Next(hull, i);
    }
  }

  /** If no point lies behind the extreme ones, no point is left further than tol outside. */
  lemma HullWithin(part: Parter, tol: real, length: Vect -> real, rest: seq<Vect>, a: Vect, b: Vect)
    requires tol >= 0.0 && IsLength(length) && FarParter(part, FarSet(tol, length)) && a != b
    requires NoneBehind(PointsOf([a, b] + rest), a, b)
    ensures WithinTol(tol, length, PointsOf([a, b] + rest), [a] + Reduce(part, rest, a, b, a))
  {
    var far, ps, e := FarSet(tol, length), PointsOf([a, b] + rest), Sub(b, a);
    var u, x, hull := Neg(Perp(e)), Perp(e), [a] + Reduce(part, rest, a, b, a);
    LengthsUsable(tol, length);
    BesideStable(ps, tol, length);
    FarNeverItself(tol, length);
    HullPending(tol, length, ps, rest, a, b);
    WallsSupport(ps, a, b);
    BehindBothWays(ps, a, b);
    WallsSupport(ps, b, a);
    FromOtherEnd(a, b, a);
    CrossOfPerp(e, e);
    ReduceCovers(part, far, BesideSet(ps), ps, rest, a, b, a, u, x, u);
    assert [a] + Reduce(part, rest, a, b, a) + [a] == hull + [hull[0]];
    CoversAll(tol, length, ps, hull);
  }

  lemma SingleWithin(tol: real, length: Vect -> real, ps: set<Vect>, a: Vect)
    requires tol >= 0.0 && IsLength(length)
    ensures WithinTol(tol, length, ps, [a])
  {
    LengthsUsable(tol, length);
    forall p ensures !Far(tol, length, a, a, p) {
      if Far(tol, length, a, a, p) {
        FarIsRight(tol, length, a, a, p);
        ZeroVector(a, p);
      }
    }
  }

  lemma ZeroVector(a: Vect, p: Vect)
    ensures Cross(Sub(p, a), Sub(a, a)) == 0.0
  {
    assert Sub(a, a) == ZERO;
  }

  /** What the hull owes to its tolerance: its vertices jut out by more, and when no point lies behind the first or the
      last one in lexicographic order no point is left further outside. */
  ghost predicate Tolerates(tol: real, length: Vect -> real, ps: set<Vect>, hull: seq<Vect>)
    requires hull != []
  {
    && (Usable(tol, length) ==> Sharp(tol, length, ps, hull))
    && (tol >= 0.0 && IsLength(length) ==>
      forall b :: Last(ps, b) && NoneBehind(ps, hull[0], b) ==> WithinTol(tol, length, ps, hull))
  }

  lemma HullTolerates(part: Parter, tol: real, length: Vect -> real, ps: set<Vect>, rest: seq<Vect>, a: Vect, b: Vect)
    requires Usable(tol, length) ==> FarParter(part, FarSet(tol, length))
    requires Splits(part) && a != b && Extremes(ps, a, b) && ps == PointsOf([a, b] + rest)
    ensures Tolerates(tol, length, ps, [a] + Reduce(part, rest, a, b, a))
  {
    var hull := [a] + Reduce(part, rest, a, b, a);
    if Usable(tol, length) {
      HullSharp(part, tol, length, rest, a, b);
    }
    if tol >= 0.0 && IsLength(length) {
      LengthsUsable(tol, length);
      forall b' | Last(ps, b') && NoneBehind(ps, hull[0], b')
        ensures WithinTol(tol, length, ps, hull)
      {
        OnlyLast(ps, b, b');
        HullWithin(part, tol, length, rest, a, b);
      }
    }
  }

  lemma SingleTolerates(tol: real, length: Vect -> real, ps: set<Vect>, a: Vect)
    requires ps == {a}
    ensures Tolerates(tol, length, ps, [a])
  {
    assert forall p :: p in ps ==> p == a;
    SingleSharp(tol, length, ps, a);
    if tol >= 0.0 && IsLength(length) {
      SingleWithin(tol, length, ps, a);
    }
  }

  // ---- points behind the ends ----

  lemma PartTwo(q: Vect, p: Vect, score: Vect -> real, tol: real)
    requires score(q) > tol >= 0.0 && score(p) <= tol
    ensures PartitionBy([q, p], score, tol) == Partition([q, p], 1)
  {
    var s, v := [q, p], score(q);
    assert Exchanged(s, 1, 1) == s;
    assert PartLoop(s, 1, 0, 0, v, score, tol) == Partition(s, 1);
    assert PartLoop(s, 1, 1, 0, v, score, tol) == PartLoop(Exchanged(s, 1, 1), 1, 0, 0, v, score, tol);
    assert PartLoop(s, 0, 1, 0, 0.0, score, tol) == PartLoop(s, 1, 1, 0, v, score, tol);
  }

  lemma PartOne(p: Vect, score: Vect -> real, tol: real)
    requires score(p) <= tol
    ensures PartitionBy([p], score, tol) == Partition([p], 0)
  {
    var s := [p];
    assert Exchanged(s, 0, 0) == s;
    assert PartLoop(s, 0, -1, 0, 0.0, score, tol) == Partition(s, 0);
    assert PartLoop(s, 0, 0, 0, 0.0, score, tol) == PartLoop(Exchanged(s, 0, 0), 0, -1, 0, 0.0, score, tol);
  }

  lemma LengthIs(length: Vect -> real, v: Vect, r: real)
    requires IsLength(length) && r >= 0.0 && Dot(v, v) == r * r
    ensures length(v) == r
  {
    assert LengthAt(length, v);
    SameRoot(length(v), r, r * r);
  }

  /** The reduction when of two points only the first is found right of the edge, and none right of the way back. */
  lemma ReduceTwo(part: Parter, q: Vect, p: Vect, a: Vect, b: Vect)
    requires Splits(part) && part([q, p], a, b) == Partition([q, p], 1) && part([p], b, a) == Partition([p], 0)
    ensures Reduce(part, [q, p], a, b, a) == [q, b]
  {
    var left := part([q, p], a, b);
    assert left.seg[1..1] == [] && left.seg[left.head..] == [p];
    assert Reduce(part, [], a, q, b) == [q];
    assert ReduceRight(part, left, a, b) == [q];
  }

  lemma AlongTwo(tol: real, length: Vect -> real, q: Vect, p: Vect, a: Vect, b: Vect, slack: real)
    requires slack == Slack(tol, length, Sub(b, a)) && Score(a, b)(q) > slack >= 0.0 && Score(a, b)(p) <= slack
    ensures Along(tol, length)([q, p], a, b) == Partition([q, p], 1)
  {
    PartTwo(q, p, Score(a, b), slack);
  }

  lemma AlongOne(tol: real, length: Vect -> real, p: Vect, a: Vect, b: Vect, slack: real)
    requires slack == Slack(tol, length, Sub(b, a)) && Score(a, b)(p) <= slack
    ensures Along(tol, length)([p], a, b) == Partition([p], 0)
  {
    PartOne(p, Score(a, b), slack);
  }

  const CORNER := Vect(0.0, 0.0)
  const TOP := Vect(15.0, 20.0)
  const RIGHT := Vect(15.0, 0.0)
  const BEHIND := Vect(1.0, -7.0)

  lemma OvershootScores()
    ensures Score(CORNER, TOP)(RIGHT) == 300.0 && Score(CORNER, TOP)(BEHIND) == 125.0
    ensures Score(TOP, CORNER)(BEHIND) == -125.0 && Score(CORNER, RIGHT)(BEHIND) == 105.0
  {
  }

  lemma OvershootLengths(length: Vect -> real)
    requires IsLength(length)
    ensures Slack(5.0, length, Sub(TOP, CORNER)) == 125.0 && Slack(5.0, length, Sub(CORNER, TOP)) == 125.0
    ensures Slack(6.0, length, Sub(RIGHT, CORNER)) == 90.0
  {
    LengthIs(length, Sub(TOP, CORNER), 25.0);
    LengthIs(length, Sub(CORNER, TOP), 25.0);
    LengthIs(length, Sub(RIGHT, CORNER), 15.0);
  }

  lemma OvershootHull(length: Vect -> real)
    requires IsLength(length) && Splits(Along(5.0, length))
    ensures Reduce(Along(5.0, length), [RIGHT, BEHIND], CORNER, TOP, CORNER) == [RIGHT, TOP]
  {
    OvershootScores();
    OvershootLengths(length);
    AlongTwo(5.0, length, RIGHT, BEHIND, CORNER, TOP, 125.0);
    AlongOne(5.0, length, BEHIND, TOP, CORNER, 125.0);
    ReduceTwo(Along(5.0, length), RIGHT, BEHIND, CORNER, TOP);
  }

  lemma OvershootFar(length: Vect -> real)
    requires IsLength(length)
    ensures Far(6.0, length, CORNER, RIGHT, BEHIND)
  {
    OvershootScores();
    OvershootLengths(length);
    FarScore(6.0, length, CORNER, RIGHT, BEHIND);
  }

  lemma OvershootExtremes()
    ensures Extremes({CORNER, TOP, RIGHT, BEHIND}, CORNER, TOP)
  {
  }

  /** A tolerance of 5 and a point left more than 6 outside: (1, -7) is within 5 of the line from (0, 0) to (15, 20),
      behind (0, 0), and so not looked at again when (15, 0) breaks that edge. */
  lemma Overshoot(length: Vect -> real)
    requires IsLength(length)
    ensures Extremes({CORNER, TOP, RIGHT, BEHIND}, CORNER, TOP) && Splits(Along(5.0, length))
    ensures [CORNER] + Reduce(Along(5.0, length), [RIGHT, BEHIND], CORNER, TOP, CORNER) == [CORNER, RIGHT, TOP]
    ensures Far(6.0, length, CORNER, RIGHT, BEHIND)
  {
    AlongSplits(5.0, length);
    OvershootHull(length);
    OvershootFar(length);
    OvershootExtremes();
  }

  // ---- exactly when one break is safe ----

  /** Of the points left of the line through a along u, p stays near and q is far: breaking the edge from a to b at q
      leaves p near. */
  ghost predicate SafeBreak(tol: real, length: Vect -> real, a: Vect, b: Vect, u: Vect, p: Vect, q: Vect) {
    Cross(Sub(p, a), u) <= 0.0 && Cross(Sub(q, a), u) <= 0.0 && !Far(tol, length, a, b, p)
      && Far(tol, length, a, b, q)
    ==> !Far(tol, length, a, q, p)
  }

  lemma SafeAhead(tol: real, length: Vect -> real, a: Vect, b: Vect, u: Vect, p: Vect, q: Vect)
    requires tol > 0.0 && IsLength(length) && Cross(Sub(b, a), u) < 0.0 && Dot(u, Sub(b, a)) >= 0.0
    ensures SafeBreak(tol, length, a, b, u, p, q)
  {
    LengthsUsable(tol, length);
    if Cross(Sub(p, a), u) <= 0.0 && Cross(Sub(q, a), u) <= 0.0 && !Far(tol, length, a, b, p)
      && Far(tol, length, a, b, q)
    {
      FarIsRight(tol, length, a, b, q);
      FirstHalf({p, q}, a, b, q, u, p, tol, length);
    }
  }

  lemma RootsSmaller(x: real, y: real)
    requires 0.0 <= x <= y
    ensures x * x <= y * y
  {
    assert (y - x) * (y + x) >= 0.0;
    assert (y - x) * (y + x) == y * y - x * x;
  }

  lemma Grown(x: real, y: real, f: real)
    requires x > y && f > 0.0
    ensures x * f > y * f
  {
  }

  lemma Steeper(tol: real, eu: real, c: real, d: real, m: real, lu: real, k: real, mlu: real)
    requires eu * eu == d * d + c * c && d != 0.0 && c > 0.0 && eu >= 0.0 && tol > 0.0 && mlu == m * lu
    requires m * c == k && k * lu == eu * tol
    ensures mlu > tol
  {
    SquarePositive(d, d * d);
    if eu <= c {
      RootsSmaller(eu, c);
      assert false;
    }
    Grown(eu, c, tol);
    assert mlu * c == (m * c) * lu;
    AtLeastBy(tol, mlu, c, c * tol, eu * tol);
  }

  lemma AtLeastBy(x: real, y: real, f: real, xf: real, yf: real)
    requires xf == f * x && yf == y * f && xf < yf && f > 0.0
    ensures x < y
  {
    if x >= y {
      Scaled(y, x, f);
    }
  }

  lemma Multiples(u: Vect, e: Vect, m: real, l: real)
    ensures Cross(Mult(u, m), e) == m * Cross(u, e) && Cross(Mult(Perp(u), l), e) == l * -Dot(u, e)
    ensures Cross(Mult(u, m), u) == 0.0 && Cross(Mult(Perp(u), l), u) == l * -Dot(u, u)
    ensures Cross(Mult(u, m), Mult(Perp(u), l)) == (m * l) * Dot(u, u)
    ensures Dot(Mult(Perp(u), l), Mult(Perp(u), l)) == (l * l) * Dot(u, u)
  {
  }

  lemma ScaledLength(length: Vect -> real, u: Vect, l: real, lu: real)
    requires IsLength(length) && l >= 0.0 && lu >= 0.0 && lu * lu == Dot(u, u)
    ensures length(Mult(Perp(u), l)) == l * lu
  {
    Multiples(u, u, 0.0, l);
    assert l * lu >= 0.0;
    SquaresOf(l, lu, l * l, Dot(u, u), l * lu);
    LengthIs(length, Mult(Perp(u), l), l * lu);
  }

  lemma Shifted(a: Vect, v: Vect)
    ensures Sub(Add(a, v), a) == v
  {
  }

  lemma Growth(m: real, l: real, lu: real, uu: real, tol: real, mlu: real)
    requires uu == lu * lu && l > 0.0 && lu > 0.0 && mlu == m * lu && mlu > tol
    ensures (m * l) * uu > tol * (l * lu)
  {
    ProductPositive(l, lu, l * lu);
    Grown(mlu, tol, l * lu);
    assert mlu * (l * lu) == (m * l) * uu by {
      assert mlu * (l * lu) == (m * lu) * (l * lu);
      assert (m * lu) * (l * lu) == (m * l) * (lu * lu);
    }
  }

  lemma Quotients(k: real, c: real, d: real) returns (m: real, l: real)
    requires k >= 0.0 && c > 0.0 && d < 0.0
    ensures m * c == k && l * -d == k + 1.0 && l > 0.0
  {
    m, l := k / c, (k + 1.0) / -d;
  }

  lemma CrossNonZero(u: Vect, e: Vect, c: real, lu: real)
    requires c == Cross(u, e) && c > 0.0 && lu >= 0.0 && lu * lu == Dot(u, u)
    ensures lu > 0.0 && Dot(u, u) > 0.0
  {
    assert u == ZERO ==> Cross(u, e) == 0.0;
    Positive(u);
  }

  lemma LostSteep(u: Vect, e: Vect, tol: real, k: real, c: real, d: real, le: real, lu: real, m: real, l: real)
    requires c == Cross(u, e) && d == Dot(u, e) && c > 0.0 && d < 0.0 && tol > 0.0
    requires le >= 0.0 && lu > 0.0 && le * le == Dot(e, e) && lu * lu == Dot(u, u)
    requires k == tol * le && m * c == k && l > 0.0
    ensures (m * l) * Dot(u, u) > tol * (l * lu)
  {
    Lagrange(u, e);
    SquaresOf(le, lu, Dot(e, e), Dot(u, u), le * lu);
    assert (le * lu) * (le * lu) == d * d + c * c by {
      assert Dot(e, e) * Dot(u, u) == Dot(u, u) * Dot(e, e);
    }
    assert le * lu >= 0.0;
    assert k * lu == (le * lu) * tol;
    Steeper(tol, le * lu, c, d, m, lu, k, m * lu);
    Growth(m, l, lu, Dot(u, u), tol, m * lu);
  }

  /** What the points a + x and a + z are to the edge from a to b. */
  lemma LostAt(tol: real, length: Vect -> real, a: Vect, b: Vect, u: Vect, x: Vect, z: Vect)
    requires Cross(x, u) <= 0.0 && Cross(z, u) <= 0.0
    requires Cross(x, Sub(b, a)) <= tol * length(Sub(b, a)) < Cross(z, Sub(b, a)) && Cross(x, z) > tol * length(z)
    ensures !SafeBreak(tol, length, a, b, u, Add(a, x), Add(a, z))
  {
    Shifted(a, x);
    Shifted(a, z);
  }

  /** The line through a along u leans back over the edge to b: a break that loses a point. */
  lemma LostBehind(tol: real, length: Vect -> real, a: Vect, b: Vect, u: Vect) returns (p: Vect, q: Vect)
    requires tol > 0.0 && IsLength(length) && Cross(Sub(b, a), u) < 0.0 && Dot(u, Sub(b, a)) < 0.0
    ensures !SafeBreak(tol, length, a, b, u, p, q)
  {
    var e := Sub(b, a);
    var c, d, le, lu := Cross(u, e), Dot(u, e), length(e), length(u);
    Flipped(u, e);
    assert LengthAt(length, e) && LengthAt(length, u);
    var k := tol * le;
    var m, l := Quotients(k, c, d);
    var x, z := Mult(u, m), Mult(Perp(u), l);
    p, q := Add(a, x), Add(a, z);
    CrossNonZero(u, e, c, lu);
    Multiples(u, e, m, l);
    ScaledLength(length, u, l, lu);
    LostSteep(u, e, tol, k, c, d, le, lu, m, l);
    ProductPositive(l, Dot(u, u), l * Dot(u, u));
    assert l * -Dot(u, u) == -(l * Dot(u, u));
    LostAt(tol, length, a, b, u, x, z);
  }

  /** With a line supporting the points at a, one break is safe whatever they are exactly when the line does not lean
      back over the edge. */
  lemma BreaksSafeExactly(tol: real, length: Vect -> real, a: Vect, b: Vect, u: Vect)
    requires tol > 0.0 && IsLength(length) && Cross(Sub(b, a), u) < 0.0
    ensures (forall p, q :: SafeBreak(tol, length, a, b, u, p, q)) <==> Dot(u, Sub(b, a)) >= 0.0
  {
    if Dot(u, Sub(b, a)) >= 0.0 {
      forall p, q ensures SafeBreak(tol, length, a, b, u, p, q) {
        SafeAhead(tol, length, a, b, u, p, q);
      }
    } else {
      var p, q := LostBehind(tol, length, a, b, u);
    }
  }
}
