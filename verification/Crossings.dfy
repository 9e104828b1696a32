/** Where and how the segments of a cell cross its edges. */
module Crossings {
  import opened Vectors
  import opened MarchCells

  /** An edge of a cell with the samples at its ends. */
  datatype Edge = Edge(p: Vect, sp: real, q: Vect, sq: real)

  function Below(k: Cell): Edge { Edge(Vect(k.x0, k.y0), k.a, Vect(k.x1, k.y0), k.b) }
  function Above(k: Cell): Edge { Edge(Vect(k.x0, k.y1), k.c, Vect(k.x1, k.y1), k.d) }
  function LeftOf(k: Cell): Edge { Edge(Vect(k.x0, k.y0), k.a, Vect(k.x0, k.y1), k.c) }
  function RightOf(k: Cell): Edge { Edge(Vect(k.x1, k.y0), k.b, Vect(k.x1, k.y1), k.d) }

  function EdgesOf(k: Cell): set<Edge> {
    {Below(k), Above(k), LeftOf(k), RightOf(k)}
  }

  /** One end of the edge is above the threshold and the other is not. */
  predicate Crossed(e: Edge, t: real) {
    (e.sp > t) != (e.sq > t)
  }

  /** v is the place on the edge where the samples, interpolated along it, equal the threshold. */
  ghost predicate CrossedAt(e: Edge, t: real, v: Vect) {
    && Crossed(e, t)
    && exists s :: 0.0 <= s <= 1.0 && PlaceOn(e, s, v) && e.sp + s * (e.sq - e.sp) == t
  }

  predicate PlaceOn(e: Edge, s: real, v: Vect) {
    v.x == e.p.x + s * (e.q.x - e.p.x) && v.y == e.p.y + s * (e.q.y - e.p.y)
  }

  lemma Interpolated(x0: real, x1: real, s0: real, s1: real, t: real) returns (s: real)
    requires (s0 > t) != (s1 > t)
    ensures 0.0 <= s <= 1.0 && s0 + s * (s1 - s0) == t && Midlerp(x0, x1, s0, s1, t) == x0 + s * (x1 - x0)
    ensures (s == 0.0 <==> s0 == t) && (s == 1.0 <==> s1 == t)
  {
    s := (t - s0) / (s1 - s0);
    assert s * (s1 - s0) == t - s0;
    Between(t - s0, s1 - s0, s);
    assert (1.0 - s) * (s1 - s0) == s1 - t;
  }

  /** Away from the corner that is above the threshold. */
  lemma Range(x0: real, x1: real, s0: real, s1: real, t: real)
    requires (s0 > t) != (s1 > t) && x0 < x1
    ensures x0 <= Midlerp(x0, x1, s0, s1, t) <= x1
    ensures (Midlerp(x0, x1, s0, s1, t) == x0 <==> s0 == t) && (Midlerp(x0, x1, s0, s1, t) == x1 <==> s1 == t)
  {
    var s := Interpolated(x0, x1, s0, s1, t);
    Within(s, x1 - x0, s * (x1 - x0));
  }

  lemma Within(s: real, d: real, p: real)
    requires 0.0 <= s <= 1.0 && d > 0.0 && p == s * d
    ensures 0.0 <= p <= d && (s == 0.0 <==> p == 0.0) && (s == 1.0 <==> p == d)
  {
    assert d - p == (1.0 - s) * d;
    assert s > 0.0 ==> p > 0.0;
    assert s < 1.0 ==> d - p > 0.0;
  }

  lemma Between(x: real, d: real, s: real)
    requires s * d == x && (0.0 <= x <= d || d <= x <= 0.0) && d != 0.0
    ensures 0.0 <= s <= 1.0
  {
    if d > 0.0 {
      assert s < 0.0 ==> s * d < 0.0;
      assert s > 1.0 ==> (s - 1.0) * d > 0.0;
    } else {
      assert s < 0.0 ==> s * d > 0.0;
      assert s > 1.0 ==> (s - 1.0) * d < 0.0;
    }
  }

  function BelowAt(k: Cell): (v: Vect)
    requires Crossed(Below(k), k.t)
    ensures CrossedAt(Below(k), k.t, v)
  {
    BelowAtIs(k);
    Vect(Midlerp(k.x0, k.x1, k.a, k.b, k.t), k.y0)
  }

  lemma BelowAtIs(k: Cell)
    requires Crossed(Below(k), k.t)
    ensures CrossedAt(Below(k), k.t, Vect(Midlerp(k.x0, k.x1, k.a, k.b, k.t), k.y0))
  {
    var s := Interpolated(k.x0, k.x1, k.a, k.b, k.t);
    assert PlaceOn(Below(k), s, Vect(Midlerp(k.x0, k.x1, k.a, k.b, k.t), k.y0));
  }

  function AboveAt(k: Cell): (v: Vect)
    requires Crossed(Above(k), k.t)
    ensures CrossedAt(Above(k), k.t, v)
  {
    AboveAtIs(k);
    Vect(Midlerp(k.x0, k.x1, k.c, k.d, k.t), k.y1)
  }

  lemma AboveAtIs(k: Cell)
    requires Crossed(Above(k), k.t)
    ensures CrossedAt(Above(k), k.t, Vect(Midlerp(k.x0, k.x1, k.c, k.d, k.t), k.y1))
  {
    var s := Interpolated(k.x0, k.x1, k.c, k.d, k.t);
    assert PlaceOn(Above(k), s, Vect(Midlerp(k.x0, k.x1, k.c, k.d, k.t), k.y1));
  }

  function LeftAt(k: Cell): (v: Vect)
    requires Crossed(LeftOf(k), k.t)
    ensures CrossedAt(LeftOf(k), k.t, v)
  {
    LeftAtIs(k);
    Vect(k.x0, Midlerp(k.y0, k.y1, k.a, k.c, k.t))
  }

  lemma LeftAtIs(k: Cell)
    requires Crossed(LeftOf(k), k.t)
    ensures CrossedAt(LeftOf(k), k.t, Vect(k.x0, Midlerp(k.y0, k.y1, k.a, k.c, k.t)))
  {
    var s := Interpolated(k.y0, k.y1, k.a, k.c, k.t);
    assert PlaceOn(LeftOf(k), s, Vect(k.x0, Midlerp(k.y0, k.y1, k.a, k.c, k.t)));
  }

  function RightAt(k: Cell): (v: Vect)
    requires Crossed(RightOf(k), k.t)
    ensures CrossedAt(RightOf(k), k.t, v)
  {
    RightAtIs(k);
    Vect(k.x1, Midlerp(k.y0, k.y1, k.b, k.d, k.t))
  }

  lemma RightAtIs(k: Cell)
    requires Crossed(RightOf(k), k.t)
    ensures CrossedAt(RightOf(k), k.t, Vect(k.x1, Midlerp(k.y0, k.y1, k.b, k.d, k.t)))
  {
    var s := Interpolated(k.y0, k.y1, k.b, k.d, k.t);
    assert PlaceOn(RightOf(k), s, Vect(k.x1, Midlerp(k.y0, k.y1, k.b, k.d, k.t)));
  }

  // ---- soft cells ----

  /** The end of a crossed edge that is above the threshold, and the other one. */
  function High(e: Edge, t: real): Vect { if e.sp > t then e.p else e.q }
  function Low(e: Edge, t: real): Vect { if e.sp > t then e.q else e.p }

  /** What is above the threshold at edge e lies on the left of somebody who walks along s. */
  predicate HighOnLeft(s: Segment, e: Edge, t: real) {
    Cross(Sub(s.to, s.from), Sub(High(e, t), Low(e, t))) > 0.0
  }

  predicate UprightCell(k: Cell) {
    k.x0 < k.x1 && k.y0 < k.y1
  }

  predicate Opposite(k: Cell) {
    (k.a > k.t) == (k.d > k.t) && (k.b > k.t) == (k.c > k.t) && (k.a > k.t) != (k.b > k.t)
  }

  /** Both ends of s are crossings of the cell's edges; where the corners above the threshold are opposite each other, s
      cuts off one of them. */
  ghost predicate SoftBetween(k: Cell, s: Segment, e: Edge, f: Edge) {
    && e in EdgesOf(k) && f in EdgesOf(k) && CrossedAt(e, k.t, s.from) && CrossedAt(f, k.t, s.to)
    && (UprightCell(k) && s.from != s.to ==> HighOnLeft(s, e, k.t) && HighOnLeft(s, f, k.t))
    && (Opposite(k) ==> High(e, k.t) == High(f, k.t))
  }

  ghost predicate SoftSegment(k: Cell, s: Segment) {
    exists e, f :: SoftBetween(k, s, e, f)
  }

  lemma LeftTurnFlat(s: Segment, e: Edge, t: real)
    requires e.p.y == e.q.y
    requires if High(e, t).x < Low(e, t).x then s.to.y > s.from.y
             else High(e, t).x > Low(e, t).x && s.to.y < s.from.y
    ensures HighOnLeft(s, e, t)
  {
    SameSigns(s.to.y - s.from.y, Low(e, t).x - High(e, t).x);
  }

  lemma LeftTurnSteep(s: Segment, e: Edge, t: real)
    requires e.p.x == e.q.x
    requires if High(e, t).y > Low(e, t).y then s.to.x > s.from.x
             else High(e, t).y < Low(e, t).y && s.to.x < s.from.x
    ensures HighOnLeft(s, e, t)
  {
    SameSigns(s.to.x - s.from.x, High(e, t).y - Low(e, t).y);
  }

  lemma SameSigns(x: real, y: real)
    requires (x > 0.0 && y > 0.0) || (x < 0.0 && y < 0.0)
    ensures x * y > 0.0
  {
  }

  lemma SegBetween(k: Cell, v0: Vect, v1: Vect, e: Edge, f: Edge)
    requires SoftBetween(k, Segment(v1, v0), e, f)
    ensures forall s :: s in Seg(v0, v1) ==> SoftSegment(k, s)
  {
  }

  /** What is above the threshold at the end of an edge decides which way its contour crosses it. */
  lemma BelowAtRange(k: Cell)
    requires Crossed(Below(k), k.t) && UprightCell(k)
    ensures k.x0 <= BelowAt(k).x <= k.x1
    ensures (BelowAt(k).x == k.x0 <==> k.a == k.t) && (BelowAt(k).x == k.x1 <==> k.b == k.t)
  {
    Range(k.x0, k.x1, k.a, k.b, k.t);
  }

  lemma AboveAtRange(k: Cell)
    requires Crossed(Above(k), k.t) && UprightCell(k)
    ensures k.x0 <= AboveAt(k).x <= k.x1
    ensures (AboveAt(k).x == k.x0 <==> k.c == k.t) && (AboveAt(k).x == k.x1 <==> k.d == k.t)
  {
    Range(k.x0, k.x1, k.c, k.d, k.t);
  }

  lemma LeftAtRange(k: Cell)
    requires Crossed(LeftOf(k), k.t) && UprightCell(k)
    ensures k.y0 <= LeftAt(k).y <= k.y1
    ensures (LeftAt(k).y == k.y0 <==> k.a == k.t) && (LeftAt(k).y == k.y1 <==> k.c == k.t)
  {
    Range(k.y0, k.y1, k.a, k.c, k.t);
  }

  lemma RightAtRange(k: Cell)
    requires Crossed(RightOf(k), k.t) && UprightCell(k)
    ensures k.y0 <= RightAt(k).y <= k.y1
    ensures (RightAt(k).y == k.y0 <==> k.b == k.t) && (RightAt(k).y == k.y1 <==> k.d == k.t)
  {
    Range(k.y0, k.y1, k.b, k.d, k.t);
  }

  lemma BelowToLeft(k: Cell)
    requires k.a > k.t && k.b <= k.t && k.c <= k.t
    ensures SoftBetween(k, Segment(BelowAt(k), LeftAt(k)), Below(k), LeftOf(k))
  {
    var s := Segment(BelowAt(k), LeftAt(k));
    if UprightCell(k) && s.from != s.to {
      BelowAtRange(k);
      LeftAtRange(k);
      LeftTurnFlat(s, Below(k), k.t);
      LeftTurnSteep(s, LeftOf(k), k.t);
    }
  }

  lemma RightToBelow(k: Cell)
    requires k.b > k.t && k.a <= k.t && k.d <= k.t
    ensures SoftBetween(k, Segment(RightAt(k), BelowAt(k)), RightOf(k), Below(k))
  {
    var s := Segment(RightAt(k), BelowAt(k));
    if UprightCell(k) && s.from != s.to {
      RightAtRange(k);
      BelowAtRange(k);
      LeftTurnSteep(s, RightOf(k), k.t);
      LeftTurnFlat(s, Below(k), k.t);
    }
  }

  lemma RightToLeft(k: Cell)
    requires k.a > k.t && k.b > k.t && k.c <= k.t && k.d <= k.t && !Opposite(k)
    ensures SoftBetween(k, Segment(RightAt(k), LeftAt(k)), RightOf(k), LeftOf(k))
  {
    var s := Segment(RightAt(k), LeftAt(k));
    if UprightCell(k) && s.from != s.to {
      RightAtRange(k);
      LeftAtRange(k);
      LeftTurnSteep(s, RightOf(k), k.t);
      LeftTurnSteep(s, LeftOf(k), k.t);
    }
  }

  lemma LeftToAbove(k: Cell)
    requires k.c > k.t && k.a <= k.t && k.d <= k.t
    ensures SoftBetween(k, Segment(LeftAt(k), AboveAt(k)), LeftOf(k), Above(k))
  {
    var s := Segment(LeftAt(k), AboveAt(k));
    if UprightCell(k) && s.from != s.to {
      LeftAtRange(k);
      AboveAtRange(k);
      LeftTurnSteep(s, LeftOf(k), k.t);
      LeftTurnFlat(s, Above(k), k.t);
    }
  }

  lemma BelowToAbove(k: Cell)
    requires k.a > k.t && k.c > k.t && k.b <= k.t && k.d <= k.t && !Opposite(k)
    ensures SoftBetween(k, Segment(BelowAt(k), AboveAt(k)), Below(k), Above(k))
  {
    var s := Segment(BelowAt(k), AboveAt(k));
    if UprightCell(k) && s.from != s.to {
      BelowAtRange(k);
      AboveAtRange(k);
      LeftTurnFlat(s, Below(k), k.t);
      LeftTurnFlat(s, Above(k), k.t);
    }
  }

  lemma RightToAbove(k: Cell)
    requires k.b > k.t && k.c > k.t && k.d <= k.t && !Opposite(k)
    ensures SoftBetween(k, Segment(RightAt(k), AboveAt(k)), RightOf(k), Above(k))
  {
    var s := Segment(RightAt(k), AboveAt(k));
    if UprightCell(k) && s.from != s.to {
      RightAtRange(k);
      AboveAtRange(k);
      LeftTurnSteep(s, RightOf(k), k.t);
      LeftTurnFlat(s, Above(k), k.t);
    }
  }

  lemma AboveToRight(k: Cell)
    requires k.d > k.t && k.b <= k.t && k.c <= k.t
    ensures SoftBetween(k, Segment(AboveAt(k), RightAt(k)), Above(k), RightOf(k))
  {
    var s := Segment(AboveAt(k), RightAt(k));
    if UprightCell(k) && s.from != s.to {
      AboveAtRange(k);
      RightAtRange(k);
      LeftTurnFlat(s, Above(k), k.t);
      LeftTurnSteep(s, RightOf(k), k.t);
    }
  }

  lemma AboveToBelow(k: Cell)
    requires k.b > k.t && k.d > k.t && k.a <= k.t && k.c <= k.t && !Opposite(k)
    ensures SoftBetween(k, Segment(AboveAt(k), BelowAt(k)), Above(k), Below(k))
  {
    var s := Segment(AboveAt(k), BelowAt(k));
    if UprightCell(k) && s.from != s.to {
      AboveAtRange(k);
      BelowAtRange(k);
      LeftTurnFlat(s, Above(k), k.t);
      LeftTurnFlat(s, Below(k), k.t);
    }
  }

  lemma AboveToLeft(k: Cell)
    requires k.a > k.t && k.d > k.t && k.c <= k.t && !Opposite(k)
    ensures SoftBetween(k, Segment(AboveAt(k), LeftAt(k)), Above(k), LeftOf(k))
  {
    var s := Segment(AboveAt(k), LeftAt(k));
    if UprightCell(k) && s.from != s.to {
      AboveAtRange(k);
      LeftAtRange(k);
      LeftTurnFlat(s, Above(k), k.t);
      LeftTurnSteep(s, LeftOf(k), k.t);
    }
  }

  lemma LeftToRight(k: Cell)
    requires k.c > k.t && k.d > k.t && k.a <= k.t && k.b <= k.t && !Opposite(k)
    ensures SoftBetween(k, Segment(LeftAt(k), RightAt(k)), LeftOf(k), RightOf(k))
  {
    var s := Segment(LeftAt(k), RightAt(k));
    if UprightCell(k) && s.from != s.to {
      LeftAtRange(k);
      RightAtRange(k);
      LeftTurnSteep(s, LeftOf(k), k.t);
      LeftTurnSteep(s, RightOf(k), k.t);
    }
  }

  lemma BelowToRight(k: Cell)
    requires k.a > k.t && k.d > k.t && k.b <= k.t && !Opposite(k)
    ensures SoftBetween(k, Segment(BelowAt(k), RightAt(k)), Below(k), RightOf(k))
  {
    var s := Segment(BelowAt(k), RightAt(k));
    if UprightCell(k) && s.from != s.to {
      BelowAtRange(k);
      RightAtRange(k);
      LeftTurnFlat(s, Below(k), k.t);
      LeftTurnSteep(s, RightOf(k), k.t);
    }
  }

  lemma LeftToBelow(k: Cell)
    requires k.b > k.t && k.c > k.t && k.a <= k.t && !Opposite(k)
    ensures SoftBetween(k, Segment(LeftAt(k), BelowAt(k)), LeftOf(k), Below(k))
  {
    var s := Segment(LeftAt(k), BelowAt(k));
    if UprightCell(k) && s.from != s.to {
      LeftAtRange(k);
      BelowAtRange(k);
      LeftTurnSteep(s, LeftOf(k), k.t);
      LeftTurnFlat(s, Below(k), k.t);
    }
  }

  lemma SoftLow(k: Cell)
    requires Code(k) < 6
    ensures forall s :: s in SoftCell(k) ==> SoftSegment(k, s)
  {
    match Code(k)
    case 1 => BelowToLeft(k);
    case 2 => RightToBelow(k);
    case 3 => RightToLeft(k);
    case 4 => LeftToAbove(k);
    case 5 => BelowToAbove(k);
    case _ =>
  }

  lemma SoftSaddle(k: Cell)
    requires Code(k) == 6 || Code(k) == 9
    ensures forall s :: s in SoftCell(k) ==> SoftSegment(k, s)
  {
    if Code(k) == 6 {
      RightToBelow(k);
      LeftToAbove(k);
    } else {
      BelowToLeft(k);
      AboveToRight(k);
    }
  }

  lemma SoftHigh(k: Cell)
    requires Code(k) > 6 && Code(k) != 9
    ensures forall s :: s in SoftCell(k) ==> SoftSegment(k, s)
  {
    match Code(k)
    case 7 => RightToAbove(k);
    case 8 => AboveToRight(k);
    case 10 => AboveToBelow(k);
    case 11 => AboveToLeft(k);
    case 12 => LeftToRight(k);
    case 13 => BelowToRight(k);
    case 14 => LeftToBelow(k);
    case _ =>
  }

  /** In all sixteen cases. */
  lemma SoftSegments(k: Cell)
    ensures forall s :: s in SoftCell(k) ==> SoftSegment(k, s)
  {
    if Code(k) < 6 { SoftLow(k); } else if Code(k) == 6 || Code(k) == 9 { SoftSaddle(k); } else { SoftHigh(k); }
  }

  // ---- hard cells ----

  predicate Halfway(v: Vect, p: Vect, q: Vect) {
    v.x + v.x == p.x + q.x && v.y + v.y == p.y + q.y
  }

  /** v is the middle of the cell, or the middle of a crossed edge, and then what is above the threshold is on the
      left. */
  ghost predicate HardEnd(k: Cell, s: Segment, v: Vect) {
    || Halfway(v, Vect(k.x0, k.y0), Vect(k.x1, k.y1))
    || exists e :: e in EdgesOf(k) && HardCrossing(k, s, v, e)
  }

  predicate HardCrossing(k: Cell, s: Segment, v: Vect, e: Edge) {
    Crossed(e, k.t) && Halfway(v, e.p, e.q) && (UprightCell(k) ==> HighOnLeft(s, e, k.t))
  }

  /** Hard segments run along one axis, between the middles of edges and of the cell. */
  ghost predicate HardSegment(k: Cell, s: Segment) {
    (s.from.x == s.to.x || s.from.y == s.to.y) && HardEnd(k, s, s.from) && HardEnd(k, s, s.to)
  }

  lemma Halves(x0: real, x1: real)
    ensures Lerp(x0, x1, 0.5) + Lerp(x0, x1, 0.5) == x0 + x1
    ensures x0 < x1 ==> x0 < Lerp(x0, x1, 0.5) < x1
  {
  }

  lemma HardFromBelow(k: Cell)
    requires k.a > k.t && k.b <= k.t
    ensures var xm, ym := Lerp(k.x0, k.x1, 0.5), Lerp(k.y0, k.y1, 0.5);
            HardSegment(k, Segment(Vect(xm, k.y0), Vect(xm, ym)))
  {
    var xm, ym := Lerp(k.x0, k.x1, 0.5), Lerp(k.y0, k.y1, 0.5);
    Halves(k.x0, k.x1);
    Halves(k.y0, k.y1);
    var s := Segment(Vect(xm, k.y0), Vect(xm, ym));
    if UprightCell(k) {
      LeftTurnFlat(s, Below(k), k.t);
    }
    assert HardCrossing(k, s, Vect(xm, k.y0), Below(k));
  }

  lemma HardToBelow(k: Cell)
    requires k.b > k.t && k.a <= k.t
    ensures var xm, ym := Lerp(k.x0, k.x1, 0.5), Lerp(k.y0, k.y1, 0.5);
            HardSegment(k, Segment(Vect(xm, ym), Vect(xm, k.y0)))
  {
    var xm, ym := Lerp(k.x0, k.x1, 0.5), Lerp(k.y0, k.y1, 0.5);
    Halves(k.x0, k.x1);
    Halves(k.y0, k.y1);
    var s := Segment(Vect(xm, ym), Vect(xm, k.y0));
    if UprightCell(k) {
      LeftTurnFlat(s, Below(k), k.t);
    }
    assert HardCrossing(k, s, Vect(xm, k.y0), Below(k));
  }

  lemma HardFromAbove(k: Cell)
    requires k.d > k.t && k.c <= k.t
    ensures var xm, ym := Lerp(k.x0, k.x1, 0.5), Lerp(k.y0, k.y1, 0.5);
            HardSegment(k, Segment(Vect(xm, k.y1), Vect(xm, ym)))
  {
    var xm, ym := Lerp(k.x0, k.x1, 0.5), Lerp(k.y0, k.y1, 0.5);
    Halves(k.x0, k.x1);
    Halves(k.y0, k.y1);
    var s := Segment(Vect(xm, k.y1), Vect(xm, ym));
    if UprightCell(k) {
      LeftTurnFlat(s, Above(k), k.t);
    }
    assert HardCrossing(k, s, Vect(xm, k.y1), Above(k));
  }

  lemma HardToAbove(k: Cell)
    requires k.c > k.t && k.d <= k.t
    ensures var xm, ym := Lerp(k.x0, k.x1, 0.5), Lerp(k.y0, k.y1, 0.5);
            HardSegment(k, Segment(Vect(xm, ym), Vect(xm, k.y1)))
  {
    var xm, ym := Lerp(k.x0, k.x1, 0.5), Lerp(k.y0, k.y1, 0.5);
    Halves(k.x0, k.x1);
    Halves(k.y0, k.y1);
    var s := Segment(Vect(xm, ym), Vect(xm, k.y1));
    if UprightCell(k) {
      LeftTurnFlat(s, Above(k), k.t);
    }
    assert HardCrossing(k, s, Vect(xm, k.y1), Above(k));
  }

  lemma HardFromLeft(k: Cell)
    requires k.c > k.t && k.a <= k.t
    ensures var xm, ym := Lerp(k.x0, k.x1, 0.5), Lerp(k.y0, k.y1, 0.5);
            HardSegment(k, Segment(Vect(k.x0, ym), Vect(xm, ym)))
  {
    var xm, ym := Lerp(k.x0, k.x1, 0.5), Lerp(k.y0, k.y1, 0.5);
    Halves(k.x0, k.x1);
    Halves(k.y0, k.y1);
    var s := Segment(Vect(k.x0, ym), Vect(xm, ym));
    if UprightCell(k) {
      LeftTurnSteep(s, LeftOf(k), k.t);
    }
    assert HardCrossing(k, s, Vect(k.x0, ym), LeftOf(k));
  }

  lemma HardToLeft(k: Cell)
    requires k.a > k.t && k.c <= k.t
    ensures var xm, ym := Lerp(k.x0, k.x1, 0.5), Lerp(k.y0, k.y1, 0.5);
            HardSegment(k, Segment(Vect(xm, ym), Vect(k.x0, ym)))
  {
    var xm, ym := Lerp(k.x0, k.x1, 0.5), Lerp(k.y0, k.y1, 0.5);
    Halves(k.x0, k.x1);
    Halves(k.y0, k.y1);
    var s := Segment(Vect(xm, ym), Vect(k.x0, ym));
    if UprightCell(k) {
      LeftTurnSteep(s, LeftOf(k), k.t);
    }
    assert HardCrossing(k, s, Vect(k.x0, ym), LeftOf(k));
  }

  lemma HardFromRight(k: Cell)
    requires k.b > k.t && k.d <= k.t
    ensures var xm, ym := Lerp(k.x0, k.x1, 0.5), Lerp(k.y0, k.y1, 0.5);
            HardSegment(k, Segment(Vect(k.x1, ym), Vect(xm, ym)))
  {
    var xm, ym := Lerp(k.x0, k.x1, 0.5), Lerp(k.y0, k.y1, 0.5);
    Halves(k.x0, k.x1);
    Halves(k.y0, k.y1);
    var s := Segment(Vect(k.x1, ym), Vect(xm, ym));
    if UprightCell(k) {
      LeftTurnSteep(s, RightOf(k), k.t);
    }
    assert HardCrossing(k, s, Vect(k.x1, ym), RightOf(k));
  }

  lemma HardToRight(k: Cell)
    requires k.d > k.t && k.b <= k.t
    ensures var xm, ym := Lerp(k.x0, k.x1, 0.5), Lerp(k.y0, k.y1, 0.5);
            HardSegment(k, Segment(Vect(xm, ym), Vect(k.x1, ym)))
  {
    var xm, ym := Lerp(k.x0, k.x1, 0.5), Lerp(k.y0, k.y1, 0.5);
    Halves(k.x0, k.x1);
    Halves(k.y0, k.y1);
    var s := Segment(Vect(xm, ym), Vect(k.x1, ym));
    if UprightCell(k) {
      LeftTurnSteep(s, RightOf(k), k.t);
    }
    assert HardCrossing(k, s, Vect(k.x1, ym), RightOf(k));
  }

  lemma HardRightToLeft(k: Cell)
    requires k.b > k.t && k.d <= k.t && k.a > k.t && k.c <= k.t
    ensures var xm, ym := Lerp(k.x0, k.x1, 0.5), Lerp(k.y0, k.y1, 0.5);
            HardSegment(k, Segment(Vect(k.x1, ym), Vect(k.x0, ym)))
  {
    var xm, ym := Lerp(k.x0, k.x1, 0.5), Lerp(k.y0, k.y1, 0.5);
    Halves(k.x0, k.x1);
    Halves(k.y0, k.y1);
    var s := Segment(Vect(k.x1, ym), Vect(k.x0, ym));
    if UprightCell(k) {
      LeftTurnSteep(s, RightOf(k), k.t);
      LeftTurnSteep(s, LeftOf(k), k.t);
    }
    assert HardCrossing(k, s, Vect(k.x1, ym), RightOf(k)) && HardCrossing(k, s, Vect(k.x0, ym), LeftOf(k));
  }

  lemma HardBelowToAbove(k: Cell)
    requires k.a > k.t && k.b <= k.t && k.c > k.t && k.d <= k.t
    ensures var xm, ym := Lerp(k.x0, k.x1, 0.5), Lerp(k.y0, k.y1, 0.5);
            HardSegment(k, Segment(Vect(xm, k.y0), Vect(xm, k.y1)))
  {
    var xm, ym := Lerp(k.x0, k.x1, 0.5), Lerp(k.y0, k.y1, 0.5);
    Halves(k.x0, k.x1);
    Halves(k.y0, k.y1);
    var s := Segment(Vect(xm, k.y0), Vect(xm, k.y1));
    if UprightCell(k) {
      LeftTurnFlat(s, Below(k), k.t);
      LeftTurnFlat(s, Above(k), k.t);
    }
    assert HardCrossing(k, s, Vect(xm, k.y0), Below(k)) && HardCrossing(k, s, Vect(xm, k.y1), Above(k));
  }

  lemma HardAboveToBelow(k: Cell)
    requires k.d > k.t && k.c <= k.t && k.b > k.t && k.a <= k.t
    ensures var xm, ym := Lerp(k.x0, k.x1, 0.5), Lerp(k.y0, k.y1, 0.5);
            HardSegment(k, Segment(Vect(xm, k.y1), Vect(xm, k.y0)))
  {
    var xm, ym := Lerp(k.x0, k.x1, 0.5), Lerp(k.y0, k.y1, 0.5);
    Halves(k.x0, k.x1);
    Halves(k.y0, k.y1);
    var s := Segment(Vect(xm, k.y1), Vect(xm, k.y0));
    if UprightCell(k) {
      LeftTurnFlat(s, Above(k), k.t);
      LeftTurnFlat(s, Below(k), k.t);
    }
    assert HardCrossing(k, s, Vect(xm, k.y1), Above(k)) && HardCrossing(k, s, Vect(xm, k.y0), Below(k));
  }

  lemma HardLeftToRight(k: Cell)
    requires k.c > k.t && k.a <= k.t && k.d > k.t && k.b <= k.t
    ensures var xm, ym := Lerp(k.x0, k.x1, 0.5), Lerp(k.y0, k.y1, 0.5);
            HardSegment(k, Segment(Vect(k.x0, ym), Vect(k.x1, ym)))
  {
    var xm, ym := Lerp(k.x0, k.x1, 0.5), Lerp(k.y0, k.y1, 0.5);
    Halves(k.x0, k.x1);
    Halves(k.y0, k.y1);
    var s := Segment(Vect(k.x0, ym), Vect(k.x1, ym));
    if UprightCell(k) {
      LeftTurnSteep(s, LeftOf(k), k.t);
      LeftTurnSteep(s, RightOf(k), k.t);
    }
    assert HardCrossing(k, s, Vect(k.x0, ym), LeftOf(k)) && HardCrossing(k, s, Vect(k.x1, ym), RightOf(k));
  }

  lemma HardLow(k: Cell)
    requires Code(k) < 6
    ensures forall s :: s in HardCell(k) ==> HardSegment(k, s)
  {
    match Code(k)
    case 1 =>
      HardFromBelow(k);
      HardToLeft(k);
    case 2 =>
      HardFromRight(k);
      HardToBelow(k);
    case 3 =>
      HardRightToLeft(k);
    case 4 =>
      HardFromLeft(k);
      HardToAbove(k);
    case 5 =>
      HardBelowToAbove(k);
    case _ =>
  }

  lemma HardSaddle(k: Cell)
    requires Code(k) == 6 || Code(k) == 9
    ensures forall s :: s in HardCell(k) ==> HardSegment(k, s)
  {
    match Code(k)
    case 6 =>
      HardFromLeft(k);
      HardToBelow(k);
      HardFromRight(k);
      HardToAbove(k);
    case 9 =>
      HardFromBelow(k);
      HardToRight(k);
      HardFromAbove(k);
      HardToLeft(k);
    case _ =>
  }

  lemma HardHigh(k: Cell)
    requires Code(k) > 6 && Code(k) != 9
    ensures forall s :: s in HardCell(k) ==> HardSegment(k, s)
  {
    match Code(k)
    case 7 =>
      HardFromRight(k);
      HardToAbove(k);
    case 8 =>
      HardFromAbove(k);
      HardToRight(k);
    case 10 =>
      HardAboveToBelow(k);
    case 11 =>
      HardFromAbove(k);
      HardToLeft(k);
    case 12 =>
      HardLeftToRight(k);
    case 13 =>
      HardFromBelow(k);
      HardToRight(k);
    case 14 =>
      HardFromLeft(k);
      HardToBelow(k);
    case _ =>
  }

  /** In all sixteen cases. */
  lemma HardSegments(k: Cell)
    ensures forall s :: s in HardCell(k) ==> HardSegment(k, s)
  {
    if Code(k) < 6 { HardLow(k); } else if Code(k) == 6 || Code(k) == 9 { HardSaddle(k); } else { HardHigh(k); }
  }

  // ---- no crossing is left out ----

  ghost predicate Meets(segments: seq<Segment>, v: Vect) {
    exists s :: s in segments && (s.from == v || s.to == v)
  }

  ghost predicate MetAt(kind: Kind, k: Cell, segments: seq<Segment>, e: Edge, v: Vect) {
    Meets(segments, v) && if kind.Soft? then CrossedAt(e, k.t, v) else Halfway(v, e.p, e.q)
  }

  /** Every crossed edge is met where it is crossed; a soft contour may pass through a corner that is on the threshold
      instead. */
  ghost predicate Met(kind: Kind, k: Cell, segments: seq<Segment>) {
    forall e :: e in EdgesOf(k) && Crossed(e, k.t) && (kind.Soft? ==> e.sp != k.t && e.sq != k.t) ==>
      exists v :: MetAt(kind, k, segments, e, v)
  }

  lemma MetMore(kind: Kind, k: Cell, segments: seq<Segment>, more: seq<Segment>)
    requires Met(kind, k, segments) && forall s :: s in segments ==> s in more
    ensures Met(kind, k, more)
  {
    forall e | e in EdgesOf(k) && Crossed(e, k.t) && (kind.Soft? ==> e.sp != k.t && e.sq != k.t)
      ensures exists v :: MetAt(kind, k, more, e, v)
    {
      var v :| MetAt(kind, k, segments, e, v);
      assert MetAt(kind, k, more, e, v);
    }
  }

  lemma SegMeets()
    ensures forall v0, v1 {:trigger Seg(v0, v1)} :: v0 != v1 ==> Segment(v1, v0) in Seg(v0, v1)
  {
  }

  lemma MeetsBy(segments: seq<Segment>, s: Segment)
    requires s in segments
    ensures Meets(segments, s.from) && Meets(segments, s.to)
  {
  }

  /** Which segment of the cell starts or ends at the crossing of the lower edge. */
  lemma BelowMet(k: Cell)
    requires Crossed(Below(k), k.t) && UprightCell(k) && k.a != k.t && k.b != k.t
    ensures Meets(SoftCell(k), BelowAt(k))
  {
    SegMeets();
    BelowAtRange(k);
    var v := BelowAt(k);
    match Code(k)
    case 1 => MeetsBy(SoftCell(k), Segment(v, LeftAt(k)));
    case 2 => MeetsBy(SoftCell(k), Segment(RightAt(k), v));
    case 5 => MeetsBy(SoftCell(k), Segment(v, AboveAt(k)));
    case 6 => MeetsBy(SoftCell(k), Segment(RightAt(k), v));
    case 9 => MeetsBy(SoftCell(k), Segment(v, LeftAt(k)));
    case 10 => MeetsBy(SoftCell(k), Segment(AboveAt(k), v));
    case 13 => MeetsBy(SoftCell(k), Segment(v, RightAt(k)));
    case 14 => MeetsBy(SoftCell(k), Segment(LeftAt(k), v));
    case _ =>
  }

  lemma AboveMet(k: Cell)
    requires Crossed(Above(k), k.t) && UprightCell(k) && k.c != k.t && k.d != k.t
    ensures Meets(SoftCell(k), AboveAt(k))
  {
    SegMeets();
    AboveAtRange(k);
    var v := AboveAt(k);
    match Code(k)
    case 4 => MeetsBy(SoftCell(k), Segment(LeftAt(k), v));
    case 5 => MeetsBy(SoftCell(k), Segment(BelowAt(k), v));
    case 6 => MeetsBy(SoftCell(k), Segment(LeftAt(k), v));
    case 7 => MeetsBy(SoftCell(k), Segment(RightAt(k), v));
    case 8 => MeetsBy(SoftCell(k), Segment(v, RightAt(k)));
    case 9 => MeetsBy(SoftCell(k), Segment(v, RightAt(k)));
    case 10 => MeetsBy(SoftCell(k), Segment(v, BelowAt(k)));
    case 11 => MeetsBy(SoftCell(k), Segment(v, LeftAt(k)));
    case _ =>
  }

  lemma LeftMet(k: Cell)
    requires Crossed(LeftOf(k), k.t) && UprightCell(k) && k.a != k.t && k.c != k.t
    ensures Meets(SoftCell(k), LeftAt(k))
  {
    SegMeets();
    LeftAtRange(k);
    var v := LeftAt(k);
    match Code(k)
    case 1 => MeetsBy(SoftCell(k), Segment(BelowAt(k), v));
    case 3 => MeetsBy(SoftCell(k), Segment(RightAt(k), v));
    case 4 => MeetsBy(SoftCell(k), Segment(v, AboveAt(k)));
    case 6 => MeetsBy(SoftCell(k), Segment(v, AboveAt(k)));
    case 9 => MeetsBy(SoftCell(k), Segment(BelowAt(k), v));
    case 11 => MeetsBy(SoftCell(k), Segment(AboveAt(k), v));
    case 12 => MeetsBy(SoftCell(k), Segment(v, RightAt(k)));
    case 14 => MeetsBy(SoftCell(k), Segment(v, BelowAt(k)));
    case _ =>
  }

  lemma RightMet(k: Cell)
    requires Crossed(RightOf(k), k.t) && UprightCell(k) && k.b != k.t && k.d != k.t
    ensures Meets(SoftCell(k), RightAt(k))
  {
    SegMeets();
    RightAtRange(k);
    var v := RightAt(k);
    match Code(k)
    case 2 => MeetsBy(SoftCell(k), Segment(v, BelowAt(k)));
    case 3 => MeetsBy(SoftCell(k), Segment(v, LeftAt(k)));
    case 6 => MeetsBy(SoftCell(k), Segment(v, BelowAt(k)));
    case 7 => MeetsBy(SoftCell(k), Segment(v, AboveAt(k)));
    case 8 => MeetsBy(SoftCell(k), Segment(AboveAt(k), v));
    case 9 => MeetsBy(SoftCell(k), Segment(AboveAt(k), v));
    case 12 => MeetsBy(SoftCell(k), Segment(LeftAt(k), v));
    case 13 => MeetsBy(SoftCell(k), Segment(BelowAt(k), v));
    case _ =>
  }

  lemma SoftMet(k: Cell)
    requires UprightCell(k)
    ensures Met(Soft, k, SoftCell(k))
  {
    var segments := SoftCell(k);
    forall e | e in EdgesOf(k) && Crossed(e, k.t) && e.sp != k.t && e.sq != k.t
      ensures exists v :: MetAt(Soft, k, segments, e, v)
    {
      if e == Below(k) {
        BelowMet(k);
        assert MetAt(Soft, k, segments, e, BelowAt(k));
      } else if e == Above(k) {
        AboveMet(k);
        assert MetAt(Soft, k, segments, e, AboveAt(k));
      } else if e == LeftOf(k) {
        LeftMet(k);
        assert MetAt(Soft, k, segments, e, LeftAt(k));
      } else {
        RightMet(k);
        assert MetAt(Soft, k, segments, e, RightAt(k));
      }
    }
  }

  /** Of a bent or straight line between other points, both ends are met. */
  lemma SegsMeet(a: Vect, b: Vect, c: Vect)
    requires a != b && b != c
    ensures Meets(Segs(a, b, c), a) && Meets(Segs(a, b, c), c)
  {
    MeetsBy(Segs(a, b, c), Segment(c, b));
    MeetsBy(Segs(a, b, c), Segment(b, a));
  }

  lemma MeetsEither(r: seq<Segment>, s: seq<Segment>, v: Vect)
    requires Meets(r, v) || Meets(s, v)
    ensures Meets(r + s, v)
  {
    if Meets(r, v) {
      var x :| x in r && (x.from == v || x.to == v);
      assert x in r + s;
    } else {
      var x :| x in s && (x.from == v || x.to == v);
      assert x in r + s;
    }
  }

  /** The middles of the edges and of the cell. */
  ghost predicate Middles(k: Cell, left: Vect, right: Vect, below: Vect, above: Vect, mid: Vect) {
    && mid == Vect(Lerp(k.x0, k.x1, 0.5), Lerp(k.y0, k.y1, 0.5)) && left == Vect(k.x0, mid.y)
    && right == Vect(k.x1, mid.y) && below == Vect(mid.x, k.y0) && above == Vect(mid.x, k.y1)
    && left != mid && right != mid && below != mid && above != mid
  }

  lemma TwoMet(segments: seq<Segment>, a: Vect, b: Vect, mid: Vect, c: Vect, d: Vect)
    requires a != mid && b != mid && c != mid && d != mid && segments == Segs(a, mid, b) + Segs(c, mid, d)
    ensures Meets(segments, a) && Meets(segments, b) && Meets(segments, c) && Meets(segments, d)
  {
    SegsMeet(a, mid, b);
    SegsMeet(c, mid, d);
    MeetsEither(Segs(a, mid, b), Segs(c, mid, d), a);
    MeetsEither(Segs(a, mid, b), Segs(c, mid, d), b);
    MeetsEither(Segs(a, mid, b), Segs(c, mid, d), c);
    MeetsEither(Segs(a, mid, b), Segs(c, mid, d), d);
  }

  lemma HardSaddleMet(k: Cell, left: Vect, right: Vect, below: Vect, above: Vect, mid: Vect)
    requires (Code(k) == 6 || Code(k) == 9) && Middles(k, left, right, below, above, mid)
    ensures forall v :: v in {left, right, below, above} ==> Meets(HardCell(k), v)
  {
    if Code(k) == 6 {
      TwoMet(HardCell(k), below, left, mid, above, right);
    } else {
      TwoMet(HardCell(k), right, below, mid, left, above);
    }
  }

  /** One or three corners above the threshold. */
  lemma HardCornerMet(k: Cell, left: Vect, right: Vect, below: Vect, above: Vect, mid: Vect)
    requires Middles(k, left, right, below, above, mid)
    ensures Code(k) in {1, 14} ==> Meets(HardCell(k), left) && Meets(HardCell(k), below)
    ensures Code(k) in {2, 13} ==> Meets(HardCell(k), right) && Meets(HardCell(k), below)
    ensures Code(k) in {4, 11} ==> Meets(HardCell(k), left) && Meets(HardCell(k), above)
    ensures Code(k) in {7, 8} ==> Meets(HardCell(k), right) && Meets(HardCell(k), above)
  {
    match Code(k)
    case 1 => SegsMeet(left, mid, below);
    case 2 => SegsMeet(below, mid, right);
    case 4 => SegsMeet(above, mid, left);
    case 7 => SegsMeet(above, mid, right);
    case 8 => SegsMeet(right, mid, above);
    case 11 => SegsMeet(left, mid, above);
    case 13 => SegsMeet(right, mid, below);
    case 14 => SegsMeet(below, mid, left);
    case _ =>
  }

  lemma HardStraightMet(k: Cell, left: Vect, right: Vect, below: Vect, above: Vect, mid: Vect)
    requires Middles(k, left, right, below, above, mid) && left != right && below != above
    ensures Code(k) in {3, 12} ==> Meets(HardCell(k), left) && Meets(HardCell(k), right)
    ensures Code(k) in {5, 10} ==> Meets(HardCell(k), below) && Meets(HardCell(k), above)
  {
    SegMeets();
    match Code(k)
    case 3 => MeetsBy(HardCell(k), Segment(right, left));
    case 12 => MeetsBy(HardCell(k), Segment(left, right));
    case 5 => MeetsBy(HardCell(k), Segment(below, above));
    case 10 => MeetsBy(HardCell(k), Segment(above, below));
    case _ =>
  }

  lemma HardMet(k: Cell)
    requires UprightCell(k)
    ensures Met(Hard, k, HardCell(k))
  {
    var xm, ym := Lerp(k.x0, k.x1, 0.5), Lerp(k.y0, k.y1, 0.5);
    Halves(k.x0, k.x1);
    Halves(k.y0, k.y1);
    var left, right, below, above, mid := Vect(k.x0, ym), Vect(k.x1, ym), Vect(xm, k.y0), Vect(xm, k.y1), Vect(xm, ym);
    HardCornerMet(k, left, right, below, above, mid);
    HardStraightMet(k, left, right, below, above, mid);
    if Code(k) == 6 || Code(k) == 9 {
      HardSaddleMet(k, left, right, below, above, mid);
    }
    HardMetAt(k, left, right, below, above);
  }

  lemma HardMetAt(k: Cell, left: Vect, right: Vect, below: Vect, above: Vect)
    requires Crossed(LeftOf(k), k.t) ==> Meets(HardCell(k), left)
    requires Crossed(RightOf(k), k.t) ==> Meets(HardCell(k), right)
    requires Crossed(Below(k), k.t) ==> Meets(HardCell(k), below)
    requires Crossed(Above(k), k.t) ==> Meets(HardCell(k), above)
    requires Halfway(left, LeftOf(k).p, LeftOf(k).q) && Halfway(right, RightOf(k).p, RightOf(k).q)
    requires Halfway(below, Below(k).p, Below(k).q) && Halfway(above, Above(k).p, Above(k).q)
    ensures Met(Hard, k, HardCell(k))
  {
    forall e | e in EdgesOf(k) && Crossed(e, k.t) ensures exists v :: MetAt(Hard, k, HardCell(k), e, v) {
      var v := if e == LeftOf(k) then left else if e == RightOf(k) then right
        else if e == Below(k) then below else above;
      assert MetAt(Hard, k, HardCell(k), e, v);
    }
  }
}
