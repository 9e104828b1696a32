/** When the contours of marching squares branch. */
module Branching {
  import opened Vectors
  import opened MarchCells
  import opened MarchingSquares
  import Polylines

  // ---- one cell ----

  /** How many segments start, or end, at p. */
  function Count(start: bool, s: seq<Segment>, p: Vect): nat {
    if start then Starts(s, p) else Ends(s, p)
  }

  function Sign(start: bool): int {
    if start then 1 else -1
  }

  /** 1 when p is where a contour crosses the vertical edge at x in the given direction. */
  function VerticalHit(kind: Kind, t: real, s0: real, s1: real, x: real, y0: real, y1: real, p: Vect, sign: int): nat {
    if Crossing(s0, s1, t) == 0 then 0
    else if Crossing(s0, s1, t) == sign && p == Vect(x, Mid(kind, y0, y1, s0, s1, t)) then 1 else 0
  }

  function HorizontalHit(kind: Kind, t: real, s0: real, s1: real, x0: real, x1: real, y: real, p: Vect,
                         sign: int): nat {
    if Crossing(s0, s1, t) == 0 then 0
    else if Crossing(s0, s1, t) == sign && p == Vect(Mid(kind, x0, x1, s0, s1, t), y) then 1 else 0
  }

  /** Two opposite corners are above the threshold and the other two are not. */
  predicate Saddle(k: Cell) {
    Code(k) == 6 || Code(k) == 9
  }

  function Middle(k: Cell): Vect {
    Vect(Lerp(k.x0, k.x1, 0.5), Lerp(k.y0, k.y1, 0.5))
  }

  /** How often the segments of a hard cell bend in its middle. */
  function Bends(k: Cell): nat {
    if Saddle(k) then 2
    else if Code(k) == 0 || Code(k) == 3 || Code(k) == 5 || Code(k) == 10 || Code(k) == 12 || Code(k) == 15 then 0
    else 1
  }

  function MiddleHit(kind: Kind, k: Cell, p: Vect): nat {
    if kind.Hard? && p == Middle(k) then Bends(k) else 0
  }

  function CellHits(start: bool, kind: Kind, k: Cell, p: Vect): nat {
    VerticalHit(kind, k.t, k.b, k.d, k.x1, k.y0, k.y1, p, Sign(start))
    + VerticalHit(kind, k.t, k.a, k.c, k.x0, k.y0, k.y1, p, -Sign(start))
    + HorizontalHit(kind, k.t, k.a, k.b, k.x0, k.x1, k.y0, p, Sign(start))
    + HorizontalHit(kind, k.t, k.c, k.d, k.x0, k.x1, k.y1, p, -Sign(start))
    + MiddleHit(kind, k, p)
  }

  function Is(p: Vect, q: Vect): nat {
    if p == q then 1 else 0
  }

  lemma SegCount(start: bool, v0: Vect, v1: Vect, p: Vect)
    ensures Count(start, Seg(v0, v1), p) <= Is(p, if start then v1 else v0)
  {
    var s := Seg(v0, v1);
    if v0 != v1 {
      assert s[1..] == [] && Count(start, s[1..], p) == 0;
    }
  }

  lemma SegCounts(start: bool, p: Vect)
    ensures forall v0, v1 {:trigger Seg(v0, v1)} :: Count(start, Seg(v0, v1), p) <= Is(p, if start then v1 else v0)
  {
    forall v0, v1 ensures Count(start, Seg(v0, v1), p) <= Is(p, if start then v1 else v0) {
      SegCount(start, v0, v1, p);
    }
  }

  lemma TwoCount(start: bool, s: seq<Segment>, r: seq<Segment>, p: Vect)
    ensures Count(start, s + r, p) == Count(start, s, p) + Count(start, r, p)
  {
    Polylines.CountConcat(s, r, p);
  }

  lemma SegsCount(start: bool, a: Vect, b: Vect, c: Vect, p: Vect)
    ensures Count(start, Segs(a, b, c), p) <= Is(p, b) + Is(p, if start then c else a)
  {
    TwoCount(start, Seg(b, c), Seg(a, b), p);
    SegCount(start, b, c, p);
    SegCount(start, a, b, p);
  }

  lemma SegsCounts(start: bool, p: Vect)
    ensures forall a, b, c {:trigger Segs(a, b, c)} ::
              Count(start, Segs(a, b, c), p) <= Is(p, b) + Is(p, if start then c else a)
  {
    forall a, b, c ensures Count(start, Segs(a, b, c), p) <= Is(p, b) + Is(p, if start then c else a) {
      SegsCount(start, a, b, c, p);
    }
  }

  lemma SoftLow(start: bool, k: Cell, p: Vect)
    requires Code(k) < 6
    ensures Count(start, SoftCell(k), p) <= CellHits(start, Soft, k, p)
  {
    SegCounts(start, p);
  }

  lemma SoftTwo(start: bool, k: Cell, p: Vect)
    requires Saddle(k)
    ensures Count(start, SoftCell(k), p) <= CellHits(start, Soft, k, p)
  {
    SegCounts(start, p);
    if Code(k) == 6 {
      TwoCount(start,
        Seg(Vect(Midlerp(k.x0, k.x1, k.a, k.b, k.t), k.y0), Vect(k.x1, Midlerp(k.y0, k.y1, k.b, k.d, k.t))),
        Seg(Vect(Midlerp(k.x0, k.x1, k.c, k.d, k.t), k.y1), Vect(k.x0, Midlerp(k.y0, k.y1, k.a, k.c, k.t))), p);
    } else {
      TwoCount(start,
        Seg(Vect(k.x0, Midlerp(k.y0, k.y1, k.a, k.c, k.t)), Vect(Midlerp(k.x0, k.x1, k.a, k.b, k.t), k.y0)),
        Seg(Vect(k.x1, Midlerp(k.y0, k.y1, k.b, k.d, k.t)), Vect(Midlerp(k.x0, k.x1, k.c, k.d, k.t), k.y1)), p);
    }
  }

  lemma SoftHigh(start: bool, k: Cell, p: Vect)
    requires Code(k) > 6 && Code(k) != 9
    ensures Count(start, SoftCell(k), p) <= CellHits(start, Soft, k, p)
  {
    SegCounts(start, p);
  }

  lemma HardLow(start: bool, k: Cell, p: Vect)
    requires Code(k) < 6
    ensures Count(start, HardCell(k), p) <= CellHits(start, Hard, k, p)
  {
    SegCounts(start, p);
    SegsCounts(start, p);
  }

  lemma HardTwo(start: bool, k: Cell, p: Vect)
    requires Saddle(k)
    ensures Count(start, HardCell(k), p) <= CellHits(start, Hard, k, p)
  {
    SegsCounts(start, p);
    var xm, ym := Lerp(k.x0, k.x1, 0.5), Lerp(k.y0, k.y1, 0.5);
    var left, right, below, above, mid := Vect(k.x0, ym), Vect(k.x1, ym), Vect(xm, k.y0), Vect(xm, k.y1), Vect(xm, ym);
    if Code(k) == 6 {
      TwoCount(start, Segs(below, mid, left), Segs(above, mid, right), p);
    } else {
      TwoCount(start, Segs(right, mid, below), Segs(left, mid, above), p);
    }
  }

  lemma HardHigh(start: bool, k: Cell, p: Vect)
    requires Code(k) > 6 && Code(k) != 9
    ensures Count(start, HardCell(k), p) <= CellHits(start, Hard, k, p)
  {
    SegCounts(start, p);
    SegsCounts(start, p);
  }

  /** A segment of a cell starts where a contour crosses an edge in one direction, or in the middle. */
  lemma CellCount(start: bool, kind: Kind, k: Cell, p: Vect)
    ensures Count(start, CellSegments(kind, k), p) <= CellHits(start, kind, k, p)
  {
    match kind
    case Soft =>
      if Code(k) < 6 { SoftLow(start, k, p); } else if Saddle(k) { SoftTwo(start, k, p); }
        else { SoftHigh(start, k, p); }
    case Hard =>
      if Code(k) < 6 { HardLow(start, k, p); } else if Saddle(k) { HardTwo(start, k, p); }
        else { HardHigh(start, k, p); }
  }

  // ---- counting over a grid ----

  /** What is counted on the vertical edges, on the horizontal edges, and in the middles of the cells. */
  datatype Hits = Hits(vertical: (nat, nat, int) -> nat, horizontal: (nat, nat, int) -> nat, middle: (nat, nat) -> nat)

  function V(h: Hits, i: nat, j: nat): nat {
    h.vertical(i, j, 1) + h.vertical(i, j, -1)
  }

  function H(h: Hits, i: nat, j: nat): nat {
    h.horizontal(i, j, 1) + h.horizontal(i, j, -1)
  }

  function VerticalRow(h: Hits, j: nat, n: nat): nat {
    if n == 0 then 0 else VerticalRow(h, j, n - 1) + V(h, n - 1, j)
  }

  function HorizontalRow(h: Hits, j: nat, n: nat, sign: int): nat {
    if n == 0 then 0 else HorizontalRow(h, j, n - 1, sign) + h.horizontal(n - 1, j, sign)
  }

  function MiddleRow(h: Hits, j: nat, n: nat): nat {
    if n == 0 then 0 else MiddleRow(h, j, n - 1) + h.middle(n - 1, j)
  }

  /** All edges and middles of m rows of n cells, the upper border not included. */
  function AllHits(h: Hits, n: nat, m: nat): nat {
    if m == 0 then 0 else
      AllHits(h, n, m - 1) + VerticalRow(h, m - 1, n + 1) + MiddleRow(h, m - 1, n)
        + HorizontalRow(h, m - 1, n, 1) + HorizontalRow(h, m - 1, n, -1)
  }

  /** cell counts, for each cell, what its edges and its middle allow. */
  ghost predicate CellAllows(h: Hits, cell: (nat, nat) -> nat, sign: int, i: nat, j: nat) {
    cell(i, j) <= h.vertical(i + 1, j, sign) + h.vertical(i, j, -sign) + h.horizontal(i, j, sign)
      + h.horizontal(i, j + 1, -sign) + h.middle(i, j)
  }

  ghost predicate AllAllow(h: Hits, cell: (nat, nat) -> nat, sign: int) {
    forall i: nat, j: nat {:trigger CellAllows(h, cell, sign, i, j)} :: CellAllows(h, cell, sign, i, j)
  }

  function RowSum(cell: (nat, nat) -> nat, j: nat, n: nat): nat {
    if n == 0 then 0 else RowSum(cell, j, n - 1) + cell(n - 1, j)
  }

  function GridSum(cell: (nat, nat) -> nat, n: nat, m: nat): nat {
    if m == 0 then 0 else GridSum(cell, n, m - 1) + RowSum(cell, m - 1, n)
  }

  lemma {:induction false} RowAllows(h: Hits, cell: (nat, nat) -> nat, sign: int, j: nat, n: nat)
    requires (sign == 1 || sign == -1) && AllAllow(h, cell, sign)
    ensures RowSum(cell, j, n) + h.vertical(n, j, -sign) <=
      VerticalRow(h, j, n + 1) + MiddleRow(h, j, n) + HorizontalRow(h, j, n, sign) + HorizontalRow(h, j + 1, n, -sign)
  {
    if n > 0 {
      RowAllows(h, cell, sign, j, n - 1);
      assert CellAllows(h, cell, sign, n - 1, j);
    }
  }

  /** Every edge is crossed in one direction only, and counted once. */
  lemma {:induction false} GridAllows(h: Hits, cell: (nat, nat) -> nat, sign: int, n: nat, m: nat)
    requires (sign == 1 || sign == -1) && AllAllow(h, cell, sign)
    ensures GridSum(cell, n, m) <= AllHits(h, n, m) + HorizontalRow(h, m, n, -sign)
  {
    if m > 0 {
      GridAllows(h, cell, sign, n, m - 1);
      RowAllows(h, cell, sign, m - 1, n);
    }
  }

  function Indicator(b: bool): nat {
    if b then 1 else 0
  }

  predicate Whole(u: real) {
    u == u.Floor as real
  }

  ghost predicate VerticalAt(h: Hits, u: real, v: real, i: nat, j: nat) {
    V(h, i, j) <= Indicator(u == i as real && j as real < v < (j + 1) as real)
  }

  ghost predicate HorizontalAt(h: Hits, u: real, v: real, i: nat, j: nat) {
    H(h, i, j) <= Indicator(i as real < u < (i + 1) as real && v == j as real)
  }

  ghost predicate MiddleAt(h: Hits, u: real, v: real, i: nat, j: nat) {
    h.middle(i, j) <= Indicator(u == i as real + 0.5 && v == j as real + 0.5)
  }

  /** In a grid of m rows of n cells only that is hit which u cells to the right and v cells up is part of. */
  ghost predicate Located(h: Hits, u: real, v: real, n: nat, m: nat) {
    && (forall i: nat, j: nat {:trigger VerticalAt(h, u, v, i, j)} :: i <= n && j < m ==> VerticalAt(h, u, v, i, j))
    && (forall i: nat, j: nat {:trigger HorizontalAt(h, u, v, i, j)} :: i < n && j <= m ==> HorizontalAt(h, u, v, i, j))
    && (forall i: nat, j: nat {:trigger MiddleAt(h, u, v, i, j)} :: i < n && j < m ==> MiddleAt(h, u, v, i, j))
  }

  lemma {:induction false} VerticalOnce(h: Hits, u: real, v: real, n: nat, m: nat, j: nat, k: nat)
    requires Located(h, u, v, n, m) && j < m && k <= n + 1
    ensures VerticalRow(h, j, k) <= Indicator(Whole(u) && j as real < v < (j + 1) as real && u < k as real)
  {
    if k > 0 {
      VerticalOnce(h, u, v, n, m, j, k - 1);
      assert VerticalAt(h, u, v, k - 1, j);
    }
  }

  lemma Inside(u: real, i: nat)
    requires i as real < u < (i + 1) as real
    ensures !Whole(u)
  {
    assert u.Floor == i;
  }

  lemma HorizontalMore(h: Hits, u: real, v: real, j: nat, k: nat)
    requires HorizontalAt(h, u, v, k, j)
    requires HorizontalRow(h, j, k, 1) + HorizontalRow(h, j, k, -1) <=
             Indicator(!Whole(u) && v == j as real && u < k as real)
    ensures HorizontalRow(h, j, k + 1, 1) + HorizontalRow(h, j, k + 1, -1) <=
      Indicator(!Whole(u) && v == j as real && u < (k + 1) as real)
  {
    if k as real < u < (k + 1) as real {
      Inside(u, k);
    }
  }

  lemma {:induction false} HorizontalOnce(h: Hits, u: real, v: real, n: nat, m: nat, j: nat, k: nat)
    requires Located(h, u, v, n, m) && j <= m && k <= n
    ensures HorizontalRow(h, j, k, 1) + HorizontalRow(h, j, k, -1) <=
      Indicator(!Whole(u) && v == j as real && u < k as real)
  {
    if k > 0 {
      HorizontalOnce(h, u, v, n, m, j, k - 1);
      assert HorizontalAt(h, u, v, k - 1, j);
      HorizontalMore(h, u, v, j, k - 1);
    }
  }

  lemma {:induction false} MiddleOnce(h: Hits, u: real, v: real, n: nat, m: nat, j: nat, k: nat)
    requires Located(h, u, v, n, m) && j < m && k <= n
    ensures MiddleRow(h, j, k) <= Indicator(!Whole(u) && v == j as real + 0.5 && u < k as real)
  {
    if k > 0 {
      MiddleOnce(h, u, v, n, m, j, k - 1);
      assert MiddleAt(h, u, v, k - 1, j);
    }
  }

  lemma {:induction false} HitOnce(h: Hits, u: real, v: real, n: nat, m: nat, k: nat)
    requires Located(h, u, v, n, m) && k <= m
    ensures AllHits(h, n, k) <= Indicator(v < k as real)
  {
    if k > 0 {
      HitOnce(h, u, v, n, m, k - 1);
      VerticalOnce(h, u, v, n, m, k - 1, n + 1);
      HorizontalOnce(h, u, v, n, m, k - 1, n);
      MiddleOnce(h, u, v, n, m, k - 1, n);
    }
  }

  /** So the cells count at most 1 together. */
  lemma GridOnce(h: Hits, cell: (nat, nat) -> nat, sign: int, u: real, v: real, n: nat, m: nat)
    requires (sign == 1 || sign == -1) && AllAllow(h, cell, sign)
    requires Located(h, u, v, n, m)
    ensures GridSum(cell, n, m) <= 1
  {
    GridAllows(h, cell, sign, n, m);
    HitOnce(h, u, v, n, m, m);
    HorizontalOnce(h, u, v, n, m, m, n);
  }

  // ---- where the edges are ----

  /** The window is not empty. */
  predicate Wide(g: Grid) {
    g.bb.l != g.bb.r && g.bb.b != g.bb.t
  }

  function StepX(g: Grid): real
    requires Proper(g)
  {
    (g.bb.r - g.bb.l) * Denom(g.xSamples)
  }

  function StepY(g: Grid): real
    requires Proper(g)
  {
    (g.bb.t - g.bb.b) * Denom(g.ySamples)
  }

  /** p is u cells right of the left border and v cells above the lower one. */
  predicate AtPlace(g: Grid, p: Vect, u: real, v: real)
    requires Proper(g)
  {
    p.x == g.bb.l + u * StepX(g) && p.y == g.bb.b + v * StepY(g)
  }

  lemma LerpIs(lo: real, hi: real, s: real)
    ensures Lerp(lo, hi, s) == lo + (hi - lo) * s
  {
  }

  lemma LerpPlace(lo: real, hi: real, i: nat, denom: real, step: real)
    requires step == (hi - lo) * denom
    ensures LerpAt(lo, hi, i, denom) == lo + i as real * step
  {
    LerpIs(lo, hi, i as real * denom);
  }

  lemma BetweenPlace(lo: real, i: nat, step: real, s: real, x0: real, x1: real)
    requires x0 == lo + i as real * step && x1 == lo + (i + 1) as real * step
    ensures Lerp(x0, x1, s) == lo + (i as real + s) * step
  {
    LerpIs(x0, x1, s);
    assert x1 - x0 == step;
  }

  lemma NotZero(d: real, q: real, r: real)
    requires d != 0.0 && r * q == 1.0
    ensures d * q != 0.0
  {
    assert d == (d * q) * r;
  }

  lemma NoStep(d: real, n: nat)
    requires n >= 2 && d != 0.0
    ensures d * Denom(n) != 0.0
  {
    Quotient((n - 1) as real);
    NotZero(d, Denom(n), (n - 1) as real);
  }

  lemma PlaceOnce(lo: real, step: real, u: real, v: real)
    requires step != 0.0 && lo + u * step == lo + v * step
    ensures u == v
  {
    assert (u - v) * step == 0.0;
  }

  lemma OnePlace(g: Grid, p: Vect, u: real, v: real, u': real, v': real)
    requires Proper(g) && Wide(g) && AtPlace(g, p, u, v) && AtPlace(g, p, u', v')
    ensures u == u' && v == v'
  {
    NoStep(g.bb.r - g.bb.l, g.xSamples);
    NoStep(g.bb.t - g.bb.b, g.ySamples);
    PlaceOnce(g.bb.l, StepX(g), u, u');
    PlaceOnce(g.bb.b, StepY(g), v, v');
  }

  // ---- what is hit at a point ----

  /** What the edges and middles of g count at p. */
  function HitsAt(g: Grid, kind: Kind, p: Vect): Hits
    requires Proper(g)
  {
    Hits(
      (i, j, sign) => VerticalHit(kind, g.t, At(g, i, j), At(g, i, j + 1), X(g, i), Y(g, j), Y(g, j + 1), p, sign),
      (i, j, sign) => HorizontalHit(kind, g.t, At(g, i, j), At(g, i + 1, j), X(g, i), X(g, i + 1), Y(g, j), p, sign),
      (i, j) => MiddleHit(kind, CellAt(g, i, j), p))
  }

  function CellCounts(start: bool, g: Grid, kind: Kind, p: Vect): (nat, nat) -> nat
    requires Proper(g)
  {
    (i, j) => Count(start, CellSegments(kind, CellAt(g, i, j)), p)
  }

  lemma Allowed(start: bool, g: Grid, kind: Kind, p: Vect, i: nat, j: nat)
    requires Proper(g)
    ensures CellAllows(HitsAt(g, kind, p), CellCounts(start, g, kind, p), Sign(start), i, j)
  {
    CellCount(start, kind, CellAt(g, i, j), p);
  }

  lemma {:induction false} RowIs(start: bool, g: Grid, kind: Kind, p: Vect, j: nat, n: nat)
    requires Proper(g)
    ensures Count(start, RowSegments(g, kind, j, n), p) == RowSum(CellCounts(start, g, kind, p), j, n)
  {
    if n > 0 {
      RowIs(start, g, kind, p, j, n - 1);
      TwoCount(start, RowSegments(g, kind, j, n - 1), CellSegments(kind, CellAt(g, n - 1, j)), p);
    }
  }

  ghost predicate RowCounted(start: bool, g: Grid, kind: Kind, p: Vect, cell: (nat, nat) -> nat, j: nat)
    requires Proper(g)
  {
    Count(start, RowSegments(g, kind, j, g.xSamples - 1), p) == RowSum(cell, j, g.xSamples - 1)
  }

  ghost predicate GridCounted(start: bool, g: Grid, kind: Kind, p: Vect, cell: (nat, nat) -> nat, m: nat)
    requires Proper(g)
  {
    Count(start, GridSegments(g, kind, m), p) == GridSum(cell, g.xSamples - 1, m)
  }

  lemma {:induction false} GridIs(start: bool, g: Grid, kind: Kind, p: Vect, cell: (nat, nat) -> nat, m: nat)
    requires Proper(g)
    requires forall j: nat {:trigger RowCounted(start, g, kind, p, cell, j)} :: RowCounted(start, g, kind, p, cell, j)
    ensures GridCounted(start, g, kind, p, cell, m)
  {
    if m > 0 {
      GridIs(start, g, kind, p, cell, m - 1);
      assert RowCounted(start, g, kind, p, cell, m - 1);
      TwoCount(start, GridSegments(g, kind, m - 1), RowSegments(g, kind, m - 1, g.xSamples - 1), p);
    }
  }

  // ---- grids without branches ----

  /** How far along an edge a contour crosses it. */
  lemma CrossingPart(kind: Kind, s0: real, s1: real, t: real) returns (s: real)
    requires Crossing(s0, s1, t) != 0 && (kind.Soft? ==> s0 != t && s1 != t)
    ensures 0.0 < s < 1.0 && forall lo, hi :: Mid(kind, lo, hi, s0, s1, t) == Lerp(lo, hi, s)
  {
    s := if kind.Hard? then 0.5 else (t - s0) / (s1 - s0);
    if kind.Soft? {
      if s1 > s0 {
        Proportion(t - s0, s1 - s0, s);
      } else {
        assert s == (s0 - t) / (s0 - s1);
        Proportion(s0 - t, s0 - s1, s);
      }
    }
  }

  lemma Proportion(x: real, d: real, s: real)
    requires 0.0 < x < d && s == x / d
    ensures 0.0 < s < 1.0
  {
    assert s * d == x;
    assert s <= 0.0 ==> s * d <= 0.0;
    assert s >= 1.0 ==> (s - 1.0) * d >= 0.0;
  }

  lemma GridPlace(g: Grid, i: nat, j: nat)
    requires Proper(g)
    ensures X(g, i) == g.bb.l + i as real * StepX(g) && Y(g, j) == g.bb.b + j as real * StepY(g)
  {
    LerpPlace(g.bb.l, g.bb.r, i, Denom(g.xSamples), StepX(g));
    LerpPlace(g.bb.b, g.bb.t, j, Denom(g.ySamples), StepY(g));
  }

  lemma PartPlace(g: Grid, i: nat, j: nat, s: real)
    requires Proper(g)
    ensures Lerp(X(g, i), X(g, i + 1), s) == g.bb.l + (i as real + s) * StepX(g)
    ensures Lerp(Y(g, j), Y(g, j + 1), s) == g.bb.b + (j as real + s) * StepY(g)
  {
    GridPlace(g, i, j);
    GridPlace(g, i + 1, j + 1);
    BetweenPlace(g.bb.l, i, StepX(g), s, X(g, i), X(g, i + 1));
    BetweenPlace(g.bb.b, j, StepY(g), s, Y(g, j), Y(g, j + 1));
  }

  lemma VerticalPlace(g: Grid, kind: Kind, p: Vect, u: real, v: real, i: nat, j: nat, s0: real, s1: real)
    requires Proper(g) && Wide(g) && AtPlace(g, p, u, v) && Crossing(s0, s1, g.t) != 0
    requires (kind.Soft? ==> s0 != g.t && s1 != g.t) && p.x == X(g, i)
    requires p.y == Mid(kind, Y(g, j), Y(g, j + 1), s0, s1, g.t)
    ensures u == i as real && j as real < v < (j + 1) as real
  {
    var s := CrossingPart(kind, s0, s1, g.t);
    GridPlace(g, i, j);
    PartPlace(g, i, j, s);
    OnePlace(g, p, u, v, i as real, j as real + s);
  }

  lemma HorizontalPlace(g: Grid, kind: Kind, p: Vect, u: real, v: real, i: nat, j: nat, s0: real, s1: real)
    requires Proper(g) && Wide(g) && AtPlace(g, p, u, v) && Crossing(s0, s1, g.t) != 0
    requires (kind.Soft? ==> s0 != g.t && s1 != g.t) && p.y == Y(g, j)
    requires p.x == Mid(kind, X(g, i), X(g, i + 1), s0, s1, g.t)
    ensures i as real < u < (i + 1) as real && v == j as real
  {
    var s := CrossingPart(kind, s0, s1, g.t);
    GridPlace(g, i, j);
    PartPlace(g, i, j, s);
    OnePlace(g, p, u, v, i as real + s, j as real);
  }

  /** The vertical edge i of row j is crossed at p at most, and then p is part of it. */
  lemma VerticalLocated(g: Grid, kind: Kind, p: Vect, u: real, v: real, i: nat, j: nat)
    requires Proper(g) && Wide(g) && AtPlace(g, p, u, v)
    requires kind.Soft? ==> At(g, i, j) != g.t && At(g, i, j + 1) != g.t
    ensures VerticalAt(HitsAt(g, kind, p), u, v, i, j)
  {
    var s0, s1 := At(g, i, j), At(g, i, j + 1);
    if Crossing(s0, s1, g.t) != 0 && p == Vect(X(g, i), Mid(kind, Y(g, j), Y(g, j + 1), s0, s1, g.t)) {
      VerticalPlace(g, kind, p, u, v, i, j, s0, s1);
    }
  }

  lemma HorizontalLocated(g: Grid, kind: Kind, p: Vect, u: real, v: real, i: nat, j: nat)
    requires Proper(g) && Wide(g) && AtPlace(g, p, u, v)
    requires kind.Soft? ==> At(g, i, j) != g.t && At(g, i + 1, j) != g.t
    ensures HorizontalAt(HitsAt(g, kind, p), u, v, i, j)
  {
    var s0, s1 := At(g, i, j), At(g, i + 1, j);
    if Crossing(s0, s1, g.t) != 0 && p == Vect(Mid(kind, X(g, i), X(g, i + 1), s0, s1, g.t), Y(g, j)) {
      HorizontalPlace(g, kind, p, u, v, i, j, s0, s1);
    }
  }

  lemma MiddleLocated(g: Grid, kind: Kind, p: Vect, u: real, v: real, i: nat, j: nat)
    requires Proper(g) && Wide(g) && AtPlace(g, p, u, v) && (kind.Hard? ==> !Saddle(CellAt(g, i, j)))
    ensures MiddleAt(HitsAt(g, kind, p), u, v, i, j)
  {
    if p == Middle(CellAt(g, i, j)) {
      PartPlace(g, i, j, 0.5);
      OnePlace(g, p, u, v, i as real + 0.5, j as real + 0.5);
    }
  }

  /** Soft contours: no sample is on the threshold. */
  ghost predicate OffThreshold(g: Grid)
    requires Proper(g)
  {
    forall i: nat, j: nat {:trigger At(g, i, j)} :: i < g.xSamples && j < g.ySamples ==> At(g, i, j) != g.t
  }

  /** Hard contours: no cell is a saddle. */
  ghost predicate NoSaddle(g: Grid)
    requires Proper(g)
  {
    forall i: nat, j: nat {:trigger CellAt(g, i, j)} :: i < g.xSamples - 1 && j < g.ySamples - 1 ==>
      !Saddle(CellAt(g, i, j))
  }

  ghost predicate Branchless(g: Grid, kind: Kind)
    requires Proper(g)
  {
    Wide(g) && if kind.Soft? then OffThreshold(g) else NoSaddle(g)
  }

  lemma AllLocated(g: Grid, kind: Kind, p: Vect, u: real, v: real)
    requires Proper(g) && Branchless(g, kind) && AtPlace(g, p, u, v)
    ensures Located(HitsAt(g, kind, p), u, v, g.xSamples - 1, g.ySamples - 1)
  {
    var h, n, m := HitsAt(g, kind, p), g.xSamples - 1, g.ySamples - 1;
    forall i: nat, j: nat | i <= n && j < m ensures VerticalAt(h, u, v, i, j) {
      VerticalLocated(g, kind, p, u, v, i, j);
    }
    forall i: nat, j: nat | i < n && j <= m ensures HorizontalAt(h, u, v, i, j) {
      HorizontalLocated(g, kind, p, u, v, i, j);
    }
    forall i: nat, j: nat | i < n && j < m ensures MiddleAt(h, u, v, i, j) {
      MiddleLocated(g, kind, p, u, v, i, j);
    }
  }

  lemma SomePlace(g: Grid, p: Vect) returns (u: real, v: real)
    requires Proper(g) && Wide(g)
    ensures AtPlace(g, p, u, v)
  {
    NoStep(g.bb.r - g.bb.l, g.xSamples);
    NoStep(g.bb.t - g.bb.b, g.ySamples);
    u, v := (p.x - g.bb.l) / StepX(g), (p.y - g.bb.b) / StepY(g);
  }

  lemma AllAllowed(start: bool, g: Grid, kind: Kind, p: Vect)
    requires Proper(g)
    ensures AllAllow(HitsAt(g, kind, p), CellCounts(start, g, kind, p), Sign(start))
  {
    var h, cell := HitsAt(g, kind, p), CellCounts(start, g, kind, p);
    forall i: nat, j: nat ensures CellAllows(h, cell, Sign(start), i, j) {
      Allowed(start, g, kind, p, i, j);
    }
  }

  lemma CountedRow(start: bool, g: Grid, kind: Kind, p: Vect, j: nat)
    requires Proper(g)
    ensures RowCounted(start, g, kind, p, CellCounts(start, g, kind, p), j)
  {
    RowIs(start, g, kind, p, j, g.xSamples - 1);
  }

  lemma CountIs(start: bool, g: Grid, kind: Kind, p: Vect)
    requires Proper(g)
    ensures GridCounted(start, g, kind, p, CellCounts(start, g, kind, p), g.ySamples - 1)
  {
    var cell := CellCounts(start, g, kind, p);
    forall j: nat ensures RowCounted(start, g, kind, p, cell, j) {
      CountedRow(start, g, kind, p, j);
    }
    GridIs(start, g, kind, p, cell, g.ySamples - 1);
  }

  lemma SumOnce(start: bool, g: Grid, kind: Kind, p: Vect)
    requires Proper(g) && Branchless(g, kind)
    ensures GridSum(CellCounts(start, g, kind, p), g.xSamples - 1, g.ySamples - 1) <= 1
  {
    var u, v := SomePlace(g, p);
    AllLocated(g, kind, p, u, v);
    AllAllowed(start, g, kind, p);
    GridOnce(HitsAt(g, kind, p), CellCounts(start, g, kind, p), Sign(start), u, v, g.xSamples - 1, g.ySamples - 1);
  }

  lemma CountOnce(start: bool, g: Grid, kind: Kind, p: Vect)
    requires Proper(g) && Branchless(g, kind)
    ensures Count(start, GridSegments(g, kind, g.ySamples - 1), p) <= 1
  {
    CountIs(start, g, kind, p);
    SumOnce(start, g, kind, p);
  }

  /** Contours do not branch when the window is not empty and, soft, no sample is on the threshold, or, hard, no cell is
      a saddle. */
  lemma SimpleContours(g: Grid, kind: Kind)
    requires Proper(g) && Branchless(g, kind)
    ensures Polylines.Simple(GridSegments(g, kind, g.ySamples - 1))
  {
    var s := GridSegments(g, kind, g.ySamples - 1);
    forall p ensures Starts(s, p) <= 1 && Ends(s, p) <= 1 {
      CountOnce(true, g, kind, p);
      CountOnce(false, g, kind, p);
    }
  }

  // ---- hard contours branch at every saddle ----

  lemma SaddleTwice(k: Cell)
    requires Saddle(k) && k.x0 != k.x1 && k.y0 != k.y1
    ensures Starts(HardCell(k), Middle(k)) >= 2
  {
    var xm, ym := Lerp(k.x0, k.x1, 0.5), Lerp(k.y0, k.y1, 0.5);
    var left, right, below, above, mid := Vect(k.x0, ym), Vect(k.x1, ym), Vect(xm, k.y0), Vect(xm, k.y1), Vect(xm, ym);
    if Code(k) == 6 {
      TwoCount(true, Segs(below, mid, left), Segs(above, mid, right), mid);
      StartsInside(below, mid, left);
      StartsInside(above, mid, right);
    } else {
      TwoCount(true, Segs(right, mid, below), Segs(left, mid, above), mid);
      StartsInside(right, mid, below);
      StartsInside(left, mid, above);
    }
  }

  lemma StartsInside(a: Vect, b: Vect, c: Vect)
    requires a != b
    ensures Starts(Segs(a, b, c), b) >= 1
  {
    TwoCount(true, Seg(b, c), Seg(a, b), b);
    assert Seg(a, b)[0].from == b;
  }

  lemma {:induction false} InRow(cell: (nat, nat) -> nat, j: nat, i: nat, n: nat)
    requires i < n
    ensures RowSum(cell, j, n) >= cell(i, j)
  {
    if i < n - 1 {
      InRow(cell, j, i, n - 1);
    }
  }

  lemma {:induction false} InGrid(cell: (nat, nat) -> nat, i: nat, j: nat, n: nat, m: nat)
    requires i < n && j < m
    ensures GridSum(cell, n, m) >= cell(i, j)
  {
    if j < m - 1 {
      InGrid(cell, i, j, n, m - 1);
    } else {
      InRow(cell, j, i, n);
    }
  }

  lemma Counted(start: bool, g: Grid, kind: Kind, i: nat, j: nat, p: Vect, cell: (nat, nat) -> nat)
    requires Proper(g) && i < g.xSamples - 1 && j < g.ySamples - 1
    requires GridCounted(start, g, kind, p, cell, g.ySamples - 1)
    ensures Count(start, GridSegments(g, kind, g.ySamples - 1), p) >= cell(i, j)
  {
    InGrid(cell, i, j, g.xSamples - 1, g.ySamples - 1);
  }

  lemma CellIs(start: bool, g: Grid, kind: Kind, i: nat, j: nat, p: Vect)
    requires Proper(g)
    ensures CellCounts(start, g, kind, p)(i, j) == Count(start, CellSegments(kind, CellAt(g, i, j)), p)
  {
  }

  lemma InContours(start: bool, g: Grid, kind: Kind, i: nat, j: nat, p: Vect)
    requires Proper(g) && i < g.xSamples - 1 && j < g.ySamples - 1
    ensures Count(start, GridSegments(g, kind, g.ySamples - 1), p)
      >= Count(start, CellSegments(kind, CellAt(g, i, j)), p)
  {
    CountIs(start, g, kind, p);
    CellIs(start, g, kind, i, j, p);
    Counted(start, g, kind, i, j, p, CellCounts(start, g, kind, p));
  }

  lemma WideCell(g: Grid, i: nat, j: nat)
    requires Proper(g) && Wide(g)
    ensures X(g, i) != X(g, i + 1) && Y(g, j) != Y(g, j + 1)
  {
    NoStep(g.bb.r - g.bb.l, g.xSamples);
    NoStep(g.bb.t - g.bb.b, g.ySamples);
    GridPlace(g, i, j);
    GridPlace(g, i + 1, j + 1);
  }

  /** For hard contours that is exact. */
  lemma HardExactly(g: Grid)
    requires Proper(g) && Wide(g)
    ensures Polylines.Simple(GridSegments(g, Hard, g.ySamples - 1)) <==> NoSaddle(g)
  {
    if NoSaddle(g) {
      SimpleContours(g, Hard);
    } else {
      var i: nat, j: nat :| i < g.xSamples - 1 && j < g.ySamples - 1 && Saddle(CellAt(g, i, j));
      WideCell(g, i, j);
      SaddleTwice(CellAt(g, i, j));
      InContours(true, g, Hard, i, j, Middle(CellAt(g, i, j)));
    }
  }
}
