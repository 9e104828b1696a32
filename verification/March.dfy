/** Marching squares: the segments of one cell. */
module MarchCells {
  import opened Vectors

  /** A segment as it is reported. */
  datatype Segment = Segment(from: Vect, to: Vect)

  /** The samples at the corners of a cell (a, b below; c, d above), the threshold and the place of the cell. */
  datatype Cell = Cell(t: real, a: real, b: real, c: real, d: real, x0: real, x1: real, y0: real, y1: real)

  datatype Kind = Soft | Hard

  function Lerp(f1: real, f2: real, t: real): real {
    f1 * (1.0 - t) + f2 * t
  }

  function Midlerp(x0: real, x1: real, s0: real, s1: real, t: real): real
    requires s0 != s1
  {
    Lerp(x0, x1, (t - s0) / (s1 - s0))
  }

  function Seg(v0: Vect, v1: Vect): seq<Segment> {
    if v0 != v1 then [Segment(v1, v0)] else []
  }

  function Segs(a: Vect, b: Vect, c: Vect): seq<Segment> {
    Seg(b, c) + Seg(a, b)
  }

  /** Which corners are above the threshold, as a number. */
  function Code(k: Cell): nat {
    (if k.a > k.t then 1 else 0) + (if k.b > k.t then 2 else 0) + (if k.c > k.t then 4 else 0)
      + (if k.d > k.t then 8 else 0)
  }

  function SoftCell(k: Cell): seq<Segment> {
    match Code(k)
    case 1 => Seg(Vect(k.x0, Midlerp(k.y0, k.y1, k.a, k.c, k.t)), Vect(Midlerp(k.x0, k.x1, k.a, k.b, k.t), k.y0))
    case 2 => Seg(Vect(Midlerp(k.x0, k.x1, k.a, k.b, k.t), k.y0), Vect(k.x1, Midlerp(k.y0, k.y1, k.b, k.d, k.t)))
    case 3 => Seg(Vect(k.x0, Midlerp(k.y0, k.y1, k.a, k.c, k.t)), Vect(k.x1, Midlerp(k.y0, k.y1, k.b, k.d, k.t)))
    case 4 => Seg(Vect(Midlerp(k.x0, k.x1, k.c, k.d, k.t), k.y1), Vect(k.x0, Midlerp(k.y0, k.y1, k.a, k.c, k.t)))
    case 5 => Seg(Vect(Midlerp(k.x0, k.x1, k.c, k.d, k.t), k.y1), Vect(Midlerp(k.x0, k.x1, k.a, k.b, k.t), k.y0))
    case 6 =>
      Seg(Vect(Midlerp(k.x0, k.x1, k.a, k.b, k.t), k.y0), Vect(k.x1, Midlerp(k.y0, k.y1, k.b, k.d, k.t))) +
      Seg(Vect(Midlerp(k.x0, k.x1, k.c, k.d, k.t), k.y1), Vect(k.x0, Midlerp(k.y0, k.y1, k.a, k.c, k.t)))
    case 7 => Seg(Vect(Midlerp(k.x0, k.x1, k.c, k.d, k.t), k.y1), Vect(k.x1, Midlerp(k.y0, k.y1, k.b, k.d, k.t)))
    case 8 => Seg(Vect(k.x1, Midlerp(k.y0, k.y1, k.b, k.d, k.t)), Vect(Midlerp(k.x0, k.x1, k.c, k.d, k.t), k.y1))
    case 9 =>
      Seg(Vect(k.x0, Midlerp(k.y0, k.y1, k.a, k.c, k.t)), Vect(Midlerp(k.x0, k.x1, k.a, k.b, k.t), k.y0)) +
      Seg(Vect(k.x1, Midlerp(k.y0, k.y1, k.b, k.d, k.t)), Vect(Midlerp(k.x0, k.x1, k.c, k.d, k.t), k.y1))
    case 10 => Seg(Vect(Midlerp(k.x0, k.x1, k.a, k.b, k.t), k.y0), Vect(Midlerp(k.x0, k.x1, k.c, k.d, k.t), k.y1))
    case 11 => Seg(Vect(k.x0, Midlerp(k.y0, k.y1, k.a, k.c, k.t)), Vect(Midlerp(k.x0, k.x1, k.c, k.d, k.t), k.y1))
    case 12 => Seg(Vect(k.x1, Midlerp(k.y0, k.y1, k.b, k.d, k.t)), Vect(k.x0, Midlerp(k.y0, k.y1, k.a, k.c, k.t)))
    case 13 => Seg(Vect(k.x1, Midlerp(k.y0, k.y1, k.b, k.d, k.t)), Vect(Midlerp(k.x0, k.x1, k.a, k.b, k.t), k.y0))
    case 14 => Seg(Vect(Midlerp(k.x0, k.x1, k.a, k.b, k.t), k.y0), Vect(k.x0, Midlerp(k.y0, k.y1, k.a, k.c, k.t)))
    case _ => []
  }

  function HardCell(k: Cell): seq<Segment> {
    var xm, ym := Lerp(k.x0, k.x1, 0.5), Lerp(k.y0, k.y1, 0.5);
    var left, right, below, above, mid := Vect(k.x0, ym), Vect(k.x1, ym), Vect(xm, k.y0), Vect(xm, k.y1), Vect(xm, ym);
    match Code(k)
    case 1 => Segs(left, mid, below)
    case 2 => Segs(below, mid, right)
    case 3 => Seg(left, right)
    case 4 => Segs(above, mid, left)
    case 5 => Seg(above, below)
    case 6 => Segs(below, mid, left) + Segs(above, mid, right)
    case 7 => Segs(above, mid, right)
    case 8 => Segs(right, mid, above)
    case 9 => Segs(right, mid, below) + Segs(left, mid, above)
    case 10 => Seg(below, above)
    case 11 => Segs(left, mid, above)
    case 12 => Seg(right, left)
    case 13 => Segs(right, mid, below)
    case 14 => Segs(below, mid, left)
    case _ => []
  }

  function CellSegments(kind: Kind, k: Cell): seq<Segment> {
    if kind.Soft? then SoftCell(k) else HardCell(k)
  }

  // ---- how many segments start and end at a point ----

  function Starts(s: seq<Segment>, p: Vect): nat {
    if s == [] then 0 else (if s[0].from == p then 1 else 0) + Starts(s[1..], p)
  }

  function Ends(s: seq<Segment>, p: Vect): nat {
    if s == [] then 0 else (if s[0].to == p then 1 else 0) + Ends(s[1..], p)
  }

  function Net(s: seq<Segment>, p: Vect): int {
    Starts(s, p) - Ends(s, p)
  }

  lemma {:induction false} NetConcat(s: seq<Segment>, r: seq<Segment>, p: Vect)
    ensures Net(s + r, p) == Net(s, p) + Net(r, p)
  {
    if s == [] {
      assert s + r == r;
    } else {
      assert (s + r)[1..] == s[1..] + r;
      NetConcat(s[1..], r, p);
    }
  }

  function One(p: Vect, q: Vect): int {
    if p == q then 1 else 0
  }

  lemma SegNet(v0: Vect, v1: Vect, p: Vect)
    ensures Net(Seg(v0, v1), p) == One(p, v1) - One(p, v0)
  {
    var s := Seg(v0, v1);
    if v0 != v1 {
      assert s[1..] == [] && Starts(s[1..], p) == 0 && Ends(s[1..], p) == 0;
    }
  }

  lemma SegsNet(a: Vect, b: Vect, c: Vect, p: Vect)
    ensures Net(Segs(a, b, c), p) == One(p, c) - One(p, a)
  {
    NetConcat(Seg(b, c), Seg(a, b), p);
    SegNet(b, c, p);
    SegNet(a, b, p);
  }

  /** 1 when only the first sample is above the threshold, -1 when only the second one is. */
  function Crossing(s0: real, s1: real, t: real): int {
    (if s0 > t then 1 else 0) - (if s1 > t then 1 else 0)
  }

  /** Where a contour crosses an edge. */
  function Mid(kind: Kind, x0: real, x1: real, s0: real, s1: real, t: real): real
    requires Crossing(s0, s1, t) != 0
  {
    if kind.Soft? then Midlerp(x0, x1, s0, s1, t) else Lerp(x0, x1, 0.5)
  }

  /** The contribution of the vertical edge at x to point p. */
  function Vertical(kind: Kind, t: real, s0: real, s1: real, x: real, y0: real, y1: real, p: Vect): int {
    if Crossing(s0, s1, t) == 0 then 0 else Crossing(s0, s1, t) * One(p, Vect(x, Mid(kind, y0, y1, s0, s1, t)))
  }

  function Horizontal(kind: Kind, t: real, s0: real, s1: real, x0: real, x1: real, y: real, p: Vect): int {
    if Crossing(s0, s1, t) == 0 then 0 else Crossing(s0, s1, t) * One(p, Vect(Mid(kind, x0, x1, s0, s1, t), y))
  }

  /** What a cell adds at a point is decided on its four edges. */
  function EdgeSum(kind: Kind, k: Cell, p: Vect): int {
    Vertical(kind, k.t, k.b, k.d, k.x1, k.y0, k.y1, p) - Vertical(kind, k.t, k.a, k.c, k.x0, k.y0, k.y1, p)
    + Horizontal(kind, k.t, k.a, k.b, k.x0, k.x1, k.y0, p) - Horizontal(kind, k.t, k.c, k.d, k.x0, k.x1, k.y1, p)
  }

  lemma SegNets(p: Vect)
    ensures forall v0, v1 {:trigger Seg(v0, v1)} :: Net(Seg(v0, v1), p) == One(p, v1) - One(p, v0)
  {
    forall v0, v1 ensures Net(Seg(v0, v1), p) == One(p, v1) - One(p, v0) {
      SegNet(v0, v1, p);
    }
  }

  lemma SegsNets(p: Vect)
    ensures forall a, b, c {:trigger Segs(a, b, c)} :: Net(Segs(a, b, c), p) == One(p, c) - One(p, a)
  {
    forall a, b, c ensures Net(Segs(a, b, c), p) == One(p, c) - One(p, a) {
      SegsNet(a, b, c, p);
    }
  }

  lemma SoftNetLow(k: Cell, p: Vect)
    requires Code(k) < 6
    ensures Net(SoftCell(k), p) == EdgeSum(Soft, k, p)
  {
    SegNets(p);
  }

  lemma SoftNetTwo(k: Cell, p: Vect)
    requires Code(k) == 6 || Code(k) == 9
    ensures Net(SoftCell(k), p) == EdgeSum(Soft, k, p)
  {
    SegNets(p);
    if Code(k) == 6 {
      NetConcat(
        Seg(Vect(Midlerp(k.x0, k.x1, k.a, k.b, k.t), k.y0), Vect(k.x1, Midlerp(k.y0, k.y1, k.b, k.d, k.t))),
        Seg(Vect(Midlerp(k.x0, k.x1, k.c, k.d, k.t), k.y1), Vect(k.x0, Midlerp(k.y0, k.y1, k.a, k.c, k.t))), p);
    } else {
      NetConcat(
        Seg(Vect(k.x0, Midlerp(k.y0, k.y1, k.a, k.c, k.t)), Vect(Midlerp(k.x0, k.x1, k.a, k.b, k.t), k.y0)),
        Seg(Vect(k.x1, Midlerp(k.y0, k.y1, k.b, k.d, k.t)), Vect(Midlerp(k.x0, k.x1, k.c, k.d, k.t), k.y1)), p);
    }
  }

  lemma SoftNetHigh(k: Cell, p: Vect)
    requires Code(k) > 6 && Code(k) != 9
    ensures Net(SoftCell(k), p) == EdgeSum(Soft, k, p)
  {
    SegNets(p);
  }

  lemma HardNetLow(k: Cell, p: Vect)
    requires Code(k) < 6
    ensures Net(HardCell(k), p) == EdgeSum(Hard, k, p)
  {
    SegNets(p);
    SegsNets(p);
  }

  lemma HardNetTwo(k: Cell, p: Vect)
    requires Code(k) == 6 || Code(k) == 9
    ensures Net(HardCell(k), p) == EdgeSum(Hard, k, p)
  {
    SegsNets(p);
    var xm, ym := Lerp(k.x0, k.x1, 0.5), Lerp(k.y0, k.y1, 0.5);
    var left, right, below, above, mid := Vect(k.x0, ym), Vect(k.x1, ym), Vect(xm, k.y0), Vect(xm, k.y1), Vect(xm, ym);
    if Code(k) == 6 {
      NetConcat(Segs(below, mid, left), Segs(above, mid, right), p);
    } else {
      NetConcat(Segs(right, mid, below), Segs(left, mid, above), p);
    }
  }

  lemma HardNetHigh(k: Cell, p: Vect)
    requires Code(k) > 6 && Code(k) != 9
    ensures Net(HardCell(k), p) == EdgeSum(Hard, k, p)
  {
    SegNets(p);
    SegsNets(p);
  }

  /** Soft and hard cells agree on this, whatever they draw inside. */
  lemma CellNet(kind: Kind, k: Cell, p: Vect)
    ensures Net(CellSegments(kind, k), p) == EdgeSum(kind, k, p)
  {
    match kind
    case Soft =>
      if Code(k) < 6 { SoftNetLow(k, p); } else if Code(k) == 6 || Code(k) == 9 { SoftNetTwo(k, p); }
        else { SoftNetHigh(k, p); }
    case Hard =>
      if Code(k) < 6 { HardNetLow(k, p); } else if Code(k) == 6 || Code(k) == 9 { HardNetTwo(k, p); }
        else { HardNetHigh(k, p); }
  }
}

/** The grid: the loop with its buffer of one row, and what follows for the contours. */
module MarchingSquares {
  import opened Crossings
  import opened Vectors
  import opened MarchCells
  import opened Boxes

  /** The window, the number of samples in each direction, the threshold and what is sampled. */
  datatype Grid = Grid(bb: BB, xSamples: nat, ySamples: nat, t: real, sample: Vect -> real)

  /** The distance of two of n samples over a window of width 1. */
  function Denom(n: nat): real
    requires n >= 2
  {
    1.0 / (n - 1) as real
  }

  function LerpAt(lo: real, hi: real, i: nat, denom: real): real {
    Lerp(lo, hi, i as real * denom)
  }

  function X(g: Grid, i: nat): real
    requires g.xSamples >= 2
  {
    LerpAt(g.bb.l, g.bb.r, i, Denom(g.xSamples))
  }

  function Y(g: Grid, j: nat): real
    requires g.ySamples >= 2
  {
    LerpAt(g.bb.b, g.bb.t, j, Denom(g.ySamples))
  }

  predicate Proper(g: Grid) {
    g.xSamples >= 2 && g.ySamples >= 2
  }

  function Point(g: Grid, i: nat, j: nat): Vect
    requires Proper(g)
  {
    Vect(X(g, i), Y(g, j))
  }

  function At(g: Grid, i: nat, j: nat): real
    requires Proper(g)
  {
    g.sample(Point(g, i, j))
  }

  /** Cell i of row j, evaluated directly. */
  function CellAt(g: Grid, i: nat, j: nat): Cell
    requires Proper(g)
  {
    Cell(g.t, At(g, i, j), At(g, i + 1, j), At(g, i, j + 1), At(g, i + 1, j + 1), X(g, i), X(g, i + 1), Y(g, j),
      Y(g, j + 1))
  }

  /** The segments of every cell. */
  type Cells = (nat, nat) -> seq<Segment>

  function CellsOf(g: Grid, kind: Kind): Cells
    requires Proper(g)
  {
    (i: nat, j: nat) => CellSegments(kind, CellAt(g, i, j))
  }

  function RowOf(cells: Cells, j: nat, n: nat): seq<Segment> {
    if n == 0 then [] else RowOf(cells, j, n - 1) + cells(n - 1, j)
  }

  function RowsOf(cells: Cells, n: nat, m: nat): seq<Segment> {
    if m == 0 then [] else RowsOf(cells, n, m - 1) + RowOf(cells, m - 1, n)
  }

  /** The segments of the first n cells of row j. */
  function RowSegments(g: Grid, kind: Kind, j: nat, n: nat): seq<Segment>
    requires Proper(g)
  {
    RowOf(CellsOf(g, kind), j, n)
  }

  /** The segments of the first m rows. */
  function GridSegments(g: Grid, kind: Kind, m: nat): seq<Segment>
    requires Proper(g)
  {
    RowsOf(CellsOf(g, kind), g.xSamples - 1, m)
  }

  /** The first n grid points of row j. */
  function RowPoints(g: Grid, j: nat, n: nat): seq<Vect>
    requires Proper(g)
  {
    seq(n, i requires 0 <= i < n => Point(g, i, j))
  }

  /** The points of the first m rows, row by row. */
  function GridPoints(g: Grid, m: nat): seq<Vect>
    requires Proper(g)
  {
    if m == 0 then [] else GridPoints(g, m - 1) + RowPoints(g, m - 1, g.xSamples)
  }

  lemma Corner(g: Grid)
    requires Proper(g)
    ensures X(g, 0) == g.bb.l && Y(g, 0) == g.bb.b
  {
  }

  lemma Quotient(n: real)
    requires n > 0.0
    ensures n * (1.0 / n) == 1.0
  {
  }

  lemma FarCorner(g: Grid)
    requires Proper(g)
    ensures X(g, g.xSamples - 1) == g.bb.r && Y(g, g.ySamples - 1) == g.bb.t
  {
    Quotient((g.xSamples - 1) as real);
    Quotient((g.ySamples - 1) as real);
  }

  // ---- what is sampled, and what the segments mean ----

  /** v is the grid point i columns from the left and j rows from below, of evenly spaced columns and rows. */
  predicate IsGridPoint(g: Grid, i: nat, j: nat, v: Vect) {
    && i < g.xSamples && j < g.ySamples
    && v.x * (g.xSamples - 1) as real == g.bb.l * (g.xSamples - 1 - i) as real + g.bb.r * i as real
    && v.y * (g.ySamples - 1) as real == g.bb.b * (g.ySamples - 1 - j) as real + g.bb.t * j as real
  }

  lemma Evenly(lo: real, hi: real, i: nat, n: nat)
    requires n >= 2 && i < n
    ensures LerpAt(lo, hi, i, Denom(n)) * (n - 1) as real == lo * (n - 1 - i) as real + hi * i as real
  {
    var m := (n - 1) as real;
    Quotient(m);
    Spread(lo, hi, i as real, m, 1.0 / m);
  }

  lemma Spread(lo: real, hi: real, i: real, m: real, q: real)
    requires m * q == 1.0
    ensures (lo * (1.0 - i * q) + hi * (i * q)) * m == lo * (m - i) + hi * i
  {
    assert (i * q) * m == i;
    assert (lo * (1.0 - i * q)) * m == lo * (m - (i * q) * m);
    assert (hi * (i * q)) * m == hi * ((i * q) * m);
  }

  lemma PointIs(g: Grid, i: nat, j: nat)
    requires Proper(g) && i < g.xSamples && j < g.ySamples
    ensures IsGridPoint(g, i, j, Point(g, i, j))
  {
    Evenly(g.bb.l, g.bb.r, i, g.xSamples);
    Evenly(g.bb.b, g.bb.t, j, g.ySamples);
  }

  /** k is the cell whose lower left corner is grid point (i, j), with the samples at its corners. */
  predicate IsCell(g: Grid, i: nat, j: nat, k: Cell) {
    && IsGridPoint(g, i, j, Vect(k.x0, k.y0)) && IsGridPoint(g, i + 1, j + 1, Vect(k.x1, k.y1)) && k.t == g.t
    && k.a == g.sample(Vect(k.x0, k.y0)) && k.b == g.sample(Vect(k.x1, k.y0))
    && k.c == g.sample(Vect(k.x0, k.y1)) && k.d == g.sample(Vect(k.x1, k.y1))
  }

  /** s crosses some cell of the grid as a contour of this kind does. */
  ghost predicate OfSomeCell(g: Grid, kind: Kind, s: Segment) {
    exists i, j, k :: IsCell(g, i, j, k) && if kind.Soft? then SoftSegment(k, s) else HardSegment(k, s)
  }

  ghost predicate AllOfCells(g: Grid, kind: Kind, segments: seq<Segment>) {
    forall s :: s in segments ==> OfSomeCell(g, kind, s)
  }

  lemma CellMeaning(g: Grid, kind: Kind, i: nat, j: nat)
    requires Proper(g) && i + 1 < g.xSamples && j + 1 < g.ySamples
    ensures AllOfCells(g, kind, CellSegments(kind, CellAt(g, i, j)))
  {
    var k := CellAt(g, i, j);
    PointIs(g, i, j);
    PointIs(g, i + 1, j + 1);
    assert IsCell(g, i, j, k);
    SoftSegments(k);
    HardSegments(k);
  }

  ghost predicate AllIn(segments: seq<Segment>, ok: iset<Segment>) {
    forall s :: s in segments ==> s in ok
  }

  ghost predicate CellIn(cells: Cells, i: nat, j: nat, ok: iset<Segment>) {
    AllIn(cells(i, j), ok)
  }

  ghost predicate CellsIn(cells: Cells, n: nat, m: nat, ok: iset<Segment>) {
    forall i: nat, j: nat {:trigger CellIn(cells, i, j, ok)} :: i < n && j < m ==> CellIn(cells, i, j, ok)
  }

  lemma BothIn(r: seq<Segment>, s: seq<Segment>, ok: iset<Segment>)
    requires AllIn(r, ok) && AllIn(s, ok)
    ensures AllIn(r + s, ok)
  {
  }

  /** What holds of the segments of every cell holds of all that are reported. */
  lemma {:induction false} RowIn(cells: Cells, j: nat, n: nat, m: nat, w: nat, ok: iset<Segment>)
    requires n <= w && j < m && CellsIn(cells, w, m, ok)
    ensures AllIn(RowOf(cells, j, n), ok)
  {
    if n > 0 {
      RowIn(cells, j, n - 1, m, w, ok);
      assert CellIn(cells, n - 1, j, ok);
      BothIn(RowOf(cells, j, n - 1), cells(n - 1, j), ok);
    }
  }

  lemma {:induction false} RowsIn(cells: Cells, n: nat, m: nat, h: nat, ok: iset<Segment>)
    requires m <= h && CellsIn(cells, n, h, ok)
    ensures AllIn(RowsOf(cells, n, m), ok)
  {
    if m > 0 {
      RowsIn(cells, n, m - 1, h, ok);
      RowIn(cells, m - 1, n, h, n, ok);
      BothIn(RowsOf(cells, n, m - 1), RowOf(cells, m - 1, n), ok);
    }
  }

  /** Every segment of the grid belongs to a cell and crosses it between places where the samples, interpolated along an
      edge, equal the threshold (soft), or at right angles between the middles of crossed edges (hard). */
  lemma GridMeaning(g: Grid, kind: Kind, segments: seq<Segment>)
    requires Proper(g) && segments == GridSegments(g, kind, g.ySamples - 1)
    ensures AllOfCells(g, kind, segments)
  {
    var cells, ok := CellsOf(g, kind), iset s | OfSomeCell(g, kind, s);
    forall i: nat, j: nat | i < g.xSamples - 1 && j < g.ySamples - 1 ensures CellIn(cells, i, j, ok) {
      CellMeaning(g, kind, i, j);
    }
    RowsIn(cells, g.xSamples - 1, g.ySamples - 1, g.ySamples - 1, ok);
    InIsOf(g, kind, segments, ok);
  }

  /** The contours meet every crossed edge of the cell at (i, j). */
  ghost predicate CoveredAt(g: Grid, kind: Kind, segments: seq<Segment>, i: nat, j: nat) {
    exists k :: IsCell(g, i, j, k) && (UprightCell(k) ==> Met(kind, k, segments))
  }

  ghost predicate AllCovered(g: Grid, kind: Kind, segments: seq<Segment>) {
    forall i: nat, j: nat {:trigger CoveredAt(g, kind, segments, i, j)} ::
      i + 1 < g.xSamples && j + 1 < g.ySamples ==> CoveredAt(g, kind, segments, i, j)
  }

  lemma HalvesIn(r: seq<Segment>, s: seq<Segment>, all: iset<Segment>)
    requires AllIn(r + s, all)
    ensures AllIn(r, all) && AllIn(s, all)
  {
    forall x | x in r || x in s ensures x in all {
      assert x in r + s;
    }
  }

  /** What holds of all segments of a row holds of those of its cells. */
  lemma {:induction false} CellOfRow(cells: Cells, i: nat, j: nat, n: nat, all: iset<Segment>)
    requires i < n && AllIn(RowOf(cells, j, n), all)
    ensures AllIn(cells(i, j), all)
  {
    HalvesIn(RowOf(cells, j, n - 1), cells(n - 1, j), all);
    if i < n - 1 {
      CellOfRow(cells, i, j, n - 1, all);
    }
  }

  lemma {:induction false} CellOfRows(cells: Cells, i: nat, j: nat, n: nat, m: nat, all: iset<Segment>)
    requires i < n && j < m && AllIn(RowsOf(cells, n, m), all)
    ensures AllIn(cells(i, j), all)
  {
    HalvesIn(RowsOf(cells, n, m - 1), RowOf(cells, m - 1, n), all);
    if j < m - 1 {
      CellOfRows(cells, i, j, n, m - 1, all);
    } else {
      CellOfRow(cells, i, j, n, all);
    }
  }

  /** No crossing of any cell is left out. */
  lemma GridCovers(g: Grid, kind: Kind, segments: seq<Segment>)
    requires Proper(g) && segments == GridSegments(g, kind, g.ySamples - 1)
    ensures AllCovered(g, kind, segments)
  {
    forall i: nat, j: nat | i + 1 < g.xSamples && j + 1 < g.ySamples ensures CoveredAt(g, kind, segments, i, j) {
      CellCovered(g, kind, segments, i, j);
    }
  }

  lemma CellCovered(g: Grid, kind: Kind, segments: seq<Segment>, i: nat, j: nat)
    requires Proper(g) && segments == GridSegments(g, kind, g.ySamples - 1)
    requires i + 1 < g.xSamples && j + 1 < g.ySamples
    ensures CoveredAt(g, kind, segments, i, j)
  {
    var k := CellAt(g, i, j);
    PointIs(g, i, j);
    PointIs(g, i + 1, j + 1);
    assert IsCell(g, i, j, k);
    if UprightCell(k) {
      SoftMet(k);
      HardMet(k);
      CellOfRows(CellsOf(g, kind), i, j, g.xSamples - 1, g.ySamples - 1, iset s | s in segments);
      MetMore(kind, k, CellSegments(kind, k), segments);
    }
  }

  lemma InIsOf(g: Grid, kind: Kind, segments: seq<Segment>, ok: iset<Segment>)
    requires AllIn(segments, ok) && forall s :: s in ok ==> OfSomeCell(g, kind, s)
    ensures AllOfCells(g, kind, segments)
  {
  }

  /** What has been reported and sampled before row j. */
  ghost predicate Marched(g: Grid, kind: Kind, j: nat, segments: seq<Segment>, sampled: seq<Vect>)
    requires Proper(g)
  {
    segments == GridSegments(g, kind, j) && sampled == GridPoints(g, j + 1)
  }

  lemma MarchedRow(g: Grid, kind: Kind, j: nat, segments: seq<Segment>, sampled: seq<Vect>,
                   rowSegments: seq<Segment>, rowSampled: seq<Vect>)
    requires Proper(g) && Marched(g, kind, j, segments, sampled)
    requires rowSegments == RowSegments(g, kind, j, g.xSamples - 1) && rowSampled == RowPoints(g, j + 1, g.xSamples)
    ensures Marched(g, kind, j + 1, segments + rowSegments, sampled + rowSampled)
  {
  }

  /** The points are sampled row by row from below, each row from the left. */
  lemma {:induction false} SampledAre(g: Grid, m: nat, i: nat, j: nat)
    requires Proper(g) && m <= g.ySamples && i < g.xSamples && j < m
    ensures |GridPoints(g, m)| == m * g.xSamples && j * g.xSamples + i < |GridPoints(g, m)|
    ensures IsGridPoint(g, i, j, GridPoints(g, m)[j * g.xSamples + i])
  {
    GridPointsCount(g, m - 1);
    GridPointsCount(g, m);
    if j < m - 1 {
      SampledAre(g, m - 1, i, j);
    } else {
      PointIs(g, i, j);
    }
  }

  lemma {:induction false} GridPointsCount(g: Grid, m: nat)
    requires Proper(g)
    ensures |GridPoints(g, m)| == m * g.xSamples
  {
    if m > 0 {
      GridPointsCount(g, m - 1);
    }
  }

  // ---- contours have no loose ends inside ----

  function VerticalAt(g: Grid, kind: Kind, i: nat, j: nat, p: Vect): int
    requires Proper(g)
  {
    Vertical(kind, g.t, At(g, i, j), At(g, i, j + 1), X(g, i), Y(g, j), Y(g, j + 1), p)
  }

  function HorizontalAt(g: Grid, kind: Kind, i: nat, j: nat, p: Vect): int
    requires Proper(g)
  {
    Horizontal(kind, g.t, At(g, i, j), At(g, i + 1, j), X(g, i), X(g, i + 1), Y(g, j), p)
  }

  /** The first n horizontal edges at height j. */
  function HorizontalSum(g: Grid, kind: Kind, j: nat, n: nat, p: Vect): int
    requires Proper(g)
  {
    if n == 0 then 0 else HorizontalSum(g, kind, j, n - 1, p) + HorizontalAt(g, kind, n - 1, j, p)
  }

  /** In a row the inner vertical edges cancel. */
  lemma {:induction false} RowNet(g: Grid, kind: Kind, j: nat, n: nat, p: Vect)
    requires Proper(g)
    ensures Net(RowSegments(g, kind, j, n), p) ==
      VerticalAt(g, kind, n, j, p) - VerticalAt(g, kind, 0, j, p)
        + HorizontalSum(g, kind, j, n, p) - HorizontalSum(g, kind, j + 1, n, p)
  {
    if n > 0 {
      RowNet(g, kind, j, n - 1, p);
      NetConcat(RowSegments(g, kind, j, n - 1), CellSegments(kind, CellAt(g, n - 1, j)), p);
      CellNet(kind, CellAt(g, n - 1, j), p);
    }
  }

  /** The vertical edges on the left and right border of the first m rows. */
  function BorderSum(g: Grid, kind: Kind, m: nat, p: Vect): int
    requires Proper(g)
  {
    if m == 0 then 0 else
      BorderSum(g, kind, m - 1, p)
      + VerticalAt(g, kind, g.xSamples - 1, m - 1, p) - VerticalAt(g, kind, 0, m - 1, p)
  }

  lemma BorderNext(g: Grid, kind: Kind, j: nat, p: Vect, left: int, right: int)
    requires Proper(g) && left == VerticalAt(g, kind, 0, j, p) && right == VerticalAt(g, kind, g.xSamples - 1, j, p)
    ensures BorderSum(g, kind, j + 1, p) == BorderSum(g, kind, j, p) + right - left
  {
  }

  lemma AddNets(before: seq<Segment>, row: seq<Segment>, p: Vect, border: int, sides: int, h0: int, h1: int, h2: int)
    requires Net(before, p) == border + h0 - h1 && Net(row, p) == sides + h1 - h2
    ensures Net(before + row, p) == border + sides + h0 - h2
  {
    NetConcat(before, row, p);
  }

  lemma GridNext(g: Grid, kind: Kind, m: nat, p: Vect, border: int, h0: int, h1: int, h2: int)
    requires Proper(g) && border == BorderSum(g, kind, m, p) && h1 == HorizontalSum(g, kind, m, g.xSamples - 1, p)
    requires h2 == HorizontalSum(g, kind, m + 1, g.xSamples - 1, p)
    requires Net(GridSegments(g, kind, m), p) == border + h0 - h1
    ensures Net(GridSegments(g, kind, m + 1), p) == BorderSum(g, kind, m + 1, p) + h0 - h2
  {
    var left, right := VerticalAt(g, kind, 0, m, p), VerticalAt(g, kind, g.xSamples - 1, m, p);
    RowNet(g, kind, m, g.xSamples - 1, p);
    BorderNext(g, kind, m, p, left, right);
    AddNets(GridSegments(g, kind, m), RowSegments(g, kind, m, g.xSamples - 1), p, border, right - left, h0, h1, h2);
  }

  /** Between rows the inner horizontal edges cancel: only the border of the window is left. */
  lemma {:induction false} GridNet(g: Grid, kind: Kind, m: nat, p: Vect)
    requires Proper(g)
    ensures Net(GridSegments(g, kind, m), p) ==
      BorderSum(g, kind, m, p)
        + HorizontalSum(g, kind, 0, g.xSamples - 1, p) - HorizontalSum(g, kind, m, g.xSamples - 1, p)
  {
    if m > 0 {
      GridNet(g, kind, m - 1, p);
      GridNext(g, kind, m - 1, p, BorderSum(g, kind, m - 1, p), HorizontalSum(g, kind, 0, g.xSamples - 1, p),
        HorizontalSum(g, kind, m - 1, g.xSamples - 1, p), HorizontalSum(g, kind, m, g.xSamples - 1, p));
    }
  }

  lemma {:induction false} OffBorder(g: Grid, kind: Kind, m: nat, p: Vect)
    requires Proper(g) && p.x != g.bb.l && p.x != g.bb.r
    ensures BorderSum(g, kind, m, p) == 0
  {
    Corner(g);
    FarCorner(g);
    if m > 0 {
      OffBorder(g, kind, m - 1, p);
    }
  }

  lemma {:induction false} OffHeight(g: Grid, kind: Kind, j: nat, n: nat, p: Vect)
    requires Proper(g) && p.y != Y(g, j)
    ensures HorizontalSum(g, kind, j, n, p) == 0
  {
    if n > 0 {
      OffHeight(g, kind, j, n - 1, p);
    }
  }

  /** At every point off the border of the window as many segments start as end. */
  lemma NoLooseEnds(g: Grid, kind: Kind, p: Vect)
    requires Proper(g) && p.x != g.bb.l && p.x != g.bb.r && p.y != g.bb.b && p.y != g.bb.t
    ensures Starts(GridSegments(g, kind, g.ySamples - 1), p) == Ends(GridSegments(g, kind, g.ySamples - 1), p)
  {
    GridNet(g, kind, g.ySamples - 1, p);
    Corner(g);
    FarCorner(g);
    OffBorder(g, kind, g.ySamples - 1, p);
    OffHeight(g, kind, 0, g.xSamples - 1, p);
    OffHeight(g, kind, g.ySamples - 1, g.xSamples - 1, p);
  }

  // ---- the loop ----

  /** The samples held in the buffer: the first n of row j + 1, then the rest of row j. */
  ghost predicate Buffered(g: Grid, buffer: array<real>, j: nat, n: nat)
    requires Proper(g)
    reads buffer
  {
    buffer.Length == g.xSamples && forall i :: 0 <= i < g.xSamples ==> buffer[i] == At(g, i, if i < n then j + 1 else j)
  }

  /** Samples every grid point once, row by row, and reports the segments of every cell. */
  method MarchGrid(g: Grid, kind: Kind) returns (segments: seq<Segment>, sampled: seq<Vect>)
    requires Proper(g)
    ensures segments == GridSegments(g, kind, g.ySamples - 1)
    ensures AllOfCells(g, kind, segments) && AllCovered(g, kind, segments)
    ensures sampled == GridPoints(g, g.ySamples)
  {
    segments, sampled := MarchRows(g, kind);
    GridMeaning(g, kind, segments);
    GridCovers(g, kind, segments);
  }

  /** The loop over the rows, which soft and hard contours share. */
  method MarchRows(g: Grid, kind: Kind) returns (segments: seq<Segment>, sampled: seq<Vect>)
    requires Proper(g)
    ensures segments == GridSegments(g, kind, g.ySamples - 1)
    ensures sampled == GridPoints(g, g.ySamples)
  {
    var xDenom, yDenom := Denom(g.xSamples), Denom(g.ySamples);
    var buffer := new real[g.xSamples];
    sampled := FirstRow(g, xDenom, buffer);
    segments := [];
    var j := 0;
    while j < g.ySamples - 1
      invariant 0 <= j <= g.ySamples - 1 && Buffered(g, buffer, j, 0)
      invariant Marched(g, kind, j, segments, sampled)
    {
      var rowSegments, rowSampled := Row(g, kind, xDenom, yDenom, j, buffer);
      MarchedRow(g, kind, j, segments, sampled, rowSegments, rowSampled);
      segments, sampled := segments + rowSegments, sampled + rowSampled;
      j := j + 1;
    }
  }

  method FirstRow(g: Grid, xDenom: real, buffer: array<real>) returns (sampled: seq<Vect>)
    requires Proper(g) && buffer.Length == g.xSamples && xDenom == Denom(g.xSamples)
    modifies buffer
    ensures Buffered(g, buffer, 0, 0) && sampled == GridPoints(g, 1)
  {
    Corner(g);
    sampled := [];
    var i := 0;
    while i < g.xSamples
      invariant 0 <= i <= g.xSamples && sampled == RowPoints(g, 0, i)
      invariant forall k :: 0 <= k < i ==> buffer[k] == At(g, k, 0)
    {
      var p := Vect(LerpAt(g.bb.l, g.bb.r, i, xDenom), g.bb.b);
      assert p == Point(g, i, 0);
      buffer[i] := g.sample(p);
      sampled := sampled + [p];
      i := i + 1;
    }
    assert GridPoints(g, 0) == [] && GridPoints(g, 1) == GridPoints(g, 0) + RowPoints(g, 0, g.xSamples);
  }

  /** One row of cells; the buffer moves on by one row. */
  method Row(g: Grid, kind: Kind, xDenom: real, yDenom: real, j: nat, buffer: array<real>)
    returns (segments: seq<Segment>, sampled: seq<Vect>)
    requires Proper(g) && Buffered(g, buffer, j, 0) && xDenom == Denom(g.xSamples) && yDenom == Denom(g.ySamples)
    modifies buffer
    ensures Buffered(g, buffer, j + 1, 0)
    ensures segments == RowSegments(g, kind, j, g.xSamples - 1) && sampled == RowPoints(g, j + 1, g.xSamples)
  {
    var y0, y1 := LerpAt(g.bb.b, g.bb.t, j, yDenom), LerpAt(g.bb.b, g.bb.t, j + 1, yDenom);
    Corner(g);
    assert Vect(g.bb.l, y1) == Point(g, 0, j + 1);
    var b, d := buffer[0], g.sample(Vect(g.bb.l, y1));
    buffer[0] := d;
    segments, sampled := [], [Vect(g.bb.l, y1)];
    var i := 0;
    while i < g.xSamples - 1
      invariant 0 <= i <= g.xSamples - 1 && Buffered(g, buffer, j, i + 1) && b == At(g, i, j) && d == At(g, i, j + 1)
      invariant segments == RowSegments(g, kind, j, i) && sampled == RowPoints(g, j + 1, i + 1)
    {
      var cellSegments, p;
      b, d, cellSegments, p := MarchCell(g, kind, xDenom, i, j, y0, y1, b, d, buffer);
      sampled := sampled + [p];
      segments := segments + cellSegments;
      i := i + 1;
    }
  }

  /** One cell: b and d are the samples on its left side; returns those on its right side. */
  method MarchCell(g: Grid, kind: Kind, xDenom: real, i: nat, j: nat, y0: real, y1: real, b: real, d: real,
                   buffer: array<real>)
    returns (b': real, d': real, segments: seq<Segment>, p: Vect)
    requires Proper(g) && i < g.xSamples - 1 && Buffered(g, buffer, j, i + 1) && b == At(g, i, j)
    requires d == At(g, i, j + 1)
    requires xDenom == Denom(g.xSamples) && y0 == Y(g, j) && y1 == Y(g, j + 1)
    modifies buffer
    ensures Buffered(g, buffer, j, i + 2) && b' == At(g, i + 1, j) && d' == At(g, i + 1, j + 1)
    ensures segments == CellSegments(kind, CellAt(g, i, j)) && p == Point(g, i + 1, j + 1)
  {
    var x0, x1 := LerpAt(g.bb.l, g.bb.r, i, xDenom), LerpAt(g.bb.l, g.bb.r, i + 1, xDenom);
    p := Vect(x1, y1);
    b', d' := buffer[i + 1], g.sample(p);
    buffer[i + 1] := d';
    segments := CellSegments(kind, Cell(g.t, b, b', d, d', x0, x1, y0, y1));
  }
}
