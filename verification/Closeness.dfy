/** How the simplification of polylines measures. */
module Measures {
  import opened Reals
  import opened Vectors
  import opened Runs

  /** How lengths are measured, and the smallest positive number, which keeps a division from failing. */
  datatype Metric = Metric(length: Vect -> real, tiny: real)

  ghost predicate Usable(mt: Metric) {
    mt.tiny > 0.0 && forall v :: mt.length(v) >= 0.0
  }

  function Normalize(mt: Metric, v: Vect): Vect
    requires mt.length(v) + mt.tiny != 0.0
  {
    Mult(v, 1.0 / (mt.length(v) + mt.tiny))
  }

  function Dist(mt: Metric, a: Vect, b: Vect): real {
    mt.length(Sub(a, b))
  }

  predicate Near(a: Vect, b: Vect, dist: real) {
    Dot(Sub(a, b), Sub(a, b)) < dist * dist
  }

  /** The distance of v from the line through a and b. */
  function Off(mt: Metric, a: Vect, b: Vect, v: Vect): real
    requires mt.length(Perp(Sub(b, a))) + mt.tiny != 0.0
  {
    var n := Normalize(mt, Perp(Sub(b, a)));
    Abs(Dot(n, v) - Dot(n, a))
  }

  /** The length of the first n steps of w. */
  function PathLength(mt: Metric, w: seq<Vect>, n: nat): real
    requires n < |w|
  {
    if n == 0 then 0.0 else PathLength(mt, w, n - 1) + Dist(mt, w[n - 1], w[n])
  }

  function RuleOf(mt: Metric, min: real): Rule
    requires Usable(mt)
  {
    Rule((a: Vect, b: Vect, v: Vect) => if mt.length(Perp(Sub(b, a))) + mt.tiny != 0.0 then Off(mt, a, b, v) else 0.0,
         (w: seq<Vect>) => w != [] && Near(w[0], w[|w| - 1], min) && ShortFrom(mt, w, 0, 0.0, min))
  }

  ghost predicate OffAt(rule: Rule, mt: Metric, a: Vect, b: Vect, v: Vect)
    requires Usable(mt)
  {
    rule.off(a, b, v) == Off(mt, a, b, v)
  }

  ghost predicate SkipAt(rule: Rule, mt: Metric, min: real, w: seq<Vect>) {
    w != [] ==> rule.skip(w) == (Near(w[0], w[|w| - 1], min) && ShortFrom(mt, w, 0, 0.0, min))
  }

  /** rule stands for the measurements made with mt and min. */
  ghost predicate RuleFor(rule: Rule, mt: Metric, min: real)
    requires Usable(mt)
  {
    && (forall a, b, v {:trigger OffAt(rule, mt, a, b, v)} :: OffAt(rule, mt, a, b, v))
    && (forall w {:trigger SkipAt(rule, mt, min, w)} :: SkipAt(rule, mt, min, w))
  }

  lemma RuleOfIs(mt: Metric, min: real)
    requires Usable(mt)
    ensures RuleFor(RuleOf(mt, min), mt, min)
  {
  }

  /** The early exit of the length check: the rest of w from place o, after the length so far. */
  predicate ShortFrom(mt: Metric, w: seq<Vect>, o: nat, sofar: real, min: real)
    decreases |w| - o
  {
    if o + 1 >= |w| then true else
      var length := sofar + Dist(mt, w[o], w[o + 1]);
      if length > min then false else ShortFrom(mt, w, o + 1, length, min)
  }

  lemma {:induction false} ShortIs(mt: Metric, w: seq<Vect>, o: nat, min: real)
    requires o < |w|
    ensures ShortFrom(mt, w, o, PathLength(mt, w, o), min) <==> forall n :: o < n < |w| ==> PathLength(mt, w, n) <= min
    decreases |w| - o
  {
    if o + 1 < |w| {
      ShortIs(mt, w, o + 1, min);
    }
  }

  lemma Scaled(x: real, y: real, dx: real, dy: real, s: real)
    ensures (dx * s) * x + (dy * s) * y == (dx * x + dy * y) * s
  {
  }

  lemma DotScaled(p: Vect, s: real, v: Vect, a: Vect)
    ensures Dot(Mult(p, s), v) - Dot(Mult(p, s), a) == Dot(p, Sub(v, a)) * s
  {
    Scaled(v.x, v.y, p.x, p.y, s);
    Scaled(a.x, a.y, p.x, p.y, s);
  }

  lemma Bounded(x: real, len: real, tol: real)
    requires len > 0.0
    ensures Abs(x * (1.0 / len)) <= tol <==> Abs(x) <= tol * len
  {
    var q := 1.0 / len;
    assert q * len == 1.0 && q > 0.0;
    assert x == (x * q) * len;
  }

  /** A vertex within tol spans with the line a triangle of at most half tol times the length of the base. */
  lemma WithinTol(mt: Metric, a: Vect, b: Vect, v: Vect, tol: real)
    requires Usable(mt)
    ensures Off(mt, a, b, v) <= tol
      <==> Abs(Dot(Perp(Sub(b, a)), Sub(v, a))) <= tol * (mt.length(Perp(Sub(b, a))) + mt.tiny)
  {
    var p := Perp(Sub(b, a));
    var len := mt.length(p) + mt.tiny;
    DotScaled(p, 1.0 / len, v, a);
    Bounded(Dot(p, Sub(v, a)), len, tol);
  }

  /** What the rule says of runs and vertices: a run is short when its ends are less than min apart and no part of it is
      longer than min; a vertex is within tol of a line when the parallelogram it spans with the base is no larger than
      tol times the length of the base. */
  lemma RuleMeans(rule: Rule, mt: Metric, min: real, w: seq<Vect>, a: Vect, b: Vect, v: Vect, tol: real)
    requires Usable(mt) && RuleFor(rule, mt, min) && w != []
    ensures var dx, dy := w[0].x - w[|w| - 1].x, w[0].y - w[|w| - 1].y;
            rule.skip(w) <==> dx * dx + dy * dy < min * min && forall n :: 0 < n < |w| ==> PathLength(mt, w, n) <= min
    ensures var span := (b.x - a.x) * (v.y - a.y) - (b.y - a.y) * (v.x - a.x);
            rule.off(a, b, v) <= tol <==> Abs(span) <= tol * (mt.length(Perp(Sub(b, a))) + mt.tiny)
  {
    assert SkipAt(rule, mt, min, w) && OffAt(rule, mt, a, b, v);
    ShortIs(mt, w, 0, min);
    assert PathLength(mt, w, 0) == 0.0;
    WithinTol(mt, a, b, v, tol);
    SpansIs(a, b, v);
  }

  lemma SpansIs(a: Vect, b: Vect, v: Vect)
    ensures Dot(Perp(Sub(b, a)), Sub(v, a)) == (b.x - a.x) * (v.y - a.y) - (b.y - a.y) * (v.x - a.x)
  {
  }

  lemma Cancels(dx: real, dy: real)
    ensures Dot(Perp(Vect(dx, dy)), Vect(dx, dy)) == 0.0 && Dot(Perp(Vect(dx, dy)), Vect(0.0, 0.0)) == 0.0
  {
  }

  lemma FlatOff(mt: Metric, a: Vect, b: Vect, v: Vect)
    requires Usable(mt) && Dot(Perp(Sub(b, a)), Sub(v, a)) == 0.0
    ensures Off(mt, a, b, v) == 0.0
  {
    DotScaled(Perp(Sub(b, a)), 1.0 / (mt.length(Perp(Sub(b, a))) + mt.tiny), v, a);
  }

  /** The ends of a line are on it. */
  lemma EndsOff(mt: Metric, a: Vect, b: Vect)
    requires Usable(mt)
    ensures Off(mt, a, b, a) == 0.0 && Off(mt, a, b, b) == 0.0
  {
    Cancels(b.x - a.x, b.y - a.y);
    assert Sub(b, a) == Vect(b.x - a.x, b.y - a.y) && Sub(a, a) == Vect(0.0, 0.0);
    FlatOff(mt, a, b, a);
    FlatOff(mt, a, b, b);
  }
}

/** How far a simplified polyline and the original are from each other. */
module Closeness {
  import opened Reals
  import opened Vectors
  import opened Runs
  import opened Measures

  // ---- lengths in the plane ----

  ghost predicate LengthAt(mt: Metric, v: Vect) {
    mt.length(v) * mt.length(v) == Dot(v, v)
  }

  /** length is the square root of the vector with itself. */
  ghost predicate Euclidean(mt: Metric) {
    Usable(mt) && forall v {:trigger LengthAt(mt, v)} :: LengthAt(mt, v)
  }

  lemma Product(x: real, y: real, p: real)
    requires p == x * y && x >= 0.0 && y >= 0.0
    ensures p >= 0.0 && (x > 0.0 && y > 0.0 ==> p > 0.0)
  {
  }

  lemma Square(x: real, p: real)
    requires p == x * x
    ensures p >= 0.0 && (p == 0.0 <==> x == 0.0)
  {
    if x >= 0.0 {
      Product(x, x, p);
    } else {
      assert p == (-x) * (-x);
      Product(-x, -x, p);
    }
  }

  lemma LeastRoot(x: real, y: real, p: real, q: real)
    requires 0.0 <= x && 0.0 <= y && p == x * x && q == y * y
    ensures p <= q <==> x <= y
  {
    Product(x + y, if x <= y then y - x else x - y, if x <= y then q - p else p - q);
  }

  lemma LengthIs(mt: Metric, v: Vect)
    requires Euclidean(mt)
    ensures mt.length(v) >= 0.0 && mt.length(v) * mt.length(v) == Dot(v, v) == v.x * v.x + v.y * v.y
  {
    assert LengthAt(mt, v);
  }

  /** Lengths compare as their squares do. */
  lemma LengthAtMost(mt: Metric, u: Vect, v: Vect)
    requires Euclidean(mt)
    ensures Dot(u, u) <= Dot(v, v) <==> mt.length(u) <= mt.length(v)
  {
    LengthIs(mt, u);
    LengthIs(mt, v);
    LeastRoot(mt.length(u), mt.length(v), Dot(u, u), Dot(v, v));
  }

  lemma SameLength(mt: Metric, u: Vect, v: Vect)
    requires Euclidean(mt) && Dot(u, u) == Dot(v, v)
    ensures mt.length(u) == mt.length(v)
  {
    LengthAtMost(mt, u, v);
    LengthAtMost(mt, v, u);
  }

  lemma DistSymmetric(mt: Metric, a: Vect, b: Vect)
    requires Euclidean(mt)
    ensures Dist(mt, a, b) == Dist(mt, b, a) == mt.length(Perp(Sub(b, a)))
  {
    var u, v := Sub(a, b), Sub(b, a);
    assert u == Vect(-v.x, -v.y);
    SameLength(mt, u, v);
    SameLength(mt, Perp(v), v);
  }

  lemma DistZero(mt: Metric, a: Vect, b: Vect)
    requires Euclidean(mt)
    ensures Dist(mt, a, b) == 0.0 <==> a == b
  {
    var v := Sub(a, b);
    LengthIs(mt, v);
    Square(mt.length(v), Dot(v, v));
    Square(v.x, v.x * v.x);
    Square(v.y, v.y * v.y);
  }

  lemma Pythagoras(u: Vect, v: Vect)
    ensures Dot(u, u) * Dot(v, v) == Dot(u, v) * Dot(u, v) + Dot(Perp(u), v) * Dot(Perp(u), v)
  {
    Brahmagupta(u.x, u.y, v.x, v.y);
  }

  lemma Brahmagupta(a: real, b: real, c: real, d: real)
    ensures (a * a + b * b) * (c * c + d * d) == (a * c + b * d) * (a * c + b * d) + (-b * c + a * d) * (-b * c + a * d)
  {
  }

  // ---- segments ----

  /** The point at part s of the way from a to b. */
  function Between(a: Vect, b: Vect, s: real): Vect {
    Add(a, Mult(Sub(b, a), s))
  }

  ghost predicate OnSegment(p: Vect, a: Vect, b: Vect) {
    exists s :: 0.0 <= s <= 1.0 && p == Between(a, b, s)
  }

  lemma DotBetween(u: Vect, a: Vect, b: Vect, s: real)
    ensures Dot(u, Between(a, b, s)) == Dot(u, a) + (Dot(u, b) - Dot(u, a)) * s
  {
    Mixed(u.x, a.x, b.x, s);
    Mixed(u.y, a.y, b.y, s);
  }

  lemma Mixed(u: real, a: real, b: real, s: real)
    ensures u * (a + (b - a) * s) == u * a + (u * b - u * a) * s
  {
  }

  lemma DotSub(u: Vect, v: Vect, a: Vect)
    ensures Dot(u, Sub(v, a)) == Dot(u, v) - Dot(u, a)
  {
  }

  lemma Part(x: real, d: real) returns (s: real)
    requires 0.0 <= x <= d
    ensures 0.0 <= s <= 1.0 && d * s == x
  {
    if d == 0.0 {
      s := 0.0;
    } else {
      s := x / d;
      assert s * d == x;
      assert s < 0.0 ==> s * d < 0.0;
      assert s > 1.0 ==> (s - 1.0) * d > 0.0;
    }
  }

  lemma Fraction(p: real, q: real, c: real) returns (s: real)
    requires p <= c <= q
    ensures 0.0 <= s <= 1.0 && p + (q - p) * s == c
  {
    s := Part(c - p, q - p);
    var r := (q - p) * s;
    assert r == c - p;
  }

  // ---- polylines ----

  /** p is on the polyline w. */
  ghost predicate OnPolyline(p: Vect, w: seq<Vect>) {
    p in w || exists i :: 0 <= i < |w| - 1 && OnStep(p, w, i)
  }

  ghost predicate OnStep(p: Vect, w: seq<Vect>, i: nat)
    requires i + 1 < |w|
  {
    OnSegment(p, w[i], w[i + 1])
  }

  ghost predicate WithinDist(mt: Metric, p: Vect, w: seq<Vect>, dist: real) {
    exists q :: OnPolyline(q, w) && Dist(mt, p, q) <= dist
  }

  /** A polyline passes over every place between its ends. */
  lemma {:induction false} PassesOver(w: seq<Vect>, u: Vect, c: real) returns (i: nat, s: real)
    requires |w| >= 2 && Dot(u, w[0]) <= c <= Dot(u, w[|w| - 1])
    ensures i < |w| - 1 && 0.0 <= s <= 1.0 && Dot(u, Between(w[i], w[i + 1], s)) == c
  {
    if c <= Dot(u, w[1]) {
      i := 0;
      s := Fraction(Dot(u, w[0]), Dot(u, w[1]), c);
      DotBetween(u, w[0], w[1], s);
    } else {
      i, s := PassesOver(w[1..], u, c);
      i := i + 1;
    }
  }

  /** v is at most d off the line through a with normal n. */
  ghost predicate InStrip(n: Vect, a: Vect, d: real, v: Vect) {
    Abs(Dot(n, Sub(v, a))) <= d
  }

  lemma StripConvex(n: Vect, a: Vect, d: real, v: Vect, w: Vect, s: real)
    requires InStrip(n, a, d, v) && InStrip(n, a, d, w) && 0.0 <= s <= 1.0
    ensures InStrip(n, a, d, Between(v, w, s))
  {
    DotBetween(n, v, w, s);
    DotSub(n, Between(v, w, s), a);
    DotSub(n, v, a);
    DotSub(n, w, a);
    MixMoved(Dot(n, v), Dot(n, w), Dot(n, a), s);
    MixBounded(Dot(n, v) - Dot(n, a), Dot(n, w) - Dot(n, a), s, d, Dot(n, Between(v, w, s)) - Dot(n, a));
  }

  lemma MixMoved(x: real, y: real, k: real, s: real)
    ensures x + (y - x) * s - k == (x - k) + ((y - k) - (x - k)) * s
  {
  }

  lemma MixBounded(x: real, y: real, s: real, d: real, m: real)
    requires -d <= x <= d && -d <= y <= d && 0.0 <= s <= 1.0 && m == x + (y - x) * s
    ensures -d <= m <= d
  {
    var p, q, e, f := x * (1.0 - s), y * s, d * (1.0 - s), d * s;
    Weighted(x, d, 1.0 - s, p, e);
    Weighted(y, d, s, q, f);
    assert e + f == d && m == p + q;
  }

  lemma Weighted(x: real, d: real, s: real, p: real, q: real)
    requires -d <= x <= d && s >= 0.0 && p == x * s && q == d * s
    ensures -q <= p <= q
  {
    assert (d - x) * s >= 0.0;
    assert (x + d) * s >= 0.0;
  }

  /** A vector across the base is as long as it is off the base. */
  lemma Across(mt: Metric, u: Vect, v: Vect, d: real)
    requires Euclidean(mt) && Dot(u, v) == 0.0 && Abs(Dot(Perp(u), v)) <= d
    ensures mt.length(v) * mt.length(u) <= d
  {
    Pythagoras(u, v);
    LengthIs(mt, u);
    LengthIs(mt, v);
    var x, lu, lv := Dot(Perp(u), v), mt.length(u), mt.length(v);
    Squares(lu, lv);
    Product(lv, lu, lv * lu);
    LeastRoot(lv * lu, Abs(x), (lv * lu) * (lv * lu), x * x);
  }

  lemma Squares(x: real, y: real)
    ensures (y * x) * (y * x) == (x * x) * (y * y)
  {
  }

  /** What the smallest positive number in the normalization adds: nothing that floating point would show. */
  function Stretch(mt: Metric, a: Vect, b: Vect): real {
    if Dist(mt, a, b) > 0.0 then (Dist(mt, a, b) + mt.tiny) / Dist(mt, a, b) else 1.0
  }

  lemma Divided(x: real, tol: real, len: real, tiny: real)
    requires len > 0.0 && x * len <= tol * (len + tiny)
    ensures x <= tol * ((len + tiny) / len)
  {
    var q := (len + tiny) / len;
    assert q * len == len + tiny;
    assert (tol * q) * len == tol * (len + tiny);
    if x > tol * q {
      Product(x - tol * q, len, (x - tol * q) * len);
    }
  }

  lemma StretchIs(mt: Metric, a: Vect, b: Vect, x: real, tol: real)
    requires Euclidean(mt) && a != b && x * Dist(mt, a, b) <= tol * (Dist(mt, a, b) + mt.tiny)
    ensures x <= tol * Stretch(mt, a, b)
  {
    DistZero(mt, a, b);
    assert Usable(mt);
    Divided(x, tol, Dist(mt, a, b), mt.tiny);
  }

  lemma StretchAtLeast(mt: Metric, a: Vect, b: Vect, tol: real)
    requires Euclidean(mt) && tol >= 0.0
    ensures tol <= tol * Stretch(mt, a, b)
  {
    var len := Dist(mt, a, b);
    if len > 0.0 {
      assert tol * len <= tol * (len + mt.tiny);
      Divided(tol, tol, len, mt.tiny);
    }
  }

  // ---- the reduced polyline near the original ----

  /** Every vertex of w is off the base by at most tol, as the code measures it. */
  ghost predicate AllOff(mt: Metric, w: seq<Vect>, tol: real)
    requires |w| >= 2 && Usable(mt)
  {
    forall o :: 0 <= o < |w| ==> Off(mt, w[0], w[|w| - 1], w[o]) <= tol
  }

  lemma OffStrip(mt: Metric, a: Vect, b: Vect, v: Vect, tol: real)
    requires Euclidean(mt) && Off(mt, a, b, v) <= tol
    ensures InStrip(Perp(Sub(b, a)), a, tol * (Dist(mt, a, b) + mt.tiny), v)
  {
    WithinTol(mt, a, b, v, tol);
    DistSymmetric(mt, a, b);
  }

  lemma SelfDot(a: Vect, b: Vect)
    ensures Dot(Sub(b, a), b) - Dot(Sub(b, a), a) == Dot(Sub(b, a), Sub(b, a)) >= 0.0
    ensures Dot(Perp(Sub(b, a)), b) == Dot(Perp(Sub(b, a)), a)
  {
  }

  lemma BaseBetween(a: Vect, b: Vect, s: real)
    requires 0.0 <= s <= 1.0
    ensures Dot(Sub(b, a), a) <= Dot(Sub(b, a), Between(a, b, s)) <= Dot(Sub(b, a), b)
    ensures Dot(Perp(Sub(b, a)), Between(a, b, s)) == Dot(Perp(Sub(b, a)), a)
  {
    DotBetween(Sub(b, a), a, b, s);
    DotBetween(Perp(Sub(b, a)), a, b, s);
    SelfDot(a, b);
    var d := Dot(Sub(b, a), Sub(b, a));
    Product(d, s, d * s);
    Product(d, 1.0 - s, d - d * s);
  }

  /** q is across from the place p of the base, and in the strip around it. */
  lemma StripNear(mt: Metric, a: Vect, b: Vect, p: Vect, q: Vect, tol: real)
    requires Euclidean(mt) && a != b && Dot(Sub(b, a), p) == Dot(Sub(b, a), q)
    requires Dot(Perp(Sub(b, a)), p) == Dot(Perp(Sub(b, a)), a)
    requires InStrip(Perp(Sub(b, a)), a, tol * (Dist(mt, a, b) + mt.tiny), q)
    ensures Dist(mt, p, q) <= tol * Stretch(mt, a, b)
  {
    var u := Sub(b, a);
    DotSub(u, q, p);
    DotSub(Perp(u), q, p);
    DotSub(Perp(u), q, a);
    Across(mt, u, Sub(q, p), tol * (Dist(mt, a, b) + mt.tiny));
    DistSymmetric(mt, a, b);
    DistSymmetric(mt, p, q);
    StretchIs(mt, a, b, Dist(mt, p, q), tol);
  }

  lemma CrossedInStrip(mt: Metric, w: seq<Vect>, i: nat, t: real, tol: real)
    requires Euclidean(mt) && |w| >= 2 && AllOff(mt, w, tol) && i + 1 < |w| && 0.0 <= t <= 1.0
    ensures var a, b := w[0], w[|w| - 1];
            InStrip(Perp(Sub(b, a)), a, tol * (Dist(mt, a, b) + mt.tiny), Between(w[i], w[i + 1], t))
  {
    var a, b := w[0], w[|w| - 1];
    OffStrip(mt, a, b, w[i], tol);
    OffStrip(mt, a, b, w[i + 1], tol);
    StripConvex(Perp(Sub(b, a)), a, tol * (Dist(mt, a, b) + mt.tiny), w[i], w[i + 1], t);
  }

  /** Some point of the run is across from a place of the base. */
  lemma Crossed(w: seq<Vect>, s: real) returns (i: nat, t: real)
    requires |w| >= 2 && 0.0 <= s <= 1.0
    ensures i + 1 < |w| && 0.0 <= t <= 1.0
    ensures var a, b := w[0], w[|w| - 1];
            Dot(Sub(b, a), Between(a, b, s)) == Dot(Sub(b, a), Between(w[i], w[i + 1], t))
  {
    var a, b := w[0], w[|w| - 1];
    BaseBetween(a, b, s);
    i, t := PassesOver(w, Sub(b, a), Dot(Sub(b, a), Between(a, b, s)));
  }

  lemma CrossedOn(w: seq<Vect>, i: nat, t: real)
    requires i + 1 < |w| && 0.0 <= t <= 1.0
    ensures OnPolyline(Between(w[i], w[i + 1], t), w)
  {
    assert OnStep(Between(w[i], w[i + 1], t), w, i);
  }

  lemma CrossedNear(mt: Metric, w: seq<Vect>, s: real, i: nat, t: real, tol: real)
    requires Euclidean(mt) && |w| >= 2 && w[0] != w[|w| - 1] && AllOff(mt, w, tol) && 0.0 <= s <= 1.0
    requires i + 1 < |w| && 0.0 <= t <= 1.0
    requires var a, b := w[0], w[|w| - 1];
             Dot(Sub(b, a), Between(a, b, s)) == Dot(Sub(b, a), Between(w[i], w[i + 1], t))
    ensures var a, b := w[0], w[|w| - 1];
            Dist(mt, Between(a, b, s), Between(w[i], w[i + 1], t)) <= tol * Stretch(mt, a, b)
  {
    var a, b := w[0], w[|w| - 1];
    CrossedInStrip(mt, w, i, t, tol);
    BaseBetween(a, b, s);
    StripNear(mt, a, b, Between(a, b, s), Between(w[i], w[i + 1], t), tol);
  }

  /** Every point of the base has a point of the run within the tolerance. */
  lemma BaseNear(mt: Metric, w: seq<Vect>, s: real, tol: real)
    requires Euclidean(mt) && |w| >= 2 && w[0] != w[|w| - 1] && AllOff(mt, w, tol) && 0.0 <= s <= 1.0
    ensures WithinDist(mt, Between(w[0], w[|w| - 1], s), w, tol * Stretch(mt, w[0], w[|w| - 1]))
  {
    var i, t := Crossed(w, s);
    CrossedNear(mt, w, s, i, t, tol);
    CrossedOn(w, i, t);
  }

  // ---- short runs ----

  lemma BetweenSelf(a: Vect, b: Vect)
    ensures Between(a, b, 0.0) == a && Between(a, b, 1.0) == b
  {
  }

  lemma BetweenSame(a: Vect, s: real)
    ensures Between(a, a, s) == a
  {
  }

  lemma ScaledDot(u: Vect, s: real)
    ensures Dot(Mult(u, s), Mult(u, s)) == Dot(u, u) * (s * s)
  {
    SquareScaled(u.x, s);
    SquareScaled(u.y, s);
  }

  lemma SquareScaled(x: real, s: real)
    ensures (x * s) * (x * s) == (x * x) * (s * s)
  {
  }

  lemma Shrunk(d: real, s: real, q: real)
    requires d >= 0.0 && 0.0 <= s <= 1.0 && q == d * (s * s)
    ensures q <= d
  {
    var r := s * s;
    Product(s, 1.0 - s, s - r);
    Product(d, 1.0 - r, d - q);
  }

  /** The base of a short run is near its end. */
  lemma ShortBase(mt: Metric, a: Vect, b: Vect, s: real, min: real)
    requires Euclidean(mt) && Near(a, b, min) && min >= 0.0 && 0.0 <= s <= 1.0
    ensures Dist(mt, Between(a, b, s), a) <= min
  {
    var p, u := Between(a, b, s), Sub(b, a);
    assert Sub(p, a) == Mult(u, s);
    ScaledDot(u, s);
    SelfDot(a, b);
    Shrunk(Dot(u, u), s, Dot(Mult(u, s), Mult(u, s)));
    SquareSub(a.x, b.x);
    SquareSub(a.y, b.y);
    assert Dot(u, u) == Dot(Sub(a, b), Sub(a, b));
    LengthIs(mt, Mult(u, s));
    LeastRoot(Dist(mt, p, a), min, Dot(Mult(u, s), Mult(u, s)), min * min);
  }

  lemma SquareSub(x: real, y: real)
    ensures (x - y) * (x - y) == (y - x) * (y - x)
  {
  }

  // ---- every segment of the result ----

  ghost predicate SegmentNear(mt: Metric, tol: real, w: seq<Vect>, a: Vect, b: Vect) {
    forall s :: 0.0 <= s <= 1.0 ==> WithinDist(mt, Between(a, b, s), w, tol * Stretch(mt, a, b))
  }

  ghost predicate SegmentAt(mt: Metric, tol: real, w: seq<Vect>, out: seq<Vect>, i: nat)
    requires i + 1 < |out|
  {
    SegmentNear(mt, tol, w, out[i], out[i + 1])
  }

  /** Every point of every segment of out is within tol of the polyline w. */
  ghost predicate NeverFarther(mt: Metric, tol: real, w: seq<Vect>, out: seq<Vect>) {
    forall i {:trigger SegmentAt(mt, tol, w, out, i)} :: 0 <= i < |out| - 1 ==> SegmentAt(mt, tol, w, out, i)
  }

  lemma OnItself(mt: Metric, w: seq<Vect>, p: Vect, dist: real)
    requires Euclidean(mt) && dist >= 0.0 && OnPolyline(p, w)
    ensures WithinDist(mt, p, w, dist)
  {
    DistZero(mt, p, p);
  }

  lemma RunAllOff(rule: Rule, mt: Metric, min: real, tol: real, run: seq<Vect>)
    requires Usable(mt) && RuleFor(rule, mt, min) && |run| >= 3 && !rule.skip(run) && RunOk(rule, tol, run)
    requires tol >= 0.0
    ensures AllOff(mt, run, tol)
  {
    var a, b := run[0], run[|run| - 1];
    EndsOff(mt, a, b);
    forall o | 0 <= o < |run| ensures Off(mt, a, b, run[o]) <= tol {
      assert OffAt(rule, mt, a, b, run[o]);
    }
  }

  /** The place s of the base of a run has a point of the run that near. */
  ghost predicate PlaceNear(mt: Metric, dist: real, run: seq<Vect>, s: real)
    requires |run| >= 2
  {
    WithinDist(mt, Between(run[0], run[|run| - 1], s), run, dist)
  }

  lemma ShortPlace(mt: Metric, run: seq<Vect>, s: real, min: real, dist: real)
    requires Euclidean(mt) && |run| >= 2 && Near(run[0], run[|run| - 1], min) && 0.0 <= min <= dist && 0.0 <= s <= 1.0
    ensures PlaceNear(mt, dist, run, s)
  {
    ShortBase(mt, run[0], run[|run| - 1], s, min);
    assert OnPolyline(run[0], run);
  }

  lemma OwnPlace(mt: Metric, run: seq<Vect>, s: real, dist: real)
    requires Euclidean(mt) && |run| == 2 && 0.0 <= s <= 1.0 && dist >= 0.0
    ensures PlaceNear(mt, dist, run, s)
  {
    CrossedOn(run, 0, s);
    OnItself(mt, run, Between(run[0], run[1], s), dist);
  }

  lemma SamePlace(mt: Metric, run: seq<Vect>, s: real, dist: real)
    requires Euclidean(mt) && |run| >= 2 && run[0] == run[|run| - 1] && dist >= 0.0
    ensures PlaceNear(mt, dist, run, s)
  {
    BetweenSame(run[0], s);
    OnItself(mt, run, run[0], dist);
  }

  lemma RunPlace(rule: Rule, mt: Metric, min: real, tol: real, run: seq<Vect>, s: real, dist: real)
    requires Euclidean(mt) && RuleFor(rule, mt, min) && 0.0 <= min <= tol && |run| >= 2 && RunOk(rule, tol, run)
    requires 0.0 <= s <= 1.0 && tol <= dist == tol * Stretch(mt, run[0], run[|run| - 1])
    ensures PlaceNear(mt, dist, run, s)
  {
    if run[0] == run[|run| - 1] {
      SamePlace(mt, run, s, dist);
    } else if |run| == 2 {
      OwnPlace(mt, run, s, dist);
    } else if rule.skip(run) {
      assert SkipAt(rule, mt, min, run);
      ShortPlace(mt, run, s, min, dist);
    } else {
      RunAllOff(rule, mt, min, tol, run);
      BaseNear(mt, run, s, tol);
    }
  }

  /** The segment that replaces a run. */
  lemma RunNear(rule: Rule, mt: Metric, min: real, tol: real, run: seq<Vect>)
    requires Euclidean(mt) && RuleFor(rule, mt, min) && 0.0 <= min <= tol && |run| >= 2 && RunOk(rule, tol, run)
    ensures SegmentNear(mt, tol, run, run[0], run[|run| - 1])
  {
    var a, b := run[0], run[|run| - 1];
    var dist := tol * Stretch(mt, a, b);
    StretchAtLeast(mt, a, b, tol);
    forall s | 0.0 <= s <= 1.0 ensures WithinDist(mt, Between(a, b, s), run, dist) {
      RunPlace(rule, mt, min, tol, run, s, dist);
    }
  }

  lemma PartOfPolyline(p: Vect, w: seq<Vect>, x: nat, y: nat)
    requires x < y < |w| && OnPolyline(p, w[x..y + 1])
    ensures OnPolyline(p, w)
  {
    var run := w[x..y + 1];
    if p !in run {
      var i :| 0 <= i < |run| - 1 && OnStep(p, run, i);
      assert OnStep(p, w, x + i);
    }
  }

  lemma PartNear(mt: Metric, tol: real, w: seq<Vect>, x: nat, y: nat, a: Vect, b: Vect)
    requires x < y < |w| && SegmentNear(mt, tol, w[x..y + 1], a, b)
    ensures SegmentNear(mt, tol, w, a, b)
  {
    var d := tol * Stretch(mt, a, b);
    forall s | 0.0 <= s <= 1.0 ensures WithinDist(mt, Between(a, b, s), w, d) {
      var q :| OnPolyline(q, w[x..y + 1]) && Dist(mt, Between(a, b, s), q) <= d;
      PartOfPolyline(q, w, x, y);
    }
  }

  /** The reduced polyline is never farther than the tolerance from the original. */
  lemma ReducedNear(rule: Rule, mt: Metric, min: real, tol: real, w: seq<Vect>, ks: seq<nat>)
    requires Euclidean(mt) && RuleFor(rule, mt, min) && 0.0 <= min <= tol && Approximates(rule, tol, w, ks)
    requires forall i :: 0 <= i < |ks| ==> ks[i] < |w|
    ensures NeverFarther(mt, tol, w, Picked(w, ks))
  {
    var out := Picked(w, ks);
    forall i | 0 <= i < |out| - 1 ensures SegmentAt(mt, tol, w, out, i) {
      var x, y := ks[i], ks[i + 1];
      assert StepOk(rule, tol, w, x, y);
      RunNear(rule, mt, min, tol, w[x..y + 1]);
      PartNear(mt, tol, w, x, y, w[x], w[y]);
    }
  }

  // ---- the original near the reduced polyline ----

  lemma LesserRoot(x: real, lu: real, lv: real, n: real)
    requires lu >= 0.0 && lv >= 0.0 && (lu * lu) * (lv * lv) == x * x + n && n >= 0.0
    ensures x <= lu * lv
  {
    Squares(lv, lu);
    Product(lu, lv, lu * lv);
    var p, q := x * x, (lu * lv) * (lu * lv);
    assert p <= q;
    LeastRoot(Abs(x), lu * lv, p, q);
  }

  lemma Cauchy(mt: Metric, u: Vect, v: Vect)
    requires Euclidean(mt)
    ensures Dot(u, v) <= mt.length(u) * mt.length(v)
  {
    Pythagoras(u, v);
    LengthIs(mt, u);
    LengthIs(mt, v);
    var n := Dot(Perp(u), v) * Dot(Perp(u), v);
    Square(Dot(Perp(u), v), n);
    LesserRoot(Dot(u, v), mt.length(u), mt.length(v), n);
  }

  lemma SumSquare(x: real, y: real)
    ensures (x + y) * (x + y) == x * x + 2.0 * (x * y) + y * y
  {
  }

  lemma DotSum(u: Vect, v: Vect, w: Vect)
    requires w == Add(u, v)
    ensures Dot(w, w) == Dot(u, u) + 2.0 * Dot(u, v) + Dot(v, v)
  {
    SumSquare(u.x, v.x);
    SumSquare(u.y, v.y);
  }

  lemma SumOfRoots(lu: real, lv: real, lw: real, c: real)
    requires lu >= 0.0 && lv >= 0.0 && lw >= 0.0 && lw * lw == lu * lu + 2.0 * c + lv * lv && c <= lu * lv
    ensures lw <= lu + lv
  {
    SumSquare(lu, lv);
    var p, q := lw * lw, (lu + lv) * (lu + lv);
    assert p <= q;
    LeastRoot(lw, lu + lv, p, q);
  }

  lemma Triangle(mt: Metric, a: Vect, b: Vect, c: Vect)
    requires Euclidean(mt)
    ensures Dist(mt, a, c) <= Dist(mt, a, b) + Dist(mt, b, c)
  {
    var u, v, w := Sub(a, b), Sub(b, c), Sub(a, c);
    DotSum(u, v, w);
    LengthIs(mt, u);
    LengthIs(mt, v);
    LengthIs(mt, w);
    Cauchy(mt, u, v);
    SumOfRoots(mt.length(u), mt.length(v), mt.length(w), Dot(u, v));
  }

  lemma {:induction false} PathAtLeast(mt: Metric, w: seq<Vect>, n: nat)
    requires Euclidean(mt) && n < |w|
    ensures Dist(mt, w[0], w[n]) <= PathLength(mt, w, n)
  {
    if n == 0 {
      DistZero(mt, w[0], w[0]);
    } else {
      PathAtLeast(mt, w, n - 1);
      Triangle(mt, w[0], w[n - 1], w[n]);
    }
  }

  ghost predicate NearSegment(mt: Metric, v: Vect, a: Vect, b: Vect, dist: real) {
    exists s :: 0.0 <= s <= 1.0 && Dist(mt, v, Between(a, b, s)) <= dist
  }

  /** v is neither before a nor behind b. */
  predicate Beside(a: Vect, b: Vect, v: Vect) {
    a != b && 0.0 <= Dot(Sub(b, a), Sub(v, a)) <= Dot(Sub(b, a), Sub(b, a))
  }

  lemma EndNear(mt: Metric, v: Vect, a: Vect, b: Vect, dist: real)
    requires Dist(mt, v, a) <= dist || Dist(mt, v, b) <= dist
    ensures NearSegment(mt, v, a, b, dist)
  {
    BetweenSelf(a, b);
    assert Dist(mt, v, Between(a, b, 0.0)) <= dist || Dist(mt, v, Between(a, b, 1.0)) <= dist;
  }

  /** A vertex beside the segment and in the strip around it. */
  lemma BesideNear(mt: Metric, v: Vect, a: Vect, b: Vect, tol: real)
    requires Euclidean(mt) && Beside(a, b, v)
    requires InStrip(Perp(Sub(b, a)), a, tol * (Dist(mt, a, b) + mt.tiny), v)
    ensures NearSegment(mt, v, a, b, tol * Stretch(mt, a, b))
  {
    var u := Sub(b, a);
    DotSub(u, v, a);
    SelfDot(a, b);
    var s := Fraction(Dot(u, a), Dot(u, b), Dot(u, v));
    DotBetween(u, a, b, s);
    BaseBetween(a, b, s);
    StripNear(mt, a, b, Between(a, b, s), v, tol);
    DistSymmetric(mt, v, Between(a, b, s));
  }

  lemma Farther(ux: real, uy: real, vx: real, vy: real, s: real)
    requires s >= 0.0 && ux * vx + uy * vy <= 0.0
    ensures vx * vx + vy * vy <= (vx - ux * s) * (vx - ux * s) + (vy - uy * s) * (vy - uy * s)
  {
    var e := ux * vx + uy * vy;
    var p, q := ux * s, uy * s;
    Product(-e, s, -e * s);
    assert p * vx + q * vy == e * s;
    Square(p, p * p);
    Square(q, q * q);
    Difference(vx, p);
    Difference(vy, q);
  }

  lemma Difference(x: real, y: real)
    ensures (x - y) * (x - y) == x * x - 2.0 * (y * x) + y * y
  {
  }

  /** Before a nothing of the segment is nearer than a. */
  lemma BeforeStart(mt: Metric, v: Vect, a: Vect, b: Vect, s: real)
    requires Euclidean(mt) && Dot(Sub(b, a), Sub(v, a)) <= 0.0 && s >= 0.0
    ensures Dist(mt, v, a) <= Dist(mt, v, Between(a, b, s))
  {
    var u, d := Sub(b, a), Sub(v, a);
    Farther(u.x, u.y, d.x, d.y, s);
    var e := Sub(v, Between(a, b, s));
    assert e == Vect(d.x - u.x * s, d.y - u.y * s);
    LengthAtMost(mt, d, e);
  }

  lemma Turned(a: Vect, b: Vect, v: Vect, s: real)
    ensures Between(b, a, 1.0 - s) == Between(a, b, s)
    ensures Dot(Sub(a, b), Sub(v, b)) == Dot(Sub(b, a), Sub(b, a)) - Dot(Sub(b, a), Sub(v, a))
  {
    TurnedPart(a.x, b.x, s);
    TurnedPart(a.y, b.y, s);
    TurnedDot(a.x, b.x, v.x);
    TurnedDot(a.y, b.y, v.y);
  }

  lemma TurnedPart(a: real, b: real, s: real)
    ensures b + (a - b) * (1.0 - s) == a + (b - a) * s
  {
  }

  lemma TurnedDot(a: real, b: real, v: real)
    ensures (a - b) * (v - b) == (b - a) * (b - a) - (b - a) * (v - a)
  {
  }

  /** A dropped vertex that is not beside the segment is as far from it as from its nearer end. */
  lemma BehindFar(mt: Metric, v: Vect, a: Vect, b: Vect, dist: real)
    requires Euclidean(mt) && !Beside(a, b, v) && NearSegment(mt, v, a, b, dist)
    ensures Dist(mt, v, a) <= dist || Dist(mt, v, b) <= dist
  {
    var s :| 0.0 <= s <= 1.0 && Dist(mt, v, Between(a, b, s)) <= dist;
    if a == b {
      BetweenSame(a, s);
    } else if Dot(Sub(b, a), Sub(v, a)) <= 0.0 {
      BeforeStart(mt, v, a, b, s);
    } else {
      Turned(a, b, v, s);
      BeforeStart(mt, v, b, a, 1.0 - s);
    }
  }

  /** A vertex of a run that may be dropped is near its start. */
  lemma ShortNear(rule: Rule, mt: Metric, min: real, run: seq<Vect>, o: nat)
    requires Euclidean(mt) && RuleFor(rule, mt, min) && rule.skip(run) && 0 < o < |run|
    ensures Dist(mt, run[o], run[0]) <= min
  {
    assert SkipAt(rule, mt, min, run);
    ShortIs(mt, run, 0, min);
    PathAtLeast(mt, run, o);
    DistSymmetric(mt, run[o], run[0]);
  }

  lemma DroppedBeside(rule: Rule, mt: Metric, min: real, tol: real, run: seq<Vect>, o: nat)
    requires Euclidean(mt) && RuleFor(rule, mt, min) && 0.0 <= min <= tol && RunOk(rule, tol, run)
    requires 0 < o < |run| - 1 && Beside(run[0], run[|run| - 1], run[o]) && !rule.skip(run)
    ensures NearSegment(mt, run[o], run[0], run[|run| - 1], tol * Stretch(mt, run[0], run[|run| - 1]))
  {
    RunAllOff(rule, mt, min, tol, run);
    OffStrip(mt, run[0], run[|run| - 1], run[o], tol);
    BesideNear(mt, run[o], run[0], run[|run| - 1], tol);
  }

  lemma DroppedShort(rule: Rule, mt: Metric, min: real, tol: real, run: seq<Vect>, o: nat)
    requires Euclidean(mt) && RuleFor(rule, mt, min) && 0.0 <= min <= tol && rule.skip(run) && 0 < o < |run|
    ensures NearSegment(mt, run[o], run[0], run[|run| - 1], tol * Stretch(mt, run[0], run[|run| - 1]))
  {
    ShortNear(rule, mt, min, run, o);
    StretchAtLeast(mt, run[0], run[|run| - 1], tol);
    EndNear(mt, run[o], run[0], run[|run| - 1], tol * Stretch(mt, run[0], run[|run| - 1]));
  }

  lemma NearExactly(mt: Metric, v: Vect, a: Vect, b: Vect, dist: real)
    requires Euclidean(mt) && (Beside(a, b, v) ==> NearSegment(mt, v, a, b, dist))
    ensures NearSegment(mt, v, a, b, dist) <==> Beside(a, b, v) || Dist(mt, v, a) <= dist || Dist(mt, v, b) <= dist
  {
    if Beside(a, b, v) {
    } else if NearSegment(mt, v, a, b, dist) {
      BehindFar(mt, v, a, b, dist);
    } else if Dist(mt, v, a) <= dist || Dist(mt, v, b) <= dist {
      EndNear(mt, v, a, b, dist);
    }
  }

  /** A dropped vertex is within the tolerance of the segment that replaces it exactly when it is beside it, or that
      near to one of its ends. */
  lemma DroppedNear(rule: Rule, mt: Metric, min: real, tol: real, run: seq<Vect>, o: nat)
    requires Euclidean(mt) && RuleFor(rule, mt, min) && 0.0 <= min <= tol && RunOk(rule, tol, run)
    requires 0 < o < |run| - 1
    ensures var a, b, v := run[0], run[|run| - 1], run[o];
            var dist := tol * Stretch(mt, a, b);
            NearSegment(mt, v, a, b, dist) <==> Beside(a, b, v) || Dist(mt, v, a) <= dist || Dist(mt, v, b) <= dist
  {
    var a, b, v := run[0], run[|run| - 1], run[o];
    if Beside(a, b, v) {
      if rule.skip(run) {
        DroppedShort(rule, mt, min, tol, run, o);
      } else {
        DroppedBeside(rule, mt, min, tol, run, o);
      }
    }
    NearExactly(mt, v, a, b, tol * Stretch(mt, a, b));
  }
}
