/** What a Douglas-Peucker simplification keeps of a run of vertices. */
module Runs {
  import opened Vectors

  /** How far a vertex is off the line through two others, and which runs are short enough to be dropped. */
  datatype Rule = Rule(off: (Vect, Vect, Vect) -> real, skip: seq<Vect> -> bool)

  /** Of the vertices 1 to n - 1 of w, the first one that is farthest off the line from a to b, and how far; (0, 0)
      if none is off. */
  function Farthest(rule: Rule, a: Vect, b: Vect, w: seq<Vect>, n: nat): (r: (real, nat))
    requires n <= |w|
    ensures r.0 >= 0.0 && (r.0 > 0.0 ==> 0 < r.1 < n && rule.off(a, b, w[r.1]) == r.0)
    ensures forall o :: 0 < o < n ==> rule.off(a, b, w[o]) <= r.0
  {
    if n <= 1 then (0.0, 0) else
      var r := Farthest(rule, a, b, w, n - 1);
      var d := rule.off(a, b, w[n - 1]);
      if d > r.0 then (d, n - 1) else r
  }

  lemma {:induction false} FarthestFirst(rule: Rule, a: Vect, b: Vect, w: seq<Vect>, n: nat)
    requires n <= |w|
    ensures var r := Farthest(rule, a, b, w, n);
            r.0 > 0.0 ==> forall o :: 0 < o < r.1 ==> rule.off(a, b, w[o]) < r.0
  {
    if n > 1 {
      FarthestFirst(rule, a, b, w, n - 1);
    }
  }

  function Shifted(ks: seq<nat>, m: nat): (r: seq<nat>)
    ensures |r| == |ks|
  {
    seq(|ks|, i requires 0 <= i < |ks| => ks[i] + m)
  }

  /** The run w may not be dropped, and m is the first of its inner vertices that are farthest off the line through its
      ends, and farther than tol. */
  ghost predicate SplitsAt(rule: Rule, tol: real, w: seq<Vect>, m: nat) {
    && 0 < m < |w| - 1 && !rule.skip(w) && rule.off(w[0], w[|w| - 1], w[m]) > tol
    && (forall o :: 0 < o < |w| - 1 ==> rule.off(w[0], w[|w| - 1], w[o]) <= rule.off(w[0], w[|w| - 1], w[m]))
    && (forall o :: 0 < o < m ==> rule.off(w[0], w[|w| - 1], w[o]) < rule.off(w[0], w[|w| - 1], w[m]))
  }

  /** Where the run w is split, or 0. */
  function SplitPlace(rule: Rule, tol: real, w: seq<Vect>): (m: nat)
    requires tol >= 0.0
    ensures m > 0 ==> m < |w| - 1 && rule.off(w[0], w[|w| - 1], w[m]) > 0.0 && SplitsAt(rule, tol, w, m)
    ensures m == 0 <==> RunOk(rule, tol, w)
  {
    if |w| < 3 || rule.skip(w) then 0 else
      FarthestFirst(rule, w[0], w[|w| - 1], w, |w| - 1);
      var r := Farthest(rule, w[0], w[|w| - 1], w, |w| - 1);
      if r.0 > tol then r.1 else 0
  }

  /** The places of the vertices kept between the ends of w. */
  function Peucker(rule: Rule, tol: real, w: seq<Vect>): seq<nat>
    requires tol >= 0.0
    decreases |w|
  {
    var m := SplitPlace(rule, tol, w);
    if m == 0 then [] else Peucker(rule, tol, w[..m + 1]) + [m] + Shifted(Peucker(rule, tol, w[m..]), m)
  }

  /** With the ends. */
  function Kept(rule: Rule, tol: real, w: seq<Vect>): seq<nat>
    requires tol >= 0.0 && |w| > 0
  {
    [0] + Peucker(rule, tol, w) + [|w| - 1]
  }

  /** Every vertex inside the run is within tol of the line through its ends, or the run may be dropped. */
  ghost predicate RunOk(rule: Rule, tol: real, run: seq<Vect>) {
    |run| >= 3 && !rule.skip(run) ==> forall o :: 0 < o < |run| - 1 ==> rule.off(run[0], run[|run| - 1], run[o]) <= tol
  }

  /** Places x < y of w are neighbours in the result. */
  ghost predicate StepOk(rule: Rule, tol: real, w: seq<Vect>, x: nat, y: nat) {
    x < y < |w| && RunOk(rule, tol, w[x..y + 1])
  }

  /** ks goes through w in order, and each step is good. */
  ghost predicate Approximates(rule: Rule, tol: real, w: seq<Vect>, ks: seq<nat>) {
    && |ks| >= 2 && ks[0] == 0 && ks[|ks| - 1] == |w| - 1
    && forall i :: 0 <= i < |ks| - 1 ==> StepOk(rule, tol, w, ks[i], ks[i + 1])
  }

  /** The two halves of a run, joined at place m. */
  lemma Joins(rule: Rule, tol: real, w: seq<Vect>, m: nat, ks: seq<nat>, ls: seq<nat>)
    requires 0 < m < |w| - 1 && Approximates(rule, tol, w[..m + 1], ks) && Approximates(rule, tol, w[m..], ls)
    ensures Approximates(rule, tol, w, ks + Shifted(ls, m)[1..])
  {
    var all := ks + Shifted(ls, m)[1..];
    forall i | 0 <= i < |all| - 1 ensures StepOk(rule, tol, w, all[i], all[i + 1]) {
      if i < |ks| - 1 {
        assert StepOk(rule, tol, w[..m + 1], ks[i], ks[i + 1]);
        assert w[..m + 1][ks[i]..ks[i + 1] + 1] == w[ks[i]..ks[i + 1] + 1];
      } else {
        var j := i - (|ks| - 1);
        assert StepOk(rule, tol, w[m..], ls[j], ls[j + 1]);
        assert w[m..][ls[j]..ls[j + 1] + 1] == w[ls[j] + m..ls[j + 1] + m + 1];
      }
    }
  }

  /** Whatever is dropped is close to what replaces it. */
  lemma {:induction false} KeptApproximates(rule: Rule, tol: real, w: seq<Vect>)
    requires tol >= 0.0 && |w| >= 2
    ensures Approximates(rule, tol, w, Kept(rule, tol, w))
    decreases |w|
  {
    var m := SplitPlace(rule, tol, w);
    if m == 0 {
      assert w[0..|w| - 1 + 1] == w;
    } else {
      KeptApproximates(rule, tol, w[..m + 1]);
      KeptApproximates(rule, tol, w[m..]);
      Joins(rule, tol, w, m, Kept(rule, tol, w[..m + 1]), Kept(rule, tol, w[m..]));
      KeptSplit(rule, tol, w, m);
    }
  }

  /** Place i of w splits the run between two other places. */
  ghost predicate SplitsBetween(rule: Rule, tol: real, w: seq<Vect>, x: nat, y: nat, i: nat) {
    x < i < y < |w| && SplitsAt(rule, tol, w[x..y + 1], i - x)
  }

  /** Entry j of ks splits the run between two other entries. */
  ghost predicate NeededAt(rule: Rule, tol: real, w: seq<Vect>, ks: seq<nat>, j: nat) {
    exists a, b :: 0 <= a < j < b < |ks| && SplitsBetween(rule, tol, w, ks[a], ks[b], ks[j])
  }

  /** Nothing is kept without need: every inner vertex kept splits a run between two vertices that are also kept; and
      when the whole run may be dropped, only its ends are left. */
  ghost predicate Needed(rule: Rule, tol: real, w: seq<Vect>, ks: seq<nat>) {
    && (RunOk(rule, tol, w) ==> |ks| == 2)
    && forall j {:trigger NeededAt(rule, tol, w, ks, j)} :: 0 < j < |ks| - 1 ==> NeededAt(rule, tol, w, ks, j)
  }

  lemma NeededFirst(rule: Rule, tol: real, w: seq<Vect>, m: nat, ks: seq<nat>, more: seq<nat>, j: nat)
    requires 0 < m < |w| - 1 && NeededAt(rule, tol, w[..m + 1], ks, j)
    ensures NeededAt(rule, tol, w, ks + more, j)
  {
    var a, b :| 0 <= a < j < b < |ks| && SplitsBetween(rule, tol, w[..m + 1], ks[a], ks[b], ks[j]);
    assert w[..m + 1][ks[a]..ks[b] + 1] == w[ks[a]..ks[b] + 1];
    assert SplitsBetween(rule, tol, w, (ks + more)[a], (ks + more)[b], (ks + more)[j]);
  }

  lemma NeededLast(rule: Rule, tol: real, w: seq<Vect>, m: nat, ks: seq<nat>, ls: seq<nat>, j: nat)
    requires 0 < m < |w| - 1 && |ks| > 0 && ks[|ks| - 1] == m && |ls| > 0 && ls[0] == 0
    requires 0 < j && NeededAt(rule, tol, w[m..], ls, j)
    ensures NeededAt(rule, tol, w, ks + Shifted(ls, m)[1..], |ks| - 1 + j)
  {
    var all := ks + Shifted(ls, m)[1..];
    var a, b :| 0 <= a < j < b < |ls| && SplitsBetween(rule, tol, w[m..], ls[a], ls[b], ls[j]);
    assert w[m..][ls[a]..ls[b] + 1] == w[ls[a] + m..ls[b] + m + 1];
    assert all[|ks| - 1 + a] == ls[a] + m && all[|ks| - 1 + b] == ls[b] + m && all[|ks| - 1 + j] == ls[j] + m;
    assert SplitsBetween(rule, tol, w, all[|ks| - 1 + a], all[|ks| - 1 + b], all[|ks| - 1 + j]);
  }

  /** The two halves of a run, joined at the place that splits it. */
  lemma NeededJoins(rule: Rule, tol: real, w: seq<Vect>, m: nat, ks: seq<nat>, ls: seq<nat>)
    requires SplitsAt(rule, tol, w, m) && |ks| >= 2 && ks[0] == 0 && ks[|ks| - 1] == m && |ls| >= 2 && ls[0] == 0
    requires ls[|ls| - 1] == |w| - 1 - m && Needed(rule, tol, w[..m + 1], ks) && Needed(rule, tol, w[m..], ls)
    ensures Needed(rule, tol, w, ks + Shifted(ls, m)[1..])
  {
    var all := ks + Shifted(ls, m)[1..];
    forall j | 0 < j < |all| - 1 ensures NeededAt(rule, tol, w, all, j) {
      if j < |ks| - 1 {
        assert NeededAt(rule, tol, w[..m + 1], ks, j);
        NeededFirst(rule, tol, w, m, ks, Shifted(ls, m)[1..], j);
      } else if j == |ks| - 1 {
        assert w[0..|w|] == w && all[j] == m && all[|all| - 1] == |w| - 1;
        assert SplitsBetween(rule, tol, w, all[0], all[|all| - 1], all[j]);
      } else {
        assert NeededAt(rule, tol, w[m..], ls, j - (|ks| - 1));
        NeededLast(rule, tol, w, m, ks, ls, j - (|ks| - 1));
      }
    }
  }

  lemma {:induction false} KeptNeeded(rule: Rule, tol: real, w: seq<Vect>)
    requires tol >= 0.0 && |w| >= 2
    ensures Needed(rule, tol, w, Kept(rule, tol, w))
    decreases |w|
  {
    var m := SplitPlace(rule, tol, w);
    if m > 0 {
      KeptNeeded(rule, tol, w[..m + 1]);
      KeptNeeded(rule, tol, w[m..]);
      NeededJoins(rule, tol, w, m, Kept(rule, tol, w[..m + 1]), Kept(rule, tol, w[m..]));
      KeptSplit(rule, tol, w, m);
    }
  }

  lemma KeptSplit(rule: Rule, tol: real, w: seq<Vect>, m: nat)
    requires tol >= 0.0 && m == SplitPlace(rule, tol, w) > 0
    ensures Kept(rule, tol, w) == Kept(rule, tol, w[..m + 1]) + Shifted(Kept(rule, tol, w[m..]), m)[1..]
  {
    Ends(w, m, Peucker(rule, tol, w), Peucker(rule, tol, w[..m + 1]), Peucker(rule, tol, w[m..]));
  }

  lemma Ends(w: seq<Vect>, m: nat, all: seq<nat>, ps: seq<nat>, qs: seq<nat>)
    requires m < |w| && all == ps + [m] + Shifted(qs, m)
    ensures [0] + all + [|w| - 1] == ([0] + ps + [|w[..m + 1]| - 1]) + Shifted([0] + qs + [|w[m..]| - 1], m)[1..]
  {
    Spliced(ps, qs, m, |w| - 1);
  }

  lemma Spliced(ps: seq<nat>, qs: seq<nat>, m: nat, n: nat)
    requires m <= n
    ensures [0] + (ps + [m] + Shifted(qs, m)) + [n] == ([0] + ps + [m]) + Shifted([0] + qs + [n - m], m)[1..]
  {
    assert Shifted([0] + qs + [n - m], m)[1..] == Shifted(qs, m) + [n];
  }

  /** The ends of a line lie on it. */
  ghost predicate OnLine(rule: Rule) {
    forall a, b :: rule.off(a, b, a) == 0.0 && rule.off(a, b, b) == 0.0
  }

  ghost predicate StepApart(w: seq<Vect>, x: nat, y: nat) {
    x < |w| && y < |w| && w[x] != w[y]
  }

  ghost predicate Apart(w: seq<Vect>, ks: seq<nat>) {
    forall i :: 0 <= i < |ks| - 1 ==> StepApart(w, ks[i], ks[i + 1])
  }

  /** So a vertex that splits a run differs from its ends, and no two neighbours of the result coincide: there is a
      line through them. */
  lemma {:induction false} KeptApart(rule: Rule, tol: real, w: seq<Vect>)
    requires tol >= 0.0 && |w| >= 2 && OnLine(rule) && w[0] != w[|w| - 1]
    ensures Apart(w, Kept(rule, tol, w))
    decreases |w|
  {
    var m := SplitPlace(rule, tol, w);
    if m > 0 {
      KeptApart(rule, tol, w[..m + 1]);
      KeptApart(rule, tol, w[m..]);
      KeptSplit(rule, tol, w, m);
      ApartJoins(w, m, Kept(rule, tol, w[..m + 1]), Kept(rule, tol, w[m..]));
    }
  }

  lemma ApartJoins(w: seq<Vect>, m: nat, ks: seq<nat>, ls: seq<nat>)
    requires m < |w| && Apart(w[..m + 1], ks) && Apart(w[m..], ls) && |ks| >= 2 && |ls| >= 2 && ks[|ks| - 1] == m
    requires ls[0] == 0
    ensures Apart(w, ks + Shifted(ls, m)[1..])
  {
    var all := ks + Shifted(ls, m)[1..];
    forall i | 0 <= i < |all| - 1 ensures StepApart(w, all[i], all[i + 1]) {
      if i < |ks| - 1 {
        assert StepApart(w[..m + 1], ks[i], ks[i + 1]);
      } else {
        assert StepApart(w[m..], ls[i - (|ks| - 1)], ls[i - (|ks| - 1) + 1]);
      }
    }
  }

  /** The vertices at the given places. */
  function Picked(w: seq<Vect>, ks: seq<nat>): (r: seq<Vect>)
    requires forall i :: 0 <= i < |ks| ==> ks[i] < |w|
    ensures |r| == |ks|
  {
    seq(|ks|, i requires 0 <= i < |ks| => w[ks[i]])
  }

  lemma {:induction false} PeuckerInside(rule: Rule, tol: real, w: seq<Vect>)
    requires tol >= 0.0
    ensures forall i :: 0 <= i < |Peucker(rule, tol, w)| ==> 0 < Peucker(rule, tol, w)[i] < |w| - 1
    decreases |w|
  {
    var m := SplitPlace(rule, tol, w);
    if m > 0 {
      PeuckerInside(rule, tol, w[..m + 1]);
      PeuckerInside(rule, tol, w[m..]);
    }
  }

  lemma PickedSplit(rule: Rule, tol: real, w: seq<Vect>, m: nat)
    requires tol >= 0.0 && m == SplitPlace(rule, tol, w) > 0
    ensures Middle(rule, tol, w) == Middle(rule, tol, w[..m + 1]) + [w[m]] + Middle(rule, tol, w[m..])
  {
    PeuckerInside(rule, tol, w);
    PeuckerInside(rule, tol, w[..m + 1]);
    PeuckerInside(rule, tol, w[m..]);
    PickedSpliced(w, m, Peucker(rule, tol, w[..m + 1]), Peucker(rule, tol, w[m..]));
  }

  lemma PickedSpliced(w: seq<Vect>, m: nat, ps: seq<nat>, qs: seq<nat>)
    requires m < |w| && (forall i :: 0 <= i < |ps| ==> ps[i] <= m) && forall i :: 0 <= i < |qs| ==> qs[i] + m < |w|
    ensures forall i :: 0 <= i < |ps + [m] + Shifted(qs, m)| ==> (ps + [m] + Shifted(qs, m))[i] < |w|
    ensures Picked(w, ps + [m] + Shifted(qs, m)) == Picked(w[..m + 1], ps) + [w[m]] + Picked(w[m..], qs)
  {
  }

  /** The vertices kept between the ends of w. */
  function Middle(rule: Rule, tol: real, w: seq<Vect>): seq<Vect>
    requires tol >= 0.0
  {
    PeuckerInside(rule, tol, w);
    Picked(w, Peucker(rule, tol, w))
  }
}

/** The simplification of polylines, which may be looped. */
module Simplification {
  import opened Reals
  import opened Vectors
  import opened Runs
  import opened Measures
  import opened Closeness
  import opened HullFunction
  import opened QuickHull

  // ---- runs of a loop ----

  function Next(i: nat, n: nat): nat
    requires n > 0
  {
    (i + 1) % n
  }

  /** The place o steps after start in a loop of n. */
  function Cyc(start: nat, o: nat, n: nat): nat
    requires start < n && o <= n
  {
    if start + o < n then start + o else start + o - n
  }

  /** How many steps lead from start to end. */
  function Gap(start: nat, end: nat, n: nat): nat
    requires start < n && end < n
  {
    (end - start + n) % n
  }

  lemma ModOnce(x: nat, n: nat)
    requires 0 < n && x < 2 * n
    ensures x % n == if x < n then x else x - n
  {
    if x >= n {
      assert x == n * 1 + (x - n);
    }
  }

  lemma NextCyc(start: nat, o: nat, n: nat)
    requires start < n && o < n
    ensures Next(Cyc(start, o, n), n) == Cyc(start, o + 1, n)
  {
    ModOnce(Cyc(start, o, n) + 1, n);
  }

  lemma GapIs(start: nat, end: nat, n: nat)
    requires start < n && end < n
    ensures Gap(start, end, n) < n && Cyc(start, Gap(start, end, n), n) == end
    ensures Gap(start, end, n) == if end >= start then end - start else end - start + n
    ensures forall o :: 0 <= o < Gap(start, end, n) ==> Cyc(start, o, n) != end
  {
    ModOnce(end - start + n, n);
  }

  /** The vertices from start on, k steps far. */
  function Run(verts: seq<Vect>, n: nat, start: nat, k: nat): (w: seq<Vect>)
    requires start < n <= |verts| && k <= n
    ensures |w| == k + 1
  {
    seq(k + 1, o requires 0 <= o < k + 1 => verts[Cyc(start, o, n)])
  }

  /** A run split at place m. */
  lemma RunSplit(verts: seq<Vect>, n: nat, start: nat, end: nat, m: nat)
    requires start < n <= |verts| && end < n && 0 < m < Gap(start, end, n)
    ensures var k, mid := Gap(start, end, n), Cyc(start, m, n);
            && k <= n && mid < n && Gap(start, mid, n) == m && Gap(mid, end, n) == k - m && m < n && k - m < n
            && Run(verts, n, start, m) == Run(verts, n, start, k)[..m + 1]
              && Run(verts, n, mid, k - m) == Run(verts, n, start, k)[m..]
  {
    GapIs(start, end, n);
    var k, mid := Gap(start, end, n), Cyc(start, m, n);
    GapIs(start, mid, n);
    GapIs(mid, end, n);
  }

  // ---- the algorithm ----

  method IsShort(mt: Metric, points: array<Vect>, count: nat, start: nat, end: nat, min: real) returns (r: bool)
    requires start < count <= points.Length && end < count
    ensures Gap(start, end, count) < count
    ensures r == ShortFrom(mt, Run(points[..], count, start, Gap(start, end, count)), 0, 0.0, min)
  {
    GapIs(start, end, count);
    ghost var w := Run(points[..], count, start, Gap(start, end, count));
    var length := 0.0;
    var i := start;
    ghost var o := 0;
    while i != end
      invariant 0 <= o <= Gap(start, end, count) && i == Cyc(start, o, count)
      invariant ShortFrom(mt, w, 0, 0.0, min) == ShortFrom(mt, w, o, length, min)
      decreases Gap(start, end, count) - o
    {
      NextCyc(start, o, count);
      assert w[o] == points[i] && w[o + 1] == points[Next(i, count)];
      length := length + Dist(mt, points[i], points[Next(i, count)]);
      if length > min {
        return false;
      }
      i := Next(i, count);
      o := o + 1;
    }
    return true;
  }

  method Distance(mt: Metric, a: Vect, b: Vect, v: Vect, min: real, ghost rule: Rule) returns (d: real)
    requires Usable(mt) && RuleFor(rule, mt, min)
    ensures d == rule.off(a, b, v)
  {
    assert OffAt(rule, mt, a, b, v);
    var n := Normalize(mt, Perp(Sub(b, a)));
    d := Abs(Dot(n, v) - Dot(n, a));
  }

  /** The vertex of a run that is farthest off the line through a and b, its place maxi in the loop, and its place m
      in the run. */
  method FindMax(mt: Metric, verts: array<Vect>, length: nat, start: nat, end: nat, min: real, ghost rule: Rule,
                 ghost w: seq<Vect>)
    returns (max: real, maxi: nat, ghost m: nat)
    requires Usable(mt) && RuleFor(rule, mt, min)
    requires start < length <= verts.Length && end < length && 2 <= Gap(start, end, length) < length
    requires w == Run(verts[..], length, start, Gap(start, end, length))
    ensures (max, m) == Farthest(rule, w[0], w[|w| - 1], w, |w| - 1)
    ensures m <= Gap(start, end, length) && maxi == Cyc(start, m, length)
  {
    GapIs(start, end, length);
    ghost var k := Gap(start, end, length);
    var a, b := verts[start], verts[end];
    max, maxi, m := 0.0, start, 0;
    NextCyc(start, 0, length);
    var i := Next(start, length);
    ghost var o := 1;
    while i != end
      invariant 1 <= o <= k && i == Cyc(start, o, length) && m < o && maxi == Cyc(start, m, length)
      invariant (max, m) == Farthest(rule, a, b, w, o)
      decreases k - o
    {
      NextCyc(start, o, length);
      RunAt(verts[..], length, start, k, o);
      var dist := Distance(mt, a, b, verts[i], min, rule);
      if dist > max {
        max, maxi, m := dist, i, o;
      }
      i := Next(i, length);
      o := o + 1;
    }
  }

  lemma RunAt(verts: seq<Vect>, n: nat, start: nat, k: nat, o: nat)
    requires start < n <= |verts| && k <= n && o <= k
    ensures Cyc(start, o, n) < n && Run(verts, n, start, k)[o] == verts[Cyc(start, o, n)]
  {
  }

  /** The check for runs that are dropped whatever their form. */
  method Droppable(mt: Metric, verts: array<Vect>, length: nat, start: nat, end: nat, min: real, ghost rule: Rule,
                   ghost w: seq<Vect>) returns (r: bool)
    requires Usable(mt) && RuleFor(rule, mt, min)
    requires start < length <= verts.Length && end < length && Gap(start, end, length) < length
    requires w == Run(verts[..], length, start, Gap(start, end, length))
    ensures r == rule.skip(w)
  {
    GapIs(start, end, length);
    assert SkipAt(rule, mt, min, w) && w[0] == verts[start] && w[|w| - 1] == verts[end];
    r := Near(verts[start], verts[end], min);
    if r {
      r := IsShort(mt, verts, length, start, end, min);
    }
  }

  /** Whether and where a run is split. */
  method FindSplit(mt: Metric, verts: array<Vect>, length: nat, start: nat, end: nat, min: real, tol: real,
                   ghost rule: Rule, ghost w: seq<Vect>)
    returns (split: bool, maxi: nat, ghost m: nat)
    requires Usable(mt) && RuleFor(rule, mt, min) && tol >= 0.0
    requires start < length <= verts.Length && end < length && Gap(start, end, length) < length
    requires w == Run(verts[..], length, start, Gap(start, end, length))
    ensures m == SplitPlace(rule, tol, w) && (split <==> m > 0) && m <= Gap(start, end, length)
    ensures maxi == Cyc(start, m, length)
  {
    split, maxi, m := false, start, 0;
    if Gap(start, end, length) < 2 {
      return;
    }
    var drop := Droppable(mt, verts, length, start, end, min, rule, w);
    if !drop {
      var max;
      max, maxi, m := FindMax(mt, verts, length, start, end, min, rule, w);
      split := max > tol;
      SplitIs(rule, tol, w, max, m);
      if !split {
        maxi, m := start, 0;
      }
    }
  }

  lemma SplitIs(rule: Rule, tol: real, w: seq<Vect>, max: real, m: nat)
    requires tol >= 0.0 && |w| >= 3 && !rule.skip(w) && (max, m) == Farthest(rule, w[0], w[|w| - 1], w, |w| - 1)
    ensures SplitPlace(rule, tol, w) == if max > tol then m else 0
    ensures max > tol ==> m > 0
  {
  }

  method DouglasPeucker(mt: Metric, verts: array<Vect>, reduced: seq<Vect>, length: nat, start: nat, end: nat,
                        min: real, tol: real, ghost rule: Rule)
    returns (r: seq<Vect>)
    requires Usable(mt) && RuleFor(rule, mt, min) && tol >= 0.0 && start < length <= verts.Length && end < length
    ensures Gap(start, end, length) < length
    ensures r == reduced + Middle(rule, tol, Run(verts[..], length, start, Gap(start, end, length)))
    decreases Gap(start, end, length)
  {
    GapIs(start, end, length);
    var split, maxi;
    ghost var m;
    split, maxi,
      m := FindSplit(mt, verts, length, start, end, min, tol, rule,
      Run(verts[..], length, start, Gap(start, end, length)));
    if split {
      RunSplit(verts[..], length, start, end, m);
      r := DouglasPeucker(mt, verts, reduced, length, start, maxi, min, tol, rule);
      ghost var r1 := r;
      r := r + [verts[maxi]];
      r := DouglasPeucker(mt, verts, r, length, maxi, end, min, tol, rule);
      ghost var w := Run(verts[..], length, start, Gap(start, end, length));
      assert w[m] == verts[maxi];
      BothHalves(rule, tol, w, m, Run(verts[..], length, start, m),
        Run(verts[..], length, maxi, Gap(maxi, end, length)), reduced, r1, r);
    } else {
      NothingKept(rule, tol, Run(verts[..], length, start, Gap(start, end, length)));
      r := reduced;
    }
  }

  lemma BothHalves(rule: Rule, tol: real, w: seq<Vect>, m: nat, w1: seq<Vect>, w2: seq<Vect>, reduced: seq<Vect>,
                   r1: seq<Vect>, r: seq<Vect>)
    requires tol >= 0.0 && 0 < m == SplitPlace(rule, tol, w) && w1 == w[..m + 1] && w2 == w[m..]
    requires r1 == reduced + Middle(rule, tol, w1) && r == r1 + [w[m]] + Middle(rule, tol, w2)
    ensures r == reduced + Middle(rule, tol, w)
  {
    PickedSplit(rule, tol, w, m);
    Assoc(reduced, Middle(rule, tol, w1), w[m], Middle(rule, tol, w2));
  }

  lemma Assoc<T>(a: seq<T>, b: seq<T>, x: T, c: seq<T>)
    ensures a + b + [x] + c == a + (b + [x] + c)
  {
  }

  lemma EndsOf(verts: seq<Vect>, n: nat, start: nat, end: nat)
    requires start < n <= |verts| && end < n
    ensures Gap(start, end, n) < n
    ensures var w := Run(verts, n, start, Gap(start, end, n)); w[0] == verts[start] && w[|w| - 1] == verts[end]
  {
    GapIs(start, end, n);
  }

  lemma NothingKept(rule: Rule, tol: real, w: seq<Vect>)
    requires tol >= 0.0 && SplitPlace(rule, tol, w) == 0
    ensures Middle(rule, tol, w) == []
  {
  }

  // ---- whole polylines ----

  method IsClosed(verts: array<Vect>) returns (r: bool)
    ensures r == (verts.Length > 1 && verts[0] == verts[verts.Length - 1])
  {
    r := verts.Length > 1 && verts[0] == verts[verts.Length - 1];
  }

  /** out is w with vertices left out that are close to what replaces them, its ends kept, and nothing else kept without
      need. */
  ghost predicate Simplified(rule: Rule, tol: real, w: seq<Vect>, out: seq<Vect>) {
    exists ks ::
      Approximates(rule, tol, w, ks) && Needed(rule, tol, w, ks) && Inside(w, ks) && out == Picked(w, ks)
  }

  /** out simplifies the two runs of w that meet at place m. */
  ghost predicate SimplifiedAt(rule: Rule, tol: real, w: seq<Vect>, m: nat, out: seq<Vect>) {
    && 0 < m < |w| - 1
    && exists first, second :: Simplified(rule, tol, w[..m + 1], first) && Simplified(rule, tol, w[m..], second)
         && |second| > 0 && out == first + second[1..]
  }

  /** The loop w starts at its lexicographically least vertex, and has the greatest at m. */
  predicate FromEndToEnd(w: seq<Vect>, m: nat) {
    && m < |w|
    && forall i :: 0 <= i < |w| ==>
         && (w[0].x < w[i].x || (w[0].x == w[i].x && w[0].y <= w[i].y))
         && (w[i].x < w[m].x || (w[i].x == w[m].x && w[i].y <= w[m].y))
  }

  ghost predicate Inside(w: seq<Vect>, ks: seq<nat>) {
    forall i :: 0 <= i < |ks| ==> ks[i] < |w|
  }

  /** The simplification of one run, with its ends. */
  lemma OneRun(rule: Rule, tol: real, w: seq<Vect>)
    requires tol >= 0.0 && |w| >= 2
    ensures Simplified(rule, tol, w, [w[0]] + Middle(rule, tol, w) + [w[|w| - 1]])
  {
    PeuckerInside(rule, tol, w);
    KeptApproximates(rule, tol, w);
    KeptNeeded(rule, tol, w);
    assert Picked(w, Kept(rule, tol, w)) == [w[0]] + Middle(rule, tol, w) + [w[|w| - 1]];
  }

  /** The simplification of a loop in two runs that meet at place m. */
  lemma TwoRuns(rule: Rule, tol: real, w: seq<Vect>, m: nat)
    requires tol >= 0.0 && 0 < m < |w| - 1
    ensures SimplifiedAt(rule, tol, w, m,
      [w[0]] + Middle(rule, tol, w[..m + 1]) + [w[m]] + Middle(rule, tol, w[m..]) + [w[|w| - 1]])
  {
    var u, v := w[..m + 1], w[m..];
    OneRun(rule, tol, u);
    OneRun(rule, tol, v);
    var first, second := [u[0]] + Middle(rule, tol, u) + [u[|u| - 1]], [v[0]] + Middle(rule, tol, v) + [v[|v| - 1]];
    assert [w[0]] + Middle(rule, tol, u) + [w[m]] + Middle(rule, tol, v) + [w[|w| - 1]] == first + second[1..];
  }

  /** So the loop as a whole is approximated. */
  lemma TwoApproximate(rule: Rule, tol: real, w: seq<Vect>, m: nat, out: seq<Vect>) returns (ks: seq<nat>)
    requires SimplifiedAt(rule, tol, w, m, out)
    ensures Approximates(rule, tol, w, ks) && Inside(w, ks) && out == Picked(w, ks)
  {
    var first, second :| Simplified(rule, tol, w[..m + 1], first) && Simplified(rule, tol, w[m..], second)
      && |second| > 0 && out == first + second[1..];
    var ls :| Approximates(rule, tol, w[..m + 1], ls) && Needed(rule, tol, w[..m + 1], ls) && Inside(w[..m + 1], ls)
      && first == Picked(w[..m + 1], ls);
    var rs :| Approximates(rule, tol, w[m..], rs) && Needed(rule, tol, w[m..], rs) && Inside(w[m..], rs)
      && second == Picked(w[m..], rs);
    Joins(rule, tol, w, m, ls, rs);
    PickedJoined(w, m, ls, rs);
    ks := ls + Shifted(rs, m)[1..];
  }

  lemma PickedJoined(w: seq<Vect>, m: nat, ks: seq<nat>, ls: seq<nat>)
    requires m < |w| && Inside(w[..m + 1], ks) && Inside(w[m..], ls) && |ls| > 0
    ensures Inside(w, ks + Shifted(ls, m)[1..])
    ensures Picked(w, ks + Shifted(ls, m)[1..]) == Picked(w[..m + 1], ks) + Picked(w[m..], ls)[1..]
  {
  }

  lemma LoopSplit(verts: seq<Vect>, n: nat, start: nat, end: nat)
    requires start < n <= |verts| && end < n && start != end
    ensures var w, k := Run(verts, n, start, n), Gap(start, end, n);
            && 0 < k < n && Gap(end, start, n) == n - k && w[0] == verts[start] && w[k] == verts[end]
              && w[n] == verts[start]
            && Run(verts, n, start, k) == w[..k + 1] && Run(verts, n, end, n - k) == w[k..]
  {
    GapIs(start, end, n);
    GapIs(end, start, n);
  }

  /** The two runs of a loop between its lexicographic extremes. */
  method SimplifyLoop(mt: Metric, verts: array<Vect>, n: nat, start: nat, end: nat, min: real, tol: real,
                      ghost rule: Rule) returns (out: seq<Vect>)
    requires Usable(mt) && RuleFor(rule, mt, min) && tol >= 0.0 && start < n <= verts.Length && end < n
    ensures start != end ==>
              SimplifiedAt(rule, tol, Run(verts[..], n, start, n), Gap(start, end, n), out)
    ensures start == end ==> out == [verts[start], verts[start], verts[start]]
    ensures |out| >= 3 && out[0] == out[|out| - 1] == verts[start]
  {
    var first := DouglasPeucker(mt, verts, [verts[start]], n, start, end, min, tol, rule);
    out := DouglasPeucker(mt, verts, first + [verts[end]], n, end, start, min, tol, rule);
    out := out + [verts[start]];
    LoopIs(rule, tol, verts[..], n, start, end, out);
  }

  lemma LoopIs(rule: Rule, tol: real, s: seq<Vect>, n: nat, start: nat, end: nat, out: seq<Vect>)
    requires tol >= 0.0 && start < n <= |s| && end < n && Gap(start, end, n) < n && Gap(end, start, n) < n
    requires out == [s[start]] + Middle(rule, tol, Run(s, n, start, Gap(start, end, n))) + [s[end]]
      + Middle(rule, tol, Run(s, n, end, Gap(end, start, n))) + [s[start]]
    ensures start != end ==> SimplifiedAt(rule, tol, Run(s, n, start, n), Gap(start, end, n), out)
    ensures start == end ==> out == [s[start], s[start], s[start]]
  {
    if start != end {
      LoopSplit(s, n, start, end);
      TwoRuns(rule, tol, Run(s, n, start, n), Gap(start, end, n));
    } else {
      NoSteps(rule, tol, s, n, start);
    }
  }

  lemma NoSteps(rule: Rule, tol: real, s: seq<Vect>, n: nat, start: nat)
    requires tol >= 0.0 && start < n <= |s|
    ensures Gap(start, start, n) < n && Middle(rule, tol, Run(s, n, start, Gap(start, start, n))) == []
  {
    GapIs(start, start, n);
    NothingKept(rule, tol, Run(s, n, start, 0));
  }

  lemma OpenRun(verts: seq<Vect>)
    requires |verts| > 0
    ensures Gap(0, |verts| - 1, |verts|) == |verts| - 1 && Run(verts, |verts|, 0, |verts| - 1) == verts
  {
    GapIs(0, |verts| - 1, |verts|);
  }

  ghost predicate Looped(s: seq<Vect>) {
    |s| > 1 && s[0] == s[|s| - 1]
  }

  ghost predicate AllSame(s: seq<Vect>) {
    forall i :: 0 <= i < |s| ==> s[i] == s[0]
  }

  /** out simplifies the loop s, seen from place start on; three times the same vertex when s has no other. */
  ghost predicate LoopSimplified(rule: Rule, tol: real, s: seq<Vect>, start: nat, out: seq<Vect>)
    requires Looped(s)
  {
    && Looped(out) && start < |s| - 1
    && if AllSame(s) then out == [s[0], s[0], s[0]] else LoopReduced(rule, tol, Run(s, |s| - 1, start, |s| - 1), out)
  }

  /** The loop w, from its least to its greatest vertex and back. */
  ghost predicate LoopReduced(rule: Rule, tol: real, w: seq<Vect>, out: seq<Vect>) {
    exists m :: FromEndToEnd(w, m) && SimplifiedAt(rule, tol, w, m, out)
  }

  /** Run goes once round the loop. */
  lemma RoundTheLoop(s: seq<Vect>, start: nat, o: nat)
    requires Looped(s) && start < |s| - 1 && o < |s|
    ensures |Run(s, |s| - 1, start, |s| - 1)| == |s|
    ensures Run(s, |s| - 1, start, |s| - 1)[o] == s[(start + o) % (|s| - 1)]
  {
    ModOnce(start + o, |s| - 1);
  }

  lemma LoopExtremes(s: seq<Vect>, from: nat, to: nat)
    requires Looped(s) && from < |s| - 1 && to < |s| - 1 && from != to
    requires Extremes(PointsOf(s[..|s| - 1]), s[from], s[to])
    ensures FromEndToEnd(Run(s, |s| - 1, from, |s| - 1), Gap(from, to, |s| - 1))
  {
    var n := |s| - 1;
    var w := Run(s, n, from, n);
    GapIs(from, to, n);
    forall i | 0 <= i < |w|
      ensures && (w[0].x < w[i].x || (w[0].x == w[i].x && w[0].y <= w[i].y))
              && (w[i].x < s[to].x || (w[i].x == s[to].x && w[i].y <= s[to].y))
    {
      var c := Cyc(from, i, n);
      assert w[i] == s[c] && s[c] == s[..n][c] && s[c] in PointsOf(s[..n]);
    }
  }

  method SimplifyClosed(mt: Metric, verts: array<Vect>, min: real, tol: real, ghost rule: Rule)
    returns (out: seq<Vect>, ghost start: nat)
    requires Usable(mt) && RuleFor(rule, mt, min) && tol >= 0.0 && Looped(verts[..])
    ensures LoopSimplified(rule, tol, verts[..], start, out)
  {
    var from, to := LoopIndexes(verts, verts.Length - 1);
    start := from;
    SameExtremes(verts, from, to);
    out := SimplifyLoop(mt, verts, verts.Length - 1, from, to, min, tol, rule);
    ClosedIs(rule, tol, verts[..], from, to, out);
  }

  lemma ClosedIs(rule: Rule, tol: real, s: seq<Vect>, from: nat, to: nat, out: seq<Vect>)
    requires Looped(s) && from < |s| - 1 && to < |s| - 1 && (from == to <==> AllSame(s)) && Looped(out)
    requires Extremes(PointsOf(s[..|s| - 1]), s[from], s[to])
    requires from != to ==> SimplifiedAt(rule, tol, Run(s, |s| - 1, from, |s| - 1), Gap(from, to, |s| - 1), out)
    requires from == to ==> out == [s[from], s[from], s[from]]
    ensures LoopSimplified(rule, tol, s, from, out)
  {
    if from != to {
      LoopExtremes(s, from, to);
    }
  }

  method SimplifyOpen(mt: Metric, verts: array<Vect>, min: real, tol: real, ghost rule: Rule) returns (out: seq<Vect>)
    requires Usable(mt) && RuleFor(rule, mt, min) && tol >= 0.0 && verts.Length > 0
    ensures if verts.Length > 1 then Simplified(rule, tol, verts[..], out) else out == [verts[0], verts[0]]
  {
    out := DouglasPeucker(mt, verts, [verts[0]], verts.Length, 0, verts.Length - 1, min, tol, rule);
    out := out + [verts[verts.Length - 1]];
    OpenIs(rule, tol, verts[..], out);
  }

  lemma OpenIs(rule: Rule, tol: real, w: seq<Vect>, out: seq<Vect>)
    requires tol >= 0.0 && |w| > 0 && Gap(0, |w| - 1, |w|) < |w|
    requires out == [w[0]] + Middle(rule, tol, Run(w, |w|, 0, Gap(0, |w| - 1, |w|))) + [w[|w| - 1]]
    ensures if |w| > 1 then Simplified(rule, tol, w, out) else out == [w[0], w[0]]
  {
    OpenRun(w);
    if |w| > 1 {
      OneRun(rule, tol, w);
    } else {
      NothingKept(rule, tol, w);
    }
  }

  // ---- how close the result is ----

  lemma SimplifiedNear(rule: Rule, mt: Metric, min: real, tol: real, w: seq<Vect>, out: seq<Vect>)
    requires Euclidean(mt) && RuleFor(rule, mt, min) && 0.0 <= min <= tol && Simplified(rule, tol, w, out)
    ensures NeverFarther(mt, tol, w, out)
  {
    var ks :| Approximates(rule, tol, w, ks) && Needed(rule, tol, w, ks) && Inside(w, ks) && out == Picked(w, ks);
    ReducedNear(rule, mt, min, tol, w, ks);
  }

  /** A loop seen from another vertex has the same points. */
  lemma SameLoop(s: seq<Vect>, start: nat, p: Vect)
    requires Looped(s) && start < |s| - 1 && OnPolyline(p, Run(s, |s| - 1, start, |s| - 1))
    ensures OnPolyline(p, s)
  {
    var n := |s| - 1;
    var w := Run(s, n, start, n);
    if p in w {
      var o :| 0 <= o < |w| && w[o] == p;
      assert s[Cyc(start, o, n)] == p;
    } else {
      var o :| 0 <= o < |w| - 1 && OnStep(p, w, o);
      var c := Cyc(start, o, n);
      assert w[o] == s[c] && w[o + 1] == s[c + 1];
      assert OnStep(p, s, c);
    }
  }

  lemma LoopNear(mt: Metric, tol: real, s: seq<Vect>, start: nat, a: Vect, b: Vect)
    requires Looped(s) && start < |s| - 1 && SegmentNear(mt, tol, Run(s, |s| - 1, start, |s| - 1), a, b)
    ensures SegmentNear(mt, tol, s, a, b)
  {
    var w := Run(s, |s| - 1, start, |s| - 1);
    var d := tol * Stretch(mt, a, b);
    forall x | 0.0 <= x <= 1.0 ensures WithinDist(mt, Between(a, b, x), s, d) {
      assert WithinDist(mt, Between(a, b, x), w, d);
      var q :| OnPolyline(q, w) && Dist(mt, Between(a, b, x), q) <= d;
      SameLoop(s, start, q);
    }
  }

  lemma SamePointNear(mt: Metric, tol: real, w: seq<Vect>, out: seq<Vect>)
    requires Euclidean(mt) && tol >= 0.0 && |w| > 0 && forall i :: 0 <= i < |out| ==> out[i] == w[0]
    ensures NeverFarther(mt, tol, w, out)
  {
    var a := w[0];
    forall i | 0 <= i < |out| - 1 ensures SegmentAt(mt, tol, w, out, i) {
      forall s | 0.0 <= s <= 1.0 ensures WithinDist(mt, Between(a, a, s), w, tol * Stretch(mt, a, a)) {
        BetweenSame(a, s);
        StretchAtLeast(mt, a, a, tol);
        OnItself(mt, w, a, tol * Stretch(mt, a, a));
      }
    }
  }

  lemma LoopSimplifiedNear(rule: Rule, mt: Metric, min: real, tol: real, s: seq<Vect>, start: nat, out: seq<Vect>)
    requires Euclidean(mt) && RuleFor(rule, mt, min) && 0.0 <= min <= tol && Looped(s)
    requires LoopSimplified(rule, tol, s, start, out)
    ensures NeverFarther(mt, tol, s, out)
  {
    if AllSame(s) {
      SamePointNear(mt, tol, s, out);
    } else {
      var w := Run(s, |s| - 1, start, |s| - 1);
      var m :| FromEndToEnd(w, m) && SimplifiedAt(rule, tol, w, m, out);
      var ks := TwoApproximate(rule, tol, w, m, out);
      ReducedNear(rule, mt, min, tol, w, ks);
      forall i | 0 <= i < |out| - 1 ensures SegmentAt(mt, tol, s, out, i) {
        assert SegmentAt(mt, tol, w, out, i);
        LoopNear(mt, tol, s, start, out[i], out[i + 1]);
      }
    }
  }

  /** What becomes of a polyline, seen from place start on when it is a loop. */
  ghost predicate CurveSimplified(rule: Rule, tol: real, s: seq<Vect>, start: nat, out: seq<Vect>)
    requires s != []
  {
    if Looped(s) then LoopSimplified(rule, tol, s, start, out)
    else if |s| > 1 then Simplified(rule, tol, s, out)
    else out == [s[0], s[0]]
  }

  /** The reduced polyline is never farther than the tolerance from the original. */
  lemma CurveNear(rule: Rule, mt: Metric, min: real, tol: real, s: seq<Vect>, start: nat, out: seq<Vect>)
    requires Euclidean(mt) && RuleFor(rule, mt, min) && 0.0 <= min <= tol && s != []
    requires CurveSimplified(rule, tol, s, start, out)
    ensures NeverFarther(mt, tol, s, out)
  {
    if Looped(s) {
      LoopSimplifiedNear(rule, mt, min, tol, s, start, out);
    } else if |s| > 1 {
      SimplifiedNear(rule, mt, min, tol, s, out);
    } else {
      SamePointNear(mt, tol, s, out);
    }
  }

  lemma CurveNearIf(rule: Rule, mt: Metric, tol: real, s: seq<Vect>, start: nat, out: seq<Vect>)
    requires Usable(mt) && RuleFor(rule, mt, tol / 2.0) && tol >= 0.0 && s != []
    requires CurveSimplified(rule, tol, s, start, out)
    ensures Euclidean(mt) ==> NeverFarther(mt, tol, s, out)
  {
    if Euclidean(mt) {
      CurveNear(rule, mt, tol / 2.0, tol, s, start, out);
    }
  }

  /** A polyline with vertices left out that are close to what replaces them; loops stay loops, and no point of the
      result is farther than tol from the original. */
  method SimplifyCurves(mt: Metric, verts: array<Vect>, tol: real, ghost rule: Rule)
    returns (out: seq<Vect>, ghost start: nat)
    requires Usable(mt) && RuleFor(rule, mt, tol / 2.0) && tol >= 0.0 && verts.Length > 0
    ensures CurveSimplified(rule, tol, verts[..], start, out)
    ensures Euclidean(mt) ==> NeverFarther(mt, tol, verts[..], out)
  {
    var min := tol / 2.0;
    var closed := IsClosed(verts);
    if closed {
      out, start := SimplifyClosed(mt, verts, min, tol, rule);
    } else {
      start := 0;
      out := SimplifyOpen(mt, verts, min, tol, rule);
    }
    CurveNearIf(rule, mt, tol, verts[..], start, out);
  }

  lemma NotLess(p: Vect, q: Vect)
    requires !LexLess(p, q) && !LexLess(q, p)
    ensures p == q
  {
  }

  /** The extremes of a loop are one place only when all its vertices are the same. */
  lemma SameExtremes(verts: array<Vect>, start: nat, end: nat)
    requires verts.Length > 1 && verts[0] == verts[verts.Length - 1] && start < verts.Length - 1
    requires end < verts.Length - 1
    requires (start == end ==> start == 0) && (start != end ==> verts[start] != verts[end])
    requires Extremes(PointsOf(verts[..verts.Length - 1]), verts[start], verts[end])
    ensures start == end <==> AllSame(verts[..])
  {
    if start == end {
      forall i | 0 <= i < verts.Length ensures verts[i] == verts[0] {
        var j := if i < verts.Length - 1 then i else 0;
        assert verts[j] in verts[..verts.Length - 1] && verts[j] in PointsOf(verts[..verts.Length - 1]);
        NotLess(verts[j], verts[start]);
      }
    }
  }

  /** The ends of a line are on it, so no two neighbours of a simplified run coincide unless its ends do. */
  lemma NeighboursApart(mt: Metric, min: real, tol: real, w: seq<Vect>)
    requires Usable(mt) && tol >= 0.0 && |w| >= 2 && w[0] != w[|w| - 1]
    ensures Apart(w, Kept(RuleOf(mt, min), tol, w))
  {
    var rule := RuleOf(mt, min);
    forall a, b ensures rule.off(a, b, a) == 0.0 && rule.off(a, b, b) == 0.0 {
      EndsOff(mt, a, b);
    }
    KeptApart(rule, tol, w);
  }

  // ---- how close the original is ----

  /** A vertex on the line, k before the start of a segment of length 1. */
  function SpikeRun(k: real): seq<Vect> {
    [Vect(0.0, 0.0), Vect(-k, 0.0), Vect(1.0, 0.0)]
  }

  lemma SpikeFlat(rule: Rule, mt: Metric, min: real, tol: real, k: real)
    requires Usable(mt) && RuleFor(rule, mt, min) && tol >= 0.0
    ensures Middle(rule, tol, SpikeRun(k)) == []
  {
    var w := SpikeRun(k);
    FlatOff(mt, w[0], w[2], w[1]);
    assert OffAt(rule, mt, w[0], w[2], w[1]);
    NothingKept(rule, tol, w);
  }

  /** The other way round there is no bound: such a vertex is dropped whatever the tolerance, and is k away from the
      segment that is left. */
  lemma Spike(rule: Rule, mt: Metric, min: real, tol: real, k: real)
    requires Euclidean(mt) && RuleFor(rule, mt, min) && tol >= 0.0 && k > 0.0
    ensures Middle(rule, tol, SpikeRun(k)) == []
    ensures forall dist :: NearSegment(mt, SpikeRun(k)[1], SpikeRun(k)[0], SpikeRun(k)[2], dist) <==> dist >= k
  {
    SpikeFlat(rule, mt, min, tol, k);
    var a, v, b := SpikeRun(k)[0], SpikeRun(k)[1], SpikeRun(k)[2];
    LengthIs(mt, Sub(v, a));
    LeastRoot(Dist(mt, v, a), k, Dist(mt, v, a) * Dist(mt, v, a), k * k);
    LeastRoot(k, Dist(mt, v, a), k * k, Dist(mt, v, a) * Dist(mt, v, a));
    forall dist ensures NearSegment(mt, v, a, b, dist) <==> dist >= k {
      if dist >= k {
        EndNear(mt, v, a, b, dist);
      } else if s :| 0.0 <= s <= 1.0 && Dist(mt, v, Between(a, b, s)) <= dist {
        BeforeStart(mt, v, a, b, s);
      }
    }
  }
}
