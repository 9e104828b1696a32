/** Sums of multisets. */
module Multisets {
  ghost function Sum<T>(bags: seq<multiset<T>>, n: nat): multiset<T>
    requires n <= |bags|
  {
    if n == 0 then multiset{} else Sum(bags, n - 1) + bags[n - 1]
  }

  lemma {:induction false} SumSame<T>(bags: seq<multiset<T>>, bags': seq<multiset<T>>, n: nat)
    requires n <= |bags| && n <= |bags'| && forall k :: 0 <= k < n ==> bags'[k] == bags[k]
    ensures Sum(bags', n) == Sum(bags, n)
  {
    if n > 0 {
      SumSame(bags, bags', n - 1);
    }
  }

  lemma AddOn<T>(a: multiset<T>, b: multiset<T>, c: multiset<T>, d: multiset<T>, e: multiset<T>)
    requires a + b == c + d
    ensures (a + e) + b == (c + e) + d
  {
    forall x ensures ((a + e) + b)[x] == ((c + e) + d)[x] {
      assert (a + b)[x] == (c + d)[x];
    }
  }

  /** One of the first n is another. */
  lemma {:induction false} SumUpdate<T>(bags: seq<multiset<T>>, i: nat, bags': seq<multiset<T>>, n: nat)
    requires i < n <= |bags| && n <= |bags'| && forall k :: 0 <= k < n && k != i ==> bags'[k] == bags[k]
    ensures Sum(bags', n) + bags[i] == Sum(bags, n) + bags'[i]
  {
    if i == n - 1 {
      SumSame(bags, bags', n - 1);
    } else {
      SumUpdate(bags, i, bags', n - 1);
      AddOn(Sum(bags', n - 1), bags[i], Sum(bags, n - 1), bags'[i], bags[n - 1]);
    }
  }

  /** The last one takes the place of number i. */
  lemma SumDeleted<T>(bags: seq<multiset<T>>, i: nat, bags': seq<multiset<T>>)
    requires i < |bags| == |bags'| + 1
    requires forall k :: 0 <= k < |bags'| ==> bags'[k] == if k == i then bags[|bags'|] else bags[k]
    ensures Sum(bags', |bags'|) + bags[i] == Sum(bags, |bags|)
  {
    var n := |bags'|;
    if i == n {
      SumSame(bags, bags', n);
    } else {
      SumUpdate(bags, i, bags', n);
    }
  }
}

/** Polylines and the segments they are made of. */
module Polylines {
  import opened Vectors
  import opened MarchCells
  import opened Multisets

  type Polyline = seq<Vect>

  /** The segments between consecutive vertices. */
  function LineSegments(v: Polyline): seq<Segment> {
    var n := |v|;
    if n < 2 then [] else LineSegments(v[..n - 1]) + [Segment(v[n - 2], v[n - 1])]
  }

  /** The segments of the first n lines. */
  function SegmentsUpTo(lines: seq<Polyline>, n: nat): seq<Segment>
    requires n <= |lines|
  {
    if n == 0 then [] else SegmentsUpTo(lines, n - 1) + LineSegments(lines[n - 1])
  }

  function SetSegments(lines: seq<Polyline>): seq<Segment> {
    SegmentsUpTo(lines, |lines|)
  }

  ghost function LineBag(v: Polyline): multiset<Segment> {
    multiset(LineSegments(v))
  }

  ghost function Bags(lines: seq<Polyline>): (r: seq<multiset<Segment>>)
    ensures |r| == |lines| && forall i :: 0 <= i < |r| ==> r[i] == LineBag(lines[i])
  {
    seq(|lines|, i requires 0 <= i < |lines| => LineBag(lines[i]))
  }

  /** The segments of all lines, each as often as it occurs. */
  ghost function Bag(lines: seq<Polyline>): multiset<Segment> {
    Sum(Bags(lines), |lines|)
  }

  lemma {:induction false} BagIs(lines: seq<Polyline>, n: nat)
    requires n <= |lines|
    ensures Sum(Bags(lines), n) == multiset(SegmentsUpTo(lines, n))
  {
    if n > 0 {
      BagIs(lines, n - 1);
    }
  }

  lemma {:induction false} SegmentsConcat(a: Polyline, b: Polyline)
    requires a != [] && b != []
    ensures LineSegments(a + b) == LineSegments(a) + [Segment(a[|a| - 1], b[0])] + LineSegments(b)
  {
    var n := |b|;
    if n == 1 {
      assert (a + b)[..|a|] == a && LineSegments(b) == [];
    } else {
      SegmentsConcat(a, b[..n - 1]);
      assert (a + b)[..|a| + n - 1] == a + b[..n - 1];
    }
  }

  /** The last line takes the place of line i. */
  function Deleted(lines: seq<Polyline>, i: nat): seq<Polyline>
    requires i < |lines|
  {
    lines[i := lines[|lines| - 1]][..|lines| - 1]
  }

  lemma BagDeleted(lines: seq<Polyline>, i: nat)
    requires i < |lines|
    ensures Bag(Deleted(lines, i)) + LineBag(lines[i]) == Bag(lines)
  {
    SumDeleted(Bags(lines), i, Bags(Deleted(lines, i)));
  }

  lemma BagUpdate(lines: seq<Polyline>, i: nat, v: Polyline)
    requires i < |lines|
    ensures Bag(lines[i := v]) + LineBag(lines[i]) == Bag(lines) + LineBag(v)
  {
    SumUpdate(Bags(lines), i, Bags(lines[i := v]), |lines|);
  }

  // ---- the ends of the lines ----

  /** Every line has a segment. */
  predicate Proper(lines: seq<Polyline>) {
    forall i :: 0 <= i < |lines| ==> |lines[i]| >= 2
  }

  function First(v: Polyline): Vect
    requires |v| >= 2
  {
    v[0]
  }

  function Last(v: Polyline): Vect
    requires |v| >= 2
  {
    v[|v| - 1]
  }

  /** How many of the first n lines begin at p, less how many end there. */
  function EndsBalance(lines: seq<Polyline>, n: nat, p: Vect): int
    requires Proper(lines) && n <= |lines|
  {
    if n == 0 then 0 else EndsBalance(lines, n - 1, p) + One(p, First(lines[n - 1])) - One(p, Last(lines[n - 1]))
  }

  lemma {:induction false} LineNet(v: Polyline, p: Vect)
    requires v != []
    ensures Net(LineSegments(v), p) == One(p, v[0]) - One(p, v[|v| - 1])
  {
    var n := |v|;
    if n >= 2 {
      LineNet(v[..n - 1], p);
      OneNet(v[n - 2], v[n - 1], p);
      NetConcat(LineSegments(v[..n - 1]), [Segment(v[n - 2], v[n - 1])], p);
    }
  }

  lemma OneNet(from: Vect, to: Vect, p: Vect)
    ensures Starts([Segment(from, to)], p) == One(p, from) && Ends([Segment(from, to)], p) == One(p, to)
  {
    var s := [Segment(from, to)];
    assert s[1..] == [] && Starts(s[1..], p) == 0 && Ends(s[1..], p) == 0;
  }

  /** Inside a line every vertex is left as often as it is reached: what a point is short of are ends of lines. */
  lemma {:induction false} SetNet(lines: seq<Polyline>, n: nat, p: Vect)
    requires Proper(lines) && n <= |lines|
    ensures Net(SegmentsUpTo(lines, n), p) == EndsBalance(lines, n, p)
  {
    if n > 0 {
      SetNet(lines, n - 1, p);
      LineNet(lines[n - 1], p);
      NetConcat(SegmentsUpTo(lines, n - 1), LineSegments(lines[n - 1]), p);
    }
  }

  // ---- counting does not depend on the order ----

  lemma {:induction false} CountConcat(s: seq<Segment>, r: seq<Segment>, p: Vect)
    ensures Starts(s + r, p) == Starts(s, p) + Starts(r, p) && Ends(s + r, p) == Ends(s, p) + Ends(r, p)
  {
    if s == [] {
      assert s + r == r;
    } else {
      assert (s + r)[1..] == s[1..] + r;
      CountConcat(s[1..], r, p);
    }
  }

  lemma WithoutOne(s: seq<Segment>, r: seq<Segment>, k: nat)
    requires s != [] && k < |r| && r[k] == s[0] && multiset(s) == multiset(r)
    ensures multiset(s[1..]) == multiset(r[..k] + r[k + 1..]) && r == r[..k] + [r[k]] + r[k + 1..]
  {
    CutBag(r, k);
    CutBag(s, 0);
    assert s[..0] + s[1..] == s[1..];
    assert multiset(s[1..]) == multiset(s) - multiset{s[0]};
  }

  lemma CutBag(r: seq<Segment>, k: nat)
    requires k < |r|
    ensures r == r[..k] + [r[k]] + r[k + 1..] && multiset(r) == multiset(r[..k] + r[k + 1..]) + multiset{r[k]}
  {
    assert r == r[..k] + [r[k]] + r[k + 1..];
  }

  lemma {:induction false} CountSame(s: seq<Segment>, r: seq<Segment>, p: Vect)
    requires multiset(s) == multiset(r)
    ensures Starts(s, p) == Starts(r, p) && Ends(s, p) == Ends(r, p)
    decreases |s|
  {
    if s == [] {
      assert |multiset(r)| == 0;
    } else {
      assert s[0] in multiset(r);
      var k :| 0 <= k < |r| && r[k] == s[0];
      var rest := r[..k] + r[k + 1..];
      WithoutOne(s, r, k);
      CountSame(s[1..], rest, p);
      CountConcat(r[..k] + [r[k]], r[k + 1..], p);
      CountConcat(r[..k], [r[k]], p);
      CountConcat(r[..k], r[k + 1..], p);
      OneNet(r[k].from, r[k].to, p);
    }
  }

  // ---- joining as much as possible ----

  /** No line ends where another one begins. */
  ghost predicate Joined(lines: seq<Polyline>)
    requires Proper(lines)
  {
    forall i, j :: 0 <= i < |lines| && 0 <= j < |lines| && i != j ==> Last(lines[i]) != First(lines[j])
  }

  /** No point has two segments that start there, or two that end there. */
  ghost predicate Simple(s: seq<Segment>) {
    forall p :: Starts(s, p) <= 1 && Ends(s, p) <= 1
  }

  /** Vertex k of a line is the start of a segment, if not the last, and the end of one, if not the first. */
  lemma {:induction false} VertexCounts(v: Polyline, k: nat)
    requires k < |v|
    ensures k < |v| - 1 ==> Starts(LineSegments(v), v[k]) >= 1
    ensures 0 < k ==> Ends(LineSegments(v), v[k]) >= 1
  {
    var n := |v|;
    if n >= 2 {
      if k < n - 1 {
        VertexCounts(v[..n - 1], k);
      }
      CountConcat(LineSegments(v[..n - 1]), [Segment(v[n - 2], v[n - 1])], v[k]);
      OneNet(v[n - 2], v[n - 1], v[k]);
    }
  }

  /** A vertex that a line passes twice starts two segments. */
  lemma {:induction false} TwiceInLine(v: Polyline, k: nat)
    requires 0 < k < |v| - 1 && v[k] == v[0]
    ensures Starts(LineSegments(v), v[k]) >= 2
  {
    var n := |v|;
    CountConcat(LineSegments(v[..n - 1]), [Segment(v[n - 2], v[n - 1])], v[k]);
    OneNet(v[n - 2], v[n - 1], v[k]);
    if k < n - 2 {
      TwiceInLine(v[..n - 1], k);
    } else {
      VertexCounts(v[..n - 1], 0);
    }
  }

  lemma {:induction false} CountsUpTo(lines: seq<Polyline>, n: nat, i: nat, p: Vect)
    requires i < n <= |lines|
    ensures Starts(SegmentsUpTo(lines, n), p) >= Starts(LineSegments(lines[i]), p)
    ensures Ends(SegmentsUpTo(lines, n), p) >= Ends(LineSegments(lines[i]), p)
  {
    CountConcat(SegmentsUpTo(lines, n - 1), LineSegments(lines[n - 1]), p);
    if i < n - 1 {
      CountsUpTo(lines, n - 1, i, p);
    }
  }

  lemma {:induction false} TwoLines(lines: seq<Polyline>, n: nat, i: nat, j: nat, p: Vect)
    requires i < j < n <= |lines|
    ensures Starts(SegmentsUpTo(lines, n), p) >= Starts(LineSegments(lines[i]), p) + Starts(LineSegments(lines[j]), p)
    ensures Ends(SegmentsUpTo(lines, n), p) >= Ends(LineSegments(lines[i]), p) + Ends(LineSegments(lines[j]), p)
  {
    CountConcat(SegmentsUpTo(lines, n - 1), LineSegments(lines[n - 1]), p);
    if j < n - 1 {
      TwoLines(lines, n - 1, i, j, p);
    } else {
      CountsUpTo(lines, n - 1, i, p);
    }
  }

  /** Every segment that ends at p ends at a vertex of some line. */
  lemma {:induction false} EndIsVertex(v: Polyline, p: Vect) returns (k: nat)
    requires Ends(LineSegments(v), p) >= 1
    ensures 0 < k < |v| && v[k] == p
  {
    var n := |v|;
    CountConcat(LineSegments(v[..n - 1]), [Segment(v[n - 2], v[n - 1])], p);
    OneNet(v[n - 2], v[n - 1], p);
    if v[n - 1] == p {
      k := n - 1;
    } else {
      k := EndIsVertex(v[..n - 1], p);
    }
  }

  lemma {:induction false} EndInSet(lines: seq<Polyline>, n: nat, p: Vect) returns (j: nat, k: nat)
    requires n <= |lines| && Ends(SegmentsUpTo(lines, n), p) >= 1
    ensures j < n && 0 < k < |lines[j]| && lines[j][k] == p
  {
    CountConcat(SegmentsUpTo(lines, n - 1), LineSegments(lines[n - 1]), p);
    if Ends(LineSegments(lines[n - 1]), p) >= 1 {
      j := n - 1;
      k := EndIsVertex(lines[n - 1], p);
    } else {
      j, k := EndInSet(lines, n - 1, p);
    }
  }

  /** Where the segments do not branch, an open line begins at a point where no segment ends. */
  lemma OpenStart(lines: seq<Polyline>, i: nat)
    requires Proper(lines) && Joined(lines) && Simple(SetSegments(lines)) && i < |lines|
    requires First(lines[i]) != Last(lines[i])
    ensures Ends(SetSegments(lines), First(lines[i])) == 0
  {
    var p := First(lines[i]);
    if Ends(SetSegments(lines), p) >= 1 {
      var j, k := EndInSet(lines, |lines|, p);
      var last := Last(lines[j]);
      VertexCounts(lines[i], 0);
      VertexCounts(lines[j], k);
      if k < |lines[j]| - 1 && i == j {
        TwiceInLine(lines[i], k);
        CountsUpTo(lines, |lines|, i, p);
      } else if k < |lines[j]| - 1 {
        TwoLines(lines, |lines|, if i < j then i else j, if i < j then j else i, p);
      }
    }
  }

  lemma {:induction false} StartIsVertex(v: Polyline, p: Vect) returns (k: nat)
    requires Starts(LineSegments(v), p) >= 1
    ensures k < |v| - 1 && v[k] == p
  {
    var n := |v|;
    CountConcat(LineSegments(v[..n - 1]), [Segment(v[n - 2], v[n - 1])], p);
    OneNet(v[n - 2], v[n - 1], p);
    if v[n - 2] == p {
      k := n - 2;
    } else {
      k := StartIsVertex(v[..n - 1], p);
    }
  }

  lemma {:induction false} StartInSet(lines: seq<Polyline>, n: nat, p: Vect) returns (j: nat, k: nat)
    requires n <= |lines| && Starts(SegmentsUpTo(lines, n), p) >= 1
    ensures j < n && k < |lines[j]| - 1 && lines[j][k] == p
  {
    CountConcat(SegmentsUpTo(lines, n - 1), LineSegments(lines[n - 1]), p);
    if Starts(LineSegments(lines[n - 1]), p) >= 1 {
      j := n - 1;
      k := StartIsVertex(lines[n - 1], p);
    } else {
      j, k := StartInSet(lines, n - 1, p);
    }
  }

  /** A line that comes to its last vertex before its end has two segments ending there. */
  lemma TwiceAtEnd(v: Polyline, k: nat)
    requires 0 < k < |v| - 1 && v[k] == v[|v| - 1]
    ensures Ends(LineSegments(v), v[k]) >= 2
  {
    var n := |v|;
    CountConcat(LineSegments(v[..n - 1]), [Segment(v[n - 2], v[n - 1])], v[k]);
    OneNet(v[n - 2], v[n - 1], v[k]);
    VertexCounts(v[..n - 1], k);
  }

  /** And it ends at a point where no segment starts. */
  lemma OpenEnd(lines: seq<Polyline>, i: nat)
    requires Proper(lines) && Joined(lines) && Simple(SetSegments(lines)) && i < |lines|
    requires First(lines[i]) != Last(lines[i])
    ensures Starts(SetSegments(lines), Last(lines[i])) == 0
  {
    var p := Last(lines[i]);
    if Starts(SetSegments(lines), p) >= 1 {
      var j, k := StartInSet(lines, |lines|, p);
      var first := First(lines[j]);
      VertexCounts(lines[i], |lines[i]| - 1);
      VertexCounts(lines[j], k);
      if k > 0 && i == j {
        TwiceAtEnd(lines[i], k);
        CountsUpTo(lines, |lines|, i, p);
      } else if k > 0 {
        TwoLines(lines, |lines|, if i < j then i else j, if i < j then j else i, p);
      }
    }
  }

  // ---- the five cases of a new segment ----

  /** Line i gets the vertex v at its end. */
  lemma PushBag(lines: seq<Polyline>, i: nat, v: Vect)
    requires i < |lines| && lines[i] != []
    ensures Bag(lines[i := lines[i] + [v]]) == Bag(lines) + multiset{Segment(lines[i][|lines[i]| - 1], v)}
  {
    SegmentsConcat(lines[i], [v]);
    BagUpdate(lines, i, lines[i] + [v]);
    OneMore(Bag(lines[i := lines[i] + [v]]), LineBag(lines[i]), Bag(lines), LineBag(lines[i] + [v]),
      Segment(lines[i][|lines[i]| - 1], v));
  }

  lemma OneMore<T>(a: multiset<T>, b: multiset<T>, c: multiset<T>, d: multiset<T>, x: T)
    requires a + b == c + d && d == b + multiset{x}
    ensures a == c + multiset{x}
  {
    assert a == (c + d) - b;
  }

  /** Line i gets the vertex v at its beginning. */
  lemma EnqueueBag(lines: seq<Polyline>, i: nat, v: Vect)
    requires i < |lines| && lines[i] != []
    ensures Bag(lines[i := [v] + lines[i]]) == Bag(lines) + multiset{Segment(v, lines[i][0])}
  {
    SegmentsConcat([v], lines[i]);
    BagUpdate(lines, i, [v] + lines[i]);
    OneMore(Bag(lines[i := [v] + lines[i]]), LineBag(lines[i]), Bag(lines), LineBag([v] + lines[i]),
      Segment(v, lines[i][0]));
  }

  /** Line j is appended to line i and deleted. */
  lemma JoinBag(lines: seq<Polyline>, i: nat, j: nat, lines': seq<Polyline>)
    requires i < |lines| && j < |lines| && i != j && lines[i] != [] && lines[j] != []
    requires lines' == Deleted(lines[i := lines[i] + lines[j]], j)
    ensures Bag(lines') == Bag(lines) + multiset{Segment(lines[i][|lines[i]| - 1], lines[j][0])}
  {
    var both := lines[i] + lines[j];
    var seg := Segment(lines[i][|lines[i]| - 1], lines[j][0]);
    SegmentsConcat(lines[i], lines[j]);
    BagUpdate(lines, i, both);
    BagDeleted(lines[i := both], j);
    BothJoined(Bag(Deleted(lines[i := both], j)), LineBag(lines[j]), Bag(lines[i := both]), LineBag(lines[i]),
      Bag(lines), LineBag(both), seg);
  }

  lemma BothJoined<T>(a: multiset<T>, b: multiset<T>, c: multiset<T>, d: multiset<T>, e: multiset<T>, f: multiset<T>,
                      x: T)
    requires a + b == c && c + d == e + f && f == d + multiset{x} + b
    ensures a == e + multiset{x}
  {
    forall y ensures a[y] == (e + multiset{x})[y] {
      assert (a + b)[y] == c[y] && (c + d)[y] == (e + f)[y] && f[y] == (d + multiset{x} + b)[y];
    }
  }

  /** A new line of a single segment. */
  lemma AddBag(lines: seq<Polyline>, v0: Vect, v1: Vect)
    ensures Bag(lines + [[v0, v1]]) == Bag(lines) + multiset{Segment(v0, v1)}
  {
    SumSame(Bags(lines), Bags(lines + [[v0, v1]]), |lines|);
    PairBag(v0, v1);
    assert (lines + [[v0, v1]])[|lines|] == [v0, v1];
  }

  lemma PairBag(v0: Vect, v1: Vect)
    ensures LineBag([v0, v1]) == multiset{Segment(v0, v1)}
  {
    assert [v0, v1][..1] == [v0] && LineSegments([v0]) == [];
    assert LineSegments([v0, v1]) == [Segment(v0, v1)];
  }

  // ---- joining is kept ----

  lemma PushJoined(lines: seq<Polyline>, i: nat, v: Vect)
    requires Proper(lines) && Joined(lines) && i < |lines|
    requires forall j :: 0 <= j < |lines| && j != i ==> First(lines[j]) != v
    ensures Proper(lines[i := lines[i] + [v]]) && Joined(lines[i := lines[i] + [v]])
  {
  }

  lemma EnqueueJoined(lines: seq<Polyline>, i: nat, v: Vect)
    requires Proper(lines) && Joined(lines) && i < |lines|
    requires forall j :: 0 <= j < |lines| && j != i ==> Last(lines[j]) != v
    ensures Proper(lines[i := [v] + lines[i]]) && Joined(lines[i := [v] + lines[i]])
  {
  }

  lemma JoinJoined(lines: seq<Polyline>, i: nat, j: nat, lines': seq<Polyline>)
    requires Proper(lines) && i < |lines| && j < |lines| && i != j
    requires lines' == Deleted(lines[i := lines[i] + lines[j]], j)
    ensures Proper(lines') && (Joined(lines) ==> Joined(lines'))
  {
  }

  lemma AddJoined(lines: seq<Polyline>, v0: Vect, v1: Vect)
    requires Proper(lines) && Joined(lines)
    requires forall j :: 0 <= j < |lines| ==> Last(lines[j]) != v0 && First(lines[j]) != v1
    ensures Proper(lines + [[v0, v1]]) && Joined(lines + [[v0, v1]])
  {
  }

  /** From lines to lines', one segment has been added; the lines stay joined if they were and condition holds. */
  ghost predicate Collected(lines: seq<Polyline>, lines': seq<Polyline>, v0: Vect, v1: Vect, condition: bool)
    requires Proper(lines)
  {
    && Proper(lines') && Bag(lines') == Bag(lines) + multiset{Segment(v0, v1)}
    && (Joined(lines) && condition ==> Joined(lines'))
  }

  ghost predicate NoneStarts(lines: seq<Polyline>, v: Vect, i: int)
    requires Proper(lines)
  {
    forall j :: 0 <= j < |lines| && j != i ==> First(lines[j]) != v
  }

  ghost predicate NoneEnds(lines: seq<Polyline>, v: Vect, i: int)
    requires Proper(lines)
  {
    forall j :: 0 <= j < |lines| && j != i ==> Last(lines[j]) != v
  }

  lemma Pushed(lines: seq<Polyline>, i: nat, v: Vect, lines': seq<Polyline>)
    requires Proper(lines) && i < |lines| && lines' == lines[i := lines[i] + [v]]
    ensures Collected(lines, lines', Last(lines[i]), v, NoneStarts(lines, v, i))
  {
    PushBag(lines, i, v);
    if Joined(lines) && NoneStarts(lines, v, i) {
      PushJoined(lines, i, v);
    }
  }

  lemma Enqueued(lines: seq<Polyline>, i: nat, v: Vect, lines': seq<Polyline>)
    requires Proper(lines) && i < |lines| && lines' == lines[i := [v] + lines[i]]
    ensures Collected(lines, lines', v, First(lines[i]), NoneEnds(lines, v, i))
  {
    EnqueueBag(lines, i, v);
    if Joined(lines) && NoneEnds(lines, v, i) {
      EnqueueJoined(lines, i, v);
    }
  }

  lemma BothInOne(lines: seq<Polyline>, i: nat, j: nat, lines': seq<Polyline>)
    requires Proper(lines) && i < |lines| && j < |lines| && i != j
    requires lines' == Deleted(lines[i := lines[i] + lines[j]], j)
    ensures Collected(lines, lines', Last(lines[i]), First(lines[j]), true)
  {
    JoinBag(lines, i, j, lines');
    JoinJoined(lines, i, j, lines');
  }

  lemma Appended(lines: seq<Polyline>, v0: Vect, v1: Vect)
    requires Proper(lines)
    ensures Collected(lines, lines + [[v0, v1]], v0, v1, NoneEnds(lines, v0, -1) && NoneStarts(lines, v1, -1))
  {
    AddBag(lines, v0, v1);
    if Joined(lines) && NoneEnds(lines, v0, -1) && NoneStarts(lines, v1, -1) {
      AddJoined(lines, v0, v1);
    }
  }

  /** When nothing branches, no other line begins where line i begins and is about to be closed. */
  lemma OnlyHere(lines: seq<Polyline>, i: nat, v0: Vect, v1: Vect, j: nat)
    requires Proper(lines) && Simple(SetSegments(lines) + [Segment(v0, v1)]) && i < |lines| && j < |lines| && i != j
    requires First(lines[i]) == v1
    ensures First(lines[j]) != v1
  {
    CountConcat(SetSegments(lines), [Segment(v0, v1)], v1);
    VertexCounts(lines[i], 0);
    VertexCounts(lines[j], 0);
    TwoLines(lines, |lines|, if i < j then i else j, if i < j then j else i, v1);
  }

  lemma NoneElse(lines: seq<Polyline>, i: nat, v0: Vect, v1: Vect)
    requires Proper(lines) && i < |lines| && First(lines[i]) == v1
    ensures Simple(SetSegments(lines) + [Segment(v0, v1)]) ==> NoneStarts(lines, v1, i)
  {
    if Simple(SetSegments(lines) + [Segment(v0, v1)]) {
      forall j | 0 <= j < |lines| && j != i ensures First(lines[j]) != v1 {
        OnlyHere(lines, i, v0, v1, j);
      }
    }
  }

  class PolylineSet {
    var lines: seq<Polyline>

    ghost predicate Valid()
      reads this
    {
      Proper(lines)
    }

    constructor ()
      ensures Valid() && lines == []
    {
      lines := [];
    }

    /** The first line that ends with v, or -1. */
    method FindEnds(v: Vect) returns (k: int)
      requires Valid()
      ensures -1 <= k < |lines| && (k >= 0 ==> Last(lines[k]) == v)
      ensures k < 0 ==> forall i :: 0 <= i < |lines| ==> Last(lines[i]) != v
    {
      var i := 0;
      while i < |lines|
        invariant 0 <= i <= |lines| && forall j :: 0 <= j < i ==> Last(lines[j]) != v
      {
        if lines[i][|lines[i]| - 1] == v {
          return i;
        }
        i := i + 1;
      }
      return -1;
    }

    /** The first line that starts with v, or -1. */
    method FindStarts(v: Vect) returns (k: int)
      requires Valid()
      ensures -1 <= k < |lines| && (k >= 0 ==> First(lines[k]) == v)
      ensures k < 0 ==> forall i :: 0 <= i < |lines| ==> First(lines[i]) != v
    {
      var i := 0;
      while i < |lines|
        invariant 0 <= i <= |lines| && forall j :: 0 <= j < i ==> First(lines[j]) != v
      {
        if lines[i][0] == v {
          return i;
        }
        i := i + 1;
      }
      return -1;
    }

    /** Line after is appended to line before; the last line takes its place in the table. */
    method Join(before: nat, after: nat)
      requires Valid() && before < |lines| && after < |lines| && before != after
      modifies this
      ensures Collected(old(lines), lines, Last(old(lines)[before]), First(old(lines)[after]), true)
    {
      lines := lines[before := lines[before] + lines[after]];
      var count := |lines| - 1;
      lines := lines[after := lines[count]];
      lines := lines[..count];
      BothInOne(old(lines), before, after, lines);
    }

    method Push(i: nat, v: Vect)
      requires Valid() && i < |lines|
      modifies this
      ensures Collected(old(lines), lines, Last(old(lines)[i]), v, NoneStarts(old(lines), v, i))
    {
      lines := lines[i := lines[i] + [v]];
      Pushed(old(lines), i, v, lines);
    }

    method Enqueue(i: nat, v: Vect)
      requires Valid() && i < |lines|
      modifies this
      ensures Collected(old(lines), lines, v, First(old(lines)[i]), NoneEnds(old(lines), v, i))
    {
      lines := lines[i := [v] + lines[i]];
      Enqueued(old(lines), i, v, lines);
    }

    method AddLine(v0: Vect, v1: Vect)
      requires Valid()
      modifies this
      ensures Collected(old(lines), lines, v0, v1, NoneEnds(old(lines), v0, -1) && NoneStarts(old(lines), v1, -1))
    {
      lines := lines + [[v0, v1]];
      Appended(old(lines), v0, v1);
    }

    /** Adds one segment, and only that, in whichever way; where nothing branches, no two lines are left that could
        be joined. */
    method CollectSegment(v0: Vect, v1: Vect)
      requires Valid()
      modifies this
      ensures Collected(old(lines), lines, v0, v1, Simple(SetSegments(old(lines)) + [Segment(v0, v1)]))
    {
      var before := FindEnds(v0);
      var after := FindStarts(v1);
      if before >= 0 && after >= 0 {
        if before == after {
          NoneElse(lines, before, v0, v1);
          Push(before, v1);
        } else {
          Join(before, after);
        }
      } else if before >= 0 {
        Push(before, v1);
      } else if after >= 0 {
        Enqueue(after, v0);
      } else {
        AddLine(v0, v1);
      }
    }

    /** A run of segments. */
    method CollectAll(segments: seq<Segment>)
      requires Valid()
      modifies this
      ensures Valid() && Bag(lines) == Bag(old(lines)) + multiset(segments)
      ensures Joined(old(lines)) && Simple(SetSegments(old(lines)) + segments) ==> Joined(lines)
    {
      var i := 0;
      while i < |segments|
        invariant 0 <= i <= |segments| && Valid() && Bag(lines) == Bag(old(lines)) + multiset(segments[..i])
        invariant Joined(old(lines)) && Simple(SetSegments(old(lines)) + segments) ==> Joined(lines)
      {
        OneSegmentMore(old(lines), lines, segments, i);
        CollectSegment(segments[i].from, segments[i].to);
        i := i + 1;
      }
      assert segments[..i] == segments;
    }
  }

  lemma OneSegmentMore(lines0: seq<Polyline>, lines: seq<Polyline>, segments: seq<Segment>, i: nat)
    requires i < |segments| && Bag(lines) == Bag(lines0) + multiset(segments[..i])
    ensures multiset(segments[..i + 1]) == multiset(segments[..i]) + multiset{segments[i]}
    ensures Simple(SetSegments(lines0) + segments) ==> Simple(SetSegments(lines) + [segments[i]])
  {
    BagIs(lines, |lines|);
    BagIs(lines0, |lines0|);
    Parts(segments, i);
    SimplePart(SetSegments(lines0), SetSegments(lines), segments[..i], segments[i], segments[i + 1..]);
  }

  lemma Parts(segments: seq<Segment>, i: nat)
    requires i < |segments|
    ensures segments == segments[..i] + [segments[i]] + segments[i + 1..]
    ensures multiset(segments[..i + 1]) == multiset(segments[..i]) + multiset{segments[i]}
  {
    assert segments[..i + 1] == segments[..i] + [segments[i]];
  }

  lemma SimplePart(fed0: seq<Segment>, fed: seq<Segment>, before: seq<Segment>, x: Segment, rest: seq<Segment>)
    requires multiset(fed) == multiset(fed0) + multiset(before)
    ensures Simple(fed0 + (before + [x] + rest)) ==> Simple(fed + [x])
  {
    var all := fed0 + (before + [x] + rest);
    assert all == fed0 + before + [x] + rest;
    forall p ensures Starts(fed + [x], p) <= Starts(all, p) && Ends(fed + [x], p) <= Ends(all, p) {
      CountSame(fed, fed0 + before, p);
      CountConcat(fed, [x], p);
      CountConcat(fed0 + before, [x], p);
      CountConcat(fed0 + before + [x], rest, p);
    }
  }
}

/** Marching squares feeding a polyline set: whole contours. */
module Contours {
  import Branching
  import opened Vectors
  import opened MarchCells
  import opened MarchingSquares
  import opened Polylines

  predicate OnBorder(g: Grid, p: Vect) {
    p.x == g.bb.l || p.x == g.bb.r || p.y == g.bb.b || p.y == g.bb.t
  }

  /** Lines made of the contour segments begin and end equally often at every point off the border. */
  lemma BalancedEnds(g: Grid, kind: Kind, lines: seq<Polyline>, p: Vect)
    requires MarchingSquares.Proper(g) && Polylines.Proper(lines) && !OnBorder(g, p)
    requires Bag(lines) == multiset(GridSegments(g, kind, g.ySamples - 1))
    ensures EndsBalance(lines, |lines|, p) == 0
  {
    SameCounts(g, kind, lines, p);
    NoLooseEnds(g, kind, p);
    SetNet(lines, |lines|, p);
  }

  lemma SameCounts(g: Grid, kind: Kind, lines: seq<Polyline>, p: Vect)
    requires MarchingSquares.Proper(g) && Bag(lines) == multiset(GridSegments(g, kind, g.ySamples - 1))
    ensures Starts(SetSegments(lines), p) == Starts(GridSegments(g, kind, g.ySamples - 1), p)
    ensures Ends(SetSegments(lines), p) == Ends(GridSegments(g, kind, g.ySamples - 1), p)
  {
    BagIs(lines, |lines|);
    CountSame(SetSegments(lines), GridSegments(g, kind, g.ySamples - 1), p);
  }

  ghost predicate Whole(g: Grid, v: Polyline)
    requires |v| >= 2
  {
    First(v) == Last(v) || (OnBorder(g, First(v)) && OnBorder(g, Last(v)))
  }

  /** Where contours do not branch, every line is closed or runs from border to border. */
  lemma WholeContour(g: Grid, kind: Kind, lines: seq<Polyline>, i: nat)
    requires MarchingSquares.Proper(g) && Polylines.Proper(lines) && Joined(lines) && i < |lines|
    requires Bag(lines) == multiset(GridSegments(g, kind, g.ySamples - 1))
    requires Simple(GridSegments(g, kind, g.ySamples - 1))
    ensures Whole(g, lines[i])
  {
    var v := lines[i];
    forall p ensures Starts(SetSegments(lines), p) <= 1 && Ends(SetSegments(lines), p) <= 1 {
      SameCounts(g, kind, lines, p);
    }
    if First(v) != Last(v) {
      OpenStart(lines, i);
      OpenEnd(lines, i);
      EndVertices(lines, i);
      SameCounts(g, kind, lines, First(v));
      SameCounts(g, kind, lines, Last(v));
      if !OnBorder(g, First(v)) {
        NoLooseEnds(g, kind, First(v));
      }
      if !OnBorder(g, Last(v)) {
        NoLooseEnds(g, kind, Last(v));
      }
    }
  }

  lemma EndVertices(lines: seq<Polyline>, i: nat)
    requires Polylines.Proper(lines) && i < |lines|
    ensures Starts(SetSegments(lines), First(lines[i])) >= 1 && Ends(SetSegments(lines), Last(lines[i])) >= 1
  {
    VertexCounts(lines[i], 0);
    VertexCounts(lines[i], |lines[i]| - 1);
    CountsUpTo(lines, |lines|, i, First(lines[i]));
    CountsUpTo(lines, |lines|, i, Last(lines[i]));
  }

  lemma CollectedBalance(g: Grid, kind: Kind, lines: seq<Polyline>)
    requires MarchingSquares.Proper(g) && Polylines.Proper(lines)
    requires Bag(lines) == multiset(GridSegments(g, kind, g.ySamples - 1))
    ensures forall p :: !OnBorder(g, p) ==> EndsBalance(lines, |lines|, p) == 0
  {
    forall p | !OnBorder(g, p) ensures EndsBalance(lines, |lines|, p) == 0 {
      BalancedEnds(g, kind, lines, p);
    }
  }

  lemma CollectedWhole(g: Grid, kind: Kind, lines: seq<Polyline>)
    requires MarchingSquares.Proper(g) && Polylines.Proper(lines)
    requires Bag(lines) == multiset(GridSegments(g, kind, g.ySamples - 1))
    requires Simple(GridSegments(g, kind, g.ySamples - 1)) ==> Joined(lines)
    ensures Simple(GridSegments(g, kind, g.ySamples - 1)) ==> forall i :: 0 <= i < |lines| ==> Whole(g, lines[i])
  {
    if Simple(GridSegments(g, kind, g.ySamples - 1)) {
      forall i | 0 <= i < |lines| ensures Whole(g, lines[i]) {
        WholeContour(g, kind, lines, i);
      }
    }
  }

  lemma BranchlessSimple(g: Grid, kind: Kind)
    requires MarchingSquares.Proper(g)
    ensures Branching.Branchless(g, kind) ==> Simple(GridSegments(g, kind, g.ySamples - 1))
  {
    if Branching.Branchless(g, kind) {
      Branching.SimpleContours(g, kind);
    }
  }

  /** Collects the contours of a grid in a new polyline set. Where they do not branch, for which Branchless is enough,
      every line is whole. */
  method Collect(g: Grid, kind: Kind) returns (s: PolylineSet)
    requires MarchingSquares.Proper(g)
    ensures s.Valid() && Bag(s.lines) == multiset(GridSegments(g, kind, g.ySamples - 1))
    ensures forall p :: !OnBorder(g, p) ==> EndsBalance(s.lines, |s.lines|, p) == 0
    ensures Branching.Branchless(g, kind) ==> Simple(GridSegments(g, kind, g.ySamples - 1))
    ensures Simple(GridSegments(g, kind, g.ySamples - 1)) ==> forall i :: 0 <= i < |s.lines| ==> Whole(g, s.lines[i])
  {
    s := new PolylineSet();
    var segments, sampled := MarchGrid(g, kind);
    s.CollectAll(segments);
    assert SetSegments([]) + segments == segments;
    CollectedBalance(g, kind, s.lines);
    CollectedWhole(g, kind, s.lines);
    BranchlessSimple(g, kind);
  }
}
