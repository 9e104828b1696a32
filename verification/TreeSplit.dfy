/** How a set of boxes is split in two when the tree is rebuilt. */
module TreeSplit {
  import opened Reals
  import opened Addresses
  import opened Boxes
  import opened TreeMemory
  import opened BoxTrees

  predicate Upright(bb: BB) {
    bb.l <= bb.r && bb.b <= bb.t
  }

  function Hull(boxes: seq<BB>): BB
    requires boxes != []
  {
    var n := |boxes| - 1;
    if n == 0 then boxes[0] else Merge(Hull(boxes[..n]), boxes[n])
  }

  /** The hull surrounds every box and is touched on its low sides. */
  lemma {:induction false} HullBounds(boxes: seq<BB>)
    requires boxes != []
    ensures forall i :: 0 <= i < |boxes| ==> ContainsBB(Hull(boxes), boxes[i])
    ensures exists i :: 0 <= i < |boxes| && boxes[i].l == Hull(boxes).l
    ensures exists i :: 0 <= i < |boxes| && boxes[i].b == Hull(boxes).b
  {
    var n := |boxes| - 1;
    if n == 0 {
      assert boxes[0].l == Hull(boxes).l && boxes[0].b == Hull(boxes).b;
    } else {
      var rest := boxes[..n];
      HullBounds(rest);
      assert forall i :: 0 <= i < n ==> boxes[i] == rest[i];
      var i :| 0 <= i < n && rest[i].l == Hull(rest).l;
      var j :| 0 <= j < n && rest[j].b == Hull(rest).b;
      assert boxes[if boxes[n].l < boxes[i].l then n else i].l == Hull(boxes).l;
      assert boxes[if boxes[n].b < boxes[j].b then n else j].b == Hull(boxes).b;
    }
  }

  // ---- the splitting point ----

  predicate SplitsWidth(bb: BB) {
    bb.r - bb.l > bb.t - bb.b
  }

  function Low(bb: BB, width: bool): real { if width then bb.l else bb.b }
  function High(bb: BB, width: bool): real { if width then bb.r else bb.t }

  /** The low and high ends of all boxes along one axis. */
  function Bounds(boxes: seq<BB>, width: bool): (r: seq<real>)
    ensures |r| == 2 * |boxes|
  {
    var n := |boxes| - 1;
    if boxes == [] then [] else Bounds(boxes[..n], width) + [Low(boxes[n], width), High(boxes[n], width)]
  }

  lemma BoundsNext(boxes: seq<BB>, i: nat, width: bool)
    requires i < |boxes|
    ensures Bounds(boxes[..i + 1], width) == Bounds(boxes[..i], width) + [Low(boxes[i], width), High(boxes[i], width)]
  {
    assert boxes[..i + 1][..i] == boxes[..i];
  }

  lemma BoundsFrom(boxes: seq<BB>, width: bool, x: real)
    requires x in Bounds(boxes, width)
    ensures exists i :: 0 <= i < |boxes| && (x == Low(boxes[i], width) || x == High(boxes[i], width))
  {
    var n := |boxes| - 1;
    if x in Bounds(boxes[..n], width) {
      BoundsFrom(boxes[..n], width, x);
      var i :| 0 <= i < n && (x == Low(boxes[..n][i], width) || x == High(boxes[..n][i], width));
      assert boxes[..n][i] == boxes[i];
    }
  }

  function InsertReal(s: seq<real>, x: real): seq<real> {
    if s == [] || x <= s[0] then [x] + s else [s[0]] + InsertReal(s[1..], x)
  }

  function SortReals(s: seq<real>): seq<real> {
    if s == [] then [] else InsertReal(SortReals(s[1..]), s[0])
  }

  predicate Ascending(s: seq<real>) {
    forall i, j :: 0 <= i < j < |s| ==> s[i] <= s[j]
  }

  lemma Smallest(x: real, s: seq<real>)
    requires Ascending(s) && forall y :: y in s ==> x <= y
    ensures Ascending([x] + s)
  {
    var t := [x] + s;
    forall i, j | 0 <= i < j < |t| ensures t[i] <= t[j] {
      assert t[j] == s[j - 1] && s[j - 1] in s;
      if i > 0 {
        assert t[i] == s[i - 1];
      }
    }
  }

  lemma {:induction false} InsertRealAdds(s: seq<real>, x: real)
    ensures multiset(InsertReal(s, x)) == multiset(s) + multiset{x} && |InsertReal(s, x)| == |s| + 1
  {
    if s != [] && s[0] < x {
      InsertRealAdds(s[1..], x);
      assert s == [s[0]] + s[1..];
    }
  }

  lemma {:induction false} InsertRealKeeps(s: seq<real>, x: real)
    requires Ascending(s)
    ensures Ascending(InsertReal(s, x))
  {
    if s == [] || x <= s[0] {
      Smallest(x, s);
    } else {
      var t := InsertReal(s[1..], x);
      InsertRealKeeps(s[1..], x);
      InsertRealAdds(s[1..], x);
      assert s == [s[0]] + s[1..];
      forall y | y in t ensures s[0] <= y {
        assert y in multiset(t);
      }
      Smallest(s[0], t);
    }
  }

  lemma {:induction false} SortRealsSorts(s: seq<real>)
    ensures Ascending(SortReals(s)) && multiset(SortReals(s)) == multiset(s) && |SortReals(s)| == |s|
  {
    if s != [] {
      SortRealsSorts(s[1..]);
      InsertRealKeeps(SortReals(s[1..]), s[0]);
      InsertRealAdds(SortReals(s[1..]), s[0]);
      assert s == [s[0]] + s[1..];
    }
  }

  /** The median of the bounds. */
  function SplitPoint(bounds: seq<real>): real
    requires |bounds| >= 2 && |bounds| % 2 == 0
  {
    SortRealsSorts(bounds);
    var s, count := SortReals(bounds), |bounds| / 2;
    (s[count - 1] + s[count]) * 0.5
  }

  lemma BoundsInside(boxes: seq<BB>, width: bool, x: real)
    requires boxes != [] && (forall i :: 0 <= i < |boxes| ==> Upright(boxes[i])) && x in Bounds(boxes, width)
    ensures Low(Hull(boxes), width) <= x <= High(Hull(boxes), width)
  {
    HullBounds(boxes);
    BoundsFrom(boxes, width, x);
  }

  lemma SplitBetween(bounds: seq<real>, lo: real, hi: real)
    requires |bounds| >= 2 && |bounds| % 2 == 0 && forall x :: x in bounds ==> lo <= x <= hi
    ensures lo <= SplitPoint(bounds) <= hi
  {
    var s, count := SortReals(bounds), |bounds| / 2;
    SortRealsSorts(bounds);
    assert s[count - 1] in multiset(s) && s[count] in multiset(s);
    assert s[count - 1] in bounds && s[count] in bounds;
  }

  lemma SplitInside(boxes: seq<BB>, width: bool)
    requires boxes != [] && forall i :: 0 <= i < |boxes| ==> Upright(boxes[i])
    ensures Low(Hull(boxes), width) <= SplitPoint(Bounds(boxes, width)) <= High(Hull(boxes), width)
  {
    forall x | x in Bounds(boxes, width) ensures Low(Hull(boxes), width) <= x <= High(Hull(boxes), width) {
      BoundsInside(boxes, width, x);
    }
    SplitBetween(Bounds(boxes, width), Low(Hull(boxes), width), High(Hull(boxes), width));
  }

  // ---- which side a box goes to ----

  function LowHalf(bb: BB, width: bool, split: real): BB { if width then bb.(r := split) else bb.(t := split) }
  function HighHalf(bb: BB, width: bool, split: real): BB { if width then bb.(l := split) else bb.(b := split) }

  predicate GoesHigh(box: BB, a: BB, b: BB) {
    MergedArea(box, b) < MergedArea(box, a)
  }

  lemma SmallerArea(x: real, y: real, w: real, h: real)
    requires 0.0 <= h && 0.0 <= w && ((x == w && y <= h) || (x <= w && y == h))
    ensures x * y <= w * h
  {
    if x == w {
      assert w * (h - y) >= 0.0;
    } else {
      assert (w - x) * h >= 0.0;
    }
  }

  /** A box that touches the low side of the hull is never strictly cheaper on the high side. */
  lemma LowStays(box: BB, hull: BB, width: bool, split: real)
    requires ContainsBB(hull, box) && Low(box, width) == Low(hull, width) && Upright(hull)
    requires Low(hull, width) <= split <= High(hull, width)
    ensures !GoesHigh(box, LowHalf(hull, width, split), HighHalf(hull, width, split))
  {
    var a, b := LowHalf(hull, width, split), HighHalf(hull, width, split);
    var w, h := hull.r - hull.l, hull.t - hull.b;
    var x, y := if width then Max(box.r, split) - hull.l else w, if width then h else Max(box.t, split) - hull.b;
    assert Max(box.r, a.r) - Min(box.l, a.l) == x && Max(box.t, a.t) - Min(box.b, a.b) == y;
    assert Max(box.r, b.r) - Min(box.l, b.l) == w && Max(box.t, b.t) - Min(box.b, b.b) == h;
    SmallerArea(x, y, w, h);
    assert MergedArea(box, a) == x * y;
    assert MergedArea(box, b) == w * h;
  }

  datatype Halves = Halves(a: BB, b: BB)

  /** The two halves of the hull, cut at the median along its longer axis. */
  function HalvesOf(boxes: seq<BB>): Halves
    requires boxes != []
  {
    var hull := Hull(boxes);
    var width := SplitsWidth(hull);
    var split := SplitPoint(Bounds(boxes, width));
    Halves(LowHalf(hull, width, split), HighHalf(hull, width, split))
  }

  /** Some box always stays on the low side. */
  lemma SomeStays(boxes: seq<BB>) returns (i: nat)
    requires boxes != [] && forall i :: 0 <= i < |boxes| ==> Upright(boxes[i])
    ensures i < |boxes| && !GoesHigh(boxes[i], HalvesOf(boxes).a, HalvesOf(boxes).b)
  {
    var hull := Hull(boxes);
    var width := SplitsWidth(hull);
    HullBounds(boxes);
    SplitInside(boxes, width);
    i :| 0 <= i < |boxes| && Low(boxes[i], width) == Low(hull, width);
    LowStays(boxes[i], hull, width, SplitPoint(Bounds(boxes, width)));
  }
}
