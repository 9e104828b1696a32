/** The shape of a bounding-box tree as a value, and the meaning of its operations. */
module BoxTrees {
  import opened Reals
  import opened Addresses
  import opened Boxes
  import opened TreeMemory

  // ---- boxes ----

  function Merge(a: BB, b: BB): BB {
    BB(Min(a.l, b.l), Min(a.b, b.b), Max(a.r, b.r), Max(a.t, b.t))
  }

  predicate Intersects(a: BB, b: BB) {
    a.l <= b.r && b.l <= a.r && a.b <= b.t && b.b <= a.t
  }

  predicate ContainsBB(a: BB, b: BB) {
    a.l <= b.l && a.r >= b.r && a.b <= b.b && a.t >= b.t
  }

  predicate InBox(a: BB, x: real, y: real) {
    a.l <= x <= a.r && a.b <= y <= a.t
  }

  /** Boxes meet exactly when they have a point in common, edges included. */
  lemma MeetingIsSharing(a: BB, b: BB)
    requires a.l <= a.r && a.b <= a.t && b.l <= b.r && b.b <= b.t
    ensures Intersects(a, b) <==> exists x, y :: InBox(a, x, y) && InBox(b, x, y)
  {
    if Intersects(a, b) {
      assert InBox(a, Max(a.l, b.l), Max(a.b, b.b)) && InBox(b, Max(a.l, b.l), Max(a.b, b.b));
    }
  }

  /** A box contains another exactly when it has all of its points. */
  lemma ContainingIsCovering(a: BB, b: BB)
    requires b.l <= b.r && b.b <= b.t
    ensures ContainsBB(a, b) <==> forall x, y :: InBox(b, x, y) ==> InBox(a, x, y)
  {
    if forall x, y :: InBox(b, x, y) ==> InBox(a, x, y) {
      assert InBox(b, b.l, b.b) && InBox(b, b.r, b.t);
    }
  }

  function Area(a: BB): real { (a.r - a.l) * (a.t - a.b) }

  function MergedArea(a: BB, b: BB): real {
    (Max(a.r, b.r) - Min(a.l, b.l)) * (Max(a.t, b.t) - Min(a.b, b.b))
  }

  function Proximity(a: BB, b: BB): real {
    Abs(a.l + a.r - b.l - b.r) + Abs(a.b + a.t - b.b - b.t)
  }

  // ---- trees ----

  datatype BoxTree = Tip(node: Ptr, box: BB) | Fork(node: Ptr, box: BB, left: BoxTree, right: BoxTree)

  function Leaves(t: BoxTree): seq<Ptr> {
    match t
    case Tip(n, _) => [n]
    case Fork(_, _, l, r) => Leaves(l) + Leaves(r)
  }

  function NodesOf(t: BoxTree): set<Ptr> {
    match t
    case Tip(n, _) => {n}
    case Fork(n, _, l, r) => {n} + NodesOf(l) + NodesOf(r)
  }

  /** No node occurs twice. */
  predicate Proper(t: BoxTree) {
    match t
    case Tip(_, _) => true
    case Fork(n, _, l, r) => Proper(l) && Proper(r) && NodesOf(l) !! NodesOf(r) && n !in NodesOf(l) && n !in NodesOf(r)
  }

  /** Every internal box is the merge of its children's boxes. */
  predicate BoxOk(t: BoxTree) {
    match t
    case Tip(_, _) => true
    case Fork(_, box, l, r) => box == Merge(l.box, r.box) && BoxOk(l) && BoxOk(r)
  }

  /** The memory m holds t below parent. */
  predicate Represents(m: Nodes, t: BoxTree, parent: Ptr) {
    t.node != NULL && t.node in m && m[t.node].parent == parent && m[t.node].bb == t.box &&
    match t
    case Tip(n, _) => m[n].obj != NULL && m[n].body.Leaf?
    case Fork(n, _, l, r) =>
      m[n].obj == NULL && m[n].body == Children(l.node, r.node) && Represents(m, l, n) && Represents(m, r, n)
  }

  lemma LeavesAreNodes(t: BoxTree)
    ensures Leaves(t) != [] && forall l :: l in Leaves(t) ==> l in NodesOf(t)
  {
  }

  lemma RepresentsLeaves(m: Nodes, t: BoxTree, parent: Ptr)
    requires Represents(m, t, parent)
    ensures forall n :: n in NodesOf(t) ==> n in m && n != NULL
    ensures forall n :: n in NodesOf(t) ==> (n in Leaves(t) <==> m[n].body.Leaf?)
    ensures forall n :: n in NodesOf(t) ==> (n in Leaves(t) <==> m[n].obj != NULL)
  {
    if t.Fork? {
      LeavesAreNodes(t.left);
      LeavesAreNodes(t.right);
    }
  }

  /** Representation depends only on the nodes of the tree. */
  lemma RepresentsFrame(m: Nodes, m': Nodes, t: BoxTree, parent: Ptr)
    requires Represents(m, t, parent)
    requires forall n :: n in NodesOf(t) && n in m ==> n in m' && m'[n] == m[n]
    ensures Represents(m', t, parent)
  {
  }

  /** ... and on the stamp and pair list of its leaves not at all. */
  lemma RepresentsBodyFrame(m: Nodes, m': Nodes, t: BoxTree, parent: Ptr)
    requires Represents(m, t, parent)
    requires forall n :: n in NodesOf(t) && n in m ==>
      n in m' && m'[n].(body := m[n].body) == m[n] && (m'[n].body == m[n].body || (m'[n].body.Leaf? && m[n].body.Leaf?))
    ensures Represents(m', t, parent)
  {
  }

  /** Hanging a tree below another parent changes one field. */
  lemma RepresentsUnder(m: Nodes, m': Nodes, t: BoxTree, parent: Ptr, parent': Ptr)
    requires Represents(m, t, parent) && Proper(t)
    requires t.node in m && t.node in m' && m'[t.node] == m[t.node].(parent := parent')
    requires forall n :: n in NodesOf(t) && n != t.node && n in m ==> n in m' && m'[n] == m[n]
    ensures Represents(m', t, parent')
  {
    match t
    case Tip(_, _) =>
    case Fork(n, _, l, r) =>
      RepresentsFrame(m, m', l, n);
      RepresentsFrame(m, m', r, n);
  }

  // ---- queries ----

  function BoxOf(t: BoxTree, l: Ptr): BB
    requires l in Leaves(t)
  {
    match t
    case Tip(_, box) => box
    case Fork(_, _, a, b) => if l in Leaves(a) then BoxOf(a, l) else BoxOf(b, l)
  }

  lemma RepresentsBoxOf(m: Nodes, t: BoxTree, parent: Ptr, l: Ptr)
    requires Represents(m, t, parent) && l in Leaves(t)
    ensures l in m && m[l].bb == BoxOf(t, l)
  {
  }

  /** A linear scan over the leaves. */
  function Scan(t: BoxTree, bb: BB): seq<Ptr> {
    match t
    case Tip(n, box) => if Intersects(box, bb) then [n] else []
    case Fork(_, _, l, r) => Scan(l, bb) + Scan(r, bb)
  }

  lemma ScanMeaning(t: BoxTree, bb: BB, l: Ptr)
    requires Proper(t)
    ensures l in Scan(t, bb) <==> l in Leaves(t) && Intersects(BoxOf(t, l), bb)
  {
    if t.Fork? {
      LeavesAreNodes(t.left);
      LeavesAreNodes(t.right);
      ScanMeaning(t.left, bb, l);
      ScanMeaning(t.right, bb, l);
    }
  }

  /** Nothing inside a box that misses bb can hit bb, so pruning loses nothing. */
  lemma PrunedScan(t: BoxTree, bb: BB)
    requires BoxOk(t) && !Intersects(t.box, bb)
    ensures Scan(t, bb) == []
  {
  }

  // ---- insertion ----

  /** Does a new leaf go below the second child? Cheapest area growth first, proximity on ties. */
  predicate GoesRight(a: BB, b: BB, bb: BB) {
    var costA := Area(b) + MergedArea(a, bb);
    var costB := Area(a) + MergedArea(b, bb);
    if costA == costB then Proximity(b, bb) < Proximity(a, bb) else costB < costA
  }

  function InsertLeaf(t: BoxTree, leaf: Ptr, bb: BB, spare: Ptr): BoxTree {
    match t
    case Tip(_, box) => Fork(spare, Merge(bb, box), Tip(leaf, bb), t)
    case Fork(n, box, l, r) =>
      if GoesRight(l.box, r.box, bb)
      then Fork(n, Merge(box, bb), l, InsertLeaf(r, leaf, bb, spare))
      else Fork(n, Merge(box, bb), InsertLeaf(l, leaf, bb, spare), r)
  }

  lemma InsertNodes(t: BoxTree, leaf: Ptr, bb: BB, spare: Ptr)
    ensures NodesOf(InsertLeaf(t, leaf, bb, spare)) == NodesOf(t) + {leaf, spare}
    ensures forall l :: l in Leaves(InsertLeaf(t, leaf, bb, spare)) <==> l in Leaves(t) || l == leaf
  {
  }

  lemma InsertProper(t: BoxTree, leaf: Ptr, bb: BB, spare: Ptr)
    requires Proper(t) && leaf !in NodesOf(t) && spare !in NodesOf(t) && leaf != spare
    ensures Proper(InsertLeaf(t, leaf, bb, spare))
  {
    match t
    case Tip(_, _) =>
    case Fork(_, _, l, r) =>
      InsertNodes(l, leaf, bb, spare);
      InsertNodes(r, leaf, bb, spare);
  }

  lemma MergeMore(a: BB, b: BB, c: BB)
    ensures Merge(Merge(a, b), c) == Merge(a, Merge(b, c)) == Merge(Merge(a, c), b) && Merge(a, b) == Merge(b, a)
  {
  }

  lemma {:induction false} InsertBoxOk(t: BoxTree, leaf: Ptr, bb: BB, spare: Ptr)
    requires BoxOk(t)
    ensures BoxOk(InsertLeaf(t, leaf, bb, spare)) && InsertLeaf(t, leaf, bb, spare).box == Merge(t.box, bb)
  {
    match t
    case Tip(_, box) =>
      MergeMore(box, bb, bb);
    case Fork(_, _, l, r) =>
      MergeMore(l.box, r.box, bb);
      if GoesRight(l.box, r.box, bb) {
        InsertBoxOk(r, leaf, bb, spare);
      } else {
        InsertBoxOk(l, leaf, bb, spare);
      }
  }

  // ---- the way up from a leaf ----

  /** A tree with a hole: the focus is child A (InA) or child B (InB) of node. */
  datatype Path = Top | InA(up: Path, node: Ptr, box: BB, sibling: BoxTree) | InB(up: Path, node: Ptr, box: BB,
                            sibling: BoxTree)

  function Holder(p: Path): Ptr {
    if p.Top? then NULL else p.node
  }

  function Plug(p: Path, t: BoxTree): BoxTree {
    match p
    case Top => t
    case InA(up, n, box, sib) => Plug(up, Fork(n, box, t, sib))
    case InB(up, n, box, sib) => Plug(up, Fork(n, box, sib, t))
  }

  function PathTo(up: Path, t: BoxTree, leaf: Ptr): Path
    requires leaf in Leaves(t)
    decreases t
  {
    match t
    case Tip(_, _) => up
    case Fork(n, box, l, r) =>
      if leaf in Leaves(l) then PathTo(InA(up, n, box, r), l, leaf) else PathTo(InB(up, n, box, l), r, leaf)
  }

  lemma PathPlugs(up: Path, t: BoxTree, leaf: Ptr)
    requires leaf in Leaves(t)
    ensures Plug(PathTo(up, t, leaf), Tip(leaf, BoxOf(t, leaf))) == Plug(up, t)
    decreases t
  {
    match t
    case Tip(_, _) =>
    case Fork(n, box, l, r) =>
      if leaf in Leaves(l) {
        PathPlugs(InA(up, n, box, r), l, leaf);
      } else {
        PathPlugs(InB(up, n, box, l), r, leaf);
      }
  }

  function PathNodes(p: Path): set<Ptr> {
    if p.Top? then {} else {p.node} + NodesOf(p.sibling) + PathNodes(p.up)
  }

  predicate PathProper(p: Path) {
    p.Top? || (PathProper(p.up) && Proper(p.sibling) && p.node !in NodesOf(p.sibling) &&
               p.node !in PathNodes(p.up) && NodesOf(p.sibling) !! PathNodes(p.up))
  }

  lemma PlugProper(p: Path, t: BoxTree)
    ensures Proper(Plug(p, t)) <==> PathProper(p) && Proper(t) && NodesOf(t) !! PathNodes(p)
    ensures NodesOf(Plug(p, t)) == PathNodes(p) + NodesOf(t)
  {
  }

  predicate PathBoxOk(p: Path) {
    p.Top? || (BoxOk(p.sibling) && PathBoxOk(p.up))
  }

  lemma PlugBoxOk(p: Path, t: BoxTree)
    requires BoxOk(Plug(p, t))
    ensures BoxOk(t) && PathBoxOk(p)
  {
    match p
    case Top =>
    case InA(up, n, box, sib) => PlugBoxOk(up, Fork(n, box, t, sib));
    case InB(up, n, box, sib) => PlugBoxOk(up, Fork(n, box, sib, t));
  }

  predicate RepresentsPath(m: Nodes, p: Path, child: Ptr) {
    p.Top? ||
    (&& p.node != NULL && p.node in m && m[p.node].obj == NULL && m[p.node].bb == p.box
      && m[p.node].parent == Holder(p.up)
     && m[p.node].body == (if p.InA? then Children(child, p.sibling.node) else Children(p.sibling.node, child))
     && Represents(m, p.sibling, p.node) && RepresentsPath(m, p.up, p.node))
  }

  lemma PlugRepresents(m: Nodes, p: Path, t: BoxTree)
    ensures Represents(m, Plug(p, t), NULL) <==> RepresentsPath(m, p, t.node) && Represents(m, t, Holder(p))
  {
  }

  lemma PathFrame(m: Nodes, m': Nodes, p: Path, child: Ptr)
    requires RepresentsPath(m, p, child)
    requires forall n :: n in PathNodes(p) && n in m ==> n in m' && m'[n] == m[n]
    ensures RepresentsPath(m', p, child)
  {
    if !p.Top? {
      RepresentsFrame(m, m', p.sibling, p.node);
    }
  }

  // ---- removal ----

  /** Put t into the hole and recompute the boxes on the way up. */
  function Refit(p: Path, t: BoxTree): BoxTree {
    match p
    case Top => t
    case InA(up, n, _, sib) => Refit(up, Fork(n, Merge(t.box, sib.box), t, sib))
    case InB(up, n, _, sib) => Refit(up, Fork(n, Merge(sib.box, t.box), sib, t))
  }

  /** The tree without one of its leaves; the leaf's parent node goes as well. */
  function RemoveLeaf(t: BoxTree, leaf: Ptr): BoxTree
    requires leaf in Leaves(t) && t != Tip(leaf, t.box)
  {
    var p := PathTo(Top, t, leaf);
    if p.Top? then t else Refit(p.up, p.sibling)
  }

  function LeavesBefore(p: Path): seq<Ptr> {
    match p
    case Top => []
    case InA(up, _, _, _) => LeavesBefore(up)
    case InB(up, _, _, sib) => LeavesBefore(up) + Leaves(sib)
  }

  function LeavesAfter(p: Path): seq<Ptr> {
    match p
    case Top => []
    case InA(up, _, _, sib) => Leaves(sib) + LeavesAfter(up)
    case InB(up, _, _, _) => LeavesAfter(up)
  }

  lemma {:induction false} PlugLeaves(p: Path, t: BoxTree)
    ensures Leaves(Plug(p, t)) == LeavesBefore(p) + Leaves(t) + LeavesAfter(p)
    decreases p
  {
    match p
    case Top =>
    case InA(up, n, box, sib) => PlugLeaves(up, Fork(n, box, t, sib));
    case InB(up, n, box, sib) => PlugLeaves(up, Fork(n, box, sib, t));
  }

  lemma RefitShape(p: Path, t: BoxTree)
    ensures Leaves(Refit(p, t)) == LeavesBefore(p) + Leaves(t) + LeavesAfter(p)
    ensures NodesOf(Refit(p, t)) == PathNodes(p) + NodesOf(t)
    ensures PathProper(p) && Proper(t) && NodesOf(t) !! PathNodes(p) ==> Proper(Refit(p, t))
    ensures PathBoxOk(p) && BoxOk(t) ==> BoxOk(Refit(p, t))
  {
  }

  /** One step of the walk to the root: the holder's box is recomputed and the focus moves up. */
  function Lifted(p: Path, t: BoxTree): BoxTree
    requires !p.Top?
  {
    if p.InA? then Fork(p.node, Merge(t.box, p.sibling.box), t, p.sibling)
      else Fork(p.node, Merge(p.sibling.box, t.box), p.sibling, t)
  }

  lemma LiftedRepresents(m: Nodes, p: Path, t: BoxTree)
    requires !p.Top? && RepresentsPath(m, p, t.node) && Represents(m, t, p.node)
    requires PathProper(p) && Proper(t) && NodesOf(t) !! PathNodes(p)
    ensures var t' := Lifted(p, t);
            var m' := m[p.node := m[p.node].(bb := t'.box)];
            && Represents(m', t', Holder(p.up)) && RepresentsPath(m', p.up, p.node)
            && Proper(t') && NodesOf(t') == NodesOf(t) + NodesOf(p.sibling) + {p.node} && NodesOf(t') !! PathNodes(p.up)
            && Refit(p, t) == Refit(p.up, t')
  {
    var m' := m[p.node := m[p.node].(bb := Lifted(p, t).box)];
    RepresentsFrame(m, m', t, p.node);
    RepresentsFrame(m, m', p.sibling, p.node);
    PathFrame(m, m', p.up, p.node);
  }

  /** The nodes of a tree without one leaf: the leaf and its parent are gone. */
  lemma RemoveShape(t: BoxTree, leaf: Ptr)
    requires Proper(t) && leaf in Leaves(t) && t.Fork?
    ensures var p := PathTo(Top, t, leaf);
            && !p.Top? && RemoveLeaf(t, leaf) == Refit(p.up, p.sibling) && PathProper(p) && leaf !in PathNodes(p)
            && NodesOf(t) == PathNodes(p) + {leaf} && NodesOf(RemoveLeaf(t, leaf)) == PathNodes(p) - {p.node}
            && Proper(RemoveLeaf(t, leaf))
  {
    var p := PathTo(Top, t, leaf);
    PathPlugs(Top, t, leaf);
    PathToDeep(Top, t, leaf);
    PlugProper(p, Tip(leaf, BoxOf(t, leaf)));
    RefitShape(p.up, p.sibling);
  }

  /** The remaining leaves keep their order, and the boxes fit again. */
  lemma RemoveLeaves(t: BoxTree, leaf: Ptr)
    requires leaf in Leaves(t) && t.Fork?
    ensures var p := PathTo(Top, t, leaf);
            Leaves(t) == LeavesBefore(p) + [leaf] + LeavesAfter(p)
              && Leaves(RemoveLeaf(t, leaf)) == LeavesBefore(p) + LeavesAfter(p)
    ensures BoxOk(t) ==> BoxOk(RemoveLeaf(t, leaf))
  {
    var p, tip := PathTo(Top, t, leaf), Tip(leaf, BoxOf(t, leaf));
    PathPlugs(Top, t, leaf);
    PathToDeep(Top, t, leaf);
    PlugLeaves(p, tip);
    RefitShape(p.up, p.sibling);
    if BoxOk(t) {
      PlugBoxOk(p, tip);
    }
  }

  lemma PathToDeep(up: Path, t: BoxTree, leaf: Ptr)
    requires leaf in Leaves(t)
    ensures t.Fork? || !up.Top? ==> !PathTo(up, t, leaf).Top?
    decreases t
  {
    match t
    case Tip(_, _) =>
    case Fork(n, box, l, r) =>
      if leaf in Leaves(l) {
        PathToDeep(InA(up, n, box, r), l, leaf);
      } else {
        PathToDeep(InB(up, n, box, l), r, leaf);
      }
  }

  /** The tree with another box stored at one leaf; the boxes above are not refitted. */
  function Rebox(t: BoxTree, leaf: Ptr, bb: BB): BoxTree {
    match t
    case Tip(n, box) => if n == leaf then Tip(n, bb) else t
    case Fork(n, box, l, r) => Fork(n, box, Rebox(l, leaf, bb), Rebox(r, leaf, bb))
  }

  lemma ReboxShape(t: BoxTree, leaf: Ptr, bb: BB)
    ensures Leaves(Rebox(t, leaf, bb)) == Leaves(t) && NodesOf(Rebox(t, leaf, bb)) == NodesOf(t)
    ensures Proper(Rebox(t, leaf, bb)) <==> Proper(t)
    ensures leaf !in Leaves(t) ==> Rebox(t, leaf, bb) == t
    ensures Rebox(t, leaf, bb).node == t.node
  {
  }

  lemma ReboxPath(up: Path, t: BoxTree, leaf: Ptr, bb: BB)
    requires leaf in Leaves(t) && Proper(t)
    ensures leaf in Leaves(Rebox(t, leaf, bb)) && PathTo(up, Rebox(t, leaf, bb), leaf) == PathTo(up, t, leaf)
    decreases t
  {
    ReboxShape(t, leaf, bb);
    match t
    case Tip(_, _) =>
    case Fork(n, box, l, r) =>
      LeavesAreNodes(l);
      LeavesAreNodes(r);
      ReboxShape(l, leaf, bb);
      ReboxShape(r, leaf, bb);
      if leaf in Leaves(l) {
        ReboxPath(InA(up, n, box, r), l, leaf, bb);
      } else {
        ReboxPath(InB(up, n, box, l), r, leaf, bb);
      }
  }

  lemma ReboxRepresents(m: Nodes, t: BoxTree, parent: Ptr, leaf: Ptr, bb: BB)
    requires Represents(m, t, parent) && leaf in m && m[leaf].body.Leaf?
    ensures Represents(m[leaf := m[leaf].(bb := bb)], Rebox(t, leaf, bb), parent)
  {
    if t.Fork? {
      ReboxShape(t.left, leaf, bb);
      ReboxShape(t.right, leaf, bb);
      ReboxRepresents(m, t.left, t.node, leaf, bb);
      ReboxRepresents(m, t.right, t.node, leaf, bb);
    }
  }

  lemma TwoLeaves(t: BoxTree, x: Ptr)
    requires Proper(t) && t.Fork?
    ensures exists l :: l in Leaves(t) && l != x
  {
    LeavesAreNodes(t.left);
    LeavesAreNodes(t.right);
    var a, b := Leaves(t.left)[0], Leaves(t.right)[0];
    assert a in NodesOf(t.left) && b in NodesOf(t.right);
    assert a in Leaves(t) && b in Leaves(t) && a != b;
  }

  lemma ProperDistinct(t: BoxTree)
    requires Proper(t)
    ensures forall i, j :: 0 <= i < j < |Leaves(t)| ==> Leaves(t)[i] != Leaves(t)[j]
  {
    if t.Fork? {
      LeavesAreNodes(t.left);
      LeavesAreNodes(t.right);
      var a, b := Leaves(t.left), Leaves(t.right);
      forall i, j | 0 <= i < j < |a + b| ensures (a + b)[i] != (a + b)[j] {
        assert i < |a| <= j ==> (a + b)[i] in a && (a + b)[j] in b;
      }
    }
  }

  // ---- trees that may be empty ----

  datatype MaybeTree = NoTree | SomeTree(t: BoxTree)

  function AllNodes(t: MaybeTree): set<Ptr> {
    if t.NoTree? then {} else NodesOf(t.t)
  }

  function AllLeaves(t: MaybeTree): seq<Ptr> {
    if t.NoTree? then [] else Leaves(t.t)
  }

  predicate AllBoxesOk(t: MaybeTree) {
    t.SomeTree? ==> BoxOk(t.t)
  }

  function Pruned(t: BoxTree, leaf: Ptr): MaybeTree
    requires leaf in Leaves(t)
  {
    if t.Tip? then NoTree else SomeTree(RemoveLeaf(t, leaf))
  }

  function Grown(t: MaybeTree, leaf: Ptr, bb: BB, spare: Ptr): BoxTree {
    if t.NoTree? then Tip(leaf, bb) else InsertLeaf(t.t, leaf, bb, spare)
  }

  lemma PrunedShape(t: BoxTree, leaf: Ptr)
    requires Proper(t) && leaf in Leaves(t)
    ensures AllNodes(Pruned(t, leaf)) <= NodesOf(t) && leaf !in AllNodes(Pruned(t, leaf))
    ensures Pruned(t, leaf).SomeTree? ==> Proper(Pruned(t, leaf).t)
    ensures forall l :: l in AllLeaves(Pruned(t, leaf)) <==> l in Leaves(t) && l != leaf
    ensures forall l :: l in AllLeaves(Pruned(t, leaf)) ==> l in AllNodes(Pruned(t, leaf))
  {
    if t.Fork? {
      RemoveShape(t, leaf);
      RemoveLeaves(t, leaf);
      LeavesAreNodes(RemoveLeaf(t, leaf));
    }
  }

  lemma GrownShape(t: MaybeTree, leaf: Ptr, bb: BB, spare: Ptr)
    ensures AllNodes(SomeTree(Grown(t, leaf, bb, spare))) <= AllNodes(t) + {leaf, spare}
    ensures forall l :: l in Leaves(Grown(t, leaf, bb, spare)) <==> l in AllLeaves(t) || l == leaf
    ensures AllBoxesOk(t) ==> BoxOk(Grown(t, leaf, bb, spare))
    ensures t.SomeTree? && Proper(t.t) && leaf !in AllNodes(t) && spare !in AllNodes(t) && leaf != spare
      ==> Proper(Grown(t, leaf, bb, spare))
  {
    if t.SomeTree? {
      InsertNodes(t.t, leaf, bb, spare);
      if BoxOk(t.t) {
        InsertBoxOk(t.t, leaf, bb, spare);
      }
      if Proper(t.t) && leaf !in AllNodes(t) && spare !in AllNodes(t) && leaf != spare {
        InsertProper(t.t, leaf, bb, spare);
      }
    }
  }

  /** A stale box at the leaf that is taken out leaves no trace. */
  lemma ReboxPruned(t: BoxTree, leaf: Ptr, bb: BB)
    requires Proper(t) && leaf in Leaves(t)
    ensures leaf in Leaves(Rebox(t, leaf, bb)) && Pruned(Rebox(t, leaf, bb), leaf) == Pruned(t, leaf)
    ensures BoxOk(t) ==> AllBoxesOk(Pruned(t, leaf))
  {
    ReboxShape(t, leaf, bb);
    if t.Fork? {
      ReboxPath(Top, t, leaf, bb);
      RemoveLeaves(t, leaf);
    }
  }

  // ---- segment queries ----

  /** The smallest of the leaves' results. */
  function Nearest(t: BoxTree, m: Nodes, func: Ptr -> real): real {
    match t
    case Tip(n, _) => func(ObjOf(m, n))
    case Fork(_, _, l, r) => Min(Nearest(l, m, func), Nearest(r, m, func))
  }

  lemma NearestMeaning(t: BoxTree, m: Nodes, func: Ptr -> real)
    ensures forall l :: l in Leaves(t) ==> Nearest(t, m, func) <= func(ObjOf(m, l))
    ensures exists l :: l in Leaves(t) && Nearest(t, m, func) == func(ObjOf(m, l))
  {
    if t.Fork? {
      NearestMeaning(t.left, m, func);
      NearestMeaning(t.right, m, func);
    } else {
      assert t.node in Leaves(t);
    }
  }

  /** The least of the results for the objects told, or tExit. */
  function LeastOf(told: seq<Ptr>, func: Ptr -> real, tExit: real): (r: real)
    ensures r <= tExit && forall o :: o in told ==> r <= func(o)
    ensures r == tExit || exists o :: o in told && r == func(o)
  {
    var n := |told| - 1;
    if told == [] then tExit else
      assert told == told[..n] + [told[n]];
      Min(LeastOf(told[..n], func, tExit), func(told[n]))
  }

  lemma {:induction false} LeastConcat(a: seq<Ptr>, b: seq<Ptr>, func: Ptr -> real, tExit: real)
    ensures LeastOf(a + b, func, tExit) == LeastOf(b, func, LeastOf(a, func, tExit))
  {
    var n := |b| - 1;
    if b == [] {
      assert a + b == a;
    } else {
      LeastConcat(a, b[..n], func, tExit);
      assert (a + b)[..|a| + n] == a + b[..n];
    }
  }

  /** Only objects of leaves of t. */
  ghost predicate ObjectsOf(told: seq<Ptr>, m: Nodes, t: BoxTree) {
    forall o :: o in told ==> IsObject(o, m, t)
  }

  ghost predicate IsObject(o: Ptr, m: Nodes, t: BoxTree) {
    exists l :: l in Leaves(t) && ObjOf(m, l) == o
  }

  lemma ObjectsOfParts(told: seq<Ptr>, more: seq<Ptr>, m: Nodes, t: BoxTree)
    requires t.Fork?
    requires (ObjectsOf(told, m, t.left) && ObjectsOf(more, m, t.right))
      || (ObjectsOf(told, m, t.right) && ObjectsOf(more, m, t.left))
    ensures ObjectsOf(told + more, m, t)
  {
    forall o | o in told + more ensures IsObject(o, m, t) {
      assert IsObject(o, m, t.left) || IsObject(o, m, t.right);
    }
  }

  lemma MinAssoc(x: real, y: real, z: real)
    ensures Min(Min(x, y), z) == Min(x, Min(y, z))
  {
  }

  /** It is enough to know this of every box around a leaf. */
  lemma EnclosingAdmissible(t: BoxTree, entry: BB -> real, m: Nodes, func: Ptr -> real, tExit: real)
    requires BoxOk(t)
    requires forall l, bb ::
      l in Leaves(t) && ContainsBB(bb, BoxOf(t, l)) ==> Min(tExit, entry(bb)) <= func(ObjOf(m, l))
    requires Proper(t)
    ensures Admissible(t, entry, m, func, tExit)
  {
    BoxEncloses(t);
    if t.Fork? {
      PartBoxes(t);
      EnclosingAdmissible(t.left, entry, m, func, tExit);
      EnclosingAdmissible(t.right, entry, m, func, tExit);
    }
  }

  lemma PartBoxes(t: BoxTree)
    requires t.Fork? && Proper(t)
    ensures forall l :: l in Leaves(t.left) ==> BoxOf(t, l) == BoxOf(t.left, l)
    ensures forall l :: l in Leaves(t.right) ==> BoxOf(t, l) == BoxOf(t.right, l)
  {
    LeavesAreNodes(t.left);
    LeavesAreNodes(t.right);
  }

  lemma BoxEncloses(t: BoxTree)
    requires BoxOk(t) && Proper(t)
    ensures forall l :: l in Leaves(t) ==> ContainsBB(t.box, BoxOf(t, l))
  {
    if t.Fork? {
      BoxEncloses(t.left);
      BoxEncloses(t.right);
      PartBoxes(t);
    }
  }

  /** No leaf's result comes before both tExit and the time the segment enters a box around that leaf; when it misses
      the box, that time is tExit or later. */
  ghost predicate Admissible(t: BoxTree, entry: BB -> real, m: Nodes, func: Ptr -> real, tExit: real) {
    (forall l :: l in Leaves(t) ==> Min(tExit, entry(t.box)) <= func(ObjOf(m, l))) &&
    (t.Fork? ==> Admissible(t.left, entry, m, func, tExit) && Admissible(t.right, entry, m, func, tExit))
  }

  lemma EntryFirst(t: BoxTree, entry: BB -> real, m: Nodes, func: Ptr -> real, tExit: real)
    requires Admissible(t, entry, m, func, tExit)
    ensures Min(tExit, entry(t.box)) <= Nearest(t, m, func)
  {
    NearestMeaning(t, m, func);
  }

  /** An earlier exit asks for less. */
  lemma EarlierExit(t: BoxTree, entry: BB -> real, m: Nodes, func: Ptr -> real, tExit: real, sooner: real)
    requires Admissible(t, entry, m, func, tExit) && sooner <= tExit
    ensures Admissible(t, entry, m, func, sooner)
  {
  }
}
