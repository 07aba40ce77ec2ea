/** A node with too few entries, taken out of the tree together with its length. */
module RegionTakeOut {
  import opened Runs
  import opened RegionTree
  import opened RegionSteps
  import opened RegionLengths
  import opened RegionCascade
  import opened RegionEdit
  import opened RegionCompact

  /** What the nodes that stay keep when `node` is taken out. */
  ghost predicate StaysAt(t: Tree, u: Tree, node: Node, h: nat, n: Node)
    requires n in t.at && node in t.at
  {
    && n in u.at && u.at[n].height == t.at[n].height && u.at[n].runs == t.at[n].runs && u.at[n].parent == t.at[n].parent
    && (t.at[n].height < h ==> u.at[n] == t.at[n])
    && (t.at[n].height > h ==> u.at[n].prev == t.at[n].prev && u.at[n].next == t.at[n].next)
    && |u.at[n].kids| == |t.at[n].kids| - if n == t.at[node].parent then 1 else 0
  }

  ghost predicate Stays(t: Tree, u: Tree, node: Node, h: nat)
    requires node in t.at
  {
    forall n {:trigger StaysAt(t, u, node, h, n)} :: n in t.at && n != node ==> StaysAt(t, u, node, h, n)
  }

  /** `node` is out of the tree `u`; its children in row `h - 1` are without a parent. */
  ghost predicate TakenOut(t: Tree, u: Tree, root: Node, node: Node, s: Spot) {
    && At(t, node, s)
    && Gapped(u, s.h - 1, root, t.at[node].parent)
    && u.at.Keys == t.at.Keys - {node}
    && u.rows == t.rows[s.h := Narrowed(t.rows[s.h], s.j)]
    && FlatKids(t.at, t.rows[s.h]) == FlatKids(u.at, u.rows[s.h][..s.j]) + KidsOf(t.at, node)
        + FlatKids(u.at, u.rows[s.h][s.j..])
    && RunsOf(t.at, t.rows[s.h]) == RunsOf(u.at, u.rows[s.h][..s.j]) + t.at[node].runs
        + RunsOf(u.at, u.rows[s.h][s.j..])
    && Stays(t, u, node, s.h)
  }

  lemma NarrowedParts(row: seq<Node>, j: nat)
    requires j < |row|
    ensures Narrowed(row, j)[..j] == row[..j] && Narrowed(row, j)[j..] == row[j + 1..]
  {
  }

  lemma StaysAfter(t: Tree, mid: Store, bt: Store, node: Node, s: Spot, n: Node)
    requires LengthsOnly(t.at, mid, s.h) && DetachDone(mid, bt, node, s.k) && Linked(mid, node)
    requires n in t.at && n != node && t.at[node].height == s.h && node in t.at
    ensures StaysAt(t, Tree(bt, t.rows), node, s.h, n)
  {
    assert LengthsOnlyAt(t.at[n], mid[n], s.h) && LengthsOnlyAt(t.at[node], mid[node], s.h);
    DetachKeeps(mid, bt, node, s.k, n);
    assert |KidNodes(t.at[n].kids)| == |KidNodes(mid[n].kids)|;
  }

  lemma EmptiedSpot(t: Tree, mid: Store, root: Node, node: Node, s: Spot)
    requires Whole(t, root, node) && LengthsOnly(t.at, mid, s.h) && At(t, node, s) && |t.rows[s.h]| >= 2
    ensures
      var m := Tree(mid, t.rows);
      CanDetach(m, node, s) && Root(m) == root && Fill(m, node) && AllRuns(m) == AllRuns(t)
  {
    LengthsShape(t, mid, -1, s.h);
    LengthsFill(t, mid, s.h, node);
    var p := t.rows[s.h + 1][s.pj];
    assert LengthsOnlyAt(t.at[node], mid[node], s.h) && LengthsOnlyAt(t.at[p], mid[p], s.h);
    assert KidNodes(t.at[p].kids)[s.k] == KidNodes(mid[p].kids)[s.k];
    LengthsFlat(t.at, mid, s.h, t.rows[s.h + 1][..s.pj]);
  }

  lemma LengthsFlat(at: Store, bt: Store, h: nat, row: seq<Node>)
    requires LengthsOnly(at, bt, h)
    ensures FlatKids(at, row) == FlatKids(bt, row)
  {
    forall n | n in row
      ensures KidsOf(at, n) == KidsOf(bt, n)
    {
      if n in at {
        assert LengthsOnlyAt(at[n], bt[n], h);
      }
    }
    FlatFrame(at, bt, row);
  }

  lemma LengthsRuns(at: Store, bt: Store, h: nat, row: seq<Node>)
    requires LengthsOnly(at, bt, h) && forall n :: n in row ==> n in at
    ensures RunsOf(at, row) == RunsOf(bt, row)
  {
    forall n | n in row
      ensures n in at && n in bt && at[n].runs == bt[n].runs
    {
      assert LengthsOnlyAt(at[n], bt[n], h);
    }
    RunsFrame(at, bt, row);
  }

  lemma TakenSidesAt(at: Store, mid: Store, bt: Store, node: Node, s: Spot, row: seq<Node>)
    requires LengthsOnly(at, mid, s.h) && DetachDone(mid, bt, node, s.k) && Linked(mid, node)
    requires node in at && at[node].height == s.h && Row(mid, s.h, row) && s.j < |row| && row[s.j] == node
    ensures
      var rest := Narrowed(row, s.j);
      && FlatKids(at, row) == FlatKids(bt, rest[..s.j]) + KidsOf(at, node) + FlatKids(bt, rest[s.j..])
      && RunsOf(at, row) == RunsOf(bt, rest[..s.j]) + at[node].runs + RunsOf(bt, rest[s.j..])
  {
    assert LengthsOnlyAt(at[node], mid[node], s.h);
    DetachSides(mid, bt, node, s.k, row, s.j);
    LengthsFlat(at, mid, s.h, row);
    LengthsRuns(at, mid, s.h, row);
    NarrowedParts(row, s.j);
  }

  lemma TakenSides(t: Tree, mid: Store, bt: Store, root: Node, node: Node, s: Spot)
    requires Whole(t, root, node) && LengthsOnly(t.at, mid, s.h) && At(t, node, s) && |t.rows[s.h]| >= 2
    requires DetachDone(mid, bt, node, s.k)
    ensures
      var row := Narrowed(t.rows[s.h], s.j);
      && FlatKids(t.at, t.rows[s.h]) == FlatKids(bt, row[..s.j]) + KidsOf(t.at, node) + FlatKids(bt, row[s.j..])
      && RunsOf(t.at, t.rows[s.h]) == RunsOf(bt, row[..s.j]) + t.at[node].runs + RunsOf(bt, row[s.j..])
  {
    EmptiedSpot(t, mid, root, node, s);
    DetachLinked(Tree(mid, t.rows), node, s);
    assert Row(mid, s.h, Tree(mid, t.rows).rows[s.h]);
    TakenSidesAt(t.at, mid, bt, node, s, t.rows[s.h]);
  }

  /** Emptying the entry of a node and taking the node out. */
  lemma TakenOutDone(t: Tree, mid: Store, bt: Store, root: Node, node: Node, s: Spot)
    requires Whole(t, root, node) && LengthsOnly(t.at, mid, s.h) && At(t, node, s) && |t.rows[s.h]| >= 2
    requires Sums(mid, map[node := 0]) && DetachDone(mid, bt, node, s.k)
    ensures TakenOut(t, Detached(Tree(mid, t.rows), bt, s), root, node, s)
  {
    var m, u := Tree(mid, t.rows), Detached(Tree(mid, t.rows), bt, s);
    EmptiedSpot(t, mid, root, node, s);
    DetachLinked(m, node, s);
    DetachShape(m, node, s, bt);
    DetachRooted(m, node, s, bt);
    DetachSums(m, node, s, bt);
    DetachFill(m, node, s, bt);
    TakenSides(t, mid, bt, root, node, s);
    assert LengthsOnlyAt(t.at[node], mid[node], s.h);
    forall n | n in t.at && n != node
      ensures StaysAt(t, u, node, s.h, n)
    {
      StaysAfter(t, mid, bt, node, s, n);
    }
  }

  /** The entry of a node about to be taken out, and what is taken off it. */
  lemma EmptyEntry(t: Tree, root: Node, low: Node?, node: Node, s: Spot)
    requires Whole(t, root, low) && At(t, node, s)
    ensures node in t.at && t.at[node].height == s.h
    ensures forall m :: m in map[node := NodeLen(t.at[node])] ==> m in t.at && t.at[m].height <= t.at[node].height
    ensures Shape(t, -1) && Sums(t.at, map[node := NodeLen(t.at[node])])
    ensures
      var len: int := NodeLen(t.at[node]);
      Shift(map[node := len], node, -len) == map[node := 0]
  {
    WholeGapped(t, root, low);
    LooseAtFirst(t, -1, root, low, node);
  }

  // ---------------------------------------------------------------- a leaf is taken out

  lemma LeafTaken(t: Tree, u: Tree, root: Node, node: Node, s: Spot)
    requires TakenOut(t, u, root, node, s) && s.h == 0 && Shape(t, -1)
    ensures Whole(u, root, t.at[node].parent) && t.at[node].parent in u.at
    ensures |u.rows| > 0 && s.j <= |u.rows[0]|
    ensures
      var front, back := RunsOf(u.at, u.rows[0][..s.j]), RunsOf(u.at, u.rows[0][s.j..]);
      Cut(u, s.j, front, back) && AllRuns(t) == front + t.at[node].runs + back
    ensures
      var r := t.at[node];
      && (r.next != null ==> r.next in u.at && s.j < |u.rows[0]| && u.rows[0][s.j] == r.next)
      && (r.prev != null ==> r.prev in u.at && s.j > 0 && u.rows[0][s.j - 1] == r.prev)
  {
    hide Sums, Fill, NodeOk, FlatKids;
    WholeGapped(u, root, t.at[node].parent);
    assert Row(t.at, 0, t.rows[0]) && ChainAt(t.at, t.rows[0], s.j);
    assert StaysAt(t, u, node, 0, t.at[node].parent);
    assert Row(u.at, 0, u.rows[0]);
  }

  lemma TakenSpare(t: Tree, u: Tree, root: Node, node: Node, s: Spot)
    requires TakenOut(t, u, root, node, s)
    ensures Spare(t) ==> Spare(u)
  {
    if Spare(t) {
      forall n | n in u.at
        ensures SpareAt(u, n)
      {
        assert SpareAt(t, n) && StaysAt(t, u, node, s.h, n);
      }
    }
  }

  /** A leaf without siblings may be as short as it likes. */
  lemma SoleLeaf(t: Tree, root: Node, node: Node)
    requires Whole(t, root, node) && node in t.at && t.at[node].height == 0
    requires t.at[node].prev == null && t.at[node].next == null
    ensures Whole(t, root, null)
  {
    assert Placed(t, node) && Row(t.at, 0, t.rows[0]);
    var j := IndexIn(t.rows[0], node);
    assert ChainAt(t.at, t.rows[0], j);
    forall n | n in t.at
      ensures Filled(t, null, n)
    {
      assert Filled(t, node, n);
    }
  }

  lemma HasSibling(t: Tree, root: Node, low: Node?, node: Node, s: Spot)
    requires Whole(t, root, low) && At(t, node, s)
    requires t.at[node].prev != null || t.at[node].next != null
    ensures |t.rows[s.h]| >= 2
  {
    assert Row(t.at, s.h, t.rows[s.h]) && ChainAt(t.at, t.rows[s.h], s.j);
  }

  lemma TakenKeys(t: Tree, u: Tree, root: Node, node: Node, s: Spot)
    requires TakenOut(t, u, root, node, s)
    ensures u.at.Keys <= t.at.Keys
  {
  }

  /** A leaf has a parent, which holds its length. */
  lemma LeafSpot(t: Tree, root: Node, node: Node) returns (s: Spot)
    requires Whole(t, root, node) && node in t.at && node.isLeaf
    ensures At(t, node, s) && s.h == 0 && t.at[node].height == 0 && Shape(t, -1)
    ensures s.j < |t.rows[0]|
    ensures
      var p := t.at[node].parent;
      && p != null && p in t.at && !p.isLeaf && s.k < |t.at[p].kids| && t.at[p].kids[s.k].node == node
      && forall i :: 0 <= i < |t.at[p].kids| && t.at[p].kids[i].node == node ==>
           t.at[p].kids[i].length == NodeLen(t.at[node])
    ensures Positive(t.at[node].runs)
    ensures t.at[node].prev != null ==> t.at[node].prev in t.at && t.at[node].prev != node && s.j > 0
    ensures t.at[node].next != null ==> t.at[node].next in t.at && t.at[node].next != node
  {
    assert NodeOk(t.at, node);
    ParentInTree(t, node, root, node);
    s := ParentSpot(t, node, root, node);
    var p := t.at[node].parent;
    forall i | 0 <= i < |t.at[p].kids| && t.at[p].kids[i].node == node
      ensures t.at[p].kids[i].length == NodeLen(t.at[node])
    {
      assert SumAt(t.at, map[], p, i);
    }
    var row := t.rows[0];
    assert Row(t.at, 0, row) && ChainAt(t.at, row, s.j);
    if s.j > 0 {
      assert row[s.j - 1] in row;
    }
    if s.j + 1 < |row| {
      assert row[s.j + 1] in row;
    }
  }

  lemma GlueRuns(a: seq<Run>, b: seq<Run>, c: seq<Run>)
    ensures a + (b + c) == a + b + c
  {
  }
}
