/** Handing a child over to a neighbouring branch, and dropping a lone branch below the root. */
module RegionMoves {
  import opened RegionTree
  import opened RegionSplit
  import opened RegionSteps

  // ---------------------------------------------------------------- one child changes hands

  /** `c` joins the children `cs` of `target`, at either end. */
  ghost predicate PushDone(at: Store, bt: Store, target: Node, c: Child, cs: seq<Child>) {
    && target in at && c.node in at && bt.Keys == at.Keys && c.node != target
    && (cs == at[target].kids + [c] || cs == [c] + at[target].kids)
    && bt[target] == at[target].(kids := cs)
    && bt[c.node] == at[c.node].(parent := target)
    && (forall n :: n in at && n != target && n != c.node ==> bt[n] == at[n])
  }

  /** `c` is a child of no node of the tree: its old parent has been taken out. */
  ghost predicate CanPush(t: Tree, gap: int, target: Node, c: Child) {
    && Shape(t, gap)
    && target in t.at && c.node in t.at
    && t.at[target].height == gap + 1 && t.at[c.node].height == gap
    && t.at[c.node].parent !in t.at && t.at[c.node].parent != null
    && |t.at[target].kids| < MAX_BRANCHES
  }

  lemma PushKeeps(at: Store, bt: Store, target: Node, c: Child, cs: seq<Child>, n: Node)
    requires PushDone(at, bt, target, c, cs) && n in at
    ensures n in bt && bt[n].height == at[n].height && bt[n].runs == at[n].runs
    ensures bt[n].prev == at[n].prev && bt[n].next == at[n].next
    ensures n != target ==> bt[n].kids == at[n].kids
    ensures n != c.node ==> bt[n].parent == at[n].parent
  {
  }

  lemma PushRow(at: Store, bt: Store, target: Node, c: Child, cs: seq<Child>, h: nat, row: seq<Node>)
    requires PushDone(at, bt, target, c, cs) && Row(at, h, row)
    ensures Row(bt, h, row)
    ensures RunsOf(bt, row) == RunsOf(at, row)
    ensures h != at[target].height ==> FlatKids(bt, row) == FlatKids(at, row)
  {
    forall n | n in row
      ensures n in bt && bt[n].prev == at[n].prev && bt[n].next == at[n].next && bt[n].height == at[n].height
      ensures bt[n].runs == at[n].runs
      ensures h != at[target].height ==> KidsOf(at, n) == KidsOf(bt, n)
    {
      PushKeeps(at, bt, target, c, cs, n);
    }
    RowFrame(at, bt, h, row);
    RunsFrame(at, bt, row);
    if h != at[target].height {
      FlatFrame(at, bt, row);
    }
  }

  lemma PushLinks(at: Store, bt: Store, target: Node, c: Child, cs: seq<Child>, n: Node)
    requires PushDone(at, bt, target, c, cs)
    requires n in at && KidsLinked(at, n)
    requires at[c.node].parent !in at && at[c.node].height + 1 == at[target].height
    ensures KidsLinked(bt, n)
  {
    PushKeeps(at, bt, target, c, cs, n);
    LinkedBelow(at, n);
    if n == target {
      var kids := KidNodes(at[n].kids);
      assert c.node !in kids;
      KidNodesConcat(at[n].kids, [c]);
      KidNodesConcat([c], at[n].kids);
      assert KidNodes([c]) == [c.node];
      var all := KidNodes(cs);
      assert all == kids + [c.node] || all == [c.node] + kids;
      forall i | 0 <= i < |cs|
        ensures KidAt(bt, n, i)
      {
        assert all[i] == c.node || all[i] in kids;
        PushKeeps(at, bt, target, c, cs, all[i]);
      }
    } else {
      forall i | 0 <= i < |bt[n].kids|
        ensures KidAt(bt, n, i)
      {
        assert KidAt(at, n, i);
        PushKeeps(at, bt, target, c, cs, at[n].kids[i].node);
      }
    }
  }

  lemma PushNodes(t: Tree, gap: int, target: Node, c: Child, cs: seq<Child>, bt: Store)
    requires CanPush(t, gap, target, c) && PushDone(t.at, bt, target, c, cs)
    ensures forall n :: n in bt ==> NodeOk(bt, n)
  {
    forall n | n in bt
      ensures NodeOk(bt, n)
    {
      assert NodeOk(t.at, n);
      PushKeeps(t.at, bt, target, c, cs, n);
      PushLinks(t.at, bt, target, c, cs, n);
    }
  }

  lemma PushRooted(t: Tree, gap: int, target: Node, c: Child, cs: seq<Child>, bt: Store)
    requires CanPush(t, gap, target, c) && PushDone(t.at, bt, target, c, cs)
    ensures Rooted(Tree(bt, t.rows))
  {
    RootFacts(t, gap);
    PushKeeps(t.at, bt, target, c, cs, Root(t));
  }

  /** Handing a loose child over keeps the shape, the gap included. */
  lemma PushShape(t: Tree, gap: int, target: Node, c: Child, cs: seq<Child>, bt: Store)
    requires CanPush(t, gap, target, c) && PushDone(t.at, bt, target, c, cs)
    ensures Shape(Tree(bt, t.rows), gap)
  {
    var u := Tree(bt, t.rows);
    PushNodes(t, gap, target, c, cs, bt);
    PushRooted(t, gap, target, c, cs, bt);
    forall h | 0 <= h < |u.rows|
      ensures Row(bt, h, u.rows[h])
    {
      assert Row(t.at, h, t.rows[h]);
      PushRow(t.at, bt, target, c, cs, h, t.rows[h]);
    }
    forall h | 0 <= h < |u.rows| - 1 && h != gap
      ensures KidRow(u, h)
    {
      assert KidRow(t, h) && Row(t.at, h + 1, t.rows[h + 1]);
      PushRow(t.at, bt, target, c, cs, h + 1, t.rows[h + 1]);
    }
    forall n | n in bt
      ensures Placed(u, n)
    {
      assert Placed(t, n);
      PushKeeps(t.at, bt, target, c, cs, n);
    }
  }

  lemma PushSumAt(at: Store, bt: Store, target: Node, c: Child, cs: seq<Child>, e: int, n: Node, i: nat)
    requires PushDone(at, bt, target, c, cs)
    requires forall m, x :: m in at && 0 <= x < |at[m].kids| ==> SumAt(at, map[target := e], m, x)
    requires c.length == NodeLen(at[c.node])
    requires n in bt && i < |bt[n].kids|
    ensures SumAt(bt, map[target := e], n, i)
  {
    var o := if n == target && cs == [c] + at[target].kids then i - 1 else i;
    if n == target && cs[i] == c {
      PushKeeps(at, bt, target, c, cs, c.node);
    } else {
      assert 0 <= o < |at[n].kids| && bt[n].kids[i] == at[n].kids[o];
      assert SumAt(at, map[target := e], n, o);
      PushKeeps(at, bt, target, c, cs, at[n].kids[o].node);
    }
  }

  lemma PushSums(at: Store, bt: Store, target: Node, c: Child, cs: seq<Child>, e: int)
    requires PushDone(at, bt, target, c, cs)
    requires Sums(at, map[target := e]) && c.length == NodeLen(at[c.node])
    ensures Sums(bt, map[target := e])
    ensures NodeLen(bt[target]) == NodeLen(at[target]) + c.length
    ensures forall n :: n in at && n != target ==> NodeLen(bt[n]) == NodeLen(at[n])
  {
    forall n, i | n in bt && 0 <= i < |bt[n].kids|
      ensures SumAt(bt, map[target := e], n, i)
    {
      PushSumAt(at, bt, target, c, cs, e, n, i);
    }
    KidsTotalConcat(at[target].kids, [c]);
    KidsTotalConcat([c], at[target].kids);
    assert [c][1..] == [];
  }

  lemma PushFill(t: Tree, target: Node, c: Child, cs: seq<Child>, bt: Store, low: Node?)
    requires PushDone(t.at, bt, target, c, cs) && Fill(t, low)
    ensures Fill(Tree(bt, t.rows), low)
  {
    forall n | n in bt
      ensures Filled(Tree(bt, t.rows), low, n)
    {
      assert Filled(t, low, n);
      PushKeeps(t.at, bt, target, c, cs, n);
    }
  }

  // ---------------------------------------------------------------- dropping a lone branch

  /** The root's only child has a single child, which takes its place. */
  ghost predicate CollapseDone(at: Store, bt: Store, root: Node, node: Node, d: Node) {
    && root in at && node in at && d in at && bt.Keys == at.Keys - {node}
    && root != node && root != d && d != node
    && |at[root].kids| == 1 && at[root].kids[0].node == node
    && |at[node].kids| == 1 && at[node].kids[0].node == d
    && bt[root] == at[root].(kids := [Child(d, at[root].kids[0].length)], height := at[node].height)
    && bt[d] == at[d].(parent := root)
    && (forall n :: n in bt && n != root && n != d ==> bt[n] == at[n])
  }

  ghost function Lowered(t: Tree, bt: Store, root: Node): Tree
    requires |t.rows| >= 2
  {
    Tree(bt, t.rows[..|t.rows| - 2] + [[root]])
  }

  ghost predicate CanLower(t: Tree, root: Node, node: Node, d: Node) {
    && Shape(t, -1) && |t.rows| >= 3 && root == Root(t)
    && node in t.at && t.at[node].parent == root && d in t.at && t.at[d].parent == node
    && |t.at[root].kids| == 1 && t.at[root].kids[0].node == node
    && |t.at[node].kids| == 1 && t.at[node].kids[0].node == d
  }

  lemma LowerHeights(t: Tree, root: Node, node: Node, d: Node)
    requires CanLower(t, root, node, d)
    ensures
      var top := Top(t);
      && t.at[root].height == top && t.at[node].height == top - 1 && t.at[d].height == top - 2
      && t.at[root].parent == null
  {
    RootFacts(t, -1);
    assert NodeOk(t.at, root) && KidAt(t.at, root, 0);
    assert NodeOk(t.at, node) && KidAt(t.at, node, 0);
  }

  lemma OneKid(at: Store, n: Node, c: Node)
    requires n in at && |at[n].kids| == 1 && at[n].kids[0].node == c
    ensures FlatKids(at, [n]) == [c]
    ensures KidsTotal(at[n].kids) == at[n].kids[0].length
  {
    FlatOne(at, n);
    assert KidsOf(at, n) == [c];
    assert at[n].kids[1..] == [];
  }

  lemma LowerTopRows(t: Tree, root: Node, node: Node, d: Node)
    requires CanLower(t, root, node, d)
    ensures t.rows[Top(t)] == [root] && t.rows[Top(t) - 1] == [node] && t.rows[Top(t) - 2] == [d]
  {
    var top := Top(t);
    assert t.rows[top] == [root];
    assert KidRow(t, top - 1) && KidRow(t, top - 2);
    OneKid(t.at, root, node);
    OneKid(t.at, node, d);
  }

  lemma LowerFacts(t: Tree, root: Node, node: Node, d: Node)
    requires CanLower(t, root, node, d)
    ensures
      var top := Top(t);
      && t.at[root].height == top && t.at[node].height == top - 1 && t.at[d].height == top - 2
      && t.rows[top] == [root] && t.rows[top - 1] == [node] && t.rows[top - 2] == [d]
      && (forall n :: n in t.at && n != root ==> t.at[n].height < top)
      && (forall n :: n in t.at && n != root && n != node ==> t.at[n].height < top - 1)
  {
    var top := Top(t);
    LowerHeights(t, root, node, d);
    LowerTopRows(t, root, node, d);
    forall n | n in t.at && n != root
      ensures t.at[n].height < top && (n != node ==> t.at[n].height < top - 1)
    {
      assert Placed(t, n);
    }
  }

  lemma LoweredRows(t: Tree, bt: Store, root: Node)
    requires |t.rows| >= 2
    ensures
      var u := Lowered(t, bt, root);
      && |u.rows| == |t.rows| - 1
      && (forall h :: 0 <= h < |t.rows| - 2 ==> u.rows[h] == t.rows[h])
      && u.rows[|t.rows| - 2] == [root]
  {
  }

  lemma LowerKeeps(at: Store, bt: Store, root: Node, node: Node, d: Node, n: Node)
    requires CollapseDone(at, bt, root, node, d)
    requires n in at && n != node && n != root
    ensures n in bt && bt[n] == at[n].(parent := bt[n].parent)
    ensures n != d ==> bt[n] == at[n]
  {
  }

  lemma LowerRow(at: Store, bt: Store, root: Node, node: Node, d: Node, h: nat, row: seq<Node>)
    requires CollapseDone(at, bt, root, node, d)
    requires Row(at, h, row) && h != at[root].height && h != at[node].height
    ensures Row(bt, h, row)
    ensures FlatKids(bt, row) == FlatKids(at, row)
    ensures RunsOf(bt, row) == RunsOf(at, row)
  {
    forall n | n in row
      ensures n in bt && bt[n].prev == at[n].prev && bt[n].next == at[n].next && bt[n].height == at[n].height
      ensures KidsOf(at, n) == KidsOf(bt, n) && bt[n].runs == at[n].runs
    {
      LowerKeeps(at, bt, root, node, d, n);
    }
    RowFrame(at, bt, h, row);
    FlatFrame(at, bt, row);
    RunsFrame(at, bt, row);
  }

  lemma LowerTop(at: Store, bt: Store, root: Node, node: Node, d: Node, h: nat)
    requires CollapseDone(at, bt, root, node, d) && Row(at, h, [root])
    ensures Row(bt, at[node].height, [root])
    ensures FlatKids(bt, [root]) == [d]
  {
    assert [root][0] in [root] && ChainAt(at, [root], 0);
    assert ChainAt(bt, [root], 0);
    FlatOne(bt, root);
  }

  lemma LowerLinks(at: Store, bt: Store, root: Node, node: Node, d: Node, n: Node)
    requires CollapseDone(at, bt, root, node, d)
    requires n in bt && KidsLinked(at, n) && KidsLinked(at, root) && KidsLinked(at, node)
    requires at[root].parent == null
    ensures KidsLinked(bt, n)
  {
    assert KidAt(at, node, 0) && KidAt(at, root, 0);
    forall i | 0 <= i < |bt[n].kids|
      ensures KidAt(bt, n, i)
    {
      if n != root {
        LowerKeeps(at, bt, root, node, d, n);
        assert KidAt(at, n, i);
        LowerKeeps(at, bt, root, node, d, at[n].kids[i].node);
      }
    }
  }

  lemma LowerNodes(t: Tree, root: Node, node: Node, d: Node, bt: Store)
    requires CanLower(t, root, node, d) && CollapseDone(t.at, bt, root, node, d)
    ensures forall n :: n in bt ==> NodeOk(bt, n)
  {
    LowerFacts(t, root, node, d);
    RootFacts(t, -1);
    assert NodeOk(t.at, root) && NodeOk(t.at, node);
    forall n | n in bt
      ensures NodeOk(bt, n)
    {
      assert NodeOk(t.at, n);
      LowerLinks(t.at, bt, root, node, d, n);
    }
  }

  lemma LowerRowAt(t: Tree, root: Node, node: Node, d: Node, bt: Store, h: nat)
    requires CanLower(t, root, node, d) && CollapseDone(t.at, bt, root, node, d)
    requires h < |t.rows| - 1
    ensures
      var u := Lowered(t, bt, root);
      && Row(bt, h, u.rows[h])
      && (h + 1 < |u.rows| ==> KidRow(u, h))
      && (h + 1 < |u.rows| ==> RunsOf(bt, u.rows[h]) == RunsOf(t.at, t.rows[h]))
  {
    LowerFacts(t, root, node, d);
    LoweredRows(t, bt, root);
    var top := Top(t);
    assert Row(t.at, top, t.rows[top]);
    LowerTop(t.at, bt, root, node, d, top);
    if h < top - 1 {
      assert Row(t.at, h, t.rows[h]) && KidRow(t, h);
      LowerRow(t.at, bt, root, node, d, h, t.rows[h]);
      if h + 1 < top - 1 {
        assert Row(t.at, h + 1, t.rows[h + 1]);
        LowerRow(t.at, bt, root, node, d, h + 1, t.rows[h + 1]);
      }
    }
  }

  /** Dropping the lone branch takes one row off the top and leaves every row below as it was. */
  lemma LowerShape(t: Tree, root: Node, node: Node, d: Node, bt: Store)
    requires CanLower(t, root, node, d) && CollapseDone(t.at, bt, root, node, d)
    ensures Shape(Lowered(t, bt, root), -1)
    ensures AllRuns(Lowered(t, bt, root)) == AllRuns(t)
    ensures Root(Lowered(t, bt, root)) == root
  {
    var u := Lowered(t, bt, root);
    LoweredRows(t, bt, root);
    LowerNodes(t, root, node, d, bt);
    RootFacts(t, -1);
    forall h | 0 <= h < |u.rows|
      ensures Row(bt, h, u.rows[h])
    {
      LowerRowAt(t, root, node, d, bt, h);
    }
    forall h | 0 <= h < |u.rows| - 1
      ensures KidRow(u, h)
    {
      LowerRowAt(t, root, node, d, bt, h);
    }
    LowerRowAt(t, root, node, d, bt, 0);
    forall n | n in bt
      ensures Placed(u, n)
    {
      LowerPlaced(t, root, node, d, bt, n);
    }
  }

  lemma LowerPlaced(t: Tree, root: Node, node: Node, d: Node, bt: Store, n: Node)
    requires CanLower(t, root, node, d) && CollapseDone(t.at, bt, root, node, d)
    requires n in bt
    ensures Placed(Lowered(t, bt, root), n)
  {
    LoweredRows(t, bt, root);
    LowerFacts(t, root, node, d);
    assert Placed(t, n);
    if n != root {
      LowerKeeps(t.at, bt, root, node, d, n);
    }
  }

  lemma LowerSumAt(at: Store, bt: Store, root: Node, node: Node, d: Node, n: Node, i: nat)
    requires CollapseDone(at, bt, root, node, d)
    requires SumAt(at, map[], root, 0) && SumAt(at, map[], node, 0) && at[node].runs == []
    requires at[root].parent == null && KidAt(at, root, 0)
    requires n in bt && n != root && i < |at[n].kids| && KidAt(at, n, i) && SumAt(at, map[], n, i)
    ensures SumAt(bt, map[], n, i)
  {
    LowerKeeps(at, bt, root, node, d, n);
    LowerKeeps(at, bt, root, node, d, at[n].kids[i].node);
  }

  lemma LowerSums(t: Tree, root: Node, node: Node, d: Node, bt: Store)
    requires CanLower(t, root, node, d) && CollapseDone(t.at, bt, root, node, d)
    requires Sums(t.at, map[])
    ensures Sums(bt, map[])
    ensures NodeLen(bt[root]) == NodeLen(t.at[root])
  {
    LowerHeights(t, root, node, d);
    assert NodeOk(t.at, node) && NodeOk(t.at, root) && KidAt(t.at, root, 0);
    assert SumAt(t.at, map[], root, 0) && SumAt(t.at, map[], node, 0);
    OneKid(t.at, root, node);
    OneKid(t.at, node, d);
    OneKid(bt, root, d);
    forall n, i | n in bt && 0 <= i < |bt[n].kids|
      ensures SumAt(bt, map[], n, i)
    {
      if n != root {
        LowerKeeps(t.at, bt, root, node, d, n);
        assert NodeOk(t.at, n) && KidAt(t.at, n, i);
        assert SumAt(t.at, map[], n, i);
        LowerSumAt(t.at, bt, root, node, d, n, i);
      }
    }
  }

  lemma LowerFill(t: Tree, root: Node, node: Node, d: Node, bt: Store)
    requires CanLower(t, root, node, d) && CollapseDone(t.at, bt, root, node, d)
    requires Fill(t, node)
    ensures Fill(Lowered(t, bt, root), null)
  {
    LoweredRows(t, bt, root);
    LowerFacts(t, root, node, d);
    forall n | n in bt
      ensures Filled(Lowered(t, bt, root), null, n)
    {
      assert Filled(t, node, n);
      if n != root {
        LowerKeeps(t.at, bt, root, node, d, n);
      }
    }
  }
}
