/** What the invariant is good for: the debugging check of every node, and a bound on the depth. */
module RegionBounds {
  import opened Runs
  import opened RegionTree
  import opened RegionCascade
  import opened RegionSearch

  // ---------------------------------------------------------------- the check of one node

  /** The child at `k` of a branch: not empty, of the right length, with the right parent, linked to the next child. */
  ghost predicate ChildValidates(t: Tree, node: Node, k: nat)
    requires node in t.at && k < |t.at[node].kids|
  {
    var c, kids := t.at[node].kids[k], t.at[node].kids;
    && c.node in t.at && c.length > 0 && c.length == NodeLen(t.at[c.node]) && t.at[c.node].parent == node
    && (k + 1 < |kids| ==>
          && kids[k + 1].node in t.at
          && kids[k + 1].node.isLeaf == c.node.isLeaf
          && t.at[c.node].next == kids[k + 1].node && t.at[kids[k + 1].node].prev == c.node)
  }

  /** What the region's own debugging check asserts of a node. */
  ghost predicate NodeValidates(t: Tree, node: Node)
    requires node in t.at
  {
    var r := t.at[node];
    && (r.parent != null ==>
          && r.parent in t.at && !r.parent.isLeaf
          && exists k :: 0 <= k < |t.at[r.parent].kids| && t.at[r.parent].kids[k] == Child(node, NodeLen(r)))
    && (if node.isLeaf then
          && (forall i :: 0 <= i < |r.runs| ==> r.runs[i].length > 0)
          && (r.prev != null ==> r.prev.isLeaf) && (r.next != null ==> r.next.isLeaf)
        else
          forall k {:trigger ChildValidates(t, node, k)} :: 0 <= k < |r.kids| ==> ChildValidates(t, node, k))
  }

  lemma ChildrenLinked(t: Tree, root: Node, node: Node, k: nat)
    requires Whole(t, root, null) && node in t.at && k + 1 < |t.at[node].kids| && Total(AllRuns(t)) > 0
    ensures
      var c, d := t.at[node].kids[k].node, t.at[node].kids[k + 1].node;
      c in t.at && d in t.at && c.isLeaf == d.isLeaf && t.at[c].next == d && t.at[d].prev == c
  {
    var kids, h := t.at[node].kids, t.at[node].height;
    assert NodeOk(t.at, node) && Placed(t, node);
    assert KidAt(t.at, node, k) && KidAt(t.at, node, k + 1);
    assert NodeOk(t.at, kids[k].node) && NodeOk(t.at, kids[k + 1].node);
    assert KidRow(t, h - 1) && Row(t.at, h - 1, t.rows[h - 1]);
    var i := IndexIn(t.rows[h], node);
    var j := |FlatKids(t.at, t.rows[h][..i])| + k;
    FlatPlace(t.at, t.rows[h], i, k, j);
    FlatPlace(t.at, t.rows[h], i, k + 1, j + 1);
    assert ChainAt(t.at, t.rows[h - 1], j) && ChainAt(t.at, t.rows[h - 1], j + 1);
  }

  lemma ChildChecked(t: Tree, root: Node, node: Node, k: nat)
    requires Whole(t, root, null) && node in t.at && k < |t.at[node].kids| && Total(AllRuns(t)) > 0
    ensures ChildValidates(t, node, k)
  {
    assert NodeOk(t.at, node) && KidAt(t.at, node, k) && SumAt(t.at, map[], node, k);
    var c := t.at[node].kids[k].node;
    NodesNotEmpty(t, root, c, t.at[c].height);
    if k + 1 < |t.at[node].kids| {
      ChildrenLinked(t, root, node, k);
    }
  }

  lemma ParentChecked(t: Tree, root: Node, node: Node)
    requires Whole(t, root, null) && node in t.at && t.at[node].parent != null
    ensures
      var p := t.at[node].parent;
      && p in t.at && !p.isLeaf
      && exists k :: 0 <= k < |t.at[p].kids| && t.at[p].kids[k] == Child(node, NodeLen(t.at[node]))
  {
    ParentInTree(t, node, root, null);
    var s := ParentSpot(t, node, root, null);
    assert SumAt(t.at, map[], t.at[node].parent, s.k);
    assert t.at[t.at[node].parent].kids[s.k] == Child(node, NodeLen(t.at[node]));
  }

  lemma LeafChecked(t: Tree, root: Node, node: Node)
    requires Whole(t, root, null) && node in t.at && node.isLeaf
    ensures forall i :: 0 <= i < |t.at[node].runs| ==> t.at[node].runs[i].length > 0
    ensures t.at[node].prev != null ==> t.at[node].prev.isLeaf
    ensures t.at[node].next != null ==> t.at[node].next.isLeaf
  {
    assert NodeOk(t.at, node) && Placed(t, node);
    var row := t.rows[0];
    assert Row(t.at, 0, row);
    var j := IndexIn(row, node);
    assert ChainAt(t.at, row, j);
    if j > 0 {
      assert row[j - 1] in row && NodeOk(t.at, row[j - 1]);
    }
    if j + 1 < |row| {
      assert row[j + 1] in row && NodeOk(t.at, row[j + 1]);
    }
  }

  /** In a region that is not empty every node passes the debugging check. */
  lemma AllValidate(t: Tree, root: Node, node: Node)
    requires Whole(t, root, null) && node in t.at && Total(AllRuns(t)) > 0
    ensures NodeValidates(t, node)
  {
    if t.at[node].parent != null {
      ParentChecked(t, root, node);
    }
    if node.isLeaf {
      LeafChecked(t, root, node);
    } else {
      forall k | 0 <= k < |t.at[node].kids|
        ensures ChildValidates(t, node, k)
      {
        ChildChecked(t, root, node, k);
      }
    }
  }

  // ---------------------------------------------------------------- depth

  function Pow(b: nat, e: nat): (r: nat)
    ensures b > 0 ==> r > 0
  {
    if e == 0 then 1 else b * Pow(b, e - 1)
  }

  lemma {:induction false} ManyKids(at: Store, row: seq<Node>)
    requires forall n :: n in row ==> n in at && |at[n].kids| >= MIN_BRANCHES
    ensures |FlatKids(at, row)| >= MIN_BRANCHES * |row|
  {
    if row != [] {
      ManyKids(at, row[1..]);
      OneMoreTime(MIN_BRANCHES, |row[1..]|);
    }
  }

  lemma OneMoreTime(a: nat, n: nat)
    ensures a * (n + 1) == a * n + a
  {
  }

  lemma {:induction false} ManyRuns(at: Store, row: seq<Node>)
    requires forall n :: n in row ==> n in at && |at[n].runs| >= MIN_RUNS
    ensures |RunsOf(at, row)| >= MIN_RUNS * |row|
  {
    if row != [] {
      ManyRuns(at, row[1..]);
      OneMoreTime(MIN_RUNS, |row[1..]|);
    }
  }

  /** A row of several branches has at least eight times as many children. */
  lemma RowBelow(t: Tree, root: Node, h: nat)
    requires Whole(t, root, null) && 0 < h < |t.rows| && |t.rows[h]| >= 2
    ensures |t.rows[h - 1]| >= MIN_BRANCHES * |t.rows[h]|
  {
    assert Row(t.at, h, t.rows[h]) && KidRow(t, h - 1);
    forall n | n in t.rows[h]
      ensures n in t.at && |t.at[n].kids| >= MIN_BRANCHES
    {
      assert Filled(t, null, n);
    }
    ManyKids(t.at, t.rows[h]);
  }

  lemma {:induction false} RowsBelow(t: Tree, root: Node, h: nat, k: nat)
    requires Whole(t, root, null) && k <= h < |t.rows| && |t.rows[h]| >= 2
    ensures |t.rows[h - k]| >= 2 * Pow(MIN_BRANCHES, k)
  {
    hide *;
    PowStep(k);
    if k > 0 {
      RowsBelow(t, root, h, k - 1);
      RowBelow(t, root, h - k + 1);
      Doubled(|t.rows[h - k]|, |t.rows[h - k + 1]|, Pow(MIN_BRANCHES, k - 1));
    }
  }

  lemma PowStep(k: nat)
    ensures Pow(MIN_BRANCHES, k) == if k == 0 then 1 else MIN_BRANCHES * Pow(MIN_BRANCHES, k - 1)
    ensures k > 0 ==> Pow(MIN_BRANCHES, k - 1) >= 1
  {
  }

  lemma Doubled(a: nat, b: nat, p: nat)
    requires b >= 2 * p && a >= MIN_BRANCHES * b
    ensures a >= 2 * (MIN_BRANCHES * p)
  {
  }

  /** One or two rows below the root there are two nodes in a row. */
  lemma SecondRow(t: Tree, root: Node)
    requires Whole(t, root, null) && Top(t) >= 2
    ensures |t.rows[Top(t) - 1]| >= 2 || |t.rows[Top(t) - 2]| >= 2
  {
    var top := Top(t);
    if |t.rows[top - 1]| < 2 {
      assert Row(t.at, top - 1, t.rows[top - 1]) && KidRow(t, top - 2);
      var n := t.rows[top - 1][0];
      assert n in t.rows[top - 1] && Filled(t, null, n);
      assert t.rows[top - 1] == [n];
      FlatOne(t.at, n);
    }
  }

  lemma LeavesHold(t: Tree, root: Node)
    requires Whole(t, root, null) && |t.rows[0]| >= 2
    ensures |AllRuns(t)| >= MIN_RUNS * |t.rows[0]|
  {
    assert Row(t.at, 0, t.rows[0]);
    forall n | n in t.rows[0]
      ensures n in t.at && |t.at[n].runs| >= MIN_RUNS
    {
      assert Filled(t, null, n);
    }
    ManyRuns(t.at, t.rows[0]);
  }

  lemma PowMonotone(b: nat, e: nat)
    requires b >= 1
    ensures Pow(b, e) <= Pow(b, e + 1)
  {
    assert Pow(b, e + 1) == b * Pow(b, e);
    assert (b - 1) * Pow(b, e) >= 0;
  }

  lemma DepthSum(leaves: nat, runs: nat, d: nat)
    requires d >= 2 && leaves >= 2 * Pow(MIN_BRANCHES, d - 2) && runs >= MIN_RUNS * leaves
    ensures runs >= 2 * Pow(MIN_RUNS, d - 1)
  {
  }

  /** A tree of depth `d` holds at least twice eight to the power `d - 1` runs. */
  lemma DepthBound(t: Tree, root: Node)
    requires Whole(t, root, null) && Top(t) >= 2
    ensures |AllRuns(t)| >= 2 * Pow(MIN_RUNS, Top(t) - 1)
  {
    hide Whole, AllRuns;
    var top := Top(t);
    SecondRow(t, root);
    if |t.rows[top - 1]| >= 2 {
      RowsBelow(t, root, top - 1, top - 1);
      PowMonotone(MIN_BRANCHES, top - 2);
    } else {
      RowsBelow(t, root, top - 2, top - 2);
    }
    PowPositive(MIN_BRANCHES, top - 2);
    LeavesHold(t, root);
    DepthSum(|t.rows[0]|, |AllRuns(t)|, top);
  }

  lemma PowPositive(b: nat, e: nat)
    requires b >= 1
    ensures 2 * Pow(b, e) >= 2
  {
  }
}
