/** Splitting a nearly full node: its nearly full ancestors are split first, so there is always room. */
module RegionCascade {
  import opened Runs
  import opened RegionTree
  import opened RegionSplit
  import opened RegionSteps

  /** Everything that holds between operations, except that `low` may have just lost an entry. */
  ghost predicate Whole(t: Tree, root: Node, low: Node?) {
    Shape(t, -1) && Root(t) == root && Sums(t.at, map[]) && Fill(t, low)
  }

  /** A node that does not have two free slots left. */
  ghost predicate NearlyFull(r: Rec) {
    |r.kids| + |r.runs| >= MAX_RUNS - 2
  }

  /** The node and all its ancestors are nearly full, so that splitting it splits the root. */
  ghost predicate Cascades(t: Tree, n: Node)
    decreases if n in t.at then |t.rows| - t.at[n].height else 0
  {
    && n in t.at && NearlyFull(t.at[n])
    && var p := t.at[n].parent;
    && (p == null || (p in t.at && t.at[n].height < t.at[p].height <= |t.rows| && Cascades(t, p)))
  }

  /** No node is lost, the rows below `h` are as they were, and so are the nodes there but for some parents. */
  ghost predicate KeptBelow(t: Tree, u: Tree, h: nat) {
    && h <= |t.rows| <= |u.rows|
    && (forall i :: 0 <= i < h ==> u.rows[i] == t.rows[i])
    && (forall n {:trigger KeptAt(t, u, h, n)} :: n in t.at ==> KeptAt(t, u, h, n))
  }

  ghost predicate KeptAt(t: Tree, u: Tree, h: nat, n: Node)
    requires n in t.at
  {
    && n in u.at
    && (t.at[n].height < h ==> u.at[n] == t.at[n].(parent := u.at[n].parent))
    && (t.at[n].height + 1 < h ==> u.at[n] == t.at[n])
  }

  /** The children of `node` now have parents that are at most half full. */
  ghost predicate Roomy(t: Tree, u: Tree, node: Node) {
    forall c {:trigger RoomFor(u, c)} :: c in t.at && t.at[c].parent == node ==> RoomFor(u, c)
  }

  ghost predicate RoomFor(u: Tree, c: Node) {
    c in u.at && u.at[c].parent in u.at && |u.at[u.at[c].parent].kids| <= MAX_BRANCHES / 2
  }

  /** What splitting `node`, with all the splits above it, must give. */
  ghost predicate NodeSplitDone(t: Tree, u: Tree, node: Node)
    requires node in t.at
  {
    && KeptBelow(t, u, t.at[node].height) && Roomy(t, u, node)
    && |t.rows| > 0 && |u.rows| > 0 && AllRuns(u) == AllRuns(t)
  }

  /** The parent has been seen to; the node itself is still as it was. */
  ghost predicate ParentReady(t: Tree, u: Tree, node: Node)
    requires node in t.at
  {
    && KeptBelow(t, u, t.at[node].height + 1) && node in u.at
    && |t.rows| > 0 && |u.rows| > 0 && AllRuns(u) == AllRuns(t)
    && (u.at[node].parent != null ==>
          u.at[node].parent in u.at && |u.at[u.at[node].parent].kids| < MAX_BRANCHES - 2)
    && (u.at[node].parent == null <==> t.at[node].parent == null)
  }

  lemma ReadyAtOnce(t: Tree, node: Node, root: Node, low: Node?)
    requires Whole(t, root, low) && node in t.at
    requires t.at[node].parent != null ==> t.at[node].parent in t.at && !NearlyFull(t.at[t.at[node].parent])
    ensures ParentReady(t, t, node)
  {
    assert Placed(t, node);
  }

  lemma ReadyAfter(t: Tree, u: Tree, node: Node, p: Node, root: Node, low: Node?)
    requires Whole(t, root, low) && node in t.at && t.at[node].parent == p && p in t.at
    requires NodeSplitDone(t, u, p)
    ensures ParentReady(t, u, node)
  {
    var s := ParentSpot(t, node, root, low);
    assert RoomFor(u, node);
  }

  lemma ParentSpot(t: Tree, node: Node, root: Node, low: Node?) returns (s: Spot)
    requires Whole(t, root, low) && node in t.at && t.at[node].parent != null
    ensures At(t, node, s)
  {
    RootFacts(t, -1);
    s := FindSpot(t, -1, node);
  }

  lemma ParentInTree(t: Tree, node: Node, root: Node, low: Node?)
    requires Whole(t, root, low) && node in t.at
    ensures t.at[node].parent == null <==> node == root
    ensures node == root ==> !node.isLeaf
    ensures
      var p := t.at[node].parent;
      p != null ==>
        && p in t.at && !p.isLeaf && t.at[p].height == t.at[node].height + 1 < |t.rows|
        && (NearlyFull(t.at[p]) <==> |t.at[p].kids| >= MAX_BRANCHES - 2)
    ensures node.isLeaf <==> t.at[node].height == 0
    ensures NearlyFull(t.at[node]) <==> (if node.isLeaf then |t.at[node].runs| else |t.at[node].kids|) >= MAX_RUNS - 2
  {
    assert NodeOk(t.at, node);
    RootFacts(t, -1);
    if t.at[node].parent != null {
      var s := ParentSpot(t, node, root, low);
      assert NodeOk(t.at, t.at[node].parent);
    } else if node != root {
      var s := FindSpot(t, -1, node);
    }
  }

  // ---------------------------------------------------------------- one split

  lemma SplitKept(u: Tree, left: Node, s: Spot, right: Node, bt: Store)
    requires CanSplit(u, -1, left, s, right) && SplitDone(u.at, bt, left, right, s.k)
    ensures KeptBelow(u, SplitTree(u, bt, s, right), s.h)
  {
    SplitApart(u, -1, left, s);
    forall n | n in u.at
      ensures KeptAt(u, SplitTree(u, bt, s, right), s.h, n)
    {
      SplitKeeps(u.at, bt, left, right, s.k, n);
      MovedAreKids(u.at[left]);
    }
  }

  lemma KeptTrans(t: Tree, u: Tree, v: Tree, h: nat)
    requires KeptBelow(t, u, h + 1) && KeptBelow(u, v, h)
    ensures KeptBelow(t, v, h)
  {
    forall n | n in t.at
      ensures KeptAt(t, v, h, n)
    {
      assert KeptAt(t, u, h + 1, n) && KeptAt(u, v, h, n);
    }
  }

  /** The children of the split node, all the same in the tree before and between. */
  lemma SameChild(t: Tree, u: Tree, node: Node, c: Node, root: Node, low: Node?)
    requires Whole(t, root, low) && node in t.at && KeptBelow(t, u, t.at[node].height + 1)
    requires c in t.at && t.at[c].parent == node
    ensures c in u.at && u.at[c] == t.at[c] && u.at[c].parent == node
  {
    var s := ParentSpot(t, c, root, low);
    assert KeptAt(t, u, t.at[node].height + 1, c);
  }

  lemma KidOfParent(u: Tree, c: Node, root: Node, low: Node?)
    requires Whole(u, root, low) && c in u.at && u.at[c].parent != null
    ensures u.at[c].parent in u.at && c in KidNodes(u.at[u.at[c].parent].kids)
  {
    var s := ParentSpot(u, c, root, low);
    assert KidNodes(u.at[u.at[c].parent].kids)[s.k] == c;
  }

  lemma SplitRoom(u: Tree, left: Node, s: Spot, right: Node, bt: Store, c: Node, root: Node, low: Node?)
    requires Whole(u, root, low)
    requires CanSplit(u, -1, left, s, right) && SplitDone(u.at, bt, left, right, s.k)
    requires c in u.at && u.at[c].parent == left
    ensures RoomFor(SplitTree(u, bt, s, right), c)
  {
    SplitApart(u, -1, left, s);
    KidOfParent(u, c, root, low);
    assert NodeOk(u.at, left);
    SplitKeeps(u.at, bt, left, right, s.k, c);
  }

  lemma SplitWhole(u: Tree, left: Node, s: Spot, right: Node, bt: Store, root: Node, low: Node?)
    requires Whole(u, root, low) && left in u.at && NearlyFull(u.at[left])
    requires CanSplit(u, -1, left, s, right) && SplitDone(u.at, bt, left, right, s.k)
    ensures
      var v := SplitTree(u, bt, s, right);
      Whole(v, root, low) && |v.rows| == |u.rows| && AllRuns(v) == AllRuns(u)
  {
    SplitShape(u, -1, left, s, right, bt);
    SplitSums(u, -1, left, s, right, bt);
    SplitFill(u, -1, left, s, right, bt, low);
    SplitRuns(u, -1, left, s, right, bt);
  }

  lemma SplitRoomy(t: Tree, u: Tree, left: Node, s: Spot, right: Node, bt: Store, root: Node, low: Node?)
    requires Whole(t, root, low) && Whole(u, root, low) && left in t.at && KeptBelow(t, u, t.at[left].height + 1)
    requires CanSplit(u, -1, left, s, right) && SplitDone(u.at, bt, left, right, s.k)
    ensures Roomy(t, SplitTree(u, bt, s, right), left)
  {
    forall c | c in t.at && t.at[c].parent == left
      ensures RoomFor(SplitTree(u, bt, s, right), c)
    {
      SameChild(t, u, left, c, root, low);
      SplitRoom(u, left, s, right, bt, c, root, low);
    }
  }

  /** A split of a node whose parent has been seen to. */
  lemma SplitStep(t: Tree, u: Tree, left: Node, s: Spot, right: Node, bt: Store, root: Node, low: Node?)
    requires Whole(t, root, low) && Whole(u, root, low) && left in t.at && ParentReady(t, u, left)
    requires NearlyFull(t.at[left])
    requires CanSplit(u, -1, left, s, right) && SplitDone(u.at, bt, left, right, s.k)
    ensures
      var v := SplitTree(u, bt, s, right);
      Whole(v, root, low) && NodeSplitDone(t, v, left) && |v.rows| == |u.rows|
  {
    assert KeptAt(t, u, t.at[left].height + 1, left);
    SplitWhole(u, left, s, right, bt, root, low);
    SplitRoomy(t, u, left, s, right, bt, root, low);
    SplitKept(u, left, s, right, bt);
    KeptTrans(t, u, SplitTree(u, bt, s, right), s.h);
  }

  lemma RaiseKept(u: Tree, root: Node, left: Node, right: Node, bt: Store)
    requires CanRaise(u, root, left, right) && RootSplitDone(u.at, bt, root, left, right)
    ensures KeptBelow(u, Raised(u, bt, root, left, right), Top(u))
  {
    var v := Raised(u, bt, root, left, right);
    RootFacts(u, -1);
    RaisedRows(u, root, left, right, bt);
    RaiseNodes(u, root, left, right, bt);
    forall n | n in u.at
      ensures KeptAt(u, v, Top(u), n)
    {
      if n != root {
        RaiseKeeps(u.at, bt, root, left, right, n);
      }
    }
  }

  lemma RaiseRoom(u: Tree, root: Node, left: Node, right: Node, bt: Store, c: Node, low: Node?)
    requires Whole(u, root, low)
    requires CanRaise(u, root, left, right) && RootSplitDone(u.at, bt, root, left, right)
    requires c in u.at && u.at[c].parent == root
    ensures RoomFor(Raised(u, bt, root, left, right), c)
  {
    KidOfParent(u, c, root, low);
    assert NodeOk(u.at, root);
    HalvesOfKids(u.at[root]);
  }

  lemma RaiseWhole(u: Tree, root: Node, left: Node, right: Node, bt: Store, low: Node?)
    requires Whole(u, root, low) && root in u.at && NearlyFull(u.at[root])
    requires CanRaise(u, root, left, right) && RootSplitDone(u.at, bt, root, left, right)
    ensures
      var v := Raised(u, bt, root, left, right);
      Whole(v, root, low) && |v.rows| == |u.rows| + 1 && AllRuns(v) == AllRuns(u)
  {
    RootFacts(u, -1);
    assert NodeOk(u.at, root);
    RaiseShape(u, root, left, right, bt);
    RaisedRows(u, root, left, right, bt);
    RaiseSums(u, root, left, right, bt);
    RaiseFill(u, root, left, right, bt, low);
  }

  /** Splitting the root itself. */
  lemma RaiseStep(t: Tree, root: Node, left: Node, right: Node, bt: Store, low: Node?)
    requires Whole(t, root, low) && root in t.at && NearlyFull(t.at[root])
    requires CanRaise(t, root, left, right) && RootSplitDone(t.at, bt, root, left, right)
    ensures
      var v := Raised(t, bt, root, left, right);
      Whole(v, root, low) && NodeSplitDone(t, v, root) && |v.rows| == |t.rows| + 1
  {
    var v := Raised(t, bt, root, left, right);
    RootFacts(t, -1);
    RaiseWhole(t, root, left, right, bt, low);
    RaiseKept(t, root, left, right, bt);
    forall c | c in t.at && t.at[c].parent == root
      ensures RoomFor(v, c)
    {
      RaiseRoom(t, root, left, right, bt, c, low);
    }
  }

  // ---------------------------------------------------------------- a leaf in two

  /** Leaf `j` of the leaf row is cut in two; the other leaves keep their runs. */
  ghost predicate LeafHalved(t: Tree, u: Tree, leaf: Node, right: Node, j: nat) {
    && |t.rows| > 0 && |u.rows| > 0 && j < |t.rows[0]| && t.rows[0][j] == leaf && leaf in t.at && leaf in u.at
    && right !in t.at && right in u.at
    && u.rows[0] == Widened(t.rows[0], j, right)
    && u.at[leaf].runs == t.at[leaf].runs[..LeftCount(|t.at[leaf].runs|)]
    && u.at[right].runs == t.at[leaf].runs[LeftCount(|t.at[leaf].runs|)..]
    && (forall n :: n in t.rows[0] && n != leaf ==> n in t.at && n in u.at && u.at[n].runs == t.at[n].runs)
  }

  lemma LeafStep(t: Tree, u: Tree, leaf: Node, s: Spot, right: Node, bt: Store)
    requires Shape(t, -1) && leaf in t.at && t.at[leaf].height == 0 && KeptBelow(t, u, 1)
    requires CanSplit(u, -1, leaf, s, right) && SplitDone(u.at, bt, leaf, right, s.k)
    ensures LeafHalved(t, SplitTree(u, bt, s, right), leaf, right, s.j)
  {
    assert KeptAt(t, u, 1, leaf);
    assert Row(t.at, 0, t.rows[0]);
    SplitApart(u, -1, leaf, s);
    forall n | n in t.rows[0] && n != leaf
      ensures n in t.at && n in bt && bt[n].runs == t.at[n].runs
    {
      assert KeptAt(t, u, 1, n);
      SplitKeeps(u.at, bt, leaf, right, s.k, n);
    }
    assert right in t.at ==> KeptAt(t, u, 1, right);
  }

  lemma SplitText(t: Tree, u: Tree, node: Node)
    requires node in t.at && NodeSplitDone(t, u, node)
    ensures |t.rows| > 0 && |u.rows| > 0 && AllRuns(u) == AllRuns(t)
  {
  }

  lemma CascadesUp(t: Tree, node: Node, root: Node, low: Node?)
    requires Whole(t, root, low) && node in t.at && NearlyFull(t.at[node])
    ensures Cascades(t, node) <==> t.at[node].parent == null || Cascades(t, t.at[node].parent)
    ensures t.at[node].parent in t.at && Cascades(t, t.at[node].parent) ==> NearlyFull(t.at[t.at[node].parent])
  {
    ParentInTree(t, node, root, low);
  }

  lemma ReadyNode(t: Tree, u: Tree, node: Node)
    requires node in t.at && ParentReady(t, u, node)
    ensures node in u.at && (u.at[node].parent == null <==> t.at[node].parent == null)
    ensures KeptBelow(t, u, 1)
    ensures NearlyFull(t.at[node]) ==> NearlyFull(u.at[node])
  {
    assert KeptAt(t, u, t.at[node].height + 1, node);
    forall n | n in t.at
      ensures KeptAt(t, u, 1, n)
    {
      assert KeptAt(t, u, t.at[node].height + 1, n);
    }
  }

  lemma ReadySpot(t: Tree, u: Tree, node: Node, s: Spot, root: Node, low: Node?)
    requires node in t.at && ParentReady(t, u, node) && Whole(u, root, low) && At(u, node, s)
    ensures HasRoom(u, -1, node, s) && Sums(u.at, map[])
    ensures |u.at[u.at[node].parent].kids| < MAX_BRANCHES - 2
    ensures s.h == 0 <==> node.isLeaf
    ensures Shape(u, -1)
  {
    assert NodeOk(u.at, node);
  }

  lemma WholeMeans(t: Tree, root: Node, low: Node?)
    requires Whole(t, root, low)
    ensures Shape(t, -1) && root == Root(t) && Sums(t.at, map[]) && Fill(t, low) && root in t.at
    ensures |t.rows| >= 2
  {
    RootFacts(t, -1);
  }
}
