/** A condition under which no compaction makes the program stop. */
module RegionHeadroom {
  import opened Runs
  import opened RegionTree
  import opened RegionSplit
  import opened RegionSteps
  import opened RegionLengths
  import opened RegionCascade
  import opened RegionEdit
  import opened RegionTakeOut
  import opened RegionClash

  ghost predicate HeadroomAt(t: Tree, n: Node)
    requires n in t.at
  {
    2 <= t.at[n].height < |t.rows| && |t.rows[t.at[n].height]| > 1 ==> |t.at[n].kids| < MAX_BRANCHES
  }

  /** No branch two rows above the leaves, or higher, is full, unless it has no sibling. */
  ghost predicate Headroom(t: Tree) {
    forall n {:trigger HeadroomAt(t, n)} :: n in t.at ==> HeadroomAt(t, n)
  }

  /** A tree of at most three rows always has headroom: its third row is the root. */
  lemma LowHeadroom(t: Tree, root: Node, low: Node?)
    requires Whole(t, root, low) && |t.rows| <= 3
    ensures Headroom(t)
  {
    forall n | n in t.at
      ensures HeadroomAt(t, n)
    {
      assert Placed(t, n);
    }
  }

  lemma SplitHeadroom(u: Tree, left: Node, s: Spot, right: Node, bt: Store, root: Node, low: Node?)
    requires Whole(u, root, low) && CanSplit(u, -1, left, s, right) && SplitDone(u.at, bt, left, right, s.k)
    requires |u.at[u.at[left].parent].kids| < MAX_BRANCHES - 2
    ensures Headroom(u) ==> Headroom(SplitTree(u, bt, s, right))
  {
    if Headroom(u) {
      SplitApart(u, -1, left, s);
      assert NodeOk(u.at, left);
      forall n | n in bt
        ensures HeadroomAt(SplitTree(u, bt, s, right), n)
      {
        if n in u.at && n != left {
          assert HeadroomAt(u, n) && Placed(u, n);
          SplitKeeps(u.at, bt, left, right, s.k, n);
        }
      }
    }
  }

  lemma HeadroomFew(t: Tree, n: Node)
    requires n in t.at && |t.at[n].kids| < MAX_BRANCHES
    ensures HeadroomAt(t, n)
  {
  }

  lemma HeadroomSame(t: Tree, u: Tree, n: Node)
    requires n in t.at && n in u.at && t.at[n].height == u.at[n].height && |t.at[n].kids| == |u.at[n].kids|
      && HeadroomAt(t, n)
    requires t.at[n].height < |t.rows| && t.at[n].height < |u.rows| && t.rows[t.at[n].height] == u.rows[t.at[n].height]
    ensures HeadroomAt(u, n)
  {
  }

  /** The nodes that the root split makes are not full. */
  lemma RaisedFew(u: Tree, root: Node, left: Node, right: Node, bt: Store)
    requires CanRaise(u, root, left, right) && RootSplitDone(u.at, bt, root, left, right) && NodeOk(u.at, root)
    ensures |u.rows| > 0 && Raised(u, bt, root, left, right).at == bt
    ensures forall n :: n in bt ==> n == root || n == left || n == right || n in u.at
    ensures forall n :: n in bt && (n == root || n == left || n == right) ==> |bt[n].kids| < MAX_BRANCHES
  {
    hide Shape;
  }

  lemma RaiseHeadroom(u: Tree, root: Node, left: Node, right: Node, bt: Store, low: Node?)
    requires Whole(u, root, low) && CanRaise(u, root, left, right) && RootSplitDone(u.at, bt, root, left, right)
    ensures Headroom(u) ==> Headroom(Raised(u, bt, root, left, right))
  {
    var t := Raised(u, bt, root, left, right);
    RaisedRows(u, root, left, right, bt);
    RaiseNodes(u, root, left, right, bt);
    assert NodeOk(u.at, root);
    RaisedFew(u, root, left, right, bt);
    RootFacts(u, -1);
    hide Whole, Shape, RootSplitDone, NodeOk, KidsBelow, HeadroomAt, Raised, CanRaise;
    if Headroom(u) {
      forall n | n in bt
        ensures HeadroomAt(t, n)
      {
        if n == root || n == left || n == right {
          HeadroomFew(t, n);
        } else {
          assert Placed(u, n) && HeadroomAt(u, n);
          RaiseKeeps(u.at, bt, root, left, right, n);
          HeadroomSame(u, t, n);
        }
      }
    }
  }

  lemma LengthsHeadroom(t: Tree, u: Tree, h: nat)
    requires LengthsOnly(t.at, u.at, h) && u.rows == t.rows
    ensures Headroom(t) ==> Headroom(u)
  {
    if Headroom(t) {
      forall n | n in u.at
        ensures HeadroomAt(u, n)
      {
        assert LengthsOnlyAt(t.at[n], u.at[n], h) && HeadroomAt(t, n);
        assert |KidNodes(t.at[n].kids)| == |KidNodes(u.at[n].kids)|;
      }
    }
  }

  lemma WithRunsHeadroom(t: Tree, leaf: Node, out: seq<Run>)
    requires leaf in t.at
    ensures Headroom(t) ==> Headroom(WithRuns(t, leaf, out))
  {
    if Headroom(t) {
      forall n | n in t.at
        ensures HeadroomAt(WithRuns(t, leaf, out), n)
      {
        assert HeadroomAt(t, n);
      }
    }
  }

  lemma TakenHeadroom(t: Tree, u: Tree, root: Node, node: Node, s: Spot)
    requires TakenOut(t, u, root, node, s) && s.h == 0
    ensures Headroom(t) ==> Headroom(u)
  {
    if Headroom(t) {
      forall n | n in u.at
        ensures HeadroomAt(u, n)
      {
        assert StaysAt(t, u, node, s.h, n) && HeadroomAt(t, n);
      }
    }
  }

  /** The parents of two different branches of one row are not both alone in theirs. */
  lemma NotAlone(t: Tree, root: Node, low: Node?, p: Node, q: Node, h: nat)
    requires Whole(t, root, low) && p in t.at && q in t.at && p != q && t.at[p].height == h == t.at[q].height
    ensures h < |t.rows| && |t.rows[h]| > 1
  {
    assert Placed(t, p) && Placed(t, q);
  }

  lemma {:induction false} HeadroomClash(t: Tree, root: Node, low: Node?, n: Node, plus: map<Node, int>, d: nat)
    requires Whole(t, root, low) && Headroom(t) && LinksUp(t.at) && n in t.at && t.at[n].height > 0
    ensures !Clashes(t.at, n, plus, d)
    decreases d
  {
    assert LinksUpAt(t.at, n);
    if d > 0 && t.at[n].parent != null {
      var x := Neighbour(t.at, n, plus);
      if x != null && x in t.at && t.at[x].parent in t.at && t.at[x].parent != null {
        assert LinksUpAt(t.at, x);
        var p: Node, q: Node := t.at[n].parent, t.at[x].parent;
        assert HeadroomAt(t, q);
        if p != q {
          NotAlone(t, root, low, p, q, t.at[n].height + 1);
        }
        HeadroomClash(t, root, low, p, Deltas(p, q, Size(t.at, plus, x) + Size(t.at, plus, n) >= MAX_BRANCHES), d - 1);
      }
    }
  }

  /** With headroom no compaction makes the program stop. */
  lemma HeadroomEnough(t: Tree, root: Node, node: Node)
    requires Whole(t, root, node) && node in t.at && !node.isLeaf
    ensures Headroom(t) ==> !ClashesFrom(t, node)
  {
    WholeLinks(t, root, node);
    assert NodeOk(t.at, node);
    if Headroom(t) && |t.rows| > 0 && t.at[node].height <= Top(t) {
      HeadroomClash(t, root, node, node, map[], Top(t) - t.at[node].height);
    }
  }
}
