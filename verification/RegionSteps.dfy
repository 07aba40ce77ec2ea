/**
 * The other changes of shape: splitting the root, taking a node out, handing a child over to a
 * neighbour, and dropping a lone branch below the root.
 */
module RegionSteps {
  import opened Runs
  import opened RegionTree
  import opened RegionSplit

  // ---------------------------------------------------------------- root split

  function LowKids(r: Rec): seq<Child> {
    r.kids[..LeftCount(|r.kids|)]
  }

  function HighKids(r: Rec): seq<Child> {
    r.kids[LeftCount(|r.kids|)..]
  }

  /** The root keeps its place: its children move to two new branches that become its only children. */
  ghost predicate RootSplitDone(at: Store, bt: Store, root: Node, left: Node, right: Node) {
    && root in at && root in bt && left in bt && right in bt && bt.Keys == at.Keys + {left, right}
    && var r := at[root];
    && bt[left] == Rec(root, null, right, LowKids(r), [], r.height)
    && bt[right] == Rec(root, left, null, HighKids(r), [], r.height)
    && bt[root] == r.(kids := [Child(left, KidsTotal(LowKids(r))), Child(right, KidsTotal(HighKids(r)))],
                      height := r.height + 1)
    && (forall n :: n in at && n in KidNodes(LowKids(r)) ==> bt[n] == at[n].(parent := left))
    && (forall n :: n in at && n in KidNodes(HighKids(r)) ==> bt[n] == at[n].(parent := right))
    && (forall n :: n in at && n != root && n !in KidNodes(LowKids(r)) && n !in KidNodes(HighKids(r)) ==>
          bt[n] == at[n])
  }

  /** The upper half of the children, rounded down, goes to the right one of the new branches. */
  lemma RaiseHalves(at: Store, bt: Store, root: Node, left: Node, right: Node)
    requires RootSplitDone(at, bt, root, left, right)
    ensures root in at && root in bt && left in bt && right in bt
    ensures
      var kids := at[root].kids;
      var k := |kids| / 2;
      bt[left].kids == kids[..|kids| - k] && bt[right].kids == kids[|kids| - k..]
  {
  }

  ghost function Raised(t: Tree, bt: Store, root: Node, left: Node, right: Node): Tree
    requires |t.rows| > 0
  {
    Tree(bt, t.rows[Top(t) := [left, right]] + [[root]])
  }

  ghost predicate CanRaise(t: Tree, root: Node, left: Node, right: Node) {
    && Shape(t, -1) && root == Root(t)
    && left !in t.at && right !in t.at && left != right && !left.isLeaf && !right.isLeaf
  }

  /** The children of the root are one row down and have it as their parent. */
  ghost predicate KidsBelow(at: Store, n: Node) {
    n in at && forall c :: c in KidNodes(at[n].kids) ==>
      c in at && at[c].height + 1 == at[n].height && at[c].parent == n
  }

  lemma LinkedBelow(at: Store, n: Node)
    requires n in at && KidsLinked(at, n)
    ensures KidsBelow(at, n)
  {
    forall c | c in KidNodes(at[n].kids)
      ensures c in at && at[c].height + 1 == at[n].height && at[c].parent == n
    {
      var k := IndexIn(KidNodes(at[n].kids), c);
      assert KidAt(at, n, k);
    }
  }

  lemma HalvesOfKids(r: Rec)
    ensures KidNodes(r.kids) == KidNodes(LowKids(r)) + KidNodes(HighKids(r))
    ensures KidsTotal(r.kids) == KidsTotal(LowKids(r)) + KidsTotal(HighKids(r))
    ensures forall c :: c in KidNodes(LowKids(r)) || c in KidNodes(HighKids(r)) ==> c in KidNodes(r.kids)
    ensures NoDup(KidNodes(r.kids)) ==>
      NoDup(KidNodes(LowKids(r))) && NoDup(KidNodes(HighKids(r)))
      && forall c :: c in KidNodes(LowKids(r)) ==> c !in KidNodes(HighKids(r))
  {
    CutAndGlue(r.kids, LeftCount(|r.kids|));
    KidNodesConcat(LowKids(r), HighKids(r));
    KidsTotalConcat(LowKids(r), HighKids(r));
    NoDupHalves(KidNodes(r.kids), KidNodes(LowKids(r)), KidNodes(HighKids(r)));
  }

  lemma NoDupHalves(s: seq<Node>, a: seq<Node>, b: seq<Node>)
    requires s == a + b
    ensures forall c :: c in a || c in b ==> c in s
    ensures NoDup(s) ==> NoDup(a) && NoDup(b) && forall c :: c in a ==> c !in b
  {
    assert forall i :: 0 <= i < |a| ==> s[i] == a[i];
    assert forall i :: 0 <= i < |b| ==> s[|a| + i] == b[i];
    if NoDup(s) {
      forall c | c in a
        ensures c !in b
      {
        var i := IndexIn(a, c);
        forall j | 0 <= j < |b|
          ensures b[j] != c
        {
          assert s[|a| + j] == b[j] && s[i] == c;
        }
      }
    }
  }

  /** What the root split keeps of every node but the root. */
  lemma RaiseKeeps(at: Store, bt: Store, root: Node, left: Node, right: Node, n: Node)
    requires RootSplitDone(at, bt, root, left, right) && KidsBelow(at, root)
    requires n in at && n != root
    ensures n in bt && bt[n] == at[n].(parent := bt[n].parent)
    ensures n !in KidNodes(at[root].kids) ==> bt[n] == at[n]
  {
    HalvesOfKids(at[root]);
  }

  lemma RaiseLowRow(at: Store, bt: Store, root: Node, left: Node, right: Node, h: nat, row: seq<Node>)
    requires RootSplitDone(at, bt, root, left, right) && KidsBelow(at, root)
    requires Row(at, h, row) && h != at[root].height
    ensures Row(bt, h, row)
    ensures FlatKids(bt, row) == FlatKids(at, row)
    ensures RunsOf(bt, row) == RunsOf(at, row)
  {
    forall n | n in row
      ensures n in bt && bt[n].prev == at[n].prev && bt[n].next == at[n].next && bt[n].height == at[n].height
      ensures KidsOf(at, n) == KidsOf(bt, n) && bt[n].runs == at[n].runs
    {
      RaiseKeeps(at, bt, root, left, right, n);
    }
    RowFrame(at, bt, h, row);
    FlatFrame(at, bt, row);
    RunsFrame(at, bt, row);
  }

  lemma RaiseTopRows(at: Store, bt: Store, root: Node, left: Node, right: Node)
    requires RootSplitDone(at, bt, root, left, right) && left != right && left !in at && right !in at
    requires Row(at, at[root].height, [root])
    ensures Row(bt, at[root].height, [left, right])
    ensures Row(bt, at[root].height + 1, [root])
  {
    assert [root][0] in [root] && ChainAt(at, [root], 0);
    assert ChainAt(bt, [left, right], 0) && ChainAt(bt, [left, right], 1);
    assert ChainAt(bt, [root], 0);
  }

  lemma RaiseTopKids(at: Store, bt: Store, root: Node, left: Node, right: Node)
    requires RootSplitDone(at, bt, root, left, right)
    ensures FlatKids(bt, [root]) == [left, right]
    ensures FlatKids(bt, [left, right]) == FlatKids(at, [root])
  {
    FlatOne(at, root);
    FlatOne(bt, root);
    FlatConcat(bt, [left], [right]);
    FlatOne(bt, left);
    FlatOne(bt, right);
    assert [left] + [right] == [left, right];
    HalvesOfKids(at[root]);
  }

  /** The moved half `cs` of the root's children, now children of `half`. */
  lemma RaiseLinksHalf(at: Store, bt: Store, root: Node, half: Node, cs: seq<Child>)
    requires KidsBelow(at, root) && half in bt && bt[half].kids == cs && NoDup(KidNodes(cs))
    requires bt[half].height == at[root].height
    requires forall c :: c in KidNodes(cs) ==> c in KidNodes(at[root].kids)
    requires forall c :: c in at && c in KidNodes(cs) ==> c in bt && bt[c] == at[c].(parent := half)
    ensures KidsLinked(bt, half)
  {
    forall i | 0 <= i < |bt[half].kids|
      ensures KidAt(bt, half, i)
    {
      var c := KidNodes(cs)[i];
      assert c in KidNodes(cs);
    }
  }

  lemma RaiseLinksNew(at: Store, bt: Store, root: Node, left: Node, right: Node)
    requires RootSplitDone(at, bt, root, left, right) && KidsBelow(at, root) && KidsLinked(at, root)
    requires left !in at && right !in at && left != right
    ensures KidsLinked(bt, left) && KidsLinked(bt, right) && KidsLinked(bt, root)
  {
    HalvesOfKids(at[root]);
    RaiseLinksRoot(bt, root, left, right);
    RaiseLinksHalf(at, bt, root, left, LowKids(at[root]));
    RaiseLinksHalf(at, bt, root, right, HighKids(at[root]));
  }

  lemma RaiseLinksRoot(bt: Store, root: Node, left: Node, right: Node)
    requires root in bt && left in bt && right in bt && left != right
    requires |bt[root].kids| == 2 && bt[root].kids[0].node == left && bt[root].kids[1].node == right
    requires bt[left].parent == root && bt[right].parent == root
    requires bt[left].height + 1 == bt[root].height && bt[right].height + 1 == bt[root].height
    ensures KidsLinked(bt, root)
  {
  }

  lemma RaiseLinksOther(at: Store, bt: Store, root: Node, left: Node, right: Node, n: Node)
    requires RootSplitDone(at, bt, root, left, right) && KidsBelow(at, root)
    requires n in at && n != root && KidsLinked(at, n)
    requires at[root].height >= at[n].height
    ensures KidsLinked(bt, n)
  {
    RaiseKeeps(at, bt, root, left, right, n);
    forall i | 0 <= i < |bt[n].kids|
      ensures KidAt(bt, n, i)
    {
      assert KidAt(at, n, i);
      RaiseKeeps(at, bt, root, left, right, at[n].kids[i].node);
    }
  }

  lemma RaiseContent(at: Store, bt: Store, root: Node, left: Node, right: Node, n: Node)
    requires RootSplitDone(at, bt, root, left, right) && KidsBelow(at, root) && Content(root, at[root])
    requires !root.isLeaf && !left.isLeaf && !right.isLeaf
    requires n in bt && (n in at ==> Content(n, at[n]))
    ensures Content(n, bt[n])
  {
    hide KidsBelow;
    if n in at && n != root {
      RaiseKeeps(at, bt, root, left, right, n);
    }
  }

  lemma RaiseNodes(t: Tree, root: Node, left: Node, right: Node, bt: Store)
    requires CanRaise(t, root, left, right) && RootSplitDone(t.at, bt, root, left, right)
    ensures KidsBelow(t.at, root)
    ensures forall n :: n in bt ==> NodeOk(bt, n)
  {
    RootFacts(t, -1);
    assert NodeOk(t.at, root) && Rooted(t);
    LinkedBelow(t.at, root);
    RaiseLinksNew(t.at, bt, root, left, right);
    assert forall n {:trigger NodeOk(t.at, n)} :: n in t.at ==> NodeOk(t.at, n) && t.at[n].height <= Top(t) by {
      assert forall n :: n in t.at ==> Placed(t, n);
    }
    RaisedKeys(t.at, bt, root, left, right);
    hide Shape, Rooted, RootSplitDone, KidsBelow, KidsLinked, Content;
    forall n | n in bt
      ensures NodeOk(bt, n)
    {
      if n in t.at {
        assert NodeOk(t.at, n);
      }
      RaiseContent(t.at, bt, root, left, right, n);
      if n in t.at && n != root {
        RaiseLinksOther(t.at, bt, root, left, right, n);
      }
    }
  }

  lemma RaisedKeys(at: Store, bt: Store, root: Node, left: Node, right: Node)
    requires RootSplitDone(at, bt, root, left, right)
    ensures forall n :: n in bt <==> n in at || n == left || n == right
  {
  }

  lemma RaisePlaced(t: Tree, root: Node, left: Node, right: Node, bt: Store, n: Node)
    requires CanRaise(t, root, left, right) && RootSplitDone(t.at, bt, root, left, right)
    requires KidsBelow(t.at, root) && n in bt
    ensures Placed(Raised(t, bt, root, left, right), n)
  {
    RootFacts(t, -1);
    RaisedRows(t, root, left, right, bt);
    RaisedKeys(t.at, bt, root, left, right);
    assert n in t.at ==> Placed(t, n);
    if n in t.at && n != root {
      RaiseKeeps(t.at, bt, root, left, right, n);
    }
    hide Shape, KidsBelow;
  }

  lemma RaisedRows(t: Tree, root: Node, left: Node, right: Node, bt: Store)
    requires |t.rows| > 0
    ensures
      var u := Raised(t, bt, root, left, right);
      && |u.rows| == |t.rows| + 1
      && (forall h :: 0 <= h < Top(t) ==> u.rows[h] == t.rows[h])
      && u.rows[Top(t)] == [left, right] && u.rows[Top(t) + 1] == [root]
  {
  }

  lemma RaiseRowAt(t: Tree, root: Node, left: Node, right: Node, bt: Store, h: nat)
    requires CanRaise(t, root, left, right) && RootSplitDone(t.at, bt, root, left, right)
    requires KidsBelow(t.at, root) && h < Top(t)
    ensures Row(bt, h, t.rows[h])
    ensures h + 1 < Top(t) ==> t.rows[h] == FlatKids(bt, t.rows[h + 1])
    ensures h + 1 == Top(t) ==> t.rows[h] == FlatKids(t.at, [root])
    ensures RunsOf(bt, t.rows[h]) == RunsOf(t.at, t.rows[h])
  {
    assert Row(t.at, h, t.rows[h]) && KidRow(t, h) && Row(t.at, Top(t), t.rows[Top(t)]);
    RaiseLowRow(t.at, bt, root, left, right, h, t.rows[h]);
    assert Row(t.at, h + 1, t.rows[h + 1]);
    if h + 1 < Top(t) {
      RaiseLowRow(t.at, bt, root, left, right, h + 1, t.rows[h + 1]);
    } else {
      assert t.rows[h + 1] == [root];
    }
  }

  lemma RaiseKidRowAt(t: Tree, root: Node, left: Node, right: Node, bt: Store, h: nat)
    requires CanRaise(t, root, left, right) && RootSplitDone(t.at, bt, root, left, right)
    requires KidsBelow(t.at, root) && h <= Top(t)
    ensures KidRow(Raised(t, bt, root, left, right), h)
  {
    hide KidNodes;
    RaisedRows(t, root, left, right, bt);
    RaiseTopKids(t.at, bt, root, left, right);
    if h < Top(t) {
      RaiseRowAt(t, root, left, right, bt, h);
    }
    hide Shape, KidsBelow, RootSplitDone, FlatKids;
  }

  lemma RaiseRows(t: Tree, root: Node, left: Node, right: Node, bt: Store)
    requires CanRaise(t, root, left, right) && RootSplitDone(t.at, bt, root, left, right)
    requires KidsBelow(t.at, root)
    ensures
      var u := Raised(t, bt, root, left, right);
      forall h :: 0 <= h < |u.rows| ==> Row(bt, h, u.rows[h])
  {
    var u := Raised(t, bt, root, left, right);
    RaisedRows(t, root, left, right, bt);
    assert Row(t.at, Top(t), t.rows[Top(t)]) && t.rows[Top(t)] == [root];
    assert t.rows[Top(t)][0] in t.rows[Top(t)];
    RaiseTopRows(t.at, bt, root, left, right);
    forall h | 0 <= h < |u.rows|
      ensures Row(bt, h, u.rows[h])
    {
      if h < Top(t) {
        RaiseRowAt(t, root, left, right, bt, h);
      }
    }
  }

  /** Splitting the root adds one row at the top and leaves every row below as it was. */
  lemma RaiseShape(t: Tree, root: Node, left: Node, right: Node, bt: Store)
    requires CanRaise(t, root, left, right) && RootSplitDone(t.at, bt, root, left, right)
    ensures Shape(Raised(t, bt, root, left, right), -1)
    ensures AllRuns(Raised(t, bt, root, left, right)) == AllRuns(t)
  {
    var u := Raised(t, bt, root, left, right);
    RaiseNodes(t, root, left, right, bt);
    RaisedRows(t, root, left, right, bt);
    RaiseRows(t, root, left, right, bt);
    RaiseRowAt(t, root, left, right, bt, 0);
    forall h | 0 <= h < |u.rows| - 1
      ensures KidRow(u, h)
    {
      RaiseKidRowAt(t, root, left, right, bt, h);
    }
    forall n | n in bt
      ensures Placed(u, n)
    {
      RaisePlaced(t, root, left, right, bt, n);
    }
  }

  /** An entry taken over from the old tree stays right. */
  lemma RaiseSumKept(at: Store, bt: Store, root: Node, left: Node, right: Node, o: Node, oi: nat, n: Node, i: nat)
    requires RootSplitDone(at, bt, root, left, right) && KidsBelow(at, root)
    requires o in at && oi < |at[o].kids| && SumAt(at, map[], o, oi) && KidAt(at, o, oi)
    requires at[o].height <= at[root].height
    requires n in bt && i < |bt[n].kids| && bt[n].kids[i] == at[o].kids[oi]
    ensures SumAt(bt, map[], n, i)
  {
    RaiseKeeps(at, bt, root, left, right, at[o].kids[oi].node);
  }

  lemma RaiseSumRoot(bt: Store, root: Node, left: Node, right: Node, low: seq<Child>, high: seq<Child>)
    requires root in bt && left in bt && right in bt
    requires bt[root].kids == [Child(left, KidsTotal(low)), Child(right, KidsTotal(high))]
    requires bt[left].kids == low && bt[left].runs == [] && bt[right].kids == high && bt[right].runs == []
    ensures SumAt(bt, map[], root, 0) && SumAt(bt, map[], root, 1)
  {
  }

  /** The entries of the two new branches. */
  lemma RaiseSumHalf(at: Store, bt: Store, root: Node, left: Node, right: Node, n: Node, i: nat, oi: nat)
    requires RootSplitDone(at, bt, root, left, right) && KidsBelow(at, root) && KidsLinked(at, root) && Sums(at, map[])
    requires n in bt && i < |bt[n].kids|
    requires (n == left && oi == i) || (n == right && oi == LeftCount(|at[root].kids|) + i)
    ensures SumAt(bt, map[], n, i)
  {
    assert SumAt(at, map[], root, oi) && KidAt(at, root, oi);
    RaiseSumKept(at, bt, root, left, right, root, oi, n, i);
  }

  lemma RaiseSumOther(at: Store, bt: Store, root: Node, left: Node, right: Node, n: Node, i: nat)
    requires RootSplitDone(at, bt, root, left, right) && KidsBelow(at, root) && Sums(at, map[])
    requires n in at && n != root && KidsLinked(at, n) && at[n].height <= at[root].height
    requires n in bt && i < |bt[n].kids|
    ensures SumAt(bt, map[], n, i)
  {
    RaiseKeeps(at, bt, root, left, right, n);
    assert SumAt(at, map[], n, i) && KidAt(at, n, i);
    RaiseSumKept(at, bt, root, left, right, n, i, n, i);
  }

  lemma RaiseSumAt(at: Store, bt: Store, root: Node, left: Node, right: Node, n: Node, i: nat)
    requires RootSplitDone(at, bt, root, left, right) && KidsBelow(at, root)
    requires left !in at && right !in at && left != right
    requires Sums(at, map[])
    requires at[root].runs == []
    requires forall m :: m in at ==> KidsLinked(at, m) && at[m].height <= at[root].height
    requires n in bt && i < |bt[n].kids|
    ensures SumAt(bt, map[], n, i)
  {
    hide Sums, KidsLinked, SumAt, KidsBelow;
    if n == left || n == right {
      RaiseSumHalf(at, bt, root, left, right, n, i, if n == left then i else LeftCount(|at[root].kids|) + i);
    } else if n == root {
      RaiseSumRoot(bt, root, left, right, LowKids(at[root]), HighKids(at[root]));
    } else {
      RaiseSumOther(at, bt, root, left, right, n, i);
    }
  }

  lemma RaiseSums(t: Tree, root: Node, left: Node, right: Node, bt: Store)
    requires CanRaise(t, root, left, right) && RootSplitDone(t.at, bt, root, left, right)
    requires Sums(t.at, map[])
    ensures Sums(bt, map[])
    ensures NodeLen(bt[root]) == NodeLen(t.at[root])
  {
    assert NodeOk(t.at, root) && Row(t.at, Top(t), t.rows[Top(t)]);
    LinkedBelow(t.at, root);
    forall m | m in t.at
      ensures KidsLinked(t.at, m) && t.at[m].height <= t.at[root].height
    {
      assert NodeOk(t.at, m) && Placed(t, m);
    }
    forall n, i | n in bt && 0 <= i < |bt[n].kids|
      ensures SumAt(bt, map[], n, i)
    {
      RaiseSumAt(t.at, bt, root, left, right, n, i);
    }
    HalvesOfKids(t.at[root]);
    PairTotal(bt[root].kids[0], bt[root].kids[1]);
  }

  lemma RaiseFilled(t: Tree, root: Node, left: Node, right: Node, bt: Store, low: Node?, n: Node)
    requires RootSplitDone(t.at, bt, root, left, right) && KidsBelow(t.at, root)
    requires |t.rows| > 0 && t.at[root].height == Top(t) > 0 && |t.at[root].kids| >= MAX_BRANCHES - 2
    requires n in bt
    requires n in t.at && n != root ==> Filled(t, low, n) && t.at[n].height < Top(t)
    ensures Filled(Raised(t, bt, root, left, right), low, n)
  {
    RaisedRows(t, root, left, right, bt);
    if n in t.at && n != root {
      RaiseKeeps(t.at, bt, root, left, right, n);
    }
  }

  lemma RaiseFill(t: Tree, root: Node, left: Node, right: Node, bt: Store, low: Node?)
    requires CanRaise(t, root, left, right) && RootSplitDone(t.at, bt, root, left, right)
    requires |t.at[root].kids| >= MAX_BRANCHES - 2
    requires Fill(t, low)
    ensures Fill(Raised(t, bt, root, left, right), low)
  {
    assert NodeOk(t.at, root) && Row(t.at, Top(t), t.rows[Top(t)]);
    LinkedBelow(t.at, root);
    forall n | n in bt
      ensures Filled(Raised(t, bt, root, left, right), low, n)
    {
      if n in t.at {
        assert Filled(t, low, n) && Placed(t, n);
      }
      RaiseFilled(t, root, left, right, bt, low, n);
    }
  }

  // ---------------------------------------------------------------- taking a node out

  /** The node is unlinked from its siblings and dropped from its parent's children. */
  ghost predicate DetachDone(at: Store, bt: Store, node: Node, k: nat) {
    && node in at && bt.Keys == at.Keys - {node}
    && var r := at[node];
    && r.parent in at && r.parent != node && k < |at[r.parent].kids|
    && bt[r.parent] == at[r.parent].(kids := Splice(at[r.parent].kids, k, k + 1, []))
    && (r.prev != null ==> r.prev in bt && bt[r.prev] == at[r.prev].(next := r.next))
    && (r.next != null ==> r.next in bt && bt[r.next] == at[r.next].(prev := r.prev))
    && (forall n :: n in bt ==> (n != r.parent && n != r.prev && n != r.next ==> bt[n] == at[n]))
  }

  /** The node's parent and siblings are told apart by height. */
  ghost predicate Linked(at: Store, node: Node) {
    && node in at
    && var r := at[node];
    && r.parent in at && at[r.parent].height == r.height + 1
    && (r.prev != null ==> r.prev in at && at[r.prev].height == r.height && r.prev != r.next)
    && (r.next != null ==> r.next in at && at[r.next].height == r.height)
  }

  lemma DetachKeeps(at: Store, bt: Store, node: Node, k: nat, n: Node)
    requires DetachDone(at, bt, node, k) && Linked(at, node)
    requires n in at && n != node
    ensures n in bt && bt[n].height == at[n].height && bt[n].runs == at[n].runs && bt[n].parent == at[n].parent
    ensures n != at[node].parent ==> bt[n].kids == at[n].kids
    ensures n != at[node].prev ==> bt[n].next == at[n].next
    ensures n != at[node].next ==> bt[n].prev == at[n].prev
  {
  }

  /** A row without node `j`. */
  function Narrowed(row: seq<Node>, j: nat): (w: seq<Node>)
    requires j < |row|
    ensures |w| == |row| - 1
    ensures forall i :: 0 <= i < j ==> w[i] == row[i]
    ensures forall i :: j <= i < |w| ==> w[i] == row[i + 1]
  {
    Splice(row, j, j + 1, [])
  }

  lemma NarrowedMembers(row: seq<Node>, j: nat)
    requires j < |row| && NoDup(row)
    ensures NoDup(Narrowed(row, j))
    ensures forall n :: n in Narrowed(row, j) <==> n in row && n != row[j]
  {
    var w := Narrowed(row, j);
    forall a, b | 0 <= a < b < |w|
      ensures w[a] != w[b]
    {
      assert w[a] == row[if a < j then a else a + 1];
      assert w[b] == row[if b < j then b else b + 1];
    }
    forall n | n in row && n != row[j]
      ensures n in w
    {
      var i := IndexIn(row, n);
      assert w[if i < j then i else i - 1] == n;
    }
    forall n | n in w
      ensures n in row && n != row[j]
    {
      var i := IndexIn(w, n);
      assert n == row[if i < j then i else i + 1];
    }
  }

  lemma DetachOtherRow(at: Store, bt: Store, node: Node, k: nat, h: nat, row: seq<Node>)
    requires DetachDone(at, bt, node, k) && Linked(at, node)
    requires Row(at, h, row) && h != at[node].height
    ensures Row(bt, h, row)
    ensures h != at[node].height + 1 ==> FlatKids(bt, row) == FlatKids(at, row)
    ensures at[node].height != 0 ==> RunsOf(bt, row) == RunsOf(at, row)
  {
    forall n | n in row
      ensures n in bt && bt[n].prev == at[n].prev && bt[n].next == at[n].next && bt[n].height == at[n].height
      ensures bt[n].runs == at[n].runs
      ensures h != at[node].height + 1 ==> KidsOf(at, n) == KidsOf(bt, n)
    {
      DetachKeeps(at, bt, node, k, n);
    }
    RowFrame(at, bt, h, row);
    RunsFrame(at, bt, row);
    if h != at[node].height + 1 {
      FlatFrame(at, bt, row);
    }
  }

  lemma DetachChainAt(at: Store, bt: Store, node: Node, k: nat, h: nat, row: seq<Node>, j: nat, i: nat)
    requires DetachDone(at, bt, node, k) && Linked(at, node)
    requires Row(at, h, row) && j < |row| && row[j] == node && i < |row| - 1
    ensures Narrowed(row, j)[i] in bt && ChainAt(bt, Narrowed(row, j), i)
  {
    var o := if i < j then i else i + 1;
    assert ChainAt(at, row, j);
    assert row[o] in row && row[o] != row[j] && ChainAt(at, row, o);
    assert j + 1 < |row| && o != j + 1 ==> row[o] != row[j + 1];
    assert j > 0 && o != j - 1 ==> row[o] != row[j - 1];
    DetachKeeps(at, bt, node, k, row[o]);
  }

  lemma DetachRowHere(at: Store, bt: Store, node: Node, k: nat, h: nat, row: seq<Node>, j: nat)
    requires DetachDone(at, bt, node, k) && Linked(at, node)
    requires Row(at, h, row) && j < |row| && row[j] == node && |row| >= 2 && h == at[node].height
    ensures Row(bt, h, Narrowed(row, j))
  {
    var w := Narrowed(row, j);
    NarrowedMembers(row, j);
    forall n | n in w
      ensures n in bt && bt[n].height == h
    {
      DetachKeeps(at, bt, node, k, n);
    }
    forall i | 0 <= i < |w|
      ensures ChainAt(bt, w, i)
    {
      DetachChainAt(at, bt, node, k, h, row, j, i);
    }
  }

  lemma DetachKidsAbove(at: Store, bt: Store, node: Node, k: nat, row: seq<Node>, j: nat, up: seq<Node>, pj: nat)
    requires DetachDone(at, bt, node, k) && Linked(at, node)
    requires Row(at, at[node].height + 1, up)
    requires pj < |up| && up[pj] == at[node].parent
    requires j == |FlatKids(at, up[..pj])| + k && row == FlatKids(at, up)
    ensures j < |row| && FlatKids(bt, up) == Narrowed(row, j)
  {
    forall n | n in up && n != up[pj]
      ensures n in at && n in bt && at[n].kids == bt[n].kids
    {
      DetachKeeps(at, bt, node, k, n);
    }
    KidNodesSplice(at[up[pj]].kids, k, []);
    assert KidNodes([]) == [];
    KidsChangeAt(at, bt, up, pj, k, [], j);
  }

  /** The children and the runs of the nodes on either side of the one taken out. */
  lemma DetachSides(at: Store, bt: Store, node: Node, k: nat, row: seq<Node>, j: nat)
    requires DetachDone(at, bt, node, k) && Linked(at, node)
    requires Row(at, at[node].height, row) && j < |row| && row[j] == node
    ensures FlatKids(at, row) == FlatKids(bt, row[..j]) + KidsOf(at, node) + FlatKids(bt, row[j + 1..])
    ensures RunsOf(at, row) == RunsOf(bt, row[..j]) + at[node].runs + RunsOf(bt, row[j + 1..])
  {
    FlatAt(at, row, j);
    RunsAt(at, row, j);
    forall n | n in row[..j] || n in row[j + 1..]
      ensures n in at && n in bt && KidsOf(at, n) == KidsOf(bt, n) && at[n].runs == bt[n].runs
    {
      assert n in row && n != node;
      DetachKeeps(at, bt, node, k, n);
    }
    FlatFrame(at, bt, row[..j]);
    FlatFrame(at, bt, row[j + 1..]);
    RunsFrame(at, bt, row[..j]);
    RunsFrame(at, bt, row[j + 1..]);
  }

  lemma DetachLinks(at: Store, bt: Store, node: Node, k: nat, n: Node)
    requires DetachDone(at, bt, node, k) && Linked(at, node)
    requires n in bt && KidsLinked(at, n)
    requires at[at[node].parent].kids[k].node == node
    ensures KidsLinked(bt, n)
  {
    var p := at[node].parent;
    DetachKeeps(at, bt, node, k, n);
    var kids := KidNodes(at[n].kids);
    if n == p {
      KidNodesSplice(at[p].kids, k, []);
      assert KidNodes([]) == [];
      assert KidNodes(bt[p].kids) == Narrowed(kids, k);
      NarrowedMembers(kids, k);
    }
    forall i | 0 <= i < |bt[n].kids|
      ensures KidAt(bt, n, i)
    {
      var o := if n == p && i >= k then i + 1 else i;
      assert KidNodes(bt[n].kids)[i] == kids[o];
      assert KidAt(at, n, o);
      assert n == p ==> kids[o] != kids[k];
      DetachKeeps(at, bt, node, k, kids[o]);
    }
  }

  // ---------------------------------------------------------------- the shape without the node

  ghost function Detached(t: Tree, bt: Store, s: Spot): Tree
    requires s.h < |t.rows| && s.j < |t.rows[s.h]|
  {
    Tree(bt, t.rows[s.h := Narrowed(t.rows[s.h], s.j)])
  }

  /** A node that may be taken out: not the only one of its row. */
  ghost predicate CanDetach(t: Tree, node: Node, s: Spot) {
    Shape(t, -1) && At(t, node, s) && |t.rows[s.h]| >= 2
  }

  lemma DetachLinked(t: Tree, node: Node, s: Spot)
    requires CanDetach(t, node, s)
    ensures Linked(t.at, node) && t.at[node].height == s.h
  {
    var row := t.rows[s.h];
    assert Row(t.at, s.h, row) && ChainAt(t.at, row, s.j);
    if s.j > 0 {
      assert row[s.j - 1] in row;
      assert s.j + 1 < |row| ==> row[s.j - 1] != row[s.j + 1];
    }
    if s.j + 1 < |row| {
      assert row[s.j + 1] in row;
    }
  }

  lemma DetachNodes(t: Tree, node: Node, s: Spot, bt: Store)
    requires CanDetach(t, node, s) && DetachDone(t.at, bt, node, s.k)
    ensures forall n :: n in bt ==> NodeOk(bt, n)
  {
    DetachLinked(t, node, s);
    forall n | n in bt
      ensures NodeOk(bt, n)
    {
      assert NodeOk(t.at, n);
      DetachKeeps(t.at, bt, node, s.k, n);
      DetachLinks(t.at, bt, node, s.k, n);
    }
  }

  lemma DetachRowAt(t: Tree, node: Node, s: Spot, bt: Store, h: nat)
    requires CanDetach(t, node, s) && DetachDone(t.at, bt, node, s.k) && h < |t.rows|
    ensures Row(bt, h, Detached(t, bt, s).rows[h])
  {
    DetachLinked(t, node, s);
    assert Row(t.at, h, t.rows[h]);
    if h == s.h {
      DetachRowHere(t.at, bt, node, s.k, h, t.rows[h], s.j);
    } else {
      DetachOtherRow(t.at, bt, node, s.k, h, t.rows[h]);
    }
  }

  lemma DetachKidRowAt(t: Tree, node: Node, s: Spot, bt: Store, h: nat)
    requires CanDetach(t, node, s) && DetachDone(t.at, bt, node, s.k) && h + 1 < |t.rows| && h + 1 != s.h
    ensures KidRow(Detached(t, bt, s), h)
  {
    DetachLinked(t, node, s);
    assert Row(t.at, h + 1, t.rows[h + 1]) && KidRow(t, h);
    if h == s.h {
      DetachKidsAbove(t.at, bt, node, s.k, t.rows[h], s.j, t.rows[h + 1], s.pj);
    } else {
      DetachOtherRow(t.at, bt, node, s.k, h + 1, t.rows[h + 1]);
    }
  }

  lemma DetachPlaced(t: Tree, node: Node, s: Spot, bt: Store, n: Node)
    requires CanDetach(t, node, s) && DetachDone(t.at, bt, node, s.k) && n in bt
    ensures Placed(Detached(t, bt, s), n)
  {
    DetachLinked(t, node, s);
    assert Placed(t, n) && Row(t.at, s.h, t.rows[s.h]);
    NarrowedMembers(t.rows[s.h], s.j);
    DetachKeeps(t.at, bt, node, s.k, n);
  }

  lemma DetachRootedAt(t: Tree, node: Node, s: Spot, bt: Store)
    requires Rooted(t) && DetachDone(t.at, bt, node, s.k) && Linked(t.at, node)
    requires s.h < Top(t) && t.at[node].height == s.h && t.at[Root(t)].height == Top(t)
    requires s.j < |t.rows[s.h]|
    ensures Rooted(Detached(t, bt, s)) && Root(Detached(t, bt, s)) == Root(t)
  {
    DetachKeeps(t.at, bt, node, s.k, Root(t));
  }

  lemma DetachRooted(t: Tree, node: Node, s: Spot, bt: Store)
    requires CanDetach(t, node, s) && DetachDone(t.at, bt, node, s.k)
    ensures Rooted(Detached(t, bt, s)) && Root(Detached(t, bt, s)) == Root(t)
  {
    DetachLinked(t, node, s);
    RootFacts(t, -1);
    DetachRootedAt(t, node, s, bt);
  }

  /** Without the node, only its own children are no longer the children of the row above them. */
  lemma DetachShape(t: Tree, node: Node, s: Spot, bt: Store)
    requires CanDetach(t, node, s) && DetachDone(t.at, bt, node, s.k)
    ensures Shape(Detached(t, bt, s), s.h - 1)
  {
    var u := Detached(t, bt, s);
    DetachNodes(t, node, s, bt);
    DetachRooted(t, node, s, bt);
    forall h | 0 <= h < |u.rows|
      ensures Row(bt, h, u.rows[h])
    {
      DetachRowAt(t, node, s, bt, h);
    }
    forall h | 0 <= h < |u.rows| - 1 && h != s.h - 1
      ensures KidRow(u, h)
    {
      DetachKidRowAt(t, node, s, bt, h);
    }
    forall n | n in bt
      ensures Placed(u, n)
    {
      DetachPlaced(t, node, s, bt, n);
    }
  }

  // ---------------------------------------------------------------- lengths and fill without the node

  lemma DetachSumAt(at: Store, bt: Store, node: Node, k: nat, n: Node, i: nat)
    requires DetachDone(at, bt, node, k) && Linked(at, node)
    requires forall m, x :: m in at && 0 <= x < |at[m].kids| ==> SumAt(at, map[node := 0], m, x)
    requires at[at[node].parent].kids[k].node == node
    requires n in bt && i < |bt[n].kids| && KidsLinked(at, n) && KidsLinked(at, at[node].parent)
    ensures SumAt(bt, map[], n, i)
  {
    var p := at[node].parent;
    DetachKeeps(at, bt, node, k, n);
    var o := if n == p && i >= k then i + 1 else i;
    assert bt[n].kids[i] == at[n].kids[o];
    assert SumAt(at, map[node := 0], n, o) && KidAt(at, n, o);
    assert n == p ==> KidNodes(at[n].kids)[o] != KidNodes(at[n].kids)[k];
    var c := at[n].kids[o].node;
    DetachKeeps(at, bt, node, k, c);
    if c == p {
      assert SumAt(at, map[node := 0], p, k);
      KidsTotalSplice(at[p].kids, k, []);
    }
  }

  /** The node's entry said 0 when it was dropped, so no other entry is off now. */
  lemma DetachSums(t: Tree, node: Node, s: Spot, bt: Store)
    requires CanDetach(t, node, s) && DetachDone(t.at, bt, node, s.k)
    requires Sums(t.at, map[node := 0])
    ensures Sums(bt, map[])
  {
    DetachLinked(t, node, s);
    assert NodeOk(t.at, t.at[node].parent);
    forall n, i | n in bt && 0 <= i < |bt[n].kids|
      ensures SumAt(bt, map[], n, i)
    {
      assert NodeOk(t.at, n);
      DetachSumAt(t.at, bt, node, s.k, n, i);
    }
  }

  /** A branch all of whose siblings' children are its own has as many children as the row below. */
  lemma OnlyParent(t: Tree, gap: int, h: nat)
    requires Shape(t, gap) && h + 1 < |t.rows| && h != gap && |t.rows[h + 1]| == 1
    ensures t.rows[h + 1][0] in t.at && |t.at[t.rows[h + 1][0]].kids| == |t.rows[h]|
  {
    assert KidRow(t, h) && Row(t.at, h + 1, t.rows[h + 1]);
    var p := t.rows[h + 1][0];
    assert p in t.rows[h + 1] && t.rows[h + 1] == [p];
    FlatOne(t.at, p);
  }

  lemma DetachFilled(t: Tree, node: Node, s: Spot, bt: Store, n: Node)
    requires DetachDone(t.at, bt, node, s.k) && Linked(t.at, node)
    requires s.h + 1 < |t.rows| && s.j < |t.rows[s.h]| && t.at[node].height == s.h
    requires n in bt && Filled(t, node, n)
    requires n == t.at[node].parent ==> |t.at[n].kids| >= 2
    ensures Filled(Detached(t, bt, s), t.at[node].parent, n)
  {
    DetachKeeps(t.at, bt, node, s.k, n);
  }

  /** Now it is the parent that has just lost an entry. */
  lemma DetachFill(t: Tree, node: Node, s: Spot, bt: Store)
    requires CanDetach(t, node, s) && DetachDone(t.at, bt, node, s.k)
    requires Fill(t, node)
    ensures Fill(Detached(t, bt, s), t.at[node].parent)
  {
    DetachLinked(t, node, s);
    var p := t.at[node].parent;
    assert Filled(t, node, p);
    if s.h + 1 == Top(t) {
      OnlyParent(t, -1, s.h);
      assert p == t.rows[s.h + 1][0];
    }
    forall n | n in bt
      ensures Filled(Detached(t, bt, s), p, n)
    {
      assert Filled(t, node, n);
      DetachFilled(t, node, s, bt, n);
    }
  }
}
