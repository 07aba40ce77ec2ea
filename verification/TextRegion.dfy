/**
 * The region itself: an ordered list of runs over the offsets of a text, kept in a B+tree whose
 * nodes are updated in place.
 */
module TextRegions {
  import opened Runs
  import opened RegionTree
  import opened RegionSplit
  import opened RegionSteps
  import opened RegionLengths
  import opened RegionFacts
  import opened RegionCascade
  import opened RegionSearch
  import opened RegionEdit
  import opened RegionCompact
  import opened RegionTakeOut
  import opened RegionHandOver
  import opened RegionClash
  import opened RegionHeadroom
  import opened RegionWalk
  import opened RegionRoom
  import opened RegionLists

  class TextRegion {
    const root: Node
    const join: JoinFunc
    var length: nat
    var cached: Node?
    var cachedOffset: nat
    /** The place of the cached leaf among the leaves. */
    ghost var cachedPlace: nat
    /** The snapshot of all live nodes. */
    ghost var tree: Tree
    /** The snapshot when a compaction stopped the program, and the branch that was to be put in order. */
    ghost var stopTree: Tree
    ghost var stopNode: Node?

    /** Node `n` holds what the snapshot says. */
    ghost predicate SyncAt(n: Node)
      reads this`tree, n
    {
      n in tree.at && tree.at[n] == n.Snap()
    }

    ghost predicate Synced()
      reads this`tree, tree.at.Keys
    {
      forall n {:trigger SyncAt(n)} :: n in tree.at ==> SyncAt(n)
    }

    /** An empty region: a root with one empty leaf. */
    constructor (join: JoinFunc)
      requires SoundJoin(join)
      ensures fresh(tree.at.Keys) && this.join == join
      ensures Valid() && Text() == [] && length == 0 && Spare(tree)
      ensures |tree.rows| > 0 && Leaves(tree) == [[]]
    {
      var r := new Node(null, false, 1);
      var leaf := new Node(r, true, 0);
      r.children := [Child(leaf, 0)];
      root := r;
      this.join := join;
      length := 0;
      cached, cachedOffset, cachedPlace := null, 0, 0;
      tree := Tree(map[r := Rec(null, null, null, [Child(leaf, 0)], [], 1), leaf := Rec(r, null, null, [], [], 0)],
                   [[leaf], [r]]);
      stopTree, stopNode := Tree(map[], []), null;
      new;
      assert SyncAt(r) && SyncAt(leaf);
      NewRegion(tree, r, leaf);
      MakeValid();
    }

    method InvalidateCache()
      modifies this`cached, this`cachedOffset
      ensures cached == null && cachedOffset == 0
    {
      cached := null;
      cachedOffset := 0;
    }

    static method FindChild(children: seq<Child>, node: Node, ghost k: nat) returns (i: nat)
      requires k < |children| && children[k].node == node
      ensures i < |children| && children[i].node == node
    {
      i := 0;
      while children[i].node != node
        invariant i <= k
        decreases k - i
      {
        i := i + 1;
      }
    }

    /** The entry of `node` in its parent is changed by `delta`. */
    method ChangeEntry(parent: Node, node: Node, delta: int, ghost k: nat)
      requires Synced() && parent in tree.at && k < |tree.at[parent].kids|
      requires tree.at[parent].kids[k].node == node && NoDup(KidNodes(tree.at[parent].kids))
      requires tree.at[parent].kids[k].length + delta >= 0
      modifies this`tree, parent`children
      ensures Synced() && tree == Tree(Bumped(old(tree.at), parent, k, delta), old(tree.rows))
    {
      assert SyncAt(parent);
      ghost var t := tree;
      ghost var kids := KidNodes(parent.children);
      var i := FindChild(parent.children, node, k);
      assert kids[i] == kids[k];
      parent.children := parent.children[i := Child(node, parent.children[i].length + delta)];
      tree := Tree(Bumped(t.at, parent, k, delta), t.rows);
      forall n | n in tree.at
        ensures SyncAt(n)
      {
        assert old(SyncAt(n));
      }
    }

    /** One step up: the entry of `node` in its parent changes by `delta`, and the parent is off by as much. */
    method ChangeParent(node: Node, delta: int, ghost gap: int, ghost odd: map<Node, int>) returns (p: Node)
      requires Synced() && Shape(tree, gap) && Sums(tree.at, odd)
      requires node in tree.at && gap < tree.at[node].height && tree.at[node].parent != null
      requires node in odd && forall m :: m in odd ==> m in tree.at && tree.at[m].height <= tree.at[node].height
      requires delta >= 0 || -delta <= odd[node]
      modifies this`cached, this`cachedOffset, this`tree, tree.at.Keys`children
      ensures Synced() && tree.rows == old(tree.rows) && cached == null && Shape(tree, gap)
      ensures p == old(tree.at[node].parent) && Stepped(old(tree.at), tree.at, node, p, delta, odd)
      ensures p in old(tree.at) && -delta <= NodeLen(old(tree.at)[p])
    {
      hide Total, KidsTotal;
      ghost var t := tree;
      assert SyncAt(node);
      p := node.parent;
      ghost var s := FindSpot(t, gap, node);
      AllLinked(t, gap);
      EntryOf(t.at, odd, p, s.k, node);
      assert t.at[p].kids[s.k].length + delta >= 0;
      InvalidateCache();
      ChangeEntry(p, node, delta, s.k);
      hide *;
      Bump(t, gap, node, s, delta, odd, tree.at);
      StepDone(t.at, tree.at, node, p, delta, odd, s.h);
    }

    /** Adds `len` to the entry of `node` in its parent, and so on up to the root. */
    method AddToParents(node: Node, len: nat, ghost gap: int, ghost odd: map<Node, int>)
      requires Synced() && Shape(tree, gap) && Sums(tree.at, odd)
      requires node in tree.at && gap < tree.at[node].height
      requires node in odd && forall m :: m in odd ==> m in tree.at && tree.at[m].height <= tree.at[node].height
      modifies this`cached, this`cachedOffset, this`tree, tree.at.Keys`children
      ensures Synced() && tree.rows == old(tree.rows)
      ensures LengthsOnly(old(tree.at), tree.at, old(tree.at[node].height))
      ensures Sums(tree.at, Shift(odd, node, len))
      ensures cached == null || (cached == old(cached) && cachedOffset == old(cachedOffset))
      decreases |tree.rows| - tree.at[node].height
    {
      hide *;
      ghost var at := tree.at;
      NodeFields(node);
      NodePlaced(tree, gap, node);
      var parent := node.parent;
      if parent == null || len == 0 {
        AddNothing(tree, gap, node, len, odd);
        return;
      }
      var p := ChangeParent(node, len, gap, odd);
      ghost var bt := tree.at;
      ghost var odd2 := StepMeans(at, bt, node, p, len, odd);
      NodePlaced(tree, gap, p);
      AddToParents(p, len, gap, odd2);
      StepUp(at, bt, tree.at, node, p, len, odd);
    }

    /** Takes `len` off the entry of `node` in its parent, and so on up to the root. */
    method SubtractFromParents(node: Node, len: int, ghost gap: int, ghost odd: map<Node, int>)
      requires Synced() && Shape(tree, gap) && Sums(tree.at, odd)
      requires node in tree.at && gap < tree.at[node].height
      requires node in odd && forall m :: m in odd ==> m in tree.at && tree.at[m].height <= tree.at[node].height
      requires 0 <= len <= odd[node]
      modifies this`cached, this`cachedOffset, this`tree, tree.at.Keys`children
      ensures Synced() && tree.rows == old(tree.rows)
      ensures LengthsOnly(old(tree.at), tree.at, old(tree.at[node].height))
      ensures Sums(tree.at, Shift(odd, node, -len))
      ensures cached == null || (cached == old(cached) && cachedOffset == old(cachedOffset))
      ensures old(tree.at[node].parent) != null && len > 0 ==> cached == null
      decreases |tree.rows| - tree.at[node].height
    {
      hide *;
      ghost var at := tree.at;
      NodeFields(node);
      NodePlaced(tree, gap, node);
      var parent := node.parent;
      var delta := -len;
      if parent == null || len == 0 {
        AddNothing(tree, gap, node, delta, odd);
        return;
      }
      var p := ChangeParent(node, delta, gap, odd);
      ghost var bt := tree.at;
      ghost var odd2 := StepMeans(at, bt, node, p, delta, odd);
      NodePlaced(tree, gap, p);
      SubtractFromParents(p, len, gap, odd2);
      StepUp(at, bt, tree.at, node, p, delta, odd);
    }

    static method RunsLength(runs: seq<Run>) returns (len: nat)
      ensures len == Total(runs)
    {
      len := 0;
      for i := 0 to |runs|
        invariant len == Total(runs[..i])
      {
        TotalAt(runs, i);
        len := len + runs[i].length;
      }
      assert runs[..|runs|] == runs;
    }

    static method KidsLength(kids: seq<Child>) returns (len: nat)
      ensures len == KidsTotal(kids)
    {
      len := 0;
      for i := 0 to |kids|
        invariant len == KidsTotal(kids[..i])
      {
        KidsTotalPrefix(kids, i);
        len := len + kids[i].length;
      }
      assert kids[..|kids|] == kids;
    }

    // ---------------------------------------------------------------- single writes, kept in step

    method SetParent(n: Node, parent: Node?)
      requires Synced() && n in tree.at
      modifies this`tree, n`parent
      ensures Synced() && tree == Tree(old(tree.at)[n := old(tree.at[n]).(parent := parent)], old(tree.rows))
      ensures tree.at.Keys == old(tree.at.Keys)
    {
      assert SyncAt(n);
      n.parent := parent;
      tree := Tree(tree.at[n := tree.at[n].(parent := parent)], tree.rows);
      forall m | m in tree.at
        ensures SyncAt(m)
      {
        assert old(SyncAt(m));
      }
    }

    method SetPrev(n: Node, prev: Node?)
      requires Synced() && n in tree.at
      modifies this`tree, n`prev
      ensures Synced() && tree == Tree(old(tree.at)[n := old(tree.at[n]).(prev := prev)], old(tree.rows))
      ensures tree.at.Keys == old(tree.at.Keys)
    {
      assert SyncAt(n);
      n.prev := prev;
      tree := Tree(tree.at[n := tree.at[n].(prev := prev)], tree.rows);
      forall m | m in tree.at
        ensures SyncAt(m)
      {
        assert old(SyncAt(m));
      }
    }

    method SetNext(n: Node, next: Node?)
      requires Synced() && n in tree.at
      modifies this`tree, n`next
      ensures Synced() && tree == Tree(old(tree.at)[n := old(tree.at[n]).(next := next)], old(tree.rows))
      ensures tree.at.Keys == old(tree.at.Keys)
    {
      assert SyncAt(n);
      n.next := next;
      tree := Tree(tree.at[n := tree.at[n].(next := next)], tree.rows);
      forall m | m in tree.at
        ensures SyncAt(m)
      {
        assert old(SyncAt(m));
      }
    }

    method SetRuns(n: Node, runs: seq<Run>)
      requires Synced() && n in tree.at
      modifies this`tree, n`runs
      ensures Synced() && tree == WithRuns(old(tree), n, runs)
      ensures tree.at.Keys == old(tree.at.Keys)
    {
      assert SyncAt(n);
      n.runs := runs;
      tree := Tree(tree.at[n := tree.at[n].(runs := runs)], tree.rows);
      forall m | m in tree.at
        ensures SyncAt(m)
      {
        assert old(SyncAt(m));
      }
    }

    method SetChildren(n: Node, children: seq<Child>)
      requires Synced() && n in tree.at
      modifies this`tree, n`children
      ensures Synced() && tree == Tree(old(tree.at)[n := old(tree.at[n]).(kids := children)], old(tree.rows))
      ensures tree.at.Keys == old(tree.at.Keys)
    {
      assert SyncAt(n);
      n.children := children;
      tree := Tree(tree.at[n := tree.at[n].(kids := children)], tree.rows);
      forall m | m in tree.at
        ensures SyncAt(m)
      {
        assert old(SyncAt(m));
      }
    }

    ghost method SetHeight(n: Node, height: nat)
      requires Synced() && n in tree.at
      modifies this`tree, n`height
      ensures Synced() && tree == Tree(old(tree.at)[n := old(tree.at[n]).(height := height)], old(tree.rows))
      ensures tree.at.Keys == old(tree.at.Keys)
    {
      assert SyncAt(n);
      n.height := height;
      tree := Tree(tree.at[n := tree.at[n].(height := height)], tree.rows);
      forall m | m in tree.at
        ensures SyncAt(m)
      {
        assert old(SyncAt(m));
      }
    }

    ghost method SetRows(rows: seq<seq<Node>>)
      requires Synced()
      modifies this`tree
      ensures Synced() && tree == Tree(old(tree.at), rows)
    {
      tree := Tree(tree.at, rows);
      forall m | m in tree.at
        ensures SyncAt(m)
      {
        assert old(SyncAt(m));
      }
    }

    /** A new node, not linked to anything but its parent yet. */
    method NewNode(parent: Node, isLeaf: bool, ghost height: nat) returns (n: Node)
      requires Synced()
      modifies this`tree
      ensures fresh(n) && n.isLeaf == isLeaf && n !in old(tree.at)
      ensures Synced() && tree == Tree(old(tree.at)[n := Rec(parent, null, null, [], [], height)], old(tree.rows))
      ensures tree.at.Keys == old(tree.at.Keys) + {n}
    {
      n := new Node(parent, isLeaf, height);
      tree := Tree(tree.at[n := Rec(parent, null, null, [], [], height)], tree.rows);
      forall m | m in tree.at
        ensures SyncAt(m)
      {
        assert m != n ==> old(SyncAt(m));
      }
    }

    method SetParents(kids: seq<Child>, parent: Node)
      requires Synced() && forall c :: c in KidNodes(kids) ==> c in tree.at
      modifies this`tree, (set c | c in KidNodes(kids))`parent
      ensures Synced() && tree == Tree(Adopted(old(tree.at), KidNodes(kids), parent), old(tree.rows))
      ensures tree.at.Keys == old(tree.at.Keys)
    {
      ghost var at := tree.at;
      ghost var nodes := KidNodes(kids);
      AdoptNone(at, nodes[..0], parent);
      for i := 0 to |kids|
        invariant Synced() && tree == Tree(Adopted(at, nodes[..i], parent), old(tree.rows))
      {
        assert nodes[i] == kids[i].node && nodes[i] in nodes;
        AdoptOne(at, nodes, i, parent);
        SetParent(kids[i].node, parent);
      }
      assert nodes[..|kids|] == nodes;
    }

    /** Puts `right` into the sibling chain right after `left`. */
    method LinkAfter(left: Node, right: Node)
      requires Synced() && left in tree.at && right in tree.at && left != right
      requires tree.at[left].next != null ==> tree.at[left].next in tree.at
      requires tree.at[left].next != left && tree.at[left].next != right
      modifies this`tree, tree.at.Keys`prev, tree.at.Keys`next
      ensures Synced() && tree == Tree(LinkedAfter(old(tree.at), left, right), old(tree.rows))
      ensures tree.at.Keys == old(tree.at.Keys)
    {
      assert SyncAt(left);
      var next := left.next;
      if next != null {
        SetPrev(next, right);
      }
      SetPrev(right, left);
      SetNext(right, next);
      SetNext(left, right);
    }

    /** The writes of a leaf split, once the halves and the entry to cut are known. */
    method WriteLeafSplit(left: Node, right: Node, parent: Node, low: seq<Run>, high: seq<Run>, cs: seq<Child>)
      requires Synced() && left in tree.at && right in tree.at && parent in tree.at && left != right
      requires tree.at[left].next != null ==> tree.at[left].next in tree.at
      requires tree.at[left].next != left && tree.at[left].next != right
      modifies this`tree, tree.at.Keys
      ensures Synced() && tree == Tree(LeafWrites(old(tree.at), left, right, parent, low, high, cs), old(tree.rows))
    {
      SetRuns(right, high);
      SetRuns(left, low);
      LinkAfter(left, right);
      SetChildren(parent, cs);
    }

    /** Moves the upper half of a leaf's runs into a new leaf right after it. */
    method LeafSplit(left: Node, ghost gap: int, ghost s: Spot) returns (right: Node)
      requires Synced() && HasRoom(tree, gap, left, s) && s.h == 0 && Sums(tree.at, map[])
      modifies this`tree, tree.at.Keys
      ensures fresh(right) && Synced()
      ensures CanSplit(old(tree), gap, left, s, right)
      ensures SplitDone(old(tree.at), tree.at, left, right, s.k) && tree.at.Keys == old(tree.at).Keys + {right}
      ensures tree == SplitTree(old(tree), tree.at, s, right)
      ensures left in old(tree).at && left in tree.at && right in tree.at
      ensures
        var runs := old(tree).at[left].runs;
        var n := |runs| - |runs| / 2;
        tree.at[left].runs == runs[..n] && tree.at[right].runs == runs[n..]
    {
      hide *;
      ghost var t := tree;
      SplitReady(t, gap, left, s);
      NodeFields(left);
      var parent: Node := left.parent;
      NodeFields(parent);
      var i := FindChild(parent.children, left, s.k);
      SpotUnique(t, gap, left, s, i);
      var runs, children := left.runs, parent.children;
      var mid := LeftCount(|runs|);
      LeftCountIn(|runs|);
      var rightLength := RunsLength(runs[mid..]);
      LeafHalves(runs, mid, rightLength);
      right := NewNode(parent, true, 0);
      var cs := Splice(children, i, i + 1, [Child(left, children[i].length - rightLength), Child(right, rightLength)]);
      LeafSplitDone(t.at, left, right, i, mid, rightLength, cs);
      WriteLeafSplit(left, right, parent, runs[..mid], runs[mid..], cs);
      SplitKeys(t.at, tree.at, left, right, i);
      SplitFinally(t, gap, left, s, right, tree.at);
      SplitHalves(t.at, tree.at, left, right, i);
      SetRows(t.rows[0 := Widened(t.rows[0], s.j, right)]);
    }

    method WriteBranchSplit(left: Node, right: Node, parent: Node, low: seq<Child>, high: seq<Child>, cs: seq<Child>)
      requires Synced() && left in tree.at && right in tree.at && parent in tree.at && left != right
      requires tree.at[left].next != null ==> tree.at[left].next in tree.at
      requires tree.at[left].next != left && tree.at[left].next != right
      requires forall c :: c in KidNodes(high) ==> c in tree.at
      modifies this`tree, tree.at.Keys
      ensures Synced() && tree == Tree(BranchWrites(old(tree.at), left, right, parent, low, high, cs), old(tree.rows))
    {
      LinkAfter(left, right);
      SetChildren(right, high);
      SetChildren(left, low);
      SetParents(high, right);
      SetChildren(parent, cs);
    }

    /** Moves the upper half of a branch's children into a new branch right after it. */
    method BranchSplit(left: Node, ghost gap: int, ghost s: Spot) returns (right: Node)
      requires Synced() && HasRoom(tree, gap, left, s) && s.h > 0 && Sums(tree.at, map[])
      modifies this`tree, tree.at.Keys
      ensures fresh(right) && Synced()
      ensures CanSplit(old(tree), gap, left, s, right)
      ensures SplitDone(old(tree.at), tree.at, left, right, s.k) && tree.at.Keys == old(tree.at).Keys + {right}
      ensures tree == SplitTree(old(tree), tree.at, s, right)
      ensures left in old(tree).at && left in tree.at && right in tree.at
      ensures
        var kids := old(tree).at[left].kids;
        var n := |kids| - |kids| / 2;
        tree.at[left].kids == kids[..n] && tree.at[right].kids == kids[n..]
    {
      hide *;
      ghost var t := tree;
      SplitReady(t, gap, left, s);
      NodeFields(left);
      var parent: Node := left.parent;
      NodeFields(parent);
      var i := FindChild(parent.children, left, s.k);
      SpotUnique(t, gap, left, s, i);
      var kids, children := left.children, parent.children;
      var mid := LeftCount(|kids|);
      LeftCountIn(|kids|);
      var low, high := kids[..mid], kids[mid..];
      LowHighKids(t.at[left], mid);
      var rightLength := KidsLength(high);
      var leftLength := KidsLength(low);
      right := NewNode(parent, false, s.h);
      var cs := Splice(children, i, i + 1, [Child(left, leftLength), Child(right, rightLength)]);
      BranchSplitDone(t.at, left, right, i, low, high, cs);
      WriteBranchSplit(left, right, parent, low, high, cs);
      SplitKeys(t.at, tree.at, left, right, i);
      SplitFinally(t, gap, left, s, right, tree.at);
      SplitHalves(t.at, tree.at, left, right, i);
      SetRows(t.rows[s.h := Widened(t.rows[s.h], s.j, right)]);
    }

    method WriteRootSplit(left: Node, right: Node, low: seq<Child>, high: seq<Child>, cs: seq<Child>)
      requires Synced() && left in tree.at && right in tree.at && root in tree.at && left != right
      requires forall c :: c in KidNodes(low) || c in KidNodes(high) ==> c in tree.at
      modifies this`tree, tree.at.Keys
      ensures Synced() && tree == Tree(RootWrites(old(tree.at), root, left, right, low, high, cs), old(tree.rows))
    {
      hide KidNodes, Adopted;
      SetNext(left, right);
      SetPrev(right, left);
      SetChildren(left, low);
      SetChildren(right, high);
      SetParents(low, left);
      SetParents(high, right);
      SetChildren(root, cs);
      SetHeight(root, tree.at[root].height + 1);
    }

    /** The root keeps its place and gets two new branches between itself and its children. */
    method RootSplit() returns (ghost left: Node, ghost right: Node)
      requires Synced() && Shape(tree, -1) && root == Root(tree)
      modifies this`tree, tree.at.Keys
      ensures fresh(left) && fresh(right) && Synced()
      ensures CanRaise(old(tree), root, left, right)
      ensures RootSplitDone(old(tree.at), tree.at, root, left, right)
      ensures tree.at.Keys == old(tree.at).Keys + {left, right}
      ensures tree == Raised(old(tree), tree.at, root, left, right)
    {
      hide *;
      ghost var t := tree;
      RootReady(t, root);
      NodeFields(root);
      var kids := root.children;
      var mid := LeftCount(|kids|);
      LeftCountIn(|kids|);
      var low, high := kids[..mid], kids[mid..];
      LowHighKids(t.at[root], mid);
      var leftLength := KidsLength(low);
      var rightLength := KidsLength(high);
      var l := NewNode(root, false, Top(t));
      var r := NewNode(root, false, Top(t));
      var cs := [Child(l, leftLength), Child(r, rightLength)];
      ghost var base := tree.at;
      WriteRootSplit(l, r, low, high, cs);
      RootWritesDone(t.at, base, tree.at, root, l, r, low, high, cs);
      left, right := l, r;
      RaisedKeys(t.at, tree.at, root, l, r);
      RootFinally(t, root, l, r, tree.at);
      SetRows(t.rows[Top(t) := [l, r]] + [[root]]);
    }

    // ---------------------------------------------------------------- splitting, ancestors first

    static function NeedsSplit(n: Node): bool
      reads n
    {
      if n.isLeaf then |n.runs| >= MAX_RUNS - 2 else |n.children| >= MAX_BRANCHES - 2
    }

    lemma NeedsSplitMeans(n: Node, low: Node?)
      requires Synced() && Whole(tree, root, low) && n in tree.at
      ensures NeedsSplit(n) <==> NearlyFull(tree.at[n])
      ensures
        NeedsSplit(n) <==>
        if n.isLeaf then |tree.at[n].runs| + 2 >= MAX_RUNS else |tree.at[n].kids| + 2 >= MAX_BRANCHES
      ensures n.parent == tree.at[n].parent
      ensures !NearlyFull(tree.at[n]) && n.isLeaf ==> |tree.at[n].runs| <= MAX_RUNS - 3
    {
      assert SyncAt(n) && NodeOk(tree.at, n);
    }

    /** Splits a node whose parent has room. */
    method SplitHere(node: Node, ghost t: Tree, ghost low: Node?) returns (right: Node, ghost j: nat)
      requires Synced() && Whole(t, root, low) && Whole(tree, root, low)
      requires node in t.at && NearlyFull(t.at[node]) && ParentReady(t, tree, node)
      requires node == root ==> t == tree
      modifies this`tree, tree.at.Keys
      ensures Synced() && Whole(tree, root, low) && fresh(tree.at.Keys - old(tree.at.Keys))
      ensures NodeSplitDone(t, tree, node)
      ensures |tree.rows| == old(|tree.rows|) + if node == root then 1 else 0
      ensures node.isLeaf ==> LeafHalved(t, tree, node, right, j)
      ensures node.isLeaf && node in old(tree.at) ==> Upper(old(tree), tree, 0, old(tree.at[node]).parent, 1)
      ensures Headroom(old(tree)) ==> Headroom(tree)
    {
      hide *;
      ghost var u := tree;
      WholeMeans(t, root, low);
      WholeMeans(u, root, low);
      ParentInTree(t, node, root, low);
      ReadyNode(t, u, node);
      NeedsSplitMeans(node, low);
      right, j := root, 0;
      if !node.isLeaf && node.parent == null {
        ghost var left, other := RootSplit();
        RaiseStep(t, root, left, other, tree.at, low);
        RaiseHeadroom(t, root, left, other, tree.at, low);
      } else {
        ghost var s := ParentSpot(u, node, root, low);
        ReadySpot(t, u, node, s, root, low);
        if node.isLeaf {
          right := LeafSplit(node, -1, s);
          LeafStep(t, u, node, s, right, tree.at);
          LeafUpper(u, node, s, right, tree.at);
          j := s.j;
        } else {
          right := BranchSplit(node, -1, s);
        }
        SplitStep(t, u, node, s, right, tree.at, root, low);
        SplitHeadroom(u, node, s, right, tree.at, root, low);
      }
    }

    /** Splits a nearly full node, after its parent if that is nearly full too; leaf `j` is cut if it is a leaf. */
    method NodeSplit(node: Node, ghost low: Node?) returns (right: Node, ghost j: nat)
      requires Synced() && Whole(tree, root, low)
      requires node in tree.at && NearlyFull(tree.at[node])
      modifies this`cached, this`cachedOffset, this`tree, tree.at.Keys
      ensures Synced() && Whole(tree, root, low)
      ensures forall n :: n in tree.at ==> n in old(tree.at) || fresh(n)
      ensures NodeSplitDone(old(tree), tree, node)
      ensures |tree.rows| == old(|tree.rows|) + if Cascades(old(tree), node) then 1 else 0
      ensures node.isLeaf ==> LeafHalved(old(tree), tree, node, right, j)
      ensures node.isLeaf && HasPlace(old(tree), old(tree.at[node]).parent) ==>
        Upper(old(tree), tree, 0, old(tree.at[node]).parent, 1)
      ensures Headroom(old(tree)) ==> Headroom(tree)
      ensures cached == null
      decreases |tree.rows| - tree.at[node].height
    {
      hide *;
      ghost var t := tree;
      InvalidateCache();
      ParentInTree(t, node, root, low);
      NeedsSplitMeans(node, low);
      CascadesUp(t, node, root, low);
      var parent := node.parent;
      var full := false;
      if parent != null {
        NeedsSplitMeans(parent, low);
        full := NeedsSplit(parent);
      }
      if full {
        var r, _ := NodeSplit(parent, low);
        ReadyAfter(t, tree, node, parent, root, low);
      } else {
        ReadyAtOnce(t, node, root, low);
      }
      ghost var keys := tree.at.Keys;
      PlaceMeans(t, root, low, node);
      right, j := SplitHere(node, t, low);
      assert forall n :: n in tree.at ==> n in keys || n in tree.at.Keys - keys;
    }

    // ---------------------------------------------------------------- search

    /** What every operation finds and leaves behind. */
    ghost predicate Valid()
      reads this, tree.at.Keys
    {
      && Synced() && Whole(tree, root, null) && SoundJoin(join)
      && length == Total(AllRuns(tree))
      && (cached != null ==> CachedAt(tree, cached, cachedOffset, cachedPlace))
    }

    lemma OpenValid()
      requires Valid()
      ensures Synced() && Whole(tree, root, null) && SoundJoin(join) && Rooted(tree) && |tree.rows| > 0
      ensures length == Total(AllRuns(tree)) == |Text()|
      ensures Text() == Expand(AllRuns(tree)) && Positive(AllRuns(tree))
      ensures cached != null ==> CachedAt(tree, cached, cachedOffset, cachedPlace)
    {
      PositiveRuns(tree, root, null);
    }

    lemma MakeValid()
      requires Synced() && Whole(tree, root, null) && SoundJoin(join)
      requires length == Total(AllRuns(tree))
      requires cached != null ==> CachedAt(tree, cached, cachedOffset, cachedPlace)
      ensures Valid() && Text() == Expand(AllRuns(tree))
    {
    }

    /** The region as a plain sequence: the datum of every character. */
    ghost function Text(): seq<Data>
      requires |tree.rows| > 0
      reads this`tree
    {
      Expand(AllRuns(tree))
    }

    lemma NodeFields(n: Node)
      requires Synced() && n in tree.at
      ensures n.Snap() == tree.at[n]
      ensures n.parent == tree.at[n].parent && n.prev == tree.at[n].prev && n.next == tree.at[n].next
      ensures n.children == tree.at[n].kids && n.runs == tree.at[n].runs && n.height == tree.at[n].height
    {
      assert SyncAt(n);
    }

    method FirstLeaf() returns (leaf: Node)
      requires Synced() && Whole(tree, root, null)
      ensures tree.rows[0] != [] && leaf == tree.rows[0][0] && leaf.isLeaf
    {
      RootFacts(tree, -1);
      leaf := root;
      ghost var h: nat := Top(tree);
      assert NodeOk(tree.at, root);
      while !leaf.isLeaf
        invariant h < |tree.rows| && tree.rows[h] != [] && leaf == tree.rows[h][0] && leaf in tree.at
        invariant leaf.isLeaf <==> h == 0
        decreases h
      {
        assert SyncAt(leaf);
        FirstKid(tree, root, h);
        leaf := leaf.children[0].node;
        h := h - 1;
      }
    }

    method SearchRecurse(node: Node, offset: nat, ghost h: nat, ghost j: nat, ghost total: nat)
      returns (leaf: Node, within: nat, ghost place: nat)
      requires Synced() && Whole(tree, root, null) && Total(AllRuns(tree)) > 0
      requires Through(tree, node, h, j, offset, total)
      ensures Found(tree, leaf, place, within, total)
      decreases h
    {
      hide *;
      OnWay(tree, root, node, h, j, offset, total);
      NodeFields(node);
      if node.isLeaf {
        return node, offset, j;
      }
      var kids := node.children;
      var rest: nat := offset;
      var i := 0;
      while i < |kids|
        invariant 0 <= i <= |kids|
        invariant rest + KidsTotal(kids[..i]) == offset
      {
        KidsTotalPrefix(kids, i);
        EntryNotEmpty(tree, root, node, i);
        if rest < kids[i].length {
          ghost var below := ThroughKid(tree, root, node, h, j, offset, total, i, rest);
          leaf, within, place := SearchRecurse(kids[i].node, rest, h - 1, below, total);
          return;
        }
        rest := rest - kids[i].length;
        i := i + 1;
      }
      assert kids[..|kids|] == kids;
      LastTotal(kids, |kids| - 1);
      ThroughLast(tree, root, node, h, j, offset, total);
      assert node.next == null;
      var last := kids[|kids| - 1];
      ghost var below := ThroughKid(tree, root, node, h, j, offset, total, |kids| - 1, rest + last.length);
      leaf, within, place := SearchRecurse(last.node, rest + last.length, h - 1, below, total);
    }

    /** The leaf an offset belongs to, looked up from the root. */
    method Descend(offset: nat) returns (leaf: Node, within: nat, ghost place: nat)
      requires Synced() && Whole(tree, root, null) && offset <= Total(AllRuns(tree))
      ensures Found(tree, leaf, place, within, offset)
    {
      hide *;
      if offset == 0 {
        leaf := FirstLeaf();
        within, place := 0, 0;
        FirstFound(tree, root);
      } else {
        RootThrough(tree, root, offset);
        leaf, within, place := SearchRecurse(root, offset, Top(tree), 0, offset);
      }
    }

    /** The leaf an offset belongs to, from the cache when that still covers the offset. */
    method Search(offset: nat) returns (leaf: Node, within: nat, ghost place: nat)
      requires Valid() && offset <= length
      modifies this`cached, this`cachedOffset, this`cachedPlace
      ensures Valid() && tree == old(tree) && length == old(length)
      ensures Found(tree, leaf, place, within, offset)
      ensures cached == leaf && cachedOffset + within == offset && cachedPlace == place
    {
      hide *;
      OpenValid();
      if cached != null && offset >= cachedOffset {
        var c: Node := cached;
        CachedLeaf(tree, root, c, cachedOffset, cachedPlace, offset);
        NodeFields(c);
        var end := RunsLength(c.runs);
        end := end + cachedOffset;
        if offset < end || (offset == end && c.next == null) {
          return c, offset - cachedOffset, cachedPlace;
        }
      }
      leaf, within, place := Descend(offset);
      FoundCached(tree, leaf, place, within, offset);
      cached, cachedOffset, cachedPlace := leaf, offset - within, place;
      MakeValid();
    }

    // ---------------------------------------------------------------- insert

    /** Adds `len` to the entries on the way from `leaf` up to the root. */
    method GrowParents(leaf: Node, len: nat, ghost e: int)
      requires Synced() && Shape(tree, -1) && Root(tree) == root
      requires leaf in tree.at && Sums(tree.at, map[leaf := e]) && e + len == NodeLen(tree.at[leaf])
      modifies this`tree, tree.at.Keys`children
      ensures Synced() && tree.rows == old(tree.rows) && tree.at.Keys == old(tree.at.Keys)
      ensures LengthsOnly(old(tree.at), tree.at, 0) && Sums(tree.at, map[])
    {
      hide *;
      ghost var t := tree;
      var node := leaf;
      NodeFields(node);
      var parent := node.parent;
      ghost var sum := e;
      LengthsSame(t.at, 0);
      ShapeRooted(t, -1);
      while parent != null
        invariant Synced() && tree.rows == t.rows && LengthsOnly(t.at, tree.at, 0) && tree.at.Keys == t.at.Keys
        invariant Shape(tree, -1) && Rooted(tree) && Root(tree) == root
        invariant node in tree.at && parent == tree.at[node].parent
        invariant Sums(tree.at, map[node := sum]) && sum + len == NodeLen(tree.at[node])
        decreases |tree.rows| - tree.at[node].height
      {
        var p: Node := parent;
        ghost var u := tree;
        ghost var s := NodeSpot(u, node);
        EntryOf(u.at, map[node := sum], p, s.k, node);
        ChangeEntry(p, node, len, s.k);
        GrowStep(u, node, s, len, sum, tree.at);
        SameTree(tree, u.rows);
        LengthsTrans(t.at, u.at, tree.at, 0, s.h);
        SameKeys(u.at, tree.at, s.h);
        sum := NodeLen(u.at[p]);
        node := p;
        NodeFields(node);
        parent := node.parent;
      }
      NoParent(tree, node);
      GrowEnd(tree, root, sum);
    }

    /** The leaf to insert into: with two free slots, after a split if need be. */
    method InsertionLeaf(offset: nat) returns (leaf: Node, within: nat, ghost place: nat)
      requires Valid() && offset <= length
      modifies this`cached, this`cachedOffset, this`cachedPlace, this`tree, tree.at.Keys
      ensures Valid() && AllRuns(tree) == old(AllRuns(tree))
      ensures forall n :: n in tree.at ==> n in old(tree.at) || fresh(n)
      ensures Found(tree, leaf, place, within, offset) && |tree.at[leaf].runs| <= MAX_RUNS - 3
      ensures cached == leaf && cachedOffset + within == offset && cachedPlace == place
      ensures old(Spare(tree)) ==> Spare(tree)
      ensures old(Leaves(tree)) != [] && Leaves(tree) == Roomed(old(Leaves(tree)), offset)
      ensures |AllRuns(tree)| < MAX_RUNS - 2 ==> tree == old(tree)
    {
      hide *;
      leaf, within, place := Search(offset);
      OpenValid();
      FoundLeaf(tree, root, leaf, place, within, offset);
      NeedsSplitMeans(leaf, null);
      RoomedIs(tree, root, leaf, place, within, offset);
      if NeedsSplit(leaf) {
        NearlyFullLeaf(tree, root, leaf, place, within, offset);
        ghost var t, leaf1, place1, within1 := tree, leaf, place, within;
        ghost var right, j;
        right, j := NodeSplit(leaf, null);
        SplitText(t, tree, leaf);
        MakeValid();
        leaf, within, place := Search(offset);
        FoundInHalf(t, tree, root, leaf1, right, j, place1, within1, offset, leaf, place, within);
        SplitSpare(t, tree, root, leaf1, right, j);
        RoomedHalved(t, tree, root, leaf1, right, j, place1, within1, offset);
      }
    }

    /** Gives a leaf its new runs, `len` characters longer, and tells the parents. */
    method StoreLonger(leaf: Node, out: seq<Run>, len: nat, ghost t: Tree, ghost place: nat, ghost within: nat,
                       ghost offset: nat)
      requires Synced() && tree == t && Whole(t, root, null) && Found(t, leaf, place, within, offset)
      requires Positive(out) && |t.at[leaf].runs| <= |out| < MAX_RUNS
      requires Total(out) == Total(t.at[leaf].runs) + len
      modifies this`tree, t.at.Keys
      ensures Synced() && Whole(tree, root, null) && tree.at.Keys == t.at.Keys && tree.rows == t.rows
      ensures AllRuns(tree) == AllRuns(WithRuns(t, leaf, out)) && Leaves(tree) == Leaves(WithRuns(t, leaf, out))
      ensures CachedAt(tree, leaf, offset - within, place)
      ensures Spare(t) ==> Spare(tree)
    {
      LeafFacts(t, root, null, leaf, place);
      SetRuns(leaf, out);
      LeafChanged(t, root, leaf, place, out);
      ghost var u := tree;
      GrowParents(leaf, len, NodeLen(t.at[leaf]));
      LengthsList(u.at, tree.at, 0, t.rows[0]);
      SettledWhole(WithRuns(t, leaf, out), tree.at, root, null);
      StillCached(t, tree.at, root, leaf, place, within, offset, out);
      KeptSpare(t, tree, leaf, out);
    }

    /** The runs of the leaf with one more run put in; the leaf of an empty region has none yet. */
    method RunsWith(offset: nat, runs: seq<Run>, within: nat, x: Run) returns (out: seq<Run>)
      requires SoundJoin(join) && Positive(runs) && x.length > 0 && within <= Total(runs) && within <= offset
      ensures Positive(out) && Expand(out) == InsertFlat(Expand(runs), within, x)
      ensures |runs| <= |out| <= |runs| + 2
      ensures RefusesAll(join) ==> out == With(runs, within, x)
      ensures out == Joining(join, offset, runs, within, x)
    {
      if runs == [] {
        FirstRun(x);
        assert With(runs, within, x) == [x];
        return [x];
      }
      out := InsertIntoRuns(join, offset, runs, within, x);
    }

    method RunsAtLeaf(leaf: Node) returns (runs: seq<Run>)
      requires Synced() && leaf in tree.at
      ensures runs == tree.at[leaf].runs
    {
      assert SyncAt(leaf);
      runs := leaf.runs;
    }

    /** Finds the leaf for a run, with room, and what its runs are to be. */
    method PrepareInsert(offset: nat, x: Run)
      returns (leaf: Node, out: seq<Run>, ghost t: Tree, ghost place: nat, ghost within: nat)
      requires Valid() && offset <= length && x.length > 0
      modifies this`cached, this`cachedOffset, this`cachedPlace, this`tree, tree.at.Keys
      ensures Synced() && tree == t && Whole(t, root, null) && SoundJoin(join) && AllRuns(t) == old(AllRuns(tree))
      ensures forall n :: n in t.at ==> n in old(tree.at) || fresh(n)
      ensures Insertion(t, leaf, place, within, offset, out, x)
      ensures cached == leaf && cachedOffset + within == offset && cachedPlace == place
      ensures leaf in t.at && (RefusesAll(join) ==> AllRuns(WithRuns(t, leaf, out)) == With(AllRuns(t), offset, x))
      ensures old(Spare(tree)) ==> Spare(t)
      ensures old(Leaves(tree)) != [] && Leaves(WithRuns(t, leaf, out)) == Put(join, old(Leaves(tree)), offset, x)
      ensures |AllRuns(t)| < MAX_RUNS - 2 ==> t == old(tree)
    {
      hide *;
      OpenValid();
      ghost var l := Leaves(tree);
      var w: nat;
      leaf, w, place := InsertionLeaf(offset);
      OpenValid();
      t, within := tree, w;
      FoundLeaf(t, root, leaf, place, w, offset);
      var runs := RunsAtLeaf(leaf);
      out := RunsWith(offset, runs, w, x);
      InsertionReady(t, root, leaf, place, w, offset, out, x);
      PutIs(t, root, join, l, leaf, place, w, offset, out, x);
      if RefusesAll(join) {
        InsertedRuns(t, root, leaf, place, w, offset, out, x);
      }
    }

    method InsertRun(offset: nat, x: Run)
      requires Valid() && offset <= length && x.length > 0
      modifies this, tree.at.Keys
      ensures Valid()
      ensures forall n :: n in tree.at ==> n in old(tree.at) || fresh(n)
      ensures Text() == InsertFlat(old(Text()), offset, x)
      ensures length == old(length) + x.length
      ensures old(Spare(tree)) ==> Spare(tree)
      ensures RefusesAll(join) ==> AllRuns(tree) == With(old(AllRuns(tree)), offset, x)
      ensures old(Leaves(tree)) != [] && Leaves(tree) == Put(join, old(Leaves(tree)), offset, x)
      ensures old(|AllRuns(tree)|) < MAX_RUNS - 2 ==> tree.rows == old(tree.rows)
    {
      hide *;
      OpenValid();
      var leaf, out, t, place, within := PrepareInsert(offset, x);
      InsertionMeans(t, root, leaf, place, within, offset, out, x);
      StoreLonger(leaf, out, x.length, t, place, within, offset);
      length := length + x.length;
      MakeValid();
    }

    /** Puts a run of `len` characters in at `offset`. */
    method Insert(offset: nat, len: nat, data: Data)
      requires Valid() && offset <= length
      modifies this, tree.at.Keys
      ensures Valid()
      ensures forall n :: n in tree.at ==> n in old(tree.at) || fresh(n)
      ensures Text() == InsertFlat(old(Text()), offset, Run(len, data))
      ensures length == old(length) + len
      ensures old(Spare(tree)) ==> Spare(tree)
      ensures RefusesAll(join) && len > 0 ==> AllRuns(tree) == With(old(AllRuns(tree)), offset, Run(len, data))
      ensures len > 0 ==>
        old(Leaves(tree)) != [] && Leaves(tree) == Put(join, old(Leaves(tree)), offset, Run(len, data))
      ensures old(|AllRuns(tree)|) < MAX_RUNS - 2 ==> tree.rows == old(tree.rows)
      ensures len == 0 ==> tree == old(tree)
    {
      if len == 0 {
        InsertNothing(Text(), offset, data);
      } else {
        InsertRun(offset, Run(len, data));
      }
    }

    // ---------------------------------------------------------------- compaction of leaves

    /** Tells the parents of `target` about the characters it has been given. */
    method Flush(target: Node, added: nat, ghost gap: int, ghost low: Node?, ghost e: int)
      requires Synced() && Loose(tree, gap, root, low, target, e) && e + added == NodeLen(tree.at[target])
      requires gap < tree.at[target].height && cached == null
      modifies this`cached, this`cachedOffset, this`tree, tree.at.Keys
      ensures Synced() && Gapped(tree, gap, root, low) && cached == null
      ensures tree.rows == old(tree.rows) && LengthsOnly(old(tree.at), tree.at, old(tree.at[target].height))
      ensures tree.at.Keys == old(tree.at.Keys) && AllRuns(tree) == old(AllRuns(tree))
      ensures Leaves(tree) == old(Leaves(tree))
    {
      hide *;
      ghost var t := tree;
      LooseMeans(t, gap, root, low, target, e);
      AddToParents(target, added, gap, map[target := e]);
      SameKeys(t.at, tree.at, t.at[target].height);
      Flushed(t, tree.at, gap, root, low, target, e, added);
      LengthsLeaves(t, tree, t.at[target].height);
      assert tree == Tree(tree.at, t.rows);
    }

    /** A nearly full leaf that takes runs is split; `j` is its place. */
    method SplitTarget(target: Node, added: nat, ghost low: Node?, ghost e: int, ghost c: nat, ghost j: nat,
                       ghost front: seq<Run>, ghost back: seq<Run>) returns (right: Node)
      requires Synced() && Filling(tree, root, low, target, e, added, c, j, front, back) && (c == j || c == j + 1)
      requires |tree.at[target].runs| >= MAX_RUNS - 1 && cached == null
      modifies this`cached, this`cachedOffset, this`tree, tree.at.Keys
      ensures Synced() && cached == null && target in tree.at && right in tree.at
      ensures |tree.at[target].runs| <= MAX_RUNS / 2 && |tree.at[right].runs| <= MAX_RUNS / 2
      ensures HasPlace(old(tree), old(tree.at[target]).parent) ==>
        Upper(old(tree), tree, 0, old(tree.at[target]).parent, 1)
      ensures c == j ==> Filling(tree, root, low, target, NodeLen(tree.at[target]), 0, j, j, front, back)
      ensures c == j + 1 ==> Filling(tree, root, low, right, NodeLen(tree.at[right]), 0, j + 2, j + 1, front, back)
      ensures forall n :: n in tree.at ==> n in old(tree.at) || fresh(n)
      ensures old(tree.at).Keys <= tree.at.Keys
      ensures (Spare(old(tree)) ==> Spare(tree)) && (Headroom(old(tree)) ==> Headroom(tree))
      ensures |old(tree).rows| > 0 && j < |Leaves(old(tree))| && |tree.rows| > 0
      ensures Leaves(tree) == Halved(Leaves(old(tree)), j)
    {
      hide *;
      ghost var t := tree;
      FillingMeans(t, root, low, target, e, added, c, j, front, back);
      FillingPlace(t, root, low, target, e, added, c, j, front, back);
      Flush(target, added, -1, low, e);
      ghost var u := tree;
      WholeGapped(u, root, low);
      FillingFlushed(t, u, root, low, target, e, added, c, j, front, back);
      FlushPlace(t, u, t.at[target].parent);
      ghost var i;
      right, i := NodeSplit(target, low);
      KeptKeys(u, tree, target);
      FillingSplit(u, tree, root, low, target, right, c, j, i, front, back);
      FilledHalved(u, tree, root, low, target, right, j, i);
      FlushSpare(t, u, tree, root, low, target, right, i);
      LengthsHeadroom(t, u, 0);
      if HasPlace(t, t.at[target].parent) {
        UpperSplit(t, u, tree, t.at[target].parent);
      }
    }

    /** Gives the leaf that is being filled its new runs. */
    method FillRuns(target: Node, out: seq<Run>, ghost low: Node?, ghost e: int, ghost added: nat, ghost c: nat,
                    ghost j: nat, ghost front: seq<Run>, ghost back: seq<Run>)
      requires Synced() && Filling(tree, root, low, target, e, added, c, j, front, back) && target in tree.at
      requires |out| < MAX_RUNS
      modifies this`tree, tree.at.Keys
      ensures Synced() && tree == WithRuns(old(tree), target, out) && tree.at.Keys == old(tree.at.Keys)
      ensures |old(tree).rows| > 0 && j < |Leaves(old(tree))| && |tree.rows| > 0
      ensures Leaves(tree) == Leaves(old(tree))[j := out]
      ensures (Spare(old(tree)) ==> Spare(tree)) && (Headroom(old(tree)) ==> Headroom(tree))
    {
      hide *;
      FillingPut(tree, root, low, target, e, added, c, j, front, back, out);
      WithSpare(tree, target, out);
      WithRunsHeadroom(tree, target, out);
      SetRuns(target, out);
    }

    /** One run goes in front of the runs of leaf `j`, which is split first when it is nearly full. */
    method FillFrontRun(target: Node, r: Run, ghost low: Node?, ghost e: int, added: nat, ghost j: nat,
                        ghost front: seq<Run>, ghost back: seq<Run>)
      returns (more: nat, ghost had: int, ghost cut: bool)
      requires Synced() && cached == null && r.length > 0
      requires Filling(tree, root, low, target, e, added, j, j, front, back)
      modifies this`cached, this`cachedOffset, this`tree, tree.at.Keys
      ensures Synced() && cached == null && Filling(tree, root, low, target, had, more, j, j, front, [r] + back)
      ensures |old(tree).rows| > 0 && j < |Leaves(old(tree))| && |tree.rows| > 0
      ensures Leaves(tree) == FrontOne(Leaves(old(tree)), j, r) && PassedOne(old(tree), tree, target, target, cut)
      ensures forall n :: n in tree.at ==> n in old(tree.at) || fresh(n)
      ensures old(tree.at).Keys <= tree.at.Keys
      ensures (Spare(old(tree)) ==> Spare(tree)) && (Headroom(old(tree)) ==> Headroom(tree))
    {
      hide *;
      ghost var t := tree;
      HalfLess();
      FillingMeans(t, root, low, target, e, added, j, j, front, back);
      FillingPlace(t, root, low, target, e, added, j, j, front, back);
      had, more, cut := e, added, false;
      var have := RunsAtLeaf(target);
      if |have| >= MAX_RUNS - 1 {
        var right := SplitTarget(target, added, low, e, j, j, front, back);
        had, more, cut := NodeLen(tree.at[target]), 0, true;
        have := RunsAtLeaf(target);
      }
      ghost var u := tree;
      FillingPlace(u, root, low, target, had, more, j, j, front, back);
      FillingMeans(u, root, low, target, had, more, j, j, front, back);
      FrontOneIs(Leaves(t), Leaves(u), j, r);
      FillingFront(u, root, low, target, had, more, j, r, front, back);
      FillRuns(target, [r] + have, low, had, more, j, j, front, back);
      more := more + r.length;
      PassedRun(t, u, target, target, [r] + have, cut);
    }

    /** One run goes behind the runs of leaf `j`; when that is nearly full it is split, and the right half takes it. */
    method FillBackRun(start: Node, r: Run, ghost low: Node?, ghost e: int, added: nat, ghost j: nat,
                       ghost front: seq<Run>, ghost back: seq<Run>)
      returns (target: Node, more: nat, ghost had: int, ghost k: nat, ghost cut: bool)
      requires Synced() && cached == null && r.length > 0
      requires Filling(tree, root, low, start, e, added, j + 1, j, front, back)
      modifies this`cached, this`cachedOffset, this`tree, tree.at.Keys
      ensures Synced() && cached == null && Filling(tree, root, low, target, had, more, k + 1, k, front + [r], back)
      ensures |old(tree).rows| > 0 && j < |Leaves(old(tree))| && |tree.rows| > 0
      ensures (Leaves(tree), k) == BackOne(Leaves(old(tree)), j, r) && PassedOne(old(tree), tree, start, target, cut)
      ensures forall n :: n in tree.at ==> n in old(tree.at) || fresh(n)
      ensures old(tree.at).Keys <= tree.at.Keys
      ensures (Spare(old(tree)) ==> Spare(tree)) && (Headroom(old(tree)) ==> Headroom(tree))
    {
      hide *;
      ghost var t := tree;
      HalfLess();
      FillingMeans(t, root, low, start, e, added, j + 1, j, front, back);
      FillingPlace(t, root, low, start, e, added, j + 1, j, front, back);
      target, had, more, k, cut := start, e, added, j, false;
      var have := RunsAtLeaf(start);
      if |have| >= MAX_RUNS - 1 {
        target := SplitTarget(start, added, low, e, j + 1, j, front, back);
        had, more, k, cut := NodeLen(tree.at[target]), 0, j + 1, true;
        have := RunsAtLeaf(target);
      }
      ghost var u := tree;
      FillingPlace(u, root, low, target, had, more, k + 1, k, front, back);
      FillingMeans(u, root, low, target, had, more, k + 1, k, front, back);
      BackOneIs(Leaves(t), Leaves(u), j, k, r);
      FillingBack(u, root, low, target, had, more, k, r, front, back);
      FillRuns(target, have + [r], low, had, more, k + 1, k, front, back);
      more := more + r.length;
      PassedRun(t, u, start, target, have + [r], cut);
    }

    /** Puts `runs` in front of the runs of leaf `j`, last one first. */
    method PushRunsFront(start: Node, runs: seq<Run>, ghost low: Node?, ghost j: nat, ghost front: seq<Run>,
        ghost back: seq<Run>)
      requires Synced() && Whole(tree, root, low) && cached == null && Positive(runs)
      requires Cut(tree, j, front, back) && j < |tree.rows[0]| && tree.rows[0][j] == start
      modifies this`cached, this`cachedOffset, this`tree, tree.at.Keys
      ensures Synced() && Whole(tree, root, low) && cached == null
      ensures AllRuns(tree) == front + (runs + back)
      ensures j < |Leaves(old(tree))| && Leaves(tree) == FillFront(Leaves(old(tree)), j, runs)
      ensures forall n :: n in tree.at ==> n in old(tree.at) || fresh(n)
      ensures old(tree.at).Keys <= tree.at.Keys
      ensures (Spare(old(tree)) ==> Spare(tree)) && (Headroom(old(tree)) ==> Headroom(tree))
      ensures HandedOver(old(tree), tree, start, |runs|)
    {
      hide *;
      ghost var t := tree;
      FillingStart(t, root, low, start, j, j, front, back);
      ghost var e, cut: bool := NodeLen(t.at[start]), false;
      var added: nat := 0;
      var i := |runs|;
      NoneYet(runs, back);
      FillingPlace(t, root, low, start, e, added, j, j, front, back);
      ghost var all := FillFront(Leaves(t), j, runs);
      FillsDone(Leaves(t), j, runs);
      PassedNone(t, start);
      while i > 0
        invariant 0 <= i <= |runs| && Synced() && cached == null
        invariant Filling(tree, root, low, start, e, added, j, j, front, runs[i..] + back)
        invariant |tree.rows| > 0 && j < |Leaves(tree)| && FillFront(Leaves(tree), j, runs[..i]) == all
        invariant Passed(t, tree, start, start, |runs| - i, cut)
        invariant forall n :: n in tree.at ==> n in t.at || fresh(n)
        invariant t.at.Keys <= tree.at.Keys
        invariant (Spare(t) ==> Spare(tree)) && (Headroom(t) ==> Headroom(tree))
      {
        ghost var u, now := tree, false;
        FrontStep(Leaves(u), j, runs, i, all);
        i := i - 1;
        PositiveAt(runs, i);
        added, e, now := FillFrontRun(start, runs[i], low, e, added, j, front, runs[i + 1..] + back);
        NextFront(runs, i, back);
        PassedMore(t, u, tree, start, start, start, |runs| - (i + 1), cut, now);
        cut := cut || now;
      }
      FillingMeans(tree, root, low, start, e, added, j, j, front, runs[0..] + back);
      FillsDone(Leaves(tree), j, runs);
      ghost var u := tree;
      Flush(start, added, -1, low, e);
      LengthsSpare(u, tree, 0);
      LengthsHeadroom(u, tree, 0);
      WholeGapped(tree, root, low);
      PassedAll(t, u, tree, start, start, |runs|, cut);
    }

    /** Puts `runs` behind the runs of leaf `place`, going on in the right half when the leaf is split. */
    method PushRunsBack(start: Node, runs: seq<Run>, ghost low: Node?, ghost place: nat, ghost front: seq<Run>,
        ghost back: seq<Run>)
      requires Synced() && Whole(tree, root, low) && cached == null && Positive(runs)
      requires Cut(tree, place + 1, front, back) && place < |tree.rows[0]| && tree.rows[0][place] == start
      modifies this`cached, this`cachedOffset, this`tree, tree.at.Keys
      ensures Synced() && Whole(tree, root, low) && cached == null
      ensures AllRuns(tree) == (front + runs) + back
      ensures place < |Leaves(old(tree))| && Leaves(tree) == FillBack(Leaves(old(tree)), place, runs)
      ensures forall n :: n in tree.at ==> n in old(tree.at) || fresh(n)
      ensures old(tree.at).Keys <= tree.at.Keys
      ensures (Spare(old(tree)) ==> Spare(tree)) && (Headroom(old(tree)) ==> Headroom(tree))
      ensures HandedOver(old(tree), tree, start, |runs|)
    {
      hide *;
      ghost var t := tree;
      ghost var j: nat := place;
      FillingStart(t, root, low, start, j + 1, j, front, back);
      var target := start;
      ghost var e, cut: bool := NodeLen(t.at[target]), false;
      var added: nat := 0;
      var i := 0;
      AllYet(runs, front);
      FillingPlace(t, root, low, target, e, added, j + 1, j, front, back);
      ghost var all := FillBack(Leaves(t), j, runs);
      FillsDone(Leaves(t), j, runs);
      PassedNone(t, start);
      while i < |runs|
        invariant 0 <= i <= |runs| && Synced() && cached == null
        invariant Filling(tree, root, low, target, e, added, j + 1, j, front + runs[..i], back)
        invariant |tree.rows| > 0 && j < |Leaves(tree)| && FillBack(Leaves(tree), j, runs[i..]) == all
        invariant Passed(t, tree, start, target, i, cut)
        invariant forall n :: n in tree.at ==> n in t.at || fresh(n)
        invariant t.at.Keys <= tree.at.Keys
        invariant (Spare(t) ==> Spare(tree)) && (Headroom(t) ==> Headroom(tree))
      {
        ghost var u, last, now := tree, target, false;
        BackStep(Leaves(u), j, runs, i, all);
        PositiveAt(runs, i);
        target, added, e, j, now := FillBackRun(target, runs[i], low, e, added, j, front + runs[..i], back);
        NextBack(runs, i, front);
        PassedMore(t, u, tree, start, last, target, i, cut, now);
        cut := cut || now;
        i := i + 1;
      }
      FillingMeans(tree, root, low, target, e, added, j + 1, j, front + runs[..|runs|], back);
      FillsDone(Leaves(tree), j, runs);
      ghost var u := tree;
      Flush(target, added, -1, low, e);
      LengthsSpare(u, tree, 0);
      LengthsHeadroom(u, tree, 0);
      WholeGapped(tree, root, low);
      PassedAll(t, u, tree, start, target, |runs|, cut);
    }

    // ---------------------------------------------------------------- taking a node out

    /** The node is no longer part of the tree. */
    ghost method DropNode(node: Node)
      requires Synced()
      modifies this`tree
      ensures Synced() && tree == Tree(old(tree.at) - {node}, old(tree.rows))
    {
      tree := Tree(tree.at - {node}, tree.rows);
      forall m | m in tree.at
        ensures SyncAt(m)
      {
        assert old(SyncAt(m));
      }
    }

    method WriteDetach(node: Node, parent: Node, left: Node?, right: Node?, cs: seq<Child>)
      requires Synced() && parent in tree.at
      requires (left != null ==> left in tree.at) && (right != null ==> right in tree.at)
      modifies this`tree, tree.at.Keys
      ensures Synced() && tree == Tree(DetachWrites(old(tree.at), node, parent, left, right, cs), old(tree.rows))
    {
      SetChildren(parent, cs);
      if left != null {
        SetNext(left, right);
      }
      if right != null {
        SetPrev(right, left);
      }
      DropNode(node);
    }

    /** Unlinks a node from its siblings and from its parent. */
    method Detach(node: Node, ghost s: Spot)
      requires Synced() && CanDetach(tree, node, s)
      modifies this`tree, tree.at.Keys
      ensures Synced() && DetachDone(old(tree.at), tree.at, node, s.k)
      ensures s.h < |old(tree.rows)| && s.j < |old(tree.rows)[s.h]| && tree == Detached(old(tree), tree.at, s)
    {
      hide *;
      ghost var t := tree;
      DetachFacts(t, node, s);
      NodeFields(node);
      var parent: Node := node.parent;
      NodeFields(parent);
      var children := parent.children;
      var i := FindChild(children, node, s.k);
      SpotUnique(t, -1, node, s, i);
      var cs := Splice(children, i, i + 1, []);
      DetachWritesDone(t.at, node, i, cs);
      WriteDetach(node, parent, node.prev, node.next, cs);
      DetachedIs(t, tree.at, s);
      SetRows(t.rows[s.h := Narrowed(t.rows[s.h], s.j)]);
    }

    /** Takes the length of a node off its parents and the node itself out of the tree. */
    method TakeOut(node: Node, len: int, ghost s: Spot)
      requires Synced() && Whole(tree, root, node) && At(tree, node, s) && |tree.rows[s.h]| >= 2
      requires len == NodeLen(tree.at[node]) && cached == null
      modifies this`cached, this`cachedOffset, this`tree, tree.at.Keys
      ensures Synced() && TakenOut(old(tree), tree, root, node, s) && cached == null
      ensures tree.at.Keys <= old(tree).at.Keys
    {
      hide *;
      ghost var t := tree;
      EmptyEntry(t, root, node, node, s);
      SubtractFromParents(node, len, -1, map[node := len]);
      ghost var mid := tree.at;
      SameKeys(t.at, mid, t.at[node].height);
      EmptiedSpot(t, mid, root, node, s);
      Detach(node, s);
      TakenOutDone(t, mid, tree.at, root, node, s);
      TakenKeys(t, tree, root, node, s);
    }

    // ---------------------------------------------------------------- compaction of branches

    method WritePush(target: Node, c: Child, cs: seq<Child>)
      requires Synced() && target in tree.at && c.node in tree.at
      modifies this`tree, tree.at.Keys
      ensures Synced() && tree == Tree(PushWrites(old(tree.at), target, c, cs), old(tree.rows))
    {
      SetParent(c.node, target);
      SetChildren(target, cs);
    }

    /** Splits a branch that takes children, unless its parent is full: then the program stops. */
    method SplitForKids(ghost t0: Tree, ghost h: nat, ghost low: Node?, ghost node: Node, ghost w: Hand,
                        target: Node, added: nat)
      returns (ok: bool, right: Node, ghost x: Hand)
      requires Synced() && Handing(t0, tree, h, root, low, node, w) && target == w.target && added == w.added
      requires !w.cut && w.q in t0.at && t0.at[w.q].height == h + 1 < |t0.rows| && (w.c == w.j || w.c == w.j + 1)
      requires |tree.at[target].kids| >= MAX_BRANCHES - 1 && cached == null
      modifies this`cached, this`cachedOffset, this`tree, tree.at.Keys
      ensures Synced() && cached == null
      ensures forall n :: n in tree.at ==> n in old(tree.at) || fresh(n)
      ensures ok <==> |t0.at[w.q].kids| < MAX_BRANCHES
      ensures ok ==> Handing(t0, tree, h, root, low, node, x) && x.added == 0
      ensures ok ==> x.target in tree.at && |tree.at[x.target].kids| <= MAX_BRANCHES / 2
      ensures ok ==> x.cut && x.limbo == w.limbo && x.front == w.front && x.back == w.back && x.q == w.q
      ensures ok && w.c == w.j ==> x.target == target && x.c == w.c && x.j == w.j
      ensures ok && w.c == w.j + 1 ==> x.target == right && x.c == w.c + 1 && x.j == w.j + 1
    {
      hide *;
      ghost var t := tree;
      HandingMeans(t0, t, h, root, low, node, w);
      right, x := target, w;
      Flush(target, added, h - 1, low, w.e);
      ghost var u := tree;
      HandPaused(t0, t, u, h, root, low, node, w);
      PausedMeans(t0, u, h, root, low, node, w);
      ghost var s := TargetParent(t0, u, h, root, low, node, w);
      NodeFields(target);
      var parent: Node := target.parent;
      NodeFields(parent);
      ok := |parent.children| < MAX_BRANCHES;
      if ok {
        FullKids(u, target);
        right := BranchSplit(target, h - 1, s);
        if w.c == w.j {
          HandSplitFront(t0, u, h, root, low, node, w, s, right, tree.at);
          x := w.(cut := true);
        } else {
          HandSplitBack(t0, u, h, root, low, node, w, s, right, tree.at);
          x := w.(target := right, c := w.c + 1, j := w.j + 1, cut := true);
        }
        SplitTreeAt(u, tree.at, s, right);
        HandResumed(t0, tree, h, root, low, node, x);
        x := x.(e := NodeLen(tree.at[x.target]), added := 0);
      }
    }

    /** One child joins the children of `target`, in front of them or behind them. */
    method PushKid(target: Node, c: Child, front: bool, ghost t0: Tree, ghost h: nat, ghost low: Node?,
                   ghost node: Node, ghost w: Hand, ghost rest: seq<Child>, ghost start: Node, ghost n: nat)
      requires Synced() && Handing(t0, tree, h, root, low, node, w) && w.target == target
      requires w.limbo == (if front then rest + [c] else [c] + rest) && w.c == (if front then w.j else w.j + 1)
      requires start in t0.at && |w.limbo| <= n && target in tree.at && Counted(t0, tree, start, w, n)
      requires |tree.at[target].kids| < MAX_BRANCHES - 1
      modifies this`tree, tree.at.Keys
      ensures Synced() && tree.at.Keys == old(tree.at).Keys
      ensures Handing(t0, tree, h, root, low, node, Handed(w, c, rest, front))
      ensures Counted(t0, tree, start, Handed(w, c, rest, front), n)
    {
      hide *;
      ghost var t := tree;
      HandingKid(t0, t, h, root, low, node, w, c, rest);
      HandedIs(w, c, rest, front);
      NodeFields(target);
      var cs := if front then [c] + target.children else target.children + [c];
      PushWritesDone(t.at, target, c, cs);
      WritePush(target, c, cs);
      if front {
        HandedFront(t0, t, tree.at, h, root, low, node, w, c, rest);
      } else {
        HandedBack(t0, t, tree.at, h, root, low, node, w, c, rest);
      }
      CountedStep(t0, t, tree, start, w, Handed(w, c, rest, front), n);
    }

    /** A target without a free slot is split before it takes a child; not ok means that the program stops. */
    method RoomForKid(target: Node, added: nat, front: bool, ghost t0: Tree, ghost h: nat, ghost low: Node?,
                      ghost node: Node, ghost w: Hand, ghost start: Node, ghost n: nat)
      returns (ok: bool, into: Node, more: nat, ghost x: Hand)
      requires Synced() && Handing(t0, tree, h, root, low, node, w) && target == w.target && added == w.added
      requires w.q in t0.at && t0.at[w.q].height == h + 1 < |t0.rows| && w.c == (if front then w.j else w.j + 1)
      requires start in t0.at && t0.at[start].parent == w.q && target in tree.at
      requires 0 < |w.limbo| <= n < MIN_BRANCHES && Counted(t0, tree, start, w, n) && cached == null
      requires w.cut ==> |t0.at[w.q].kids| < MAX_BRANCHES
      modifies this`cached, this`cachedOffset, this`tree, tree.at.Keys
      ensures Synced() && cached == null
      ensures forall m :: m in tree.at ==> m in old(tree.at) || fresh(m)
      ensures !ok ==> Overfull(t0, start, n)
      ensures ok ==> Handing(t0, tree, h, root, low, node, x) && into == x.target && more == x.added
      ensures ok ==> into in tree.at && |tree.at[into].kids| < MAX_BRANCHES - 1
      ensures ok ==> x.limbo == w.limbo && x.front == w.front && x.back == w.back && x.q == w.q
      ensures ok ==> Counted(t0, tree, start, x, n) && (x.cut ==> |t0.at[w.q].kids| < MAX_BRANCHES)
      ensures ok ==> x.c == (if front then x.j else x.j + 1) && (front ==> into == target)
    {
      hide *;
      CountedMeans(t0, tree, start, w, n);
      NodeFields(target);
      ok, into, more, x := true, target, added, w;
      if |target.children| >= MAX_BRANCHES - 1 {
        ghost var t := tree;
        var right;
        ok, right, x := SplitForKids(t0, h, low, node, w, target, added);
        OverfullMeans(t0, t, h, root, low, node, w, start, n);
        if ok {
          CountedCut(t0, t, tree, start, w, x, n);
          into, more := if front then target else right, 0;
        }
      }
    }

    /** The next child goes to the target, which is split before if need be; not ok means that the program stops. */
    method HandKid(target: Node, added: nat, c: Child, front: bool, ghost t0: Tree, ghost h: nat, ghost low: Node?,
                   ghost node: Node, ghost w: Hand, ghost rest: seq<Child>, ghost start: Node, ghost n: nat)
      returns (ok: bool, into: Node, more: nat, ghost x: Hand)
      requires Synced() && Handing(t0, tree, h, root, low, node, w) && target == w.target && added == w.added
      requires w.q in t0.at && t0.at[w.q].height == h + 1 < |t0.rows| && w.c == (if front then w.j else w.j + 1)
      requires start in t0.at && t0.at[start].parent == w.q && target in tree.at
      requires w.limbo == (if front then rest + [c] else [c] + rest) && |w.limbo| <= n < MIN_BRANCHES
      requires Counted(t0, tree, start, w, n) && cached == null
      requires w.cut ==> |t0.at[w.q].kids| < MAX_BRANCHES
      modifies this`cached, this`cachedOffset, this`tree, tree.at.Keys
      ensures Synced() && cached == null
      ensures forall m :: m in tree.at ==> m in old(tree.at) || fresh(m)
      ensures !ok ==> Overfull(t0, start, n)
      ensures ok ==> Handing(t0, tree, h, root, low, node, x) && into == x.target && more == x.added
      ensures ok ==> into in tree.at && x.limbo == rest && x.q == w.q
      ensures ok ==> x.front == if front then w.front else w.front + [c.node]
      ensures ok ==> x.back == if front then [c.node] + w.back else w.back
      ensures ok ==> Counted(t0, tree, start, x, n) && (x.cut ==> |t0.at[w.q].kids| < MAX_BRANCHES)
      ensures ok ==> x.c == (if front then x.j else x.j + 1) && (front ==> into == target)
    {
      hide *;
      ok, into, more, x := RoomForKid(target, added, front, t0, h, low, node, w, start, n);
      if ok {
        PushKid(into, c, front, t0, h, low, node, x, rest, start, n);
        HandedIs(x, c, rest, front);
        x, more := Handed(x, c, rest, front), more + c.length;
      }
    }

    /** Hands `kids` over to the front of `target`, last one first; not ok means that the program stops. */
    method PushKidsFront(target: Node, kids: seq<Child>, ghost t0: Tree, ghost h: nat, ghost low: Node?,
                         ghost node: Node, ghost w0: Hand) returns (ok: bool)
      requires Synced() && tree == t0 && Paused(t0, t0, h, root, low, node, w0) && cached == null
      requires w0.target == target && w0.limbo == kids && w0.c == w0.j && !w0.cut && 0 < |kids| < MIN_BRANCHES
      requires w0.q in t0.at && t0.at[w0.q].height == h + 1 < |t0.rows|
      requires t0.rows[h - 1] == w0.front + KidNodes(kids) + w0.back
      modifies this`cached, this`cachedOffset, this`tree, tree.at.Keys
      ensures Synced() && cached == null
      ensures forall n :: n in tree.at ==> n in old(tree.at) || fresh(n)
      ensures ok <==> !Overfull(t0, target, |kids|)
      ensures ok ==> Whole(tree, root, low) && Below(t0, tree, h)
      ensures ok ==>
        target in t0.at && Upper(t0, tree, h, w0.q, if |t0.at[target].kids| + |kids| >= MAX_BRANCHES then 1 else 0)
    {
      hide *;
      PausedMeans(t0, t0, h, root, low, node, w0);
      HandResumed(t0, t0, h, root, low, node, w0);
      ghost var w := w0.(e := NodeLen(t0.at[target]), added := 0);
      CountedFirst(t0, target, w);
      var added: nat := 0;
      var i := |kids|;
      KidsNone(kids, w0.back);
      while i > 0
        invariant 0 <= i <= |kids| && Synced() && cached == null
        invariant Handing(t0, tree, h, root, low, node, w) && w.added == added && w.target == target && w.q == w0.q
        invariant w.limbo == kids[..i] && w.c == w.j && w.front == w0.front && w.back == KidNodes(kids[i..]) + w0.back
        invariant target in tree.at && Counted(t0, tree, target, w, |kids|)
        invariant w.cut ==> |t0.at[w.q].kids| < MAX_BRANCHES
        invariant forall n :: n in tree.at ==> n in t0.at || fresh(n)
      {
        i := i - 1;
        KidsBefore(kids, i, w0.back);
        var room, _, more, x := HandKid(target, added, kids[i], true, t0, h, low, node, w, kids[..i], target, |kids|);
        if !room {
          return false;
        }
        w, added := x, more;
        HandingMeans(t0, tree, h, root, low, node, w);
      }
      CountedMeans(t0, tree, target, w, |kids|);
      ghost var t := tree;
      HandingMeans(t0, t, h, root, low, node, w);
      Flush(target, added, h - 1, low, w.e);
      FrontDone(w0.front, kids, w0.back);
      HandEnd(t0, t, tree, h, root, low, node, w, t0.rows[h - 1]);
      ok := true;
      NotOverfull(t0, tree, h, w, target, |kids|);
    }

    /** Hands `kids` over to the back of `start`, going on in the right half when it is split. */
    method PushKidsBack(start: Node, kids: seq<Child>, ghost t0: Tree, ghost h: nat, ghost low: Node?, ghost node: Node,
                        ghost w0: Hand) returns (ok: bool)
      requires Synced() && tree == t0 && Paused(t0, t0, h, root, low, node, w0) && cached == null
      requires w0.target == start && w0.limbo == kids && w0.c == w0.j + 1 && !w0.cut && 0 < |kids| < MIN_BRANCHES
      requires w0.q in t0.at && t0.at[w0.q].height == h + 1 < |t0.rows|
      requires t0.rows[h - 1] == w0.front + KidNodes(kids) + w0.back
      modifies this`cached, this`cachedOffset, this`tree, tree.at.Keys
      ensures Synced() && cached == null
      ensures forall n :: n in tree.at ==> n in old(tree.at) || fresh(n)
      ensures ok <==> !Overfull(t0, start, |kids|)
      ensures ok ==> Whole(tree, root, low) && Below(t0, tree, h)
      ensures ok ==>
        start in t0.at && Upper(t0, tree, h, w0.q, if |t0.at[start].kids| + |kids| >= MAX_BRANCHES then 1 else 0)
    {
      hide *;
      PausedMeans(t0, t0, h, root, low, node, w0);
      HandResumed(t0, t0, h, root, low, node, w0);
      ghost var w := w0.(e := NodeLen(t0.at[start]), added := 0);
      CountedFirst(t0, start, w);
      var target := start;
      var added: nat := 0;
      var i := 0;
      KidsAll(kids, w0.front);
      while i < |kids|
        invariant 0 <= i <= |kids| && Synced() && cached == null
        invariant Handing(t0, tree, h, root, low, node, w) && w.added == added && w.target == target && w.q == w0.q
        invariant w.limbo == kids[i..] && w.c == w.j + 1 && w.front == w0.front + KidNodes(kids[..i])
          && w.back == w0.back
        invariant target in tree.at && Counted(t0, tree, start, w, |kids|)
        invariant w.cut ==> |t0.at[w.q].kids| < MAX_BRANCHES
        invariant forall n :: n in tree.at ==> n in t0.at || fresh(n)
      {
        KidsAfter(kids, i, w0.front);
        var room, into, more, x :=
          HandKid(target, added, kids[i], false, t0, h, low, node, w, kids[i + 1..], start, |kids|);
        if !room {
          return false;
        }
        w, target, added := x, into, more;
        HandingMeans(t0, tree, h, root, low, node, w);
        i := i + 1;
      }
      CountedMeans(t0, tree, start, w, |kids|);
      ghost var t := tree;
      HandingMeans(t0, t, h, root, low, node, w);
      Flush(target, added, h - 1, low, w.e);
      HandEnd(t0, t, tree, h, root, low, node, w, t0.rows[h - 1]);
      ok := true;
      NotOverfull(t0, tree, h, w, start, |kids|);
    }

    method WriteCollapse(node: Node, parent: Node, d: Node, cs: seq<Child>, ghost height: nat)
      requires Synced() && parent in tree.at && d in tree.at
      modifies this`tree, tree.at.Keys
      ensures Synced() && tree == Tree(CollapseWrites(old(tree.at), parent, node, d, cs, height), old(tree.rows))
    {
      SetChildren(parent, cs);
      SetParent(d, parent);
      SetHeight(parent, height);
      DropNode(node);
    }

    /** The only child of a branch without siblings takes its place below the root. */
    method Collapse(node: Node, ghost s: Spot)
      requires Synced() && Whole(tree, root, node) && At(tree, node, s) && s.h > 0
      requires |tree.at[node].kids| == 1 && |tree.at[tree.at[node].parent].kids| == 1
      modifies this`tree, tree.at.Keys
      ensures Synced() && Whole(tree, root, null) && Whole(tree, root, root)
      ensures AllRuns(tree) == old(AllRuns(tree)) && (old(Spare(tree)) ==> Spare(tree))
      ensures Leaves(tree) == old(Leaves(tree))
      ensures root in tree.at && tree.at[root].parent == null
      ensures |tree.rows| == |old(tree).rows| - 1 && tree.at[root].height == old(tree).at[node].height
      ensures forall n :: n in tree.at ==> n in old(tree.at)
    {
      hide *;
      ghost var t := tree;
      LoneParent(t, root, node, s);
      SpotMeans(t, node, s);
      NodeFields(node);
      var parent: Node := node.parent;
      NodeFields(parent);
      var d := node.children[0].node;
      var i := FindChild(parent.children, node, s.k);
      var cs := [Child(d, parent.children[i].length)];
      CollapseWritesDone(t, root, node, d, cs);
      WriteCollapse(node, parent, d, cs, t.at[node].height);
      ghost var bt := tree.at;
      LoweredIs(t, bt, root);
      Collapsed(t, bt, root, node, d);
      CollapsedKeys(t.at, bt, root, node, d);
      SetRows(t.rows[..|t.rows| - 2] + [[root]]);
    }

    /** Takes a branch out and hands its children to a neighbour; not ok means that the program stops. */
    method Dissolve(node: Node, ghost s: Spot, ghost d: nat) returns (ok: bool)
      requires Synced() && Whole(tree, root, node) && At(tree, node, s) && s.h > 0 && d > 0 && cached == null
      requires Dissolves(tree.at, node, map[])
      modifies this`cached, this`cachedOffset, this`tree, tree.at.Keys
      ensures Synced() && cached == null
      ensures forall n :: n in tree.at ==> n in old(tree.at) || fresh(n)
      ensures !ok ==> Clashes(old(tree).at, node, map[], d)
      ensures ok ==> Whole(tree, root, old(tree).at[node].parent) && old(tree).at[node].parent in tree.at
      ensures ok ==> |tree.rows| == |old(tree).rows| && tree.at[old(tree).at[node].parent].height == s.h + 1
      ensures ok ==> AllRuns(tree) == AllRuns(old(tree)) && (Spare(old(tree)) ==> Spare(tree))
      ensures ok ==> Leaves(tree) == Leaves(old(tree))
      ensures ok ==> (Clashes(old(tree).at, node, map[], d) <==>
        Clashes(tree.at, old(tree).at[node].parent, map[], d - 1))
    {
      hide *;
      ghost var t := tree;
      DissolvesMeans(t, root, node, s);
      NodeFields(node);
      var kids, left, right := node.children, node.prev, node.next;
      var len: int := KidsLength(kids);
      TakeOut(node, len, s);
      ghost var u := tree;
      NeighbourIs(t, u, root, node, s);
      if left != null {
        NodeFields(left);
      }
      if right != null {
        NodeFields(right);
      }
      ghost var w;
      if left == null || (right != null && |left.children| > |right.children|) {
        w := HandStart(t, u, root, node, s, right, s.j, s.j);
        HandParent(t, u, root, node, s, right, w);
        ok := PushKidsFront(right, kids, u, s.h, t.at[node].parent, node, w);
        HandResult(t, u, tree, root, node, s, right, d, ok);
      } else {
        w := HandStart(t, u, root, node, s, left, s.j, s.j - 1);
        HandParent(t, u, root, node, s, left, w);
        ok := PushKidsBack(left, kids, u, s.h, t.at[node].parent, node, w);
        HandResult(t, u, tree, root, node, s, left, d, ok);
      }
    }

    /** Puts a branch that has lost a child in order, and then its parent; not ok means that the program stops. */
    method BranchCompact(node: Node) returns (ok: bool)
      requires Synced() && Whole(tree, root, node) && node in tree.at && !node.isLeaf && cached == null
      modifies this`cached, this`cachedOffset, this`tree, tree.at.Keys
      ensures Synced() && cached == null
      ensures forall n :: n in tree.at ==> n in old(tree.at) || fresh(n)
      ensures ok <==> !ClashesFrom(old(tree), node)
      ensures ok ==> Whole(tree, root, null) && AllRuns(tree) == AllRuns(old(tree)) && Leaves(tree) == Leaves(old(tree))
      ensures ok ==> (Spare(old(tree)) ==> Spare(tree))
      decreases |tree.rows| - tree.at[node].height
    {
      hide *;
      ghost var t := tree;
      ok := true;
      BranchFacts(t, root, node);
      NodeFields(node);
      if node.parent == null {
        CompactRoot(t, root);
        return;
      }
      ghost var s := ParentSpot(t, node, root, node);
      SpotMeans(t, node, s);
      var parent: Node := node.parent;
      NodeFields(parent);
      DissolvesIs(t, node);
      if |node.children| == 1 && |parent.children| == 1 {
        LoneParent(t, root, node, s);
        Collapse(node, s);
        CollapsedRoot(t, tree, root, node);
        ok := BranchCompact(parent);
        return;
      }
      if node.prev == null && node.next == null {
        CompactSole(t, root, node, s);
        return;
      }
      if |node.children| >= MIN_BRANCHES {
        CompactFull(t, root, node);
        return;
      }
      ghost var d: nat := Top(t) - s.h;
      ok := Dissolve(node, s, d);
      if ok {
        ClashesOneUp(t, tree, root, node, s, parent, d);
        ok := BranchCompact(parent);
      } else {
        ClashesNow(t, node, s, d);
      }
    }

    /**
     * Merges a leaf with too few runs into a neighbour; not ok means that the program stops, which it does
     * exactly if the compaction of the parent clashes in the tree `mid` that is there once the runs have moved.
     */
    method LeafCompact(node: Node, ghost j: nat) returns (ok: bool, ghost mid: Tree)
      requires Synced() && Whole(tree, root, node) && node in tree.at && node.isLeaf && cached == null
      requires j < |tree.rows[0]| && tree.rows[0][j] == node
      modifies this`cached, this`cachedOffset, this`tree, tree.at.Keys
      ensures Synced() && cached == null
      ensures forall n :: n in tree.at ==> n in old(tree.at) || fresh(n)
      ensures ok ==> Whole(tree, root, null) && AllRuns(tree) == AllRuns(old(tree))
      ensures ok ==> (Spare(old(tree)) ==> Spare(tree))
      ensures Headroom(old(tree)) ==> ok
      ensures |old(tree).rows| > 0 && (|old(tree).rows[0]| == 1 ==> ok && tree == old(tree))
      ensures ok && |old(tree).rows[0]| > 1 ==>
        |tree.rows| > 0 && j < |Leaves(old(tree))| && Leaves(tree) == MergeLeaf(Leaves(old(tree)), j)
      ensures |old(tree).rows[0]| > 1 ==>
        && old(tree).at[node].parent in mid.at && !old(tree).at[node].parent.isLeaf
        && Whole(mid, root, old(tree).at[node].parent) && |mid.rows| > 0 && AllRuns(mid) == AllRuns(old(tree))
        && j < |Leaves(old(tree))| && Leaves(mid) == MergeLeaf(Leaves(old(tree)), j)
        && (|old(tree).at[node].runs| < MIN_RUNS && !SplitsAbove(old(tree), node) ==>
              (ok <==> !LeafClashes(old(tree), node)))
        && (ok <==> !ClashesFrom(mid, old(tree).at[node].parent))
    {
      hide *;
      ghost var t := tree;
      mid := t;
      ghost var s := LeafSpot(t, root, node);
      NodeFields(node);
      AloneOnly(t, root, node, node, s);
      var left, right, runs := node.prev, node.next, node.runs;
      if left == null && right == null {
        SoleLeaf(t, root, node);
        return true, t;
      }
      var parent: Node := node.parent;
      HasSibling(t, root, node, node, s);
      NodeFields(parent);
      var i := FindChild(parent.children, node, s.k);
      SpotUnique(t, -1, node, s, i);
      TakeOut(node, parent.children[i].length, s);
      ghost var u := tree;
      LeafTaken(t, u, root, node, s);
      TakenList(t, u, root, node, s);
      NeighboursIn(t, u, root, node, s, j);
      LeafNeighbourIs(t, u, root, node, s);
      TakenSpare(t, u, root, node, s);
      TakenHeadroom(t, u, root, node, s);
      ghost var front, back := RunsOf(u.at, u.rows[0][..s.j]), RunsOf(u.at, u.rows[0][s.j..]);
      GlueRuns(front, runs, back);
      if left != null {
        NodeFields(left);
      }
      if right != null {
        NodeFields(right);
      }
      if left == null || (right != null && |left.runs| > |right.runs|) {
        PushRunsFront(right, runs, parent, s.j, front, back);
      } else {
        PushRunsBack(left, runs, parent, s.j - 1, front, back);
      }
      LeafHanded(t, u, tree, root, node, s);
      HeadroomEnough(tree, root, parent);
      mid := tree;
      MergeIs(Leaves(t), j);
      WholeMeans(mid, root, parent);
      ok := BranchCompact(parent);
      if ok {
        WholeMeans(tree, root, null);
      }
    }

    // ---------------------------------------------------------------- remove

    /** Gives a leaf its new runs, `cut` characters shorter, and tells the parents. */
    method StoreShorter(leaf: Node, out: seq<Run>, cut: int, ghost t: Tree, ghost place: nat)
      requires Synced() && tree == t && Whole(t, root, null) && place < |t.rows[0]| && t.rows[0][place] == leaf
        && leaf in t.at
      requires Positive(out) && |out| <= MAX_RUNS && cut > 0 && Total(out) + cut == Total(t.at[leaf].runs)
      modifies this`cached, this`cachedOffset, this`tree, tree.at.Keys
      ensures Synced() && Whole(tree, root, leaf) && (|out| >= MIN_RUNS ==> Whole(tree, root, null))
      ensures AllRuns(tree) == AllRuns(WithRuns(t, leaf, out)) && Leaves(tree) == Leaves(WithRuns(t, leaf, out))
      ensures leaf in tree.at && tree.at[leaf].runs == out && tree.at.Keys == t.at.Keys && tree.rows == t.rows
        && cached == null
      ensures (Headroom(t) ==> Headroom(tree)) && (|out| < MAX_RUNS && Spare(t) ==> Spare(tree))
    {
      hide *;
      LeafCutShort(t, root, leaf, place, out);
      LeafFacts(t, root, null, leaf, place);
      RowsOfWith(t, leaf, out);
      SetRuns(leaf, out);
      ghost var u := tree;
      SubtractFromParents(leaf, cut, -1, map[leaf := NodeLen(t.at[leaf])]);
      LeafSettled(t, root, leaf, place, out, cut, tree);
      WithRunsHeadroom(t, leaf, out);
      LengthsHeadroom(u, tree, 0);
      WholeMeans(t, root, null);
      LengthsLeaves(u, tree, 0);
      if |out| < MAX_RUNS {
        WithSpare(t, leaf, out);
        LengthsSpare(u, tree, 0);
      }
    }

    /** The program stopped in a compaction that finds no room for a split. */
    ghost predicate Clashing()
      reads this`stopTree, this`stopNode
    {
      stopNode != null && stopNode in stopTree.at && Whole(stopTree, root, stopNode) && ClashesFrom(stopTree, stopNode)
    }

    /**
     * It did so with some of the `n` characters at `offset` of the text `s` gone, and with the leaves that the removal
     * has made of the leaves `l` by then.
     */
    ghost predicate Clashed(s: seq<Data>, l: Lists, offset: nat, n: nat)
      reads this`stopTree, this`stopNode
    {
      && Clashing()
      && l != [] && |stopTree.rows| > 0 && Taking(join, l, offset, n, Leaves(stopTree))
      && exists k: nat {:trigger PartlyGone(stopTree, s, offset, k)} :: k <= n && PartlyGone(stopTree, s, offset, k)
    }

    lemma ClashedMeans(s: seq<Data>, l: Lists, offset: nat, n: nat)
      requires Clashed(s, l, offset, n)
      ensures Clashing() && l != [] && |stopTree.rows| > 0 && Taking(join, l, offset, n, Leaves(stopTree))
    {
    }

    lemma ClashedLater(s: seq<Data>, l: Lists, m: Lists, offset: nat, k: nat, n: nat)
      requires offset + k + n <= |s| && k > 0 && n > 0 && l != []
      requires Clashed(RemoveFlat(s, offset, offset + k), m, offset, n)
      requires m == TakeOnce(join, l, offset, k + n) && n == LeftOver(l, offset, k + n)
      ensures Clashed(s, l, offset, k + n)
    {
      hide Clashing, AllRuns, Expand, TakeOnce, LeftOver, Leaves, Taking;
      var u := RemoveFlat(s, offset, offset + k);
      var i: nat :| i <= n && PartlyGone(stopTree, u, offset, i);
      RemoveTwice(s, offset, k, i);
      assert PartlyGone(stopTree, s, offset, k + i);
      TakingLater(join, l, offset, k + n, Leaves(stopTree));
    }

    /** Gives a leaf its new runs and, if they are too few, merges it into a neighbour; `k` characters are gone then. */
    method ShrinkLeaf(leaf: Node, out: seq<Run>, ghost t: Tree, ghost place: nat, ghost s: seq<Data>,
                      ghost l: Lists, ghost offset: nat, ghost n: nat, k: nat) returns (ok: bool)
      requires Synced() && tree == t && Whole(t, root, null) && place < |t.rows[0]| && t.rows[0][place] == leaf
      requires leaf in t.at && leaf.isLeaf && Positive(out) && |out| <= MAX_RUNS
      requires 0 < k <= n && Total(out) + k == Total(t.at[leaf].runs)
      requires PartlyGone(WithRuns(t, leaf, out), s, offset, k)
      requires l != [] && place < |Leaves(t)|
      requires Mended(Leaves(t)[place := out], place) == TakeOnce(join, l, offset, n)
      modifies this`cached, this`cachedOffset, this`tree, this`stopTree, this`stopNode, tree.at.Keys
      ensures forall m :: m in tree.at ==> m in old(tree.at) || fresh(m)
      ensures ok ==> Synced() && Whole(tree, root, null) && cached == null
      ensures ok ==> |tree.rows| > 0 && AllRuns(tree) == AllRuns(WithRuns(t, leaf, out))
      ensures ok ==> Leaves(tree) == TakeOnce(join, l, offset, n)
      ensures ok && |out| < MAX_RUNS && Spare(t) ==> Spare(tree)
      ensures ok && |t.rows[0]| == 1 ==> |tree.rows[0]| == 1
      ensures !ok ==> Clashed(s, l, offset, n)
      ensures Headroom(t) ==> ok
    {
      hide *;
      RowsOfWith(t, leaf, out);
      ListWith(t, root, leaf, place, out);
      MendedIs(Leaves(t)[place := out], place);
      StoreShorter(leaf, out, k, t, place);
      ok := true;
      if |out| < MIN_RUNS {
        ghost var u := tree;
        ghost var mid;
        ok, mid := LeafCompact(leaf, place);
        if !ok {
          stopTree, stopNode := mid, u.at[leaf].parent;
          StopsHere(s, l, offset, n, k, WithRuns(t, leaf, out));
        }
      }
      if ok {
        WholeMeans(tree, root, null);
      }
    }

    lemma StopsHere(s: seq<Data>, l: Lists, offset: nat, n: nat, k: nat, u: Tree)
      requires stopNode != null && stopNode in stopTree.at && Whole(stopTree, root, stopNode)
      requires ClashesFrom(stopTree, stopNode) && 0 < k <= n && PartlyGone(u, s, offset, k)
      requires |u.rows| > 0 && |stopTree.rows| > 0 && AllRuns(stopTree) == AllRuns(u)
      requires l != [] && Leaves(stopTree) == TakeOnce(join, l, offset, n)
      ensures Clashed(s, l, offset, n)
    {
      hide AllRuns, Expand, TakeOnce, Leaves;
      assert PartlyGone(stopTree, s, offset, k);
      TakingOnce(join, l, offset, n);
    }

    /** The removal as far as one leaf goes; not ok means that the program stops. */
    method RemoveFromLeaf(offset: nat, n: nat) returns (ok: bool, rest: nat)
      requires Valid() && 0 < n && offset + n <= length
      modifies this, tree.at.Keys
      ensures ok ==> Valid() && cached == null && rest < n
      ensures ok ==> offset + (n - rest) <= |old(Text())|
      ensures ok ==> Text() == RemoveFlat(old(Text()), offset, offset + (n - rest))
      ensures ok ==> length == old(length) - (n - rest)
      ensures forall m :: m in tree.at ==> m in old(tree.at) || fresh(m)
      ensures ok && EagerJoin(join) ==> (Spare(old(tree)) ==> Spare(tree))
      ensures Jammed(old(tree), join, offset, n) ==> !ok
      ensures Leaves(old(tree)) != []
      ensures !ok ==> Jammed(old(tree), join, offset, n) || Clashed(old(Text()), Leaves(old(tree)), offset, n)
      ensures Headroom(old(tree)) && !Jammed(old(tree), join, offset, n) ==> ok
      ensures ok ==> forall j: nat, within: nat ::
        Lies(old(tree), j, within, offset) && InOneLeaf(old(tree), j, within, n) ==> rest == 0
      ensures ok && rest > 0 ==> |AllRuns(tree)| <= |AllRuns(old(tree))| && OnBoundary(AllRuns(tree), offset)
      ensures ok && RefusesAll(join) ==> AllRuns(tree) == Without(AllRuns(old(tree)), offset, offset + (n - rest))
      ensures ok ==> |tree.rows| > 0 && Leaves(tree) == TakeOnce(join, Leaves(old(tree)), offset, n)
      ensures ok ==> rest == LeftOver(Leaves(old(tree)), offset, n)
      ensures Jammed(old(tree), join, offset, n) <==> Jams(join, Leaves(old(tree)), offset, n)
      ensures ok && |old(tree).rows[0]| == 1 ==> |tree.rows| > 0 && |tree.rows[0]| == 1
    {
      hide *;
      OpenValid();
      ghost var s, t := Text(), tree;
      var leaf, within, place := Search(offset);
      OpenValid();
      RemovalLeaf(t, root, leaf, place, within, offset, n);
      var runs := RunsAtLeaf(leaf);
      var out;
      ghost var to;
      ok, out, rest, to := RemoveFromRuns(join, offset - within, runs, within, n);
      CrowdedIs(t, join, leaf, place, within, offset, n);
      LiesOnly(t, root, leaf, place, within, offset);
      JammedIs(t, root, join, place, within, offset, n);
      EagerSpare(t, join, leaf, within, offset, n);
      JamsIs(t, root, join, leaf, place, within, offset, n);
      LocateFound(t, root, leaf, place, within, offset);
      if ok {
        OnceIs(join, Leaves(t), offset, n, place, within, out, rest, to);
        LeafRemoval(t, root, leaf, place, within, offset, n, join, out, rest, to);
        LeafRunsLeft(t, root, leaf, place, within, offset, n, join, out, rest, to);
        length := length - (n - rest);
        RowsOfWith(t, leaf, out);
        GoneIs(WithRuns(t, leaf, out), s, offset, n - rest);
        ok := ShrinkLeaf(leaf, out, t, place, s, Leaves(t), offset, n, n - rest);
        if ok {
          MakeValid();
        }
      }
    }

    /** Removes `n` characters at `offset`, leaf by leaf; not ok means that the program stops. */
    method Remove(offset: nat, n: nat) returns (ok: bool)
      requires Valid() && offset < length && n <= length - offset
      modifies this, tree.at.Keys
      ensures ok ==> Valid() && (n > 0 ==> cached == null)
      ensures ok ==> Text() == RemoveFlat(old(Text()), offset, offset + n) && length == old(length) - n
      ensures forall m :: m in tree.at ==> m in old(tree.at) || fresh(m)
      ensures ok && EagerJoin(join) ==> (Spare(old(tree)) ==> Spare(tree))
      ensures n == 0 ==> ok && tree == old(tree)
      ensures n > 0 && Jammed(old(tree), join, offset, n) ==> !ok
      ensures Leaves(old(tree)) != []
      ensures !ok ==> Jammed(old(tree), join, offset, n) || Clashed(old(Text()), Leaves(old(tree)), offset, n)
      ensures n > 0 && |AllRuns(old(tree))| < MANY ==> (ok <==> !Jammed(old(tree), join, offset, n))
      ensures forall j: nat, within: nat ::
        Lies(old(tree), j, within, offset) && InOneLeaf(old(tree), j, within, n) && n > 0 ==>
        (Headroom(old(tree)) ==> (ok <==> !Jammed(old(tree), join, offset, n)))
      ensures ok && RefusesAll(join) && n > 0 ==> AllRuns(tree) == Without(AllRuns(old(tree)), offset, offset + n)
      ensures ok ==> |tree.rows| > 0 && Leaves(tree) == Take(join, Leaves(old(tree)), offset, n)
      ensures n > 0 && Jammed(old(tree), join, offset, n) <==> Jams(join, Leaves(old(tree)), offset, n)
      ensures ok && |old(tree).rows[0]| == 1 ==> |tree.rows| > 0 && |tree.rows[0]| == 1
      decreases n
    {
      hide *;
      OpenValid();
      ghost var s, t := Text(), tree;
      RemoveNothing(s, offset);
      FewHeadroomIf(t, root);
      SomeLeaf(t, root);
      TakeIs(join, Leaves(t), offset, n);
      ok := true;
      if n > 0 {
        var rest;
        ok, rest := RemoveFromLeaf(offset, n);
        if ok && rest > 0 {
          OpenValid();
          ghost var u := tree;
          RemoveTwice(s, offset, n - rest, rest);
          if RefusesAll(join) {
            WithoutTwice(AllRuns(t), offset, n - rest, rest, AllRuns(tree));
          }
          BoundaryFrees(tree, root, join, offset, rest, offset);
          ok := Remove(offset, rest);
          if !ok {
            ClashedLater(s, Leaves(t), Leaves(u), offset, n - rest, rest);
          }
        }
      }
    }

    /** Gives `len` characters at `offset` the datum `data`. */
    method Replace(offset: nat, len: nat, data: Data) returns (ok: bool)
      requires Valid() && (len > 0 ==> offset < length && len <= length - offset)
      modifies this, tree.at.Keys
      ensures ok ==> Valid() && length == old(length)
      ensures ok && len > 0 ==> Text() == old(Text())[..offset] + Repeat(len, data) + old(Text())[offset + len..]
      ensures ok && len == 0 ==> Text() == old(Text())
      ensures forall m :: m in tree.at ==> m in old(tree.at) || fresh(m)
      ensures ok && EagerJoin(join) ==> (Spare(old(tree)) ==> Spare(tree))
      ensures len == 0 ==> ok && tree == old(tree)
      ensures len > 0 && Jammed(old(tree), join, offset, len) ==> !ok
      ensures Leaves(old(tree)) != []
      ensures !ok ==> Jammed(old(tree), join, offset, len) || Clashed(old(Text()), Leaves(old(tree)), offset, len)
      ensures len > 0 && |AllRuns(old(tree))| < MANY ==> (ok <==> !Jammed(old(tree), join, offset, len))
      ensures ok && len > 0 ==>
        |tree.rows| > 0 && Leaves(tree) == Put(join, Take(join, Leaves(old(tree)), offset, len), offset, Run(len, data))
      ensures len > 0 && Jammed(old(tree), join, offset, len) <==> Jams(join, Leaves(old(tree)), offset, len)
      ensures ok && RefusesAll(join) && len > 0 ==>
        AllRuns(tree) == With(Without(AllRuns(old(tree)), offset, offset + len), offset, Run(len, data))
    {
      hide *;
      OpenValid();
      SomeLeaf(tree, root);
      if len == 0 {
        TakeIs(join, Leaves(tree), offset, len);
        return true;
      }
      ghost var s := Text();
      ok := Remove(offset, len);
      if ok {
        Insert(offset, len, data);
        ReplacedFlat(s, offset, len, data);
        OpenValid();
      }
    }

    // ---------------------------------------------------------------- iteration

    /** Shows all runs to the callback, in order, until it asks to stop. */
    method Foreach<S>(func: Callback<S>, s0: S) returns (s: S)
      requires Valid()
      ensures s == Visit(func, s0, Pieces(AllRuns(tree), 0)).0
    {
      hide *;
      OpenValid();
      s := s0;
      var leaf: Node? := FirstLeaf();
      var offset: nat := 0;
      ghost var all := Visit(func, s0, Pieces(AllRuns(tree), 0));
      ghost var j := 0;
      AllFrom(tree, root);
      while leaf != null
        invariant j <= |tree.rows[0]| && leaf == (if j < |tree.rows[0]| then tree.rows[0][j] else null)
        invariant leaf != null ==> leaf in tree.at
        invariant all == Visit(func, s, Pieces(RunsFrom(tree, j), offset))
        decreases |tree.rows[0]| - j
      {
        NextLeaf(tree, root, j);
        NodeFields(leaf);
        var runs := leaf.runs;
        ghost var behind := RunsFrom(tree, j + 1);
        NoneYet2(runs, behind);
        var i := 0;
        while i < |runs|
          invariant i <= |runs|
          invariant all == Visit(func, s, Pieces(runs[i..] + behind, offset))
        {
          RestStep(runs, i, behind);
          VisitStep(func, s, runs[i..] + behind, offset);
          var r := func(s, offset, runs[i]);
          s := r.0;
          if r.1 {
            return;
          }
          offset := offset + runs[i].length;
          i := i + 1;
        }
        leaf := leaf.next;
        j := j + 1;
      }
      VisitNone(func, s, offset);
    }

    /** The leaf to start from; the cache is left alone at the beginning of the text. */
    method RangeLeaf(begin: nat) returns (leaf: Node, within: nat, ghost j: nat)
      requires Valid() && begin <= length
      modifies this`cached, this`cachedOffset, this`cachedPlace
      ensures Valid() && tree == old(tree) && length == old(length)
      ensures Found(tree, leaf, j, within, begin)
    {
      hide *;
      if begin == 0 {
        OpenValid();
        leaf := FirstLeaf();
        within, j := 0, 0;
        FirstFound(tree, root);
      } else {
        leaf, within, j := Search(begin);
      }
    }

    /** Shows the runs that have characters in `[begin, end)` to the callback, in order, until it asks to stop. */
    method ForeachInRange<S>(begin: nat, end: nat, func: Callback<S>, s0: S) returns (s: S)
      requires Valid()
      modifies this`cached, this`cachedOffset, this`cachedPlace
      ensures Valid() && tree == old(tree) && length == old(length)
      ensures begin <= end <= length ==> s == Visit(func, s0, Overlapping(Pieces(AllRuns(tree), 0), begin, end)).0
      ensures !(begin <= end <= length) ==> s == s0
    {
      hide *;
      OpenValid();
      s := s0;
      if !(begin <= length && end <= length && begin <= end) {
        return;
      }
      ghost var all := Visit(func, s0, Overlapping(Pieces(AllRuns(tree), 0), begin, end));
      if begin == end || begin == length {
        EmptyRange(func, s0, AllRuns(tree), begin, end);
        return;
      }
      var found, within, j := RangeLeaf(begin);
      OpenValid();
      RangeFrom(tree, root, found, j, within, begin, end);
      var leaf: Node? := found;
      FoundLeaf(tree, root, found, j, within, begin);
      var position: nat := begin - within;
      while position < end
        modifies {}
        invariant leaf == (if j < |tree.rows[0]| then tree.rows[0][j] else null) && j <= |tree.rows[0]|
        invariant leaf != null ==> leaf in tree.at
        invariant within == if position < begin then begin - position else 0
        invariant length == position + Total(RunsFrom(tree, j))
        invariant all == Visit(func, s, Overlapping(Pieces(RunsFrom(tree, j), position), begin, end))
        decreases |tree.rows[0]| - j
      {
        NotPastEnd(tree, root, j, position, length);
        NextLeaf(tree, root, j);
        NodeFields(leaf);
        var runs := leaf.runs;
        ghost var behind := RunsFrom(tree, j + 1);
        NoneYet2(runs, behind);
        var i := 0;
        while i < |runs|
          modifies {}
          invariant i <= |runs|
          invariant within == if position < begin then begin - position else 0
          invariant length == position + Total(runs[i..] + behind)
          invariant all == Visit(func, s, Overlapping(Pieces(runs[i..] + behind, position), begin, end))
          invariant position < end
        {
          RestStep(runs, i, behind);
          RangeStep(func, s, runs[i..] + behind, position, begin, end);
          PositiveAt(runs, i);
          OverlapsIs(Piece(position, runs[i]), begin, end);
          if within >= runs[i].length {
            within := within - runs[i].length;
          } else {
            within := 0;
            var r := func(s, position, runs[i]);
            s := r.0;
            if r.1 {
              return;
            }
          }
          position := position + runs[i].length;
          i := i + 1;
          if position >= end {
            RangeEnded(func, s, runs[i..] + behind, position, begin, end);
            return;
          }
        }
        leaf := leaf.next;
        j := j + 1;
      }
      RangeEnded(func, s, RunsFrom(tree, j), position, begin, end);
    }
  }
}
