/** Compacting a branch: when nothing is to be done, and when exactly the program has to stop. */
module RegionClash {
  import opened Runs
  import opened RegionTree
  import opened RegionSplit
  import opened RegionLengths
  import opened RegionMoves
  import opened RegionCascade
  import opened RegionEdit
  import opened RegionTakeOut
  import opened RegionHandOver

  // ---------------------------------------------------------------- nothing to do

  lemma CompactRoot(t: Tree, root: Node)
    requires Whole(t, root, root)
    ensures Whole(t, root, null)
  {
    RootFacts(t, -1);
    forall n | n in t.at
      ensures Filled(t, null, n)
    {
      assert Filled(t, root, n);
    }
  }

  lemma CompactFull(t: Tree, root: Node, node: Node)
    requires Whole(t, root, node) && node in t.at && |t.at[node].kids| >= MIN_BRANCHES && t.at[node].height > 0
    ensures Whole(t, root, null)
  {
    forall n | n in t.at
      ensures Filled(t, null, n)
    {
      assert Filled(t, node, n);
    }
  }

  /** A branch alone in its row that is not a lone child above a lone child. */
  lemma CompactSole(t: Tree, root: Node, node: Node, s: Spot)
    requires Whole(t, root, node) && At(t, node, s) && s.h > 0
    requires t.at[node].prev == null && t.at[node].next == null
    requires !(|t.at[node].kids| == 1 && |t.at[t.at[node].parent].kids| == 1)
    ensures Whole(t, root, null)
  {
    assert Row(t.at, s.h, t.rows[s.h]) && ChainAt(t.at, t.rows[s.h], s.j) && Filled(t, node, node);
    assert t.rows[s.h] == [node];
    OneAbove(t, root, node, s);
    forall n | n in t.at
      ensures Filled(t, null, n)
    {
      assert Filled(t, node, n) && Placed(t, n);
    }
  }

  lemma OneAbove(t: Tree, root: Node, node: Node, s: Spot)
    requires Whole(t, root, node) && At(t, node, s) && s.h > 0 && t.rows[s.h] == [node]
    ensures |t.at[t.at[node].parent].kids| == 1
  {
    var p := t.at[node].parent;
    assert KidRow(t, s.h);
    FlatAt(t.at, t.rows[s.h + 1], s.pj);
    assert |t.rows[s.h]| == 1;
    assert |KidsOf(t.at, p)| >= 1;
  }

  // ---------------------------------------------------------------- the lone branch below the root

  lemma LoneParent(t: Tree, root: Node, node: Node, s: Spot)
    requires Whole(t, root, node) && At(t, node, s) && s.h > 0
    requires |t.at[node].kids| == 1 && |t.at[t.at[node].parent].kids| == 1
    ensures t.at[node].parent == root && CanLower(t, root, node, t.at[node].kids[0].node)
    ensures t.at[root].kids[0].node == node && t.at[root].height == s.h + 1
  {
    var p := t.at[node].parent;
    RootFacts(t, -1);
    assert Filled(t, node, p) && NodeOk(t.at, node) && KidAt(t.at, node, 0);
  }

  ghost function CollapseWrites(at: Store, root: Node, node: Node, d: Node, cs: seq<Child>, height: nat): Store
    requires root in at && d in at
  {
    var bt := at[root := at[root].(kids := cs)];
    var ct := bt[d := bt[d].(parent := root)];
    var dt := ct[root := ct[root].(height := height)];
    dt - {node}
  }

  lemma CollapseWritesDone(t: Tree, root: Node, node: Node, d: Node, cs: seq<Child>)
    requires CanLower(t, root, node, d) && cs == [Child(d, t.at[root].kids[0].length)]
    ensures root in t.at && d in t.at && node in t.at
    ensures CollapseDone(t.at, CollapseWrites(t.at, root, node, d, cs, t.at[node].height), root, node, d)
  {
    LowerHeights(t, root, node, d);
  }

  lemma LoweredList(t: Tree, root: Node, node: Node, d: Node, bt: Store)
    requires Whole(t, root, node) && CanLower(t, root, node, d) && CollapseDone(t.at, bt, root, node, d)
    ensures |Lowered(t, bt, root).rows| > 0 && Leaves(Lowered(t, bt, root)) == Leaves(t)
  {
    LowerFacts(t, root, node, d);
    LoweredRows(t, bt, root);
    assert Row(t.at, 0, t.rows[0]);
    forall n | n in t.rows[0]
      ensures RunsIn(t.at, n) == RunsIn(bt, n)
    {
      if n != node && n != root {
        LowerKeeps(t.at, bt, root, node, d, n);
      }
    }
    ListFrame(t.at, bt, t.rows[0]);
  }

  lemma Collapsed(t: Tree, bt: Store, root: Node, node: Node, d: Node)
    requires Whole(t, root, node) && CanLower(t, root, node, d) && CollapseDone(t.at, bt, root, node, d)
    ensures Whole(Lowered(t, bt, root), root, null) && Whole(Lowered(t, bt, root), root, root)
    ensures AllRuns(Lowered(t, bt, root)) == AllRuns(t) && |Lowered(t, bt, root).rows| == |t.rows| - 1
    ensures Leaves(Lowered(t, bt, root)) == Leaves(t)
    ensures Spare(t) ==> Spare(Lowered(t, bt, root))
    ensures root in bt && bt[root].parent == null && node in t.at && bt[root].height == t.at[node].height
    ensures |Lowered(t, bt, root).rows| == |t.rows| - 1
  {
    LowerShape(t, root, node, d, bt);
    LoweredList(t, root, node, d, bt);
    LowerSums(t, root, node, d, bt);
    LowerFill(t, root, node, d, bt);
    LoweredRows(t, bt, root);
    RootFacts(t, -1);
    var u := Lowered(t, bt, root);
    forall n | n in bt
      ensures Filled(u, root, n)
    {
      assert Filled(u, null, n);
      RootFacts(u, -1);
    }
    if Spare(t) {
      forall n | n in bt
        ensures SpareAt(u, n)
      {
        assert SpareAt(t, n);
        assert n != root ==> bt[n].runs == t.at[n].runs;
        assert NodeOk(t.at, root);
      }
    }
  }

  // ---------------------------------------------------------------- when the program stops

  ghost function Look(plus: map<Node, int>, n: Node): int {
    if n in plus then plus[n] else 0
  }

  /** The number of children a node will have when its row is compacted. */
  ghost function Size(at: Store, plus: map<Node, int>, n: Node): int {
    (if n in at then |at[n].kids| else 0) + Look(plus, n)
  }

  /** The node is taken out and its children are handed over. */
  ghost predicate Dissolves(at: Store, n: Node, plus: map<Node, int>)
    requires n in at && at[n].parent in at
  {
    && !(Size(at, plus, n) == 1 && |at[at[n].parent].kids| == 1)
    && (at[n].prev != null || at[n].next != null)
    && Size(at, plus, n) < MIN_BRANCHES
  }

  /** The neighbour that takes the children: the left one unless it has more children than the right one. */
  ghost function Neighbour(at: Store, n: Node, plus: map<Node, int>): Node?
    requires n in at
  {
    var left, right := at[n].prev, at[n].next;
    if left == null || (right != null && Size(at, plus, left) > Size(at, plus, right)) then right else left
  }

  /** How the numbers of children in the row above change. */
  ghost function Deltas(p: Node, q: Node, over: bool): map<Node, int> {
    if !over then map[p := -1] else if p == q then map[] else map[p := -1, q := 1]
  }

  /**
   * On the way up from `n`, some neighbour that takes children has to be split while its parent is full.
   * The parent of `n` itself has just lost a child, so it is the parent of another branch.
   */
  ghost predicate Clashes(at: Store, n: Node, plus: map<Node, int>, d: nat)
    decreases d
  {
    && d > 0 && n in at && at[n].parent in at && at[n].parent != null
    && Dissolves(at, n, plus)
    && var x := Neighbour(at, n, plus);
    && x != null && x in at && at[x].parent in at && at[x].parent != null
    && var p: Node := at[n].parent;
    && var q: Node := at[x].parent;
    && var over := Size(at, plus, x) + Size(at, plus, n) >= MAX_BRANCHES;
    && ((over && q != p && |at[q].kids| >= MAX_BRANCHES) || Clashes(at, p, Deltas(p, q, over), d - 1))
  }

  /** From row `h` up, two stores have the same links, and with the given differences the same sizes. */
  ghost predicate AgreeAt(at: Store, bt: Store, pa: map<Node, int>, pb: map<Node, int>, h: nat, n: Node)
    requires n in at
  {
    at[n].height >= h ==>
      && n in bt && bt[n].height == at[n].height && bt[n].parent == at[n].parent
      && bt[n].prev == at[n].prev && bt[n].next == at[n].next
      && |at[n].kids| + Look(pa, n) == |bt[n].kids| + Look(pb, n)
  }

  ghost predicate Agree(at: Store, bt: Store, pa: map<Node, int>, pb: map<Node, int>, h: nat) {
    forall n {:trigger AgreeAt(at, bt, pa, pb, h, n)} :: n in at ==> AgreeAt(at, bt, pa, pb, h, n)
  }

  ghost predicate LinksUpAt(at: Store, n: Node)
    requires n in at
  {
    && (at[n].parent != null ==> at[n].parent in at && at[at[n].parent].height == at[n].height + 1)
    && (at[n].prev != null ==> at[n].prev in at && at[at[n].prev].height == at[n].height)
    && (at[n].next != null ==> at[n].next in at && at[at[n].next].height == at[n].height)
  }

  ghost predicate LinksUp(at: Store) {
    forall n {:trigger LinksUpAt(at, n)} :: n in at ==> LinksUpAt(at, n)
  }

  ghost predicate OnlyAt(at: Store, plus: map<Node, int>, h: nat) {
    forall n {:trigger Look(plus, n)} :: n in at && at[n].height != h ==> Look(plus, n) == 0
  }

  lemma WholeLinks(t: Tree, root: Node, low: Node?)
    requires Whole(t, root, low)
    ensures LinksUp(t.at)
  {
    forall n | n in t.at
      ensures LinksUpAt(t.at, n)
    {
      ParentInTree(t, n, root, low);
      assert Placed(t, n);
      var h := t.at[n].height;
      assert Row(t.at, h, t.rows[h]);
      var j := IndexIn(t.rows[h], n);
      assert ChainAt(t.at, t.rows[h], j);
      if j > 0 {
        assert t.rows[h][j - 1] in t.rows[h];
      }
      if j + 1 < |t.rows[h]| {
        assert t.rows[h][j + 1] in t.rows[h];
      }
    }
  }

  /** Whether the program stops depends on the rows from the node up only. */
  lemma {:induction false} ClashFrame(at: Store, bt: Store, n: Node, pa: map<Node, int>, pb: map<Node, int>, d: nat,
      h: nat)
    requires LinksUp(at) && Agree(at, bt, pa, pb, h) && OnlyAt(at, pa, h) && OnlyAt(at, pb, h)
    requires n in at && at[n].height == h
    ensures Clashes(at, n, pa, d) <==> Clashes(bt, n, pb, d)
    decreases d
  {
    assert LinksUpAt(at, n) && AgreeAt(at, bt, pa, pb, h, n);
    if d > 0 && at[n].parent != null {
      var p: Node := at[n].parent;
      assert AgreeAt(at, bt, pa, pb, h, p);
      NeighbourFrame(at, bt, n, pa, pb, h);
      var x := Neighbour(at, n, pa);
      if x != null {
        assert LinksUpAt(at, x) && AgreeAt(at, bt, pa, pb, h, x);
      }
      if x != null && at[x].parent != null {
        var q: Node := at[x].parent;
        assert AgreeAt(at, bt, pa, pb, h, q);
        var over := Size(at, pa, x) + Size(at, pa, n) >= MAX_BRANCHES;
        var next := Deltas(p, q, over);
        AgreeAbove(at, bt, pa, pb, h, next);
        ClashFrame(at, bt, p, next, next, d - 1, h + 1);
      }
    }
  }

  lemma NeighbourFrame(at: Store, bt: Store, n: Node, pa: map<Node, int>, pb: map<Node, int>, h: nat)
    requires LinksUp(at) && Agree(at, bt, pa, pb, h) && n in at && at[n].height == h
    ensures n in bt && Neighbour(bt, n, pb) == Neighbour(at, n, pa)
    ensures Size(bt, pb, n) == Size(at, pa, n)
    ensures
      var x := Neighbour(at, n, pa);
      x != null ==> x in at && x in bt && at[x].height == h && Size(bt, pb, x) == Size(at, pa, x)
  {
    assert LinksUpAt(at, n) && AgreeAt(at, bt, pa, pb, h, n);
    if at[n].prev != null {
      assert AgreeAt(at, bt, pa, pb, h, at[n].prev);
    }
    if at[n].next != null {
      assert AgreeAt(at, bt, pa, pb, h, at[n].next);
    }
  }

  lemma AgreeAbove(at: Store, bt: Store, pa: map<Node, int>, pb: map<Node, int>, h: nat, next: map<Node, int>)
    requires Agree(at, bt, pa, pb, h) && OnlyAt(at, pa, h) && OnlyAt(at, pb, h)
    ensures Agree(at, bt, next, next, h + 1)
  {
    forall n | n in at
      ensures AgreeAt(at, bt, next, next, h + 1, n)
    {
      assert AgreeAt(at, bt, pa, pb, h, n);
      assert at[n].height != h ==> Look(pa, n) == 0 && Look(pb, n) == 0;
    }
  }

  // ---------------------------------------------------------------- one level

  /** What taking out a node and handing over its children does above its row. */
  lemma AgreeAfter(t: Tree, u: Tree, v: Tree, node: Node, s: Spot, p: Node, q: Node, over: bool)
    requires node in t.at && t.at[node].height == s.h && t.at[node].parent == p
    requires Stays(t, u, node, s.h) && Upper(u, v, s.h, q, if over then 1 else 0)
    ensures Agree(t.at, v.at, Deltas(p, q, over), map[], s.h + 1)
  {
    forall n | n in t.at
      ensures AgreeAt(t.at, v.at, Deltas(p, q, over), map[], s.h + 1, n)
    {
      if t.at[n].height > s.h {
        assert StaysAt(t, u, node, s.h, n) && UpperAt(u, v, s.h, q, if over then 1 else 0, n);
      }
    }
  }

  /** Not a clash at this level: then the one level up decides. */
  lemma ClashUp(t: Tree, u: Tree, v: Tree, root: Node, node: Node, s: Spot, x: Node, d: nat)
    requires Whole(t, root, node) && TakenOut(t, u, root, node, s) && s.h > 0 && d > 0
    requires x in t.at && t.at[x].parent != null && Dissolves(t.at, node, map[]) && x == Neighbour(t.at, node, map[])
    requires !Overfull(u, x, |t.at[node].kids|)
    requires
      Upper(u, v, s.h, t.at[x].parent, if |t.at[x].kids| + |t.at[node].kids| >= MAX_BRANCHES then 1 else 0)
    ensures t.at[node].parent in t.at
    ensures Clashes(t.at, node, map[], d) <==> Clashes(v.at, t.at[node].parent, map[], d - 1)
  {
    WholeLinks(t, root, node);
    var p: Node, q: Node := t.at[node].parent, t.at[x].parent;
    var over := |t.at[x].kids| + |t.at[node].kids| >= MAX_BRANCHES;
    assert LinksUpAt(t.at, node) && LinksUpAt(t.at, x);
    AgreeAfter(t, u, v, node, s, p, q, over);
    ClashFrame(t.at, v.at, p, Deltas(p, q, over), map[], d - 1, s.h + 1);
    NotItself(t, root, node, s, x);
    NotClashingHere(t, u, root, node, s, x, p, q);
  }

  /** The neighbour that takes the runs of a leaf: the left one unless it has more runs than the right one. */
  ghost function LeafNeighbour(t: Tree, node: Node): Node?
    requires node in t.at
  {
    var left, right := t.at[node].prev, t.at[node].next;
    if left == null || (right != null && |RunsIn(t.at, left)| > |RunsIn(t.at, right)|) then right else left
  }

  /** The neighbour has to be split. */
  ghost predicate Overflows(t: Tree, node: Node)
    requires node in t.at
  {
    var x := LeafNeighbour(t, node);
    x != null && t.at[node].runs != [] && |RunsIn(t.at, x)| + |t.at[node].runs| >= MAX_RUNS
  }

  ghost function ParentOf(at: Store, n: Node?): Node? {
    if n != null && n in at then at[n].parent else null
  }

  /** The neighbour has to be split, and its parent is nearly full, so that branches are split with it. */
  ghost predicate SplitsAbove(t: Tree, node: Node)
    requires node in t.at
  {
    var q, p := ParentOf(t.at, LeafNeighbour(t, node)), t.at[node].parent;
    Overflows(t, node) && q != null && q in t.at && |t.at[q].kids| - (if q == p then 1 else 0) >= MAX_RUNS - 2
  }

  /** Taking a leaf out and handing its runs over makes a compaction clash on the way up. */
  ghost predicate LeafClashes(t: Tree, node: Node)
    requires node in t.at
  {
    var p, q := t.at[node].parent, ParentOf(t.at, LeafNeighbour(t, node));
    |t.rows| > 1 && p != null && q != null && Clashes(t.at, p, Deltas(p, q, Overflows(t, node)), Top(t) - 1)
  }

  /** The leaf is out and its runs are handed over, with no branch split on the way. */
  lemma LeafClashIs(t: Tree, u: Tree, v: Tree, root: Node, node: Node, s: Spot, x: Node)
    requires Whole(t, root, node) && TakenOut(t, u, root, node, s) && s.h == 0 && x == LeafNeighbour(t, node)
    requires x in t.at && |v.rows| == |t.rows| && (x == t.at[node].prev || x == t.at[node].next)
    requires Upper(u, v, 0, t.at[x].parent, if Overflows(t, node) then 1 else 0)
    ensures t.at[node].parent != null && t.at[node].parent in t.at
    ensures ClashesFrom(v, t.at[node].parent) <==> LeafClashes(t, node)
  {
    WholeLinks(t, root, node);
    NotItself(t, root, node, s, x);
    assert LinksUpAt(t.at, node) && LinksUpAt(t.at, x);
    LeafParents(t, root, node, x);
    var p: Node, q: Node := t.at[node].parent, t.at[x].parent;
    var over := Overflows(t, node);
    AgreeAfter(t, u, v, node, s, p, q, over);
    ClashFrame(t.at, v.at, p, Deltas(p, q, over), map[], Top(t) - 1, 1);
    assert AgreeAt(t.at, v.at, Deltas(p, q, over), map[], 1, p);
  }

  /** A leaf that is split under a parent with room changes nothing above but the number of its parent's children. */
  lemma LeafUpper(t: Tree, left: Node, s: Spot, right: Node, bt: Store)
    requires CanSplit(t, -1, left, s, right) && SplitDone(t.at, bt, left, right, s.k) && s.h == 0
    ensures left in t.at && Upper(t, SplitTree(t, bt, s, right), 0, t.at[left].parent, 1)
  {
    SplitApart(t, -1, left, s);
    StartUpper(t, 0, t.at[left].parent);
    SplitUpper(t, t, left, s, right, bt, 0);
  }

  /** The parent of a leaf is a branch. */
  lemma ParentPlain(t: Tree, root: Node, low: Node?, leaf: Node)
    requires Whole(t, root, low) && leaf in t.at && leaf.isLeaf
    ensures t.at[leaf].parent != null && t.at[leaf].parent in t.at
    ensures NearlyFull(t.at[t.at[leaf].parent]) <==> |t.at[t.at[leaf].parent].kids| >= MAX_RUNS - 2
    ensures t.at[t.at[leaf].parent].height == 1 && t.at[leaf].height == 0
  {
    ParentInTree(t, leaf, root, low);
    WholeLinks(t, root, low);
    assert LinksUpAt(t.at, leaf) && NodeOk(t.at, leaf) && NodeOk(t.at, t.at[leaf].parent);
  }

  /** The branch `q` is there and has room for one more child. */
  ghost predicate HasPlace(t: Tree, q: Node?) {
    q != null && q in t.at && t.at[q].height > 0 && |t.at[q].kids| < MAX_RUNS - 2
  }

  lemma PlaceMeans(t: Tree, root: Node, low: Node?, node: Node)
    requires Whole(t, root, low) && node in t.at
    ensures node.isLeaf && HasPlace(t, t.at[node].parent) ==>
      t.at[node].parent != null && t.at[node].parent in t.at && !NearlyFull(t.at[t.at[node].parent])
  {
    if node.isLeaf {
      ParentPlain(t, root, low, node);
    }
  }

  /**
   * Of a leaf's runs `n` have gone to the leaf `start`; it was split on the way if `cut`, and then `target` takes the
   * rest. Above the leaves at most the parent of `start` has changed, if it had room.
   */
  ghost predicate Passed(t: Tree, u: Tree, start: Node, target: Node, n: nat, cut: bool) {
    && start in t.at && target in u.at && (n > 0 ==> |u.at[target].runs| < MAX_RUNS)
    && (cut ==> 0 < n && |t.at[start].runs| + n >= MAX_RUNS && |u.at[target].runs| <= MAX_RUNS / 2 + n)
    && (!cut ==> target == start && |u.at[target].runs| == |t.at[start].runs| + n)
    && (!cut ==> u.at[target].parent == t.at[start].parent)
    && (n < MIN_RUNS && (cut ==> HasPlace(t, t.at[start].parent)) ==>
          Upper(t, u, 0, t.at[start].parent, if cut then 1 else 0))
  }

  lemma PassedNone(t: Tree, start: Node)
    requires start in t.at
    ensures Passed(t, t, start, start, 0, false)
  {
    StartUpper(t, 0, t.at[start].parent);
  }

  /** One run has gone over. */
  ghost predicate PassedOne(u: Tree, v: Tree, target: Node, next: Node, cut: bool) {
    && target in u.at && next in v.at && |v.at[next].runs| < MAX_RUNS
    && (cut <==> |u.at[target].runs| >= MAX_RUNS - 1)
    && (cut ==> |v.at[next].runs| <= MAX_RUNS / 2 + 1)
    && (!cut ==> next == target && |v.at[next].runs| == |u.at[target].runs| + 1)
    && (!cut ==> v.at[next].parent == u.at[target].parent && Upper(u, v, 0, null, 0))
    && (cut && HasPlace(u, u.at[target].parent) ==> Upper(u, v, 0, u.at[target].parent, 1))
  }

  lemma UpperNone(t: Tree, u: Tree, v: Tree, q: Node?, d: int)
    requires Upper(t, u, 0, q, d) && Upper(u, v, 0, null, 0)
    ensures Upper(t, v, 0, q, d)
  {
    forall n | n in t.at
      ensures UpperAt(t, v, 0, q, d, n)
    {
      assert UpperAt(t, u, 0, q, d, n);
      assert t.at[n].height > 0 ==> UpperAt(u, v, 0, null, 0, n);
    }
  }

  lemma PassedMore(t: Tree, u: Tree, v: Tree, start: Node, target: Node, next: Node, n: nat, cut: bool, now: bool)
    requires Passed(t, u, start, target, n, cut) && PassedOne(u, v, target, next, now)
    ensures Passed(t, v, start, next, n + 1, cut || now)
  {
    hide Upper;
    var q := t.at[start].parent;
    if n + 1 < MIN_RUNS && ((cut || now) ==> HasPlace(t, q)) {
      if now {
        PlaceKept(t, u, q);
        UpperSplit(t, u, v, q);
      } else {
        UpperNone(t, u, v, q, if cut then 1 else 0);
      }
    }
  }

  lemma PlaceKept(t: Tree, u: Tree, q: Node?)
    requires Upper(t, u, 0, q, 0) && HasPlace(t, q)
    ensures HasPlace(u, q)
  {
    assert UpperAt(t, u, 0, q, 0, q);
  }

  lemma PassedRun(t: Tree, u: Tree, target: Node, next: Node, out: seq<Run>, cut: bool)
    requires target in t.at && next in u.at && u.at[next].height == 0 && |out| == |u.at[next].runs| + 1 < MAX_RUNS
    requires cut <==> |t.at[target].runs| >= MAX_RUNS - 1
    requires !cut ==> u == t && next == target
    requires cut ==> |u.at[next].runs| <= MAX_RUNS / 2
    requires cut && HasPlace(t, t.at[target].parent) ==> Upper(t, u, 0, t.at[target].parent, 1)
    ensures PassedOne(t, WithRuns(u, next, out), target, next, cut)
  {
    StartUpper(u, 0, null);
    if !cut {
      UpperWith(t, u, next, out, null, 0);
    } else if HasPlace(t, t.at[target].parent) {
      UpperWith(t, u, next, out, t.at[target].parent, 1);
    }
  }

  lemma FlushPlace(t: Tree, u: Tree, q: Node?)
    requires LengthsOnly(t.at, u.at, 0)
    ensures Upper(t, u, 0, q, 0) && (HasPlace(t, q) ==> HasPlace(u, q))
  {
    StartUpper(t, 0, q);
    FlushUpper(t, t, u, 0, q, 0);
    if HasPlace(t, q) {
      PlaceKept(t, u, q);
    }
  }

  /** All runs have gone over, and the parents have been told. */
  lemma PassedAll(t: Tree, u: Tree, v: Tree, start: Node, target: Node, n: nat, cut: bool)
    requires Passed(t, u, start, target, n, cut) && LengthsOnly(u.at, v.at, 0)
    ensures HandedOver(t, v, start, n)
  {
    hide Upper, LengthsOnly;
    var q := t.at[start].parent;
    if n < MIN_RUNS && (cut ==> HasPlace(t, q)) {
      FlushUpper(t, u, v, 0, q, if cut then 1 else 0);
    }
  }

  /**
   * Few enough runs, `n` of them, have been handed to the leaf `start`: then it was split exactly if there are too many
   * for it, and if that did not split a branch too, nothing above has changed but the number of its parent's children.
   */
  ghost predicate HandedOver(t: Tree, v: Tree, start: Node, n: nat) {
    && start in t.at
    && var q, cut := t.at[start].parent, 0 < n && |t.at[start].runs| + n >= MAX_RUNS;
    n < MIN_RUNS && (cut ==> HasPlace(t, q)) ==> Upper(t, v, 0, q, if cut then 1 else 0)
  }

  /** What handing the runs of a leaf over comes to, as long as no branch is split with the neighbour. */
  lemma LeafHanded(t: Tree, u: Tree, v: Tree, root: Node, node: Node, s: Spot)
    requires Whole(t, root, node) && TakenOut(t, u, root, node, s) && s.h == 0
    requires t.at[node].prev != null || t.at[node].next != null
    requires Whole(v, root, t.at[node].parent)
    requires
      var x := LeafNeighbour(t, node);
      x != null && HandedOver(u, v, x, |t.at[node].runs|)
    ensures t.at[node].parent != null
    ensures |t.at[node].runs| < MIN_RUNS && !SplitsAbove(t, node) ==>
      (ClashesFrom(v, t.at[node].parent) <==> LeafClashes(t, node))
  {
    var x: Node := LeafNeighbour(t, node);
    NotItself(t, root, node, s, x);
    LeafParents(t, root, node, x);
    assert StaysAt(t, u, node, 0, x);
    var q := t.at[x].parent;
    assert StaysAt(t, u, node, 0, q);
    if |t.at[node].runs| < MIN_RUNS && !SplitsAbove(t, node) {
      RowsStay(t, u, v, root, node, q, if Overflows(t, node) then 1 else 0);
      LeafClashIs(t, u, v, root, node, s, x);
    }
  }

  lemma RowsStay(t: Tree, u: Tree, v: Tree, root: Node, node: Node, q: Node?, d: int)
    requires Whole(t, root, node) && node in t.at && t.at[node].height == 0 && Stays(t, u, node, 0)
    requires Whole(v, root, t.at[node].parent) && Upper(u, v, 0, q, d)
    ensures |v.rows| == |t.rows|
  {
    RootFacts(t, -1);
    RootFacts(v, -1);
    assert NodeOk(t.at, root) && NodeOk(v.at, root) && NodeOk(t.at, node);
    ParentInTree(t, root, root, node);
    assert StaysAt(t, u, node, 0, root) && UpperAt(u, v, 0, q, d, root);
  }

  /** The neighbours of a leaf that is taken out keep their runs, so that the choice between them stays the same. */
  lemma LeafNeighbourIs(t: Tree, u: Tree, root: Node, node: Node, s: Spot)
    requires Whole(t, root, node) && TakenOut(t, u, root, node, s) && s.h == 0
    requires t.at[node].prev != null || t.at[node].next != null
    ensures
      var left, right := t.at[node].prev, t.at[node].next;
      && (left != null ==> left in u.at) && (right != null ==> right in u.at)
      && LeafNeighbour(t, node) != null
      && LeafNeighbour(t, node) ==
           if left == null || (right != null && |u.at[left].runs| > |u.at[right].runs|) then right else left
  {
    var left, right := t.at[node].prev, t.at[node].next;
    if left != null {
      NotItself(t, root, node, s, left);
      assert StaysAt(t, u, node, 0, left);
    }
    if right != null {
      NotItself(t, root, node, s, right);
      assert StaysAt(t, u, node, 0, right);
    }
  }

  lemma LeafParents(t: Tree, root: Node, node: Node, x: Node)
    requires Whole(t, root, node) && node in t.at && x in t.at && t.at[node].height == 0 && t.at[x].height == 0
    requires x != node
    ensures t.at[node].parent != null && t.at[node].parent in t.at && t.at[t.at[node].parent].height == 1
    ensures t.at[x].parent != null && t.at[x].parent in t.at && t.at[t.at[x].parent].height == 1
    ensures |t.rows| > 1
  {
    RootFacts(t, -1);
    assert Placed(t, node) && Placed(t, x) && Row(t.at, 0, t.rows[0]);
    ParentInTree(t, node, root, node);
    ParentInTree(t, x, root, node);
    WholeLinks(t, root, node);
    assert LinksUpAt(t.at, node) && LinksUpAt(t.at, x);
  }

  lemma NotItself(t: Tree, root: Node, node: Node, s: Spot, x: Node)
    requires Whole(t, root, node) && At(t, node, s) && (x == t.at[node].prev || x == t.at[node].next)
    ensures x != node && x in t.at && t.at[x].height == s.h
  {
    var row := t.rows[s.h];
    assert Row(t.at, s.h, row) && ChainAt(t.at, row, s.j);
    var j := if x == t.at[node].prev then s.j - 1 else s.j + 1;
    assert row[j] == x && x in row;
  }

  lemma NotClashingHere(t: Tree, u: Tree, root: Node, node: Node, s: Spot, x: Node, p: Node, q: Node)
    requires Whole(t, root, node) && TakenOut(t, u, root, node, s) && x in t.at && x != node
    requires t.at[node].parent == p && t.at[x].parent == q && p in t.at && q in t.at && x != p && q != node
    ensures x in u.at && u.at[x].parent == q && q in u.at && |u.at[x].kids| == |t.at[x].kids|
    ensures Overfull(u, x, |t.at[node].kids|) <==>
      |t.at[x].kids| + |t.at[node].kids| >= MAX_BRANCHES && q != p && |t.at[q].kids| >= MAX_BRANCHES
  {
    assert StaysAt(t, u, node, s.h, x) && StaysAt(t, u, node, s.h, q);
    assert NodeOk(t.at, q);
  }

  lemma ClashHere(t: Tree, u: Tree, root: Node, node: Node, s: Spot, x: Node, d: nat)
    requires Whole(t, root, node) && TakenOut(t, u, root, node, s) && s.h > 0 && d > 0
    requires x in t.at && t.at[x].parent != null && Dissolves(t.at, node, map[]) && x == Neighbour(t.at, node, map[])
    requires Overfull(u, x, |t.at[node].kids|)
    ensures Clashes(t.at, node, map[], d)
  {
    WholeLinks(t, root, node);
    assert LinksUpAt(t.at, node) && LinksUpAt(t.at, x);
    NotItself(t, root, node, s, x);
    NotClashingHere(t, u, root, node, s, x, t.at[node].parent, t.at[x].parent);
  }

  lemma SpotMeans(t: Tree, node: Node, s: Spot)
    requires At(t, node, s)
    ensures node in t.at && t.at[node].height == s.h && s.h + 1 < |t.rows| && s.j < |t.rows[s.h]|
    ensures
      var p := t.at[node].parent;
      p in t.at && s.k < |t.at[p].kids| && t.at[p].kids[s.k].node == node && t.at[p].height == s.h + 1
  {
  }

  lemma LoweredIs(t: Tree, bt: Store, root: Node)
    requires |t.rows| >= 2
    ensures Lowered(t, bt, root) == Tree(bt, t.rows[..|t.rows| - 2] + [[root]])
  {
  }

  lemma CollapsedKeys(at: Store, bt: Store, root: Node, node: Node, d: Node)
    requires CollapseDone(at, bt, root, node, d)
    ensures bt.Keys <= at.Keys
  {
  }

  lemma DissolvesMeans(t: Tree, root: Node, node: Node, s: Spot)
    requires Whole(t, root, node) && At(t, node, s) && s.h > 0 && Dissolves(t.at, node, map[])
    ensures |t.rows[s.h]| >= 2 && NodeLen(t.at[node]) == KidsTotal(t.at[node].kids)
    ensures 0 < |t.at[node].kids| < MIN_BRANCHES
    ensures node in t.at && t.at[node].parent in t.at && s.h + 1 < |t.rows|
  {
    HasSibling(t, root, node, node, s);
    assert NodeOk(t.at, node) && Filled(t, node, node);
  }

  /** The neighbours are as they were, so the choice between them is the same as before. */
  lemma NeighbourIs(t: Tree, u: Tree, root: Node, node: Node, s: Spot)
    requires Whole(t, root, node) && TakenOut(t, u, root, node, s) && s.h > 0 && Dissolves(t.at, node, map[])
    ensures node in t.at
    ensures
      var left, right := t.at[node].prev, t.at[node].next;
      && (left != null || right != null)
      && (left != null ==> left in u.at && left in t.at && left != node && 0 < s.j)
      && (right != null ==> right in u.at && right in t.at && right != node)
      && Neighbour(t.at, node, map[]) ==
           (if left == null || (right != null && |u.at[left].kids| > |u.at[right].kids|) then right else left)
  {
    var left, right := t.at[node].prev, t.at[node].next;
    assert Row(t.at, s.h, t.rows[s.h]) && ChainAt(t.at, t.rows[s.h], s.j);
    if left != null {
      NotItself(t, root, node, s, left);
      assert StaysAt(t, u, node, s.h, left);
    }
    if right != null {
      NotItself(t, root, node, s, right);
      assert StaysAt(t, u, node, s.h, right);
    }
  }

  lemma HandParent(t: Tree, u: Tree, root: Node, node: Node, s: Spot, x: Node, w: Hand)
    requires Whole(t, root, node) && TakenOut(t, u, root, node, s) && (x == t.at[node].prev || x == t.at[node].next)
    requires x in u.at && w.q == u.at[x].parent
    ensures w.q in u.at && u.at[w.q].height == s.h + 1 < |u.rows|
    ensures x in t.at && t.at[x].parent == w.q && w.q != null
  {
    NotItself(t, root, node, s, x);
    ParentInTree(t, x, root, node);
    RootFacts(t, -1);
    assert StaysAt(t, u, node, s.h, x);
    assert StaysAt(t, u, node, s.h, t.at[x].parent);
  }

  /** What the hand-over means for the compaction of the parent. */
  lemma HandResult(t: Tree, u: Tree, v: Tree, root: Node, node: Node, s: Spot, x: Node, d: nat, ok: bool)
    requires Whole(t, root, node) && TakenOut(t, u, root, node, s) && s.h > 0 && d > 0
    requires Dissolves(t.at, node, map[]) && x == Neighbour(t.at, node, map[]) && x in u.at
    requires ok <==> !Overfull(u, x, |t.at[node].kids|)
    requires ok ==> Below(u, v, s.h)
    requires ok ==>
      Upper(u, v, s.h, u.at[x].parent, if |u.at[x].kids| + |t.at[node].kids| >= MAX_BRANCHES then 1 else 0)
    ensures t.at[node].parent in t.at
    ensures !ok ==> Clashes(t.at, node, map[], d)
    ensures ok ==> (Clashes(t.at, node, map[], d) <==> Clashes(v.at, t.at[node].parent, map[], d - 1))
    ensures ok ==> |v.rows| == |t.rows| && AllRuns(v) == AllRuns(t) && (Spare(t) ==> Spare(v))
    ensures ok ==> Leaves(v) == Leaves(t)
    ensures ok ==> t.at[node].parent in v.at && v.at[t.at[node].parent].height == s.h + 1
  {
    NotItself(t, root, node, s, x);
    ParentInTree(t, x, root, node);
    RootFacts(t, -1);
    assert StaysAt(t, u, node, s.h, x);
    if ok {
      ClashUp(t, u, v, root, node, s, x, d);
      var p := t.at[node].parent;
      assert StaysAt(t, u, node, s.h, p);
      assert UpperAt(u, v, s.h, u.at[x].parent, if |u.at[x].kids| + |t.at[node].kids| >= MAX_BRANCHES then 1 else 0, p);
      TakenSpare(t, u, root, node, s);
      TakenRuns(t, u, root, node, s);
    } else {
      ClashHere(t, u, root, node, s, x, d);
    }
  }

  lemma TakenRuns(t: Tree, u: Tree, root: Node, node: Node, s: Spot)
    requires Whole(t, root, node) && TakenOut(t, u, root, node, s) && s.h > 0
    ensures AllRuns(u) == AllRuns(t) && |u.rows| == |t.rows| && Leaves(u) == Leaves(t)
  {
    assert Row(t.at, 0, t.rows[0]);
    forall n | n in t.rows[0]
      ensures n in t.at && n in u.at && t.at[n].runs == u.at[n].runs
    {
      assert StaysAt(t, u, node, s.h, n);
    }
    RunsFrame(t.at, u.at, t.rows[0]);
    ListFrame(t.at, u.at, t.rows[0]);
  }

  /** On the way up from `node` the program has to stop. */
  ghost predicate ClashesFrom(t: Tree, node: Node) {
    |t.rows| > 0 && node in t.at && t.at[node].height <= Top(t)
    && Clashes(t.at, node, map[], Top(t) - t.at[node].height)
  }

  lemma BranchFacts(t: Tree, root: Node, node: Node)
    requires Whole(t, root, node) && node in t.at && !node.isLeaf
    ensures 0 < t.at[node].height <= Top(t) && |t.rows| > 0
    ensures t.at[node].parent == null ==> node == root && !ClashesFrom(t, node)
    ensures t.at[node].parent != null ==> t.at[node].height < Top(t) && !t.at[node].parent.isLeaf
    ensures !root.isLeaf
  {
    assert NodeOk(t.at, node) && Placed(t, node);
    ParentInTree(t, node, root, node);
    RootFacts(t, -1);
    assert NodeOk(t.at, root);
  }

  /** The cases in which a branch stays, and then the program does not stop. */
  lemma DissolvesIs(t: Tree, node: Node)
    requires node in t.at && t.at[node].parent in t.at
    ensures Dissolves(t.at, node, map[]) <==>
      !(|t.at[node].kids| == 1 && |t.at[t.at[node].parent].kids| == 1)
      && (t.at[node].prev != null || t.at[node].next != null) && |t.at[node].kids| < MIN_BRANCHES
    ensures !Dissolves(t.at, node, map[]) ==> !ClashesFrom(t, node)
  {
  }

  lemma CollapsedRoot(t: Tree, u: Tree, root: Node, node: Node)
    requires root in u.at && u.at[root].parent == null
    ensures !ClashesFrom(u, root)
  {
  }

  lemma ClashesOneUp(t: Tree, u: Tree, root: Node, node: Node, s: Spot, p: Node, d: nat)
    requires |t.rows| > 0 && node in t.at && t.at[node].height == s.h < Top(t) && d == Top(t) - s.h
    requires |u.rows| == |t.rows| && p in u.at && u.at[p].height == s.h + 1
    requires Clashes(t.at, node, map[], d) <==> Clashes(u.at, p, map[], d - 1)
    ensures ClashesFrom(t, node) <==> ClashesFrom(u, p)
    ensures |u.rows| - u.at[p].height < |t.rows| - t.at[node].height
  {
  }

  lemma ClashesNow(t: Tree, node: Node, s: Spot, d: nat)
    requires |t.rows| > 0 && node in t.at && t.at[node].height == s.h < Top(t) && d == Top(t) - s.h
    requires Clashes(t.at, node, map[], d)
    ensures ClashesFrom(t, node)
  {
  }
}
