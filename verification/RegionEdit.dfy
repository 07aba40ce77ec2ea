/** Changing the runs of one leaf: what it does to the tree and to the text. */
module RegionEdit {
  import opened Runs
  import opened RegionTree
  import opened RegionSplit
  import opened RegionLengths
  import opened RegionCascade
  import opened RegionSearch
  import opened RegionFacts

  ghost function WithRuns(t: Tree, leaf: Node, out: seq<Run>): Tree
    requires leaf in t.at
  {
    Tree(t.at[leaf := t.at[leaf].(runs := out)], t.rows)
  }

  lemma WithRunsShape(t: Tree, root: Node, leaf: Node, out: seq<Run>)
    requires Shape(t, -1) && Root(t) == root
    requires leaf in t.at && t.at[leaf].height == 0 && Positive(out) && |out| <= MAX_RUNS
    ensures Shape(WithRuns(t, leaf, out), -1) && Root(WithRuns(t, leaf, out)) == root
  {
    var u := WithRuns(t, leaf, out);
    forall n | n in u.at
      ensures Content(n, u.at[n])
    {
      assert NodeOk(t.at, n);
    }
    ShapeFrame(t, u.at, -1);
  }

  /** Only the entry of the leaf is off now. */
  lemma WithRunsSums(t: Tree, leaf: Node, out: seq<Run>)
    requires Sums(t.at, map[]) && leaf in t.at
    ensures Sums(WithRuns(t, leaf, out).at, map[leaf := NodeLen(t.at[leaf])])
  {
    var bt := WithRuns(t, leaf, out).at;
    forall n, k | n in bt && 0 <= k < |bt[n].kids|
      ensures SumAt(bt, map[leaf := NodeLen(t.at[leaf])], n, k)
    {
      assert SumAt(t.at, map[], n, k);
    }
  }

  lemma WithRunsFill(t: Tree, leaf: Node, out: seq<Run>, low: Node?)
    requires Fill(t, null) && leaf in t.at && t.at[leaf].height == 0
    requires low == leaf || |out| >= |t.at[leaf].runs| || |out| >= MIN_RUNS
    ensures Fill(WithRuns(t, leaf, out), if low == leaf then low else null)
  {
    var u := WithRuns(t, leaf, out);
    forall n | n in u.at
      ensures Filled(u, if low == leaf then low else null, n)
    {
      assert Filled(t, null, n);
    }
  }

  lemma WithRunsAll(t: Tree, leaf: Node, out: seq<Run>, j: nat)
    requires leaf in t.at && |t.rows| > 0 && j < |t.rows[0]| && t.rows[0][j] == leaf && Row(t.at, 0, t.rows[0])
    ensures AllRuns(t) == RunsOf(t.at, t.rows[0][..j]) + t.at[leaf].runs + RunsOf(t.at, t.rows[0][j + 1..])
    ensures AllRuns(WithRuns(t, leaf, out)) == RunsOf(t.at, t.rows[0][..j]) + out + RunsOf(t.at, t.rows[0][j + 1..])
  {
    var row, bt := t.rows[0], WithRuns(t, leaf, out).at;
    RunsAt(t.at, row, j);
    RunsAt(bt, row, j);
    forall n | n in row[..j] || n in row[j + 1..]
      ensures n in t.at && n in bt && t.at[n].runs == bt[n].runs
    {
      assert n in row && n != row[j];
    }
    RunsFrame(t.at, bt, row[..j]);
    RunsFrame(t.at, bt, row[j + 1..]);
  }

  lemma Expand3Parts(a: seq<Run>, m: seq<Run>, b: seq<Run>)
    ensures Expand(a + m + b) == Expand(a) + Expand(m) + Expand(b)
    ensures Total(a + m + b) == Total(a) + Total(m) + Total(b)
  {
    ExpandConcat(a + m, b);
    ExpandConcat(a, m);
  }

  /** The offset of a leaf is the length of the runs before it. */
  lemma LeafOffset(t: Tree, root: Node, low: Node?, j: nat)
    requires Whole(t, root, low) && j <= |t.rows[0]|
    ensures LevelLen(t.at, t.rows[0][..j]) == Total(RunsOf(t.at, t.rows[0][..j]))
  {
    BranchRow(t, root, low, 0);
    LevelRuns(t.at, t.rows[0][..j]);
  }

  lemma LeafFacts(t: Tree, root: Node, low: Node?, leaf: Node, j: nat)
    requires Whole(t, root, low) && j < |t.rows[0]| && t.rows[0][j] == leaf
    ensures leaf in t.at && t.at[leaf].height == 0 && leaf.isLeaf && t.at[leaf].kids == [] && Row(t.at, 0, t.rows[0])
    ensures NodeLen(t.at[leaf]) == Total(t.at[leaf].runs)
    ensures Positive(t.at[leaf].runs) && |t.at[leaf].runs| <= MAX_RUNS
    ensures t.at[leaf].parent != null && t.at[leaf].parent in t.at
    ensures leaf != root
  {
    assert Row(t.at, 0, t.rows[0]);
    assert leaf in t.rows[0];
    assert NodeOk(t.at, leaf);
    ParentInTree(t, leaf, root, low);
  }

  /** Putting a run into the leaf of an offset puts it into the text at that offset. */
  lemma InsertedText(t: Tree, root: Node, leaf: Node, j: nat, within: nat, offset: nat, out: seq<Run>, x: Run)
    requires Whole(t, root, null) && Found(t, leaf, j, within, offset)
    requires within <= Total(t.at[leaf].runs) && Expand(out) == InsertFlat(Expand(t.at[leaf].runs), within, x)
    ensures offset <= Total(AllRuns(t))
    ensures Expand(AllRuns(WithRuns(t, leaf, out))) == InsertFlat(Expand(AllRuns(t)), offset, x)
    ensures Total(AllRuns(WithRuns(t, leaf, out))) == Total(AllRuns(t)) + x.length
  {
    LeafFacts(t, root, null, leaf, j);
    WithRunsAll(t, leaf, out, j);
    LeafOffset(t, root, null, j);
    var a, b := RunsOf(t.at, t.rows[0][..j]), RunsOf(t.at, t.rows[0][j + 1..]);
    Expand3Parts(a, t.at[leaf].runs, b);
    Expand3Parts(a, out, b);
    FlatCut(Expand(AllRuns(t)), Expand(a), Expand(t.at[leaf].runs), Expand(b), within, offset,
        Repeat(x.length, x.data));
  }

  /** The runs `out` are those of the leaf at `offset` with `x` put in, and there is room for them. */
  ghost predicate Insertion(t: Tree, leaf: Node, j: nat, within: nat, offset: nat, out: seq<Run>, x: Run) {
    && Found(t, leaf, j, within, offset)
    && Positive(out) && |t.at[leaf].runs| <= |out| < MAX_RUNS
    && Total(out) == Total(t.at[leaf].runs) + x.length
    && offset <= Total(AllRuns(t))
    && Expand(AllRuns(WithRuns(t, leaf, out))) == InsertFlat(Expand(AllRuns(t)), offset, x)
    && Total(AllRuns(WithRuns(t, leaf, out))) == Total(AllRuns(t)) + x.length
  }

  lemma CutOutOf<T>(s: seq<T>, a: seq<T>, m: seq<T>, b: seq<T>, from: nat, to: nat, p: nat, q: nat)
    requires s == a + m + b && from <= to <= |m| && p == |a| + from && q == |a| + to
    ensures p <= q <= |s| && s[..p] + s[q..] == a + (m[..from] + m[to..]) + b
  {
  }

  /** Taking characters out of the leaf of an offset takes them out of the text. */
  lemma RemovedText(t: Tree, root: Node, leaf: Node, j: nat, within: nat, offset: nat, to: nat, end: nat, out: seq<Run>)
    requires Whole(t, root, null) && Found(t, leaf, j, within, offset)
    requires within <= to <= Total(t.at[leaf].runs) && Expand(out) == RemoveFlat(Expand(t.at[leaf].runs), within, to)
    requires end + within == offset + to
    ensures offset <= end <= Total(AllRuns(t))
    ensures Expand(AllRuns(WithRuns(t, leaf, out))) == RemoveFlat(Expand(AllRuns(t)), offset, end)
    ensures Total(AllRuns(WithRuns(t, leaf, out))) == Total(AllRuns(t)) - (end - offset)
  {
    LeafFacts(t, root, null, leaf, j);
    WithRunsAll(t, leaf, out, j);
    LeafOffset(t, root, null, j);
    var a, b := RunsOf(t.at, t.rows[0][..j]), RunsOf(t.at, t.rows[0][j + 1..]);
    Expand3Parts(a, t.at[leaf].runs, b);
    Expand3Parts(a, out, b);
    CutOutOf(Expand(AllRuns(t)), Expand(a), Expand(t.at[leaf].runs), Expand(b), within, to, offset, end);
  }

  // ---------------------------------------------------------------- after a split

  /** The halves of a leaf are where the leaf was. */
  lemma HalvedLevels(t: Tree, u: Tree, root: Node, leaf: Node, right: Node, j: nat)
    requires Whole(t, root, null) && Whole(u, root, null) && LeafHalved(t, u, leaf, right, j)
    ensures LevelLen(u.at, u.rows[0][..j]) == LevelLen(t.at, t.rows[0][..j])
    ensures LevelLen(u.at, u.rows[0][..j + 2]) == LevelLen(t.at, t.rows[0][..j]) + NodeLen(t.at[leaf])
  {
    LeafFacts(t, root, null, leaf, j);
    LeafFacts(u, root, null, leaf, j);
    LeafFacts(u, root, null, right, j + 1);
    var row := t.rows[0];
    assert u.rows[0][..j] == row[..j];
    forall n | n in row[..j]
      ensures n in t.at && n in u.at && NodeLen(t.at[n]) == NodeLen(u.at[n])
    {
      var i := IndexIn(row[..j], n);
      LeafFacts(t, root, null, n, i);
      LeafFacts(u, root, null, n, i);
    }
    LevelFrame(t.at, u.at, row[..j]);
    LevelAt(u.at, u.rows[0], j);
    LevelAt(u.at, u.rows[0], j + 1);
    var runs := t.at[leaf].runs;
    CutAndGlue(runs, LeftCount(|runs|));
    ExpandConcat(runs[..LeftCount(|runs|)], runs[LeftCount(|runs|)..]);
  }

  /** Looked up again after the split, the offset is in one of the halves. */
  lemma FoundInHalf(t: Tree, u: Tree, root: Node, leaf: Node, right: Node, j: nat, i: nat, within: nat, offset: nat,
                    found: Node, place: nat, within2: nat)
    requires Whole(t, root, null) && Whole(u, root, null) && LeafHalved(t, u, leaf, right, j)
    requires Found(t, leaf, i, within, offset) && Found(u, found, place, within2, offset)
    ensures found == leaf || found == right
    ensures |u.at[found].runs| <= MAX_RUNS / 2 <= MAX_RUNS - 3
  {
    LeafFacts(t, root, null, leaf, j);
    assert i == j;
    HalvedLevels(t, u, root, leaf, right, j);
    LevelAt(u.at, u.rows[0], place);
    if place < j {
      LevelMonotone(u.at, u.rows[0], place + 1, j);
      assert false;
    }
    if place > j + 1 {
      LevelMonotone(u.at, u.rows[0], j + 2, place);
      assert false;
    }
  }

  // ---------------------------------------------------------------- the whole edit

  /** The tree `v` is `u` with some entries' lengths changed. */
  lemma SettledWhole(u: Tree, bt: Store, root: Node, low: Node?)
    requires Shape(u, -1) && Root(u) == root && Fill(u, low) && LengthsOnly(u.at, bt, 0) && Sums(bt, map[])
    ensures Whole(Tree(bt, u.rows), root, low) && AllRuns(Tree(bt, u.rows)) == AllRuns(u)
  {
    LengthsShape(u, bt, -1, 0);
    LengthsFill(u, bt, 0, low);
  }

  /** The leaf stays where it was, so its offset stays right. */
  lemma StillCached(t: Tree, bt: Store, root: Node, leaf: Node, j: nat, within: nat, offset: nat, out: seq<Run>)
    requires Whole(t, root, null) && Found(t, leaf, j, within, offset)
    requires LengthsOnly(WithRuns(t, leaf, out).at, bt, 0)
    ensures CachedAt(Tree(bt, t.rows), leaf, offset - within, j)
  {
    LeafFacts(t, root, null, leaf, j);
    BranchRow(t, root, null, 0);
    forall n | n in t.rows[0][..j]
      ensures n in t.at && n in bt && NodeLen(t.at[n]) == NodeLen(bt[n])
    {
      assert n in t.rows[0] && n != leaf;
      assert LengthsOnlyAt(WithRuns(t, leaf, out).at[n], bt[n], 0);
    }
    LevelFrame(t.at, bt, t.rows[0][..j]);
  }

  lemma GrowSettle(at: Store, bt: Store, node: Node, p: Node, len: nat, e: int, sum: int)
    requires node in bt && p in bt && node != p && e + len == NodeLen(bt[node])
    requires Sums(bt, Carry(map[node := e], node, len, p, sum))
    ensures Sums(bt, map[p := sum])
  {
    assert Carry(map[node := e], node, len, p, sum) == map[p := sum][node := NodeLen(bt[node])];
    SettleSums(bt, map[p := sum], node);
  }

  /** Once the entry of `node` is right, the one of its parent is the only one that is off. */
  lemma GrowStep(t: Tree, node: Node, s: Spot, len: nat, e: int, bt: Store)
    requires Shape(t, -1) && At(t, node, s) && Sums(t.at, map[node := e]) && e + len == NodeLen(t.at[node])
    requires bt == Bumped(t.at, t.at[node].parent, s.k, len)
    ensures Shape(Tree(bt, t.rows), -1) && LengthsOnly(t.at, bt, s.h)
    ensures
      var p := t.at[node].parent;
      && p in bt && Sums(bt, map[p := NodeLen(t.at[p])]) && NodeLen(t.at[p]) + len == NodeLen(bt[p])
      && bt[p].height == t.at[node].height + 1
    ensures Rooted(t) && Rooted(Tree(bt, t.rows)) && Root(Tree(bt, t.rows)) == Root(t)
  {
    var odd := map[node := e];
    Bump(t, -1, node, s, len, odd, bt);
    assert LengthsOnlyAt(t.at[node], bt[node], s.h);
    GrowSettle(t.at, bt, node, t.at[node].parent, len, e, NodeLen(t.at[t.at[node].parent]));
  }

  /** The root has no entry that could be off. */
  lemma GrowEnd(t: Tree, root: Node, e: int)
    requires Shape(t, -1) && Root(t) == root && Sums(t.at, map[root := e])
    ensures Sums(t.at, map[])
  {
    AllLinked(t, -1);
    RootFacts(t, -1);
    forall n, i | n in t.at && 0 <= i < |t.at[n].kids|
      ensures SumAt(t.at, map[], n, i)
    {
      assert SumAt(t.at, map[root := e], n, i) && KidsLinked(t.at, n) && KidAt(t.at, n, i);
    }
  }

  lemma ShapeRooted(t: Tree, gap: int)
    requires Shape(t, gap)
    ensures Rooted(t)
  {
  }

  lemma LengthsSame(at: Store, h: nat)
    ensures LengthsOnly(at, at, h)
  {
  }

  lemma SameTree(t: Tree, rows: seq<seq<Node>>)
    requires t.rows == rows
    ensures t == Tree(t.at, rows)
  {
  }

  lemma NodeSpot(t: Tree, node: Node) returns (s: Spot)
    requires Shape(t, -1) && node in t.at && t.at[node].parent != null
    ensures At(t, node, s) && NoDup(KidNodes(t.at[t.at[node].parent].kids))
    ensures t.at[node].parent in t.at && s.k < |t.at[t.at[node].parent].kids|
    ensures t.at[t.at[node].parent].kids[s.k].node == node
    ensures t.at[t.at[node].parent].height == s.h + 1 < |t.rows| && t.at[node].height == s.h
  {
    RootFacts(t, -1);
    s := FindSpot(t, -1, node);
    assert NodeOk(t.at, t.at[node].parent);
  }

  lemma NoParent(t: Tree, node: Node)
    requires Shape(t, -1) && node in t.at && t.at[node].parent == null
    ensures node == Root(t)
  {
    if node != Root(t) {
      var s := FindSpot(t, -1, node);
    }
  }

  lemma FirstRun(x: Run)
    requires x.length > 0
    ensures Positive([x]) && Expand([x]) == InsertFlat(Expand([]), 0, x)
  {
    ExpandOne(x);
  }

  lemma InsertNothing(s: seq<Data>, offset: nat, d: Data)
    requires offset <= |s|
    ensures InsertFlat(s, offset, Run(0, d)) == s
  {
  }

  /** What the tree is like before the entries above the leaf are brought up to date. */
  lemma LeafChanged(t: Tree, root: Node, leaf: Node, j: nat, out: seq<Run>)
    requires Whole(t, root, null) && j < |t.rows[0]| && t.rows[0][j] == leaf && leaf in t.at
    requires Positive(out) && |out| <= MAX_RUNS && |out| >= |t.at[leaf].runs|
    ensures
      var u := WithRuns(t, leaf, out);
      Shape(u, -1) && Root(u) == root && Fill(u, null) && Sums(u.at, map[leaf := NodeLen(t.at[leaf])])
  {
    LeafFacts(t, root, null, leaf, j);
    WithRunsShape(t, root, leaf, out);
    WithRunsSums(t, leaf, out);
    WithRunsFill(t, leaf, out, null);
  }

  lemma LengthGrown(runs: seq<Run>, out: seq<Run>, x: Run, within: nat)
    requires within <= Total(runs) && Expand(out) == InsertFlat(Expand(runs), within, x)
    ensures Total(out) == Total(runs) + x.length
  {
    assert |Expand(out)| == |Expand(runs)| + x.length;
  }

  // ---------------------------------------------------------------- one slot to spare

  /** No leaf is completely full. */
  ghost predicate Spare(t: Tree) {
    forall n {:trigger SpareAt(t, n)} :: n in t.at ==> SpareAt(t, n)
  }

  ghost predicate SpareAt(t: Tree, n: Node)
    requires n in t.at
  {
    |t.at[n].runs| < MAX_RUNS
  }

  lemma SplitSpare(t: Tree, u: Tree, root: Node, leaf: Node, right: Node, j: nat)
    requires Whole(t, root, null) && Whole(u, root, null) && LeafHalved(t, u, leaf, right, j)
    ensures Spare(t) ==> Spare(u)
  {
    if Spare(t) {
      LeafFacts(t, root, null, leaf, j);
      WidenedMembers(t.rows[0], j, right);
      forall n | n in u.at
        ensures SpareAt(u, n)
      {
        assert NodeOk(u.at, n) && Placed(u, n);
        if u.at[n].height == 0 && n != right {
          assert n in t.at && SpareAt(t, n);
        }
      }
    }
  }

  lemma KeptSpare(t: Tree, u: Tree, leaf: Node, out: seq<Run>)
    requires leaf in t.at && |out| < MAX_RUNS && LengthsOnly(WithRuns(t, leaf, out).at, u.at, 0)
    ensures Spare(t) ==> Spare(u)
  {
    if Spare(t) {
      forall n | n in u.at
        ensures SpareAt(u, n)
      {
        assert LengthsOnlyAt(WithRuns(t, leaf, out).at[n], u.at[n], 0) && SpareAt(t, n);
      }
    }
  }

  lemma InsertionReady(t: Tree, root: Node, leaf: Node, j: nat, within: nat, offset: nat, out: seq<Run>, x: Run)
    requires Whole(t, root, null) && Found(t, leaf, j, within, offset)
    requires Positive(out) && |t.at[leaf].runs| <= |out| < MAX_RUNS
    requires within <= Total(t.at[leaf].runs) && Expand(out) == InsertFlat(Expand(t.at[leaf].runs), within, x)
    ensures Insertion(t, leaf, j, within, offset, out, x)
  {
    InsertedText(t, root, leaf, j, within, offset, out, x);
    LengthGrown(t.at[leaf].runs, out, x, within);
  }

  lemma FoundLeaf(t: Tree, root: Node, leaf: Node, j: nat, within: nat, offset: nat)
    requires Whole(t, root, null) && Found(t, leaf, j, within, offset)
    ensures leaf in t.at && leaf.isLeaf && leaf != root && t.at[leaf].height == 0
    ensures Positive(t.at[leaf].runs) && |t.at[leaf].runs| <= MAX_RUNS
    ensures within <= Total(t.at[leaf].runs) == NodeLen(t.at[leaf]) && within <= offset
    ensures j + 1 < |t.rows[0]| ==> within < Total(t.at[leaf].runs)
    ensures |t.rows| > 0 && j < |t.rows[0]| && t.rows[0][j] == leaf
  {
    LeafFacts(t, root, null, leaf, j);
  }

  lemma InsertionMeans(t: Tree, root: Node, leaf: Node, j: nat, within: nat, offset: nat, out: seq<Run>, x: Run)
    requires Insertion(t, leaf, j, within, offset, out, x)
    ensures Found(t, leaf, j, within, offset)
    ensures Positive(out) && |t.at[leaf].runs| <= |out| < MAX_RUNS
    ensures Total(out) == Total(t.at[leaf].runs) + x.length
    ensures
      var u := AllRuns(WithRuns(t, leaf, out));
      && Total(u) == Total(AllRuns(t)) + x.length
      && offset <= Total(AllRuns(t))
      && Expand(u) == InsertFlat(Expand(AllRuns(t)), offset, x)
  {
  }

  // ---------------------------------------------------------------- a leaf gets shorter

  /** The tree right after the leaf has lost characters; its entry still says the old length. */
  lemma LeafCutShort(t: Tree, root: Node, leaf: Node, j: nat, out: seq<Run>)
    requires Whole(t, root, null) && j < |t.rows[0]| && t.rows[0][j] == leaf && leaf in t.at
    requires Positive(out) && |out| <= MAX_RUNS
    ensures
      var u := WithRuns(t, leaf, out);
      && Shape(u, -1) && Root(u) == root && Fill(u, leaf) && Sums(u.at, map[leaf := NodeLen(t.at[leaf])])
      && (|out| >= MIN_RUNS ==> Fill(u, null)) && leaf in u.at && u.at[leaf].height == 0
      && u.at[leaf].parent == t.at[leaf].parent != null && u.at[leaf].runs == out && u.at.Keys == t.at.Keys
      && u.at[leaf].kids == []
      && forall m :: m in map[leaf := NodeLen(t.at[leaf])] ==> m in u.at && u.at[m].height <= u.at[leaf].height
  {
    LeafFacts(t, root, null, leaf, j);
    WithRunsShape(t, root, leaf, out);
    WithRunsSums(t, leaf, out);
    WithRunsFill(t, leaf, out, leaf);
    if |out| >= MIN_RUNS {
      WithRunsFill(t, leaf, out, null);
    }
  }

  /** The tree once the parents know of the loss. */
  lemma LeafSettled(t: Tree, root: Node, leaf: Node, j: nat, out: seq<Run>, cut: int, u: Tree)
    requires Whole(t, root, null) && j < |t.rows[0]| && t.rows[0][j] == leaf && leaf in t.at
    requires Positive(out) && |out| <= MAX_RUNS && Total(out) + cut == Total(t.at[leaf].runs)
    requires u.rows == t.rows && LengthsOnly(WithRuns(t, leaf, out).at, u.at, 0)
    requires Sums(u.at, Shift(map[leaf := NodeLen(t.at[leaf])], leaf, -cut))
    ensures Whole(u, root, leaf) && (|out| >= MIN_RUNS ==> Whole(u, root, null))
    ensures AllRuns(u) == AllRuns(WithRuns(t, leaf, out))
    ensures leaf in u.at && u.at[leaf].runs == out && u.at.Keys == t.at.Keys
  {
    hide *;
    LeafFacts(t, root, null, leaf, j);
    LeafCutShort(t, root, leaf, j, out);
    var v := WithRuns(t, leaf, out);
    ShrunkEntry(v.at, u.at, leaf, NodeLen(t.at[leaf]), cut);
    RowsOfWith(t, leaf, out);
    assert u == Tree(u.at, v.rows);
    SettledWhole(v, u.at, root, leaf);
    if |out| >= MIN_RUNS {
      SettledWhole(v, u.at, root, null);
    }
  }

  lemma RowsOfWith(t: Tree, leaf: Node, out: seq<Run>)
    requires leaf in t.at
    ensures WithRuns(t, leaf, out).rows == t.rows
  {
  }

  /** The entry of the leaf is right again when what it lost has been taken off. */
  lemma ShrunkEntry(at: Store, bt: Store, leaf: Node, e: int, cut: int)
    requires leaf in at && LengthsOnly(at, bt, 0) && at[leaf].height == 0 && at[leaf].kids == []
    requires Total(at[leaf].runs) + cut == e && Sums(bt, Shift(map[leaf := e], leaf, -cut))
    ensures Sums(bt, map[]) && leaf in bt && bt[leaf].runs == at[leaf].runs && bt.Keys == at.Keys
  {
    assert LengthsOnlyAt(at[leaf], bt[leaf], 0);
    assert Shift(map[leaf := e], leaf, -cut) == map[][leaf := NodeLen(bt[leaf])];
    SettleSums(bt, map[], leaf);
  }

  /** Where the characters of a removal lie. */
  lemma RemovalLeaf(t: Tree, root: Node, leaf: Node, j: nat, within: nat, offset: nat, n: nat)
    requires Whole(t, root, null) && Found(t, leaf, j, within, offset)
    requires offset < Total(AllRuns(t)) && n <= Total(AllRuns(t)) - offset
    ensures leaf in t.at && leaf.isLeaf && Positive(t.at[leaf].runs) && |t.at[leaf].runs| <= MAX_RUNS
    ensures within < Total(t.at[leaf].runs) && within <= offset
    ensures j < |t.rows[0]| && t.rows[0][j] == leaf
  {
    LeafFacts(t, root, null, leaf, j);
    LevelTotal(t, root, null, 0);
    LevelAt(t.at, t.rows[0], j);
    if j + 1 == |t.rows[0]| {
      assert t.rows[0][j + 1..] == [];
    }
  }

  lemma LeafRemoval(t: Tree, root: Node, leaf: Node, j: nat, within: nat, offset: nat, n: nat, join: JoinFunc,
                    out: seq<Run>, rest: nat, to: nat)
    requires Whole(t, root, null) && Found(t, leaf, j, within, offset) && within < Total(t.at[leaf].runs) && n > 0
    requires within <= offset && Removed(join, offset - within, t.at[leaf].runs, within, n, out, rest, to)
    ensures Positive(out) && rest < n && offset + (n - rest) <= Total(AllRuns(t))
    ensures Total(out) + (n - rest) == Total(t.at[leaf].runs)
    ensures
      var u := AllRuns(WithRuns(t, leaf, out));
      && Expand(u) == RemoveFlat(Expand(AllRuns(t)), offset, offset + (n - rest))
      && Total(u) == Total(AllRuns(t)) - (n - rest)
    ensures !AddsRun(join, offset - within, t.at[leaf].runs, within, n) ==> |out| <= |t.at[leaf].runs|
    ensures within + n <= Total(t.at[leaf].runs) ==> rest == 0
  {
    hide *;
    FoundLeaf(t, root, leaf, j, within, offset);
    RemovedMeans(join, offset - within, t.at[leaf].runs, within, n, out, rest, to);
    RemovedText(t, root, leaf, j, within, offset, to, offset + (n - rest), out);
  }

  lemma RemovedMeans(join: JoinFunc, base: nat, runs: seq<Run>, within: nat, n: nat, out: seq<Run>, rest: nat, to: nat)
    requires Removed(join, base, runs, within, n, out, rest, to) && within < Total(runs) && n > 0
    ensures Positive(out) && rest < n && within <= to <= Total(runs) && to == within + n - rest
    ensures Expand(out) == RemoveFlat(Expand(runs), within, to)
    ensures Total(out) + (n - rest) == Total(runs)
    ensures !AddsRun(join, base, runs, within, n) ==> |out| <= |runs|
    ensures within + n <= Total(runs) ==> rest == 0
  {
    assert |Expand(out)| == |Expand(runs)| - (to - within);
  }

  /** Removing in two steps at one offset. */
  lemma RemoveTwice(s: seq<Data>, offset: nat, k: nat, rest: nat)
    requires offset + k + rest <= |s|
    ensures RemoveFlat(RemoveFlat(s, offset, offset + k), offset, offset + rest) == RemoveFlat(s, offset,
      offset + k + rest)
  {
  }

  lemma RemoveNothing(s: seq<Data>, offset: nat)
    requires offset <= |s|
    ensures RemoveFlat(s, offset, offset) == s
  {
  }

  /** `offset` lies in leaf `j`, `within` characters from its start. */
  ghost predicate Lies(t: Tree, j: nat, within: nat, offset: nat) {
    |t.rows| > 0 && j < |t.rows[0]| && Found(t, t.rows[0][j], j, within, offset)
  }

  /** The `n` characters at `within` are all in leaf `j`. */
  ghost predicate InOneLeaf(t: Tree, j: nat, within: nat, n: nat) {
    |t.rows| > 0 && j < |t.rows[0]| && t.rows[0][j] in t.at && within + n <= Total(t.at[t.rows[0][j]].runs)
  }

  /** Leaf `j` is full and the removal would need one more slot in it. */
  ghost predicate Crowded(t: Tree, join: JoinFunc, j: nat, within: nat, offset: nat, n: nat) {
    && |t.rows| > 0 && j < |t.rows[0]| && t.rows[0][j] in t.at && within <= offset
    && var runs := t.at[t.rows[0][j]].runs;
    && |runs| >= MAX_RUNS && AddsRun(join, offset - within, runs, within, n)
  }

  lemma CrowdedIs(t: Tree, join: JoinFunc, leaf: Node, j: nat, within: nat, offset: nat, n: nat)
    requires leaf in t.at && within <= offset && |t.rows| > 0 && j < |t.rows[0]| && t.rows[0][j] == leaf
    ensures Crowded(t, join, j, within, offset, n) <==>
      |t.at[leaf].runs| >= MAX_RUNS && AddsRun(join, offset - within, t.at[leaf].runs, within, n)
    ensures InOneLeaf(t, j, within, n) <==> within + n <= Total(t.at[leaf].runs)
  {
  }

  lemma LiesOnly(t: Tree, root: Node, leaf: Node, j: nat, within: nat, offset: nat)
    requires Whole(t, root, null) && Found(t, leaf, j, within, offset)
    ensures forall i: nat, w: nat :: Lies(t, i, w, offset) ==> i == j && w == within
  {
    forall i: nat, w: nat | Lies(t, i, w, offset)
      ensures i == j && w == within
    {
      FoundUnique(t, root, leaf, j, within, t.rows[0][i], i, w, offset);
    }
  }

  /** A callback that joins all equal neighbours never leaves a removal with one more run. */
  lemma EagerSpare(t: Tree, join: JoinFunc, leaf: Node, within: nat, offset: nat, n: nat)
    requires leaf in t.at && within <= offset
    ensures EagerJoin(join) ==> !AddsRun(join, offset - within, t.at[leaf].runs, within, n)
    ensures Spare(t) ==> |t.at[leaf].runs| < MAX_RUNS
  {
    assert Spare(t) ==> SpareAt(t, leaf);
  }

  lemma ReplacedFlat(s: seq<Data>, offset: nat, len: nat, d: Data)
    requires offset + len <= |s|
    ensures InsertFlat(RemoveFlat(s, offset, offset + len), offset, Run(len, d)) == s[..offset] + Repeat(len, d)
      + s[offset + len..]
  {
  }

  lemma NewRegion(t: Tree, root: Node, leaf: Node)
    requires root != leaf && !root.isLeaf && leaf.isLeaf
    requires t.rows == [[leaf], [root]] && t.at.Keys == {root, leaf}
    requires t.at[root] == Rec(null, null, null, [Child(leaf, 0)], [], 1)
    requires t.at[leaf] == Rec(root, null, null, [], [], 0)
    ensures Whole(t, root, null) && AllRuns(t) == [] && Spare(t)
  {
    NewShape(t, root, leaf);
    RunsOne(t.at, leaf);
    forall n | n in t.at
      ensures SpareAt(t, n)
    {
    }
  }

  lemma {:induction false} PositiveRow(at: Store, row: seq<Node>)
    requires forall n :: n in row ==> n in at && Positive(at[n].runs)
    ensures Positive(RunsOf(at, row))
  {
    if row != [] {
      PositiveRow(at, row[1..]);
    }
  }

  /** The runs of the region are all positive. */
  lemma PositiveRuns(t: Tree, root: Node, low: Node?)
    requires Whole(t, root, low)
    ensures Positive(AllRuns(t))
  {
    assert Row(t.at, 0, t.rows[0]);
    forall n | n in t.rows[0]
      ensures n in t.at && Positive(t.at[n].runs)
    {
      assert NodeOk(t.at, n);
    }
    PositiveRow(t.at, t.rows[0]);
  }
}
