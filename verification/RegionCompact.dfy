/** Taking an underfull node out and handing its entries to a neighbour. */
module RegionCompact {
  import opened Runs
  import opened RegionTree
  import opened RegionSplit
  import opened RegionLengths
  import opened RegionCascade
  import opened RegionEdit

  /** Everything but one thing: the entries of the children in row `gap` may have no owner yet. */
  ghost predicate Gapped(t: Tree, gap: int, root: Node, low: Node?) {
    Shape(t, gap) && Root(t) == root && Sums(t.at, map[]) && Fill(t, low)
  }

  /** The same while the entry of `target` says `e` instead of its length. */
  ghost predicate Loose(t: Tree, gap: int, root: Node, low: Node?, target: Node, e: int) {
    Shape(t, gap) && Root(t) == root && Fill(t, low) && target in t.at && Sums(t.at, map[target := e])
  }

  lemma WholeGapped(t: Tree, root: Node, low: Node?)
    ensures Whole(t, root, low) <==> Gapped(t, -1, root, low)
  {
  }

  lemma LooseAtFirst(t: Tree, gap: int, root: Node, low: Node?, target: Node)
    requires Gapped(t, gap, root, low) && target in t.at
    ensures Loose(t, gap, root, low, target, NodeLen(t.at[target]))
  {
    forall n, i | n in t.at && 0 <= i < |t.at[n].kids|
      ensures SumAt(t.at, map[target := NodeLen(t.at[target])], n, i)
    {
      assert SumAt(t.at, map[], n, i);
    }
  }

  /** What telling the parents about `added` characters leads to. */
  lemma Flushed(t: Tree, bt: Store, gap: int, root: Node, low: Node?, target: Node, e: int, added: nat)
    requires Loose(t, gap, root, low, target, e) && e + added == NodeLen(t.at[target])
    requires LengthsOnly(t.at, bt, t.at[target].height) && Sums(bt, Shift(map[target := e], target, added))
    ensures Gapped(Tree(bt, t.rows), gap, root, low)
    ensures AllRuns(Tree(bt, t.rows)) == AllRuns(t)
  {
    LengthsShape(t, bt, gap, t.at[target].height);
    LengthsFill(t, bt, t.at[target].height, low);
    assert LengthsOnlyAt(t.at[target], bt[target], t.at[target].height);
    assert Shift(map[target := e], target, added) == map[][target := NodeLen(bt[target])];
    SettleSums(bt, map[], target);
  }

  lemma LooseMeans(t: Tree, gap: int, root: Node, low: Node?, target: Node, e: int)
    requires Loose(t, gap, root, low, target, e)
    ensures Shape(t, gap) && Sums(t.at, map[target := e]) && target in t.at && |t.rows| > 0
    ensures forall m :: m in map[target := e] ==> m in t.at && t.at[m].height <= t.at[target].height
  {
  }

  lemma SameKeys(at: Store, bt: Store, h: nat)
    requires LengthsOnly(at, bt, h)
    ensures at.Keys == bt.Keys
  {
  }

  // ---------------------------------------------------------------- runs of a leaf move

  /** The leaves before place `c` hold `front`, the others `back`. */
  ghost predicate Cut(t: Tree, c: nat, front: seq<Run>, back: seq<Run>) {
    && |t.rows| > 0 && c <= |t.rows[0]|
    && RunsOf(t.at, t.rows[0][..c]) == front && RunsOf(t.at, t.rows[0][c..]) == back
  }

  lemma CutAll(t: Tree, c: nat, front: seq<Run>, back: seq<Run>)
    requires Cut(t, c, front, back)
    ensures AllRuns(t) == front + back
  {
    CutAndGlue(t.rows[0], c);
    RunsConcat(t.at, t.rows[0][..c], t.rows[0][c..]);
  }

  lemma CutFrame(t: Tree, bt: Store, c: nat, front: seq<Run>, back: seq<Run>, h: nat)
    requires Cut(t, c, front, back) && Row(t.at, 0, t.rows[0]) && LengthsOnly(t.at, bt, h)
    ensures Cut(Tree(bt, t.rows), c, front, back)
  {
    forall n | n in t.rows[0]
      ensures n in t.at && n in bt && t.at[n].runs == bt[n].runs
    {
      assert LengthsOnlyAt(t.at[n], bt[n], h);
    }
    RunsFrame(t.at, bt, t.rows[0][..c]);
    RunsFrame(t.at, bt, t.rows[0][c..]);
  }

  lemma OthersKept(t: Tree, leaf: Node, out: seq<Run>, j: nat, part: seq<Node>)
    requires leaf in t.at && leaf !in part && forall n :: n in part ==> n in t.at
    ensures RunsOf(WithRuns(t, leaf, out).at, part) == RunsOf(t.at, part)
  {
    RunsFrame(t.at, WithRuns(t, leaf, out).at, part);
  }

  lemma TakeLast<T>(s: seq<T>, j: nat)
    requires j < |s|
    ensures s[..j + 1] == s[..j] + [s[j]] && s[j..] == [s[j]] + s[j + 1..]
  {
  }

  lemma RunsTake(at: Store, row: seq<Node>, j: nat)
    requires j < |row| && row[j] in at
    ensures RunsOf(at, row[..j + 1]) == RunsOf(at, row[..j]) + at[row[j]].runs
    ensures RunsOf(at, row[j..]) == at[row[j]].runs + RunsOf(at, row[j + 1..])
  {
    TakeLast(row, j);
    RunsConcat(at, row[..j], [row[j]]);
    RunsConcat(at, [row[j]], row[j + 1..]);
    RunsOne(at, row[j]);
  }

  /** Changing the runs of the leaf at place `j`, seen from the cut before or after it. */
  lemma CutWith(t: Tree, leaf: Node, j: nat, out: seq<Run>)
    requires |t.rows| > 0 && Row(t.at, 0, t.rows[0]) && j < |t.rows[0]| && t.rows[0][j] == leaf && leaf in t.at
    ensures
      var u := WithRuns(t, leaf, out);
      && RunsOf(u.at, t.rows[0][..j]) == RunsOf(t.at, t.rows[0][..j])
      && RunsOf(u.at, t.rows[0][j + 1..]) == RunsOf(t.at, t.rows[0][j + 1..])
  {
    var row := t.rows[0];
    forall n | n in row[..j] || n in row[j + 1..]
      ensures n in t.at && n != leaf
    {
      assert n in row;
    }
    OthersKept(t, leaf, out, j, row[..j]);
    OthersKept(t, leaf, out, j, row[j + 1..]);
  }

  lemma CutPushBack(t: Tree, leaf: Node, j: nat, r: Run, front: seq<Run>, back: seq<Run>)
    requires Cut(t, j + 1, front, back) && Row(t.at, 0, t.rows[0]) && t.rows[0][j] == leaf && leaf in t.at
    ensures Cut(WithRuns(t, leaf, t.at[leaf].runs + [r]), j + 1, front + [r], back)
  {
    var u := WithRuns(t, leaf, t.at[leaf].runs + [r]);
    CutWith(t, leaf, j, t.at[leaf].runs + [r]);
    RunsTake(t.at, t.rows[0], j);
    RunsTake(u.at, t.rows[0], j);
    Assoc(RunsOf(t.at, t.rows[0][..j]), t.at[leaf].runs, [r]);
  }

  lemma CutPushFront(t: Tree, leaf: Node, j: nat, r: Run, front: seq<Run>, back: seq<Run>)
    requires Cut(t, j, front, back) && Row(t.at, 0, t.rows[0]) && j < |t.rows[0]| && t.rows[0][j] == leaf
      && leaf in t.at
    ensures Cut(WithRuns(t, leaf, [r] + t.at[leaf].runs), j, front, [r] + back)
  {
    var u := WithRuns(t, leaf, [r] + t.at[leaf].runs);
    CutWith(t, leaf, j, [r] + t.at[leaf].runs);
    RunsTake(t.at, t.rows[0], j);
    RunsTake(u.at, t.rows[0], j);
    Assoc([r], t.at[leaf].runs, RunsOf(t.at, t.rows[0][j + 1..]));
  }

  lemma LeafRow(t: Tree, gap: int)
    requires Shape(t, gap)
    ensures Row(t.at, 0, t.rows[0])
  {
  }

  /** One more run in a leaf keeps everything but its entry. */
  lemma PushedRun(t: Tree, root: Node, low: Node?, leaf: Node, e: int, out: seq<Run>, r: Run)
    requires Loose(t, -1, root, low, leaf, e) && t.at[leaf].height == 0
    requires out == t.at[leaf].runs + [r] || out == [r] + t.at[leaf].runs
    requires r.length > 0 && |out| <= MAX_RUNS
    ensures Loose(WithRuns(t, leaf, out), -1, root, low, leaf, e)
    ensures NodeLen(WithRuns(t, leaf, out).at[leaf]) == NodeLen(t.at[leaf]) + r.length
  {
    var u := WithRuns(t, leaf, out);
    assert NodeOk(t.at, leaf);
    WithRunsShape(t, root, leaf, out);
    forall n, k | n in u.at && 0 <= k < |u.at[n].kids|
      ensures SumAt(u.at, map[leaf := e], n, k)
    {
      assert SumAt(t.at, map[leaf := e], n, k);
    }
    forall n | n in u.at
      ensures Filled(u, low, n)
    {
      assert Filled(t, low, n);
    }
    ExpandConcat(t.at[leaf].runs, [r]);
    ExpandConcat([r], t.at[leaf].runs);
    ExpandOne(r);
  }

  /** The cut stays when the leaf after it is split. */
  lemma CutSplitAfter(t: Tree, u: Tree, leaf: Node, right: Node, j: nat, front: seq<Run>, back: seq<Run>)
    requires Cut(t, j, front, back) && LeafHalved(t, u, leaf, right, j) && Row(t.at, 0, t.rows[0])
    ensures Cut(u, j, front, back) && u.rows[0][j] == leaf && j < |u.rows[0]|
  {
    HalvedRuns(t, u, leaf, right, j);
    RunsTake(t.at, t.rows[0], j);
    RunsTake(u.at, u.rows[0], j);
    RunsTake(u.at, u.rows[0], j + 1);
    Assoc(u.at[leaf].runs, u.at[right].runs, RunsOf(u.at, u.rows[0][j + 2..]));
  }

  /** The cut moves behind the right half when the leaf before it is split. */
  lemma CutSplitBefore(t: Tree, u: Tree, leaf: Node, right: Node, j: nat, front: seq<Run>, back: seq<Run>)
    requires Cut(t, j + 1, front, back) && LeafHalved(t, u, leaf, right, j) && Row(t.at, 0, t.rows[0])
    ensures Cut(u, j + 2, front, back) && j + 1 < |u.rows[0]| && u.rows[0][j + 1] == right
  {
    HalvedRuns(t, u, leaf, right, j);
    RunsTake(t.at, t.rows[0], j);
    RunsTake(u.at, u.rows[0], j);
    RunsTake(u.at, u.rows[0], j + 1);
    Assoc(RunsOf(u.at, u.rows[0][..j]), u.at[leaf].runs, u.at[right].runs);
  }

  lemma HalvedRuns(t: Tree, u: Tree, leaf: Node, right: Node, j: nat)
    requires LeafHalved(t, u, leaf, right, j) && Row(t.at, 0, t.rows[0])
    ensures u.rows[0][..j] == t.rows[0][..j] && |u.rows[0]| == |t.rows[0]| + 1
    ensures u.rows[0][j + 2..] == t.rows[0][j + 1..]
    ensures u.rows[0][j] == leaf && u.rows[0][j + 1] == right
    ensures RunsOf(u.at, u.rows[0][..j]) == RunsOf(t.at, t.rows[0][..j])
    ensures RunsOf(u.at, u.rows[0][j + 2..]) == RunsOf(t.at, t.rows[0][j + 1..])
    ensures u.at[leaf].runs + u.at[right].runs == t.at[leaf].runs
  {
    var row := t.rows[0];
    WidenedParts(row, j, right);
    forall n | n in row[..j] || n in row[j + 1..]
      ensures n in t.at && n in u.at && t.at[n].runs == u.at[n].runs
    {
      assert n in row && n != leaf;
    }
    RunsFrame(t.at, u.at, row[..j]);
    RunsFrame(t.at, u.at, row[j + 1..]);
    CutAndGlue(t.at[leaf].runs, LeftCount(|t.at[leaf].runs|));
  }

  lemma WidenedParts(row: seq<Node>, j: nat, right: Node)
    requires j < |row|
    ensures Widened(row, j, right)[..j] == row[..j] && Widened(row, j, right)[j + 2..] == row[j + 1..]
  {
  }

  // ---------------------------------------------------------------- where the loop of a leaf stands

  /** `target` takes runs right behind the cut at `c`; its entry says `e` and lacks `added` characters. */
  ghost predicate Filling(t: Tree, root: Node, low: Node?, target: Node, e: int, added: nat, c: nat, j: nat,
                          front: seq<Run>, back: seq<Run>) {
    && Loose(t, -1, root, low, target, e) && e + added == NodeLen(t.at[target])
    && Cut(t, c, front, back) && j < |t.rows[0]| && t.rows[0][j] == target && t.at[target].height == 0
  }

  lemma FillingStart(t: Tree, root: Node, low: Node?, target: Node, c: nat, j: nat, front: seq<Run>, back: seq<Run>)
    requires Whole(t, root, low) && Cut(t, c, front, back) && j < |t.rows[0]| && t.rows[0][j] == target
    ensures target in t.at && target.isLeaf
    ensures Filling(t, root, low, target, NodeLen(t.at[target]), 0, c, j, front, back)
  {
    WholeGapped(t, root, low);
    LeafFacts(t, root, low, target, j);
    LooseAtFirst(t, -1, root, low, target);
  }

  lemma FillingMeans(t: Tree, root: Node, low: Node?, target: Node, e: int, added: nat, c: nat, j: nat,
                     front: seq<Run>, back: seq<Run>)
    requires Filling(t, root, low, target, e, added, c, j, front, back)
    ensures Loose(t, -1, root, low, target, e) && Shape(t, -1) && Sums(t.at, map[target := e]) && target in t.at
    ensures e + added == NodeLen(t.at[target]) && t.at[target].height == 0 && Cut(t, c, front, back)
    ensures |t.at[target].runs| <= MAX_RUNS && target.isLeaf
    ensures AllRuns(t) == front + back
    ensures |t.at[target].runs| >= MAX_RUNS - 1 ==> NearlyFull(t.at[target])
  {
    assert NodeOk(t.at, target);
    CutAll(t, c, front, back);
  }

  lemma FillingFlushed(t: Tree, u: Tree, root: Node, low: Node?, target: Node, e: int, added: nat, c: nat, j: nat,
                       front: seq<Run>, back: seq<Run>)
    requires Filling(t, root, low, target, e, added, c, j, front, back)
    requires u.rows == t.rows && LengthsOnly(t.at, u.at, 0) && Whole(u, root, low)
    ensures Cut(u, c, front, back) && u.rows[0][j] == target && j < |u.rows[0]| && target in u.at
    ensures u.at[target] == t.at[target]
    ensures AllRuns(u) == front + back
  {
    LeafRow(t, -1);
    CutFrame(t, u.at, c, front, back, 0);
    assert u == Tree(u.at, t.rows);
    assert LengthsOnlyAt(t.at[target], u.at[target], 0);
    CutAll(u, c, front, back);
  }

  lemma FillingFront(t: Tree, root: Node, low: Node?, target: Node, e: int, added: nat, j: nat, r: Run,
                     front: seq<Run>, back: seq<Run>)
    requires Filling(t, root, low, target, e, added, j, j, front, back)
    requires r.length > 0 && |t.at[target].runs| < MAX_RUNS
    ensures
      Filling(WithRuns(t, target, [r] + t.at[target].runs), root, low, target, e, added + r.length, j, j, front,
          [r] + back)
  {
    PushedRun(t, root, low, target, e, [r] + t.at[target].runs, r);
    LeafRow(t, -1);
    CutPushFront(t, target, j, r, front, back);
  }

  lemma FillingBack(t: Tree, root: Node, low: Node?, target: Node, e: int, added: nat, j: nat, r: Run,
                    front: seq<Run>, back: seq<Run>)
    requires Filling(t, root, low, target, e, added, j + 1, j, front, back)
    requires r.length > 0 && |t.at[target].runs| < MAX_RUNS
    ensures
      Filling(WithRuns(t, target, t.at[target].runs + [r]), root, low, target, e, added + r.length, j + 1, j,
          front + [r], back)
  {
    PushedRun(t, root, low, target, e, t.at[target].runs + [r], r);
    LeafRow(t, -1);
    CutPushBack(t, target, j, r, front, back);
  }

  lemma FillingSplit(t: Tree, u: Tree, root: Node, low: Node?, target: Node, right: Node, c: nat, j: nat, i: nat,
                     front: seq<Run>, back: seq<Run>)
    requires Whole(t, root, low) && Whole(u, root, low) && Cut(t, c, front, back) && (c == j || c == j + 1)
    requires j < |t.rows[0]| && t.rows[0][j] == target && LeafHalved(t, u, target, right, i)
    ensures c == j ==> Filling(u, root, low, target, NodeLen(u.at[target]), 0, j, j, front, back)
    ensures c == j + 1 ==>
      right in u.at && Filling(u, root, low, right, NodeLen(u.at[right]), 0, j + 2, j + 1, front, back)
    ensures target in u.at && right in u.at && |u.at[target].runs| <= MAX_RUNS / 2 && |u.at[right].runs| <= MAX_RUNS / 2
  {
    LeafFacts(t, root, low, target, j);
    assert i == j;
    if c == j {
      CutSplitAfter(t, u, target, right, j, front, back);
      FillingStart(u, root, low, target, j, j, front, back);
    } else {
      CutSplitBefore(t, u, target, right, j, front, back);
      FillingStart(u, root, low, right, j + 2, j + 1, front, back);
    }
  }

  lemma HalfLess()
    ensures MAX_RUNS / 2 + 1 < MAX_RUNS
  {
  }

  lemma KeptKeys(t: Tree, u: Tree, node: Node)
    requires node in t.at && NodeSplitDone(t, u, node)
    ensures t.at.Keys <= u.at.Keys
  {
    forall n | n in t.at
      ensures n in u.at
    {
      assert KeptAt(t, u, t.at[node].height, n);
    }
  }

  lemma FlushSpare(t: Tree, u: Tree, v: Tree, root: Node, low: Node?, leaf: Node, right: Node, j: nat)
    requires Whole(u, root, low) && Whole(v, root, low) && LengthsOnly(t.at, u.at, 0)
      && LeafHalved(u, v, leaf, right, j)
    ensures Spare(t) ==> Spare(v)
  {
    if Spare(t) {
      LengthsSpare(t, u, 0);
      LeafFacts(u, root, low, leaf, j);
      WidenedMembers(u.rows[0], j, right);
      forall n | n in v.at
        ensures SpareAt(v, n)
      {
        assert NodeOk(v.at, n) && Placed(v, n);
        if v.at[n].height == 0 && n != right {
          assert n in u.at && SpareAt(u, n);
        }
      }
    }
  }

  lemma LengthsSpare(t: Tree, u: Tree, h: nat)
    requires LengthsOnly(t.at, u.at, h)
    ensures Spare(t) ==> Spare(u)
  {
    if Spare(t) {
      forall n | n in u.at
        ensures SpareAt(u, n)
      {
        assert LengthsOnlyAt(t.at[n], u.at[n], h) && SpareAt(t, n);
      }
    }
  }

  lemma WithSpare(t: Tree, leaf: Node, out: seq<Run>)
    requires leaf in t.at && |out| < MAX_RUNS
    ensures Spare(t) ==> Spare(WithRuns(t, leaf, out))
  {
    if Spare(t) {
      forall n | n in t.at
        ensures SpareAt(WithRuns(t, leaf, out), n)
      {
        assert SpareAt(t, n);
      }
    }
  }

  lemma PositiveAt(runs: seq<Run>, i: nat)
    requires Positive(runs) && i < |runs|
    ensures runs[i].length > 0
  {
  }

  lemma NoneYet(runs: seq<Run>, back: seq<Run>)
    ensures runs[|runs|..] + back == back
    ensures runs[0..] + back == runs + back
  {
  }

  lemma NextFront(runs: seq<Run>, i: nat, back: seq<Run>)
    requires i < |runs|
    ensures runs[i..] + back == [runs[i]] + (runs[i + 1..] + back)
  {
  }

  lemma AllYet(runs: seq<Run>, front: seq<Run>)
    ensures front + runs[..0] == front
    ensures front + runs[..|runs|] == front + runs
  {
  }

  lemma NextBack(runs: seq<Run>, i: nat, front: seq<Run>)
    requires i < |runs|
    ensures front + runs[..i + 1] == (front + runs[..i]) + [runs[i]]
  {
  }
}
