/** When an operation on a region needs more slots than there are, and what it does to the list of all runs. */
module RegionRoom {
  import opened Runs
  import opened RegionTree
  import opened RegionCascade
  import opened RegionSearch
  import opened RegionEdit
  import opened RegionHeadroom
  import opened RegionBounds

  // ---------------------------------------------------------------- few runs

  /** The least number of runs of a region with a full branch two rows above the leaves that has a sibling. */
  const MANY: nat := (MAX_BRANCHES + MIN_BRANCHES) * MIN_BRANCHES * MIN_RUNS

  lemma WideRow(t: Tree, root: Node, n: Node, h: nat)
    requires Whole(t, root, null) && n in t.at && t.at[n].height == h && 0 < h < |t.rows| && |t.rows[h]| >= 2
    requires |t.at[n].kids| >= MAX_BRANCHES
    ensures |t.rows[h - 1]| >= MAX_BRANCHES + MIN_BRANCHES
  {
    var row := t.rows[h];
    assert Row(t.at, h, row) && KidRow(t, h - 1) && Placed(t, n);
    forall m | m in row
      ensures m in t.at && |t.at[m].kids| >= MIN_BRANCHES
    {
      assert Filled(t, null, m);
    }
    var j := IndexIn(row, n);
    FlatAt(t.at, row, j);
    var a, b := row[..j], row[j + 1..];
    forall m | m in a || m in b
      ensures m in row
    {
    }
    ManyKids(t.at, a);
    ManyKids(t.at, b);
    assert |KidsOf(t.at, n)| == |t.at[n].kids| && |a| + |b| >= 1;
  }

  lemma {:induction false} RowsGrow(t: Tree, root: Node, h: nat, k: nat)
    requires Whole(t, root, null) && k <= h < |t.rows| && |t.rows[h]| >= 2
    ensures |t.rows[h - k]| >= |t.rows[h]|
  {
    if k > 0 {
      RowsGrow(t, root, h, k - 1);
      RowBelow(t, root, h - k + 1);
    }
  }

  lemma FullBranch(t: Tree, root: Node, n: Node)
    requires Whole(t, root, null) && n in t.at && 2 <= t.at[n].height < |t.rows| && |t.rows[t.at[n].height]| >= 2
    requires |t.at[n].kids| >= MAX_BRANCHES
    ensures |AllRuns(t)| >= MANY
  {
    hide *;
    var h := t.at[n].height;
    WideRow(t, root, n, h);
    EightEach(t, root, h - 1);
    var low := h - 2;
    RowsGrow(t, root, low, low);
    EightRuns(t, root);
    ManyIs(|t.rows[h - 1]|, |t.rows[low]|, |AllRuns(t)|, |t.rows[0]|);
  }

  lemma EightEach(t: Tree, root: Node, h: nat)
    requires Whole(t, root, null) && 0 < h < |t.rows| && |t.rows[h]| >= MAX_BRANCHES + MIN_BRANCHES
    ensures |t.rows[h - 1]| >= 8 * |t.rows[h]| && |t.rows[h - 1]| >= 2 && |t.rows[h]| >= 34
  {
    RowBelow(t, root, h);
  }

  lemma EightRuns(t: Tree, root: Node)
    requires Whole(t, root, null) && |t.rows| > 0 && |t.rows[0]| >= 2
    ensures |AllRuns(t)| >= 8 * |t.rows[0]|
  {
    LeavesHold(t, root);
  }

  lemma ManyIs(a: nat, b: nat, runs: nat, leaves: nat)
    requires a >= 34 && b >= 8 * a && leaves >= b && runs >= 8 * leaves
    ensures runs >= MANY
  {
  }

  /** A region of few runs has headroom, so that no compaction stops the program. */
  lemma FewHeadroom(t: Tree, root: Node)
    requires Whole(t, root, null) && |AllRuns(t)| < MANY
    ensures Headroom(t)
  {
    forall n | n in t.at
      ensures HeadroomAt(t, n)
    {
      if 2 <= t.at[n].height < |t.rows| && |t.rows[t.at[n].height]| > 1 && |t.at[n].kids| >= MAX_BRANCHES {
        FullBranch(t, root, n);
      }
    }
  }

  // ---------------------------------------------------------------- the list of all runs

  lemma RowPositive(t: Tree, root: Node, j: nat)
    requires Whole(t, root, null) && j < |t.rows[0]|
    ensures Positive(RunsOf(t.at, t.rows[0][..j]))
  {
    var row := t.rows[0];
    assert Row(t.at, 0, row);
    forall n | n in row[..j]
      ensures n in t.at && Positive(t.at[n].runs)
    {
      assert n in row && NodeOk(t.at, n);
    }
    PositiveRow(t.at, row[..j]);
  }

  /** The runs before, in and behind the leaf of an offset. */
  lemma AroundLeaf(t: Tree, root: Node, leaf: Node, j: nat, within: nat, offset: nat, out: seq<Run>)
    requires Whole(t, root, null) && Found(t, leaf, j, within, offset)
    ensures |t.rows| > 0 && j < |t.rows[0]| && leaf in t.at
    ensures
      var a, b := RunsOf(t.at, t.rows[0][..j]), RunsOf(t.at, t.rows[0][j + 1..]);
      && AllRuns(t) == a + t.at[leaf].runs + b && AllRuns(WithRuns(t, leaf, out)) == a + out + b
      && Positive(a) && Positive(t.at[leaf].runs) && offset == Total(a) + within
  {
    LeafFacts(t, root, null, leaf, j);
    WithRunsAll(t, leaf, out, j);
    LeafOffset(t, root, null, j);
    RowPositive(t, root, j);
  }

  /** Without joins, putting a run into the leaf of an offset puts it into the list of all runs. */
  lemma InsertedRuns(t: Tree, root: Node, leaf: Node, j: nat, within: nat, offset: nat, out: seq<Run>, x: Run)
    requires Whole(t, root, null) && Found(t, leaf, j, within, offset)
    requires within <= Total(t.at[leaf].runs) && out == With(t.at[leaf].runs, within, x)
    ensures AllRuns(WithRuns(t, leaf, out)) == With(AllRuns(t), offset, x)
  {
    hide *;
    AroundLeaf(t, root, leaf, j, within, offset, out);
    var row, m := t.rows[0], t.at[leaf].runs;
    var a, b := RunsOf(t.at, row[..j]), RunsOf(t.at, row[j + 1..]);
    CutsInside(a, m, b, within, offset);
    WithParts(a + m + b, offset, x, a, TakeRuns(m, within), DropRuns(m, within), b, m, within);
  }

  lemma WithParts(all: seq<Run>, p: nat, x: Run, a: seq<Run>, low: seq<Run>, high: seq<Run>, b: seq<Run>, m: seq<Run>,
      q: nat)
    requires TakeRuns(all, p) == a + low && DropRuns(all, p) == high + b
    requires TakeRuns(m, q) == low && DropRuns(m, q) == high
    ensures With(all, p, x) == a + With(m, q, x) + b
  {
    hide TakeRuns, DropRuns;
  }

  lemma WithoutParts(all: seq<Run>, p: nat, p2: nat, a: seq<Run>, low: seq<Run>, high: seq<Run>, b: seq<Run>,
                     m: seq<Run>, q: nat, q2: nat)
    requires TakeRuns(all, p) == a + low && DropRuns(all, p2) == high + b
    requires TakeRuns(m, q) == low && DropRuns(m, q2) == high
    ensures Without(all, p, p2) == a + Without(m, q, q2) + b
  {
    hide TakeRuns, DropRuns;
  }

  /** Without joins, taking characters out of the leaf of an offset takes them out of the list of all runs. */
  lemma RemovedRuns(t: Tree, root: Node, leaf: Node, j: nat, within: nat, offset: nat, to: nat, end: nat, out: seq<Run>)
    requires Whole(t, root, null) && Found(t, leaf, j, within, offset)
    requires within <= to <= Total(t.at[leaf].runs) && end == offset + (to - within)
    requires out == Without(t.at[leaf].runs, within, to)
    ensures AllRuns(WithRuns(t, leaf, out)) == Without(AllRuns(t), offset, end)
  {
    hide *;
    AroundLeaf(t, root, leaf, j, within, offset, out);
    var row, m := t.rows[0], t.at[leaf].runs;
    var a, b := RunsOf(t.at, row[..j]), RunsOf(t.at, row[j + 1..]);
    CutsInside(a, m, b, within, offset);
    CutsInside(a, m, b, to, end);
    WithoutParts(a + m + b, offset, end, a, TakeRuns(m, within), DropRuns(m, to), b, m, within, to);
  }

  /** A leaf with no more runs than before leaves no more runs in all. */
  lemma NoMoreRuns(t: Tree, root: Node, leaf: Node, j: nat, within: nat, offset: nat, out: seq<Run>)
    requires Whole(t, root, null) && Found(t, leaf, j, within, offset)
    ensures |out| <= |t.at[leaf].runs| ==> |AllRuns(WithRuns(t, leaf, out))| <= |AllRuns(t)|
    ensures Total(out) == within ==> OnBoundary(AllRuns(WithRuns(t, leaf, out)), offset)
  {
    hide Whole, Found, RunsOf, AllRuns, WithRuns, Total;
    AroundLeaf(t, root, leaf, j, within, offset, out);
    var a, b := RunsOf(t.at, t.rows[0][..j]), RunsOf(t.at, t.rows[0][j + 1..]);
    EndsHere(a, out, b);
  }

  lemma EndsHere(a: seq<Run>, m: seq<Run>, b: seq<Run>)
    ensures OnBoundary(a + m + b, Total(a) + Total(m))
  {
    ExpandConcat(a, m);
    var s := a + m;
    assert (s + b)[..|s|] == s;
  }

  // ---------------------------------------------------------------- removals that need a slot

  /** The removal would need one more slot in a leaf that is full. */
  ghost predicate Jammed(t: Tree, join: JoinFunc, offset: nat, n: nat) {
    exists j: nat, within: nat {:trigger Lies(t, j, within, offset)} ::
      Lies(t, j, within, offset) && Crowded(t, join, j, within, offset, n)
  }

  lemma JammedIs(t: Tree, root: Node, join: JoinFunc, j: nat, within: nat, offset: nat, n: nat)
    requires Whole(t, root, null) && Lies(t, j, within, offset)
    ensures Jammed(t, join, offset, n) <==> Crowded(t, join, j, within, offset, n)
  {
    if Jammed(t, join, offset, n) {
      var i: nat, w: nat :| Lies(t, i, w, offset) && Crowded(t, join, i, w, offset, n);
      FoundUnique(t, root, t.rows[0][i], i, w, t.rows[0][j], j, within, offset);
    }
  }

  /**
   * A removal jams only strictly inside one run: not if two runs meet anywhere from its first to behind its last
   * character.
   */
  lemma BoundaryFrees(t: Tree, root: Node, join: JoinFunc, offset: nat, n: nat, p: nat)
    requires Whole(t, root, null) && OnBoundary(AllRuns(t), p) && offset <= p <= offset + n
    ensures !Jammed(t, join, offset, n)
  {
    forall j: nat, w: nat | Lies(t, j, w, offset) && Crowded(t, join, j, w, offset, n)
      ensures false
    {
      InsideOneRun(t, root, join, offset, n, p, j, w);
    }
  }

  lemma InsideOneRun(t: Tree, root: Node, join: JoinFunc, offset: nat, n: nat, p: nat, j: nat, w: nat)
    requires Whole(t, root, null) && Lies(t, j, w, offset) && Crowded(t, join, j, w, offset, n)
    requires offset <= p <= offset + n
    ensures !OnBoundary(AllRuns(t), p)
  {
    var leaf := t.rows[0][j];
    var runs := t.at[leaf].runs;
    var i :| 0 <= i < |runs| && StrictlyInside(runs, i, w, n);
    AroundLeaf(t, root, leaf, j, w, offset, runs);
    var a, b := RunsOf(t.at, t.rows[0][..j]), RunsOf(t.at, t.rows[0][j + 1..]);
    hide *;
    InsideAll(a, runs, b, i, w, n, offset, p);
  }

  lemma InsideAll(a: seq<Run>, m: seq<Run>, b: seq<Run>, i: nat, w: nat, n: nat, offset: nat, p: nat)
    requires i < |m| && StrictlyInside(m, i, w, n) && offset == Total(a) + w && offset <= p <= offset + n
    ensures !OnBoundary(a + m + b, p)
  {
    var all, k := a + m + b, |a| + i;
    assert all[..k] == a + m[..i] && all[..k + 1] == a + m[..i + 1];
    ExpandConcat(a, m[..i]);
    ExpandConcat(a, m[..i + 1]);
    InsideIsNotBoundary(all, k, p);
  }

  lemma FewHeadroomIf(t: Tree, root: Node)
    requires Whole(t, root, null)
    ensures |AllRuns(t)| < MANY ==> Headroom(t)
  {
    if |AllRuns(t)| < MANY {
      FewHeadroom(t, root);
    }
  }

  /** A leaf that is to be split holds a good part of all runs. */
  lemma NearlyFullLeaf(t: Tree, root: Node, leaf: Node, j: nat, within: nat, offset: nat)
    requires Whole(t, root, null) && Found(t, leaf, j, within, offset) && NearlyFull(t.at[leaf])
    ensures |AllRuns(t)| >= MAX_RUNS - 2
  {
    AroundLeaf(t, root, leaf, j, within, offset, []);
    LeafFacts(t, root, null, leaf, j);
  }

  /** A leaf without siblings is the only one. */
  lemma AloneOnly(t: Tree, root: Node, low: Node?, node: Node, s: Spot)
    requires Whole(t, root, low) && At(t, node, s) && s.h == 0
    ensures |t.rows| > 0
    ensures t.at[node].prev == null && t.at[node].next == null <==> |t.rows[0]| == 1
  {
    assert Row(t.at, 0, t.rows[0]) && ChainAt(t.at, t.rows[0], s.j);
  }

  /** What a removal in one leaf makes of the list of all runs. */
  lemma LeafRunsLeft(t: Tree, root: Node, leaf: Node, j: nat, within: nat, offset: nat, n: nat, join: JoinFunc,
                     out: seq<Run>, rest: nat, to: nat)
    requires Whole(t, root, null) && Found(t, leaf, j, within, offset) && within < Total(t.at[leaf].runs) && n > 0
    requires within <= offset && Removed(join, offset - within, t.at[leaf].runs, within, n, out, rest, to) && rest < n
    ensures
      var all := AllRuns(WithRuns(t, leaf, out));
      && (rest > 0 ==> |all| <= |AllRuns(t)| && OnBoundary(all, offset))
      && (RefusesAll(join) ==> all == Without(AllRuns(t), offset, offset + (n - rest)))
  {
    hide *;
    FoundLeaf(t, root, leaf, j, within, offset);
    RemovedLeft(join, offset - within, t.at[leaf].runs, within, n, out, rest, to);
    NoMoreRuns(t, root, leaf, j, within, offset, out);
    if RefusesAll(join) {
      RemovedRuns(t, root, leaf, j, within, offset, to, offset + (n - rest), out);
    }
  }

  lemma RemovedLeft(join: JoinFunc, base: nat, runs: seq<Run>, within: nat, n: nat, out: seq<Run>, rest: nat, to: nat)
    requires Removed(join, base, runs, within, n, out, rest, to)
    ensures within <= to <= Total(runs) && to == within + n - rest
    ensures rest > 0 ==> |out| <= |runs| && Total(out) == within
    ensures RefusesAll(join) ==> out == Without(runs, within, to)
  {
    hide Without, Total, EndsStayApart;
    assert |Expand(out)| == Total(out) && |Expand(runs)| == Total(runs);
    if rest > 0 {
      forall i | 0 <= i < |runs|
        ensures !StrictlyInside(runs, i, within, n)
      {
        LeafBound(runs, i + 1);
      }
    }
  }

  /** The tree holds the text `s` without `k` characters at `offset`. */
  ghost predicate PartlyGone(t: Tree, s: seq<Data>, offset: nat, k: nat) {
    |t.rows| > 0 && offset + k <= |s| && Expand(AllRuns(t)) == RemoveFlat(s, offset, offset + k)
  }

  lemma GoneIs(t: Tree, s: seq<Data>, offset: nat, k: nat)
    requires |t.rows| > 0 && offset + k <= |s| && Expand(AllRuns(t)) == RemoveFlat(s, offset, offset + k)
    ensures PartlyGone(t, s, offset, k)
  {
  }
}
