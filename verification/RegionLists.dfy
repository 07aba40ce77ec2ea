/**
 * The region as a list of leaves, each a list of runs: what insertions and removals make of it, with the splits and the
 * merges of leaves, but without the tree above them.
 */
module RegionLists {
  import opened Runs
  import opened RegionTree
  import opened RegionSplit
  import opened RegionLengths
  import opened RegionCascade
  import opened RegionSearch
  import opened RegionEdit
  import opened RegionCompact
  import opened RegionTakeOut
  import opened RegionRoom

  type Lists = seq<seq<Run>>

  // ---------------------------------------------------------------- the operations

  /** The leaf that an offset belongs to, and the place in it. */
  function Locate(l: Lists, offset: nat): (p: (nat, nat))
    requires l != []
    ensures p.0 < |l| && p.1 <= offset
  {
    if |l| == 1 || offset < Total(l[0]) then (0, offset)
    else
      var p := Locate(l[1..], offset - Total(l[0]));
      (p.0 + 1, p.1)
  }

  /** Leaf `j` is cut in two. */
  function Halved(l: Lists, j: nat): (m: Lists)
    requires j < |l|
    ensures |m| == |l| + 1 && |m[j]| + |m[j + 1]| == |l[j]| && |m[j]| == LeftCount(|l[j]|)
  {
    var mid := LeftCount(|l[j]|);
    Splice(l, j, j + 1, [l[j][..mid], l[j][mid..]])
  }

  /** Before an insertion a leaf with fewer than three free slots is split. */
  function Roomed(l: Lists, offset: nat): (m: Lists)
    requires l != []
    ensures m != []
  {
    var j := Locate(l, offset).0;
    if |l[j]| >= MAX_RUNS - 2 then Halved(l, j) else l
  }

  function Put(join: JoinFunc, l: Lists, offset: nat, x: Run): (m: Lists)
    requires l != []
    ensures m != []
  {
    var m := Roomed(l, offset);
    var (j, within) := Locate(m, offset);
    m[j := Joining(join, offset, m[j], within, x)]
  }

  /** Leaf `j` takes a run in front of its own; when it is nearly full its upper half goes to a new leaf first. */
  function FrontOne(l: Lists, j: nat, r: Run): (m: Lists)
    requires j < |l|
    ensures j < |m|
  {
    var m := if |l[j]| >= MAX_RUNS - 1 then Halved(l, j) else l;
    m[j := [r] + m[j]]
  }

  /** Leaf `j` takes a run behind its own; when it is nearly full it is split first, and the upper half takes it. */
  function BackOne(l: Lists, j: nat, r: Run): (p: (Lists, nat))
    requires j < |l|
    ensures p.1 < |p.0|
  {
    var (m, k) := if |l[j]| >= MAX_RUNS - 1 then (Halved(l, j), j + 1) else (l, j);
    (m[k := m[k] + [r]], k)
  }

  /** Leaf `j` takes runs in front of its own, last one first. */
  function FillFront(l: Lists, j: nat, runs: seq<Run>): (m: Lists)
    requires j < |l|
    ensures m != []
    decreases |runs|
  {
    if runs == [] then l
    else
      var n := |runs| - 1;
      FillFront(FrontOne(l, j, runs[n]), j, runs[..n])
  }

  /** Leaf `j` takes runs behind its own, and the leaf that is split off it takes the rest. */
  function FillBack(l: Lists, j: nat, runs: seq<Run>): (m: Lists)
    requires j < |l|
    ensures m != []
    decreases |runs|
  {
    if runs == [] then l
    else
      var (m, k) := BackOne(l, j, runs[0]);
      FillBack(m, k, runs[1..])
  }

  function Dropped(l: Lists, j: nat): Lists
    requires j < |l|
  {
    l[..j] + l[j + 1..]
  }

  /** A leaf with too few runs goes into its left neighbour, or into the right one if that has fewer runs. */
  function MergeLeaf(l: Lists, j: nat): (m: Lists)
    requires j < |l| && |l| > 1
    ensures m != []
  {
    if j == 0 || (j + 1 < |l| && |l[j - 1]| > |l[j + 1]|) then FillFront(Dropped(l, j), j, l[j])
    else FillBack(Dropped(l, j), j - 1, l[j])
  }

  lemma {:induction false} FillFrontFits(l: Lists, j: nat, runs: seq<Run>)
    requires j < |l| && |l[j]| + |runs| < MAX_RUNS
    ensures FillFront(l, j, runs) == l[j := runs + l[j]]
    decreases |runs|
  {
    if runs == [] {
      assert runs + l[j] == l[j];
    } else {
      var n := |runs| - 1;
      FillFrontFits(l[j := [runs[n]] + l[j]], j, runs[..n]);
      assert runs[..n] + ([runs[n]] + l[j]) == runs + l[j];
    }
  }

  lemma {:induction false} FillBackFits(l: Lists, j: nat, runs: seq<Run>)
    requires j < |l| && |l[j]| + |runs| < MAX_RUNS
    ensures FillBack(l, j, runs) == l[j := l[j] + runs]
    decreases |runs|
  {
    if runs == [] {
      assert l[j] + runs == l[j];
    } else {
      FillBackFits(l[j := l[j] + [runs[0]]], j, runs[1..]);
      assert (l[j] + [runs[0]]) + runs[1..] == l[j] + runs;
    }
  }

  /**
   * A leaf with too few runs is joined with the leaf before it, or, if that has more runs or is not there, with the one
   * behind it; that is all if the two fit into one leaf with a slot to spare.
   */
  lemma MergeMeans(l: Lists, j: nat)
    requires j < |l| && |l| > 1
    ensures
      var back := j == 0 || (j + 1 < |l| && |l[j - 1]| > |l[j + 1]|);
      && (back && |l[j]| + |l[j + 1]| < MAX_RUNS ==> MergeLeaf(l, j) == l[..j] + [l[j] + l[j + 1]] + l[j + 2..])
      && (!back && |l[j - 1]| + |l[j]| < MAX_RUNS ==> MergeLeaf(l, j) == l[..j - 1] + [l[j - 1] + l[j]] + l[j + 1..])
  {
    if j == 0 || (j + 1 < |l| && |l[j - 1]| > |l[j + 1]|) {
      if |l[j]| + |l[j + 1]| < MAX_RUNS {
        FillFrontFits(Dropped(l, j), j, l[j]);
      }
    } else if |l[j - 1]| + |l[j]| < MAX_RUNS {
      FillBackFits(Dropped(l, j), j - 1, l[j]);
    }
  }

  function Mended(l: Lists, j: nat): (m: Lists)
    requires j < |l|
    ensures m != []
  {
    if |l[j]| < MIN_RUNS && |l| > 1 then MergeLeaf(l, j) else l
  }

  /** How much of a removal is left when one leaf has had its part. */
  function Remaining(runs: seq<Run>, within: nat, n: nat): (rest: nat)
    ensures rest <= n
  {
    if within + n <= Total(runs) then 0 else if within >= Total(runs) then n else n - (Total(runs) - within)
  }

  function TakeOnce(join: JoinFunc, l: Lists, offset: nat, n: nat): (m: Lists)
    requires l != []
    ensures m != []
  {
    var (j, within) := Locate(l, offset);
    var to := within + n - Remaining(l[j], within, n);
    Mended(l[j := Cutting(join, offset - within, l[j], within, n, to)], j)
  }

  function LeftOver(l: Lists, offset: nat, n: nat): (rest: nat)
    requires l != []
    ensures rest <= n
  {
    var (j, within) := Locate(l, offset);
    Remaining(l[j], within, n)
  }

  /** A removal goes on from leaf to leaf, at the same offset. */
  function Take(join: JoinFunc, l: Lists, offset: nat, n: nat): (m: Lists)
    requires l != []
    ensures m != []
    decreases n
  {
    if n == 0 then l
    else
      var rest := LeftOver(l, offset, n);
      var m := TakeOnce(join, l, offset, n);
      if 0 < rest < n then Take(join, m, offset, rest) else m
  }

  /** The removal comes to the leaves `m`, when one leaf after the other has had its part. */
  predicate Taking(join: JoinFunc, l: Lists, offset: nat, n: nat, m: Lists)
    requires l != []
    decreases n
  {
    && n > 0
    && var rest, next := LeftOver(l, offset, n), TakeOnce(join, l, offset, n);
    m == next || (0 < rest < n && Taking(join, next, offset, rest, m))
  }

  /** The removal needs a slot that its leaf does not have. */
  predicate Jams(join: JoinFunc, l: Lists, offset: nat, n: nat)
    requires l != []
  {
    n > 0
    && var (j, within) := Locate(l, offset);
    |l[j]| >= MAX_RUNS
    && var i := InsideOf(l[j], within, n);
    i >= 0 && (InsideOfIs(l[j], within, n); EndsStayApart(join, offset - within, l[j], i, within, n))
  }

  // ---------------------------------------------------------------- the tree behind the list

  function ListsTotal(l: Lists): nat {
    if l == [] then 0 else Total(l[0]) + ListsTotal(l[1..])
  }

  lemma {:induction false} LocateIs(l: Lists, j: nat, within: nat, offset: nat)
    requires j < |l| && offset == ListsTotal(l[..j]) + within
    requires within < Total(l[j]) || j + 1 == |l|
    ensures Locate(l, offset) == (j, within)
  {
    if j > 0 {
      assert l[..j][0] == l[0] && l[..j][1..] == l[1..][..j - 1];
      LocateIs(l[1..], j - 1, within, offset - Total(l[0]));
    }
  }

  lemma {:induction false} ListTotal(at: Store, row: seq<Node>)
    ensures ListsTotal(ListOf(at, row)) == Total(RunsOf(at, row))
  {
    if row != [] {
      ListTotal(at, row[1..]);
      var l := ListOf(at, row);
      assert l[1..] == ListOf(at, row[1..]);
      ExpandConcat(RunsIn(at, row[0]), RunsOf(at, row[1..]));
    }
  }

  lemma LocateFound(t: Tree, root: Node, leaf: Node, j: nat, within: nat, offset: nat)
    requires Whole(t, root, null) && Found(t, leaf, j, within, offset)
    ensures |t.rows| > 0 && Leaves(t) != [] && j < |Leaves(t)| && Locate(Leaves(t), offset) == (j, within)
    ensures leaf in t.at && Leaves(t)[j] == t.at[leaf].runs
  {
    LeafFacts(t, root, null, leaf, j);
    LeafOffset(t, root, null, j);
    ListTotal(t.at, t.rows[0][..j]);
    assert ListOf(t.at, t.rows[0][..j]) == Leaves(t)[..j];
    LocateIs(Leaves(t), j, within, offset);
  }

  lemma WithRunsList(t: Tree, leaf: Node, j: nat, out: seq<Run>)
    requires |t.rows| > 0 && Row(t.at, 0, t.rows[0]) && j < |t.rows[0]| && t.rows[0][j] == leaf && leaf in t.at
    ensures |WithRuns(t, leaf, out).rows| > 0 && Leaves(WithRuns(t, leaf, out)) == Leaves(t)[j := out]
  {
    var u := WithRuns(t, leaf, out);
    forall i | 0 <= i < |t.rows[0]|
      ensures Leaves(u)[i] == Leaves(t)[j := out][i]
    {
      assert t.rows[0][i] in t.rows[0];
    }
  }

  lemma HalvedList(t: Tree, u: Tree, leaf: Node, right: Node, j: nat)
    requires LeafHalved(t, u, leaf, right, j) && Row(t.at, 0, t.rows[0])
    ensures j < |Leaves(t)| && Leaves(u) == Halved(Leaves(t), j)
  {
    var row, l := t.rows[0], Leaves(t);
    assert |u.rows[0]| == |row| + 1;
    forall i | 0 <= i < |u.rows[0]|
      ensures Leaves(u)[i] == Halved(l, j)[i]
    {
      if i < j {
        assert row[i] in row && u.rows[0][i] == row[i];
      } else if i > j + 1 {
        assert row[i - 1] in row && u.rows[0][i] == row[i - 1];
      }
    }
  }

  lemma TakenList(t: Tree, u: Tree, root: Node, node: Node, s: Spot)
    requires Whole(t, root, node) && TakenOut(t, u, root, node, s) && s.h == 0
    ensures |t.rows| > 0 && |u.rows| > 0 && s.j < |Leaves(t)| && Leaves(u) == Dropped(Leaves(t), s.j)
  {
    hide FlatKids, KidsOf, RunsOf, NodeOk, Sums, Chain, Fill, Gapped;
    var row := t.rows[0];
    assert Row(t.at, 0, row);
    NarrowedParts(row, s.j);
    forall i | 0 <= i < |u.rows[0]|
      ensures Leaves(u)[i] == Dropped(Leaves(t), s.j)[i]
    {
      var n := if i < s.j then row[i] else row[i + 1];
      assert n in row && StaysAt(t, u, node, 0, n);
    }
  }

  lemma JamsIs(t: Tree, root: Node, join: JoinFunc, leaf: Node, j: nat, within: nat, offset: nat, n: nat)
    requires Whole(t, root, null) && Found(t, leaf, j, within, offset)
    ensures |t.rows| > 0 && Leaves(t) != []
    ensures Jams(join, Leaves(t), offset, n) <==> n > 0 && Jammed(t, join, offset, n)
  {
    hide Locate, Leaves, EndsStayApart, RunsIn, Placed, FlatKids, InsideOf, ListOf, Rooted, Root, ChainAt;
    LocateFound(t, root, leaf, j, within, offset);
    JammedIs(t, root, join, j, within, offset, n);
    var runs := t.at[leaf].runs;
    InsideOfIs(runs, within, n);
    var i := InsideOf(runs, within, n);
    if i >= 0 {
      AddsRunHere(join, offset - within, runs, i, within, n);
    }
  }

  // ---------------------------------------------------------------- steps of the fills

  lemma FrontStep(l: Lists, j: nat, runs: seq<Run>, i: nat, all: Lists)
    requires j < |l| && 0 < i <= |runs| && FillFront(l, j, runs[..i]) == all
    ensures FillFront(FrontOne(l, j, runs[i - 1]), j, runs[..i - 1]) == all
  {
    assert runs[..i][..i - 1] == runs[..i - 1];
  }

  lemma BackStep(l: Lists, j: nat, runs: seq<Run>, i: nat, all: Lists)
    requires j < |l| && i < |runs| && FillBack(l, j, runs[i..]) == all
    ensures
      var (m, k) := BackOne(l, j, runs[i]);
      FillBack(m, k, runs[i + 1..]) == all
  {
    assert runs[i..][1..] == runs[i + 1..];
  }

  lemma FrontOneIs(l: Lists, m: Lists, j: nat, r: Run)
    requires j < |l| && m == if |l[j]| >= MAX_RUNS - 1 then Halved(l, j) else l
    ensures j < |m| && FrontOne(l, j, r) == m[j := [r] + m[j]]
  {
  }

  lemma BackOneIs(l: Lists, m: Lists, j: nat, k: nat, r: Run)
    requires j < |l|
    requires if |l[j]| >= MAX_RUNS - 1 then m == Halved(l, j) && k == j + 1 else m == l && k == j
    ensures k < |m| && BackOne(l, j, r) == (m[k := m[k] + [r]], k)
  {
  }

  lemma FillsDone(l: Lists, j: nat, runs: seq<Run>)
    requires j < |l|
    ensures FillFront(l, j, runs[..0]) == l && FillBack(l, j, runs[|runs|..]) == l
    ensures runs[..|runs|] == runs && runs[0..] == runs
  {
  }

  lemma MergeIs(l: Lists, j: nat)
    requires j < |l| && |l| > 1
    ensures
      var right := j == 0 || (j + 1 < |l| && |l[j - 1]| > |l[j + 1]|);
      MergeLeaf(l, j) == if right then FillFront(Dropped(l, j), j, l[j]) else FillBack(Dropped(l, j), j - 1, l[j])
  {
  }

  // ---------------------------------------------------------------- what the region's methods need

  lemma LengthsLeaves(t: Tree, u: Tree, h: nat)
    requires LengthsOnly(t.at, u.at, h) && u.rows == t.rows && |t.rows| > 0
    ensures Leaves(u) == Leaves(t)
  {
    LengthsList(t.at, u.at, h, t.rows[0]);
  }

  lemma RoomedIs(t: Tree, root: Node, leaf: Node, j: nat, within: nat, offset: nat)
    requires Whole(t, root, null) && Found(t, leaf, j, within, offset)
    ensures |t.rows| > 0 && Leaves(t) != [] && leaf in t.at
    ensures !NearlyFull(t.at[leaf]) ==> Roomed(Leaves(t), offset) == Leaves(t)
  {
    LocateFound(t, root, leaf, j, within, offset);
    LeafFacts(t, root, null, leaf, j);
  }

  lemma RoomedHalved(t: Tree, u: Tree, root: Node, leaf: Node, right: Node, i: nat, j: nat, within: nat, offset: nat)
    requires Whole(t, root, null) && Found(t, leaf, j, within, offset) && leaf in t.at && NearlyFull(t.at[leaf])
    requires LeafHalved(t, u, leaf, right, i)
    ensures |t.rows| > 0 && |u.rows| > 0 && Leaves(t) != [] && Roomed(Leaves(t), offset) == Leaves(u)
  {
    LocateFound(t, root, leaf, j, within, offset);
    LeafFacts(t, root, null, leaf, j);
    assert i == j;
    HalvedList(t, u, leaf, right, j);
  }

  lemma PutIs(t: Tree, root: Node, join: JoinFunc, l: Lists, leaf: Node, j: nat, within: nat, offset: nat,
              out: seq<Run>, x: Run)
    requires Whole(t, root, null) && Found(t, leaf, j, within, offset) && l != []
    requires |t.rows| > 0 && Leaves(t) == Roomed(l, offset) && leaf in t.at && within <= offset
    requires out == Joining(join, offset, t.at[leaf].runs, within, x)
    ensures |WithRuns(t, leaf, out).rows| > 0 && Leaves(WithRuns(t, leaf, out)) == Put(join, l, offset, x)
  {
    LocateFound(t, root, leaf, j, within, offset);
    LeafFacts(t, root, null, leaf, j);
    WithRunsList(t, leaf, j, out);
  }

  lemma FillingPlace(t: Tree, root: Node, low: Node?, target: Node, e: int, added: nat, c: nat, j: nat,
                     front: seq<Run>, back: seq<Run>)
    requires Filling(t, root, low, target, e, added, c, j, front, back)
    ensures |t.rows| > 0 && j < |t.rows[0]| == |Leaves(t)| && target in t.at && Leaves(t)[j] == t.at[target].runs
  {
  }

  lemma FillingPut(t: Tree, root: Node, low: Node?, target: Node, e: int, added: nat, c: nat, j: nat,
                   front: seq<Run>, back: seq<Run>, out: seq<Run>)
    requires Filling(t, root, low, target, e, added, c, j, front, back)
    ensures |t.rows| > 0 && j < |Leaves(t)| && target in t.at && |WithRuns(t, target, out).rows| > 0
    ensures Leaves(WithRuns(t, target, out)) == Leaves(t)[j := out]
  {
    assert Row(t.at, 0, t.rows[0]);
    WithRunsList(t, target, j, out);
  }

  lemma FilledHalved(t: Tree, u: Tree, root: Node, low: Node?, leaf: Node, right: Node, j: nat, i: nat)
    requires Whole(t, root, low) && j < |t.rows[0]| && t.rows[0][j] == leaf && LeafHalved(t, u, leaf, right, i)
    ensures |t.rows| > 0 && |u.rows| > 0 && j < |Leaves(t)| && Leaves(u) == Halved(Leaves(t), j)
  {
    LeafFacts(t, root, low, leaf, j);
    assert i == j;
    HalvedList(t, u, leaf, right, j);
  }

  /** The neighbours of a leaf that is taken out, and which of them takes its runs. */
  lemma NeighboursIn(t: Tree, u: Tree, root: Node, node: Node, s: Spot, j: nat)
    requires Whole(t, root, node) && TakenOut(t, u, root, node, s) && s.h == 0
    requires j < |t.rows[0]| && t.rows[0][j] == node
    ensures j == s.j && |t.rows| > 0 && |Leaves(t)| == |t.rows[0]|
    ensures
      var r, l := t.at[node], Leaves(t);
      && r.runs == l[j] && (r.prev == null <==> j == 0) && (r.next == null <==> j + 1 == |l|)
      && (r.prev != null ==> r.prev in u.at && u.at[r.prev].runs == l[j - 1])
      && (r.next != null ==> r.next in u.at && u.at[r.next].runs == l[j + 1])
  {
    var row := t.rows[0];
    assert Row(t.at, 0, row) && ChainAt(t.at, row, j);
    if j > 0 {
      assert row[j - 1] in row && StaysAt(t, u, node, 0, row[j - 1]);
    }
    if j + 1 < |row| {
      assert row[j + 1] in row && StaysAt(t, u, node, 0, row[j + 1]);
    }
  }

  lemma MendedIs(l: Lists, j: nat)
    requires j < |l|
    ensures Mended(l, j) == if |l[j]| < MIN_RUNS && |l| > 1 then MergeLeaf(l, j) else l
  {
  }

  /** A leaf with new runs, in the list of leaves. */
  lemma ListWith(t: Tree, root: Node, leaf: Node, j: nat, out: seq<Run>)
    requires Whole(t, root, null) && j < |t.rows[0]| && t.rows[0][j] == leaf && leaf in t.at
    ensures |t.rows| > 0 && j < |Leaves(t)| == |t.rows[0]| && |WithRuns(t, leaf, out).rows| > 0
    ensures Leaves(WithRuns(t, leaf, out)) == Leaves(t)[j := out]
  {
    assert Row(t.at, 0, t.rows[0]);
    WithRunsList(t, leaf, j, out);
  }

  /** What the removal from one leaf comes to in the list of leaves. */
  lemma OnceIs(join: JoinFunc, l: Lists, offset: nat, n: nat, j: nat, within: nat, out: seq<Run>, rest: nat, to: nat)
    requires l != [] && j < |l| && Locate(l, offset) == (j, within) && within <= offset
    requires Removed(join, offset - within, l[j], within, n, out, rest, to) && within < Total(l[j])
    ensures rest == LeftOver(l, offset, n) && TakeOnce(join, l, offset, n) == Mended(l[j := out], j)
  {
    hide Mended, Cutting, Total;
  }

  /** Every region has a leaf. */
  lemma SomeLeaf(t: Tree, root: Node)
    requires Whole(t, root, null)
    ensures |t.rows| > 0 && Leaves(t) != []
  {
    assert Row(t.at, 0, t.rows[0]);
  }

  lemma TakingOnce(join: JoinFunc, l: Lists, offset: nat, n: nat)
    requires l != [] && n > 0
    ensures Taking(join, l, offset, n, TakeOnce(join, l, offset, n))
  {
    hide TakeOnce, LeftOver;
  }

  lemma TakingLater(join: JoinFunc, l: Lists, offset: nat, n: nat, m: Lists)
    requires l != [] && 0 < LeftOver(l, offset, n) < n
    requires Taking(join, TakeOnce(join, l, offset, n), offset, LeftOver(l, offset, n), m)
    ensures Taking(join, l, offset, n, m)
  {
    hide TakeOnce, LeftOver;
  }

  lemma TakeIs(join: JoinFunc, l: Lists, offset: nat, n: nat)
    requires l != []
    ensures n == 0 ==> Take(join, l, offset, n) == l && !Jams(join, l, offset, n)
    ensures n > 0 ==>
      var rest, m := LeftOver(l, offset, n), TakeOnce(join, l, offset, n);
      && (rest == 0 ==> Take(join, l, offset, n) == m)
      && (0 < rest < n ==> Take(join, l, offset, n) == Take(join, m, offset, rest))
  {
    hide TakeOnce, LeftOver;
  }
}
