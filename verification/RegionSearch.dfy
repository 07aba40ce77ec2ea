/** Where an offset lies: the lengths of the nodes of a level, and the one leaf an offset belongs to. */
module RegionSearch {
  import opened Runs
  import opened RegionTree
  import opened RegionCascade

  /** The length of a row of nodes. */
  ghost function LevelLen(at: Store, row: seq<Node>): nat {
    if row == [] then 0 else (if row[0] in at then NodeLen(at[row[0]]) else 0) + LevelLen(at, row[1..])
  }

  lemma {:induction false} LevelConcat(at: Store, a: seq<Node>, b: seq<Node>)
    ensures LevelLen(at, a + b) == LevelLen(at, a) + LevelLen(at, b)
  {
    if a == [] {
      assert a + b == b;
    } else {
      HeadTail(a, b);
      LevelConcat(at, a[1..], b);
    }
  }

  lemma LevelOne(at: Store, n: Node)
    requires n in at
    ensures LevelLen(at, [n]) == NodeLen(at[n])
  {
    assert [n][1..] == [];
  }

  lemma LevelAt(at: Store, row: seq<Node>, j: nat)
    requires j < |row| && row[j] in at
    ensures LevelLen(at, row[..j + 1]) == LevelLen(at, row[..j]) + NodeLen(at[row[j]])
    ensures LevelLen(at, row) == LevelLen(at, row[..j]) + NodeLen(at[row[j]]) + LevelLen(at, row[j + 1..])
  {
    Around(row, j);
    LevelConcat(at, row[..j], [row[j]]);
    LevelConcat(at, row[..j + 1], row[j + 1..]);
    LevelOne(at, row[j]);
  }

  lemma {:induction false} LevelFrame(at: Store, bt: Store, row: seq<Node>)
    requires forall n :: n in row ==> n in at && n in bt && NodeLen(at[n]) == NodeLen(bt[n])
    ensures LevelLen(at, row) == LevelLen(bt, row)
  {
    if row != [] {
      LevelFrame(at, bt, row[1..]);
    }
  }

  lemma LevelMonotone(at: Store, row: seq<Node>, i: nat, j: nat)
    requires i <= j <= |row|
    ensures LevelLen(at, row[..i]) <= LevelLen(at, row[..j]) <= LevelLen(at, row)
  {
    CutAndGlue(row[..j], i);
    TakeTake(row, i, j);
    LevelConcat(at, row[..i], row[..j][i..]);
    CutAndGlue(row, j);
    LevelConcat(at, row[..j], row[j..]);
  }

  lemma TakeTake<T>(s: seq<T>, i: nat, j: nat)
    requires i <= j <= |s|
    ensures s[..j][..i] == s[..i]
  {
  }

  /** The entries of one node add up to the lengths of its children. */
  lemma {:induction false} KidsPrefix(at: Store, p: Node, k: nat)
    requires p in at && k <= |at[p].kids|
    requires forall i :: 0 <= i < |at[p].kids| ==> SumAt(at, map[], p, i)
    ensures LevelLen(at, KidNodes(at[p].kids)[..k]) == KidsTotal(at[p].kids[..k])
  {
    if k == 0 {
    } else {
      var kids, nodes := at[p].kids, KidNodes(at[p].kids);
      KidsPrefix(at, p, k - 1);
      assert SumAt(at, map[], p, k - 1);
      LevelAt(at, nodes, k - 1);
      Around(kids, k - 1);
      KidsTotalConcat(kids[..k - 1], [kids[k - 1]]);
      OneEntry(kids[k - 1]);
    }
  }

  lemma OneEntry(c: Child)
    ensures KidsTotal([c]) == c.length
  {
    assert [c][1..] == [];
  }

  /** A branch whose entries are right is as long as its children. */
  lemma KidsSum(at: Store, p: Node)
    requires p in at && at[p].runs == []
    requires forall i :: 0 <= i < |at[p].kids| ==> SumAt(at, map[], p, i)
    ensures LevelLen(at, KidsOf(at, p)) == NodeLen(at[p])
  {
    KidsPrefix(at, p, |at[p].kids|);
    assert at[p].kids[..|at[p].kids|] == at[p].kids;
    assert KidNodes(at[p].kids)[..|at[p].kids|] == KidNodes(at[p].kids);
  }

  /** A row of branches is as long as the row of their children. */
  lemma {:induction false} LevelKids(at: Store, row: seq<Node>)
    requires forall p :: p in row ==> p in at && at[p].runs == []
    requires forall p, i :: p in row && 0 <= i < |at[p].kids| ==> SumAt(at, map[], p, i)
    ensures LevelLen(at, FlatKids(at, row)) == LevelLen(at, row)
  {
    if row != [] {
      LevelKids(at, row[1..]);
      LevelConcat(at, KidsOf(at, row[0]), FlatKids(at, row[1..]));
      KidsSum(at, row[0]);
    }
  }

  /** Leaves are as long as their runs. */
  lemma {:induction false} LevelRuns(at: Store, row: seq<Node>)
    requires forall n :: n in row ==> n in at && at[n].kids == []
    ensures LevelLen(at, row) == Total(RunsOf(at, row))
  {
    if row != [] {
      LevelRuns(at, row[1..]);
      ExpandConcat(at[row[0]].runs, RunsOf(at, row[1..]));
    }
  }

  lemma BranchRow(t: Tree, root: Node, low: Node?, h: nat)
    requires Whole(t, root, low) && h < |t.rows|
    ensures forall p :: p in t.rows[h] ==> p in t.at && t.at[p].height == h
    ensures h > 0 ==> forall p :: p in t.rows[h] ==> t.at[p].runs == []
    ensures h == 0 ==> forall p :: p in t.rows[h] ==> t.at[p].kids == []
    ensures forall p, i :: p in t.rows[h] && 0 <= i < |t.at[p].kids| ==> SumAt(t.at, map[], p, i)
  {
    assert Row(t.at, h, t.rows[h]);
    forall p | p in t.rows[h]
      ensures Content(p, t.at[p])
    {
      assert NodeOk(t.at, p);
    }
    forall p, i | p in t.rows[h] && 0 <= i < |t.at[p].kids|
      ensures SumAt(t.at, map[], p, i)
    {
      assert p in t.at;
    }
  }

  /** Every level of the tree is as long as the text. */
  lemma {:induction false} LevelTotal(t: Tree, root: Node, low: Node?, h: nat)
    requires Whole(t, root, low) && h < |t.rows|
    ensures LevelLen(t.at, t.rows[h]) == Total(AllRuns(t))
  {
    BranchRow(t, root, low, h);
    if h == 0 {
      LevelRuns(t.at, t.rows[0]);
    } else {
      LevelTotal(t, root, low, h - 1);
      assert KidRow(t, h - 1);
      LevelKids(t.at, t.rows[h]);
    }
  }

  /** The length kept at the root is the length of the text. */
  lemma RootTotal(t: Tree, root: Node, low: Node?)
    requires Whole(t, root, low)
    ensures root in t.at && NodeLen(t.at[root]) == Total(AllRuns(t))
  {
    LevelTotal(t, root, low, Top(t));
    LevelOne(t.at, root);
    assert t.rows[Top(t)] == [root];
  }

  // ---------------------------------------------------------------- no node is empty

  lemma LongEntry(cs: seq<Child>, k: nat)
    requires k < |cs|
    ensures cs[k].length <= KidsTotal(cs)
  {
    KidsTotalAt(cs, k);
  }

  /** Only in the empty region does a node, hence a child entry, have length zero. */
  lemma {:induction false} NodesNotEmpty(t: Tree, root: Node, n: Node, h: nat)
    requires Whole(t, root, null) && Total(AllRuns(t)) > 0
    requires n in t.at && t.at[n].height == h
    ensures NodeLen(t.at[n]) > 0
  {
    assert NodeOk(t.at, n) && Placed(t, n) && Filled(t, null, n);
    if h == 0 {
      if |t.rows[0]| == 1 {
        assert t.rows[0] == [n];
        RunsOne(t.at, n);
      } else {
        PositiveTotal(t.at[n].runs);
      }
    } else {
      assert KidAt(t.at, n, 0) && SumAt(t.at, map[], n, 0);
      NodesNotEmpty(t, root, t.at[n].kids[0].node, h - 1);
      LongEntry(t.at[n].kids, 0);
    }
  }

  // ---------------------------------------------------------------- the leaf of an offset

  /** Leaf `j` is where `offset` belongs: it contains it, or it is the last leaf and ends there. */
  ghost predicate Found(t: Tree, leaf: Node, j: nat, within: nat, offset: nat) {
    && |t.rows| > 0 && j < |t.rows[0]| && t.rows[0][j] == leaf && leaf in t.at
    && LevelLen(t.at, t.rows[0][..j]) + within == offset
    && (within < NodeLen(t.at[leaf]) || (within == NodeLen(t.at[leaf]) && j + 1 == |t.rows[0]|))
  }

  lemma FoundOrder(t: Tree, root: Node, leaf: Node, j: nat, within: nat, leaf2: Node, j2: nat, within2: nat,
      offset: nat)
    requires Whole(t, root, null)
    requires Found(t, leaf, j, within, offset) && Found(t, leaf2, j2, within2, offset)
    ensures j2 <= j
  {
    if j < j2 {
      var row := t.rows[0];
      LevelAt(t.at, row, j);
      LevelMonotone(t.at, row, j + 1, j2);
      assert false;
    }
  }

  /** There is one leaf and one place in it for an offset, however it is looked up. */
  lemma FoundUnique(t: Tree, root: Node, leaf: Node, j: nat, within: nat, leaf2: Node, j2: nat, within2: nat,
      offset: nat)
    requires Whole(t, root, null)
    requires Found(t, leaf, j, within, offset) && Found(t, leaf2, j2, within2, offset)
    ensures leaf == leaf2 && j == j2 && within == within2
  {
    FoundOrder(t, root, leaf, j, within, leaf2, j2, within2, offset);
    FoundOrder(t, root, leaf2, j2, within2, leaf, j, within, offset);
  }

  /** A remembered leaf is still in the tree, after exactly `offset` characters. */
  ghost predicate CachedAt(t: Tree, cached: Node, offset: nat, j: nat) {
    |t.rows| > 0 && j < |t.rows[0]| && t.rows[0][j] == cached && cached in t.at
    && offset == LevelLen(t.at, t.rows[0][..j])
  }

  /** A place in some row that the offset leads through. */
  ghost predicate Through(t: Tree, n: Node, h: nat, j: nat, within: nat, offset: nat) {
    && h < |t.rows| && j < |t.rows[h]| && t.rows[h][j] == n && n in t.at && t.at[n].height == h
    && LevelLen(t.at, t.rows[h][..j]) + within == offset
    && (within < NodeLen(t.at[n]) || (within == NodeLen(t.at[n]) && j + 1 == |t.rows[h]|))
  }

  lemma PrefixKids(at: Store, row: seq<Node>, j: nat, k: nat)
    requires j < |row| && row[j] in at && k <= |at[row[j]].kids|
    ensures |FlatKids(at, row[..j])| + k <= |FlatKids(at, row)|
    ensures FlatKids(at, row)[..|FlatKids(at, row[..j])| + k] == FlatKids(at, row[..j]) + KidNodes(at[row[j]].kids)[..k]
  {
    FlatAt(at, row, j);
    var a, m, b := FlatKids(at, row[..j]), KidNodes(at[row[j]].kids), FlatKids(at, row[j + 1..]);
    TakeDropOf(FlatKids(at, row), a, m, b, k, |a| + k);
  }

  lemma KidPlaceAt(at: Store, row: seq<Node>, j: nat, k: nat, i: nat)
    requires j < |row| && row[j] in at && k < |at[row[j]].kids| && i == |FlatKids(at, row[..j])| + k
    requires forall p :: p in row ==> p in at && at[p].runs == []
    requires forall p, i :: p in row && 0 <= i < |at[p].kids| ==> SumAt(at, map[], p, i)
    ensures i <= |FlatKids(at, row)|
    ensures LevelLen(at, FlatKids(at, row)[..i]) == LevelLen(at, row[..j]) + KidsTotal(at[row[j]].kids[..k])
  {
    hide KidNodes, Total;
    PrefixKids(at, row, j, k);
    LevelConcat(at, FlatKids(at, row[..j]), KidNodes(at[row[j]].kids)[..k]);
    LevelKids(at, row[..j]);
    KidsPrefix(at, row[j], k);
  }

  lemma LastKid(at: Store, row: seq<Node>, j: nat, k: nat)
    requires j + 1 == |row| && row[j] in at && k + 1 == |at[row[j]].kids|
    ensures |FlatKids(at, row[..j])| + k + 1 == |FlatKids(at, row)|
  {
    FlatAt(at, row, j);
    assert row[j + 1..] == [];
  }

  /** Where child `k` of node `j` of a row stands in the row below, and what comes before it. */
  lemma KidPlace(t: Tree, root: Node, n: Node, h: nat, j: nat, k: nat) returns (i: nat)
    requires Whole(t, root, null) && 0 < h < |t.rows| && j < |t.rows[h]| && t.rows[h][j] == n && n in t.at
    requires k < |t.at[n].kids|
    ensures i < |t.rows[h - 1]| && t.rows[h - 1][i] == t.at[n].kids[k].node
    ensures LevelLen(t.at, t.rows[h - 1][..i]) == LevelLen(t.at, t.rows[h][..j]) + KidsTotal(t.at[n].kids[..k])
    ensures j + 1 == |t.rows[h]| && k + 1 == |t.at[n].kids| ==> i + 1 == |t.rows[h - 1]|
    ensures t.at[n].kids[k].node in t.at && t.at[t.at[n].kids[k].node].height == h - 1
    ensures t.at[n].kids[k].length == NodeLen(t.at[t.at[n].kids[k].node])
  {
    BranchRow(t, root, null, h);
    assert KidRow(t, h - 1) && NodeOk(t.at, n) && KidAt(t.at, n, k) && SumAt(t.at, map[], n, k);
    assert n in t.rows[h];
    i := |FlatKids(t.at, t.rows[h][..j])| + k;
    FlatPlace(t.at, t.rows[h], j, k, i);
    KidPlaceAt(t.at, t.rows[h], j, k, i);
    if j + 1 == |t.rows[h]| && k + 1 == |t.at[n].kids| {
      LastKid(t.at, t.rows[h], j, k);
    }
  }

  /** From a node on the way to `offset` to the child on the way. */
  lemma ThroughKid(t: Tree, root: Node, n: Node, h: nat, j: nat, offset: nat, total: nat, k: nat, rest: nat)
    returns (i: nat)
    requires Whole(t, root, null) && h > 0 && Through(t, n, h, j, offset, total)
    requires k < |t.at[n].kids| && rest + KidsTotal(t.at[n].kids[..k]) == offset
    requires rest < t.at[n].kids[k].length || k + 1 == |t.at[n].kids|
    ensures Through(t, t.at[n].kids[k].node, h - 1, i, rest, total)
  {
    i := KidPlace(t, root, n, h, j, k);
    if k + 1 == |t.at[n].kids| {
      BranchRow(t, root, null, h);
      assert n in t.rows[h];
      LastTotal(t.at[n].kids, k);
    }
  }

  lemma LastTotal(kids: seq<Child>, k: nat)
    requires k + 1 == |kids|
    ensures KidsTotal(kids) == KidsTotal(kids[..k]) + kids[k].length
  {
    KidsTotalAt(kids, k);
    assert kids[k + 1..] == [];
  }

  /** The first node of a branch row leads to the first node of the row below. */
  lemma FirstKid(t: Tree, root: Node, h: nat)
    requires Whole(t, root, null) && 0 < h < |t.rows|
    ensures t.rows[h] != [] && t.rows[h][0] in t.at && t.at[t.rows[h][0]].kids != []
    ensures t.rows[h - 1] != [] && t.at[t.rows[h][0]].kids[0].node == t.rows[h - 1][0] && t.rows[h - 1][0] in t.at
    ensures !t.rows[h][0].isLeaf && (t.rows[h - 1][0].isLeaf <==> h == 1)
  {
    assert Row(t.at, h, t.rows[h]);
    var n := t.rows[h][0];
    assert n in t.rows[h];
    assert Filled(t, null, n) && NodeOk(t.at, n);
    var i := KidPlace(t, root, n, h, 0, 0);
    assert KidRow(t, h - 1);
    FlatPlace(t.at, t.rows[h], 0, 0, 0);
    assert NodeOk(t.at, t.rows[h - 1][0]);
  }

  lemma CachedLeaf(t: Tree, root: Node, cached: Node, start: nat, j: nat, offset: nat)
    requires Whole(t, root, null) && CachedAt(t, cached, start, j)
    ensures cached in t.at
    ensures
      var end := start + Total(t.at[cached].runs);
      start <= offset && (offset < end || (offset == end && t.at[cached].next == null)) ==>
        Found(t, cached, j, offset - start, offset)
  {
    BranchRow(t, root, null, 0);
    assert cached in t.rows[0];
    assert Row(t.at, 0, t.rows[0]) && ChainAt(t.at, t.rows[0], j);
  }

  lemma FoundCached(t: Tree, leaf: Node, j: nat, within: nat, offset: nat)
    requires Found(t, leaf, j, within, offset)
    ensures within <= offset && CachedAt(t, leaf, offset - within, j)
  {
  }

  lemma FirstFound(t: Tree, root: Node)
    requires Whole(t, root, null)
    ensures t.rows[0] != [] && Found(t, t.rows[0][0], 0, 0, 0)
  {
    assert Row(t.at, 0, t.rows[0]);
    var leaf := t.rows[0][0];
    assert leaf in t.rows[0];
    if |t.rows[0]| > 1 {
      LevelTotal(t, root, null, 0);
      assert NodeOk(t.at, leaf) && Filled(t, null, leaf);
      PositiveTotal(t.at[leaf].runs);
    }
    assert t.rows[0][..0] == [];
  }

  lemma RootThrough(t: Tree, root: Node, offset: nat)
    requires Whole(t, root, null) && offset <= Total(AllRuns(t))
    ensures Through(t, root, Top(t), 0, offset, offset)
  {
    RootFacts(t, -1);
    RootTotal(t, root, null);
    assert t.rows[Top(t)][..0] == [];
  }

  lemma EntryNotEmpty(t: Tree, root: Node, n: Node, k: nat)
    requires Whole(t, root, null) && Total(AllRuns(t)) > 0 && n in t.at && k < |t.at[n].kids|
    ensures t.at[n].kids[k].length > 0
  {
    assert NodeOk(t.at, n) && KidAt(t.at, n, k) && SumAt(t.at, map[], n, k);
    var c := t.at[n].kids[k].node;
    NodesNotEmpty(t, root, c, t.at[c].height);
  }

  /** Only the last node of a row is passed at its very end. */
  lemma ThroughLast(t: Tree, root: Node, n: Node, h: nat, j: nat, offset: nat, total: nat)
    requires Whole(t, root, null) && Through(t, n, h, j, offset, total) && offset >= NodeLen(t.at[n])
    ensures t.at[n].next == null
  {
    assert Row(t.at, h, t.rows[h]) && ChainAt(t.at, t.rows[h], j);
  }

  /** The descent has either arrived or stands at a branch with children. */
  lemma OnWay(t: Tree, root: Node, n: Node, h: nat, j: nat, offset: nat, total: nat)
    requires Whole(t, root, null) && Through(t, n, h, j, offset, total)
    ensures n in t.at && (n.isLeaf ==> Found(t, n, j, offset, total))
    ensures !n.isLeaf ==> h > 0 && t.at[n].kids != [] && NodeLen(t.at[n]) == KidsTotal(t.at[n].kids)
    ensures KidsTotal(t.at[n].kids[..0]) == 0
  {
    assert NodeOk(t.at, n) && Filled(t, null, n);
  }
}
