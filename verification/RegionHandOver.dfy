/** The children of a branch that has been taken out are handed over to a neighbour, one by one. */
module RegionHandOver {
  import opened Runs
  import opened RegionTree
  import opened RegionSplit
  import opened RegionMoves
  import opened RegionLengths
  import opened RegionCascade
  import opened RegionEdit
  import opened RegionCompact
  import opened RegionTakeOut

  /** The branches of row `h` before place `c` have the children `front`, the others `back`. */
  ghost predicate CutKids(t: Tree, h: nat, c: nat, front: seq<Node>, back: seq<Node>) {
    && h < |t.rows| && c <= |t.rows[h]|
    && FlatKids(t.at, t.rows[h][..c]) == front && FlatKids(t.at, t.rows[h][c..]) == back
  }

  /** A child that still points to the parent that has been taken out. */
  ghost predicate LimboAt(t: Tree, h: nat, node: Node, c: Child) {
    && c.node in t.at && t.at[c.node].height + 1 == h && t.at[c.node].parent == node
    && c.length == NodeLen(t.at[c.node])
  }

  ghost predicate Limbo(t: Tree, h: nat, node: Node, cs: seq<Child>) {
    NoDup(KidNodes(cs)) && forall x {:trigger LimboAt(t, h, node, cs[x])} :: 0 <= x < |cs| ==>
        LimboAt(t, h, node, cs[x])
  }

  /** Above row `h` only the number of children of `q` has changed, by `d`. */
  ghost predicate UpperAt(t: Tree, u: Tree, h: nat, q: Node?, d: int, n: Node)
    requires n in t.at
  {
    t.at[n].height > h ==>
      && n in u.at && u.at[n].height == t.at[n].height && u.at[n].parent == t.at[n].parent
      && u.at[n].prev == t.at[n].prev && u.at[n].next == t.at[n].next
      && |u.at[n].kids| == |t.at[n].kids| + if n == q then d else 0
  }

  ghost predicate Upper(t: Tree, u: Tree, h: nat, q: Node?, d: int) {
    forall n {:trigger UpperAt(t, u, h, q, d, n)} :: n in t.at ==> UpperAt(t, u, h, q, d, n)
  }

  /** The leaves and all rows but row `h` are as they were. */
  ghost predicate Below(t: Tree, u: Tree, h: nat) {
    && |u.rows| == |t.rows| && 0 < h < |t.rows| && u.rows[h - 1] == t.rows[h - 1]
    && AllRuns(u) == AllRuns(t) && Leaves(u) == Leaves(t)
    && (Spare(t) ==> Spare(u))
    && t.at.Keys <= u.at.Keys
  }

  /**
   * Where the loop stands: `target`, at place `j` of row `h`, takes children at the cut `c`; its entry says
   * `e` and lacks `added`; the children `limbo` are still to come; `cut` tells that it has been split.
   */
  datatype Hand = Hand(target: Node, e: int, added: nat, c: nat, j: nat, front: seq<Node>, back: seq<Node>,
                       limbo: seq<Child>, q: Node?, cut: bool)

  ghost predicate Handing(t0: Tree, t: Tree, h: nat, root: Node, low: Node?, node: Node, w: Hand) {
    && Loose(t, h - 1, root, low, w.target, w.e) && w.e + w.added == NodeLen(t.at[w.target])
    && Below(t0, t, h)
    && CutKids(t, h, w.c, w.front, w.back)
    && w.j < |t.rows[h]| && t.rows[h][w.j] == w.target && t.at[w.target].height == h
    && node !in t.at && Limbo(t, h, node, w.limbo)
    && Upper(t0, t, h, w.q, if w.cut then 1 else 0)
    && (!w.cut ==> t.at[w.target].parent == w.q)
  }

  lemma HandingMeans(t0: Tree, t: Tree, h: nat, root: Node, low: Node?, node: Node, w: Hand)
    requires Handing(t0, t, h, root, low, node, w)
    ensures Loose(t, h - 1, root, low, w.target, w.e) && w.e + w.added == NodeLen(t.at[w.target])
    ensures w.target in t.at && h > 0 && t.at[w.target].height == h && !w.target.isLeaf
    ensures |t.at[w.target].kids| <= MAX_BRANCHES
    ensures |t.rows| == |t0.rows| && AllRuns(t) == AllRuns(t0)
    ensures t.at[w.target].runs == []
  {
    assert NodeOk(t.at, w.target);
  }

  // ---------------------------------------------------------------- one child

  lemma CutKidsFrame(t: Tree, bt: Store, h: nat, c: nat, front: seq<Node>, back: seq<Node>, i: nat)
    requires CutKids(t, h, c, front, back) && LengthsOnly(t.at, bt, i)
    ensures CutKids(Tree(bt, t.rows), h, c, front, back)
  {
    LengthsFlat(t.at, bt, i, t.rows[h][..c]);
    LengthsFlat(t.at, bt, i, t.rows[h][c..]);
  }

  lemma FlatTake(at: Store, row: seq<Node>, j: nat)
    requires j < |row|
    ensures FlatKids(at, row[..j + 1]) == FlatKids(at, row[..j]) + KidsOf(at, row[j])
    ensures FlatKids(at, row[j..]) == KidsOf(at, row[j]) + FlatKids(at, row[j + 1..])
  {
    TakeLast(row, j);
    FlatConcat(at, row[..j], [row[j]]);
    FlatConcat(at, [row[j]], row[j + 1..]);
    FlatOne(at, row[j]);
  }

  lemma PushSides(at: Store, bt: Store, target: Node, c: Child, cs: seq<Child>, h: nat, row: seq<Node>, j: nat)
    requires PushDone(at, bt, target, c, cs) && Row(at, h, row) && j < |row| && row[j] == target
    ensures FlatKids(bt, row[..j]) == FlatKids(at, row[..j])
    ensures FlatKids(bt, row[j + 1..]) == FlatKids(at, row[j + 1..])
  {
    forall n | n in row[..j] || n in row[j + 1..]
      ensures KidsOf(at, n) == KidsOf(bt, n)
    {
      assert n in row && n != target;
      PushKeeps(at, bt, target, c, cs, n);
    }
    FlatFrame(at, bt, row[..j]);
    FlatFrame(at, bt, row[j + 1..]);
  }

  lemma PushCutFront(t: Tree, bt: Store, target: Node, c: Child, h: nat, j: nat, front: seq<Node>, back: seq<Node>)
    requires target in t.at && PushDone(t.at, bt, target, c, [c] + t.at[target].kids)
    requires CutKids(t, h, j, front, back) && Row(t.at, h, t.rows[h]) && j < |t.rows[h]| && t.rows[h][j] == target
    ensures CutKids(Tree(bt, t.rows), h, j, front, [c.node] + back)
  {
    PushSides(t.at, bt, target, c, [c] + t.at[target].kids, h, t.rows[h], j);
    FlatTake(t.at, t.rows[h], j);
    FlatTake(bt, t.rows[h], j);
    KidNodesConcat([c], t.at[target].kids);
    assert KidNodes([c]) == [c.node];
    Assoc([c.node], KidsOf(t.at, target), FlatKids(t.at, t.rows[h][j + 1..]));
  }

  lemma PushCutBack(t: Tree, bt: Store, target: Node, c: Child, h: nat, j: nat, front: seq<Node>, back: seq<Node>)
    requires target in t.at && PushDone(t.at, bt, target, c, t.at[target].kids + [c])
    requires CutKids(t, h, j + 1, front, back) && Row(t.at, h, t.rows[h]) && j < |t.rows[h]| && t.rows[h][j] == target
    ensures CutKids(Tree(bt, t.rows), h, j + 1, front + [c.node], back)
  {
    PushSides(t.at, bt, target, c, t.at[target].kids + [c], h, t.rows[h], j);
    FlatTake(t.at, t.rows[h], j);
    FlatTake(bt, t.rows[h], j);
    KidNodesConcat(t.at[target].kids, [c]);
    assert KidNodes([c]) == [c.node];
    Assoc(FlatKids(t.at, t.rows[h][..j]), KidsOf(t.at, target), [c.node]);
  }

  /** The children that are still to come stay where they are. */
  lemma PushLimbo(t: Tree, bt: Store, target: Node, c: Child, cs: seq<Child>, h: nat, node: Node, limbo: seq<Child>,
                  rest: seq<Child>)
    requires PushDone(t.at, bt, target, c, cs) && Limbo(t, h, node, limbo) && t.at[target].height == h
    requires limbo == rest + [c] || limbo == [c] + rest
    ensures Limbo(Tree(bt, t.rows), h, node, rest)
  {
    var all := KidNodes(limbo);
    var shift := if limbo == rest + [c] then 0 else 1;
    forall x | 0 <= x < |rest|
      ensures LimboAt(Tree(bt, t.rows), h, node, rest[x])
    {
      assert rest[x] == limbo[x + shift];
      assert LimboAt(t, h, node, limbo[x + shift]);
      var k := if limbo == rest + [c] then |rest| else 0;
      assert all[x + shift] != all[k];
      PushKeeps(t.at, bt, target, c, cs, rest[x].node);
    }
    assert forall x :: 0 <= x < |rest| ==> KidNodes(rest)[x] == all[x + shift];
  }

  lemma PushUpper(t0: Tree, t: Tree, bt: Store, target: Node, c: Child, cs: seq<Child>, h: nat, q: Node?, d: int)
    requires Upper(t0, t, h, q, d) && PushDone(t.at, bt, target, c, cs)
    requires t.at[target].height == h && t.at[c.node].height < h
    ensures Upper(t0, Tree(bt, t.rows), h, q, d)
  {
    forall n | n in t0.at
      ensures UpperAt(t0, Tree(bt, t.rows), h, q, d, n)
    {
      assert UpperAt(t0, t, h, q, d, n);
      if t0.at[n].height > h {
        PushKeeps(t.at, bt, target, c, cs, n);
      }
    }
  }

  lemma PushBelow(t0: Tree, t: Tree, bt: Store, target: Node, c: Child, cs: seq<Child>, h: nat)
    requires Below(t0, t, h) && PushDone(t.at, bt, target, c, cs) && Row(t.at, 0, t.rows[0])
    ensures Below(t0, Tree(bt, t.rows), h)
  {
    PushRow(t.at, bt, target, c, cs, 0, t.rows[0]);
    forall n | n in t.rows[0]
      ensures RunsIn(t.at, n) == RunsIn(bt, n)
    {
      PushKeeps(t.at, bt, target, c, cs, n);
    }
    ListFrame(t.at, bt, t.rows[0]);
    if Spare(t0) {
      forall n | n in bt
        ensures SpareAt(Tree(bt, t.rows), n)
      {
        assert SpareAt(t, n);
        PushKeeps(t.at, bt, target, c, cs, n);
      }
    }
  }

  lemma PushLoose(t: Tree, bt: Store, root: Node, low: Node?, target: Node, c: Child, cs: seq<Child>, h: nat, e: int,
      node: Node)
    requires Loose(t, h - 1, root, low, target, e) && PushDone(t.at, bt, target, c, cs)
    requires t.at[target].height == h && |t.at[target].kids| < MAX_BRANCHES && node !in t.at && LimboAt(t, h, node, c)
    ensures Loose(Tree(bt, t.rows), h - 1, root, low, target, e)
    ensures NodeLen(bt[target]) == NodeLen(t.at[target]) + c.length
    ensures CanPush(t, h - 1, target, c)
  {
    PushShape(t, h - 1, target, c, cs, bt);
    PushSums(t.at, bt, target, c, cs, e);
    PushFill(t, target, c, cs, bt, low);
  }

  lemma HandingRows(t0: Tree, t: Tree, h: nat, root: Node, low: Node?, node: Node, w: Hand, c: Child, rest: seq<Child>)
    requires Handing(t0, t, h, root, low, node, w)
    requires w.limbo == rest + [c] || w.limbo == [c] + rest
    ensures |t.rows| > 0 && Row(t.at, h, t.rows[h]) && Row(t.at, 0, t.rows[0])
    ensures LimboAt(t, h, node, c) && c.node in t.at && t.at[c.node].height < h
    ensures Limbo(t, h, node, w.limbo)
  {
    var x := if w.limbo == rest + [c] then |rest| else 0;
    assert w.limbo[x] == c && LimboAt(t, h, node, w.limbo[x]);
  }

  lemma HandedKeeps(t0: Tree, t: Tree, bt: Store, h: nat, root: Node, low: Node?, node: Node, w: Hand, c: Child,
                    cs: seq<Child>, rest: seq<Child>)
    requires Handing(t0, t, h, root, low, node, w) && |t.at[w.target].kids| < MAX_BRANCHES
    requires w.limbo == rest + [c] || w.limbo == [c] + rest
    requires PushDone(t.at, bt, w.target, c, cs)
    ensures
      var u := Tree(bt, t.rows);
      && Loose(u, h - 1, root, low, w.target, w.e) && w.e + w.added + c.length == NodeLen(bt[w.target])
      && Below(t0, u, h) && Limbo(u, h, node, rest) && Upper(t0, u, h, w.q, if w.cut then 1 else 0)
    ensures bt[w.target].height == h && |bt[w.target].kids| == |t.at[w.target].kids| + 1
    ensures bt[w.target].parent == t.at[w.target].parent && node !in bt
    ensures |t.rows| > h && Row(t.at, h, t.rows[h]) && CutKids(t, h, w.c, w.front, w.back) && w.j < |t.rows[h]|
  {
    HandingRows(t0, t, h, root, low, node, w, c, rest);
    PushLoose(t, bt, root, low, w.target, c, cs, h, w.e, node);
    PushBelow(t0, t, bt, w.target, c, cs, h);
    PushUpper(t0, t, bt, w.target, c, cs, h, w.q, if w.cut then 1 else 0);
    PushLimbo(t, bt, w.target, c, cs, h, node, w.limbo, rest);
  }

  /** One child handed over at the front. */
  lemma HandedFront(t0: Tree, t: Tree, bt: Store, h: nat, root: Node, low: Node?, node: Node, w: Hand, c: Child,
                    rest: seq<Child>)
    requires Handing(t0, t, h, root, low, node, w) && |t.at[w.target].kids| < MAX_BRANCHES
    requires w.limbo == rest + [c] && w.c == w.j
    requires PushDone(t.at, bt, w.target, c, [c] + t.at[w.target].kids)
    ensures
      Handing(t0, Tree(bt, t.rows), h, root, low, node,
              w.(added := w.added + c.length, limbo := rest, back := [c.node] + w.back))
    ensures w.target in bt && |bt[w.target].kids| == |t.at[w.target].kids| + 1
  {
    HandedKeeps(t0, t, bt, h, root, low, node, w, c, [c] + t.at[w.target].kids, rest);
    hide Loose, Below, Upper, CutKids, Limbo, PushDone, Row;
    PushCutFront(t, bt, w.target, c, h, w.j, w.front, w.back);
  }

  /** One child handed over at the back. */
  lemma HandedBack(t0: Tree, t: Tree, bt: Store, h: nat, root: Node, low: Node?, node: Node, w: Hand, c: Child,
                   rest: seq<Child>)
    requires Handing(t0, t, h, root, low, node, w) && |t.at[w.target].kids| < MAX_BRANCHES
    requires w.limbo == [c] + rest && w.c == w.j + 1
    requires PushDone(t.at, bt, w.target, c, t.at[w.target].kids + [c])
    ensures
      Handing(t0, Tree(bt, t.rows), h, root, low, node,
              w.(added := w.added + c.length, limbo := rest, front := w.front + [c.node]))
    ensures w.target in bt && |bt[w.target].kids| == |t.at[w.target].kids| + 1
  {
    HandedKeeps(t0, t, bt, h, root, low, node, w, c, t.at[w.target].kids + [c], rest);
    hide Loose, Below, Upper, CutKids, Limbo, PushDone, Row;
    PushCutBack(t, bt, w.target, c, h, w.j, w.front, w.back);
  }

  // ---------------------------------------------------------------- the parents are told

  lemma FlushLimbo(t: Tree, u: Tree, h: nat, node: Node, limbo: seq<Child>)
    requires Limbo(t, h, node, limbo) && LengthsOnly(t.at, u.at, h)
    ensures Limbo(u, h, node, limbo)
  {
    forall x | 0 <= x < |limbo|
      ensures LimboAt(u, h, node, limbo[x])
    {
      assert LimboAt(t, h, node, limbo[x]) && LengthsOnlyAt(t.at[limbo[x].node], u.at[limbo[x].node], h);
    }
  }

  lemma FlushUpper(t0: Tree, t: Tree, u: Tree, h: nat, q: Node?, d: int)
    requires Upper(t0, t, h, q, d) && LengthsOnly(t.at, u.at, h)
    ensures Upper(t0, u, h, q, d)
  {
    forall n | n in t0.at
      ensures UpperAt(t0, u, h, q, d, n)
    {
      assert UpperAt(t0, t, h, q, d, n);
      if t0.at[n].height > h {
        assert LengthsOnlyAt(t.at[n], u.at[n], h);
        assert |KidNodes(t.at[n].kids)| == |KidNodes(u.at[n].kids)|;
      }
    }
  }

  lemma FlushBelow(t0: Tree, t: Tree, u: Tree, h: nat)
    requires Below(t0, t, h) && LengthsOnly(t.at, u.at, h) && u.rows == t.rows && AllRuns(u) == AllRuns(t)
    ensures Below(t0, u, h)
  {
    LengthsSpare(t, u, h);
    LengthsList(t.at, u.at, h, t.rows[0]);
  }

  /** Where the loop stands once the parents of its target know of all characters. */
  ghost predicate Paused(t0: Tree, t: Tree, h: nat, root: Node, low: Node?, node: Node, w: Hand) {
    && Gapped(t, h - 1, root, low) && Below(t0, t, h) && CutKids(t, h, w.c, w.front, w.back)
    && w.j < |t.rows[h]| && t.rows[h][w.j] == w.target && w.target in t.at && t.at[w.target].height == h
    && node !in t.at && Limbo(t, h, node, w.limbo)
    && Upper(t0, t, h, w.q, if w.cut then 1 else 0)
    && (!w.cut ==> t.at[w.target].parent == w.q)
  }

  lemma HandPaused(t0: Tree, t: Tree, u: Tree, h: nat, root: Node, low: Node?, node: Node, w: Hand)
    requires Handing(t0, t, h, root, low, node, w)
    requires u.rows == t.rows && LengthsOnly(t.at, u.at, h) && Gapped(u, h - 1, root, low) && AllRuns(u) == AllRuns(t)
    ensures Paused(t0, u, h, root, low, node, w) && u.at[w.target] == t.at[w.target]
  {
    assert LengthsOnlyAt(t.at[w.target], u.at[w.target], h);
    FlushBelow(t0, t, u, h);
    FlushLimbo(t, u, h, node, w.limbo);
    FlushUpper(t0, t, u, h, w.q, if w.cut then 1 else 0);
    CutKidsFrame(t, u.at, h, w.c, w.front, w.back, h);
    assert u == Tree(u.at, t.rows);
    SameKeys(t.at, u.at, h);
  }

  lemma HandResumed(t0: Tree, t: Tree, h: nat, root: Node, low: Node?, node: Node, w: Hand)
    requires Paused(t0, t, h, root, low, node, w)
    ensures Handing(t0, t, h, root, low, node, w.(e := NodeLen(t.at[w.target]), added := 0))
  {
    LooseAtFirst(t, h - 1, root, low, w.target);
  }

  // ---------------------------------------------------------------- the target is split

  lemma SplitLimbo(t: Tree, left: Node, s: Spot, right: Node, bt: Store, h: nat, node: Node, limbo: seq<Child>)
    requires Apart(t.at, left) && SplitDone(t.at, bt, left, right, s.k) && t.at[left].height == h && node != left
    requires Limbo(t, h, node, limbo) && s.h < |t.rows| && s.j < |t.rows[s.h]|
    ensures Limbo(SplitTree(t, bt, s, right), h, node, limbo)
  {
    MovedAreKids(t.at[left]);
    forall x | 0 <= x < |limbo|
      ensures LimboAt(SplitTree(t, bt, s, right), h, node, limbo[x])
    {
      assert LimboAt(t, h, node, limbo[x]);
      SplitKeeps(t.at, bt, left, right, s.k, limbo[x].node);
    }
  }

  lemma UpperWith(t0: Tree, t: Tree, leaf: Node, out: seq<Run>, q: Node?, d: int)
    requires Upper(t0, t, 0, q, d) && leaf in t.at && t.at[leaf].height == 0
    ensures Upper(t0, WithRuns(t, leaf, out), 0, q, d)
  {
    forall n | n in t0.at
      ensures UpperAt(t0, WithRuns(t, leaf, out), 0, q, d, n)
    {
      assert UpperAt(t0, t, 0, q, d, n);
    }
  }

  /** A split of a leaf that no branch above has to give way to. */
  lemma UpperSplit(t0: Tree, t: Tree, u: Tree, q: Node?)
    requires Upper(t0, t, 0, q, 0) && Upper(t, u, 0, q, 1)
    ensures Upper(t0, u, 0, q, 1)
  {
    forall n | n in t0.at
      ensures UpperAt(t0, u, 0, q, 1, n)
    {
      assert UpperAt(t0, t, 0, q, 0, n);
      assert t0.at[n].height > 0 ==> UpperAt(t, u, 0, q, 1, n);
    }
  }

  lemma SplitUpper(t0: Tree, t: Tree, left: Node, s: Spot, right: Node, bt: Store, h: nat)
    requires Apart(t.at, left) && SplitDone(t.at, bt, left, right, s.k) && t.at[left].height == h
    requires Upper(t0, t, h, t.at[left].parent, 0) && s.h < |t.rows| && s.j < |t.rows[s.h]|
    ensures Upper(t0, SplitTree(t, bt, s, right), h, t.at[left].parent, 1)
  {
    MovedAreKids(t.at[left]);
    forall n | n in t0.at
      ensures UpperAt(t0, SplitTree(t, bt, s, right), h, t.at[left].parent, 1, n)
    {
      assert UpperAt(t0, t, h, t.at[left].parent, 0, n);
      if t0.at[n].height > h {
        SplitKeeps(t.at, bt, left, right, s.k, n);
      }
    }
  }

  /** The split of a branch leaves the runs of all leaves alone. */
  lemma SplitList(at: Store, bt: Store, left: Node, right: Node, k: nat, row: seq<Node>)
    requires SplitDone(at, bt, left, right, k) && Apart(at, left) && at[left].runs == []
    ensures ListOf(at, row) == ListOf(bt, row)
  {
    forall n | n in row
      ensures RunsIn(at, n) == RunsIn(bt, n)
    {
      if n in at {
        SplitKeeps(at, bt, left, right, k, n);
      }
    }
    ListFrame(at, bt, row);
  }

  lemma SplitBelow(t0: Tree, t: Tree, left: Node, s: Spot, right: Node, bt: Store, h: nat)
    requires Below(t0, t, h) && SplitDone(t.at, bt, left, right, s.k) && Apart(t.at, left)
    requires s.h == h < |t.rows| && s.j < |t.rows[s.h]| && t.at[left].runs == []
    requires AllRuns(SplitTree(t, bt, s, right)) == AllRuns(t)
    ensures Below(t0, SplitTree(t, bt, s, right), h)
  {
    var u := SplitTree(t, bt, s, right);
    SplitList(t.at, bt, left, right, s.k, t.rows[0]);
    if Spare(t0) {
      forall n | n in bt
        ensures SpareAt(u, n)
      {
        if n in t.at {
          assert SpareAt(t, n);
          SplitKeeps(t.at, bt, left, right, s.k, n);
        }
      }
    }
  }

  lemma SplitGapped(t: Tree, gap: int, root: Node, low: Node?, left: Node, s: Spot, right: Node, bt: Store)
    requires Gapped(t, gap, root, low) && CanSplit(t, gap, left, s, right) && SplitDone(t.at, bt, left, right, s.k)
    requires left in t.at && NearlyFull(t.at[left])
    ensures Gapped(SplitTree(t, bt, s, right), gap, root, low)
    ensures AllRuns(SplitTree(t, bt, s, right)) == AllRuns(t)
    ensures Apart(t.at, left) && t.at[left].height == s.h && Row(t.at, s.h, t.rows[s.h])
  {
    SplitApart(t, gap, left, s);
    SplitShape(t, gap, left, s, right, bt);
    SplitSums(t, gap, left, s, right, bt);
    SplitFill(t, gap, left, s, right, bt, low);
    SplitRuns(t, gap, left, s, right, bt);
  }

  /** Cutting a branch in two keeps the children on either side of a cut next to it. */
  lemma SplitCut(t: Tree, left: Node, s: Spot, right: Node, bt: Store, c: nat, front: seq<Node>, back: seq<Node>)
    requires SplitDone(t.at, bt, left, right, s.k) && Apart(t.at, left) && t.at[left].height == s.h < |t.rows|
    requires Row(t.at, s.h, t.rows[s.h]) && s.j < |t.rows[s.h]| && t.rows[s.h][s.j] == left
    requires CutKids(t, s.h, c, front, back) && (c == s.j || c == s.j + 1)
    ensures c == s.j ==> CutKids(SplitTree(t, bt, s, right), s.h, c, front, back)
    ensures c == s.j + 1 ==> CutKids(SplitTree(t, bt, s, right), s.h, c + 1, front, back)
  {
    hide ChainAt, LeftPart, FlatKids, HalfEntries, KidsTotal, LeftCount, Moved, NodeLen, Total, Widened;
    var row, w := t.rows[s.h], Widened(t.rows[s.h], s.j, right);
    WidenedParts(row, s.j, right);
    SplitCutFrame(t, left, s, right, bt);
    FlatTake(t.at, row, s.j);
    FlatTake(bt, w, s.j);
    FlatTake(bt, w, s.j + 1);
    SplitKidsOf(t.at[left], left, right);
    Assoc(KidsOf(bt, left), KidsOf(bt, right), FlatKids(bt, w[s.j + 2..]));
    Assoc(FlatKids(bt, w[..s.j]), KidsOf(bt, left), KidsOf(bt, right));
  }

  /** The other branches of the row keep their children. */
  lemma SplitCutFrame(t: Tree, left: Node, s: Spot, right: Node, bt: Store)
    requires SplitDone(t.at, bt, left, right, s.k) && Apart(t.at, left) && t.at[left].height == s.h < |t.rows|
    requires Row(t.at, s.h, t.rows[s.h]) && s.j < |t.rows[s.h]| && t.rows[s.h][s.j] == left
    ensures
      var a, b := t.rows[s.h][..s.j], t.rows[s.h][s.j + 1..];
      FlatKids(t.at, a) == FlatKids(bt, a) && FlatKids(t.at, b) == FlatKids(bt, b)
  {
    hide ChainAt, LeftPart, RightPart, FlatKids, HalfEntries, KidsTotal, LeftCount, Moved, NodeLen, Total, Widened;
    var row := t.rows[s.h];
    forall n | n in row[..s.j] || n in row[s.j + 1..]
      ensures KidsOf(t.at, n) == KidsOf(bt, n)
    {
      assert n in row && n != left;
      SplitKeeps(t.at, bt, left, right, s.k, n);
    }
    FlatFrame(t.at, bt, row[..s.j]);
    FlatFrame(t.at, bt, row[s.j + 1..]);
  }

  lemma SplitKidsOf(r: Rec, left: Node, right: Node)
    ensures KidNodes(LeftPart(r, right).kids) + KidNodes(RightPart(r, left).kids) == KidNodes(r.kids)
  {
    CutAndGlue(r.kids, LeftCount(|r.kids|));
    KidNodesConcat(r.kids[..LeftCount(|r.kids|)], r.kids[LeftCount(|r.kids|)..]);
  }

  /** What all splits of the target have in common. */
  lemma HandSplitKeeps(t0: Tree, t: Tree, h: nat, root: Node, low: Node?, node: Node, w: Hand, s: Spot, right: Node,
      bt: Store)
    requires Paused(t0, t, h, root, low, node, w) && !w.cut && NearlyFull(t.at[w.target])
    requires s.h == h && CanSplit(t, h - 1, w.target, s, right) && SplitDone(t.at, bt, w.target, right, s.k)
    requires right != node
    ensures
      var v := SplitTree(t, bt, s, right);
      && Gapped(v, h - 1, root, low) && Below(t0, v, h) && Limbo(v, h, node, w.limbo) && Upper(t0, v, h, w.q, 1)
      && node !in v.at
    ensures Apart(t.at, w.target) && t.at[w.target].height == s.h && Row(t.at, s.h, t.rows[s.h])
    ensures s.j == w.j && w.target in bt && right in bt && bt[w.target].height == h && bt[right].height == h
    ensures |bt[w.target].kids| <= MAX_BRANCHES / 2 && |bt[right].kids| <= MAX_BRANCHES / 2
  {
    hide *;
    PausedMeans(t0, t, h, root, low, node, w);
    SplitGapped(t, h - 1, root, low, w.target, s, right, bt);
    TargetFacts(t, h - 1, root, low, w.target, s, right, w.j);
    HalfFacts(t, bt, w.target, right, s);
    SplitBelow(t0, t, w.target, s, right, bt, h);
    SplitLimbo(t, w.target, s, right, bt, h, node, w.limbo);
    SplitUpper(t0, t, w.target, s, right, bt, h);
  }

  lemma PausedMeans(t0: Tree, t: Tree, h: nat, root: Node, low: Node?, node: Node, w: Hand)
    requires Paused(t0, t, h, root, low, node, w)
    ensures Gapped(t, h - 1, root, low) && Shape(t, h - 1) && Below(t0, t, h) && CutKids(t, h, w.c, w.front, w.back)
    ensures h < |t.rows| && w.j < |t.rows[h]| && t.rows[h][w.j] == w.target
    ensures w.target in t.at && t.at[w.target].height == h > 0
    ensures node !in t.at && Limbo(t, h, node, w.limbo) && node != w.target
    ensures Upper(t0, t, h, w.q, if w.cut then 1 else 0)
    ensures !w.cut ==> t.at[w.target].parent == w.q
    ensures |t.rows| == |t0.rows| && AllRuns(t) == AllRuns(t0)
  {
  }

  lemma TargetFacts(t: Tree, gap: int, root: Node, low: Node?, target: Node, s: Spot, right: Node, j: nat)
    requires Gapped(t, gap, root, low) && CanSplit(t, gap, target, s, right)
    requires s.h > 0 && j < |t.rows[s.h]| && t.rows[s.h][j] == target
    ensures j == s.j < |t.rows[s.h]| && t.at[target].runs == [] && |t.at[target].kids| <= MAX_BRANCHES && !target.isLeaf
  {
    assert NodeOk(t.at, target) && Row(t.at, s.h, t.rows[s.h]);
  }

  lemma HalfFacts(t: Tree, bt: Store, left: Node, right: Node, s: Spot)
    requires SplitDone(t.at, bt, left, right, s.k) && |t.at[left].kids| <= MAX_BRANCHES
    ensures bt.Keys == t.at.Keys + {right} && left in bt && right in bt
    ensures bt[left].height == t.at[left].height == bt[right].height
    ensures |bt[left].kids| <= MAX_BRANCHES / 2 && |bt[right].kids| <= MAX_BRANCHES / 2
    ensures s.h < |t.rows| && s.j < |t.rows[s.h]| ==> SplitTree(t, bt, s, right).at == bt
  {
  }

  /** The target is split and goes on as the left half. */
  lemma HandSplitFront(t0: Tree, t: Tree, h: nat, root: Node, low: Node?, node: Node, w: Hand, s: Spot, right: Node,
      bt: Store)
    requires Paused(t0, t, h, root, low, node, w) && !w.cut && NearlyFull(t.at[w.target]) && w.c == w.j
    requires s.h == h && CanSplit(t, h - 1, w.target, s, right) && SplitDone(t.at, bt, w.target, right, s.k)
    requires right != node
    ensures Paused(t0, SplitTree(t, bt, s, right), h, root, low, node, w.(cut := true))
    ensures |bt[w.target].kids| <= MAX_BRANCHES / 2
  {
    HandSplitKeeps(t0, t, h, root, low, node, w, s, right, bt);
    hide Gapped, Below, Limbo, Upper, CanSplit, Row;
    SplitCut(t, w.target, s, right, bt, w.c, w.front, w.back);
  }

  /** The target is split and the right half goes on. */
  lemma HandSplitBack(t0: Tree, t: Tree, h: nat, root: Node, low: Node?, node: Node, w: Hand, s: Spot, right: Node,
      bt: Store)
    requires Paused(t0, t, h, root, low, node, w) && !w.cut && NearlyFull(t.at[w.target]) && w.c == w.j + 1
    requires s.h == h && CanSplit(t, h - 1, w.target, s, right) && SplitDone(t.at, bt, w.target, right, s.k)
    requires right != node
    ensures
      Paused(t0, SplitTree(t, bt, s, right), h, root, low, node,
          w.(target := right, c := w.c + 1, j := w.j + 1, cut := true))
    ensures right in bt && |bt[right].kids| <= MAX_BRANCHES / 2
  {
    HandSplitKeeps(t0, t, h, root, low, node, w, s, right, bt);
    hide Gapped, Below, Limbo, Upper, CanSplit, Row;
    SplitCut(t, w.target, s, right, bt, w.c, w.front, w.back);
  }

  // ---------------------------------------------------------------- first and last

  lemma StartLimbo(t: Tree, u: Tree, root: Node, node: Node, s: Spot)
    requires Whole(t, root, node) && TakenOut(t, u, root, node, s) && s.h > 0
    ensures Limbo(u, s.h, node, t.at[node].kids)
  {
    var cs := t.at[node].kids;
    assert NodeOk(t.at, node);
    forall x | 0 <= x < |cs|
      ensures LimboAt(u, s.h, node, cs[x])
    {
      assert KidAt(t.at, node, x) && SumAt(t.at, map[], node, x);
      assert StaysAt(t, u, node, s.h, cs[x].node);
    }
  }

  lemma StartUpper(u: Tree, h: nat, q: Node?)
    ensures Upper(u, u, h, q, 0)
  {
    forall n | n in u.at
      ensures UpperAt(u, u, h, q, 0, n)
    {
    }
  }

  lemma StartBelow(t: Tree, u: Tree, root: Node, node: Node, s: Spot)
    requires TakenOut(t, u, root, node, s) && 0 < s.h
    ensures |u.rows| == |t.rows| && s.h < |u.rows| && u.rows[s.h - 1] == t.rows[s.h - 1]
    ensures Below(u, u, s.h)
  {
  }

  /** Right after the branch has been taken out. */
  lemma HandStart(t: Tree, u: Tree, root: Node, node: Node, s: Spot, target: Node, c: nat, j: nat) returns (w: Hand)
    requires Whole(t, root, node) && TakenOut(t, u, root, node, s) && s.h > 0 && c == s.j
    requires (j == s.j && t.at[node].next == target) || (j + 1 == s.j && t.at[node].prev == target)
    ensures s.h < |u.rows| && c <= |u.rows[s.h]| && target in u.at && target in t.at && t.at[target].height == s.h
    ensures Paused(u, u, s.h, root, t.at[node].parent, node, w)
    ensures w.target == target && w.limbo == t.at[node].kids && w.c == c && w.j == j && !w.cut
      && w.q == u.at[target].parent
    ensures u.rows[s.h - 1] == w.front + KidNodes(t.at[node].kids) + w.back
  {
    hide FlatKids, Filled, Leaves, RunsOf, Sums, NodeOk, Placed;
    hide KidNodes;
    assert Row(t.at, s.h, t.rows[s.h]) && ChainAt(t.at, t.rows[s.h], s.j) && KidRow(t, s.h - 1);
    assert target in t.rows[s.h];
    assert StaysAt(t, u, node, s.h, target);
    StartLimbo(t, u, root, node, s);
    StartUpper(u, s.h, u.at[target].parent);
    StartBelow(t, u, root, node, s);
    var front, back := FlatKids(u.at, u.rows[s.h][..c]), FlatKids(u.at, u.rows[s.h][c..]);
    w := Hand(target, 0, 0, c, j, front, back, t.at[node].kids, u.at[target].parent, false);
  }

  lemma CutKidsAll(t: Tree, h: nat, c: nat, front: seq<Node>, back: seq<Node>)
    requires CutKids(t, h, c, front, back)
    ensures FlatKids(t.at, t.rows[h]) == front + back
  {
    CutAndGlue(t.rows[h], c);
    FlatConcat(t.at, t.rows[h][..c], t.rows[h][c..]);
  }

  lemma GapClosed(t: Tree, h: nat, root: Node, low: Node?)
    requires 0 < h < |t.rows| && Gapped(t, h - 1, root, low) && t.rows[h - 1] == FlatKids(t.at, t.rows[h])
    ensures Whole(t, root, low)
  {
    assert KidRow(t, h - 1);
  }

  /** All children have a parent again. */
  lemma HandEnd(t0: Tree, t: Tree, u: Tree, h: nat, root: Node, low: Node?, node: Node, w: Hand, below: seq<Node>)
    requires Handing(t0, t, h, root, low, node, w)
    requires u.rows == t.rows && LengthsOnly(t.at, u.at, h) && Gapped(u, h - 1, root, low) && AllRuns(u) == AllRuns(t)
    requires 0 < h < |t0.rows| && t0.rows[h - 1] == below && below == w.front + w.back
    ensures Whole(u, root, low) && Below(t0, u, h) && Upper(t0, u, h, w.q, if w.cut then 1 else 0)
  {
    HandPaused(t0, t, u, h, root, low, node, w);
    hide Gapped, Limbo, Upper, CutKids;
    CutKidsAll(u, h, w.c, w.front, w.back);
    GapClosed(u, h, root, low);
  }

  ghost function PushWrites(at: Store, target: Node, c: Child, cs: seq<Child>): Store
    requires target in at && c.node in at
  {
    var bt := at[c.node := at[c.node].(parent := target)];
    bt[target := bt[target].(kids := cs)]
  }

  lemma PushWritesDone(at: Store, target: Node, c: Child, cs: seq<Child>)
    requires target in at && c.node in at && c.node != target
    requires cs == at[target].kids + [c] || cs == [c] + at[target].kids
    ensures PushDone(at, PushWrites(at, target, c, cs), target, c, cs)
  {
  }

  /** The split that makes room for `n` more children in `target` finds its parent full. */
  ghost predicate Overfull(t: Tree, target: Node, n: nat) {
    && target in t.at && t.at[target].parent in t.at
    && |t.at[target].kids| + n >= MAX_BRANCHES
    && |t.at[t.at[target].parent].kids| >= MAX_BRANCHES
  }

  /** The parent of the target, before and now. */
  lemma TargetParent(t0: Tree, t: Tree, h: nat, root: Node, low: Node?, node: Node, w: Hand) returns (s: Spot)
    requires Paused(t0, t, h, root, low, node, w) && !w.cut && h + 1 < |t0.rows|
    requires w.q in t0.at && t0.at[w.q].height == h + 1
    ensures At(t, w.target, s) && s.h == h && t.at[w.target].parent == w.q && w.q in t.at
    ensures |t.at[w.q].kids| == |t0.at[w.q].kids| <= MAX_BRANCHES
    ensures |t.at[w.q].kids| < MAX_BRANCHES ==> HasRoom(t, h - 1, w.target, s)
    ensures Sums(t.at, map[])
  {
    RootFacts(t, h - 1);
    s := FindSpot(t, h - 1, w.target);
    assert UpperAt(t0, t, h, w.q, 0, w.q);
    assert NodeOk(t.at, w.q);
  }

  /** How many children the target has while `n` children are being handed over. */
  ghost predicate Counted(t0: Tree, t: Tree, start: Node, w: Hand, n: nat)
    requires start in t0.at && w.target in t.at && |w.limbo| <= n
  {
    var size, done := |t0.at[start].kids|, n - |w.limbo|;
    if w.cut then
      size + n >= MAX_BRANCHES && |t.at[w.target].kids| <= MAX_BRANCHES / 2 + done
    else
      w.target == start && |t.at[start].kids| == size + done && (done > 0 ==> size + done < MAX_BRANCHES)
  }

  lemma CountedMeans(t0: Tree, t: Tree, start: Node, w: Hand, n: nat)
    requires start in t0.at && w.target in t.at && |w.limbo| <= n && Counted(t0, t, start, w, n) && n < MIN_BRANCHES
    ensures |t.at[w.target].kids| >= MAX_BRANCHES - 1 && w.limbo != [] ==>
      !w.cut && |t0.at[start].kids| + n >= MAX_BRANCHES
    ensures w.limbo == [] && n > 0 ==> (w.cut <==> |t0.at[start].kids| + n >= MAX_BRANCHES)
  {
  }

  lemma CountedStep(t0: Tree, t: Tree, u: Tree, start: Node, w: Hand, x: Hand, n: nat)
    requires start in t0.at && w.target in t.at && w.target in u.at && 0 < |w.limbo| <= n
    requires Counted(t0, t, start, w, n) && |t.at[w.target].kids| < MAX_BRANCHES - 1
    requires x.target == w.target && x.cut == w.cut && |x.limbo| + 1 == |w.limbo|
    requires |u.at[w.target].kids| == |t.at[w.target].kids| + 1
    ensures Counted(t0, u, start, x, n)
  {
  }

  lemma CountedCut(t0: Tree, t: Tree, u: Tree, start: Node, w: Hand, x: Hand, n: nat)
    requires start in t0.at && w.target in t.at && x.target in u.at && 0 < |w.limbo| <= n && n < MIN_BRANCHES
    requires Counted(t0, t, start, w, n) && |t.at[w.target].kids| >= MAX_BRANCHES - 1
    requires x.cut && |x.limbo| == |w.limbo| && |u.at[x.target].kids| <= MAX_BRANCHES / 2
    ensures Counted(t0, u, start, x, n) && |u.at[x.target].kids| < MAX_BRANCHES - 1
  {
  }

  lemma FullKids(t: Tree, target: Node)
    requires target in t.at && |t.at[target].kids| >= MAX_BRANCHES - 1
    ensures NearlyFull(t.at[target])
  {
  }

  lemma SplitTreeAt(t: Tree, bt: Store, s: Spot, right: Node)
    requires s.h < |t.rows| && s.j < |t.rows[s.h]|
    ensures SplitTree(t, bt, s, right).at == bt
  {
  }

  lemma CountedFirst(t: Tree, target: Node, w: Hand)
    requires target in t.at && w.target == target && !w.cut
    ensures Counted(t, t, target, w, |w.limbo|)
  {
  }

  lemma KidsNone(kids: seq<Child>, back: seq<Node>)
    ensures kids[..|kids|] == kids && KidNodes(kids[|kids|..]) + back == back
  {
  }

  lemma KidsBefore(kids: seq<Child>, i: nat, back: seq<Node>)
    requires i < |kids|
    ensures kids[..i + 1] == kids[..i] + [kids[i]]
    ensures KidNodes(kids[i..]) + back == [kids[i].node] + (KidNodes(kids[i + 1..]) + back)
  {
  }

  lemma FrontDone(front: seq<Node>, kids: seq<Child>, back: seq<Node>)
    ensures kids[0..] == kids && kids[..0] == []
    ensures front + KidNodes(kids) + back == front + (KidNodes(kids) + back)
  {
  }

  lemma HandingKid(t0: Tree, t: Tree, h: nat, root: Node, low: Node?, node: Node, w: Hand, c: Child, rest: seq<Child>)
    requires Handing(t0, t, h, root, low, node, w)
    requires w.limbo == rest + [c] || w.limbo == [c] + rest
    ensures c.node in t.at && c.node != w.target && w.target in t.at
  {
    HandingRows(t0, t, h, root, low, node, w, c, rest);
  }

  /** A target that has to be split has a full parent exactly when it had one from the start. */
  lemma OverfullMeans(t0: Tree, t: Tree, h: nat, root: Node, low: Node?, node: Node, w: Hand, start: Node, n: nat)
    requires Handing(t0, t, h, root, low, node, w) && !w.cut && start in t0.at && t0.at[start].parent == w.q
      && w.q in t0.at
    requires |t0.at[start].kids| + n >= MAX_BRANCHES
    ensures Overfull(t0, start, n) <==> |t0.at[w.q].kids| >= MAX_BRANCHES
  {
  }

  lemma NotOverfull(t0: Tree, t: Tree, h: nat, w: Hand, start: Node, n: nat)
    requires start in t0.at && t0.at[start].parent == w.q && w.q in t0.at
    requires w.cut <==> |t0.at[start].kids| + n >= MAX_BRANCHES
    requires Upper(t0, t, h, w.q, if w.cut then 1 else 0)
    requires w.cut ==> |t0.at[w.q].kids| < MAX_BRANCHES
    ensures !Overfull(t0, start, n)
    ensures Upper(t0, t, h, w.q, if |t0.at[start].kids| + n >= MAX_BRANCHES then 1 else 0)
  {
  }

  /** The loop after one more child. */
  ghost function Handed(w: Hand, c: Child, rest: seq<Child>, front: bool): Hand {
    var x := w.(added := w.added + c.length, limbo := rest);
    if front then x.(back := [c.node] + w.back) else x.(front := w.front + [c.node])
  }

  lemma HandedIs(w: Hand, c: Child, rest: seq<Child>, front: bool)
    ensures
      var x := Handed(w, c, rest, front);
      && x.target == w.target && x.q == w.q && x.cut == w.cut && x.e == w.e && x.j == w.j && x.c == w.c
      && x.added == w.added + c.length && x.limbo == rest
      && x.front == (if front then w.front else w.front + [c.node])
      && x.back == (if front then [c.node] + w.back else w.back)
    ensures front ==> Handed(w, c, rest, front) == w.(added := w.added + c.length, limbo := rest,
      back := [c.node] + w.back)
    ensures !front ==> Handed(w, c, rest, front) == w.(added := w.added + c.length, limbo := rest,
      front := w.front + [c.node])
  {
  }

  lemma KidsAll(kids: seq<Child>, front: seq<Node>)
    ensures kids[0..] == kids && front + KidNodes(kids[..0]) == front
    ensures kids[|kids|..] == [] && kids[..|kids|] == kids
  {
  }

  lemma KidsAfter(kids: seq<Child>, i: nat, front: seq<Node>)
    requires i < |kids|
    ensures kids[i..] == [kids[i]] + kids[i + 1..]
    ensures front + KidNodes(kids[..i + 1]) == (front + KidNodes(kids[..i])) + [kids[i].node]
  {
  }
}
