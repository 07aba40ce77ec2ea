/** Keeping the child entries' lengths right along the path from a node to the root. */
module RegionLengths {
  import opened Runs
  import opened RegionTree

  /** Only child entries' lengths differ, and only in nodes above height `h`. */
  ghost predicate LengthsOnly(at: Store, bt: Store, h: nat) {
    && at.Keys == bt.Keys
    && forall n :: n in at ==> LengthsOnlyAt(at[n], bt[n], h)
  }

  ghost predicate LengthsOnlyAt(a: Rec, b: Rec, h: nat) {
    && b == a.(kids := b.kids) && KidNodes(a.kids) == KidNodes(b.kids)
    && (a.height <= h ==> a == b)
  }

  lemma LengthsTrans(at: Store, bt: Store, ct: Store, h: nat, i: nat)
    requires LengthsOnly(at, bt, h) && LengthsOnly(bt, ct, i) && h <= i
    ensures LengthsOnly(at, ct, h)
  {
    forall n | n in at
      ensures LengthsOnlyAt(at[n], ct[n], h)
    {
      assert LengthsOnlyAt(at[n], bt[n], h) && LengthsOnlyAt(bt[n], ct[n], i);
    }
  }

  lemma LengthsShape(t: Tree, bt: Store, gap: int, h: nat)
    requires Shape(t, gap) && LengthsOnly(t.at, bt, h)
    ensures Shape(Tree(bt, t.rows), gap)
    ensures AllRuns(Tree(bt, t.rows)) == AllRuns(t)
    ensures Root(Tree(bt, t.rows)) == Root(t)
  {
    forall n | n in t.at
      ensures Content(n, bt[n]) && KidNodes(t.at[n].kids) == KidNodes(bt[n].kids)
    {
      assert NodeOk(t.at, n) && LengthsOnlyAt(t.at[n], bt[n], h);
    }
    forall n | n in t.at
      ensures
        && t.at[n].parent == bt[n].parent && t.at[n].prev == bt[n].prev && t.at[n].next == bt[n].next
        && t.at[n].height == bt[n].height && t.at[n].runs == bt[n].runs
    {
      assert LengthsOnlyAt(t.at[n], bt[n], h);
    }
    ShapeFrame(t, bt, gap);
    assert Row(t.at, 0, t.rows[0]);
    RunsFrame(t.at, bt, t.rows[0]);
  }

  lemma LengthsFill(t: Tree, bt: Store, h: nat, low: Node?)
    requires Fill(t, low) && LengthsOnly(t.at, bt, h)
    ensures Fill(Tree(bt, t.rows), low)
  {
    forall n | n in bt
      ensures Filled(Tree(bt, t.rows), low, n)
    {
      assert LengthsOnlyAt(t.at[n], bt[n], h) && Filled(t, low, n);
      assert |KidNodes(t.at[n].kids)| == |KidNodes(bt[n].kids)|;
    }
  }

  /** Entry `k` of `p` is changed by `delta`. */
  ghost function Bumped(at: Store, p: Node, k: nat, delta: int): Store
    requires p in at && k < |at[p].kids| && at[p].kids[k].length + delta >= 0
  {
    at[p := at[p].(kids := at[p].kids[k := Child(at[p].kids[k].node, at[p].kids[k].length + delta)])]
  }

  lemma BumpTotal(cs: seq<Child>, k: nat, c: Child)
    requires k < |cs|
    ensures KidsTotal(cs[k := c]) == KidsTotal(cs) - cs[k].length + c.length
    ensures c.node == cs[k].node ==> KidNodes(cs[k := c]) == KidNodes(cs)
  {
    KidsTotalSplice(cs, k, [c]);
    assert [c][1..] == [];
    assert cs[k := c] == Splice(cs, k, k + 1, [c]);
  }

  lemma BumpLengths(at: Store, p: Node, k: nat, delta: int, h: nat)
    requires p in at && k < |at[p].kids| && at[p].kids[k].length + delta >= 0 && h < at[p].height
    ensures LengthsOnly(at, Bumped(at, p, k, delta), h)
    ensures NodeLen(Bumped(at, p, k, delta)[p]) == NodeLen(at[p]) + delta
  {
    BumpTotal(at[p].kids, k, Child(at[p].kids[k].node, at[p].kids[k].length + delta));
  }

  /** After the change it is the parent's own entry that is off by `delta`. */
  lemma BumpSums(at: Store, p: Node, k: nat, node: Node, delta: int, odd: map<Node, int>)
    requires p in at && k < |at[p].kids| && at[p].kids[k].length + delta >= 0
    requires at[p].kids[k].node == node && node in odd && p !in odd && p != node
    requires Sums(at, odd)
    requires forall n :: n in at ==> KidsLinked(at, n)
    ensures Sums(Bumped(at, p, k, delta), odd[node := odd[node] + delta][p := NodeLen(at[p])])
  {
    var bt := Bumped(at, p, k, delta);
    var odd2 := odd[node := odd[node] + delta][p := NodeLen(at[p])];
    assert KidsLinked(at, p) && KidAt(at, p, k);
    forall n, i | n in bt && 0 <= i < |bt[n].kids|
      ensures SumAt(bt, odd2, n, i)
    {
      assert SumAt(at, odd, n, i);
      assert KidsLinked(at, n) && KidAt(at, n, i);
      if n == p && i != k {
        assert KidNodes(at[p].kids)[i] != KidNodes(at[p].kids)[k];
      }
    }
  }

  /** Once the levels above are right too, the parent is no longer off. */
  lemma SettleSums(at: Store, odd: map<Node, int>, p: Node)
    requires p in at && p !in odd
    requires Sums(at, odd[p := NodeLen(at[p])])
    ensures Sums(at, odd)
  {
    forall n, i | n in at && 0 <= i < |at[n].kids|
      ensures SumAt(at, odd, n, i)
    {
      assert SumAt(at, odd[p := NodeLen(at[p])], n, i);
    }
  }

  /** A node without a parent has no entry, so what `odd` says of it does not matter. */
  lemma RootSums(at: Store, odd: map<Node, int>, root: Node, x: int)
    requires root in at && at[root].parent == null && Sums(at, odd)
    requires forall n :: n in at ==> KidsLinked(at, n)
    ensures Sums(at, odd[root := x])
  {
    var odd2 := odd[root := x];
    forall n, i | n in at && 0 <= i < |at[n].kids|
      ensures SumAt(at, odd2, n, i)
    {
      assert SumAt(at, odd, n, i) && KidsLinked(at, n) && KidAt(at, n, i);
    }
  }

  lemma AllLinked(t: Tree, gap: int)
    requires Shape(t, gap)
    ensures forall n :: n in t.at ==> KidsLinked(t.at, n)
  {
    forall n | n in t.at
      ensures KidsLinked(t.at, n)
    {
      assert NodeOk(t.at, n);
    }
  }

  /** What the entry of `node` says moves by `delta`. */
  ghost function Shift(odd: map<Node, int>, node: Node, delta: int): map<Node, int>
    requires node in odd
  {
    odd[node := odd[node] + delta]
  }

  /** The entries that are off while the entry of `node` has been changed but the level above has not. */
  ghost function Carry(odd: map<Node, int>, node: Node, delta: int, p: Node, sum: int): (odd2: map<Node, int>)
    requires node in odd
  {
    Shift(odd, node, delta)[p := sum]
  }

  /** What moving an entry by `delta` does, up to the entry of the parent. */
  lemma Bump(t: Tree, gap: int, node: Node, s: Spot, delta: int, odd: map<Node, int>, bt: Store)
    requires Shape(t, gap) && At(t, node, s) && Sums(t.at, odd)
    requires node in odd && forall m :: m in odd ==> m in t.at && t.at[m].height <= t.at[node].height
    requires t.at[t.at[node].parent].kids[s.k].length + delta >= 0
    requires bt == Bumped(t.at, t.at[node].parent, s.k, delta)
    ensures LengthsOnly(t.at, bt, s.h) && Shape(Tree(bt, t.rows), gap)
    ensures
      var odd2 := Carry(odd, node, delta, t.at[node].parent, NodeLen(t.at[t.at[node].parent]));
      && Sums(bt, odd2)
      && forall m :: m in odd2 ==> m in bt && bt[m].height <= s.h + 1
    ensures NodeLen(bt[t.at[node].parent]) == NodeLen(t.at[t.at[node].parent]) + delta
    ensures t.at[node].parent !in odd && t.at[node].parent != node
    ensures bt[t.at[node].parent].height == s.h + 1 == t.at[t.at[node].parent].height
  {
    AllLinked(t, gap);
    var p := t.at[node].parent;
    BumpLengths(t.at, p, s.k, delta, s.h);
    BumpSums(t.at, p, s.k, node, delta, odd);
    LengthsShape(t, bt, gap, s.h);
    forall m | m in odd
      ensures bt[m].height == t.at[m].height
    {
      assert LengthsOnlyAt(t.at[m], bt[m], s.h);
    }
  }

  /** The whole path is right once the part above the parent is. */
  lemma BumpDone(at: Store, bt: Store, ct: Store, p: Node, node: Node, h: nat, delta: int, odd: map<Node, int>)
    requires LengthsOnly(at, bt, h) && p in at && at[p].height == h + 1
    requires LengthsOnly(bt, ct, h + 1)
    requires node in odd && p !in odd && p != node && NodeLen(bt[p]) == NodeLen(at[p]) + delta
    requires
      var odd2 := Carry(odd, node, delta, p, NodeLen(at[p]));
      Sums(ct, Shift(odd2, p, delta))
    ensures LengthsOnly(at, ct, h) && Sums(ct, Shift(odd, node, delta))
  {
    LengthsTrans(at, bt, ct, h, h + 1);
    assert LengthsOnlyAt(at[p], bt[p], h) && LengthsOnlyAt(bt[p], ct[p], h + 1);
    var odd1 := Shift(odd, node, delta);
    var odd2 := Carry(odd, node, delta, p, NodeLen(at[p]));
    assert Shift(odd2, p, delta) == odd1[p := NodeLen(ct[p])];
    SettleSums(ct, odd1, p);
  }

  lemma LengthsList(at: Store, bt: Store, h: nat, row: seq<Node>)
    requires LengthsOnly(at, bt, h)
    ensures ListOf(at, row) == ListOf(bt, row)
  {
    forall n | n in row
      ensures RunsIn(at, n) == RunsIn(bt, n)
    {
      if n in at {
        assert LengthsOnlyAt(at[n], bt[n], h);
      }
    }
    ListFrame(at, bt, row);
  }
}
