/** Facts about snapshots that the region's methods need around their writes. */
module RegionFacts {
  import opened Runs
  import opened RegionTree
  import opened RegionSplit
  import opened RegionSteps
  import opened RegionLengths

  lemma SplitEntry(t: Tree, gap: int, left: Node, s: Spot)
    requires HasRoom(t, gap, left, s) && Sums(t.at, map[])
    ensures t.at[t.at[left].parent].kids[s.k] == Child(left, NodeLen(t.at[left]))
    ensures t.at[left].height == 0 ==> t.at[left].kids == [] && left.isLeaf
    ensures t.at[left].height > 0 ==> t.at[left].runs == [] && !left.isLeaf
  {
    assert SumAt(t.at, map[], t.at[left].parent, s.k);
    assert NodeOk(t.at, left);
  }

  lemma AddNothing(t: Tree, gap: int, node: Node, delta: int, odd: map<Node, int>)
    requires Shape(t, gap) && Sums(t.at, odd) && node in t.at && node in odd
    requires t.at[node].parent == null || delta == 0
    ensures Sums(t.at, Shift(odd, node, delta))
    ensures LengthsOnly(t.at, t.at, t.at[node].height)
  {
    AllLinked(t, gap);
    if delta == 0 {
      assert Shift(odd, node, delta) == odd;
    } else {
      RootSums(t.at, odd, node, odd[node] + delta);
    }
  }

  lemma NewShape(t: Tree, root: Node, leaf: Node)
    requires root != leaf && !root.isLeaf && leaf.isLeaf
    requires t.rows == [[leaf], [root]] && t.at.Keys == {root, leaf}
    requires t.at[root] == Rec(null, null, null, [Child(leaf, 0)], [], 1)
    requires t.at[leaf] == Rec(root, null, null, [], [], 0)
    ensures Shape(t, -1) && Root(t) == root
    ensures Sums(t.at, map[]) && Fill(t, null)
  {
    FlatOne(t.at, root);
    assert KidsOf(t.at, root) == [leaf];
    assert ChainAt(t.at, [leaf], 0) && ChainAt(t.at, [root], 0);
    assert KidAt(t.at, root, 0);
    forall h | 0 <= h < 2
      ensures Row(t.at, h, t.rows[h])
    {
    }
    forall n | n in t.at
      ensures NodeOk(t.at, n) && Placed(t, n) && Filled(t, null, n)
    {
    }
  }

  lemma EntryOf(at: Store, odd: map<Node, int>, p: Node, k: nat, node: Node)
    requires p in at && k < |at[p].kids| && at[p].kids[k].node == node
    requires Sums(at, odd) && node in odd
    ensures at[p].kids[k].length == odd[node] <= NodeLen(at[p])
  {
    assert SumAt(at, odd, p, k);
    KidsTotalAt(at[p].kids, k);
  }

  lemma KidsTotalPrefix(kids: seq<Child>, i: nat)
    requires i < |kids|
    ensures KidsTotal(kids[..i + 1]) == KidsTotal(kids[..i]) + kids[i].length
  {
    Around(kids, i);
    KidsTotalConcat(kids[..i], [kids[i]]);
    assert [kids[i]][1..] == [];
    assert KidsTotal([kids[i]]) == kids[i].length + KidsTotal([kids[i]][1..]);
  }

  /** The nodes `cs` get the parent `parent`. */
  ghost function Adopted(at: Store, cs: seq<Node>, parent: Node): Store {
    map n | n in at :: if n in cs then at[n].(parent := parent) else at[n]
  }

  lemma AdoptNone(at: Store, cs: seq<Node>, parent: Node)
    requires cs == []
    ensures Adopted(at, cs, parent) == at
  {
  }

  lemma AdoptOne(at: Store, cs: seq<Node>, i: nat, parent: Node)
    requires i < |cs| && cs[i] in at
    ensures cs[i] in Adopted(at, cs[..i], parent)
    ensures
      var bt := Adopted(at, cs[..i], parent);
      Adopted(at, cs[..i + 1], parent) == bt[cs[i] := bt[cs[i]].(parent := parent)]
  {
    assert forall n :: n in cs[..i + 1] <==> n in cs[..i] || n == cs[i];
  }

  /** `right` stands right after `left` in its row. */
  ghost function LinkedAfter(at: Store, left: Node, right: Node): Store
    requires left in at && right in at
    requires at[left].next != null ==> at[left].next in at
  {
    var next := at[left].next;
    var bt := if next != null then at[next := at[next].(prev := right)] else at;
    var ct := bt[right := bt[right].(prev := left)];
    var dt := ct[right := ct[right].(next := next)];
    dt[left := dt[left].(next := right)]
  }

  /** What the writes of a leaf split make of the snapshot. */
  ghost function LeafWrites(at: Store, left: Node, right: Node, parent: Node, low: seq<Run>, high: seq<Run>,
      cs: seq<Child>)
    : Store
    requires left in at && right in at && parent in at && left != right
    requires at[left].next != null ==> at[left].next in at
  {
    var bt := at[right := at[right].(runs := high)];
    var ct := bt[left := bt[left].(runs := low)];
    var dt := LinkedAfter(ct, left, right);
    dt[parent := dt[parent].(kids := cs)]
  }

  lemma LeafHalves(runs: seq<Run>, mid: nat, rightLength: nat)
    requires mid <= |runs| && rightLength == Total(runs[mid..])
    ensures Total(runs[..mid]) + rightLength == Total(runs)
  {
    CutAndGlue(runs, mid);
    ExpandConcat(runs[..mid], runs[mid..]);
  }

  lemma NoKidsToMove(r: Rec, left: Node, right: Node)
    requires r.kids == []
    ensures LeftPart(r, right) == r.(runs := r.runs[..LeftCount(|r.runs|)], next := right)
    ensures RightPart(r, left) == Rec(r.parent, left, r.next, [], r.runs[LeftCount(|r.runs|)..], r.height)
    ensures Moved(r) == []
  {
    assert r.kids[..LeftCount(|r.kids|)] == [] && r.kids[LeftCount(|r.kids|)..] == [];
  }

  lemma LeafSplitDone(at: Store, left: Node, right: Node, k: nat, mid: nat, rightLength: nat, cs: seq<Child>)
    requires Apart(at, left) && at[left].kids == [] && at[left].height == 0 && right !in at
    requires k < |at[at[left].parent].kids| && at[at[left].parent].kids[k] == Child(left, NodeLen(at[left]))
    requires mid == LeftCount(|at[left].runs|) && rightLength == Total(at[left].runs[mid..]) <= NodeLen(at[left])
    requires cs == Splice(at[at[left].parent].kids, k, k + 1,
                          [Child(left, NodeLen(at[left]) - rightLength), Child(right, rightLength)])
    ensures
      var base := at[right := Rec(at[left].parent, null, null, [], [], 0)];
      && left in base && at[left].parent in base && left != right
      && (at[left].next != null ==> at[left].next in base)
      && SplitDone(at, LeafWrites(base, left, right, at[left].parent, at[left].runs[..mid], at[left].runs[mid..], cs),
                   left, right, k)
  {
    NoKidsToMove(at[left], left, right);
    HalvesLen(at[left], left, right);
  }

  /** What the writes of a branch split make of the snapshot. */
  ghost function BranchWrites(at: Store, left: Node, right: Node, parent: Node, low: seq<Child>, high: seq<Child>,
                              cs: seq<Child>): Store
    requires left in at && right in at && parent in at && left != right
    requires at[left].next != null ==> at[left].next in at
  {
    var bt := LinkedAfter(at, left, right);
    var ct := bt[right := bt[right].(kids := high)];
    var dt := ct[left := ct[left].(kids := low)];
    var et := Adopted(dt, KidNodes(high), right);
    et[parent := et[parent].(kids := cs)]
  }

  lemma NoRunsToMove(r: Rec, left: Node, right: Node)
    requires r.runs == []
    ensures LeftPart(r, right) == r.(kids := LowKids(r), next := right)
    ensures RightPart(r, left) == Rec(r.parent, left, r.next, HighKids(r), [], r.height)
    ensures HalfEntries(r, left, right) == [Child(left, KidsTotal(LowKids(r))), Child(right, KidsTotal(HighKids(r)))]
  {
    assert r.runs[..LeftCount(|r.runs|)] == [] && r.runs[LeftCount(|r.runs|)..] == [];
  }

  lemma BranchSplitDone(at: Store, left: Node, right: Node, k: nat, low: seq<Child>, high: seq<Child>, cs: seq<Child>)
    requires Apart(at, left) && at[left].runs == [] && right !in at
    requires k < |at[at[left].parent].kids|
    requires low == LowKids(at[left]) && high == HighKids(at[left])
    requires cs == Splice(at[at[left].parent].kids, k, k + 1,
                          [Child(left, KidsTotal(low)), Child(right, KidsTotal(high))])
    ensures
      var base := at[right := Rec(at[left].parent, null, null, [], [], at[left].height)];
      && left in base && at[left].parent in base && left != right
      && (at[left].next != null ==> at[left].next in base)
      && SplitDone(at, BranchWrites(base, left, right, at[left].parent, low, high, cs), left, right, k)
  {
    hide KidsTotal, KidNodes;
    NoRunsToMove(at[left], left, right);
    MovedAreKids(at[left]);
  }

  /** What the writes of a root split make of the snapshot. */
  ghost function RootWrites(at: Store, root: Node, left: Node, right: Node, low: seq<Child>, high: seq<Child>,
                            cs: seq<Child>): Store
    requires left in at && right in at && root in at && left != right
  {
    var bt := at[left := at[left].(next := right)];
    var ct := bt[right := bt[right].(prev := left)];
    var dt := ct[left := ct[left].(kids := low)];
    var et := dt[right := dt[right].(kids := high)];
    var ft := Adopted(et, KidNodes(low), left);
    var gt := Adopted(ft, KidNodes(high), right);
    var ht := gt[root := gt[root].(kids := cs)];
    ht[root := ht[root].(height := ht[root].height + 1)]
  }

  /** The writes of a root split, node by node. */
  ghost predicate RootWrittenAt(at: Store, bt: Store, root: Node, left: Node, right: Node, low: seq<Child>,
                                high: seq<Child>, cs: seq<Child>, n: Node)
    requires n in at && n in bt
  {
    && (n == left ==> bt[n] == at[n].(next := right, kids := low))
    && (n == right ==> bt[n] == at[n].(prev := left, kids := high))
    && (n == root ==> bt[n] == at[n].(kids := cs, height := at[n].height + 1))
    && (n in KidNodes(low) ==> bt[n] == at[n].(parent := left))
    && (n in KidNodes(high) ==> bt[n] == at[n].(parent := right))
    && (n != left && n != right && n != root && n !in KidNodes(low) && n !in KidNodes(high) ==> bt[n] == at[n])
  }

  lemma RootWritesAt(at: Store, root: Node, left: Node, right: Node, low: seq<Child>, high: seq<Child>, cs: seq<Child>,
                     n: Node)
    requires left in at && right in at && root in at && left != right && root != left && root != right
    requires root !in KidNodes(low) && root !in KidNodes(high) && left !in KidNodes(low) && left !in KidNodes(high)
    requires right !in KidNodes(low) && right !in KidNodes(high)
    requires forall c :: c in KidNodes(low) ==> c !in KidNodes(high)
    requires n in at
    ensures
      var bt := RootWrites(at, root, left, right, low, high, cs);
      bt.Keys == at.Keys && RootWrittenAt(at, bt, root, left, right, low, high, cs, n)
  {
  }

  lemma RootWrittenDone(at: Store, base: Store, bt: Store, root: Node, left: Node, right: Node, low: seq<Child>,
                        high: seq<Child>, cs: seq<Child>)
    requires KidsBelow(at, root) && left != right && left !in at && right !in at
    requires low == LowKids(at[root]) && high == HighKids(at[root])
    requires cs == [Child(left, KidsTotal(low)), Child(right, KidsTotal(high))]
    requires base.Keys == at.Keys + {left, right} == bt.Keys && forall n :: n in at ==> base[n] == at[n]
    requires base[left] == base[right] == Rec(root, null, null, [], [], at[root].height)
    requires forall n :: n in base ==> RootWrittenAt(base, bt, root, left, right, low, high, cs, n)
    ensures RootSplitDone(at, bt, root, left, right)
  {
    HalvesOfKids(at[root]);
    assert RootWrittenAt(base, bt, root, left, right, low, high, cs, root);
    assert RootWrittenAt(base, bt, root, left, right, low, high, cs, left);
    assert RootWrittenAt(base, bt, root, left, right, low, high, cs, right);
  }

  lemma RootWritesAll(at: Store, root: Node, left: Node, right: Node, low: seq<Child>, high: seq<Child>, cs: seq<Child>)
    requires left in at && right in at && root in at && left != right && root != left && root != right
    requires root !in KidNodes(low) && root !in KidNodes(high) && left !in KidNodes(low) && left !in KidNodes(high)
    requires right !in KidNodes(low) && right !in KidNodes(high)
    requires forall c :: c in KidNodes(low) ==> c !in KidNodes(high)
    ensures RootWrites(at, root, left, right, low, high, cs).Keys == at.Keys
    ensures forall n :: n in at ==>
      RootWrittenAt(at, RootWrites(at, root, left, right, low, high, cs), root, left, right, low, high, cs, n)
  {
    forall n | n in at
      ensures RootWrites(at, root, left, right, low, high, cs).Keys == at.Keys
      ensures RootWrittenAt(at, RootWrites(at, root, left, right, low, high, cs), root, left, right, low, high, cs, n)
    {
      RootWritesAt(at, root, left, right, low, high, cs, n);
    }
    assert root in at;
  }

  lemma RootHalves(at: Store, root: Node, left: Node, right: Node)
    requires KidsBelow(at, root) && KidsLinked(at, root) && left != right && left !in at && right !in at
    ensures root != left && root != right
    ensures
      var low, high := KidNodes(LowKids(at[root])), KidNodes(HighKids(at[root]));
      && root !in low && root !in high && left !in low && left !in high && right !in low && right !in high
      && forall c :: c in low ==> c !in high
  {
    HalvesOfKids(at[root]);
  }

  lemma RootWritesDone(at: Store, base: Store, bt: Store, root: Node, left: Node, right: Node, low: seq<Child>,
                       high: seq<Child>, cs: seq<Child>)
    requires KidsBelow(at, root) && KidsLinked(at, root) && left != right && left !in at && right !in at
    requires low == LowKids(at[root]) && high == HighKids(at[root])
    requires cs == [Child(left, KidsTotal(low)), Child(right, KidsTotal(high))]
    requires base.Keys == at.Keys + {left, right} && forall n :: n in at ==> base[n] == at[n]
    requires base[left] == base[right] == Rec(root, null, null, [], [], at[root].height)
    requires bt == RootWrites(base, root, left, right, low, high, cs)
    ensures RootSplitDone(at, bt, root, left, right)
  {
    RootHalves(at, root, left, right);
    RootWritesAll(base, root, left, right, low, high, cs);
    RootWrittenDone(at, base, bt, root, left, right, low, high, cs);
  }

  /** What the writes that take a node out make of the snapshot. */
  ghost function DetachWrites(at: Store, node: Node, parent: Node, left: Node?, right: Node?, cs: seq<Child>): Store
    requires parent in at && (left != null ==> left in at) && (right != null ==> right in at)
  {
    var bt := at[parent := at[parent].(kids := cs)];
    var ct := if left != null then bt[left := bt[left].(next := right)] else bt;
    var dt := if right != null then ct[right := ct[right].(prev := left)] else ct;
    dt - {node}
  }

  lemma DetachWritesDone(at: Store, node: Node, k: nat, cs: seq<Child>)
    requires Linked(at, node) && at[node].prev != node && at[node].next != node
    requires k < |at[at[node].parent].kids| && cs == Splice(at[at[node].parent].kids, k, k + 1, [])
    ensures DetachDone(at, DetachWrites(at, node, at[node].parent, at[node].prev, at[node].next, cs), node, k)
  {
  }

  lemma DetachFacts(t: Tree, node: Node, s: Spot)
    requires CanDetach(t, node, s)
    ensures Linked(t.at, node) && At(t, node, s) && Shape(t, -1)
    ensures
      var r := t.at[node];
      && r.parent in t.at && s.k < |t.at[r.parent].kids| && t.at[r.parent].kids[s.k].node == node
      && r.prev != node && r.next != node
      && (r.prev != null ==> r.prev in t.at) && (r.next != null ==> r.next in t.at)
      && r.height == s.h < |t.rows| && s.j < |t.rows[s.h]|
      && (r.prev != null ==> s.j > 0 && r.prev == t.rows[s.h][s.j - 1])
      && (r.prev == null ==> s.j == 0)
      && (r.next != null ==> s.j + 1 < |t.rows[s.h]| && r.next == t.rows[s.h][s.j + 1])
      && (r.next == null ==> s.j + 1 == |t.rows[s.h]|)
  {
    DetachLinked(t, node, s);
    assert Row(t.at, s.h, t.rows[s.h]) && ChainAt(t.at, t.rows[s.h], s.j);
  }

  lemma DetachedIs(t: Tree, bt: Store, s: Spot)
    requires s.h < |t.rows| && s.j < |t.rows[s.h]|
    ensures Detached(t, bt, s) == Tree(bt, t.rows[s.h := Narrowed(t.rows[s.h], s.j)])
  {
  }

  // ---------------------------------------------------------------- one step up

  /** The entry of `node` in `p` has changed by `delta`, and only `p` is off for it. */
  ghost predicate Stepped(at: Store, bt: Store, node: Node, p: Node, delta: int, odd: map<Node, int>)
    requires node in odd && node in at
  {
    && p in at && p in bt && at[p].height == at[node].height + 1 == bt[p].height && LengthsOnly(at, bt, at[node].height)
    && p !in odd && p != node && NodeLen(bt[p]) == NodeLen(at[p]) + delta
    && var odd2 := Carry(odd, node, delta, p, NodeLen(at[p]));
    && Sums(bt, odd2) && forall m :: m in odd2 ==> m in bt && bt[m].height <= bt[p].height
  }

  lemma StepDone(at: Store, bt: Store, node: Node, p: Node, delta: int, odd: map<Node, int>, h: nat)
    requires node in odd && node in at && at[node].height == h && LengthsOnly(at, bt, h)
    requires p in at && p in bt && bt[p].height == h + 1 == at[p].height
    requires p !in odd && p != node && NodeLen(bt[p]) == NodeLen(at[p]) + delta
    requires
      var odd2 := Carry(odd, node, delta, p, NodeLen(at[p]));
      && Sums(bt, odd2)
      && forall m :: m in odd2 ==> m in bt && bt[m].height <= h + 1
    ensures Stepped(at, bt, node, p, delta, odd)
  {
    hide LengthsOnly, Sums, Carry;
  }

  lemma StepMeans(at: Store, bt: Store, node: Node, p: Node, delta: int, odd: map<Node, int>)
      returns (odd2: map<Node, int>)
    requires node in odd && node in at && Stepped(at, bt, node, p, delta, odd)
    ensures p in at && p in bt && at[p].height == at[node].height + 1 == bt[p].height && bt.Keys == at.Keys
    ensures odd2 == Carry(odd, node, delta, p, NodeLen(at[p])) && Sums(bt, odd2) && p in odd2
      && odd2[p] == NodeLen(at[p])
    ensures forall m :: m in odd2 ==> m in bt && bt[m].height <= bt[p].height
  {
    odd2 := Carry(odd, node, delta, p, NodeLen(at[p]));
  }

  lemma StepUp(at: Store, bt: Store, ct: Store, node: Node, p: Node, delta: int, odd: map<Node, int>)
    requires node in odd && node in at && Stepped(at, bt, node, p, delta, odd)
    requires p in bt && LengthsOnly(bt, ct, bt[p].height) && p in at
    requires Sums(ct, Shift(Carry(odd, node, delta, p, NodeLen(at[p])), p, delta))
    ensures LengthsOnly(at, ct, at[node].height) && Sums(ct, Shift(odd, node, delta))
  {
    hide LengthsOnly, Sums, Carry, Shift;
    BumpDone(at, bt, ct, p, node, at[node].height, delta, odd);
  }

  lemma NodePlaced(t: Tree, gap: int, node: Node)
    requires Shape(t, gap) && node in t.at
    ensures t.at[node].height < |t.rows|
  {
    assert Placed(t, node);
  }

  // ---------------------------------------------------------------- before and after a split

  /** What a split needs to know about the node, its parent and its entry. */
  lemma SplitReady(t: Tree, gap: int, left: Node, s: Spot)
    requires HasRoom(t, gap, left, s) && Sums(t.at, map[])
    ensures Shape(t, gap) && At(t, left, s) && Apart(t.at, left) && left in t.at && t.at[left].height == s.h
    ensures s.h < |t.rows| && s.j < |t.rows[s.h]|
    ensures t.at[left].parent in t.at && t.at[left].parent != left
    ensures t.at[left].next != null ==> t.at[left].next in t.at && t.at[left].next != left
    ensures var kids := t.at[t.at[left].parent].kids;
      s.k < |kids| && kids[s.k] == Child(left, NodeLen(t.at[left]))
    ensures s.h == 0 ==> t.at[left].kids == [] && left.isLeaf && NodeLen(t.at[left]) == Total(t.at[left].runs)
    ensures s.h > 0 ==> t.at[left].runs == [] && !left.isLeaf
    ensures forall c :: c in KidNodes(t.at[left].kids) ==> c in t.at
  {
    hide Shape, Sums;
    SplitApart(t, gap, left, s);
    SplitEntry(t, gap, left, s);
  }

  lemma SplitFinally(t: Tree, gap: int, left: Node, s: Spot, right: Node, bt: Store)
    requires HasRoom(t, gap, left, s) && right !in t.at && right.isLeaf == left.isLeaf
    ensures CanSplit(t, gap, left, s, right) && s.h < |t.rows| && s.j < |t.rows[s.h]|
    ensures SplitTree(t, bt, s, right) == Tree(bt, t.rows[s.h := Widened(t.rows[s.h], s.j, right)])
  {
    hide Shape, Widened;
  }

  lemma RootReady(t: Tree, root: Node)
    requires Shape(t, -1) && root == Root(t)
    ensures |t.rows| > 0 && Top(t) == |t.rows| - 1 && root in t.at && t.at[root].height == Top(t)
    ensures t.at[root].parent == null && !root.isLeaf
    ensures KidsLinked(t.at, root) && KidsBelow(t.at, root) && t.at[root].runs == []
    ensures forall c :: c in KidNodes(LowKids(t.at[root])) || c in KidNodes(HighKids(t.at[root])) ==> c in t.at
  {
    RootFacts(t, -1);
    assert NodeOk(t.at, root);
    LinkedBelow(t.at, root);
    HalvesOfKids(t.at[root]);
  }

  lemma RootFinally(t: Tree, root: Node, left: Node, right: Node, bt: Store)
    requires Shape(t, -1) && root == Root(t) && left !in t.at && right !in t.at && left != right && !left.isLeaf
      && !right.isLeaf
    ensures CanRaise(t, root, left, right) && |t.rows| > 0
    ensures Raised(t, bt, root, left, right) == Tree(bt, t.rows[Top(t) := [left, right]] + [[root]])
  {
    hide Shape;
  }

  lemma LeftCountIn(n: nat)
    ensures LeftCount(n) <= n
  {
  }

  lemma LowHighKids(r: Rec, mid: nat)
    requires mid == LeftCount(|r.kids|)
    ensures mid <= |r.kids| && LowKids(r) == r.kids[..mid] && HighKids(r) == r.kids[mid..]
    ensures forall c :: c in KidNodes(HighKids(r)) ==> c in KidNodes(r.kids)
  {
    HalvesOfKids(r);
  }
}
