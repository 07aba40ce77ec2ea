/**
 * The shape of a text region: nodes kept in rows, one row a level, from the leaves (row 0) up to
 * the root. A `Tree` is a snapshot of all node fields; the region's methods change nodes in place
 * and are tied to functions on snapshots.
 */
module RegionTree {
  import opened Runs

  const MAX_BRANCHES: nat := 26
  const MIN_BRANCHES: nat := MAX_BRANCHES / 3

  /** A node of the tree; `isLeaf` is the tag bit of the parent pointer. */
  class Node {
    const isLeaf: bool
    var parent: Node?
    var prev: Node?
    var next: Node?
    var children: seq<Child>
    var runs: seq<Run>
    ghost var height: nat

    constructor (parent: Node?, isLeaf: bool, ghost height: nat)
      ensures this.parent == parent && this.isLeaf == isLeaf && this.height == height
      ensures prev == null && next == null && children == [] && runs == []
    {
      this.parent, this.isLeaf, this.height := parent, isLeaf, height;
      prev, next, children, runs := null, null, [], [];
    }

    ghost function Snap(): Rec
      reads this
    {
      Rec(parent, prev, next, children, runs, height)
    }
  }

  datatype Child = Child(node: Node, length: nat)

  /** The fields of one node. */
  datatype Rec = Rec(parent: Node?, prev: Node?, next: Node?, kids: seq<Child>, runs: seq<Run>, height: nat)

  type Store = map<Node, Rec>

  datatype Tree = Tree(at: Store, rows: seq<seq<Node>>)

  // ---------------------------------------------------------------- kids of a row

  function KidNodes(cs: seq<Child>): (s: seq<Node>)
    ensures |s| == |cs|
    ensures forall i :: 0 <= i < |cs| ==> s[i] == cs[i].node
  {
    seq(|cs|, i requires 0 <= i < |cs| => cs[i].node)
  }

  function KidsOf(at: Store, n: Node): seq<Node> {
    if n in at then KidNodes(at[n].kids) else []
  }

  /** The children of a row of nodes, in order. */
  ghost function FlatKids(at: Store, row: seq<Node>): seq<Node> {
    if row == [] then [] else KidsOf(at, row[0]) + FlatKids(at, row[1..])
  }

  lemma {:induction false} FlatConcat(at: Store, a: seq<Node>, b: seq<Node>)
    ensures FlatKids(at, a + b) == FlatKids(at, a) + FlatKids(at, b)
  {
    if a == [] {
      assert a + b == b;
    } else {
      HeadTail(a, b);
      FlatConcat(at, a[1..], b);
      Assoc(KidsOf(at, a[0]), FlatKids(at, a[1..]), FlatKids(at, b));
    }
  }

  lemma HeadTail<T>(a: seq<T>, b: seq<T>)
    requires a != []
    ensures a + b != [] && (a + b)[0] == a[0] && (a + b)[1..] == a[1..] + b
  {
  }

  lemma FlatOne(at: Store, n: Node)
    ensures FlatKids(at, [n]) == KidsOf(at, n)
  {
    assert [n][1..] == [];
  }

  lemma FlatAround(at: Store, a: seq<Node>, n: Node, b: seq<Node>)
    ensures FlatKids(at, a + [n] + b) == FlatKids(at, a) + KidsOf(at, n) + FlatKids(at, b)
  {
    FlatConcat(at, a + [n], b);
    FlatConcat(at, a, [n]);
    FlatOne(at, n);
  }

  lemma FlatAt(at: Store, row: seq<Node>, j: nat)
    requires j < |row|
    ensures FlatKids(at, row) == FlatKids(at, row[..j]) + KidsOf(at, row[j]) + FlatKids(at, row[j + 1..])
  {
    Around(row, j);
    FlatAround(at, row[..j], row[j], row[j + 1..]);
  }

  /** Two stores give the nodes of a row the same children. */
  ghost predicate SameKids(at: Store, bt: Store, row: seq<Node>) {
    forall n :: n in row ==> KidsOf(at, n) == KidsOf(bt, n)
  }

  lemma {:induction false} FlatFrame(at: Store, bt: Store, row: seq<Node>)
    requires SameKids(at, bt, row)
    ensures FlatKids(at, row) == FlatKids(bt, row)
  {
    if row != [] {
      FlatFrame(at, bt, row[1..]);
    }
  }

  /** Replacing node `j` of a row, the other nodes keeping their children. */
  lemma FlatSplice(at: Store, bt: Store, row: seq<Node>, j: nat, mid: seq<Node>)
    requires j < |row|
    requires SameKids(at, bt, row[..j]) && SameKids(at, bt, row[j + 1..])
    ensures FlatKids(bt, Splice(row, j, j + 1, mid))
         == FlatKids(at, row[..j]) + FlatKids(bt, mid) + FlatKids(at, row[j + 1..])
  {
    FlatConcat(bt, row[..j] + mid, row[j + 1..]);
    FlatConcat(bt, row[..j], mid);
    FlatFrame(at, bt, row[..j]);
    FlatFrame(at, bt, row[j + 1..]);
  }

  /** Every child of a row is child `k` of some node `i` of it. */
  lemma {:induction false} FlatIndex(at: Store, row: seq<Node>, j: nat) returns (i: nat, k: nat)
    requires j < |FlatKids(at, row)|
    ensures i < |row| && k < |KidsOf(at, row[i])|
    ensures KidsOf(at, row[i])[k] == FlatKids(at, row)[j]
    ensures j == |FlatKids(at, row[..i])| + k
  {
    var head := KidsOf(at, row[0]);
    if j < |head| {
      i, k := 0, j;
    } else {
      i, k := FlatIndex(at, row[1..], j - |head|);
      TailPrefix(row, i);
      i := i + 1;
    }
  }

  lemma TailPrefix<T>(s: seq<T>, i: nat)
    requires i < |s|
    ensures s[..i + 1] != [] && s[..i + 1][0] == s[0] && s[..i + 1][1..] == s[1..][..i]
  {
  }

  /** Where child `k` of node `i` of a row stands among all children of the row. */
  lemma FlatPlace(at: Store, row: seq<Node>, i: nat, k: nat, j: nat)
    requires i < |row| && k < |KidsOf(at, row[i])|
    requires j == |FlatKids(at, row[..i])| + k
    ensures j < |FlatKids(at, row)| && FlatKids(at, row)[j] == KidsOf(at, row[i])[k]
  {
    FlatAt(at, row, i);
  }

  // ---------------------------------------------------------------- the shape invariant

  ghost predicate NoDup(row: seq<Node>) {
    forall i, j :: 0 <= i < j < |row| ==> row[i] != row[j]
  }

  ghost predicate Level(at: Store, h: nat, row: seq<Node>) {
    forall n :: n in row ==> n in at && at[n].height == h
  }

  /** Node `j` of a row is linked to its neighbours. */
  ghost predicate ChainAt(at: Store, row: seq<Node>, j: nat)
    requires j < |row| && row[j] in at
  {
    && at[row[j]].prev == (if j == 0 then null else row[j - 1])
    && at[row[j]].next == (if j + 1 == |row| then null else row[j + 1])
  }

  ghost predicate Chain(at: Store, row: seq<Node>)
    requires forall n :: n in row ==> n in at
  {
    forall j {:trigger ChainAt(at, row, j)} :: 0 <= j < |row| ==> ChainAt(at, row, j)
  }

  /** A row: nodes of one height, each once, linked in order. */
  ghost predicate Row(at: Store, h: nat, row: seq<Node>) {
    row != [] && NoDup(row) && Level(at, h, row) && Chain(at, row)
  }

  ghost predicate KidAt(at: Store, n: Node, k: nat)
    requires n in at && k < |at[n].kids|
  {
    var c := at[n].kids[k].node;
    c in at && at[c].parent == n && at[c].height + 1 == at[n].height
  }

  ghost predicate KidsLinked(at: Store, n: Node)
    requires n in at
  {
    NoDup(KidNodes(at[n].kids)) && forall k {:trigger KidAt(at, n, k)} :: 0 <= k < |at[n].kids| ==> KidAt(at, n, k)
  }

  ghost predicate Content(n: Node, r: Rec) {
    && (n.isLeaf <==> r.height == 0)
    && (r.height == 0 ==> r.kids == [])
    && (r.height > 0 ==> r.runs == [])
    && Positive(r.runs) && |r.runs| <= MAX_RUNS && |r.kids| <= MAX_BRANCHES
  }

  ghost predicate NodeOk(at: Store, n: Node)
    requires n in at
  {
    Content(n, at[n]) && KidsLinked(at, n)
  }

  ghost predicate Placed(t: Tree, n: Node)
    requires n in t.at
  {
    t.at[n].height < |t.rows| && n in t.rows[t.at[n].height]
  }

  /** The children of row `h + 1` are row `h`. */
  ghost predicate KidRow(t: Tree, h: nat)
    requires h + 1 < |t.rows|
  {
    t.rows[h] == FlatKids(t.at, t.rows[h + 1])
  }

  ghost function Top(t: Tree): nat
    requires |t.rows| > 0
  {
    |t.rows| - 1
  }

  ghost predicate Rooted(t: Tree) {
    && |t.rows| >= 2
    && |t.rows[Top(t)]| == 1
    && t.rows[Top(t)][0] in t.at
    && t.at[t.rows[Top(t)][0]].parent == null
  }

  ghost function Root(t: Tree): Node
    requires Rooted(t)
  {
    t.rows[Top(t)][0]
  }

  /**
   * The whole shape: uniform depth, agreeing parent and child links, and sibling chains that are
   * the left-to-right order. While children are being moved out of a node that has already been
   * unlinked, row `gap` is not the children of the row above; otherwise there is no gap (-1).
   */
  ghost predicate Shape(t: Tree, gap: int) {
    && Rooted(t)
    && (forall h {:trigger Row(t.at, h, t.rows[h])} :: 0 <= h < |t.rows| ==> Row(t.at, h, t.rows[h]))
    && (forall h {:trigger KidRow(t, h)} :: 0 <= h < |t.rows| - 1 && h != gap ==> KidRow(t, h))
    && (forall n {:trigger NodeOk(t.at, n)} :: n in t.at ==> NodeOk(t.at, n))
    && (forall n {:trigger Placed(t, n)} :: n in t.at ==> Placed(t, n))
  }

  lemma RootFacts(t: Tree, gap: int)
    requires Shape(t, gap)
    ensures Root(t) in t.at && t.at[Root(t)].height == Top(t) && t.at[Root(t)].parent == null
    ensures forall n :: n in t.at && t.at[n].height == Top(t) ==> n == Root(t)
  {
    assert Row(t.at, Top(t), t.rows[Top(t)]);
    assert t.rows[Top(t)][0] in t.rows[Top(t)];
    forall n | n in t.at && t.at[n].height == Top(t)
      ensures n == Root(t)
    {
      assert Placed(t, n);
    }
  }

  /** Where a node stands: place `j` of row `h`, and child `k` of place `pj` of the row above. */
  datatype Spot = Spot(h: nat, j: nat, pj: nat, k: nat)

  ghost predicate At(t: Tree, n: Node, s: Spot) {
    && s.h + 1 < |t.rows|
    && s.j < |t.rows[s.h]| && t.rows[s.h][s.j] == n
    && s.pj < |t.rows[s.h + 1]|
    && n in t.at && t.at[n].height == s.h
    && var p := t.rows[s.h + 1][s.pj];
    && p in t.at && t.at[n].parent == p && t.at[p].height == s.h + 1
    && s.k < |t.at[p].kids| && t.at[p].kids[s.k].node == n
    && s.j == |FlatKids(t.at, t.rows[s.h + 1][..s.pj])| + s.k
  }

  lemma IndexIn<T>(s: seq<T>, x: T) returns (i: nat)
    requires x in s
    ensures i < |s| && s[i] == x
  {
    i :| i < |s| && s[i] == x;
  }

  lemma SpotOf(t: Tree, h: nat, j: nat) returns (s: Spot)
    requires h + 1 < |t.rows| && j < |t.rows[h]| && KidRow(t, h)
    requires Level(t.at, h + 1, t.rows[h + 1])
    requires forall p :: p in t.rows[h + 1] ==> KidsLinked(t.at, p)
    ensures At(t, t.rows[h][j], s)
  {
    hide NodeOk;
    var pj, k := FlatIndex(t.at, t.rows[h + 1], j);
    var p := t.rows[h + 1][pj];
    assert p in t.rows[h + 1] && KidsLinked(t.at, p);
    assert KidAt(t.at, p, k);
    s := Spot(h, j, pj, k);
  }

  /** Every node but the root has exactly one place among its parent's children. */
  lemma FindSpot(t: Tree, gap: int, n: Node) returns (s: Spot)
    requires Shape(t, gap)
    requires n in t.at && t.at[n].height != gap && n != Root(t)
    ensures At(t, n, s) && s.h == t.at[n].height
  {
    var h := t.at[n].height;
    assert Placed(t, n);
    var j := IndexIn(t.rows[h], n);
    if h == Top(t) {
      assert false;
    }
    assert KidRow(t, h);
    assert Row(t.at, h + 1, t.rows[h + 1]);
    forall p | p in t.rows[h + 1]
      ensures KidsLinked(t.at, p)
    {
      assert NodeOk(t.at, p);
    }
    s := SpotOf(t, h, j);
  }

  /** A child entry for `n` in its parent can only be the one at its spot. */
  lemma SpotUnique(t: Tree, gap: int, n: Node, s: Spot, k: nat)
    requires Shape(t, gap) && At(t, n, s)
    requires k < |t.at[t.at[n].parent].kids| && t.at[t.at[n].parent].kids[k].node == n
    ensures k == s.k
  {
    var kids := KidNodes(t.at[t.at[n].parent].kids);
    assert NodeOk(t.at, t.at[n].parent);
    assert kids[k] == n && kids[s.k] == n;
  }

  // ---------------------------------------------------------------- lengths

  function KidsTotal(cs: seq<Child>): nat {
    if cs == [] then 0 else cs[0].length + KidsTotal(cs[1..])
  }

  lemma {:induction false} KidsTotalConcat(a: seq<Child>, b: seq<Child>)
    ensures KidsTotal(a + b) == KidsTotal(a) + KidsTotal(b)
  {
    if a == [] {
      assert a + b == b;
    } else {
      HeadTail(a, b);
      KidsTotalConcat(a[1..], b);
    }
  }

  lemma KidsTotalAround(a: seq<Child>, c: Child, b: seq<Child>)
    ensures KidsTotal(a + [c] + b) == KidsTotal(a) + c.length + KidsTotal(b)
  {
    KidsTotalConcat(a + [c], b);
    KidsTotalConcat(a, [c]);
    assert [c][1..] == [];
  }

  lemma KidsTotalAt(cs: seq<Child>, k: nat)
    requires k < |cs|
    ensures KidsTotal(cs) == KidsTotal(cs[..k]) + cs[k].length + KidsTotal(cs[k + 1..])
  {
    Around(cs, k);
    KidsTotalAround(cs[..k], cs[k], cs[k + 1..]);
  }

  lemma KidsTotalSplice(cs: seq<Child>, k: nat, mid: seq<Child>)
    requires k < |cs|
    ensures KidsTotal(Splice(cs, k, k + 1, mid)) == KidsTotal(cs) - cs[k].length + KidsTotal(mid)
  {
    KidsTotalAt(cs, k);
    KidsTotalConcat(cs[..k] + mid, cs[k + 1..]);
    KidsTotalConcat(cs[..k], mid);
  }

  /** The length of a node: its runs if it is a leaf, its child entries if it is a branch. */
  function NodeLen(r: Rec): nat {
    Total(r.runs) + KidsTotal(r.kids)
  }

  /** What the entry of a child should say; `odd` lists the children whose entry is off. */
  ghost function Want(at: Store, odd: map<Node, int>, c: Node): int
    requires c in at
  {
    if c in odd then odd[c] else NodeLen(at[c])
  }

  ghost predicate SumAt(at: Store, odd: map<Node, int>, n: Node, k: nat)
    requires n in at && k < |at[n].kids|
  {
    at[n].kids[k].node in at && at[n].kids[k].length == Want(at, odd, at[n].kids[k].node)
  }

  /** Every child entry holds the length of the child's subtree, except as `odd` says. */
  ghost predicate Sums(at: Store, odd: map<Node, int>) {
    forall n, k {:trigger SumAt(at, odd, n, k)} :: n in at && 0 <= k < |at[n].kids| ==> SumAt(at, odd, n, k)
  }

  // ---------------------------------------------------------------- fill

  /** How full a node must be; node `low` has just lost an entry and is about to be compacted. */
  ghost predicate Filled(t: Tree, low: Node?, n: Node)
    requires n in t.at
  {
    var r := t.at[n];
    var many := r.height < |t.rows| && |t.rows[r.height]| > 1;
    if r.height == 0 then
      n != low && many ==> |r.runs| >= MIN_RUNS
    else if r.height + 1 == |t.rows| then
      r.kids != []
    else if n == low then
      r.kids != [] && (many ==> |r.kids| >= MIN_BRANCHES - 1)
    else
      |r.kids| >= 2 && (many ==> |r.kids| >= MIN_BRANCHES)
  }

  /** Every node that has a sibling is at least a third full; only the root may be a lone parent. */
  ghost predicate Fill(t: Tree, low: Node?) {
    forall n {:trigger Filled(t, low, n)} :: n in t.at ==> Filled(t, low, n)
  }

  // ---------------------------------------------------------------- the text

  /** The runs of a row of leaves, left to right. */
  ghost function RunsOf(at: Store, row: seq<Node>): seq<Run> {
    if row == [] then [] else (if row[0] in at then at[row[0]].runs else []) + RunsOf(at, row[1..])
  }

  ghost function AllRuns(t: Tree): seq<Run>
    requires |t.rows| > 0
  {
    RunsOf(t.at, t.rows[0])
  }

  ghost function RunsIn(at: Store, n: Node): seq<Run> {
    if n in at then at[n].runs else []
  }

  /** The runs of a row of leaves, leaf by leaf. */
  ghost function ListOf(at: Store, row: seq<Node>): (l: seq<seq<Run>>)
    ensures |l| == |row|
    ensures forall j {:trigger l[j]} :: 0 <= j < |row| ==> l[j] == RunsIn(at, row[j])
  {
    seq(|row|, j requires 0 <= j < |row| => RunsIn(at, row[j]))
  }

  /** The region as a list of leaves. */
  ghost function Leaves(t: Tree): seq<seq<Run>>
    requires |t.rows| > 0
  {
    ListOf(t.at, t.rows[0])
  }

  // ---------------------------------------------------------------- frames

  /** Two stores agree on everything the shape depends on. */
  ghost predicate SameSkeleton(at: Store, bt: Store) {
    && at.Keys == bt.Keys
    && forall n :: n in at ==>
         && at[n].parent == bt[n].parent && at[n].prev == bt[n].prev && at[n].next == bt[n].next
         && at[n].height == bt[n].height && KidNodes(at[n].kids) == KidNodes(bt[n].kids)
  }

  lemma RowFrame(at: Store, bt: Store, h: nat, row: seq<Node>)
    requires Row(at, h, row)
    requires forall n :: n in row ==>
      n in bt && bt[n].prev == at[n].prev && bt[n].next == at[n].next && bt[n].height == at[n].height
    ensures Row(bt, h, row)
  {
    forall j | 0 <= j < |row|
      ensures ChainAt(bt, row, j)
    {
      assert ChainAt(at, row, j);
    }
  }

  lemma ShapeFrame(t: Tree, bt: Store, gap: int)
    requires Shape(t, gap) && SameSkeleton(t.at, bt)
    requires forall n :: n in bt ==> Content(n, bt[n])
    ensures Shape(Tree(bt, t.rows), gap)
  {
    var u := Tree(bt, t.rows);
    forall h | 0 <= h < |u.rows|
      ensures Row(bt, h, u.rows[h])
    {
      assert Row(t.at, h, t.rows[h]);
      RowFrame(t.at, bt, h, t.rows[h]);
    }
    forall h | 0 <= h < |u.rows| - 1 && h != gap
      ensures KidRow(u, h)
    {
      assert KidRow(t, h);
      FlatFrame(t.at, bt, t.rows[h + 1]);
    }
    forall n | n in bt
      ensures NodeOk(bt, n) && Placed(u, n)
    {
      assert NodeOk(t.at, n) && Placed(t, n);
      forall k | 0 <= k < |bt[n].kids|
        ensures KidAt(bt, n, k)
      {
        assert KidNodes(bt[n].kids)[k] == KidNodes(t.at[n].kids)[k];
        assert KidAt(t.at, n, k);
      }
    }
  }

  lemma {:induction false} RunsFrame(at: Store, bt: Store, row: seq<Node>)
    requires forall n :: n in row ==> n in at && n in bt && at[n].runs == bt[n].runs
    ensures RunsOf(at, row) == RunsOf(bt, row)
  {
    if row != [] {
      RunsFrame(at, bt, row[1..]);
    }
  }

  lemma ListFrame(at: Store, bt: Store, row: seq<Node>)
    requires forall n :: n in row ==> RunsIn(at, n) == RunsIn(bt, n)
    ensures ListOf(at, row) == ListOf(bt, row)
  {
    var a, b := ListOf(at, row), ListOf(bt, row);
    forall j | 0 <= j < |row|
      ensures a[j] == b[j]
    {
      assert row[j] in row;
    }
  }

  lemma {:induction false} RunsConcat(at: Store, a: seq<Node>, b: seq<Node>)
    ensures RunsOf(at, a + b) == RunsOf(at, a) + RunsOf(at, b)
  {
    if a == [] {
      assert a + b == b;
    } else {
      HeadTail(a, b);
      RunsConcat(at, a[1..], b);
      Assoc(if a[0] in at then at[a[0]].runs else [], RunsOf(at, a[1..]), RunsOf(at, b));
    }
  }

  lemma RunsOne(at: Store, n: Node)
    requires n in at
    ensures RunsOf(at, [n]) == at[n].runs
  {
    assert [n][1..] == [];
  }

  /** Replacing leaf `j` of the leaf row, the other leaves keeping their runs. */
  lemma RunsSplice(at: Store, bt: Store, row: seq<Node>, j: nat, mid: seq<Node>)
    requires j < |row|
    requires forall n :: n in row[..j] || n in row[j + 1..] ==> n in at && n in bt && at[n].runs == bt[n].runs
    ensures RunsOf(bt, Splice(row, j, j + 1, mid))
         == RunsOf(at, row[..j]) + RunsOf(bt, mid) + RunsOf(at, row[j + 1..])
  {
    RunsConcat(bt, row[..j] + mid, row[j + 1..]);
    RunsConcat(bt, row[..j], mid);
    RunsFrame(at, bt, row[..j]);
    RunsFrame(at, bt, row[j + 1..]);
  }

  lemma RunsAt(at: Store, row: seq<Node>, j: nat)
    requires j < |row| && row[j] in at
    ensures RunsOf(at, row) == RunsOf(at, row[..j]) + at[row[j]].runs + RunsOf(at, row[j + 1..])
  {
    Around(row, j);
    RunsConcat(at, row[..j] + [row[j]], row[j + 1..]);
    RunsConcat(at, row[..j], [row[j]]);
    RunsOne(at, row[j]);
  }
}
