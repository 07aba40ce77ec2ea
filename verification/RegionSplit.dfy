/** Splitting a node that has a parent: what it does to the snapshot, and what it keeps. */
module RegionSplit {
  import opened Runs
  import opened RegionTree

  /** How many entries the left half keeps; the right half takes the rest. */
  function LeftCount(n: nat): nat {
    n - n / 2
  }

  function LeftPart(r: Rec, right: Node): Rec {
    r.(kids := r.kids[..LeftCount(|r.kids|)], runs := r.runs[..LeftCount(|r.runs|)], next := right)
  }

  function RightPart(r: Rec, left: Node): Rec {
    Rec(r.parent, left, r.next, r.kids[LeftCount(|r.kids|)..], r.runs[LeftCount(|r.runs|)..], r.height)
  }

  /** The two entries that replace the entry of the split node. */
  function HalfEntries(r: Rec, left: Node, right: Node): seq<Child> {
    [Child(left, NodeLen(LeftPart(r, right))), Child(right, NodeLen(RightPart(r, left)))]
  }

  /** A node that may be split: linked in a well-shaped tree, its parent having room. */
  ghost predicate HasRoom(t: Tree, gap: int, left: Node, s: Spot) {
    && Shape(t, gap) && At(t, left, s) && s.h != gap
    && |t.at[t.at[left].parent].kids| < MAX_BRANCHES
  }

  ghost predicate CanSplit(t: Tree, gap: int, left: Node, s: Spot, right: Node) {
    HasRoom(t, gap, left, s) && right !in t.at && right.isLeaf == left.isLeaf
  }

  // ---------------------------------------------------------------- what changes where

  /** The split node, its parent, its next sibling and its children are told apart by their heights. */
  ghost predicate Apart(at: Store, left: Node) {
    && left in at
    && var r := at[left];
    && r.parent in at && at[r.parent].height == r.height + 1
    && (r.next != null ==> r.next in at && at[r.next].height == r.height && r.next != left)
    && (forall c :: c in KidNodes(r.kids) ==> c in at && at[c].height + 1 == r.height && at[c].parent == left)
  }

  lemma SplitApart(t: Tree, gap: int, left: Node, s: Spot)
    requires HasRoom(t, gap, left, s)
    ensures Apart(t.at, left)
    ensures t.at[left].next == (if s.j + 1 < |t.rows[s.h]| then t.rows[s.h][s.j + 1] else null)
  {
    var r := t.at[left];
    var row := t.rows[s.h];
    assert Row(t.at, s.h, row);
    assert ChainAt(t.at, row, s.j);
    assert NodeOk(t.at, left);
    if s.j + 1 < |row| {
      assert row[s.j + 1] in row;
    }
    forall c | c in KidNodes(r.kids)
      ensures c in t.at && t.at[c].height + 1 == s.h && t.at[c].parent == left
    {
      var k := IndexIn(KidNodes(r.kids), c);
      assert KidAt(t.at, left, k);
    }
  }

  function Moved(r: Rec): seq<Node> {
    KidNodes(r.kids[LeftCount(|r.kids|)..])
  }

  /** Nothing but the two halves, their parent, the next sibling and the moved children changes. */
  ghost predicate SplitDone(at: Store, bt: Store, left: Node, right: Node, k: nat) {
    && left in at && left in bt && right in bt && bt.Keys == at.Keys + {right}
    && var r := at[left];
    && bt[left] == LeftPart(r, right)
    && bt[right] == RightPart(r, left)
    && r.parent in at && k < |at[r.parent].kids|
    && bt[r.parent] == at[r.parent].(kids := Splice(at[r.parent].kids, k, k + 1, HalfEntries(r, left, right)))
    && (r.next != null ==> r.next in at && bt[r.next] == at[r.next].(prev := right))
    && (forall n :: n in at && n in Moved(r) ==> bt[n] == at[n].(parent := right))
    && (forall n :: n in at ==>
          (n != left && n != r.parent && n != r.next && n !in Moved(r) ==> bt[n] == at[n]))
  }

  /** The upper half of the entries, rounded down, goes to the new node. */
  lemma SplitHalves(at: Store, bt: Store, left: Node, right: Node, i: nat)
    requires SplitDone(at, bt, left, right, i)
    ensures left in at && left in bt && right in bt
    ensures
      var runs, kids := at[left].runs, at[left].kids;
      var r, k := |runs| / 2, |kids| / 2;
      && bt[left].runs == runs[..|runs| - r] && bt[right].runs == runs[|runs| - r..]
      && bt[left].kids == kids[..|kids| - k] && bt[right].kids == kids[|kids| - k..]
  {
  }

  lemma SplitKeys(at: Store, bt: Store, left: Node, right: Node, k: nat)
    requires SplitDone(at, bt, left, right, k)
    ensures bt.Keys == at.Keys + {right}
  {
  }

  lemma MovedAreKids(r: Rec)
    ensures forall c :: c in Moved(r) ==> c in KidNodes(r.kids)
  {
    forall c | c in Moved(r)
      ensures c in KidNodes(r.kids)
    {
      var k := IndexIn(Moved(r), c);
      assert KidNodes(r.kids)[LeftCount(|r.kids|) + k] == c;
    }
  }

  lemma SplitKeeps(at: Store, bt: Store, left: Node, right: Node, k: nat, n: Node)
    requires SplitDone(at, bt, left, right, k)
    requires n in at && Apart(at, left)
    ensures n in bt && bt[n].height == at[n].height
    ensures n != left ==> bt[n].runs == at[n].runs
    ensures n != left && n != at[left].parent ==> bt[n].kids == at[n].kids
    ensures n != left && n != at[left].next ==> bt[n].prev == at[n].prev && bt[n].next == at[n].next
    ensures n !in Moved(at[left]) ==> bt[n].parent == at[n].parent
  {
  }

  // ---------------------------------------------------------------- rows

  lemma SplitOtherRow(at: Store, bt: Store, left: Node, right: Node, k: nat, h: nat, row: seq<Node>)
    requires Row(at, h, row) && SplitDone(at, bt, left, right, k)
    requires Apart(at, left) && h != at[left].height
    ensures Row(bt, h, row)
  {
    forall n | n in row
      ensures n in bt && bt[n].prev == at[n].prev && bt[n].next == at[n].next && bt[n].height == at[n].height
    {
      SplitKeeps(at, bt, left, right, k, n);
    }
    RowFrame(at, bt, h, row);
  }

  /** A row with a new node put right after node `j`. */
  function Widened(row: seq<Node>, j: nat, right: Node): (w: seq<Node>)
    requires j < |row|
    ensures |w| == |row| + 1
    ensures forall i :: 0 <= i <= j ==> w[i] == row[i]
    ensures w[j + 1] == right
    ensures forall i :: j + 2 <= i < |w| ==> w[i] == row[i - 1]
  {
    Splice(row, j, j + 1, [row[j], right])
  }

  lemma WidenedMembers(row: seq<Node>, j: nat, right: Node)
    requires j < |row|
    ensures forall n :: n in Widened(row, j, right) <==> n in row || n == right
  {
    var w := Widened(row, j, right);
    assert w[j + 1] == right;
    forall n | n in row
      ensures n in w
    {
      var i := IndexIn(row, n);
      assert i <= j ==> w[i] == n;
      assert i > j ==> w[i + 1] == n;
    }
  }

  lemma WidenedNoDup(row: seq<Node>, j: nat, right: Node)
    requires j < |row| && NoDup(row) && right !in row
    ensures NoDup(Widened(row, j, right))
  {
    var w := Widened(row, j, right);
    forall a, b | 0 <= a < b < |w|
      ensures w[a] != w[b]
    {
      if a == j + 1 {
        assert w[b] == row[b - 1];
      } else if b == j + 1 {
        assert w[a] == row[a];
      } else {
        assert w[a] == row[if a <= j then a else a - 1];
        assert w[b] == row[if b <= j then b else b - 1];
      }
    }
  }

  lemma SplitRowHere(at: Store, bt: Store, left: Node, right: Node, k: nat, h: nat, row: seq<Node>, j: nat)
    requires Row(at, h, row) && SplitDone(at, bt, left, right, k) && Apart(at, left)
    requires j < |row| && row[j] == left && right !in at
    ensures Row(bt, h, Widened(row, j, right))
  {
    var w := Widened(row, j, right);
    WidenedMembers(row, j, right);
    WidenedNoDup(row, j, right);
    MovedAreKids(at[left]);
    forall n | n in w
      ensures n in bt && bt[n].height == h
    {
      if n != right {
        SplitKeeps(at, bt, left, right, k, n);
      }
    }
    forall i | 0 <= i < |w|
      ensures ChainAt(bt, w, i)
    {
      SplitChainAt(at, bt, left, right, k, h, row, j, i);
    }
  }

  lemma SplitChainAt(at: Store, bt: Store, left: Node, right: Node, k: nat, h: nat, row: seq<Node>, j: nat, i: nat)
    requires Row(at, h, row) && SplitDone(at, bt, left, right, k) && Apart(at, left)
    requires j < |row| && row[j] == left && right !in at
    requires i <= |row|
    ensures Widened(row, j, right)[i] in bt
    ensures ChainAt(bt, Widened(row, j, right), i)
  {
    assert ChainAt(at, row, j);
    if i == j + 1 {
    } else {
      var o := if i <= j then i else i - 1;
      assert row[o] in row && ChainAt(at, row, o);
      if o != j && o != j + 1 {
        assert row[o] != left;
        assert j + 1 < |row| ==> row[o] != row[j + 1];
        MovedAreKids(at[left]);
        SplitKeeps(at, bt, left, right, k, row[o]);
      }
    }
  }

  // ---------------------------------------------------------------- rows and children

  lemma KidNodesConcat(a: seq<Child>, b: seq<Child>)
    ensures KidNodes(a + b) == KidNodes(a) + KidNodes(b)
  {
  }

  lemma KidNodesSplice(cs: seq<Child>, k: nat, mid: seq<Child>)
    requires k < |cs|
    ensures KidNodes(Splice(cs, k, k + 1, mid)) == Splice(KidNodes(cs), k, k + 1, KidNodes(mid))
  {
  }

  lemma SpliceInside<T>(a: seq<T>, m: seq<T>, b: seq<T>, k: nat, mid: seq<T>, p: nat)
    requires k < |m| && p == |a| + k
    ensures a + Splice(m, k, k + 1, mid) + b == Splice(a + m + b, p, p + 1, mid)
  {
  }

  lemma SpliceSelf<T>(s: seq<T>, j: nat)
    requires j < |s|
    ensures Splice(s, j, j + 1, [s[j]]) == s
  {
  }

  /** Only node `j` of a row of distinct nodes may have got other children. */
  lemma SameKidsAround(at: Store, bt: Store, row: seq<Node>, j: nat)
    requires j < |row| && NoDup(row)
    requires forall n :: n in row && n != row[j] ==> n in at && n in bt && at[n].kids == bt[n].kids
    ensures SameKids(at, bt, row[..j]) && SameKids(at, bt, row[j + 1..])
  {
  }

  /** One node of the upper row gets a changed list of children; the row below changes alike. */
  lemma KidsChangeAt(at: Store, bt: Store, up: seq<Node>, pj: nat, k: nat, mid: seq<Node>, j: nat)
    requires pj < |up| && NoDup(up) && up[pj] in at && up[pj] in bt
    requires forall n :: n in up && n != up[pj] ==> n in at && n in bt && at[n].kids == bt[n].kids
    requires k < |at[up[pj]].kids| && j == |FlatKids(at, up[..pj])| + k
    requires KidsOf(bt, up[pj]) == Splice(KidsOf(at, up[pj]), k, k + 1, mid)
    ensures j < |FlatKids(at, up)|
    ensures FlatKids(bt, up) == Splice(FlatKids(at, up), j, j + 1, mid)
  {
    SameKidsAround(at, bt, up, pj);
    FlatAt(at, up, pj);
    FlatSplice(at, bt, up, pj, [up[pj]]);
    SpliceSelf(up, pj);
    FlatOne(bt, up[pj]);
    SpliceInside(FlatKids(at, up[..pj]), KidsOf(at, up[pj]), FlatKids(at, up[pj + 1..]), k, mid, j);
  }

  lemma SplitKidsAbove(at: Store, bt: Store, left: Node, right: Node, k: nat, row: seq<Node>, j: nat, up: seq<Node>,
      pj: nat)
    requires SplitDone(at, bt, left, right, k) && Apart(at, left)
    requires Row(at, at[left].height + 1, up)
    requires pj < |up| && up[pj] == at[left].parent && at[up[pj]].kids[k].node == left
    requires j == |FlatKids(at, up[..pj])| + k && row == FlatKids(at, up)
    ensures j < |row| && FlatKids(bt, up) == Widened(row, j, right)
  {
    var p := up[pj];
    forall n | n in up && n != p
      ensures n in at && n in bt && at[n].kids == bt[n].kids
    {
      SplitKeeps(at, bt, left, right, k, n);
    }
    KidNodesSplice(at[p].kids, k, HalfEntries(at[left], left, right));
    assert KidNodes(HalfEntries(at[left], left, right)) == [left, right];
    KidsChangeAt(at, bt, up, pj, k, [left, right], j);
    FlatPlace(at, up, pj, k, j);
  }

  lemma SplitKidsBelow(at: Store, bt: Store, left: Node, right: Node, k: nat, row: seq<Node>, j: nat)
    requires SplitDone(at, bt, left, right, k) && Apart(at, left)
    requires Row(at, at[left].height, row) && j < |row| && row[j] == left && right !in at
    ensures FlatKids(bt, Widened(row, j, right)) == FlatKids(at, row)
  {
    forall n | n in row && n != left
      ensures n in at && n in bt && at[n].kids == bt[n].kids
    {
      SplitKeeps(at, bt, left, right, k, n);
    }
    SameKidsAround(at, bt, row, j);
    FlatSplice(at, bt, row, j, [left, right]);
    FlatAt(at, row, j);
    FlatConcat(bt, [left], [right]);
    FlatOne(bt, left);
    FlatOne(bt, right);
    assert [left] + [right] == [left, right];
    var cs := at[left].kids;
    CutAndGlue(cs, LeftCount(|cs|));
    KidNodesConcat(cs[..LeftCount(|cs|)], cs[LeftCount(|cs|)..]);
  }

  /** A row that is neither the split node's nor its parent's keeps its children. */
  lemma SplitKidsElsewhere(at: Store, bt: Store, left: Node, right: Node, k: nat, h: nat, row: seq<Node>)
    requires SplitDone(at, bt, left, right, k) && Apart(at, left)
    requires Row(at, h, row) && h != at[left].height && h != at[left].height + 1
    ensures FlatKids(bt, row) == FlatKids(at, row)
  {
    forall n | n in row
      ensures KidsOf(at, n) == KidsOf(bt, n)
    {
      SplitKeeps(at, bt, left, right, k, n);
    }
    FlatFrame(at, bt, row);
  }

  // ---------------------------------------------------------------- nodes

  lemma SplitContent(at: Store, bt: Store, left: Node, right: Node, k: nat, n: Node)
    requires SplitDone(at, bt, left, right, k) && Apart(at, left)
    requires right !in at && right.isLeaf == left.isLeaf
    requires forall m :: m in at ==> Content(m, at[m])
    requires |at[at[left].parent].kids| < MAX_BRANCHES
    requires n in bt
    ensures Content(n, bt[n])
  {
    assert Content(left, at[left]);
    if n in at {
      assert Content(n, at[n]);
      MovedAreKids(at[left]);
      SplitKeeps(at, bt, left, right, k, n);
    }
  }

  lemma SplitLinksLeft(at: Store, bt: Store, left: Node, right: Node, k: nat)
    requires SplitDone(at, bt, left, right, k) && Apart(at, left) && KidsLinked(at, left) && right !in at
    ensures KidsLinked(bt, left) && KidsLinked(bt, right)
  {
    var kids := KidNodes(at[left].kids);
    var m := LeftCount(|kids|);
    assert KidNodes(bt[left].kids) == kids[..m];
    assert KidNodes(bt[right].kids) == kids[m..] == Moved(at[left]);
    MovedAreKids(at[left]);
    forall i | 0 <= i < m
      ensures KidAt(bt, left, i)
    {
      assert KidAt(at, left, i);
      var c := kids[i];
      assert c !in Moved(at[left]);
      SplitKeeps(at, bt, left, right, k, c);
    }
    forall i | 0 <= i < |kids| - m
      ensures KidAt(bt, right, i)
    {
      assert KidAt(at, left, m + i);
      var c := Moved(at[left])[i];
      SplitKeeps(at, bt, left, right, k, c);
      assert c in Moved(at[left]);
    }
  }

  lemma SplitLinksParent(at: Store, bt: Store, left: Node, right: Node, k: nat)
    requires SplitDone(at, bt, left, right, k) && Apart(at, left) && right !in at
    requires KidsLinked(at, at[left].parent) && at[at[left].parent].kids[k].node == left
    ensures KidsLinked(bt, at[left].parent)
  {
    var p := at[left].parent;
    var kids := KidNodes(at[p].kids);
    KidNodesSplice(at[p].kids, k, HalfEntries(at[left], left, right));
    assert KidNodes(HalfEntries(at[left], left, right)) == [left, right];
    assert KidNodes(bt[p].kids) == Widened(kids, k, right);
    forall i | 0 <= i < |kids|
      ensures kids[i] in at && at[kids[i]].parent == p && at[kids[i]].height + 1 == at[p].height
    {
      assert KidAt(at, p, i);
    }
    WidenedNoDup(kids, k, right);
    MovedAreKids(at[left]);
    forall i | 0 <= i < |bt[p].kids|
      ensures KidAt(bt, p, i)
    {
      var c := KidNodes(bt[p].kids)[i];
      if i != k + 1 {
        assert c == kids[if i <= k then i else i - 1];
        SplitKeeps(at, bt, left, right, k, c);
      }
    }
  }

  lemma SplitLinksOther(at: Store, bt: Store, left: Node, right: Node, k: nat, n: Node)
    requires SplitDone(at, bt, left, right, k) && Apart(at, left)
    requires n in at && n != left && n != at[left].parent && KidsLinked(at, n)
    ensures KidsLinked(bt, n)
  {
    SplitKeeps(at, bt, left, right, k, n);
    MovedAreKids(at[left]);
    forall i | 0 <= i < |bt[n].kids|
      ensures KidAt(bt, n, i)
    {
      assert KidAt(at, n, i);
      SplitKeeps(at, bt, left, right, k, at[n].kids[i].node);
    }
  }

  // ---------------------------------------------------------------- the shape

  ghost function SplitTree(t: Tree, bt: Store, s: Spot, right: Node): Tree
    requires s.h < |t.rows| && s.j < |t.rows[s.h]|
  {
    Tree(bt, t.rows[s.h := Widened(t.rows[s.h], s.j, right)])
  }

  lemma SplitNodes(t: Tree, gap: int, left: Node, s: Spot, right: Node, bt: Store)
    requires CanSplit(t, gap, left, s, right) && SplitDone(t.at, bt, left, right, s.k)
    ensures forall n :: n in bt ==> NodeOk(bt, n)
  {
    SplitApart(t, gap, left, s);
    forall m | m in t.at
      ensures Content(m, t.at[m]) && KidsLinked(t.at, m)
    {
      assert NodeOk(t.at, m);
    }
    forall n | n in bt
      ensures NodeOk(bt, n)
    {
      SplitContent(t.at, bt, left, right, s.k, n);
      if n == left || n == right {
        SplitLinksLeft(t.at, bt, left, right, s.k);
      } else if n == t.at[left].parent {
        SplitLinksParent(t.at, bt, left, right, s.k);
      } else {
        SplitLinksOther(t.at, bt, left, right, s.k, n);
      }
    }
  }

  lemma SplitRows(t: Tree, gap: int, left: Node, s: Spot, right: Node, bt: Store, h: nat)
    requires CanSplit(t, gap, left, s, right) && SplitDone(t.at, bt, left, right, s.k)
    requires h < |t.rows|
    ensures Row(bt, h, SplitTree(t, bt, s, right).rows[h])
  {
    SplitApart(t, gap, left, s);
    assert Row(t.at, h, t.rows[h]);
    if h == s.h {
      SplitRowHere(t.at, bt, left, right, s.k, h, t.rows[h], s.j);
    } else {
      SplitOtherRow(t.at, bt, left, right, s.k, h, t.rows[h]);
    }
  }

  /** Below the split node its two halves together have the children it had. */
  lemma SplitKidRowAt(at: Store, bt: Store, left: Node, right: Node, s: Spot, h: nat, row: seq<Node>, up: seq<Node>)
    requires SplitDone(at, bt, left, right, s.k) && Apart(at, left) && at[left].height == s.h && right !in at
    requires Row(at, h + 1, up) && (h + 1 == s.h ==> s.j < |up| && up[s.j] == left) && (h == s.h ==> s.j < |row|)
    requires h == s.h ==>
      s.pj < |up| && up[s.pj] == at[left].parent && at[up[s.pj]].kids[s.k].node == left
      && s.j == |FlatKids(at, up[..s.pj])| + s.k && row == FlatKids(at, up)
    ensures FlatKids(bt, if h + 1 == s.h then Widened(up, s.j, right) else up)
         == if h == s.h then Widened(row, s.j, right) else FlatKids(at, up)
  {
    if h == s.h {
      SplitKidsAbove(at, bt, left, right, s.k, row, s.j, up, s.pj);
    } else if h + 1 == s.h {
      SplitKidsBelow(at, bt, left, right, s.k, up, s.j);
    } else {
      SplitKidsElsewhere(at, bt, left, right, s.k, h + 1, up);
    }
  }

  lemma SplitKidRows(t: Tree, gap: int, left: Node, s: Spot, right: Node, bt: Store, h: nat)
    requires CanSplit(t, gap, left, s, right) && SplitDone(t.at, bt, left, right, s.k)
    requires h + 1 < |t.rows|
    ensures h != s.h ==> FlatKids(bt, SplitTree(t, bt, s, right).rows[h + 1]) == FlatKids(t.at, t.rows[h + 1])
    ensures h != gap ==> KidRow(SplitTree(t, bt, s, right), h)
  {
    hide Content, NodeOk, Row, FlatKids, KidsLinked, Moved, KidsOf, KidAt, SplitDone, LeftPart, Positive;
    SplitApart(t, gap, left, s);
    assert Row(t.at, h + 1, t.rows[h + 1]);
    if h != gap {
      assert KidRow(t, h);
    }
    SplitKidRowAt(t.at, bt, left, right, s, h, t.rows[h], t.rows[h + 1]);
  }

  lemma SplitPlaced(t: Tree, gap: int, left: Node, s: Spot, right: Node, bt: Store, n: Node)
    requires CanSplit(t, gap, left, s, right) && SplitDone(t.at, bt, left, right, s.k)
    requires n in bt
    ensures Placed(SplitTree(t, bt, s, right), n)
  {
    SplitApart(t, gap, left, s);
    WidenedMembers(t.rows[s.h], s.j, right);
    if n in t.at {
      assert Placed(t, n);
      SplitKeeps(t.at, bt, left, right, s.k, n);
    }
  }

  lemma SplitRooted(t: Tree, gap: int, left: Node, s: Spot, right: Node, bt: Store)
    requires CanSplit(t, gap, left, s, right) && SplitDone(t.at, bt, left, right, s.k)
    ensures Rooted(SplitTree(t, bt, s, right))
  {
    SplitApart(t, gap, left, s);
    MovedAreKids(t.at[left]);
    SplitKeeps(t.at, bt, left, right, s.k, Root(t));
  }

  /** Splitting a node keeps the shape of the tree and its height. */
  lemma SplitShape(t: Tree, gap: int, left: Node, s: Spot, right: Node, bt: Store)
    requires CanSplit(t, gap, left, s, right) && SplitDone(t.at, bt, left, right, s.k)
    ensures Shape(SplitTree(t, bt, s, right), gap)
    ensures Top(SplitTree(t, bt, s, right)) == Top(t)
  {
    var u := SplitTree(t, bt, s, right);
    SplitNodes(t, gap, left, s, right, bt);
    forall h | 0 <= h < |u.rows|
      ensures Row(bt, h, u.rows[h])
    {
      SplitRows(t, gap, left, s, right, bt, h);
    }
    forall h | 0 <= h < |u.rows| - 1 && h != gap
      ensures KidRow(u, h)
    {
      SplitKidRows(t, gap, left, s, right, bt, h);
    }
    forall n | n in bt
      ensures Placed(u, n)
    {
      SplitPlaced(t, gap, left, s, right, bt, n);
    }
    SplitRooted(t, gap, left, s, right, bt);
  }

  // ---------------------------------------------------------------- lengths, fill and text

  lemma HalvesLen(r: Rec, left: Node, right: Node)
    ensures NodeLen(LeftPart(r, right)) + NodeLen(RightPart(r, left)) == NodeLen(r)
  {
    CutAndGlue(r.kids, LeftCount(|r.kids|));
    KidsTotalConcat(r.kids[..LeftCount(|r.kids|)], r.kids[LeftCount(|r.kids|)..]);
    CutAndGlue(r.runs, LeftCount(|r.runs|));
    ExpandConcat(r.runs[..LeftCount(|r.runs|)], r.runs[LeftCount(|r.runs|)..]);
  }

  lemma PairTotal(a: Child, b: Child)
    ensures KidsTotal([a, b]) == a.length + b.length
  {
    assert [a, b][1..] == [b];
    assert [b][1..] == [];
    assert KidsTotal([b]) == b.length + KidsTotal([b][1..]);
  }

  /** A node that is not cut in two keeps its length. */
  lemma SplitLen(at: Store, bt: Store, left: Node, right: Node, k: nat, n: Node)
    requires SplitDone(at, bt, left, right, k) && Apart(at, left)
    requires n in at && n != left
    requires at[at[left].parent].kids[k].length == NodeLen(at[left])
    ensures n in bt && NodeLen(bt[n]) == NodeLen(at[n])
  {
    SplitKeeps(at, bt, left, right, k, n);
    if n == at[left].parent {
      var halves := HalfEntries(at[left], left, right);
      KidsTotalSplice(at[n].kids, k, halves);
      HalvesLen(at[left], left, right);
      PairTotal(halves[0], halves[1]);
    }
  }

  /** An entry that both stores have in common stays right if it is not the split node's. */
  lemma SplitSumKept(at: Store, bt: Store, left: Node, right: Node, k: nat, o: Node, oi: nat, n: Node, i: nat)
    requires SplitDone(at, bt, left, right, k) && Apart(at, left)
    requires at[at[left].parent].kids[k].length == NodeLen(at[left])
    requires o in at && oi < |at[o].kids| && SumAt(at, map[], o, oi)
    requires n in bt && i < |bt[n].kids| && bt[n].kids[i] == at[o].kids[oi]
    requires at[o].kids[oi].node != left
    ensures SumAt(bt, map[], n, i)
  {
    SplitLen(at, bt, left, right, k, at[o].kids[oi].node);
  }

  lemma SplitSumAt(at: Store, bt: Store, left: Node, right: Node, k: nat, n: Node, i: nat)
    requires SplitDone(at, bt, left, right, k) && Apart(at, left) && right !in at
    requires forall m, x :: m in at && 0 <= x < |at[m].kids| ==> SumAt(at, map[], m, x)
    requires forall m :: m in at ==> KidsLinked(at, m)
    requires at[at[left].parent].kids[k].node == left
    requires n in bt && i < |bt[n].kids|
    ensures SumAt(bt, map[], n, i)
  {
    hide Moved, Total, Apart, KidsTotal, NodeLen, KidNodes;
    var p := at[left].parent;
    assert SumAt(at, map[], p, k);
    assert KidsLinked(at, p);
    if n == p {
      if i < k {
        assert KidNodes(at[p].kids)[i] != KidNodes(at[p].kids)[k];
        assert SumAt(at, map[], p, i);
        SplitSumKept(at, bt, left, right, k, p, i, n, i);
      } else if i > k + 1 {
        assert KidNodes(at[p].kids)[i - 1] != KidNodes(at[p].kids)[k];
        assert SumAt(at, map[], p, i - 1);
        SplitSumKept(at, bt, left, right, k, p, i - 1, n, i);
      }
    } else {
      var o := if n == right then left else n;
      var oi := if n == right then LeftCount(|at[left].kids|) + i else i;
      SplitKeeps(at, bt, left, right, k, o);
      assert KidsLinked(at, o) && KidAt(at, o, oi) && SumAt(at, map[], o, oi);
      SplitSumKept(at, bt, left, right, k, o, oi, n, i);
    }
  }

  lemma SplitSums(t: Tree, gap: int, left: Node, s: Spot, right: Node, bt: Store)
    requires CanSplit(t, gap, left, s, right) && SplitDone(t.at, bt, left, right, s.k)
    requires Sums(t.at, map[])
    ensures Sums(bt, map[])
  {
    SplitApart(t, gap, left, s);
    forall m | m in t.at
      ensures KidsLinked(t.at, m)
    {
      assert NodeOk(t.at, m);
    }
    forall n, i | n in bt && 0 <= i < |bt[n].kids|
      ensures SumAt(bt, map[], n, i)
    {
      SplitSumAt(t.at, bt, left, right, s.k, n, i);
    }
  }

  lemma SplitFilled(t: Tree, left: Node, s: Spot, right: Node, bt: Store, low: Node?, n: Node)
    requires SplitDone(t.at, bt, left, right, s.k) && Apart(t.at, left)
    requires s.h < |t.rows| && s.j < |t.rows[s.h]| && t.at[left].height == s.h
    requires Content(left, t.at[left]) && Fill(t, low) && n in bt
    requires |t.at[left].kids| + |t.at[left].runs| >= MAX_RUNS - 2
    requires t.rows[s.h][s.j] == left && (n in t.at ==> Placed(t, n))
    ensures Filled(SplitTree(t, bt, s, right), low, n)
  {
    hide Moved, Total, Widened, Apart, Positive, KidNodes;
    if n in t.at {
      assert Filled(t, low, n);
      SplitKeeps(t.at, bt, left, right, s.k, n);
    }
  }

  /** A node is split only when it is nearly full, so both halves are a third full. */
  lemma SplitFill(t: Tree, gap: int, left: Node, s: Spot, right: Node, bt: Store, low: Node?)
    requires CanSplit(t, gap, left, s, right) && SplitDone(t.at, bt, left, right, s.k)
    requires |t.at[left].kids| + |t.at[left].runs| >= MAX_RUNS - 2
    requires Fill(t, low)
    ensures Fill(SplitTree(t, bt, s, right), low)
  {
    SplitApart(t, gap, left, s);
    assert NodeOk(t.at, left);
    forall n | n in bt
      ensures Filled(SplitTree(t, bt, s, right), low, n)
    {
      assert n in t.at ==> Placed(t, n);
      SplitFilled(t, left, s, right, bt, low, n);
    }
  }

  /** The two halves of a leaf hold its runs in order. */
  lemma SplitRunsHere(at: Store, bt: Store, left: Node, right: Node, k: nat, row: seq<Node>, j: nat)
    requires SplitDone(at, bt, left, right, k) && Apart(at, left)
    requires NoDup(row) && Level(at, at[left].height, row) && j < |row| && row[j] == left
    ensures RunsOf(bt, Widened(row, j, right)) == RunsOf(at, row)
  {
    forall n | n in row[..j] || n in row[j + 1..]
      ensures n in at && n in bt && at[n].runs == bt[n].runs
    {
      assert n in row && n != left;
      SplitKeeps(at, bt, left, right, k, n);
    }
    RunsSplice(at, bt, row, j, [left, right]);
    RunsAt(at, row, j);
    RunsConcat(bt, [left], [right]);
    RunsOne(bt, left);
    RunsOne(bt, right);
    assert [left] + [right] == [left, right];
    CutAndGlue(at[left].runs, LeftCount(|at[left].runs|));
  }

  lemma SplitRunsElsewhere(at: Store, bt: Store, left: Node, right: Node, k: nat, row: seq<Node>)
    requires SplitDone(at, bt, left, right, k) && Apart(at, left)
    requires Level(at, 0, row) && at[left].height != 0
    ensures RunsOf(bt, row) == RunsOf(at, row)
  {
    forall n | n in row
      ensures n in at && n in bt && at[n].runs == bt[n].runs
    {
      SplitKeeps(at, bt, left, right, k, n);
    }
    RunsFrame(at, bt, row);
  }

  /** Splitting any node leaves the runs of the region as they are. */
  lemma SplitRuns(t: Tree, gap: int, left: Node, s: Spot, right: Node, bt: Store)
    requires CanSplit(t, gap, left, s, right) && SplitDone(t.at, bt, left, right, s.k)
    ensures AllRuns(SplitTree(t, bt, s, right)) == AllRuns(t)
  {
    SplitApart(t, gap, left, s);
    assert Row(t.at, 0, t.rows[0]);
    if s.h == 0 {
      SplitRunsHere(t.at, bt, left, right, s.k, t.rows[0], s.j);
    } else {
      SplitRunsElsewhere(t.at, bt, left, right, s.k, t.rows[0]);
    }
  }
}
