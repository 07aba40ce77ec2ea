/**
 * Operations on a region and what they come to, on three levels: the plain sequence of data, the list of all runs of a
 * region that joins none, and the list of leaves.
 */
module RegionOps {
  import opened Runs
  import opened RegionTree
  import opened RegionRoom
  import opened RegionLists

  datatype Op =
    | Insert(offset: nat, len: nat, data: Data)
    | Remove(offset: nat, len: nat)
    | Replace(offset: nat, len: nat, data: Data)

  // ---------------------------------------------------------------- on the plain sequence

  /** What the callers of the operation have to see to. */
  predicate Allowed(s: seq<Data>, op: Op) {
    match op
    case Insert(offset, _, _) => offset <= |s|
    case Remove(offset, len) => offset < |s| && offset + len <= |s|
    case Replace(offset, len, _) => len == 0 || offset + len <= |s|
  }

  function Apply(s: seq<Data>, op: Op): seq<Data>
    requires Allowed(s, op)
  {
    match op
    case Insert(offset, len, data) => s[..offset] + Repeat(len, data) + s[offset..]
    case Remove(offset, len) => s[..offset] + s[offset + len..]
    case Replace(offset, len, data) =>
      if len == 0 then s else s[..offset] + Repeat(len, data) + s[offset + len..]
  }

  predicate AllAllowed(s: seq<Data>, ops: seq<Op>)
    decreases |ops|
  {
    ops == [] || (Allowed(s, ops[0]) && AllAllowed(Apply(s, ops[0]), ops[1..]))
  }

  function ApplyAll(s: seq<Data>, ops: seq<Op>): seq<Data>
    requires AllAllowed(s, ops)
    decreases |ops|
  {
    if ops == [] then s else ApplyAll(Apply(s, ops[0]), ops[1..])
  }

  /** The text stays shorter than the number of runs from which on a compaction might run out of slots. */
  predicate StaysShort(s: seq<Data>, ops: seq<Op>)
    requires AllAllowed(s, ops)
    decreases |ops|
  {
    |s| < MANY && (ops == [] || StaysShort(Apply(s, ops[0]), ops[1..]))
  }

  /** One operation after the first `i`. */
  lemma {:induction false} OneMore(s: seq<Data>, ops: seq<Op>, i: nat)
    requires AllAllowed(s, ops) && i < |ops|
    ensures AllAllowed(s, ops[..i]) && Allowed(ApplyAll(s, ops[..i]), ops[i])
    ensures AllAllowed(s, ops[..i + 1]) && ApplyAll(s, ops[..i + 1]) == Apply(ApplyAll(s, ops[..i]), ops[i])
    ensures StaysShort(s, ops) ==> |ApplyAll(s, ops[..i])| < MANY
    decreases i
  {
    hide Apply, Allowed;
    if i == 0 {
      assert ops[..0] == [] && ops[..1][0] == ops[0] && ops[..1][1..] == [];
    } else {
      OneMore(Apply(s, ops[0]), ops[1..], i - 1);
      PrefixTail(ops, i);
      PrefixTail(ops, i + 1);
    }
  }

  lemma PrefixTail<T>(s: seq<T>, i: nat)
    requires 0 < i <= |s|
    ensures s[..i] != [] && s[..i][0] == s[0] && s[..i][1..] == s[1..][..i - 1]
    ensures i < |s| ==> s[1..][i - 1] == s[i]
  {
  }

  // ---------------------------------------------------------------- on the list of leaves

  /** The leaves after an operation that is carried out. */
  function ListsAfter(join: JoinFunc, l: Lists, op: Op): (m: Lists)
    requires l != []
    ensures m != []
  {
    match op
    case Insert(offset, len, data) => if len == 0 then l else Put(join, l, offset, Run(len, data))
    case Remove(offset, len) => Take(join, l, offset, len)
    case Replace(offset, len, data) =>
      if len == 0 then l else Put(join, Take(join, l, offset, len), offset, Run(len, data))
  }

  function ListsAfterAll(join: JoinFunc, l: Lists, ops: seq<Op>): (m: Lists)
    requires l != []
    ensures m != []
    decreases |ops|
  {
    if ops == [] then l else ListsAfterAll(join, ListsAfter(join, l, ops[0]), ops[1..])
  }

  /** The operation removes characters that cannot go for want of a free slot in their leaf. */
  predicate OpJams(join: JoinFunc, l: Lists, op: Op)
    requires l != []
  {
    match op
    case Insert(_, _, _) => false
    case Remove(offset, len) => Jams(join, l, offset, len)
    case Replace(offset, len, _) => Jams(join, l, offset, len)
  }

  lemma OpLists(join: JoinFunc, l: Lists, op: Op)
    requires l != []
    ensures OpJams(join, l, op) <==> !op.Insert? && Jams(join, l, op.offset, op.len)
    ensures op.len == 0 ==> !Jams(join, l, op.offset, op.len) && ListsAfter(join, l, op) == l
    ensures op.len > 0 && op.Insert? ==> ListsAfter(join, l, op) == Put(join, l, op.offset, Run(op.len, op.data))
    ensures op.Remove? ==> ListsAfter(join, l, op) == Take(join, l, op.offset, op.len)
    ensures op.len > 0 && op.Replace? ==>
      ListsAfter(join, l, op) == Put(join, Take(join, l, op.offset, op.len), op.offset, Run(op.len, op.data))
  {
    TakeIs(join, l, op.offset, op.len);
  }

  predicate NeverJams(join: JoinFunc, l: Lists, ops: seq<Op>)
    requires l != []
    decreases |ops|
  {
    ops == [] || (!OpJams(join, l, ops[0]) && NeverJams(join, ListsAfter(join, l, ops[0]), ops[1..]))
  }

  /** A removal among the operations comes to the leaves `m`, and nothing jams before it. */
  predicate Amid(join: JoinFunc, l: Lists, ops: seq<Op>, m: Lists)
    requires l != []
    decreases |ops|
  {
    && ops != []
    && var op := ops[0];
    || (!op.Insert? && Taking(join, l, op.offset, op.len, m))
    || (!OpJams(join, l, op) && Amid(join, ListsAfter(join, l, op), ops[1..], m))
  }

  /** All runs, leaf by leaf. */
  function Flat(l: Lists): seq<Run> {
    if l == [] then [] else l[0] + Flat(l[1..])
  }

  /** There are never so many runs that a compaction might run out of slots. */
  predicate StaysFew(join: JoinFunc, l: Lists, ops: seq<Op>)
    requires l != []
    decreases |ops|
  {
    |Flat(l)| < MANY && (ops == [] || StaysFew(join, ListsAfter(join, l, ops[0]), ops[1..]))
  }

  /** One operation after the first `i`, on the lists. */
  lemma {:induction false} OneMoreList(join: JoinFunc, l: Lists, ops: seq<Op>, i: nat)
    requires l != [] && i < |ops|
    ensures
      var m := ListsAfterAll(join, l, ops[..i]);
      && ListsAfterAll(join, l, ops[..i + 1]) == ListsAfter(join, m, ops[i])
      && (NeverJams(join, l, ops[..i + 1]) <==> NeverJams(join, l, ops[..i]) && !OpJams(join, m, ops[i]))
      && (NeverJams(join, l, ops) ==> NeverJams(join, l, ops[..i + 1]))
      && (StaysFew(join, l, ops) ==> |Flat(m)| < MANY)
    decreases i
  {
    hide ListsAfter, OpJams, Flat;
    if i == 0 {
      assert ops[..0] == [] && ops[..1][0] == ops[0] && ops[..1][1..] == [];
    } else {
      OneMoreList(join, ListsAfter(join, l, ops[0]), ops[1..], i - 1);
      PrefixTail(ops, i);
      PrefixTail(ops, i + 1);
    }
  }

  /** Operations in two parts. */
  lemma {:induction false} InParts(join: JoinFunc, l: Lists, a: seq<Op>, b: seq<Op>)
    requires l != []
    ensures ListsAfterAll(join, l, a + b) == ListsAfterAll(join, ListsAfterAll(join, l, a), b)
    ensures NeverJams(join, l, a + b) <==> NeverJams(join, l, a) && NeverJams(join, ListsAfterAll(join, l, a), b)
    decreases |a|
  {
    hide ListsAfter, OpJams;
    if a == [] {
      assert a + b == b;
    } else {
      InParts(join, ListsAfter(join, l, a[0]), a[1..], b);
      assert (a + b)[0] == a[0] && (a + b)[1..] == a[1..] + b;
    }
  }

  lemma {:induction false} AmidParts(join: JoinFunc, l: Lists, a: seq<Op>, b: seq<Op>, m: Lists)
    requires l != []
    ensures Amid(join, l, a, m) ==> Amid(join, l, a + b, m)
    ensures NeverJams(join, l, a) && Amid(join, ListsAfterAll(join, l, a), b, m) ==> Amid(join, l, a + b, m)
    decreases |a|
  {
    hide ListsAfter, OpJams, Taking;
    if a == [] {
      assert a + b == b;
    } else {
      AmidParts(join, ListsAfter(join, l, a[0]), a[1..], b, m);
      assert (a + b)[0] == a[0] && (a + b)[1..] == a[1..] + b;
    }
  }

  // ---------------------------------------------------------------- on the list of all runs

  /** The runs after an operation, when nothing is ever joined. */
  function RunsAfter(runs: seq<Run>, op: Op): seq<Run> {
    match op
    case Insert(offset, len, data) => if len == 0 then runs else With(runs, offset, Run(len, data))
    case Remove(offset, len) => if len == 0 then runs else Without(runs, offset, offset + len)
    case Replace(offset, len, data) =>
      if len == 0 then runs else With(Without(runs, offset, offset + len), offset, Run(len, data))
  }

  function RunsAfterAll(runs: seq<Run>, ops: seq<Op>): seq<Run>
    decreases |ops|
  {
    if ops == [] then runs else RunsAfterAll(RunsAfter(runs, ops[0]), ops[1..])
  }

  /** The operation lies within the runs. */
  predicate Lying(runs: seq<Run>, op: Op) {
    op.offset + (if op.Insert? then 0 else op.len) <= Total(runs)
  }

  /** A removal meets fewer runs than a leaf has slots, or a place where two runs meet. */
  ghost predicate Roomy(runs: seq<Run>, op: Op) {
    op.Insert? || op.len == 0 || |runs| < MAX_RUNS || MeetsBoundary(runs, op.offset, op.offset + op.len)
  }

  ghost predicate MeetsBoundary(runs: seq<Run>, from: nat, to: nat) {
    exists p: nat {:trigger OnBoundary(runs, p)} :: from <= p <= to && OnBoundary(runs, p)
  }

  ghost predicate Calm(runs: seq<Run>, ops: seq<Op>)
    decreases |ops|
  {
    ops == [] || (Lying(runs, ops[0]) && Roomy(runs, ops[0]) && Calm(RunsAfter(runs, ops[0]), ops[1..]))
  }

  // ---------------------------------------------------------------- the leaves make up the runs

  lemma {:induction false} FlatConcat(a: Lists, b: Lists)
    ensures Flat(a + b) == Flat(a) + Flat(b)
  {
    if a == [] {
      assert a + b == b;
    } else {
      assert (a + b)[0] == a[0] && (a + b)[1..] == a[1..] + b;
      FlatConcat(a[1..], b);
    }
  }

  lemma OneLeafFlat(runs: seq<Run>)
    ensures Flat([runs]) == runs
  {
    assert [runs][1..] == [];
  }

  /** The leaf `j` among all runs. */
  lemma FlatAt(l: Lists, j: nat, out: seq<Run>)
    requires j < |l|
    ensures Flat(l) == Flat(l[..j]) + l[j] + Flat(l[j + 1..])
    ensures Flat(l[j := out]) == Flat(l[..j]) + out + Flat(l[j + 1..])
    ensures Flat(l[j..]) == l[j] + Flat(l[j + 1..]) && Flat(l[..j + 1]) == Flat(l[..j]) + l[j]
  {
    var a, b := l[..j], l[j + 1..];
    FlatConcat(a + [l[j]], b);
    FlatConcat(a, [l[j]]);
    FlatConcat(a + [out], b);
    FlatConcat(a, [out]);
    FlatConcat([l[j]], b);
    OneLeafFlat(l[j]);
    OneLeafFlat(out);
    assert l == a + [l[j]] + b && l[j := out] == a + [out] + b && l[j..] == [l[j]] + b && l[..j + 1] == a + [l[j]];
  }

  lemma HalvedParts(l: Lists, j: nat)
    requires j < |l|
    ensures
      var m, pair := Halved(l, j), [Halved(l, j)[j], Halved(l, j)[j + 1]];
      && m[..j] == l[..j] && m[j..] == pair + l[j + 1..] && m[..j + 2] == l[..j] + pair && m[j + 2..] == l[j + 1..]
      && m == l[..j] + (pair + l[j + 1..]) && m[j] + m[j + 1] == l[j]
  {
  }

  lemma FlatHalved(l: Lists, j: nat)
    requires j < |l|
    ensures
      var m := Halved(l, j);
      && Flat(m) == Flat(l) && m[..j] == l[..j] && m[j + 2..] == l[j + 1..]
      && Flat(m[j..]) == Flat(l[j..]) && Flat(m[..j + 2]) == Flat(l[..j + 1])
  {
    hide Flat, Halved;
    HalvedParts(l, j);
    var x, y := Halved(l, j)[j], Halved(l, j)[j + 1];
    FlatAt(l, j, []);
    assert [x, y] == [x] + [y];
    FlatConcat([x], [y]);
    OneLeafFlat(x);
    OneLeafFlat(y);
    FlatConcat([x, y], l[j + 1..]);
    FlatConcat(l[..j], [x, y]);
    FlatConcat(l[..j], [x, y] + l[j + 1..]);
    Assoc(Flat(l[..j]), l[j], Flat(l[j + 1..]));
  }

  lemma FrontRun(l: Lists, j: nat, r: Run)
    requires j < |l|
    ensures
      var u := FrontOne(l, j, r);
      Flat(u[..j]) == Flat(l[..j]) && Flat(u[j..]) == [r] + Flat(l[j..])
  {
    hide Flat, Halved;
    FlatHalved(l, j);
    var m := if |l[j]| >= MAX_RUNS - 1 then Halved(l, j) else l;
    var x := [r] + m[j];
    var u, b := m[j := x], Flat(m[j + 1..]);
    FlatAt(m, j, x);
    FlatAt(u, j, x);
    assert u[..j] == m[..j] && u[j + 1..] == m[j + 1..];
    Assoc([r], m[j], b);
  }

  lemma BackRun(l: Lists, j: nat, r: Run)
    requires j < |l|
    ensures
      var (u, k) := BackOne(l, j, r);
      Flat(u[..k + 1]) == Flat(l[..j + 1]) + [r] && Flat(u[k + 1..]) == Flat(l[j + 1..])
  {
    hide Flat, Halved;
    FlatHalved(l, j);
    var (m, k) := if |l[j]| >= MAX_RUNS - 1 then (Halved(l, j), j + 1) else (l, j);
    var x := m[k] + [r];
    var u, a := m[k := x], Flat(m[..k]);
    FlatAt(m, k, x);
    FlatAt(u, k, x);
    assert u[..k] == m[..k] && u[k + 1..] == m[k + 1..];
    Assoc(a, m[k], [r]);
  }

  lemma {:induction false} FlatFront(l: Lists, j: nat, runs: seq<Run>, a: seq<Run>, b: seq<Run>)
    requires j < |l| && Flat(l[..j]) == a && Flat(l[j..]) == b
    ensures Flat(FillFront(l, j, runs)) == a + (runs + b)
    decreases |runs|
  {
    if runs == [] {
      FlatConcat(l[..j], l[j..]);
      assert l == l[..j] + l[j..] && runs + b == b;
    } else {
      hide Flat, FrontOne;
      var n := |runs| - 1;
      FrontRun(l, j, runs[n]);
      FlatFront(FrontOne(l, j, runs[n]), j, runs[..n], a, [runs[n]] + b);
      LastOff(runs, b);
    }
  }

  lemma LastOff(runs: seq<Run>, b: seq<Run>)
    requires runs != []
    ensures runs[..|runs| - 1] + ([runs[|runs| - 1]] + b) == runs + b
  {
  }

  lemma FirstOff(runs: seq<Run>, a: seq<Run>)
    requires runs != []
    ensures (a + [runs[0]]) + runs[1..] == a + runs
  {
  }

  lemma {:induction false} FlatBack(l: Lists, j: nat, runs: seq<Run>, a: seq<Run>, b: seq<Run>)
    requires j < |l| && Flat(l[..j + 1]) == a && Flat(l[j + 1..]) == b
    ensures Flat(FillBack(l, j, runs)) == (a + runs) + b
    decreases |runs|
  {
    if runs == [] {
      FlatConcat(l[..j + 1], l[j + 1..]);
      assert l == l[..j + 1] + l[j + 1..] && a + runs == a;
    } else {
      hide Flat, BackOne;
      BackRun(l, j, runs[0]);
      var (m, k) := BackOne(l, j, runs[0]);
      FlatBack(m, k, runs[1..], a + [runs[0]], b);
      FirstOff(runs, a);
    }
  }

  lemma DroppedParts(l: Lists, j: nat)
    requires j < |l|
    ensures |Dropped(l, j)| + 1 == |l| && Dropped(l, j)[..j] == l[..j] && Dropped(l, j)[j..] == l[j + 1..]
  {
  }

  lemma FlatMerge(l: Lists, j: nat)
    requires j < |l| && |l| > 1
    ensures Flat(MergeLeaf(l, j)) == Flat(l)
  {
    hide *;
    var a, m, b := Flat(l[..j]), l[j], Flat(l[j + 1..]);
    FlatAt(l, j, m);
    DroppedParts(l, j);
    MergeIs(l, j);
    if j == 0 || (j + 1 < |l| && |l[j - 1]| > |l[j + 1]|) {
      FlatFront(Dropped(l, j), j, m, a, b);
      Assoc(a, m, b);
    } else {
      FlatBack(Dropped(l, j), j - 1, m, a, b);
    }
  }

  /** Mending a leaf moves runs from leaf to leaf and keeps their order. */
  lemma FlatMended(l: Lists, j: nat)
    requires j < |l|
    ensures Flat(Mended(l, j)) == Flat(l)
  {
    hide *;
    MendedIs(l, j);
    if |l| > 1 {
      FlatMerge(l, j);
    }
  }

  lemma FlatRoomed(l: Lists, offset: nat)
    requires l != []
    ensures Flat(Roomed(l, offset)) == Flat(l)
  {
    hide Flat, Halved;
    FlatHalved(l, Locate(l, offset).0);
  }

  /** Where an offset lies among the leaves. */
  lemma {:induction false} LocateIn(l: Lists, offset: nat)
    requires l != [] && offset <= Total(Flat(l))
    ensures
      var (j, within) := Locate(l, offset);
      && offset == Total(Flat(l[..j])) + within && within <= Total(l[j])
      && (offset < Total(Flat(l)) ==> within < Total(l[j]))
  {
    ExpandConcat(l[0], Flat(l[1..]));
    if |l| == 1 || offset < Total(l[0]) {
      assert l[..0] == [] && (|l| == 1 ==> l[1..] == []);
    } else {
      LocateIn(l[1..], offset - Total(l[0]));
      var j := Locate(l[1..], offset - Total(l[0])).0;
      assert l[..j + 1][0] == l[0] && l[..j + 1][1..] == l[1..][..j];
      ExpandConcat(l[0], Flat(l[1..][..j]));
    }
  }

  lemma PositiveParts(a: seq<Run>, m: seq<Run>, b: seq<Run>)
    requires Positive(a + m + b)
    ensures Positive(a) && Positive(m)
  {
    forall i | 0 <= i < |a|
      ensures a[i].length > 0
    {
      assert (a + m + b)[i] == a[i];
    }
    forall i | 0 <= i < |m|
      ensures m[i].length > 0
    {
      assert (a + m + b)[|a| + i] == m[i];
    }
  }

  // ---------------------------------------------------------------- one operation

  lemma {:induction false} RunAtMeans(runs: seq<Run>, within: nat)
    requires runs != [] && Positive(runs) && 0 < within <= Total(runs)
    ensures var i := RunAt(runs, within); Total(runs[..i]) < within <= Total(runs[..i + 1])
  {
    if within <= runs[0].length || |runs| == 1 {
      assert runs[..0] == [] && runs[..1][1..] == [] && (|runs| == 1 ==> runs[..1] == runs);
    } else {
      RunAtMeans(runs[1..], within - runs[0].length);
      var i := RunAt(runs[1..], within - runs[0].length);
      TotalTail(runs, i);
      TotalTail(runs, i + 1);
    }
  }

  /** A callback that refuses to join only puts the run in. */
  lemma JoiningNone(join: JoinFunc, offset: nat, runs: seq<Run>, within: nat, x: Run)
    requires RefusesAll(join) && Positive(runs) && within <= offset && within <= Total(runs)
    ensures Joining(join, offset, runs, within, x) == With(runs, within, x)
  {
    if runs == [] {
      assert With(runs, within, x) == [x];
    } else if within == 0 {
      WithFirst(runs, x);
    } else {
      JoiningAt(join, offset, runs, within, x);
    }
  }

  lemma JoiningAt(join: JoinFunc, offset: nat, runs: seq<Run>, within: nat, x: Run)
    requires RefusesAll(join) && runs != [] && Positive(runs) && 0 < within <= offset && within <= Total(runs)
    ensures Joining(join, offset, runs, within, x) == With(runs, within, x)
  {
    hide With, RunAt, Total, Splice;
    RunAtMeans(runs, within);
    var i := RunAt(runs, within);
    TotalStep(runs, i);
    var cut := within - Total(runs[..i]);
    WithAt(runs, i, cut, within, x);
    var left := Run(cut, runs[i].data);
    assert [left, x] + [] == [left, x];
    assert left == runs[i] || cut < runs[i].length;
  }

  lemma CuttingNone(join: JoinFunc, base: nat, runs: seq<Run>, within: nat, n: nat, to: nat)
    requires RefusesAll(join)
    ensures Cutting(join, base, runs, within, n, to) == Without(runs, within, to)
  {
    InsideOfIs(runs, within, n);
  }

  /** Without joins, a run put into its leaf is put into the list of all runs. */
  lemma FlatPut(join: JoinFunc, l: Lists, offset: nat, x: Run)
    requires RefusesAll(join) && l != [] && Positive(Flat(l)) && offset <= Total(Flat(l))
    ensures Flat(Put(join, l, offset, x)) == With(Flat(l), offset, x)
  {
    hide Flat, Roomed, Locate, Joining, With, TakeRuns, DropRuns, Total, RefusesAll, Positive;
    var m := Roomed(l, offset);
    FlatRoomed(l, offset);
    LocateIn(m, offset);
    var (j, w) := Locate(m, offset);
    var a, b := Flat(m[..j]), Flat(m[j + 1..]);
    FlatAt(m, j, With(m[j], w, x));
    PositiveParts(a, m[j], b);
    JoiningNone(join, offset, m[j], w, x);
    CutsInside(a, m[j], b, w, offset);
    WithParts(Flat(m), offset, x, a, TakeRuns(m[j], w), DropRuns(m[j], w), b, m[j], w);
  }

  lemma FlatTakeOnce(join: JoinFunc, l: Lists, offset: nat, n: nat)
    requires RefusesAll(join) && l != [] && Positive(Flat(l)) && n > 0 && offset + n <= Total(Flat(l))
    ensures LeftOver(l, offset, n) < n
    ensures Flat(TakeOnce(join, l, offset, n)) == Without(Flat(l), offset, offset + (n - LeftOver(l, offset, n)))
  {
    hide Flat, Mended, Locate, Cutting, Without, TakeRuns, DropRuns, Total, RefusesAll, Positive;
    LocateIn(l, offset);
    var (j, w) := Locate(l, offset);
    var to := w + n - Remaining(l[j], w, n);
    var a, b, out := Flat(l[..j]), Flat(l[j + 1..]), Without(l[j], w, to);
    CuttingNone(join, offset - w, l[j], w, n, to);
    FlatAt(l, j, out);
    FlatMended(l[j := out], j);
    PositiveParts(a, l[j], b);
    CutsInside(a, l[j], b, w, offset);
    CutsInside(a, l[j], b, to, offset + (to - w));
    WithoutParts(Flat(l), offset, offset + (to - w), a, TakeRuns(l[j], w), DropRuns(l[j], to), b, l[j], w, to);
  }

  /** Without joins, what is taken out leaf by leaf is taken out of the list of all runs. */
  lemma {:induction false} FlatTake(join: JoinFunc, l: Lists, offset: nat, n: nat)
    requires RefusesAll(join) && l != [] && Positive(Flat(l)) && n > 0 && offset + n <= Total(Flat(l))
    ensures Flat(Take(join, l, offset, n)) == Without(Flat(l), offset, offset + n)
    decreases n
  {
    hide *;
    TakeIs(join, l, offset, n);
    FlatTakeOnce(join, l, offset, n);
    var rest, m := LeftOver(l, offset, n), TakeOnce(join, l, offset, n);
    var k := n - rest;
    if rest > 0 {
      WithoutIs(Flat(l), offset, offset + k);
      WithoutPositive(Flat(l), offset, offset + k);
      FlatTake(join, m, offset, rest);
      WithoutTwice(Flat(l), offset, k, rest, Flat(m));
    }
  }

  lemma WithoutPositive(runs: seq<Run>, from: nat, to: nat)
    requires from <= to <= Total(runs) && Positive(runs)
    ensures Positive(Without(runs, from, to)) && Total(Without(runs, from, to)) == Total(runs) - (to - from)
  {
    hide TakeRuns, DropRuns, Total;
    PositiveCuts(runs, from);
    PositiveCuts(runs, to);
    WithoutIs(runs, from, to);
  }

  lemma WithPositive(runs: seq<Run>, p: nat, x: Run)
    requires p <= Total(runs) && Positive(runs) && x.length > 0
    ensures Positive(With(runs, p, x)) && Total(With(runs, p, x)) == Total(runs) + x.length
  {
    hide TakeRuns, DropRuns, Total;
    PositiveCuts(runs, p);
    TotalCuts(runs, p);
    ExpandAround(TakeRuns(runs, p), x, DropRuns(runs, p));
  }

  /** Without joins an operation on the leaves is the operation on the list of all runs. */
  lemma FlatAfter(join: JoinFunc, l: Lists, op: Op)
    requires RefusesAll(join) && l != [] && Positive(Flat(l)) && Lying(Flat(l), op)
    ensures Flat(ListsAfter(join, l, op)) == RunsAfter(Flat(l), op) && Positive(RunsAfter(Flat(l), op))
  {
    hide Flat, Put, Take, With, Without, RefusesAll, Positive, Total;
    var offset, len := op.offset, op.len;
    TakeIs(join, l, offset, len);
    if len > 0 {
      if op.Insert? {
        FlatPutRun(join, l, offset, Run(len, op.data));
      } else {
        FlatTakeRuns(join, l, offset, len);
        if op.Replace? {
          FlatPutRun(join, Take(join, l, offset, len), offset, Run(len, op.data));
        }
      }
    }
  }

  lemma FlatPutRun(join: JoinFunc, l: Lists, offset: nat, x: Run)
    requires RefusesAll(join) && l != [] && Positive(Flat(l)) && offset <= Total(Flat(l)) && x.length > 0
    ensures Flat(Put(join, l, offset, x)) == With(Flat(l), offset, x) && Positive(With(Flat(l), offset, x))
  {
    hide *;
    FlatPut(join, l, offset, x);
    WithPositive(Flat(l), offset, x);
  }

  lemma FlatTakeRuns(join: JoinFunc, l: Lists, offset: nat, n: nat)
    requires RefusesAll(join) && l != [] && Positive(Flat(l)) && n > 0 && offset + n <= Total(Flat(l))
    ensures
      var m := Without(Flat(l), offset, offset + n);
      Flat(Take(join, l, offset, n)) == m && Positive(m) && offset <= Total(m)
  {
    hide *;
    FlatTake(join, l, offset, n);
    WithoutPositive(Flat(l), offset, offset + n);
  }

  /** A removal jams only where at least as many runs as a leaf has slots are there, and strictly inside one of them. */
  lemma JamsInside(join: JoinFunc, l: Lists, offset: nat, n: nat, p: nat)
    requires l != [] && offset + n <= Total(Flat(l)) && Jams(join, l, offset, n)
    ensures |Flat(l)| >= MAX_RUNS && (offset <= p <= offset + n ==> !OnBoundary(Flat(l), p))
  {
    hide Flat, Locate, Total, OnBoundary, StrictlyInside, EndsStayApart, InsideOf;
    LocateIn(l, offset);
    var (j, w) := Locate(l, offset);
    FlatAt(l, j, []);
    InsideOfIs(l[j], w, n);
    if offset <= p <= offset + n {
      InsideAll(Flat(l[..j]), l[j], Flat(l[j + 1..]), InsideOf(l[j], w, n), w, n, offset, p);
    }
  }

  lemma RoomyFrees(join: JoinFunc, l: Lists, op: Op)
    requires l != [] && Lying(Flat(l), op) && Roomy(Flat(l), op)
    ensures !OpJams(join, l, op)
  {
    hide Flat, OnBoundary, Jams, Total;
    if !op.Insert? && Jams(join, l, op.offset, op.len) {
      JamsInside(join, l, op.offset, op.len, op.offset);
      TakeIs(join, l, op.offset, op.len);
      var p: nat :| op.offset <= p <= op.offset + op.len && OnBoundary(Flat(l), p);
      JamsInside(join, l, op.offset, op.len, p);
    }
  }

  // ---------------------------------------------------------------- whole runs of operations

  /**
   * With a callback that joins nothing no operation jams if every removal meets fewer runs than a leaf has slots, or a
   * place where two runs meet; the leaves then always make up the list of runs that the plain cuts give.
   */
  lemma {:induction false} CalmNeverJams(join: JoinFunc, l: Lists, ops: seq<Op>)
    requires RefusesAll(join) && l != [] && Positive(Flat(l)) && Calm(Flat(l), ops)
    ensures NeverJams(join, l, ops) && Flat(ListsAfterAll(join, l, ops)) == RunsAfterAll(Flat(l), ops)
    decreases |ops|
  {
    hide Flat, ListsAfter, RunsAfter, OpJams, Lying, Roomy, RefusesAll, Positive;
    if ops != [] {
      RoomyFrees(join, l, ops[0]);
      FlatAfter(join, l, ops[0]);
      CalmNeverJams(join, ListsAfter(join, l, ops[0]), ops[1..]);
    }
  }

  // ---------------------------------------------------------------- a region that joins nothing

  /**
   * A region that joins nothing, with the tree `t`, has been given the operations. If it could carry them out, its tree
   * `u` has the leaves they give and none has jammed. If it could not, one has jammed or a compaction has run into
   * `stop`, and if that is `sure`, one has jammed.
   */
  ghost predicate Carried(t: Tree, ops: seq<Op>, u: Tree, stop: Tree, ok: bool, sure: bool) {
    && |t.rows| > 0 && Leaves(t) != []
    && (ok ==> |u.rows| > 0 && NeverJams(NEVER_JOIN, Leaves(t), ops))
    && (ok ==> Leaves(u) == ListsAfterAll(NEVER_JOIN, Leaves(t), ops))
    && (!ok && NeverJams(NEVER_JOIN, Leaves(t), ops) ==>
          !sure && |stop.rows| > 0 && Amid(NEVER_JOIN, Leaves(t), ops, Leaves(stop)))
  }

  lemma CarriedMeans(t: Tree, ops: seq<Op>, u: Tree, stop: Tree, ok: bool, sure: bool)
    requires Carried(t, ops, u, stop, ok, sure)
    ensures |t.rows| > 0 && Leaves(t) != [] && (sure ==> (ok <==> NeverJams(NEVER_JOIN, Leaves(t), ops)))
    ensures ok ==> |u.rows| > 0 && Leaves(u) != [] && NeverJams(NEVER_JOIN, Leaves(t), ops)
    ensures ok ==> Leaves(u) == ListsAfterAll(NEVER_JOIN, Leaves(t), ops)
    ensures !ok && NeverJams(NEVER_JOIN, Leaves(t), ops) ==>
      |stop.rows| > 0 && Amid(NEVER_JOIN, Leaves(t), ops, Leaves(stop))
  {
  }

  lemma CarriedNone(t: Tree, stop: Tree, sure: bool)
    requires |t.rows| > 0 && Leaves(t) != []
    ensures Carried(t, [], t, stop, true, sure)
  {
  }

  lemma CarriedOne(t: Tree, op: Op, u: Tree, stop: Tree, ok: bool, sure: bool)
    requires |t.rows| > 0 && Leaves(t) != []
    requires ok ==> |u.rows| > 0 && Leaves(u) == ListsAfter(NEVER_JOIN, Leaves(t), op)
    requires ok ==> !OpJams(NEVER_JOIN, Leaves(t), op)
    requires !ok && !OpJams(NEVER_JOIN, Leaves(t), op) ==>
      && !sure && |stop.rows| > 0
      && !op.Insert? && Taking(NEVER_JOIN, Leaves(t), op.offset, op.len, Leaves(stop))
    ensures Carried(t, [op], u, stop, ok, sure)
  {
    hide OpJams, ListsAfter, Leaves, Taking;
    var ops := [op];
    assert ops[0] == op && ops[1..] == [];
    var after := ListsAfter(NEVER_JOIN, Leaves(t), op);
    assert NeverJams(NEVER_JOIN, after, ops[1..]) && ListsAfterAll(NEVER_JOIN, after, ops[1..]) == after;
  }

  lemma CarriedInsert(t: Tree, offset: nat, n: nat, d: Data, u: Tree, stop: Tree, sure: bool)
    requires |t.rows| > 0 && Leaves(t) != [] && |u.rows| > 0 && (n == 0 ==> u == t)
    requires n > 0 ==> Leaves(u) == Put(NEVER_JOIN, Leaves(t), offset, Run(n, d))
    ensures Carried(t, [Op.Insert(offset, n, d)], u, stop, true, sure)
  {
    hide Put, Leaves;
    CarriedOne(t, Op.Insert(offset, n, d), u, stop, true, sure);
  }

  lemma CarriedRemove(t: Tree, offset: nat, n: nat, u: Tree, stop: Tree, ok: bool, sure: bool)
    requires |t.rows| > 0 && Leaves(t) != []
    requires ok ==> |u.rows| > 0 && Leaves(u) == Take(NEVER_JOIN, Leaves(t), offset, n)
    requires ok ==> !Jams(NEVER_JOIN, Leaves(t), offset, n)
    requires !ok && !Jams(NEVER_JOIN, Leaves(t), offset, n) ==>
      !sure && |stop.rows| > 0 && Taking(NEVER_JOIN, Leaves(t), offset, n, Leaves(stop))
    ensures Carried(t, [Op.Remove(offset, n)], u, stop, ok, sure)
  {
    hide Take, Jams, Leaves, Taking;
    CarriedOne(t, Op.Remove(offset, n), u, stop, ok, sure);
  }

  lemma CarriedReplace(t: Tree, offset: nat, n: nat, d: Data, u: Tree, stop: Tree, ok: bool, sure: bool)
    requires |t.rows| > 0 && Leaves(t) != [] && n > 0
    requires ok ==> |u.rows| > 0
    requires ok ==> Leaves(u) == Put(NEVER_JOIN, Take(NEVER_JOIN, Leaves(t), offset, n), offset, Run(n, d))
    requires ok ==> !Jams(NEVER_JOIN, Leaves(t), offset, n)
    requires !ok && !Jams(NEVER_JOIN, Leaves(t), offset, n) ==>
      !sure && |stop.rows| > 0 && Taking(NEVER_JOIN, Leaves(t), offset, n, Leaves(stop))
    ensures Carried(t, [Op.Replace(offset, n, d)], u, stop, ok, sure)
  {
    hide Put, Take, Jams, Leaves, Taking;
    CarriedOne(t, Op.Replace(offset, n, d), u, stop, ok, sure);
  }

  /** Operations after others that have been carried out. */
  lemma CarriedOn(t: Tree, a: seq<Op>, u: Tree, b: seq<Op>, v: Tree, before: Tree, stop: Tree, ok: bool, sure: bool,
                  surely: bool)
    requires Carried(t, a, u, before, true, sure) && Carried(u, b, v, stop, ok, surely)
    ensures Carried(t, a + b, v, stop, ok, surely)
  {
    hide NeverJams, ListsAfterAll, Leaves, Amid;
    InParts(NEVER_JOIN, Leaves(t), a, b);
    if |stop.rows| > 0 {
      AmidParts(NEVER_JOIN, Leaves(t), a, b, Leaves(stop));
    }
  }

  lemma CarriedLess(t: Tree, ops: seq<Op>, u: Tree, stop: Tree, ok: bool, sure: bool, surely: bool)
    requires Carried(t, ops, u, stop, ok, surely) && (sure ==> surely)
    ensures Carried(t, ops, u, stop, ok, sure)
  {
  }

  lemma CarriedNot(t: Tree, a: seq<Op>, u: Tree, b: seq<Op>, v: Tree, stop: Tree, sure: bool)
    requires Carried(t, a, u, stop, false, sure)
    ensures Carried(t, a + b, v, stop, false, sure)
  {
    hide NeverJams, ListsAfterAll, Leaves, Amid;
    InParts(NEVER_JOIN, Leaves(t), a, b);
    if |stop.rows| > 0 {
      AmidParts(NEVER_JOIN, Leaves(t), a, b, Leaves(stop));
    }
  }

  // ---------------------------------------------------------------- the tree

  lemma {:induction false} FlatRow(at: Store, row: seq<Node>)
    ensures Flat(ListOf(at, row)) == RunsOf(at, row)
  {
    if row != [] {
      FlatRow(at, row[1..]);
      assert ListOf(at, row)[1..] == ListOf(at, row[1..]);
    }
  }

  lemma FlatLeaves(t: Tree)
    requires |t.rows| > 0
    ensures Flat(Leaves(t)) == AllRuns(t)
  {
    FlatRow(t.at, t.rows[0]);
  }
}
