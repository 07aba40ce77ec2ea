/** Whole runs of operations on a region, against the same operations on plain sequences and on lists of leaves. */
module RegionHistory {
  import opened Runs
  import opened RegionTree
  import opened RegionCascade
  import opened RegionEdit
  import opened RegionRoom
  import opened RegionLists
  import opened RegionOps
  import opened TextRegions

  lemma OpMeans(s: seq<Data>, op: Op)
    requires Allowed(s, op)
    ensures match op
      case Insert(offset, len, data) => offset <= |s| && Apply(s, op) == InsertFlat(s, offset, Run(len, data))
      case Remove(offset, len) =>
        offset < |s| && offset + len <= |s| && Apply(s, op) == RemoveFlat(s, offset, offset + len)
      case Replace(offset, len, data) =>
        && (len > 0 ==> offset + len <= |s| && Apply(s, op) == s[..offset] + Repeat(len, data) + s[offset + len..])
        && (len == 0 ==> Apply(s, op) == s)
  {
  }

  lemma OpRuns(runs: seq<Run>, op: Op)
    ensures op.len == 0 ==> RunsAfter(runs, op) == runs
    ensures op.len > 0 ==>
      RunsAfter(runs, op) ==
      match op
      case Insert(offset, len, data) => With(runs, offset, Run(len, data))
      case Remove(offset, len) => Without(runs, offset, offset + len)
      case Replace(offset, len, data) => With(Without(runs, offset, offset + len), offset, Run(len, data))
  {
    hide With, Without;
  }

  method Step(region: TextRegion, op: Op) returns (ok: bool)
    requires region.Valid() && Allowed(region.Text(), op)
    modifies region, region.tree.at.Keys
    ensures ok ==> region.Valid() && |region.tree.rows| > 0 && region.Text() == Apply(old(region.Text()), op)
    ensures forall n :: n in region.tree.at ==> n in old(region.tree.at) || fresh(n)
    ensures ok && EagerJoin(region.join) ==> (Spare(old(region.tree)) ==> Spare(region.tree))
    ensures op.Insert? ==> ok
    ensures |old(region.tree).rows| > 0 && Leaves(old(region.tree)) != []
    ensures ok ==> Leaves(region.tree) == ListsAfter(region.join, Leaves(old(region.tree)), op)
    ensures ok && RefusesAll(region.join) ==> AllRuns(region.tree) == RunsAfter(AllRuns(old(region.tree)), op)
    ensures OpJams(region.join, Leaves(old(region.tree)), op) ==> !ok
    ensures |AllRuns(old(region.tree))| < MANY ==> (ok <==> !OpJams(region.join, Leaves(old(region.tree)), op))
    ensures !ok ==>
      || OpJams(region.join, Leaves(old(region.tree)), op)
      || region.Clashed(old(region.Text()), Leaves(old(region.tree)), op.offset, op.len)
  {
    hide *;
    region.OpenValid();
    SomeLeaf(region.tree, region.root);
    OpMeans(region.Text(), op);
    OpLists(region.join, Leaves(region.tree), op);
    OpRuns(AllRuns(region.tree), op);
    ok := true;
    match op {
      case Insert(offset, len, data) =>
        region.Insert(offset, len, data);
      case Remove(offset, len) =>
        ok := region.Remove(offset, len);
      case Replace(offset, len, data) =>
        ok := region.Replace(offset, len, data);
    }
    if ok {
      region.OpenValid();
    }
  }

  lemma EagerFreesOne(join: JoinFunc, l: Lists, op: Op)
    requires EagerJoin(join) && l != []
    ensures !OpJams(join, l, op)
  {
    var (j, within) := Locate(l, op.offset);
    var i := InsideOf(l[j], within, op.len);
    InsideOfIs(l[j], within, op.len);
    assert i >= 0 ==> !EndsStayApart(join, op.offset - within, l[j], i, within, op.len);
  }

  /** With a callback that joins all equal neighbours nothing ever jams. */
  lemma {:induction false} EagerNeverJams(join: JoinFunc, l: Lists, ops: seq<Op>)
    requires EagerJoin(join) && l != []
    ensures NeverJams(join, l, ops)
    decreases |ops|
  {
    hide OpJams, ListsAfter, EagerJoin;
    if ops != [] {
      EagerFreesOne(join, l, ops[0]);
      EagerNeverJams(join, ListsAfter(join, l, ops[0]), ops[1..]);
    }
  }

  /** One operation after the first `i`, on the list of all runs. */
  lemma {:induction false} OneMoreRuns(runs: seq<Run>, ops: seq<Op>, i: nat)
    requires i < |ops|
    ensures RunsAfterAll(runs, ops[..i + 1]) == RunsAfter(RunsAfterAll(runs, ops[..i]), ops[i])
    decreases i
  {
    hide RunsAfter;
    if i == 0 {
      assert ops[..0] == [] && ops[..1][0] == ops[0] && ops[..1][1..] == [];
    } else {
      OneMoreRuns(RunsAfter(runs, ops[0]), ops[1..], i - 1);
      PrefixTail(ops, i);
      PrefixTail(ops, i + 1);
    }
  }

  /** The tree `t` is what the first `i` operations on a new region lead to, and they are carried out. */
  ghost predicate Reached(t: Tree, root: Node, join: JoinFunc, ops: seq<Op>, i: nat)
    requires AllAllowed([], ops)
  {
    && i <= |ops| && |t.rows| > 0 && Whole(t, root, null)
    && AllAllowed([], ops[..i]) && Expand(AllRuns(t)) == ApplyAll([], ops[..i])
    && Leaves(t) == ListsAfterAll(join, [[]], ops[..i]) && NeverJams(join, [[]], ops[..i])
    && (RefusesAll(join) ==> AllRuns(t) == RunsAfterAll([], ops[..i]))
  }

  /** Operation `i` on the tree `t` that the operations before it lead to jams, or there are very many runs. */
  ghost predicate StoppedAt(t: Tree, root: Node, join: JoinFunc, ops: seq<Op>, i: nat)
    requires AllAllowed([], ops)
  {
    && Reached(t, root, join, ops, i) && i < |ops| && Leaves(t) != []
    && (OpJams(join, Leaves(t), ops[i]) || (|AllRuns(t)| >= MANY && !ops[i].Insert?))
  }

  lemma ReachedMeans(t: Tree, root: Node, join: JoinFunc, ops: seq<Op>, i: nat)
    requires AllAllowed([], ops) && Reached(t, root, join, ops, i)
    ensures AllAllowed([], ops[..i]) && Expand(AllRuns(t)) == ApplyAll([], ops[..i])
    ensures i == |ops| ==> ops[..i] == ops
    ensures Leaves(t) == ListsAfterAll(join, [[]], ops[..i]) && NeverJams(join, [[]], ops[..i])
    ensures RefusesAll(join) ==> AllRuns(t) == RunsAfterAll([], ops[..i])
  {
  }

  lemma ReachedFirst(t: Tree, root: Node, join: JoinFunc, ops: seq<Op>)
    requires AllAllowed([], ops) && |t.rows| > 0 && Whole(t, root, null) && Leaves(t) == [[]]
    ensures Reached(t, root, join, ops, 0)
  {
    FlatLeaves(t);
    OneLeafFlat([]);
    assert ops[..0] == [];
  }

  /** One operation that is carried out. */
  lemma ReachedNext(t: Tree, root: Node, join: JoinFunc, ops: seq<Op>, i: nat, u: Tree)
    requires AllAllowed([], ops) && Reached(t, root, join, ops, i) && i < |ops| && |t.rows| > 0 && Leaves(t) != []
    requires Whole(u, root, null) && |u.rows| > 0
    requires Allowed(Expand(AllRuns(t)), ops[i]) && Expand(AllRuns(u)) == Apply(Expand(AllRuns(t)), ops[i])
    requires Leaves(u) == ListsAfter(join, Leaves(t), ops[i]) && !OpJams(join, Leaves(t), ops[i])
    requires RefusesAll(join) ==> AllRuns(u) == RunsAfter(AllRuns(t), ops[i])
    ensures Reached(u, root, join, ops, i + 1)
  {
    hide *;
    ReachedMeans(t, root, join, ops, i);
    OneMore([], ops, i);
    OneMoreList(join, [[]], ops, i);
    OneMoreRuns([], ops, i);
    ReachedIf(u, root, join, ops, i + 1);
  }

  lemma ReachedIf(t: Tree, root: Node, join: JoinFunc, ops: seq<Op>, i: nat)
    requires AllAllowed([], ops) && i <= |ops| && |t.rows| > 0 && Whole(t, root, null)
    requires AllAllowed([], ops[..i]) && Expand(AllRuns(t)) == ApplyAll([], ops[..i])
    requires Leaves(t) == ListsAfterAll(join, [[]], ops[..i]) && NeverJams(join, [[]], ops[..i])
    requires RefusesAll(join) ==> AllRuns(t) == RunsAfterAll([], ops[..i])
    ensures Reached(t, root, join, ops, i)
  {
  }

  lemma Stops(t: Tree, root: Node, join: JoinFunc, ops: seq<Op>, i: nat, ok: bool)
    requires AllAllowed([], ops) && Reached(t, root, join, ops, i) && i < |ops| && |t.rows| > 0 && Leaves(t) != []
    requires Positive(AllRuns(t)) && (ops[i].Insert? ==> ok)
    requires |AllRuns(t)| < MANY ==> (ok <==> !OpJams(join, Leaves(t), ops[i]))
    ensures !ok ==> StoppedAt(t, root, join, ops, i)
    ensures !ok && (StaysShort([], ops) || StaysFew(join, [[]], ops)) ==> !NeverJams(join, [[]], ops)
    ensures Allowed(Expand(AllRuns(t)), ops[i])
  {
    hide AllRuns, Expand, ApplyAll, AllAllowed, Allowed, OpJams, StaysShort, StaysFew, NeverJams, Whole, RefusesAll;
    RunsAtMost(AllRuns(t));
    FlatLeaves(t);
    OneMore([], ops, i);
    OneMoreList(join, [[]], ops, i);
  }

  /**
   * Any run of operations on a new region. As long as the program does not stop, the region holds the same sequence as
   * the plain edits give, in the leaves that the operations on lists of leaves give. While the text stays short, or the
   * leaves hold few runs, it stops exactly if one of the operations jams, and then at the first that does. With a
   * callback that joins all equal neighbours nothing jams, and with one that joins nothing no run of operations does
   * whose removals meet few runs or a place where two runs meet.
   */
  method Play(join: JoinFunc, ops: seq<Op>) returns (region: TextRegion, ok: bool, ghost was: Tree, ghost at: nat)
    requires SoundJoin(join) && AllAllowed([], ops)
    ensures fresh(region) && region.join == join
    ensures ok ==> region.Valid() && region.Text() == ApplyAll([], ops)
    ensures ok ==> |region.tree.rows| > 0 && Leaves(region.tree) == ListsAfterAll(join, [[]], ops)
    ensures ok && RefusesAll(join) ==> AllRuns(region.tree) == RunsAfterAll([], ops)
    ensures ok && EagerJoin(join) ==> Spare(region.tree)
    ensures ok ==> NeverJams(join, [[]], ops)
    ensures StaysShort([], ops) || StaysFew(join, [[]], ops) ==> (ok <==> NeverJams(join, [[]], ops))
    ensures !ok ==> StoppedAt(was, region.root, join, ops, at)
    ensures !ok ==>
      || OpJams(join, Leaves(was), ops[at])
      || region.Clashed(ApplyAll([], ops[..at]), Leaves(was), ops[at].offset, ops[at].len)
    ensures EagerJoin(join) || (RefusesAll(join) && Calm([], ops)) ==> NeverJams(join, [[]], ops)
  {
    hide *;
    region := new TextRegion(join);
    var i := 0;
    ok, was, at := true, region.tree, 0;
    region.OpenValid();
    ReachedFirst(region.tree, region.root, join, ops);
    NothingJams(join, ops);
    while ok && i < |ops|
      invariant i <= |ops| && region.join == join
      invariant fresh(region) && fresh(region.tree.at.Keys)
      invariant ok ==> region.Valid() && Reached(region.tree, region.root, join, ops, i)
      invariant ok && EagerJoin(join) ==> Spare(region.tree)
      invariant !ok ==> StoppedAt(was, region.root, join, ops, at)
      invariant !ok ==> at < |ops| && |was.rows| > 0 && Leaves(was) != [] && AllAllowed([], ops[..at])
      invariant !ok ==>
        || OpJams(join, Leaves(was), ops[at])
        || region.Clashed(ApplyAll([], ops[..at]), Leaves(was), ops[at].offset, ops[at].len)
      invariant StaysShort([], ops) || StaysFew(join, [[]], ops) ==> ok || !NeverJams(join, [[]], ops)
      decreases |ops| - i
    {
      region.OpenValid();
      ReachedMeans(region.tree, region.root, join, ops, i);
      SomeLeaf(region.tree, region.root);
      was, at := region.tree, i;
      StepAllowed(ops, i);
      ok := Step(region, ops[i]);
      Stops(was, region.root, join, ops, i, ok);
      if ok {
        region.OpenValid();
        ReachedNext(was, region.root, join, ops, i, region.tree);
      }
      i := i + 1;
    }
    if ok {
      region.OpenValid();
      ReachedMeans(region.tree, region.root, join, ops, i);
    }
  }

  lemma StepAllowed(ops: seq<Op>, i: nat)
    requires AllAllowed([], ops) && i < |ops|
    ensures AllAllowed([], ops[..i]) && Allowed(ApplyAll([], ops[..i]), ops[i])
  {
    OneMore([], ops, i);
  }

  lemma NothingJams(join: JoinFunc, ops: seq<Op>)
    ensures EagerJoin(join) || (RefusesAll(join) && Calm([], ops)) ==> NeverJams(join, [[]], ops)
  {
    if EagerJoin(join) {
      EagerNeverJams(join, [[]], ops);
    } else if RefusesAll(join) && Calm([], ops) {
      OneLeafFlat([]);
      CalmNeverJams(join, [[]], ops);
    }
  }
}
