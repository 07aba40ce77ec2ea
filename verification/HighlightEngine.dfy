/** The engine that keeps a region in step with a buffer and works through what is not highlighted yet. */
module HighlightEngines {
  import opened Runs
  import opened RegionTree
  import opened RegionCascade
  import opened RegionRoom
  import opened RegionLists
  import opened RegionOps
  import opened TextRegions
  import opened HighlightMarks

  /** The highlighter: the round, the range and where it starts give where it has come to. */
  type Highlighter = (nat, nat, nat, nat) -> nat

  /** A highlighter stays in the range it is offered. */
  ghost predicate StaysInRange(stop: Highlighter) {
    forall round: nat, begin: nat, end: nat, iter: nat {:trigger stop(round, begin, end, iter)} ::
      begin <= end ==> begin <= stop(round, begin, end, iter) <= end
  }

  function Overwritten(s: seq<Data>, b: nat, e: nat, d: Data): (u: seq<Data>)
    requires b <= e <= |s|
    ensures |u| == |s|
    ensures forall i :: 0 <= i < |s| ==> u[i] == if b <= i < e then d else s[i]
  {
    s[..b] + Repeat(e - b, d) + s[e..]
  }

  lemma RemoveInsert(s: seq<Data>, b: nat, e: nat, d: Data)
    requires b <= e <= |s|
    ensures InsertFlat(RemoveFlat(s, b, e), b, Run(e - b, d)) == Overwritten(s, b, e, d)
  {
  }

  /** The runs once `[b, e)` has been taken out and put in again with one datum. */
  function Rewritten(runs: seq<Run>, b: nat, e: nat, d: Data): seq<Run>
    requires b <= e
  {
    if b == e then runs else With(Without(runs, b, e), b, Run(e - b, d))
  }

  /** The characters `[b, e)` cannot be taken out of the tree, for want of a free slot in their leaf. */
  ghost predicate Stuck(t: Tree, b: nat, e: nat)
    requires b <= e
  {
    b < e && Jammed(t, NEVER_JOIN, b, e - b)
  }

  // ---------------------------------------------------------------- what the engine does to its region

  /** A range of marks is taken out and put in again, unchecked. */
  function Unmarking(b: nat, e: nat): seq<Op> {
    if b < e then [Op.Remove(b, e - b), Op.Insert(b, e - b, UNCHECKED)] else []
  }

  /** The identifiers around a range of the text are unmarked. */
  function UnmarkingAround(alnum: char -> bool, text: string, from: nat, to: nat): seq<Op>
    requires from <= to <= |text|
  {
    Unmarking(Back(alnum, text, from), Ahead(alnum, text, to))
  }

  /** Room is made for text, and the identifiers around it are unmarked once it is there. */
  function Inserting(alnum: char -> bool, text: string, offset: nat, n: nat): seq<Op>
    requires offset + n <= |text|
  {
    [Op.Insert(offset, n, UNCHECKED)] + UnmarkingAround(alnum, text, offset, offset + n)
  }

  function Deleting(alnum: char -> bool, text: string, offset: nat, len: nat): seq<Op>
    requires offset <= |text|
  {
    [Op.Remove(offset, len)] + UnmarkingAround(alnum, text, offset, offset)
  }

  /** A region of `len` marks starts over, for a text of `n` characters. */
  function StartingOver(n: nat, len: nat): seq<Op> {
    (if len > 0 then [Op.Remove(0, len - 1)] else []) + [Op.Insert(0, n, UNCHECKED)]
  }

  function Checking(b: nat, iter: nat): seq<Op>
    requires b <= iter
  {
    if b == iter then [] else [Op.Replace(b, iter - b, CHECKED)]
  }

  /** How far a round comes that is offered `[b, e)`: behind the line ends there, or to where the highlighter stops. */
  function Halt(stop: Highlighter, text: string, round: nat, b: nat, e: nat): nat
    requires b <= |text|
  {
    var i := PastLineEnds(text, b);
    if i < e then stop(round, b, e, i) else i
  }

  /** What work does: it checks range after range, until the highlighter stops inside one. */
  ghost function Working(stop: Highlighter, text: string, marks: seq<Data>, round: nat): seq<Op>
    requires StaysInRange(stop) && |text| <= |marks|
    decreases Unchecked(marks)
  {
    var b, e := NextStart(marks, |text|), NextEnd(marks, |text|);
    if b >= e then []
    else
      var iter := Halt(stop, text, round, b, e);
      NextUnchecked(marks, |text|);
      HaltBetween(stop, text, round, b, e);
      Checking(b, iter) +
      if iter < e then []
      else
        CheckedLess(marks, b, iter);
        Working(stop, text, Overwritten(marks, b, iter, CHECKED), round + 1)
  }

  lemma NextUnchecked(marks: seq<Data>, n: nat)
    requires n <= |marks| && NextStart(marks, n) < NextEnd(marks, n)
    ensures NextEnd(marks, n) <= n && marks[NextStart(marks, n)] == UNCHECKED
  {
    var k := CheckedLead(marks);
    assert Lead(marks[k..]) > 0 && marks[k..][0] == marks[k];
  }

  lemma HaltBetween(stop: Highlighter, text: string, round: nat, b: nat, e: nat)
    requires StaysInRange(stop) && b < e <= |text|
    ensures b <= Halt(stop, text, round, b, e) <= |text|
  {
  }

  lemma CheckedLess(marks: seq<Data>, b: nat, iter: nat)
    requires b < iter <= |marks| && marks[b] == UNCHECKED
    ensures Unchecked(Overwritten(marks, b, iter, CHECKED)) < Unchecked(marks)
  {
    CheckedFewer(marks, b, iter, Overwritten(marks, b, iter, CHECKED));
  }

  /** The leftmost unchecked range is the one the engine looks for. */
  lemma NextIs(marks: seq<Data>, b: nat, e: nat, n: nat)
    requires NextRange(marks, b, e, n)
    ensures b == NextStart(marks, n) && e == NextEnd(marks, n)
  {
    assert marks[b] == UNCHECKED;
    var k := CheckedLead(marks);
    assert k == b;
    var u := marks[k..];
    assert forall i :: 0 <= i < |u| ==> u[i] == marks[k + i];
  }

  lemma NextNone(marks: seq<Data>, n: nat)
    requires n <= |marks| && AllChecked(marks[..n])
    ensures NextStart(marks, n) >= NextEnd(marks, n)
  {
    forall i | 0 <= i < n
      ensures marks[i] == CHECKED
    {
      assert marks[..n][i] == marks[i];
    }
  }

  class HighlightEngine {
    const region: TextRegion
    const alnum: char -> bool
    var text: string
    var enabled: bool
    var scheduled: bool
    var hasHighlighter: bool
    /** Whether a rebuild has found a region with characters in it. */
    ghost var rebuilt: bool

    /** The region joins no runs, and has a mark for every character; after a rebuild it has one more. */
    ghost predicate Valid()
      reads this, region, region.tree.at.Keys
    {
      && region.Valid() && Binary(region.Text()) && region.join == NEVER_JOIN
      && region.length == |text| + (if rebuilt then 1 else 0)
      && !alnum('\n')
    }

    ghost function Marks(): seq<Data>
      requires |region.tree.rows| > 0
      reads this, region
    {
      region.Text()
    }

    constructor (alnum: char -> bool, enabled: bool, hasHighlighter: bool)
      requires !alnum('\n')
      ensures Valid() && text == "" && !rebuilt && !scheduled && region.length == 0
      ensures this.alnum == alnum && this.enabled == enabled && this.hasHighlighter == hasHighlighter
      ensures fresh(region) && fresh(region.tree.at.Keys)
      ensures |region.tree.rows| > 0 && Leaves(region.tree) == [[]]
    {
      region := new TextRegion(NEVER_JOIN);
      this.alnum, this.enabled, this.hasHighlighter := alnum, enabled, hasHighlighter;
      text, scheduled, rebuilt := "", false, false;
    }

    method QueueWork()
      modifies this`scheduled
      ensures scheduled == (old(scheduled) || (enabled && hasHighlighter))
    {
      if !enabled || scheduled || !hasHighlighter {
        return;
      }
      scheduled := true;
    }

    lemma Open()
      requires Valid()
      ensures region.Valid() && |region.tree.rows| > 0 && Binary(Marks()) && Marks() == region.Text()
      ensures Leaves(region.tree) != []
      ensures region.join == NEVER_JOIN && RefusesAll(NEVER_JOIN)
      ensures region.length == |Marks()| == |text| + (if rebuilt then 1 else 0)
      ensures !alnum('\n')
    {
      region.OpenValid();
      SomeLeaf(region.tree, region.root);
    }

    lemma Close()
      requires region.Valid() && |region.tree.rows| > 0 && Binary(region.Text()) && region.join == NEVER_JOIN
      requires region.length == |text| + (if rebuilt then 1 else 0) && !alnum('\n')
      ensures Valid() && Marks() == region.Text()
    {
    }

    lemma Few()
      requires Valid()
      ensures |region.tree.rows| > 0 && Whole(region.tree, region.root, null)
      ensures |AllRuns(region.tree)| <= region.length == Total(AllRuns(region.tree))
    {
      region.OpenValid();
      RunsAtMost(AllRuns(region.tree));
    }

    /** A range that is not empty is taken out of the region and put in again, unchecked. */
    method Renew(begin: nat, end: nat) returns (ok: bool)
      requires Valid() && begin < end <= |text|
      modifies region, region.tree.at.Keys
      ensures forall n :: n in region.tree.at ==> n in old(region.tree.at) || fresh(n)
      ensures ok ==> region.Valid() && |region.tree.rows| > 0 && region.length == old(region.length)
      ensures end <= |old(Marks())|
      ensures ok ==>
        var left := RemoveFlat(old(Marks()), begin, end);
        region.Text() == InsertFlat(left, begin, Run(end - begin, UNCHECKED))
      ensures ok ==>
        var left := Without(old(AllRuns(region.tree)), begin, end);
        AllRuns(region.tree) == With(left, begin, Run(end - begin, UNCHECKED))
      ensures
        var few := old(|AllRuns(region.tree)|) < MANY;
        Carried(old(region.tree), Unmarking(begin, end), region.tree, region.stopTree, ok, few)
      ensures Stuck(old(region.tree), begin, end) ==> !ok
      ensures old(|AllRuns(region.tree)|) < MANY ==> (ok <==> !Stuck(old(region.tree), begin, end))
      ensures !ok ==> Stuck(old(region.tree), begin, end) || region.Clashing()
    {
      hide *;
      Open();
      ghost var s, t, n := Marks(), region.tree, end - begin;
      ghost var few, out, again := |AllRuns(t)| < MANY, [Op.Remove(begin, n)], [Op.Insert(begin, n, UNCHECKED)];
      StuckIs(t, begin, end);
      UnmarkingIs(begin, end);
      ok := region.Remove(begin, end - begin);
      ghost var u, stop := region.tree, region.stopTree;
      if !ok && !Stuck(t, begin, end) {
        region.ClashedMeans(s, Leaves(t), begin, n);
      }
      CarriedRemove(t, begin, n, u, stop, ok, few);
      if !ok {
        CarriedNot(t, out, u, again, u, stop, few);
        return;
      }
      region.OpenValid();
      SomeLeaf(u, region.root);
      region.Insert(begin, end - begin, UNCHECKED);
      region.OpenValid();
      CarriedInsert(u, begin, n, UNCHECKED, region.tree, region.stopTree, few);
      CarriedOn(t, out, u, again, region.tree, stop, region.stopTree, true, few, few);
    }

    /** Gives the range the unchecked mark, by removing it and putting it in again. */
    method Invalidate(begin: nat, end: nat) returns (ok: bool)
      requires Valid() && begin <= end <= |text|
      modifies this`scheduled, region, region.tree.at.Keys
      ensures forall n :: n in region.tree.at ==> n in old(region.tree.at) || fresh(n)
      ensures ok ==> Valid() && end <= |old(Marks())| && Marks() == Overwritten(old(Marks()), begin, end, UNCHECKED)
      ensures ok ==> AllRuns(region.tree) == Rewritten(old(AllRuns(region.tree)), begin, end, UNCHECKED)
      ensures begin == end ==> ok && region.tree == old(region.tree)
      ensures
        var few := old(|AllRuns(region.tree)|) < MANY;
        Carried(old(region.tree), Unmarking(begin, end), region.tree, region.stopTree, ok, few)
      ensures Stuck(old(region.tree), begin, end) ==> !ok
      ensures old(|AllRuns(region.tree)|) < MANY ==> (ok <==> !Stuck(old(region.tree), begin, end))
      ensures !ok ==> Stuck(old(region.tree), begin, end) || region.Clashing()
      ensures scheduled == (old(scheduled) || (enabled && hasHighlighter))
    {
      hide *;
      Open();
      ghost var s, runs, t := Marks(), AllRuns(region.tree), region.tree;
      StuckIs(t, begin, end);
      UnmarkingIs(begin, end);
      CarriedNone(t, region.stopTree, |runs| < MANY);
      ok := true;
      if end - begin > 0 {
        ok := Renew(begin, end);
      }
      QueueWork();
      if ok {
        RemoveInsert(s, begin, end, UNCHECKED);
        OverwrittenBinary(s, begin, end, UNCHECKED);
        RewrittenIs(runs, begin, end, UNCHECKED);
        region.OpenValid();
        Close();
      }
    }

    /** The range grown to whole identifiers. */
    method Grow(from: nat, to: nat) returns (b: nat, e: nat)
      requires from <= to <= |text| && !alnum('\n')
      ensures BackTo(alnum, text, from, b) && ForwardTo(alnum, text, to, e)
      ensures b <= from && to <= e <= |text|
      ensures forall i :: b <= i < from || to <= i < e ==> text[i] != '\n'
      ensures forall i :: b < i < from || to < i < e ==> text[i] == '_' || alnum(text[i])
    {
      b := from;
      while !StartsLine(text, b)
        invariant b <= from
        invariant forall i :: b <= i < from ==> IsWord(alnum, text[i])
        invariant forall i :: b <= i < from ==> text[i] != '\n'
        decreases b
      {
        b := b - 1;
        if !IsWord(alnum, text[b]) {
          break;
        }
      }
      e := to;
      while !EndsLine(text, e)
        invariant to <= e <= |text|
        invariant e > to ==> !EndsLine(text, to) && (e < |text| ==> IsWord(alnum, text[e]))
        invariant forall i :: to < i < e ==> IsWord(alnum, text[i])
        decreases |text| - e
      {
        e := e + 1;
        if e == |text| || !IsWord(alnum, text[e]) {
          break;
        }
      }
    }

    method MarkUnchecked(offset: nat, length: nat) returns (ok: bool, b: nat, e: nat)
      requires Valid() && offset + length <= |text|
      modifies this`scheduled, region, region.tree.at.Keys
      ensures forall n :: n in region.tree.at ==> n in old(region.tree.at) || fresh(n)
      ensures BackTo(alnum, text, offset, b) && ForwardTo(alnum, text, offset + length, e) && b <= e <= |text|
      ensures scheduled == (old(scheduled) || (enabled && hasHighlighter))
      ensures ok ==> Valid() && e <= |old(Marks())| && Marks() == Overwritten(old(Marks()), b, e, UNCHECKED)
      ensures ok ==> AllRuns(region.tree) == Rewritten(old(AllRuns(region.tree)), b, e, UNCHECKED)
      ensures b == e ==> ok && region.tree == old(region.tree)
      ensures
        var ops := UnmarkingAround(alnum, text, offset, offset + length);
        Carried(old(region.tree), ops, region.tree, region.stopTree, ok, old(|AllRuns(region.tree)|) < MANY)
      ensures Stuck(old(region.tree), b, e) ==> !ok
      ensures old(|AllRuns(region.tree)|) < MANY ==> (ok <==> !Stuck(old(region.tree), b, e))
      ensures !ok ==> Stuck(old(region.tree), b, e) || region.Clashing()
    {
      hide *;
      Open();
      b, e := Grow(offset, offset + length);
      RangeAround(alnum, text, offset, offset + length, b, e);
      UnmarkingAroundIs(alnum, text, offset, offset + length, b, e);
      ok := Invalidate(b, e);
    }

    /** The region makes room for text that is about to come. */
    method MakeRoom(offset: nat, n: nat)
      requires Valid() && offset <= |text|
      modifies region, region.tree.at.Keys
      ensures forall m :: m in region.tree.at ==> m in old(region.tree.at) || fresh(m)
      ensures region.Valid() && |region.tree.rows| > 0 && region.join == NEVER_JOIN && Binary(region.Text())
      ensures offset <= |old(Marks())| && region.Text() == InsertFlat(old(Marks()), offset, Run(n, UNCHECKED))
      ensures region.length == old(region.length) + n
      ensures n > 0 ==> AllRuns(region.tree) == With(old(AllRuns(region.tree)), offset, Run(n, UNCHECKED))
      ensures n > 0 ==> OnBoundary(AllRuns(region.tree), offset)
      ensures n == 0 ==> region.tree == old(region.tree)
      ensures Carried(old(region.tree), [Op.Insert(offset, n, UNCHECKED)], region.tree, region.stopTree, true, true)
    {
      hide *;
      Open();
      Few();
      ghost var marks, runs, t := Marks(), AllRuns(region.tree), region.tree;
      region.Insert(offset, n, UNCHECKED);
      region.OpenValid();
      CarriedInsert(t, offset, n, UNCHECKED, region.tree, region.stopTree, true);
      InsertedBinary(marks, offset, n);
      WithBoundary(runs, offset, Run(n, UNCHECKED));
    }

    /**
     * Text goes into the buffer: the region makes room before, and the surroundings are unchecked after. Text that
     * is not empty never stops the program as long as there are not very many characters.
     */
    method InsertText(offset: nat, s: string) returns (ok: bool, b: nat, e: nat)
      requires Valid() && offset <= |text|
      modifies this`text, this`scheduled, region, region.tree.at.Keys
      ensures forall n :: n in region.tree.at ==> n in old(region.tree.at) || fresh(n)
      ensures text == old(text)[..offset] + s + old(text)[offset..]
      ensures scheduled == (old(scheduled) || (enabled && hasHighlighter))
      ensures ok ==> Valid()
      ensures BackTo(alnum, text, offset, b) && ForwardTo(alnum, text, offset + |s|, e)
      ensures b <= offset && offset + |s| <= e <= |text|
      ensures ok ==> offset <= |old(Marks())| && e <= |InsertFlat(old(Marks()), offset, Run(|s|, UNCHECKED))|
      ensures ok ==> Marks() == Overwritten(InsertFlat(old(Marks()), offset, Run(|s|, UNCHECKED)), b, e, UNCHECKED)
      ensures ok ==> Fresh(alnum, text, offset, offset + |s|, Marks())
      ensures ok && s != [] ==>
        AllRuns(region.tree) == Rewritten(With(old(AllRuns(region.tree)), offset, Run(|s|, UNCHECKED)), b, e, UNCHECKED)
      ensures
        var few := old(region.length) + |s| < MANY;
        Carried(old(region.tree), Inserting(alnum, text, offset, |s|), region.tree, region.stopTree, ok, few)
      ensures s != [] && old(region.length) + |s| < MANY ==> ok
      ensures s == [] && Stuck(old(region.tree), b, e) ==> !ok
      ensures s == [] && old(region.length) < MANY ==> (ok <==> !Stuck(old(region.tree), b, e))
      ensures !ok ==> (s == [] && Stuck(old(region.tree), b, e)) || region.Clashing()
    {
      hide *;
      Open();
      ghost var marks, t0, few := Marks(), region.tree, region.length + |s| < MANY;
      MakeRoom(offset, |s|);
      text := text[..offset] + s + text[offset..];
      Close();
      Few();
      ghost var t, stop := region.tree, region.stopTree;
      if s != [] {
        BoundaryFreesAll(t, region.root, offset);
      }
      ok, b, e := MarkUnchecked(offset, |s|);
      RangeAround(alnum, text, offset, offset + |s|, b, e);
      InsertingIs(alnum, text, offset, |s|);
      CarriedOn(t0, [Op.Insert(offset, |s|, UNCHECKED)], t, UnmarkingAround(alnum, text, offset, offset + |s|),
                region.tree, stop, region.stopTree, ok, true, |AllRuns(t)| < MANY);
      CarriedLess(t0, Inserting(alnum, text, offset, |s|), region.tree, region.stopTree, ok, few, |AllRuns(t)| < MANY);
      if ok {
        Open();
        FreshAfter(alnum, text, offset, offset + |s|, b, e, InsertFlat(marks, offset, Run(|s|, UNCHECKED)));
      }
    }

    /** The region drops the marks of text that is about to go. */
    method DropMarks(offset: nat, len: nat) returns (ok: bool)
      requires Valid() && len > 0 && offset + len <= |text|
      modifies region, region.tree.at.Keys
      ensures forall m :: m in region.tree.at ==> m in old(region.tree.at) || fresh(m)
      ensures ok ==> region.Valid() && |region.tree.rows| > 0 && region.join == NEVER_JOIN && Binary(region.Text())
      ensures ok ==> offset + len <= |old(Marks())| && region.Text() == RemoveFlat(old(Marks()), offset, offset + len)
      ensures ok ==> region.length == old(region.length) - len
      ensures ok ==> AllRuns(region.tree) == Without(old(AllRuns(region.tree)), offset, offset + len)
      ensures ok ==> OnBoundary(AllRuns(region.tree), offset)
      ensures Stuck(old(region.tree), offset, offset + len) ==> !ok
      ensures old(region.length) < MANY ==> (ok <==> !Stuck(old(region.tree), offset, offset + len))
      ensures !ok ==> Stuck(old(region.tree), offset, offset + len) || region.Clashing()
      ensures ok && |old(region.tree).rows[0]| == 1 ==> |region.tree.rows[0]| == 1
      ensures
        var few := old(region.length) < MANY;
        Carried(old(region.tree), [Op.Remove(offset, len)], region.tree, region.stopTree, ok, few)
    {
      hide *;
      Open();
      Few();
      ghost var marks, runs, t, few := Marks(), AllRuns(region.tree), region.tree, region.length < MANY;
      StuckIs(region.tree, offset, offset + len);
      ok := region.Remove(offset, len);
      if !ok && !Stuck(t, offset, offset + len) {
        region.ClashedMeans(marks, Leaves(t), offset, len);
      }
      CarriedRemove(t, offset, len, region.tree, region.stopTree, ok, few);
      if ok {
        region.OpenValid();
        RemovedBinary(marks, offset, offset + len);
        WithoutBoundary(runs, offset, offset + len);
      }
    }

    /**
     * Text goes out of the buffer: the region drops its marks before, and the surroundings are unchecked after. As long
     * as there are not very many characters the program stops exactly if the marks are stuck.
     */
    method DeleteText(offset: nat, len: nat) returns (ok: bool, b: nat, e: nat)
      requires Valid() && len > 0 && offset + len <= |text|
      modifies this`text, this`scheduled, region, region.tree.at.Keys
      ensures forall n :: n in region.tree.at ==> n in old(region.tree.at) || fresh(n)
      ensures ok ==> text == old(text)[..offset] + old(text)[offset + len..]
      ensures ok ==> scheduled == (old(scheduled) || (enabled && hasHighlighter))
      ensures ok ==> Valid()
      ensures ok ==> BackTo(alnum, text, offset, b) && ForwardTo(alnum, text, offset, e) && b <= offset <= e <= |text|
      ensures ok ==> offset + len <= |old(Marks())| && e <= |RemoveFlat(old(Marks()), offset, offset + len)|
      ensures ok ==> Marks() == Overwritten(RemoveFlat(old(Marks()), offset, offset + len), b, e, UNCHECKED)
      ensures ok ==> Fresh(alnum, text, offset, offset, Marks())
      ensures ok ==>
        AllRuns(region.tree) == Rewritten(Without(old(AllRuns(region.tree)), offset, offset + len), b, e, UNCHECKED)
      ensures ok && b == e && |old(region.tree).rows[0]| == 1 ==> |region.tree.rows[0]| == 1
      ensures
        var after, few := old(text)[..offset] + old(text)[offset + len..], old(region.length) < MANY;
        Carried(old(region.tree), Deleting(alnum, after, offset, len), region.tree, region.stopTree, ok, few)
      ensures Stuck(old(region.tree), offset, offset + len) ==> !ok
      ensures old(region.length) < MANY ==> (ok <==> !Stuck(old(region.tree), offset, offset + len))
      ensures !ok ==> Stuck(old(region.tree), offset, offset + len) || region.Clashing()
    {
      hide *;
      Open();
      ghost var marks, t, few := Marks(), region.tree, region.length < MANY;
      ghost var after := text[..offset] + text[offset + len..];
      DeletingIs(alnum, after, offset, len);
      ok := DropMarks(offset, len);
      b, e := offset, offset;
      ghost var u, stop := region.tree, region.stopTree;
      if !ok {
        CarriedNot(t, [Op.Remove(offset, len)], u, UnmarkingAround(alnum, after, offset, offset), u, stop, few);
      } else {
        text := text[..offset] + text[offset + len..];
        Close();
        Few();
        BoundaryFreesAll(region.tree, region.root, offset);
        ok, b, e := MarkUnchecked(offset, 0);
        RangeAround(alnum, text, offset, offset, b, e);
        CarriedOn(t, [Op.Remove(offset, len)], u, UnmarkingAround(alnum, text, offset, offset), region.tree, stop,
                  region.stopTree, ok, few, |AllRuns(u)| < MANY);
        CarriedLess(t, Deleting(alnum, text, offset, len), region.tree, region.stopTree, ok, few, |AllRuns(u)| < MANY);
        if ok {
          Open();
          FreshAfter(alnum, text, offset, offset, b, e, RemoveFlat(marks, offset, offset + len));
        }
      }
    }

    /** All but one mark are removed. */
    method DropAllButOne() returns (ok: bool)
      requires Valid() && region.length > 0
      modifies region, region.tree.at.Keys
      ensures forall m :: m in region.tree.at ==> m in old(region.tree.at) || fresh(m)
      ensures ok ==> region.Valid() && |region.tree.rows| > 0 && region.join == NEVER_JOIN && Binary(region.Text())
      ensures ok ==> region.length == 1
      ensures old(region.length) < MANY ==> ok
      ensures !ok ==> region.Clashing()
      ensures
        var few := old(region.length) < MANY;
        Carried(old(region.tree), [Op.Remove(0, old(region.length) - 1)], region.tree, region.stopTree, ok, few)
    {
      hide *;
      Open();
      Few();
      ghost var marks, t, len := Marks(), region.tree, region.length;
      OpLists(NEVER_JOIN, Leaves(t), Op.Remove(0, len - 1));
      StartIsBoundary(AllRuns(region.tree));
      BoundaryFrees(region.tree, region.root, NEVER_JOIN, 0, region.length - 1, 0);
      ok := region.Remove(0, region.length - 1);
      if !ok {
        region.ClashedMeans(marks, Leaves(t), 0, len - 1);
      }
      CarriedRemove(t, 0, len - 1, region.tree, region.stopTree, ok, len < MANY);
      if ok {
        region.OpenValid();
        RemovedBinary(marks, 0, |marks| - 1);
      }
    }

    /** A mark for every character is put in front of what is left. */
    method Refill()
      requires region.Valid() && |region.tree.rows| > 0 && region.join == NEVER_JOIN && Binary(region.Text())
      modifies region, region.tree.at.Keys
      ensures forall m :: m in region.tree.at ==> m in old(region.tree.at) || fresh(m)
      ensures region.Valid() && |region.tree.rows| > 0 && Binary(region.Text())
      ensures region.Text() == InsertFlat(old(region.Text()), 0, Run(|text|, UNCHECKED))
      ensures region.length == old(region.length) + |text|
      ensures
        Carried(old(region.tree), [Op.Insert(0, |text|, UNCHECKED)], region.tree, region.stopTree, true, true)
    {
      hide *;
      region.OpenValid();
      SomeLeaf(region.tree, region.root);
      ghost var left, t := region.Text(), region.tree;
      InsertedBinary(left, 0, |text|);
      if text != "" {
        region.Insert(0, |text|, UNCHECKED);
        region.OpenValid();
      }
      CarriedInsert(t, 0, |text|, UNCHECKED, region.tree, region.stopTree, true);
    }

    /** Starts over: all but one mark are removed, and one for every character is put in. */
    method Rebuild() returns (ok: bool)
      requires Valid()
      modifies this`scheduled, this`rebuilt, region, region.tree.at.Keys
      ensures forall n :: n in region.tree.at ==> n in old(region.tree.at) || fresh(n)
      ensures ok ==> Valid() && rebuilt == (old(rebuilt) || (enabled && old(region.length) > 0))
      ensures ok && enabled ==> |text| <= |Marks()| && forall i :: 0 <= i < |text| ==> Marks()[i] == UNCHECKED
      ensures ok && !enabled ==> Marks() == old(Marks())
      ensures scheduled == (old(scheduled) || (enabled && hasHighlighter))
      ensures !enabled || old(region.length) < MANY ==> ok
      ensures !ok ==> region.Clashing()
      ensures
        var few, ops := old(region.length) < MANY, if enabled then StartingOver(|text|, old(region.length)) else [];
        Carried(old(region.tree), ops, region.tree, region.stopTree, ok, few)
    {
      hide *;
      Open();
      ok := true;
      ghost var t, len := region.tree, region.length;
      ghost var few := len < MANY;
      CarriedNone(t, region.stopTree, few);
      if !enabled {
        return;
      }
      StartingOverIs(|text|, len);
      ghost var dropping: seq<Op> := [];
      if region.length > 0 {
        ok := DropAllButOne();
        rebuilt := true;
        dropping := [Op.Remove(0, len - 1)];
      }
      QueueWork();
      ghost var u, stop, filling := region.tree, region.stopTree, [Op.Insert(0, |text|, UNCHECKED)];
      if !ok {
        CarriedNot(t, dropping, u, filling, u, stop, few);
      } else {
        ghost var left := region.Text();
        Refill();
        CarriedOn(t, dropping, u, filling, region.tree, stop, region.stopTree, true, few, true);
        CarriedLess(t, dropping + filling, region.tree, region.stopTree, true, few, true);
        InsertedFirst(left, |text|);
        Close();
      }
    }

    /** The leftmost interval of unchecked marks, cut off at the end of the buffer. */
    method GetNextRange(begin0: nat, end0: nat) returns (found: bool, begin: nat, end: nat)
      requires Valid()
      ensures found ==> begin < end <= |text| <= |Marks()| && NextRange(Marks(), begin, end, |text|)
      ensures !found ==> |text| <= |Marks()| && AllChecked(Marks()[..|text|])
    {
      hide *;
      Open();
      region.OpenValid();
      var range := region.Foreach(UncheckedStart, Range(NOWHERE, 0));
      ghost var k, len := VisitFinds(AllRuns(region.tree), 0);
      begin, end := begin0, end0;
      if range.length == 0 || range.offset == NOWHERE {
        CheckedPrefix(Marks(), |text|);
        return false, begin, end;
      }
      begin := Min(range.offset, |text|);
      end := Min(range.offset + range.length, |text|);
      found := begin != end;
      ClampedRange(Marks(), k, len, |text|);
    }

    /** Behind the line ends that the range starts with. */
    method SkipLineEnds(begin: nat) returns (iter: nat)
      requires begin <= |text|
      ensures NewlinesUpTo(text, begin, iter) && iter == PastLineEnds(text, begin)
    {
      iter := begin;
      while EndsLine(text, iter)
        invariant begin <= iter <= |text| && PastLineEnds(text, iter) == PastLineEnds(text, begin)
        invariant forall i :: begin <= i < iter ==> text[i] == '\n'
        decreases |text| - iter
      {
        if iter == |text| {
          break;
        }
        iter := iter + 1;
      }
    }

    /** The characters from the start of the leftmost unchecked range to `iter` become checked. */
    method Check(begin: nat, iter: nat) returns (ok: bool)
      requires Valid() && begin <= iter <= |text| && OnBoundary(AllRuns(region.tree), begin)
      modifies region, region.tree.at.Keys
      ensures forall n :: n in region.tree.at ==> n in old(region.tree.at) || fresh(n)
      ensures iter <= |old(Marks())|
      ensures ok ==> Valid() && Marks() == Overwritten(old(Marks()), begin, iter, CHECKED)
      ensures (iter == begin || old(region.length) < MANY) ==> ok
      ensures !ok ==> region.Clashing()
      ensures
        var few := old(region.length) < MANY;
        Carried(old(region.tree), Checking(begin, iter), region.tree, region.stopTree, ok, few)
    {
      hide *;
      Open();
      Few();
      ghost var t, few, marks := region.tree, region.length < MANY, Marks();
      CarriedNone(t, region.stopTree, few);
      OverwrittenBinary(marks, begin, iter, CHECKED);
      OverwrittenIs(marks, begin, iter, CHECKED);
      BoundaryFrees(t, region.root, NEVER_JOIN, begin, iter - begin, begin);
      CheckingIs(begin, iter);
      ok := true;
      if iter != begin {
        ok := region.Replace(begin, iter - begin, CHECKED);
        if !ok {
          region.ClashedMeans(marks, Leaves(t), begin, iter - begin);
        }
        CarriedReplace(t, begin, iter - begin, CHECKED, region.tree, region.stopTree, ok, few);
      }
      if ok {
        region.OpenValid();
        Close();
      }
    }

    /** One round: the highlighter is offered a range, and what it has done, or skipped, is checked. */
    method Round(stop: Highlighter, round: nat, begin: nat, end: nat) returns (ok: bool, iter: nat)
      requires Valid() && StaysInRange(stop) && |text| <= |Marks()| && NextRange(Marks(), begin, end, |text|)
      modifies region, region.tree.at.Keys
      ensures forall n :: n in region.tree.at ==> n in old(region.tree.at) || fresh(n)
      ensures begin <= iter <= |text|
      ensures ok ==> Valid() && iter <= |old(Marks())| && Marks() == Overwritten(old(Marks()), begin, iter, CHECKED)
      ensures iter == begin ==> ok && NoMovement(stop, Marks(), text)
      ensures old(region.length) < MANY ==> ok
      ensures !ok ==> region.Clashing()
      ensures iter > begin ==> (iter <= end || forall i :: begin <= i < iter ==> EndsLine(text, i))
      ensures forall i: nat :: NewlinesUpTo(text, begin, i) ==>
        iter == if i < end then stop(round, begin, end, i) else i
      ensures iter == Halt(stop, text, round, begin, end)
      ensures
        var few := old(region.length) < MANY;
        Carried(old(region.tree), Checking(begin, iter), region.tree, region.stopTree, ok, few)
    {
      hide *;
      Open();
      ghost var marks := Marks();
      RangeBounds(marks, begin, end, |text|);
      iter := SkipLineEnds(begin);
      UpToBounds(text, begin, iter);
      HaltIs(stop, text, round, begin, end);
      HaltMeans(stop, text, round, begin, end);
      if iter < end {
        Stops(stop, round, begin, end, iter, marks, text);
        iter := stop(round, begin, end, iter);
      }
      region.OpenValid();
      RangeStarts(AllRuns(region.tree), begin, end, |text|);
      OverwrittenBinary(marks, begin, iter, CHECKED);
      ok := Check(begin, iter);
    }

    /**
     * Works through the unchecked ranges, one after the other, until the highlighter stops inside one; `again` asks
     * to be called again. Nothing becomes unchecked, and it does not go on for ever.
     */
    method Tick(stop: Highlighter) returns (ok: bool, again: bool)
      requires Valid() && StaysInRange(stop)
      modifies region, region.tree.at.Keys
      ensures forall n :: n in region.tree.at ==> n in old(region.tree.at) || fresh(n)
      ensures ok ==> Valid() && OnlyChecked(old(Marks()), Marks())
      ensures ok && again ==> Unchecked(Marks()) < Unchecked(old(Marks()))
      ensures ok && !again ==> |text| <= |Marks()|
      ensures ok && !again ==> (AllChecked(Marks()[..|text|]) || NoMovement(stop, Marks(), text))
      ensures old(region.length) < MANY ==> ok
      ensures !ok ==> region.Clashing()
      ensures |text| <= |old(Marks())|
      ensures
        var few := old(region.length) < MANY;
        Carried(old(region.tree), Working(stop, text, old(Marks()), 0), region.tree, region.stopTree, ok, few)
    {
      hide *;
      ok, again := true, false;
      Open();
      ghost var marks, t, few := Marks(), region.tree, region.length < MANY;
      CarriedNone(t, region.stopTree, few);
      OnlyCheckedSame(marks);
      var found, begin, end := GetNextRange(0, 0);
      if !found {
        WorkingNone(stop, text, marks, 0);
        return;
      }
      var round := 0;
      ghost var done: seq<Op> := [];
      EmptyFirst(Working(stop, text, marks, 0));
      while true
        invariant ok && Valid() && |region.tree.rows| > 0 && OnlyChecked(marks, Marks()) && |text| <= |Marks()|
        invariant 0 <= begin < end <= |text| && NextRange(Marks(), begin, end, |text|)
        invariant forall n :: n in region.tree.at ==> n in old(region.tree.at) || fresh(n)
        invariant Unchecked(Marks()) <= Unchecked(marks) && region.length == |marks|
        invariant Carried(t, done, region.tree, region.stopTree, true, few)
        invariant done + Working(stop, text, Marks(), round) == Working(stop, text, marks, 0)
        decreases Unchecked(Marks())
      {
        ghost var before, u, from := Marks(), region.tree, region.stopTree;
        var iter;
        ok, iter := Round(stop, round, begin, end);
        WorkingMore(stop, text, before, round, begin, end, iter, done);
        CarriedOn(t, done, u, Checking(begin, iter), region.tree, from, region.stopTree, ok, few, few);
        done := done + Checking(begin, iter);
        if !ok {
          ghost var rest := if iter < end then [] else
            Working(stop, text, Overwritten(before, begin, iter, CHECKED), round + 1);
          CarriedNot(t, done, region.tree, rest, region.tree, region.stopTree, few);
          return;
        }
        RoundDone(marks, before, begin, end, iter, |text|);
        Open();
        if iter >= end {
          found, begin, end := GetNextRange(begin, end);
          if found {
            round := round + 1;
            continue;
          }
          WorkingNone(stop, text, Marks(), round + 1);
          again := iter != begin;
          return;
        }
        again := iter != begin;
        return;
      }
    }

    /** The worker: it goes through the unchecked ranges as long as the engine is enabled, and says when it is done. */
    method Work(stop: Highlighter) returns (ok: bool)
      requires Valid() && StaysInRange(stop)
      modifies this`scheduled, region, region.tree.at.Keys
      ensures forall n :: n in region.tree.at ==> n in old(region.tree.at) || fresh(n)
      ensures ok ==> Valid() && OnlyChecked(old(Marks()), Marks())
      ensures ok && !enabled ==> Marks() == old(Marks()) && !scheduled
      ensures ok && enabled && scheduled ==> old(scheduled) && Unchecked(Marks()) < Unchecked(old(Marks()))
      ensures ok && enabled && old(scheduled) && !scheduled ==>
        |text| <= |Marks()| && (AllChecked(Marks()[..|text|]) || NoMovement(stop, Marks(), text))
      ensures old(region.length) < MANY ==> ok
      ensures !ok ==> region.Clashing()
      ensures |text| <= |old(Marks())|
      ensures
        var ops, few := if enabled then Working(stop, text, old(Marks()), 0) else [], old(region.length) < MANY;
        Carried(old(region.tree), ops, region.tree, region.stopTree, ok, few)
    {
      hide *;
      Open();
      OnlyCheckedSame(Marks());
      CarriedNone(region.tree, region.stopTree, region.length < MANY);
      ok := true;
      if enabled {
        var again;
        ok, again := Tick(stop);
        if !ok || again {
          return;
        }
      }
      Open();
      scheduled := false;
      Close();
    }
  }

  /** Offered the leftmost unchecked range, behind its first newlines, the highlighter asks to stop where it begins. */
  ghost predicate NoMovement(stop: Highlighter, marks: seq<Data>, text: string) {
    exists r: nat, b: nat, e: nat, i: nat {:trigger stop(r, b, e, i)} ::
      NextRange(marks, b, e, |text|) && NewlinesUpTo(text, b, i) && i < e && stop(r, b, e, i) == b
  }

  lemma Stops(stop: Highlighter, round: nat, begin: nat, end: nat, iter: nat, marks: seq<Data>, text: string)
    requires StaysInRange(stop) && NewlinesUpTo(text, begin, iter) && iter < end && NextRange(marks, begin, end, |text|)
    ensures begin <= stop(round, begin, end, iter) <= end
    ensures stop(round, begin, end, iter) == begin ==> NoMovement(stop, marks, text)
  {
  }

  lemma HaltMeans(stop: Highlighter, text: string, round: nat, b: nat, e: nat)
    requires b <= |text|
    ensures forall i: nat :: NewlinesUpTo(text, b, i) ==>
      Halt(stop, text, round, b, e) == if i < e then stop(round, b, e, i) else i
  {
    hide NewlinesUpTo, PastLineEnds;
    forall i: nat | NewlinesUpTo(text, b, i)
      ensures PastLineEnds(text, b) == i
    {
      PastLineEndsIs(text, b, i);
    }
  }

  lemma UpToBounds(text: string, i: nat, j: nat)
    requires NewlinesUpTo(text, i, j)
    ensures i <= j <= |text| && forall k :: i <= k < j ==> EndsLine(text, k)
  {
  }

  lemma UnmarkingAroundIs(alnum: char -> bool, text: string, from: nat, to: nat, b: nat, e: nat)
    requires from <= to <= |text| && !alnum('\n') && BackTo(alnum, text, from, b) && ForwardTo(alnum, text, to, e)
    ensures UnmarkingAround(alnum, text, from, to) == Unmarking(b, e)
  {
    hide BackTo, ForwardTo;
    OnlyBack(alnum, text, from, b, Back(alnum, text, from));
    OnlyAhead(alnum, text, to, e, Ahead(alnum, text, to));
  }

  lemma InsertingIs(alnum: char -> bool, text: string, offset: nat, n: nat)
    requires offset + n <= |text|
    ensures
      Inserting(alnum, text, offset, n) ==
      [Op.Insert(offset, n, UNCHECKED)] + UnmarkingAround(alnum, text, offset, offset + n)
  {
  }

  lemma DeletingIs(alnum: char -> bool, text: string, offset: nat, len: nat)
    requires offset <= |text|
    ensures
      Deleting(alnum, text, offset, len) == [Op.Remove(offset, len)] + UnmarkingAround(alnum, text, offset, offset)
  {
  }

  lemma StartingOverIs(n: nat, len: nat)
    ensures StartingOver(n, len) == (if len > 0 then [Op.Remove(0, len - 1)] else []) + [Op.Insert(0, n, UNCHECKED)]
  {
  }

  lemma HaltIs(stop: Highlighter, text: string, round: nat, b: nat, e: nat)
    requires b <= |text|
    ensures Halt(stop, text, round, b, e) ==
      if PastLineEnds(text, b) < e then stop(round, b, e, PastLineEnds(text, b)) else PastLineEnds(text, b)
  {
  }

  lemma CheckingIs(b: nat, iter: nat)
    requires b <= iter
    ensures Checking(b, iter) == if b == iter then [] else [Op.Replace(b, iter - b, CHECKED)]
  {
  }

  lemma WorkingNone(stop: Highlighter, text: string, marks: seq<Data>, round: nat)
    requires StaysInRange(stop) && |text| <= |marks| && AllChecked(marks[..|text|])
    ensures Working(stop, text, marks, round) == []
    ensures forall ops: seq<Op> :: ops + Working(stop, text, marks, round) == ops
  {
    NextNone(marks, |text|);
  }

  /** One round of the work, and what is left of it. */
  lemma WorkingMore(stop: Highlighter, text: string, marks: seq<Data>, round: nat, begin: nat, end: nat, iter: nat,
                    done: seq<Op>)
    requires StaysInRange(stop) && |text| <= |marks| && NextRange(marks, begin, end, |text|)
    requires iter == Halt(stop, text, round, begin, end) && begin <= iter <= |text|
    ensures
      var rest :=
        if iter < end then [] else Working(stop, text, Overwritten(marks, begin, iter, CHECKED), round + 1);
      && done + Working(stop, text, marks, round) == (done + Checking(begin, iter)) + rest
      && (iter < end ==> done + Working(stop, text, marks, round) == done + Checking(begin, iter))
  {
    hide Halt, Checking;
    NextIs(marks, begin, end, |text|);
  }

  /**
   * What work does to the region, round by round: the leftmost unchecked range is offered from behind its first
   * newlines on, and is checked up to where the highlighter stops; when it stops inside the range that is all, and
   * otherwise work goes on with the next range.
   */
  lemma WorkMeans(stop: Highlighter, text: string, marks: seq<Data>, round: nat, begin: nat, end: nat, i: nat)
    requires StaysInRange(stop) && |text| <= |marks|
    requires NextRange(marks, begin, end, |text|) && NewlinesUpTo(text, begin, i)
    ensures
      var iter := if i < end then stop(round, begin, end, i) else i;
      && begin <= iter <= |text|
      && var now := if iter > begin then [Op.Replace(begin, iter - begin, CHECKED)] else [];
      Working(stop, text, marks, round) ==
      if iter < end then now
      else now + Working(stop, text, marks[..begin] + Repeat(iter - begin, CHECKED) + marks[iter..], round + 1)
  {
    hide Halt, Checking, NewlinesUpTo, NextRange, Overwritten, Working;
    RangeBounds(marks, begin, end, |text|);
    var iter := Halt(stop, text, round, begin, end);
    HaltBetween(stop, text, round, begin, end);
    HaltMeans(stop, text, round, begin, end);
    CheckingIs(begin, iter);
    OverwrittenIs(marks, begin, iter, CHECKED);
    WorkingMore(stop, text, marks, round, begin, end, iter, []);
    EmptyFirst(Working(stop, text, marks, round));
    EmptyFirst(Checking(begin, iter));
  }

  lemma EmptyFirst(ops: seq<Op>)
    ensures [] + ops == ops
  {
  }

  lemma UnmarkingIs(b: nat, e: nat)
    ensures Unmarking(b, e) == if b < e then [Op.Remove(b, e - b)] + [Op.Insert(b, e - b, UNCHECKED)] else []
  {
  }

  lemma StuckIs(t: Tree, b: nat, e: nat)
    requires b <= e
    ensures Stuck(t, b, e) <==> b < e && Jammed(t, NEVER_JOIN, b, e - b)
  {
  }

  lemma RewrittenIs(runs: seq<Run>, b: nat, e: nat, d: Data)
    requires b <= e
    ensures Rewritten(runs, b, e, d) == if b == e then runs else With(Without(runs, b, e), b, Run(e - b, d))
  {
  }

  /** No range around a place where two runs meet is stuck. */
  lemma BoundaryFreesAll(t: Tree, root: Node, p: nat)
    requires Whole(t, root, null) && |t.rows| > 0 && OnBoundary(AllRuns(t), p)
    ensures forall b: nat, e: nat {:trigger Stuck(t, b, e)} :: b <= p <= e ==> !Stuck(t, b, e)
  {
    forall b: nat, e: nat | b <= p <= e
      ensures !Stuck(t, b, e)
    {
      BoundaryFrees(t, root, NEVER_JOIN, b, e - b, p);
    }
  }

  /** The leftmost unchecked range starts where two runs meet. */
  lemma RangeStarts(runs: seq<Run>, begin: nat, end: nat, n: nat)
    requires NextRange(Expand(runs), begin, end, n)
    ensures OnBoundary(runs, begin)
  {
    if begin == 0 {
      StartIsBoundary(runs);
    } else {
      EdgeIsBoundary(runs, begin);
    }
  }

  lemma OverwrittenIs(s: seq<Data>, b: nat, e: nat, d: Data)
    requires b <= e <= |s|
    ensures Overwritten(s, b, e, d) == s[..b] + Repeat(e - b, d) + s[e..]
  {
  }

  lemma RangeBounds(marks: seq<Data>, begin: nat, end: nat, n: nat)
    requires NextRange(marks, begin, end, n)
    ensures begin < end <= n <= |marks|
  {
  }

  /** Marks only turned from unchecked to checked. */
  ghost predicate OnlyChecked(s: seq<Data>, u: seq<Data>) {
    |u| == |s| && forall i :: 0 <= i < |s| ==> u[i] == s[i] || u[i] == CHECKED
  }

  lemma OnlyCheckedSame(s: seq<Data>)
    ensures OnlyChecked(s, s)
  {
  }

  lemma RoundDone(marks: seq<Data>, s: seq<Data>, begin: nat, end: nat, iter: nat, n: nat)
    requires OnlyChecked(marks, s) && NextRange(s, begin, end, n) && begin <= iter <= |s|
    requires Unchecked(s) <= Unchecked(marks)
    ensures OnlyChecked(marks, Overwritten(s, begin, iter, CHECKED))
    ensures iter > begin ==> Unchecked(Overwritten(s, begin, iter, CHECKED)) < Unchecked(s)
    ensures iter == begin ==> Overwritten(s, begin, iter, CHECKED) == s
    ensures begin < end
  {
    if iter > begin {
      CheckedFewer(s, begin, iter, Overwritten(s, begin, iter, CHECKED));
    }
  }

  /** `[begin, end)` is the leftmost unchecked interval, as far as it lies before `n`. */
  predicate NextRange(marks: seq<Data>, begin: nat, end: nat, n: nat) {
    && begin < end <= n <= |marks|
    && (forall i :: 0 <= i < begin ==> marks[i] == CHECKED)
    && (forall i :: begin <= i < end ==> marks[i] == UNCHECKED)
    && (end < n ==> marks[end] == CHECKED)
  }

  lemma ClampedRange(marks: seq<Data>, k: nat, len: nat, n: nat)
    requires Leftmost(marks, k, len) && n <= |marks|
    ensures
      var b, e := Min(k, n), Min(k + len, n);
      if b != e then NextRange(marks, b, e, n) else AllChecked(marks[..n])
  {
  }

  lemma CheckedPrefix(marks: seq<Data>, n: nat)
    ensures AllChecked(marks) && n <= |marks| ==> AllChecked(marks[..n])
  {
  }

  /** Every identifier that touches the edit is unchecked from end to end. */
  ghost predicate Fresh(alnum: char -> bool, text: string, from: nat, to: nat, marks: seq<Data>) {
    forall x: nat, y: nat :: Identifier(alnum, text, x, y) && x <= to && from <= y ==> FreshAt(marks, x, y)
  }

  predicate FreshAt(marks: seq<Data>, x: nat, y: nat) {
    y <= |marks| && forall i :: x <= i < y ==> marks[i] == UNCHECKED
  }

  lemma FreshAfter(alnum: char -> bool, text: string, from: nat, to: nat, b: nat, e: nat, marks: seq<Data>)
    requires !alnum('\n') && from <= to && BackTo(alnum, text, from, b) && ForwardTo(alnum, text, to, e)
    requires b <= e <= |marks|
    ensures Fresh(alnum, text, from, to, Overwritten(marks, b, e, UNCHECKED))
  {
    forall x: nat, y: nat | Identifier(alnum, text, x, y) && x <= to && from <= y
      ensures FreshAt(Overwritten(marks, b, e, UNCHECKED), x, y)
    {
      IdentifierCovered(alnum, text, from, to, b, e, x, y);
    }
  }

  lemma RangeAround(alnum: char -> bool, text: string, from: nat, to: nat, b: nat, e: nat)
    requires BackTo(alnum, text, from, b) && ForwardTo(alnum, text, to, e)
    ensures b <= from <= |text| && to <= e <= |text|
  {
  }

  lemma InsertedBinary(s: seq<Data>, offset: nat, n: nat)
    requires Binary(s) && offset <= |s|
    ensures Binary(InsertFlat(s, offset, Run(n, UNCHECKED))) && |InsertFlat(s, offset, Run(n, UNCHECKED))| == |s| + n
    ensures n == 0 ==> InsertFlat(s, offset, Run(n, UNCHECKED)) == s
  {
  }

  lemma InsertedFirst(s: seq<Data>, n: nat)
    ensures
      var u := InsertFlat(s, 0, Run(n, UNCHECKED));
      |u| == n + |s| && forall i :: 0 <= i < n ==> u[i] == UNCHECKED
  {
  }

  lemma RemovedBinary(s: seq<Data>, from: nat, to: nat)
    requires Binary(s) && from <= to <= |s|
    ensures Binary(RemoveFlat(s, from, to)) && |RemoveFlat(s, from, to)| == |s| - (to - from)
  {
  }

  lemma OverwrittenBinary(s: seq<Data>, b: nat, e: nat, d: Data)
    requires Binary(s) && b <= e <= |s| && (d == UNCHECKED || d == CHECKED)
    ensures Binary(Overwritten(s, b, e, d))
    ensures b == e ==> Overwritten(s, b, e, d) == s
  {
  }
}
