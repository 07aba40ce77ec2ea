/** Walking over the runs of a region: the places of the runs, and a callback that may stop the walk. */
module RegionWalk {
  import opened Runs
  import opened RegionTree
  import opened RegionCascade
  import opened RegionSearch
  import opened RegionEdit
  import opened RegionCompact

  /** A run and where it starts in the text. */
  datatype Piece = Piece(offset: nat, run: Run)

  function Pieces(runs: seq<Run>, start: nat): (ps: seq<Piece>)
    ensures |ps| == |runs|
  {
    if runs == [] then [] else [Piece(start, runs[0])] + Pieces(runs[1..], start + runs[0].length)
  }

  /** The piece has a character in `[begin, end)`. */
  predicate Overlaps(p: Piece, begin: nat, end: nat) {
    var first, last := if p.offset < begin then begin else p.offset, p.offset + p.run.length;
    first < if end < last then end else last
  }

  function Overlapping(ps: seq<Piece>, begin: nat, end: nat): seq<Piece> {
    if ps == [] then []
    else (if Overlaps(ps[0], begin, end) then [ps[0]] else []) + Overlapping(ps[1..], begin, end)
  }

  /** A callback: its state, the offset of a run and the run give a new state and whether to stop. */
  type Callback<!S> = (S, nat, Run) -> (S, bool)

  /** The callback is shown the pieces in order until it asks to stop. */
  function Visit<S>(func: Callback<S>, s: S, ps: seq<Piece>): (S, bool) {
    if ps == [] then (s, false)
    else
      var r := func(s, ps[0].offset, ps[0].run);
      if r.1 then r else Visit(func, r.0, ps[1..])
  }

  lemma {:induction false} PiecesAt(runs: seq<Run>, start: nat, i: nat)
    requires i < |runs|
    ensures Pieces(runs, start)[i] == Piece(start + Total(runs[..i]), runs[i])
  {
    if i == 0 {
      assert runs[..0] == [];
    } else {
      PiecesAt(runs[1..], start + runs[0].length, i - 1);
      assert runs[..i] == [runs[0]] + runs[1..][..i - 1];
      ExpandConcat([runs[0]], runs[1..][..i - 1]);
      ExpandOne(runs[0]);
    }
  }

  lemma {:induction false} PiecesConcat(a: seq<Run>, b: seq<Run>, start: nat, mid: nat)
    requires mid == start + Total(a)
    ensures Pieces(a + b, start) == Pieces(a, start) + Pieces(b, mid)
  {
    if a == [] {
      assert a + b == b;
    } else {
      HeadTail(a, b);
      PiecesConcat(a[1..], b, start + a[0].length, mid);
      Assoc([Piece(start, a[0])], Pieces(a[1..], start + a[0].length), Pieces(b, mid));
    }
  }

  lemma {:induction false} VisitConcat<S>(func: Callback<S>, s: S, a: seq<Piece>, b: seq<Piece>)
    ensures
      var r := Visit(func, s, a);
      Visit(func, s, a + b) == if r.1 then r else Visit(func, r.0, b)
  {
    if a == [] {
      assert a + b == b;
    } else {
      HeadTail(a, b);
      var r := func(s, a[0].offset, a[0].run);
      if !r.1 {
        VisitConcat(func, r.0, a[1..], b);
      }
    }
  }

  lemma {:induction false} OverlappingConcat(a: seq<Piece>, b: seq<Piece>, begin: nat, end: nat)
    ensures Overlapping(a + b, begin, end) == Overlapping(a, begin, end) + Overlapping(b, begin, end)
  {
    if a == [] {
      assert a + b == b;
    } else {
      HeadTail(a, b);
      OverlappingConcat(a[1..], b, begin, end);
      Assoc(if Overlaps(a[0], begin, end) then [a[0]] else [], Overlapping(a[1..], begin, end),
          Overlapping(b, begin, end));
    }
  }

  /** Runs that end before the range, or start behind it, are not in it. */
  lemma {:induction false} NoneBefore(runs: seq<Run>, start: nat, begin: nat, end: nat)
    requires start + Total(runs) <= begin
    ensures Overlapping(Pieces(runs, start), begin, end) == []
  {
    if runs != [] {
      NoneBefore(runs[1..], start + runs[0].length, begin, end);
      assert Pieces(runs, start)[1..] == Pieces(runs[1..], start + runs[0].length);
    }
  }

  lemma {:induction false} NoneBehind(runs: seq<Run>, start: nat, begin: nat, end: nat)
    requires end <= start
    ensures Overlapping(Pieces(runs, start), begin, end) == []
  {
    if runs != [] {
      NoneBehind(runs[1..], start + runs[0].length, begin, end);
      assert Pieces(runs, start)[1..] == Pieces(runs[1..], start + runs[0].length);
    }
  }

  /** The next run: what is left of the walk, and of the walk over a range. */
  lemma VisitStep<S>(func: Callback<S>, s: S, runs: seq<Run>, start: nat)
    requires runs != []
    ensures
      var r := func(s, start, runs[0]);
      Visit(func, s, Pieces(runs, start)) ==
        if r.1 then r else Visit(func, r.0, Pieces(runs[1..], start + runs[0].length))
  {
    assert Pieces(runs, start)[1..] == Pieces(runs[1..], start + runs[0].length);
  }

  lemma RangeStep<S>(func: Callback<S>, s: S, runs: seq<Run>, start: nat, begin: nat, end: nat)
    requires runs != []
    ensures
      var rest := Overlapping(Pieces(runs[1..], start + runs[0].length), begin, end);
      var r := func(s, start, runs[0]);
      Visit(func, s, Overlapping(Pieces(runs, start), begin, end)) ==
        if !Overlaps(Piece(start, runs[0]), begin, end) then Visit(func, s, rest)
        else if r.1 then r else Visit(func, r.0, rest)
  {
    var rest := Overlapping(Pieces(runs[1..], start + runs[0].length), begin, end);
    var p := Piece(start, runs[0]);
    assert Pieces(runs, start)[0] == p && Pieces(runs, start)[1..] == Pieces(runs[1..], start + runs[0].length);
    if Overlaps(p, begin, end) {
      assert ([p] + rest)[0] == p && ([p] + rest)[1..] == rest;
    } else {
      assert [] + rest == rest;
    }
  }

  /** The runs from leaf `j` on. */
  ghost function RunsFrom(t: Tree, j: nat): seq<Run>
    requires |t.rows| > 0 && j <= |t.rows[0]|
  {
    RunsOf(t.at, t.rows[0][j..])
  }

  /** From one leaf to the next. */
  lemma NextLeaf(t: Tree, root: Node, j: nat)
    requires Whole(t, root, null) && j < |t.rows[0]|
    ensures t.rows[0][j] in t.at && t.rows[0][j].isLeaf && Positive(t.at[t.rows[0][j]].runs)
    ensures RunsFrom(t, j) == t.at[t.rows[0][j]].runs + RunsFrom(t, j + 1)
    ensures t.at[t.rows[0][j]].next == null <==> j + 1 == |t.rows[0]|
    ensures j + 1 < |t.rows[0]| ==> t.at[t.rows[0][j]].next == t.rows[0][j + 1]
    ensures Total(RunsFrom(t, j)) == Total(t.at[t.rows[0][j]].runs) + Total(RunsFrom(t, j + 1))
    ensures j + 1 < |t.rows[0]| ==> t.at[t.rows[0][j]].next in t.at
  {
    LeafFacts(t, root, null, t.rows[0][j], j);
    RunsTake(t.at, t.rows[0], j);
    ExpandConcat(t.at[t.rows[0][j]].runs, RunsFrom(t, j + 1));
    assert ChainAt(t.at, t.rows[0], j);
    if j + 1 < |t.rows[0]| {
      assert t.rows[0][j + 1] in t.rows[0];
    }
  }

  lemma AllFrom(t: Tree, root: Node)
    requires Whole(t, root, null)
    ensures RunsFrom(t, 0) == AllRuns(t) && RunsFrom(t, |t.rows[0]|) == []
    ensures |t.rows[0]| > 0 && t.rows[0][0] in t.at
  {
    assert t.rows[0][0..] == t.rows[0];
    assert Row(t.at, 0, t.rows[0]);
    assert t.rows[0][0] in t.rows[0];
  }

  /** Starting at the leaf of `begin` nothing of the range is missed. */
  lemma RangeFrom(t: Tree, root: Node, leaf: Node, j: nat, within: nat, begin: nat, end: nat)
    requires Whole(t, root, null) && Found(t, leaf, j, within, begin)
    ensures within <= begin && j < |t.rows[0]|
    ensures Overlapping(Pieces(AllRuns(t), 0), begin, end)
      == Overlapping(Pieces(RunsFrom(t, j), begin - within), begin, end)
    ensures Total(AllRuns(t)) == begin - within + Total(RunsFrom(t, j))
  {
    var row := t.rows[0];
    CutAndGlue(row, j);
    RunsConcat(t.at, row[..j], row[j..]);
    LeafOffset(t, root, null, j);
    var a := RunsOf(t.at, row[..j]);
    ExpandConcat(a, RunsFrom(t, j));
    PiecesConcat(a, RunsFrom(t, j), 0, Total(a));
    OverlappingConcat(Pieces(a, 0), Pieces(RunsFrom(t, j), Total(a)), begin, end);
    NoneBefore(a, 0, begin, end);
  }

  lemma NoneYet2(runs: seq<Run>, behind: seq<Run>)
    ensures runs[0..] + behind == runs + behind
    ensures runs[|runs|..] + behind == behind
  {
  }

  lemma RestStep(runs: seq<Run>, i: nat, behind: seq<Run>)
    requires i < |runs|
    ensures runs[i..] + behind != [] && (runs[i..] + behind)[0] == runs[i]
    ensures (runs[i..] + behind)[1..] == runs[i + 1..] + behind
    ensures Total(runs[i..] + behind) == runs[i].length + Total(runs[i + 1..] + behind)
  {
  }

  lemma VisitNone<S>(func: Callback<S>, s: S, start: nat)
    ensures Visit(func, s, Pieces([], start)) == (s, false)
  {
  }

  lemma OverlapsIs(p: Piece, begin: nat, end: nat)
    requires begin < end && p.run.length > 0
    ensures Overlaps(p, begin, end) <==> p.offset < end && begin < p.offset + p.run.length
  {
  }

  lemma {:induction false} NoCharacters(ps: seq<Piece>, begin: nat)
    ensures Overlapping(ps, begin, begin) == []
  {
    if ps != [] {
      NoCharacters(ps[1..], begin);
    }
  }

  /** No run is in a range without characters, or in one that starts at the end of the text. */
  lemma EmptyRange<S>(func: Callback<S>, s: S, runs: seq<Run>, begin: nat, end: nat)
    requires begin == end || begin == Total(runs)
    ensures Visit(func, s, Overlapping(Pieces(runs, 0), begin, end)) == (s, false)
  {
    if begin == end {
      NoCharacters(Pieces(runs, 0), begin);
    } else {
      NoneBefore(runs, 0, begin, end);
    }
  }

  lemma RangeEnded<S>(func: Callback<S>, s: S, runs: seq<Run>, position: nat, begin: nat, end: nat)
    requires end <= position
    ensures Visit(func, s, Overlapping(Pieces(runs, position), begin, end)) == (s, false)
  {
    NoneBehind(runs, position, begin, end);
  }

  /** While the position is before the end of the range there is another leaf. */
  lemma NotPastEnd(t: Tree, root: Node, j: nat, position: nat, length: nat)
    requires Whole(t, root, null) && j <= |t.rows[0]|
    requires length == position + Total(RunsFrom(t, j)) && position < length
    ensures j < |t.rows[0]|
  {
    if j == |t.rows[0]| {
      AllFrom(t, root);
    }
  }
}
