/** A run of edits that ends with a removal that stops the program. */
module HighlightJam {
  import opened Runs
  import opened RegionTree
  import opened RegionCascade
  import opened RegionSearch
  import opened RegionEdit
  import opened RegionBounds
  import opened RegionRoom
  import opened HighlightMarks
  import opened HighlightEngines
  import opened HighlightHistory

  function Newlines(n: nat): string {
    seq(n, _ => '\n')
  }

  /** `k` runs of one character and what is left of a hundred when another `k` have been taken out between them. */
  function Chopped(k: nat): seq<Run>
    requires k <= 25
  {
    Ones(k) + [Run(100 - 2 * k, UNCHECKED)]
  }

  function Ones(k: nat): seq<Run> {
    seq(k, _ => Run(1, UNCHECKED))
  }

  lemma {:induction false} OnesTotal(k: nat)
    ensures Total(Ones(k)) == k
  {
    if k > 0 {
      assert Ones(k)[1..] == Ones(k - 1);
      OnesTotal(k - 1);
    }
  }

  lemma ChoppedIs(k: nat)
    requires k <= 25
    ensures Positive(Chopped(k)) && |Chopped(k)| == k + 1 && Total(Chopped(k)) == 100 - k
    ensures Chopped(k)[k] == Run(100 - 2 * k, UNCHECKED) && Total(Chopped(k)[..k]) == k
    ensures Total(Chopped(k)[..k + 1]) == 100 - k
  {
    OnesTotal(k);
    var last := [Run(100 - 2 * k, UNCHECKED)];
    assert last[1..] == [] && Total(last) == 100 - 2 * k;
    ExpandConcat(Ones(k), last);
    assert Chopped(k)[..k] == Ones(k) && Chopped(k)[..k + 1] == Chopped(k);
  }

  /** Taking the second character out of the last run leaves one run more. */
  lemma ChoppedMore(k: nat)
    requires k < 25
    ensures Without(Chopped(k), k + 1, k + 2) == Chopped(k + 1)
  {
    ChoppedIs(k);
    MiddleOut(Chopped(k), k, 1, 2, k + 1, k + 2);
    var l, r := Run(1, UNCHECKED), Run(100 - 2 * k - 2, UNCHECKED);
    assert Splice(Chopped(k), k, k + 1, [l, r]) == Ones(k) + [l, r];
    assert Ones(k) + [l, r] == Ones(k + 1) + [r];
  }

  lemma FirstRuns()
    ensures var x := Run(100, UNCHECKED);
      Rewritten(With([], 0, x), 0, 100, UNCHECKED) == Chopped(0) && Chopped(0) == [x]
  {
    var x := Run(100, UNCHECKED);
    assert With([], 0, x) == [x] && Chopped(0) == [x];
    assert [x][1..] == [] && TakeRuns([x], 0) == [] && DropRuns([x], 100) == DropRuns([], 0) == [];
    assert Without([x], 0, 100) == [];
  }

  // ---------------------------------------------------------------- one leaf

  lemma OneLeaf(t: Tree, root: Node)
    requires Whole(t, root, null) && |t.rows| > 0 && |AllRuns(t)| < 2 * MIN_RUNS
    ensures |t.rows[0]| == 1
  {
    assert Row(t.at, 0, t.rows[0]);
    if |t.rows[0]| >= 2 {
      LeavesHold(t, root);
    }
  }

  lemma OnlyLeaf(t: Tree, root: Node) returns (leaf: Node)
    requires Whole(t, root, null) && |t.rows| > 0 && |t.rows[0]| == 1
    ensures leaf == t.rows[0][0] && leaf in t.at && t.at[leaf].runs == AllRuns(t)
    ensures forall b: nat {:trigger Found(t, leaf, 0, b, b)} :: b < Total(AllRuns(t)) ==> Found(t, leaf, 0, b, b)
  {
    leaf := t.rows[0][0];
    LeafFacts(t, root, null, leaf, 0);
    RunsAt(t.at, t.rows[0], 0);
    assert t.rows[0][..0] == [] && t.rows[0][1..] == [];
  }

  /** A removal strictly inside a run is stuck if its leaf is full. */
  lemma FullLeafStuck(t: Tree, root: Node, i: nat, b: nat, e: nat)
    requires Whole(t, root, null) && |t.rows| > 0 && |t.rows[0]| == 1 && |AllRuns(t)| >= MAX_RUNS
    requires i < |AllRuns(t)| && Total(AllRuns(t)[..i]) < b < e < Total(AllRuns(t)[..i + 1])
    ensures Stuck(t, b, e)
  {
    hide Whole, AllRuns, Found, Total;
    var runs := AllRuns(t);
    var leaf := OnlyLeaf(t, root);
    TotalMonotone(runs, i + 1, |runs|);
    assert runs[..|runs|] == runs;
    assert StrictlyInside(runs, i, b, e - b) && EndsStayApart(NEVER_JOIN, 0, runs, i, b, e - b);
    assert Lies(t, 0, b, b) && Crowded(t, NEVER_JOIN, 0, b, b, e - b);
  }

  /** In a leaf that is not full nothing is stuck. */
  lemma SpareLeafFree(t: Tree, root: Node, b: nat, e: nat)
    requires Whole(t, root, null) && |t.rows| > 0 && |AllRuns(t)| < MAX_RUNS && b <= e
    ensures !Stuck(t, b, e)
  {
    forall j: nat, w: nat | Lies(t, j, w, b)
      ensures !Crowded(t, NEVER_JOIN, j, w, b, e - b)
    {
      LeafFacts(t, root, null, t.rows[0][j], j);
      RunsAt(t.at, t.rows[0], j);
    }
  }

  // ---------------------------------------------------------------- the run

  /** A hundred empty lines are typed; then one is taken out behind the first, behind the second, and so on. */
  function Chopping(k: nat): seq<Event> {
    [Typed(0, Newlines(100))] + seq(k, i requires i >= 0 => Erased(i + 1, 1))
  }

  lemma {:induction false} ErasedAll(k: nat)
    requires k <= 26
    ensures AllAllowed("", Chopping(k)) && TextAfterAll("", Chopping(k)) == Newlines(100 - k)
  {
    if k == 0 {
      assert Chopping(0)[1..] == [] && TextAfter("", Chopping(0)[0]) == Newlines(100);
    } else {
      ErasedAll(k - 1);
      hide *;
      ChoppingMore(k - 1);
      OneErased(100 - k, k);
      PlayedMore("", Chopping(k - 1), Erased(k, 1));
    }
  }

  lemma {:induction false} PlayedMore(text: string, es: seq<Event>, e: Event)
    requires AllAllowed(text, es) && Allowed(TextAfterAll(text, es), e)
    ensures AllAllowed(text, es + [e]) && TextAfterAll(text, es + [e]) == TextAfter(TextAfterAll(text, es), e)
    decreases |es|
  {
    hide Allowed, TextAfter;
    if es == [] {
      assert es + [e] == [e] && [e][1..] == [];
    } else {
      PlayedMore(TextAfter(text, es[0]), es[1..], e);
      assert (es + [e])[0] == es[0] && (es + [e])[1..] == es[1..] + [e];
    }
  }

  lemma OneErased(n: nat, k: nat)
    requires k <= n
    ensures Allowed(Newlines(n + 1), Erased(k, 1)) && TextAfter(Newlines(n + 1), Erased(k, 1)) == Newlines(n)
  {
    assert Newlines(n + 1)[..k] + Newlines(n + 1)[k + 1..] == Newlines(n);
  }

  lemma ChoppingMore(k: nat)
    ensures Chopping(k + 1) == Chopping(k) + [Erased(k + 1, 1)]
  {
  }

  /** Between empty lines there is nothing to grow to. */
  lemma EmptyLines(alnum: char -> bool, n: nat, offset: nat, b: nat, e: nat)
    requires !alnum('\n') && offset <= n
    requires BackTo(alnum, Newlines(n), offset, b) && ForwardTo(alnum, Newlines(n), offset, e)
    ensures b == e == offset
  {
    OneRange(alnum, Newlines(n), offset, b, e, offset, offset);
  }

  /**
   * A run of edits of a new buffer that ends in a state where the next edit stops the program: after a hundred
   * empty lines have been typed and twenty-five have been taken out, the leaf is full.
   */
  method Jam(alnum: char -> bool, enabled: bool, hasHighlighter: bool) returns (engine: HighlightEngine)
    requires !alnum('\n')
    ensures AllAllowed("", Chopping(26)) && Chopping(26) == Chopping(25) + [Erased(26, 1)]
    ensures engine.Valid() && engine.text == TextAfterAll("", Chopping(25))
    ensures Blocked(alnum, engine.text, engine.region.tree, Erased(26, 1))
  {
    hide *;
    engine := new HighlightEngine(alnum, enabled, hasHighlighter);
    engine.Few();
    ghost var none := AllRuns(engine.region.tree);
    NewlinesIs();
    var ok, b, e := engine.InsertText(0, Newlines(100));
    TypedFirst(alnum, engine.text, b, e, none);
    engine.Few();
    OneLeaf(engine.region.tree, engine.region.root);
    for k := 0 to 25
      invariant fresh(engine) && fresh(engine.region) && fresh(engine.region.tree.at.Keys)
      invariant engine.Valid() && engine.text == Newlines(100 - k)
      invariant |engine.region.tree.rows| > 0 && |engine.region.tree.rows[0]| == 1
      invariant AllRuns(engine.region.tree) == Chopped(k)
    {
      engine.Few();
      ChoppedFew(k);
      SpareLeafFree(engine.region.tree, engine.region.root, k + 1, k + 2);
      NewlinesLess(k);
      ok, b, e := engine.DeleteText(k + 1, 1);
      EmptyLines(alnum, 99 - k, k + 1, b, e);
      RewrittenIs(Without(Chopped(k), k + 1, k + 2), b, e, UNCHECKED);
      ChoppedMore(k);
      engine.Few();
    }
    engine.Few();
    ChoppedFew(25);
    FullLeafStuck(engine.region.tree, engine.region.root, 25, 26, 27);
    ErasedAll(25);
    ErasedAll(26);
    ChoppingMore(25);
    BlockedErased(alnum, engine.text, engine.region.tree, 26);
  }

  lemma NewlinesIs()
    ensures |Newlines(100)| == 100 < MANY && Newlines(100) != []
  {
  }

  lemma TypedFirst(alnum: char -> bool, text: string, b: nat, e: nat, none: seq<Run>)
    requires text == ""[..0] + Newlines(100) + ""[0..]
    requires BackTo(alnum, text, 0, b) && ForwardTo(alnum, text, 0 + |Newlines(100)|, e)
    requires |none| == 0
    ensures text == Newlines(100) && Newlines(100 - 0) == Newlines(100)
    ensures Rewritten(With(none, 0, Run(|Newlines(100)|, UNCHECKED)), b, e, UNCHECKED) == Chopped(0)
    ensures |Chopped(0)| < 2 * MIN_RUNS
  {
    assert b == 0 && e == 100;
    FirstRuns();
  }

  lemma ChoppedFew(k: nat)
    requires k <= 25
    ensures |Chopped(k)| == k + 1 && Total(Chopped(k)) == 100 - k
    ensures Total(Chopped(k)[..k]) == k && Total(Chopped(k)[..k + 1]) == 100 - k
    ensures (k < 25 ==> k + 1 < MAX_RUNS) && (k == 25 ==> k + 1 >= MAX_RUNS) && 100 < MANY
  {
    hide Chopped;
    ChoppedIs(k);
  }

  lemma NewlinesLess(k: nat)
    requires k < 99
    ensures |Newlines(100 - k)| == 100 - k
    ensures k + 2 <= 100 - k ==> Newlines(100 - k)[..k + 1] + Newlines(100 - k)[k + 2..] == Newlines(99 - k)
  {
  }

  lemma BlockedErased(alnum: char -> bool, text: string, t: Tree, offset: nat)
    requires Stuck(t, offset, offset + 1)
    ensures Blocked(alnum, text, t, Erased(offset, 1))
  {
  }
}
