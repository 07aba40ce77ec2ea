/** Whole runs of a highlight engine over a buffer that is edited. */
module HighlightHistory {
  import opened Runs
  import opened RegionTree
  import opened RegionCascade
  import opened RegionRoom
  import opened RegionLists
  import opened RegionOps
  import opened HighlightMarks
  import opened HighlightEngines

  datatype Event =
    | Typed(offset: nat, s: string)
    | Erased(offset: nat, len: nat)
    | Doubted(begin: nat, end: nat)
    | Worked(stop: Highlighter)
    | Restarted

  /** What the buffer and the callers see to. */
  ghost predicate Allowed(text: string, e: Event) {
    match e
    case Typed(offset, _) => offset <= |text|
    case Erased(offset, len) => len > 0 && offset + len <= |text|
    case Doubted(begin, end) => begin <= end <= |text|
    case Worked(stop) => StaysInRange(stop)
    case Restarted => true
  }

  /** The text of the buffer after an event. */
  function TextAfter(text: string, e: Event): string {
    match e
    case Typed(offset, s) => if offset <= |text| then text[..offset] + s + text[offset..] else text
    case Erased(offset, len) => if offset + len <= |text| then text[..offset] + text[offset + len..] else text
    case _ => text
  }

  ghost predicate AllAllowed(text: string, es: seq<Event>)
    decreases |es|
  {
    es == [] || (Allowed(text, es[0]) && AllAllowed(TextAfter(text, es[0]), es[1..]))
  }

  function TextAfterAll(text: string, es: seq<Event>): string
    decreases |es|
  {
    if es == [] then text else TextAfterAll(TextAfter(text, es[0]), es[1..])
  }

  /** One event after the first `i`. */
  lemma {:induction false} OneMore(text: string, es: seq<Event>, i: nat)
    requires AllAllowed(text, es) && i < |es|
    ensures Allowed(TextAfterAll(text, es[..i]), es[i])
    ensures TextAfterAll(text, es[..i + 1]) == TextAfter(TextAfterAll(text, es[..i]), es[i])
    decreases i
  {
    hide Allowed, TextAfter;
    if i == 0 {
      assert es[..0] == [] && es[..1][1..] == [];
    } else {
      OneMore(TextAfter(text, es[0]), es[1..], i - 1);
      assert es[..i][0] == es[0] && es[..i][1..] == es[1..][..i - 1];
      assert es[..i + 1][0] == es[0] && es[..i + 1][1..] == es[1..][..i];
    }
  }

  // ---------------------------------------------------------------- what the engine does to its region

  /** The operations on the region, with the leaves `l`, that the engine answers an event with. */
  ghost function OpsOf(alnum: char -> bool, enabled: bool, text: string, l: Lists, e: Event): seq<Op>
    requires Allowed(text, e)
  {
    match e
    case Typed(offset, s) => Inserting(alnum, TextAfter(text, e), offset, |s|)
    case Erased(offset, len) => Deleting(alnum, TextAfter(text, e), offset, len)
    case Doubted(begin, end) => Unmarking(begin, end)
    case Worked(stop) =>
      var marks := Expand(Flat(l));
      if enabled && |text| <= |marks| then Working(stop, text, marks, 0) else []
    case Restarted => if enabled then StartingOver(|text|, Total(Flat(l))) else []
  }

  /** All operations on the region over a run of events. */
  ghost function OpsOfAll(alnum: char -> bool, enabled: bool, text: string, l: Lists, es: seq<Event>): seq<Op>
    requires AllAllowed(text, es) && l != []
    decreases |es|
  {
    if es == [] then []
    else
      var ops := OpsOf(alnum, enabled, text, l, es[0]);
      ops + OpsOfAll(alnum, enabled, TextAfter(text, es[0]), ListsAfterAll(NEVER_JOIN, l, ops), es[1..])
  }

  /** The operations of one event after the first `i`. */
  lemma {:induction false} OneMoreOps(alnum: char -> bool, enabled: bool, text: string, l: Lists, es: seq<Event>,
                                      i: nat)
    requires AllAllowed(text, es) && l != [] && i < |es|
    ensures AllAllowed(text, es[..i]) && AllAllowed(text, es[..i + 1]) && Allowed(TextAfterAll(text, es[..i]), es[i])
    ensures
      var before := OpsOfAll(alnum, enabled, text, l, es[..i]);
      var m := ListsAfterAll(NEVER_JOIN, l, before);
      var ops := OpsOf(alnum, enabled, TextAfterAll(text, es[..i]), m, es[i]);
      && OpsOfAll(alnum, enabled, text, l, es[..i + 1]) == before + ops
      && (NeverJams(NEVER_JOIN, l, OpsOfAll(alnum, enabled, text, l, es)) ==> NeverJams(NEVER_JOIN, l, before + ops))
    decreases i
  {
    hide Allowed, TextAfter, OpsOf, NeverJams, ListsAfterAll;
    var first := OpsOf(alnum, enabled, text, l, es[0]);
    var u, m := TextAfter(text, es[0]), ListsAfterAll(NEVER_JOIN, l, first);
    InParts(NEVER_JOIN, l, first, OpsOfAll(alnum, enabled, u, m, es[1..]));
    if i == 0 {
      assert es[..0] == [] && es[..1][0] == es[0] && es[..1][1..] == [];
      assert ListsAfterAll(NEVER_JOIN, l, []) == l by {
        NoOps(l);
      }
      assert first + [] == first && [] + first == first;
    } else {
      PrefixTail(es, i);
      PrefixTail(es, i + 1);
      OneMoreOps(alnum, enabled, u, m, es[1..], i - 1);
      var before := OpsOfAll(alnum, enabled, u, m, es[1..][..i - 1]);
      InParts(NEVER_JOIN, l, first, before);
      var ops := OpsOf(alnum, enabled, TextAfterAll(u, es[1..][..i - 1]), ListsAfterAll(NEVER_JOIN, m, before), es[i]);
      InParts(NEVER_JOIN, l, first, before + ops);
      assert first + (before + ops) == (first + before) + ops;
    }
  }

  lemma NoOps(l: Lists)
    requires l != []
    ensures ListsAfterAll(NEVER_JOIN, l, []) == l && NeverJams(NEVER_JOIN, l, [])
  {
  }

  // ---------------------------------------------------------------- what stops the program

  /** The event has to take out marks that are stuck. */
  ghost predicate Blocked(alnum: char -> bool, text: string, t: Tree, e: Event) {
    match e
    case Typed(offset, s) => s == [] && offset <= |text| && AroundStuck(alnum, text, t, offset)
    case Erased(offset, len) => Stuck(t, offset, offset + len)
    case Doubted(begin, end) => begin <= end && Stuck(t, begin, end)
    case _ => false
  }

  /** The identifiers that touch a place are stuck. */
  ghost predicate AroundStuck(alnum: char -> bool, text: string, t: Tree, offset: nat) {
    exists b: nat, e: nat {:trigger Stuck(t, b, e)} ::
      b <= e && BackTo(alnum, text, offset, b) && ForwardTo(alnum, text, offset, e) && Stuck(t, b, e)
  }

  lemma AroundIs(alnum: char -> bool, text: string, t: Tree, offset: nat, b: nat, e: nat)
    requires !alnum('\n') && BackTo(alnum, text, offset, b) && ForwardTo(alnum, text, offset, e) && b <= e
    ensures AroundStuck(alnum, text, t, offset) <==> Stuck(t, b, e)
  {
    if AroundStuck(alnum, text, t, offset) {
      var b2: nat, e2: nat :|
        b2 <= e2 && BackTo(alnum, text, offset, b2) && ForwardTo(alnum, text, offset, e2) && Stuck(t, b2, e2);
      OneRange(alnum, text, offset, b, e, b2, e2);
    }
  }

  function TypedLength(e: Event): nat {
    if e.Typed? then |e.s| else 0
  }

  lemma EventMeans(alnum: char -> bool, text: string, t: Tree, e: Event)
    requires Allowed(text, e)
    ensures match e
      case Typed(offset, s) =>
        && offset <= |text| && TextAfter(text, e) == text[..offset] + s + text[offset..]
        && (s == [] ==> text[..offset] + s + text[offset..] == text)
        && (Blocked(alnum, text, t, e) <==> s == [] && AroundStuck(alnum, text, t, offset)) && TypedLength(e) == |s|
      case Erased(offset, len) =>
        && len > 0 && offset + len <= |text| && TextAfter(text, e) == text[..offset] + text[offset + len..]
        && (Blocked(alnum, text, t, e) <==> Stuck(t, offset, offset + len)) && TypedLength(e) == 0
      case Doubted(begin, end) =>
        && begin <= end <= |text| && TextAfter(text, e) == text
        && (Blocked(alnum, text, t, e) <==> Stuck(t, begin, end)) && TypedLength(e) == 0
      case Worked(stop) =>
        StaysInRange(stop) && TextAfter(text, e) == text && !Blocked(alnum, text, t, e) && TypedLength(e) == 0
      case Restarted => TextAfter(text, e) == text && !Blocked(alnum, text, t, e) && TypedLength(e) == 0
  {
    hide AroundStuck, Stuck;
  }

  /** What the operations of an event are, on the tree as it is. */
  lemma OpsMeans(alnum: char -> bool, enabled: bool, text: string, t: Tree, e: Event)
    requires Allowed(text, e) && |t.rows| > 0 && |text| <= |Expand(AllRuns(t))|
    ensures
      var ops := OpsOf(alnum, enabled, text, Leaves(t), e);
      && (e.Typed? ==> ops == Inserting(alnum, TextAfter(text, e), e.offset, |e.s|))
      && (e.Erased? ==> ops == Deleting(alnum, TextAfter(text, e), e.offset, e.len))
      && (e.Doubted? ==> ops == Unmarking(e.begin, e.end))
      && (e.Worked? ==> ops == if enabled then Working(e.stop, text, Expand(AllRuns(t)), 0) else [])
      && (e.Restarted? ==> ops == if enabled then StartingOver(|text|, |Expand(AllRuns(t))|) else [])
  {
    hide Inserting, Deleting, Unmarking, Working, StartingOver, Leaves, AllRuns, Flat, StaysInRange, TextAfter;
    FlatLeaves(t);
  }

  lemma MarksAre(engine: HighlightEngine)
    requires engine.Valid()
    ensures |engine.region.tree.rows| > 0 && Expand(AllRuns(engine.region.tree)) == engine.Marks()
    ensures |engine.text| <= |engine.Marks()|
  {
    engine.Open();
  }

  method Step(engine: HighlightEngine, e: Event) returns (ok: bool)
    requires engine.Valid() && Allowed(engine.text, e)
    modifies engine`text, engine`scheduled, engine`rebuilt, engine.region, engine.region.tree.at.Keys
    ensures forall n :: n in engine.region.tree.at ==> n in old(engine.region.tree.at) || fresh(n)
    ensures ok ==> engine.Valid() && engine.text == TextAfter(old(engine.text), e)
    ensures ok ==>
      (engine.rebuilt <==> old(engine.rebuilt) || (e.Restarted? && engine.enabled && old(engine.region.length) > 0))
    ensures ok && !e.Worked? ==>
      (engine.scheduled <==> old(engine.scheduled) || (engine.enabled && engine.hasHighlighter))
    ensures ok && e.Worked? && engine.scheduled ==> old(engine.scheduled)
    ensures Blocked(engine.alnum, old(engine.text), old(engine.region.tree), e) ==> !ok
    ensures old(engine.region.length) + TypedLength(e) < MANY ==>
      (ok <==> !Blocked(engine.alnum, old(engine.text), old(engine.region.tree), e))
    ensures !ok ==>
      Blocked(engine.alnum, old(engine.text), old(engine.region.tree), e) || engine.region.Clashing()
    ensures |old(engine.region.tree).rows| > 0
    ensures
      var ops := OpsOf(engine.alnum, engine.enabled, old(engine.text), Leaves(old(engine.region.tree)), e);
      var few := old(engine.region.length) + TypedLength(e) < MANY;
      Carried(old(engine.region.tree), ops, engine.region.tree, engine.region.stopTree, ok, few)
  {
    hide *;
    engine.Open();
    engine.Few();
    ghost var text, t := engine.text, engine.region.tree;
    EventMeans(engine.alnum, text, t, e);
    MarksAre(engine);
    OpsMeans(engine.alnum, engine.enabled, text, t, e);
    ok := true;
    match e
    case Typed(offset, s) =>
      var b, f;
      ok, b, f := engine.InsertText(offset, s);
      if s == [] {
        AroundIs(engine.alnum, text, t, offset, b, f);
      }
    case Erased(offset, len) =>
      var b, f;
      ok, b, f := engine.DeleteText(offset, len);
    case Doubted(begin, end) =>
      ghost var few := engine.region.length < MANY;
      ok := engine.Invalidate(begin, end);
      CarriedLess(t, Unmarking(begin, end), engine.region.tree, engine.region.stopTree, ok, few, |AllRuns(t)| < MANY);
    case Worked(stop) =>
      ok := engine.Work(stop);
    case Restarted =>
      ok := engine.Rebuild();
  }

  // ---------------------------------------------------------------- runs

  /** One of the first `i` events is a rebuild of a buffer that is not empty. */
  ghost predicate Rebuilt(enabled: bool, es: seq<Event>, i: nat)
    requires i <= |es|
  {
    enabled && exists j :: 0 <= j < i && es[j].Restarted? && TextAfterAll("", es[..j]) != ""
  }

  /** The tree `t` is what the first `i` events lead to, and they are carried out. */
  ghost predicate Reached(alnum: char -> bool, enabled: bool, es: seq<Event>, t: Tree, root: Node, i: nat)
    requires AllAllowed("", es)
  {
    && i <= |es| && AllAllowed("", es[..i]) && |t.rows| > 0 && Whole(t, root, null)
    && var ops := OpsOfAll(alnum, enabled, "", [[]], es[..i]);
    && Leaves(t) == ListsAfterAll(NEVER_JOIN, [[]], ops) && NeverJams(NEVER_JOIN, [[]], ops)
  }

  /** Event `i` has to take out stuck marks of the tree that the events before it lead to, or there are very many. */
  ghost predicate StoppedAt(alnum: char -> bool, enabled: bool, es: seq<Event>, t: Tree, root: Node, i: nat)
    requires AllAllowed("", es)
  {
    && Reached(alnum, enabled, es, t, root, i) && i < |es|
    && var text := TextAfterAll("", es[..i]);
    && |text| <= Total(AllRuns(t)) <= |text| + 1
    && (Blocked(alnum, text, t, es[i]) || |text| + 1 + TypedLength(es[i]) >= MANY)
  }

  /** There are never so many characters that a compaction might run out of slots. */
  ghost predicate StaysSmall(es: seq<Event>) {
    forall i {:trigger es[i]} :: 0 <= i < |es| ==> |TextAfterAll("", es[..i])| + 1 + TypedLength(es[i]) < MANY
  }

  /** Event `i` jams, or it has run into the tree `stop`. */
  ghost predicate Stopped(alnum: char -> bool, enabled: bool, es: seq<Event>, t: Tree, i: nat, stop: Tree)
    requires i < |es| && Allowed(TextAfterAll("", es[..i]), es[i])
  {
    && |t.rows| > 0 && Leaves(t) != []
    && var ops := OpsOf(alnum, enabled, TextAfterAll("", es[..i]), Leaves(t), es[i]);
    NeverJams(NEVER_JOIN, Leaves(t), ops) ==>
      |stop.rows| > 0 && Amid(NEVER_JOIN, Leaves(t), ops, Leaves(stop))
  }

  lemma ReachedFirst(alnum: char -> bool, enabled: bool, es: seq<Event>, t: Tree, root: Node)
    requires AllAllowed("", es) && |t.rows| > 0 && Whole(t, root, null) && Leaves(t) == [[]]
    ensures Reached(alnum, enabled, es, t, root, 0)
  {
    assert es[..0] == [];
    NoOps([[]]);
  }

  lemma ReachedMeans(alnum: char -> bool, enabled: bool, es: seq<Event>, t: Tree, root: Node, i: nat)
    requires AllAllowed("", es) && Reached(alnum, enabled, es, t, root, i) && (i == |es| ==> es[..i] == es)
    ensures |t.rows| > 0 && Whole(t, root, null)
    ensures
      var ops := OpsOfAll(alnum, enabled, "", [[]], es);
      i == |es| ==> Leaves(t) == ListsAfterAll(NEVER_JOIN, [[]], ops) && NeverJams(NEVER_JOIN, [[]], ops)
  {
    hide OpsOfAll, NeverJams, ListsAfterAll, Leaves, Whole;
  }

  /** One event after the first `i`. */
  lemma ReachedNext(alnum: char -> bool, enabled: bool, es: seq<Event>, t: Tree, u: Tree, root: Node, i: nat,
                    stop: Tree, ok: bool, few: bool)
    requires AllAllowed("", es) && Reached(alnum, enabled, es, t, root, i) && i < |es|
    requires |t.rows| > 0 && Leaves(t) != [] && Allowed(TextAfterAll("", es[..i]), es[i])
    requires
      var ops := OpsOf(alnum, enabled, TextAfterAll("", es[..i]), Leaves(t), es[i]);
      Carried(t, ops, u, stop, ok, few)
    requires ok ==> |u.rows| > 0 && Whole(u, root, null)
    ensures ok ==> Reached(alnum, enabled, es, u, root, i + 1)
    ensures !ok && few ==> !NeverJams(NEVER_JOIN, [[]], OpsOfAll(alnum, enabled, "", [[]], es))
    ensures !ok ==> Stopped(alnum, enabled, es, t, i, stop)
  {
    hide OpsOf, OpsOfAll, NeverJams, ListsAfterAll, Leaves, Whole, TextAfterAll, Allowed, AllAllowed;
    OneMoreOps(alnum, enabled, "", [[]], es, i);
    var before := OpsOfAll(alnum, enabled, "", [[]], es[..i]);
    var ops := OpsOf(alnum, enabled, TextAfterAll("", es[..i]), Leaves(t), es[i]);
    CarriedMeans(t, ops, u, stop, ok, few);
    InParts(NEVER_JOIN, [[]], before, ops);
  }

  lemma Stops(alnum: char -> bool, enabled: bool, es: seq<Event>, t: Tree, root: Node, i: nat, ok: bool, more: nat,
              few: bool)
    requires AllAllowed("", es) && Reached(alnum, enabled, es, t, root, i) && i < |es|
    requires |t.rows| > 0 && more <= 1 && Total(AllRuns(t)) == |TextAfterAll("", es[..i])| + more
    requires few <==> Total(AllRuns(t)) + TypedLength(es[i]) < MANY
    requires few ==> (ok <==> !Blocked(alnum, TextAfterAll("", es[..i]), t, es[i]))
    ensures !ok ==> StoppedAt(alnum, enabled, es, t, root, i)
    ensures StaysSmall(es) ==> few
  {
    hide Blocked, TextAfterAll, AllRuns, Total, Reached;
  }

  lemma RebuiltMore(enabled: bool, es: seq<Event>, i: nat)
    requires i < |es|
    ensures Rebuilt(enabled, es, i + 1) <==>
      Rebuilt(enabled, es, i) || (es[i].Restarted? && enabled && TextAfterAll("", es[..i]) != "")
  {
    hide TextAfterAll;
  }

  lemma NothingYet(enabled: bool, es: seq<Event>)
    ensures TextAfterAll("", es[..0]) == "" && !Rebuilt(enabled, es, 0) && es[..|es|] == es
  {
  }

  lemma CalmEvents(ops: seq<Op>)
    ensures Calm([], ops) ==> NeverJams(NEVER_JOIN, [[]], ops)
  {
    if Calm([], ops) {
      OneLeafFlat([]);
      CalmNeverJams(NEVER_JOIN, [[]], ops);
    }
  }

  /**
   * From an empty buffer, over any run of edits, invalidations, rounds of work and rebuilds: as long as the program
   * does not stop, the region has as many marks as the buffer has characters, and one more exactly after a rebuild of
   * a buffer that was not empty; its leaves are what the operations that the events come to make of a new region. While
   * there are not very many characters the program stops exactly if one of these operations jams, and that is never so
   * if each removal meets few runs or a place where two runs meet.
   */
  method Play(alnum: char -> bool, enabled: bool, hasHighlighter: bool, es: seq<Event>)
    returns (engine: HighlightEngine, ok: bool, ghost was: Tree, ghost at: nat)
    requires !alnum('\n') && AllAllowed("", es)
    ensures ok ==> engine.Valid() && engine.text == TextAfterAll("", es)
    ensures ok ==> engine.region.length == |engine.text| + if Rebuilt(enabled, es, |es|) then 1 else 0
    ensures ok && enabled && hasHighlighter && es != [] && !es[|es| - 1].Worked? ==> engine.scheduled
    ensures ok && engine.scheduled ==> enabled && hasHighlighter && exists i :: 0 <= i < |es| && !es[i].Worked?
    ensures
      var ops := OpsOfAll(alnum, enabled, "", [[]], es);
      && (ok ==> NeverJams(NEVER_JOIN, [[]], ops) && |engine.region.tree.rows| > 0)
      && (ok ==> Leaves(engine.region.tree) == ListsAfterAll(NEVER_JOIN, [[]], ops))
      && (StaysSmall(es) ==> (ok <==> NeverJams(NEVER_JOIN, [[]], ops)))
      && (Calm([], ops) ==> NeverJams(NEVER_JOIN, [[]], ops))
    ensures !ok ==> StoppedAt(alnum, enabled, es, was, engine.region.root, at)
    ensures !ok ==> Blocked(alnum, TextAfterAll("", es[..at]), was, es[at]) || engine.region.Clashing()
    ensures !ok ==> Allowed(TextAfterAll("", es[..at]), es[at])
    ensures !ok ==> Stopped(alnum, enabled, es, was, at, engine.region.stopTree)
  {
    hide *;
    engine := new HighlightEngine(alnum, enabled, hasHighlighter);
    ghost var ops := OpsOfAll(alnum, enabled, "", [[]], es);
    CalmEvents(ops);
    var i := 0;
    ok, was, at := true, engine.region.tree, 0;
    NothingYet(enabled, es);
    engine.Few();
    ReachedFirst(alnum, enabled, es, engine.region.tree, engine.region.root);
    while ok && i < |es|
      invariant i <= |es| && fresh(engine) && fresh(engine.region) && fresh(engine.region.tree.at.Keys)
      invariant engine.alnum == alnum && engine.enabled == enabled && engine.hasHighlighter == hasHighlighter
      invariant ok && enabled && hasHighlighter && i > 0 && !es[i - 1].Worked? ==> engine.scheduled
      invariant ok && engine.scheduled ==>
        enabled && hasHighlighter && exists k :: 0 <= k < i && !es[k].Worked?
      invariant ok ==> engine.Valid() && engine.text == TextAfterAll("", es[..i])
      invariant ok ==> (engine.rebuilt <==> Rebuilt(enabled, es, i))
      invariant ok ==> Reached(alnum, enabled, es, engine.region.tree, engine.region.root, i)
      invariant !ok ==> StoppedAt(alnum, enabled, es, was, engine.region.root, at) && at < |es|
      invariant !ok ==> Blocked(alnum, TextAfterAll("", es[..at]), was, es[at]) || engine.region.Clashing()
      invariant !ok ==> Allowed(TextAfterAll("", es[..at]), es[at])
      invariant !ok ==> Stopped(alnum, enabled, es, was, at, engine.region.stopTree)
      invariant StaysSmall(es) ==> ok || !NeverJams(NEVER_JOIN, [[]], ops)
      decreases |es| - i
    {
      engine.Open();
      engine.Few();
      OneMore("", es, i);
      RebuiltMore(enabled, es, i);
      was, at := engine.region.tree, i;
      ghost var more, few := if engine.rebuilt then 1 else 0, engine.region.length + TypedLength(es[i]) < MANY;
      ok := Step(engine, es[i]);
      Stops(alnum, enabled, es, was, engine.region.root, i, ok, more, few);
      if ok {
        engine.Few();
      }
      ReachedNext(alnum, enabled, es, was, engine.region.tree, engine.region.root, i, engine.region.stopTree, ok, few);
      i := i + 1;
    }
    if ok {
      engine.Open();
      ReachedMeans(alnum, enabled, es, engine.region.tree, engine.region.root, i);
    }
  }
}
