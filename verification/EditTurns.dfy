/**
 * Edits of a text that are applied one after the other, each moving the ranges of those that follow as marks move; and
 * when that comes to the same as replacing all ranges at once.
 */
module EditTurns {
  import opened TextEdits

  /** A mark; with left gravity it stays before text that is inserted at it. */
  datatype Mark = Mark(pos: nat, left: bool)

  function AfterInsert(m: Mark, p: nat, n: nat): Mark {
    if m.pos > p || (m.pos == p && !m.left) then m.(pos := m.pos + n) else m
  }

  function AfterDelete(m: Mark, a: nat, b: nat): Mark
    requires a <= b
  {
    if m.pos <= a then m else if m.pos < b then m.(pos := a) else m.(pos := m.pos - (b - a))
  }

  /** What replacing `[a, b)` by `n` characters makes of a mark. */
  function AfterReplace(m: Mark, a: nat, b: nat, n: nat): Mark
    requires a <= b
  {
    AfterInsert(AfterDelete(m, a, b), a, n)
  }

  /** An edit once another one has been applied: its ends have moved as marks that keep inserted text inside. */
  function Moved(first: Edit, e: Edit): Edit
    requires first.begin <= first.end
  {
    Edit(AfterReplace(Mark(e.begin, true), first.begin, first.end, |first.text|).pos,
         AfterReplace(Mark(e.end, false), first.begin, first.end, |first.text|).pos, e.text)
  }

  function Replaced(text: string, e: Edit): string
    requires InText(text, e)
  {
    text[..e.begin] + e.text + text[e.end..]
  }

  lemma MovedInText(text: string, first: Edit, e: Edit)
    requires InText(text, first) && InText(text, e)
    ensures InText(Replaced(text, first), Moved(first, e))
  {
  }

  /** A text and the edits that are still to come, with their ranges in it. */
  datatype Turn = Turn(text: string, rest: seq<Edit>)

  function NextTurn(t: Turn): (u: Turn)
    requires t.rest != [] && AllInText(t.text, t.rest)
    ensures AllInText(u.text, u.rest) && |u.rest| + 1 == |t.rest|
    ensures InText(t.text, t.rest[0]) && u.text == Replaced(t.text, t.rest[0])
    ensures forall i :: 0 <= i < |u.rest| ==> u.rest[i] == Moved(t.rest[0], t.rest[i + 1])
  {
    var e, later := t.rest[0], t.rest[1..];
    var rest := seq(|later|, i requires 0 <= i < |later| => Moved(e, later[i]));
    assert forall i :: 0 <= i < |later| ==> InText(t.text, later[i]);
    assert AllInText(Replaced(t.text, e), rest) by {
      forall i | 0 <= i < |later|
        ensures InText(Replaced(t.text, e), rest[i])
      {
        MovedInText(t.text, e, later[i]);
      }
    }
    Turn(Replaced(t.text, e), rest)
  }

  /** What the first `n` edits make of the text and of the edits behind them. */
  function Turns(text: string, edits: seq<Edit>, n: nat): (t: Turn)
    requires AllInText(text, edits) && n <= |edits|
    ensures AllInText(t.text, t.rest) && |t.rest| == |edits| - n
    ensures forall i :: 0 <= i < |t.rest| ==> t.rest[i].text == edits[n + i].text
  {
    if n == 0 then Turn(text, edits) else NextTurn(Turns(text, edits, n - 1))
  }

  /** The text when all edits have been applied in turn. */
  function InTurn(text: string, edits: seq<Edit>): string
    requires AllInText(text, edits)
  {
    Turns(text, edits, |edits|).text
  }

  // ---------------------------------------------------------------- ranges that are apart

  /** Before any edit every place is where it was. */
  lemma NoEdits(text: string, m: nat)
    requires m <= |text|
    ensures PlaceOf(text, [], m) == m && Substituted(text, []) == text
  {
    WalkPlain(text, [], 0, m);
    WalkPlain(text, [], 0, |text|);
    WalkSplit(text, [], 0, |text|, |text| + 1);
    WalkCopy(text, [], |text|, |text| + 1);
  }

  /** The edit `e` is where its range is once the edits `done` have been substituted. */
  ghost predicate Settled(text: string, done: seq<Edit>, e: Edit, now: Edit)
    requires AllInText(text, done)
  {
    now == Edit(PlaceOf(text, done, e.begin), PlaceOf(text, done, e.end), e.text)
  }

  lemma LaterApart(text: string, edits: seq<Edit>, n: nat, j: nat)
    requires AllInText(text, edits) && AllSeparated(edits) && n <= j < |edits|
    ensures Pending(text, edits[..n], edits[j])
  {
    forall i | 0 <= i < n
      ensures Separated(edits[..n][i], edits[j]) && InText(text, edits[..n][i])
    {
      assert Separated(edits[i], edits[j]) && InText(text, edits[i]);
    }
  }

  /** A mark away from the range moves to where the substitution puts its place. */
  lemma MarkMoves(text: string, done: seq<Edit>, e: Edit, m: nat, left: bool)
    requires Pending(text, done, e) && m <= |text| && (m < e.begin || e.end < m)
    requires Clean(done, m) && forall i :: 0 <= i < |done| ==> done[i].begin != m
    ensures AllInText(text, done + [e]) && PlaceOf(text, done, e.begin) <= PlaceOf(text, done, e.end)
    ensures
      var a, b := PlaceOf(text, done, e.begin), PlaceOf(text, done, e.end);
      AfterReplace(Mark(PlaceOf(text, done, m), left), a, b, |e.text|) == Mark(PlaceOf(text, done + [e], m), left)
  {
    PlaceMoves(text, done, e, m);
    PendingParts(text, done, e);
    hide Walk, Substituted, PlaceOf;
  }

  /** One edit moves the range of a later one to where the substitution puts it. */
  lemma SettledMore(text: string, edits: seq<Edit>, n: nat, j: nat, e: Edit, now: Edit)
    requires AllInText(text, edits) && AllSeparated(edits) && n < j < |edits| && AllInText(text, edits[..n])
    requires Settled(text, edits[..n], edits[n], e) && Settled(text, edits[..n], edits[j], now) && e.begin <= e.end
    ensures AllInText(text, edits[..n + 1]) && Settled(text, edits[..n + 1], edits[j], Moved(e, now))
  {
    var done, d := edits[..n], edits[j];
    assert edits[..n + 1] == done + [edits[n]];
    hide Walk, PlaceOf, AfterReplace;
    LaterApart(text, edits, n, n);
    LaterApart(text, edits, n, j);
    assert Separated(edits[n], d);
    PendingClean(text, done, d);
    MarkMoves(text, done, edits[n], d.begin, true);
    MarkMoves(text, done, edits[n], d.end, false);
  }

  /** The first `n` edits are substituted, and the others are where the substitution puts them. */
  ghost predicate InStep(text: string, edits: seq<Edit>, n: nat, t: Turn)
    requires n <= |edits|
  {
    && AllInText(text, edits[..n]) && t.text == Substituted(text, edits[..n]) && |t.rest| == |edits| - n
    && forall i {:trigger t.rest[i]} :: 0 <= i < |t.rest| ==> Settled(text, edits[..n], edits[n + i], t.rest[i])
  }

  lemma FirstStep(text: string, edits: seq<Edit>)
    requires AllInText(text, edits)
    ensures InStep(text, edits, 0, Turn(text, edits))
  {
    hide Substituted, PlaceOf;
    assert edits[..0] == [];
    NoEdits(text, 0);
    forall i | 0 <= i < |edits|
      ensures Settled(text, [], edits[i], edits[i])
    {
      assert InText(text, edits[i]);
      NoEdits(text, edits[i].begin);
      NoEdits(text, edits[i].end);
    }
  }

  lemma NextStep(text: string, edits: seq<Edit>, n: nat, t: Turn)
    requires AllInText(text, edits) && AllSeparated(edits) && n < |edits| && AllInText(t.text, t.rest)
    requires InStep(text, edits, n, t)
    ensures InStep(text, edits, n + 1, NextTurn(t))
  {
    hide Substituted, PlaceOf, Moved;
    var e, u := t.rest[0], NextTurn(t);
    assert InText(t.text, e) && Settled(text, edits[..n], edits[n + 0], e);
    LaterApart(text, edits, n, n);
    AppliedText(text, edits[..n], edits[n]);
    assert edits[..n + 1] == edits[..n] + [edits[n]];
    assert u.text == Replaced(t.text, e);
    forall i | 0 <= i < |u.rest|
      ensures Settled(text, edits[..n + 1], edits[n + 1 + i], u.rest[i])
    {
      assert Settled(text, edits[..n], edits[n + (i + 1)], t.rest[i + 1]);
      SettledMore(text, edits, n, n + 1 + i, e, t.rest[i + 1]);
    }
  }

  lemma {:induction false} TurnsSeparated(text: string, edits: seq<Edit>, n: nat)
    requires AllInText(text, edits) && AllSeparated(edits) && n <= |edits|
    ensures InStep(text, edits, n, Turns(text, edits, n))
  {
    hide InStep, NextTurn;
    if n == 0 {
      FirstStep(text, edits);
    } else {
      TurnsSeparated(text, edits, n - 1);
      NextStep(text, edits, n - 1, Turns(text, edits, n - 1));
    }
  }

  /** With at least one character between any two ranges, one after the other is the same as all at once. */
  lemma InTurnSeparated(text: string, edits: seq<Edit>)
    requires AllInText(text, edits) && AllSeparated(edits)
    ensures InTurn(text, edits) == Substituted(text, edits)
  {
    TurnsSeparated(text, edits, |edits|);
    assert edits[..|edits|] == edits;
  }

  /** All edits have had their turn; with ranges apart that is the substitution of all of them at once. */
  ghost predicate Carried(was: string, now: string, edits: seq<Edit>) {
    && AllInText(was, edits) && now == InTurn(was, edits)
    && (AllSeparated(edits) ==> now == Substituted(was, edits))
  }

  // ---------------------------------------------------------------- ranges that touch

  /** Two ranges of a text, one before the other. */
  predicate InOrder(text: string, d: Edit, e: Edit) {
    d.begin <= d.end <= e.begin <= e.end <= |text|
  }

  /** Both ranges replaced at once. */
  function Both(text: string, d: Edit, e: Edit): string
    requires InOrder(text, d, e)
  {
    text[..d.begin] + d.text + text[d.end..e.begin] + e.text + text[e.end..]
  }

  /**
   * What marks make of it: where the ranges touch, the text of the edit that is applied first is caught by the
   * other one.
   */
  function Caught(text: string, d: Edit, e: Edit, dFirst: bool): string
    requires InOrder(text, d, e)
  {
    if d.end < e.begin then Both(text, d, e) else text[..d.begin] + (if dFirst then e.text else d.text) + text[e.end..]
  }

  lemma TwoTurns(text: string, first: Edit, second: Edit)
    requires InText(text, first) && InText(text, second)
    ensures InText(Replaced(text, first), Moved(first, second)) && AllInText(text, [first, second])
    ensures InTurn(text, [first, second]) == Replaced(Replaced(text, first), Moved(first, second))
  {
    MovedInText(text, first, second);
    var two := [first, second];
    var t := NextTurn(Turn(text, two));
    assert t.rest == [Moved(first, second)];
    assert Turns(text, two, 1) == NextTurn(Turns(text, two, 0)) == t;
    assert Turns(text, two, 2) == NextTurn(t);
  }

  /** Two edits in either order. */
  lemma TwoInTurn(text: string, d: Edit, e: Edit)
    requires InOrder(text, d, e)
    ensures AllInText(text, [d, e]) && InTurn(text, [d, e]) == Caught(text, d, e, true)
    ensures AllInText(text, [e, d]) && InTurn(text, [e, d]) == Caught(text, d, e, false)
  {
    hide InTurn;
    TwoTurns(text, d, e);
    TwoTurns(text, e, d);
    FirstThenSecond(text, d, e);
    SecondThenFirst(text, d, e);
  }

  lemma FirstThenSecond(text: string, d: Edit, e: Edit)
    requires InOrder(text, d, e)
    ensures InText(Replaced(text, d), Moved(d, e))
    ensures Replaced(Replaced(text, d), Moved(d, e)) == Caught(text, d, e, true)
  {
    var n := d.begin + |d.text|;
    var now := Moved(d, e);
    assert now == Edit(if d.end < e.begin then n + (e.begin - d.end) else d.begin, n + (e.end - d.end), e.text);
    MovedInText(text, d, e);
    hide Moved;
    if d.end < e.begin {
      CutBehind(text[..d.begin] + d.text, text[d.end..], e.begin - d.end, e.end - d.end);
      CutAgain(text, d.end, e.begin, e.end);
    } else {
      TouchedFirst(text, d, e, now);
    }
  }

  lemma TouchedFirst(text: string, d: Edit, e: Edit, now: Edit)
    requires InOrder(text, d, e) && d.end == e.begin
    requires now == Edit(d.begin, d.begin + |d.text| + (e.end - d.end), e.text)
    ensures InText(Replaced(text, d), now)
      && Replaced(Replaced(text, d), now) == text[..d.begin] + e.text + text[e.end..]
  {
    var t := Replaced(text, d);
    assert t[..d.begin] == text[..d.begin];
    assert t[now.end..] == text[e.end..];
  }

  lemma CutAgain(text: string, a: nat, b: nat, c: nat)
    requires a <= b <= c <= |text|
    ensures text[a..][..b - a] == text[a..b] && text[a..][c - a..] == text[c..]
  {
  }

  lemma SecondThenFirst(text: string, d: Edit, e: Edit)
    requires InOrder(text, d, e)
    ensures InText(Replaced(text, e), Moved(e, d))
    ensures Replaced(Replaced(text, e), Moved(e, d)) == Caught(text, d, e, false)
  {
    var s, u := text[..e.begin], e.text + text[e.end..];
    var t := text[..e.begin] + e.text + text[e.end..];
    var a, b := Moved(e, d).begin, Moved(e, d).end;
    assert t == s + u && t[..d.begin] == text[..d.begin];
    if d.end < e.begin {
      assert t[d.end..] == text[d.end..e.begin] + u;
    } else {
      assert b == |s + e.text|;
      assert t[b..] == text[e.end..];
    }
  }

  /** Cutting a text behind its first part. */
  lemma CutBehind(s: string, t: string, a: nat, b: nat)
    requires a <= b <= |t|
    ensures (s + t)[..|s| + a] == s + t[..a] && (s + t)[|s| + b..] == t[b..]
  {
  }

  /**
   * Two edits come out as if done at once exactly if their ranges do not touch or the first one applied inserts
   * nothing.
   */
  lemma TouchingExact(text: string, d: Edit, e: Edit, dFirst: bool)
    requires InOrder(text, d, e)
    ensures Caught(text, d, e, dFirst) == Both(text, d, e) <==>
      Separated(d, e) || (if dFirst then d.text else e.text) == ""
  {
    if d.end == e.begin {
      assert text[d.end..e.begin] == "";
      assert |Both(text, d, e)| == |Caught(text, d, e, dFirst)| + |if dFirst then d.text else e.text|;
    }
  }
}
