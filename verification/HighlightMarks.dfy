/** Which characters of a buffer are highlighted: the marks, lines and identifiers the engine works with. */
module HighlightMarks {
  import opened Runs
  import opened RegionWalk

  const UNCHECKED: Data := 0
  const CHECKED: Data := 1

  predicate Binary(s: seq<Data>) {
    forall i :: 0 <= i < |s| ==> s[i] == UNCHECKED || s[i] == CHECKED
  }

  // ---------------------------------------------------------------- the leftmost unchecked interval

  /** What the search has found: where the interval starts (NOWHERE: not yet) and how long it is. */
  datatype Range = Range(offset: int, length: nat)

  const NOWHERE: int := -1

  function UncheckedStart(range: Range, offset: nat, run: Run): (Range, bool) {
    if range.offset == NOWHERE && run.data == CHECKED then (range, false)
    else if run.data == UNCHECKED then
      (Range(if range.offset == NOWHERE then offset else range.offset, range.length + run.length), false)
    else (range, true)
  }

  /** `[k, k + len)` is the leftmost interval of unchecked marks, as long as it can be. */
  predicate Leftmost(s: seq<Data>, k: nat, len: nat) {
    && k + len <= |s| && len > 0
    && (forall i :: 0 <= i < k ==> s[i] == CHECKED)
    && (forall i :: k <= i < k + len ==> s[i] == UNCHECKED)
    && (k + len < |s| ==> s[k + len] == CHECKED)
  }

  predicate AllChecked(s: seq<Data>) {
    forall i :: 0 <= i < |s| ==> s[i] == CHECKED
  }

  /** How many unchecked marks the sequence starts with. */
  function Lead(s: seq<Data>): (n: nat)
    ensures n <= |s| && (forall i :: 0 <= i < n ==> s[i] == UNCHECKED)
    ensures n < |s| ==> s[n] != UNCHECKED
  {
    if s == [] || s[0] != UNCHECKED then 0 else 1 + Lead(s[1..])
  }

  /** How many checked marks the sequence starts with. */
  function CheckedLead(s: seq<Data>): (n: nat)
    ensures n <= |s| && (forall i :: 0 <= i < n ==> s[i] == CHECKED)
    ensures n < |s| ==> s[n] != CHECKED
  {
    if s == [] || s[0] != CHECKED then 0 else 1 + CheckedLead(s[1..])
  }

  function Min(a: nat, b: nat): nat {
    if a <= b then a else b
  }

  /** Where the leftmost unchecked interval starts, as far as it lies before `n`. */
  function NextStart(marks: seq<Data>, n: nat): nat {
    Min(CheckedLead(marks), n)
  }

  function NextEnd(marks: seq<Data>, n: nat): nat {
    var k := CheckedLead(marks);
    Min(k + Lead(marks[k..]), n)
  }

  lemma ExpandHead(runs: seq<Run>)
    requires runs != []
    ensures Expand(runs) == Repeat(runs[0].length, runs[0].data) + Expand(runs[1..])
  {
    assert runs == [runs[0]] + runs[1..];
    ExpandConcat([runs[0]], runs[1..]);
    ExpandOne(runs[0]);
  }

  lemma BinaryHead(runs: seq<Run>)
    requires runs != [] && Positive(runs) && Binary(Expand(runs))
    ensures runs[0].data == UNCHECKED || runs[0].data == CHECKED
    ensures Binary(Expand(runs[1..])) && Positive(runs[1..])
  {
    ExpandHead(runs);
    var n := runs[0].length;
    assert Expand(runs)[0] == runs[0].data;
    forall i | 0 <= i < |Expand(runs[1..])|
      ensures Expand(runs[1..])[i] == UNCHECKED || Expand(runs[1..])[i] == CHECKED
    {
      assert Expand(runs)[n + i] == Expand(runs[1..])[i];
    }
  }

  lemma {:induction false} LeadAfter(n: nat, s: seq<Data>)
    ensures Lead(Repeat(n, UNCHECKED) + s) == n + Lead(s)
  {
    if n == 0 {
      assert Repeat(0, UNCHECKED) + s == s;
    } else {
      assert (Repeat(n, UNCHECKED) + s)[1..] == Repeat(n - 1, UNCHECKED) + s;
      LeadAfter(n - 1, s);
    }
  }

  /** Once started, the interval takes the unchecked runs that follow. */
  lemma {:induction false} VisitGrows(runs: seq<Run>, start: nat, r: Range)
    requires Positive(runs) && Binary(Expand(runs)) && r.offset != NOWHERE
    ensures Visit(UncheckedStart, r, Pieces(runs, start)).0 == Range(r.offset, r.length + Lead(Expand(runs)))
  {
    if runs != [] {
      BinaryHead(runs);
      ExpandHead(runs);
      VisitStep(UncheckedStart, r, runs, start);
      if runs[0].data == UNCHECKED {
        VisitGrows(runs[1..], start + runs[0].length, Range(r.offset, r.length + runs[0].length));
        LeadAfter(runs[0].length, Expand(runs[1..]));
      } else {
        assert Expand(runs)[0] == CHECKED;
      }
    }
  }

  lemma LeftmostAfter(n: nat, s: seq<Data>, k: nat, len: nat)
    requires Leftmost(s, k, len)
    ensures Leftmost(Repeat(n, CHECKED) + s, n + k, len)
  {
  }

  lemma LeftmostHere(n: nat, s: seq<Data>)
    requires n > 0 && Binary(s)
    ensures Leftmost(Repeat(n, UNCHECKED) + s, 0, n + Lead(s))
  {
  }

  /** The walk over all runs finds the leftmost interval, though it may cover several runs. */
  lemma {:induction false} VisitFinds(runs: seq<Run>, start: nat) returns (k: nat, len: nat)
    requires Positive(runs) && Binary(Expand(runs))
    ensures
      var r := Visit(UncheckedStart, Range(NOWHERE, 0), Pieces(runs, start)).0;
      if len == 0 then r == Range(NOWHERE, 0) && AllChecked(Expand(runs))
      else r == Range(start + k, len) && r.offset != NOWHERE && Leftmost(Expand(runs), k, len)
  {
    k, len := 0, 0;
    if runs != [] {
      BinaryHead(runs);
      ExpandHead(runs);
      VisitStep(UncheckedStart, Range(NOWHERE, 0), runs, start);
      var n, rest := runs[0].length, Expand(runs[1..]);
      if runs[0].data == UNCHECKED {
        VisitGrows(runs[1..], start + n, Range(start, n));
        LeftmostHere(n, rest);
        len := n + Lead(rest);
      } else {
        k, len := VisitFinds(runs[1..], start + n);
        if len > 0 {
          LeftmostAfter(n, rest, k, len);
          k := n + k;
        }
      }
    }
  }

  // ---------------------------------------------------------------- counting what is left to do

  function Unchecked(s: seq<Data>): nat {
    if s == [] then 0 else (if s[0] == UNCHECKED then 1 else 0) + Unchecked(s[1..])
  }

  lemma {:induction false} UncheckedConcat(a: seq<Data>, b: seq<Data>)
    ensures Unchecked(a + b) == Unchecked(a) + Unchecked(b)
  {
    if a == [] {
      assert a + b == b;
    } else {
      assert (a + b)[0] == a[0] && (a + b)[1..] == a[1..] + b;
      UncheckedConcat(a[1..], b);
    }
  }

  lemma {:induction false} NoneUnchecked(s: seq<Data>)
    requires AllChecked(s)
    ensures Unchecked(s) == 0
  {
    if s != [] {
      NoneUnchecked(s[1..]);
    }
  }

  lemma {:induction false} SomeUnchecked(s: seq<Data>, i: nat)
    requires i < |s| && s[i] == UNCHECKED
    ensures Unchecked(s) > 0
  {
    if i > 0 {
      SomeUnchecked(s[1..], i - 1);
    }
  }

  /** Checking an interval that has an unchecked mark leaves fewer of them. */
  lemma CheckedFewer(s: seq<Data>, from: nat, to: nat, u: seq<Data>)
    requires from < to <= |s| && s[from] == UNCHECKED
    requires u == s[..from] + Repeat(to - from, CHECKED) + s[to..]
    ensures Unchecked(u) < Unchecked(s)
  {
    UncheckedConcat(s[..from] + Repeat(to - from, CHECKED), s[to..]);
    UncheckedConcat(s[..from], Repeat(to - from, CHECKED));
    NoneUnchecked(Repeat(to - from, CHECKED));
    assert s == s[..from] + s[from..to] + s[to..] by {
      CutAndGlue(s, to);
      CutAndGlue(s[..to], from);
      assert s[..to][..from] == s[..from] && s[..to][from..] == s[from..to];
    }
    UncheckedConcat(s[..from] + s[from..to], s[to..]);
    UncheckedConcat(s[..from], s[from..to]);
    SomeUnchecked(s[from..to], 0);
  }

  // ---------------------------------------------------------------- lines and identifiers

  predicate StartsLine(text: string, i: nat) {
    i == 0 || (i <= |text| && text[i - 1] == '\n')
  }

  predicate EndsLine(text: string, i: nat) {
    i >= |text| || text[i] == '\n'
  }

  predicate IsWord(alnum: char -> bool, c: char) {
    c == '_' || alnum(c)
  }

  /** Where the backward search from `from` ends: on the first other character, or at the start of the line. */
  ghost predicate BackTo(alnum: char -> bool, text: string, from: nat, b: nat) {
    && b <= from <= |text|
    && (forall i :: b < i < from ==> IsWord(alnum, text[i]))
    && (forall i :: b <= i < from ==> text[i] != '\n')
    && (StartsLine(text, b) || (b < from && !IsWord(alnum, text[b])))
  }

  /** Where the forward search from `to` ends: behind the character at `to` and all identifier characters after it. */
  ghost predicate ForwardTo(alnum: char -> bool, text: string, to: nat, e: nat) {
    && to <= e <= |text|
    && (EndsLine(text, to) <==> e == to)
    && (forall i :: to < i < e ==> IsWord(alnum, text[i]))
    && (e < |text| ==> EndsLine(text, e) || !IsWord(alnum, text[e]))
  }

  /** Where the backward search from `from` ends. */
  function Back(alnum: char -> bool, text: string, from: nat): (b: nat)
    requires from <= |text|
    ensures BackTo(alnum, text, from, b)
  {
    if StartsLine(text, from) then from
    else if !IsWord(alnum, text[from - 1]) then from - 1
    else Back(alnum, text, from - 1)
  }

  function WordEnd(alnum: char -> bool, text: string, i: nat): (e: nat)
    requires i <= |text|
    ensures i <= e <= |text| && (forall k :: i <= k < e ==> IsWord(alnum, text[k]))
    ensures e < |text| ==> !IsWord(alnum, text[e])
    decreases |text| - i
  {
    if i == |text| || !IsWord(alnum, text[i]) then i else WordEnd(alnum, text, i + 1)
  }

  /** Where the forward search from `to` ends. */
  function Ahead(alnum: char -> bool, text: string, to: nat): (e: nat)
    requires to <= |text|
    ensures ForwardTo(alnum, text, to, e)
  {
    if EndsLine(text, to) then to else WordEnd(alnum, text, to + 1)
  }

  /** Behind the line ends from `i` on. */
  function PastLineEnds(text: string, i: nat): (iter: nat)
    requires i <= |text|
    ensures i <= iter <= |text| && (forall k :: i <= k < iter ==> EndsLine(text, k))
    ensures iter == |text| || !EndsLine(text, iter)
    decreases |text| - i
  {
    if i == |text| || text[i] != '\n' then i else PastLineEnds(text, i + 1)
  }

  /** There are newlines from `i` on, as many as there are, up to `j`. */
  predicate NewlinesUpTo(text: string, i: nat, j: nat) {
    && i <= j <= |text| && (forall k :: i <= k < j ==> text[k] == '\n')
    && (j < |text| ==> text[j] != '\n')
  }

  lemma {:induction false} PastLineEndsIs(text: string, i: nat, j: nat)
    requires NewlinesUpTo(text, i, j)
    ensures PastLineEnds(text, i) == j
    decreases j - i
  {
    if i < j {
      PastLineEndsIs(text, i + 1, j);
    }
  }

  lemma OneStart(alnum: char -> bool, text: string, from: nat, b: nat, b2: nat)
    requires BackTo(alnum, text, from, b) && b < b2
    ensures !BackTo(alnum, text, from, b2)
  {
    if b2 <= from {
      assert text[b2 - 1] != '\n';
    }
  }

  lemma OneEnd(alnum: char -> bool, text: string, to: nat, e: nat, e2: nat)
    requires !alnum('\n') && ForwardTo(alnum, text, to, e) && e < e2
    ensures !ForwardTo(alnum, text, to, e2)
  {
    if e2 <= |text| {
      assert EndsLine(text, to) || !IsWord(alnum, text[e]);
    }
  }

  /** Both searches of the engine have one result each. */
  lemma OneRange(alnum: char -> bool, text: string, offset: nat, b: nat, e: nat, b2: nat, e2: nat)
    requires !alnum('\n')
    requires BackTo(alnum, text, offset, b) && ForwardTo(alnum, text, offset, e)
    requires BackTo(alnum, text, offset, b2) && ForwardTo(alnum, text, offset, e2)
    ensures b == b2 && e == e2
  {
    hide *;
    OnlyBack(alnum, text, offset, b, b2);
    OnlyAhead(alnum, text, offset, e, e2);
  }

  lemma OnlyBack(alnum: char -> bool, text: string, from: nat, b: nat, b2: nat)
    requires BackTo(alnum, text, from, b) && BackTo(alnum, text, from, b2)
    ensures b == b2
  {
    hide *;
    if b < b2 {
      OneStart(alnum, text, from, b, b2);
    }
    if b2 < b {
      OneStart(alnum, text, from, b2, b);
    }
  }

  lemma OnlyAhead(alnum: char -> bool, text: string, to: nat, e: nat, e2: nat)
    requires !alnum('\n') && ForwardTo(alnum, text, to, e) && ForwardTo(alnum, text, to, e2)
    ensures e == e2
  {
    hide *;
    if e < e2 {
      OneEnd(alnum, text, to, e, e2);
    }
    if e2 < e {
      OneEnd(alnum, text, to, e2, e);
    }
  }

  /**
   * What the searches find: back to the start of the line or the first character on the way that cannot be in an
   * identifier, which is included; ahead behind the character at `to`, unless the line ends there, and behind all
   * characters after it that can be in an identifier.
   */
  lemma GrownMeans(alnum: char -> bool, text: string, from: nat, to: nat, b: nat, e: nat)
    requires !alnum('\n') && from <= to && BackTo(alnum, text, from, b) && ForwardTo(alnum, text, to, e)
    ensures b <= from && to <= e <= |text|
    ensures forall i :: b <= i < from || to <= i < e ==> text[i] != '\n'
    ensures forall i :: b < i < from || to < i < e ==> text[i] == '_' || alnum(text[i])
    ensures b == 0 || text[b - 1] == '\n' || (b < from && text[b] != '_' && !alnum(text[b]))
    ensures e == to <==> to == |text| || text[to] == '\n'
    ensures to < e < |text| ==> text[e] != '_' && !alnum(text[e])
  {
  }

  /** `[x, y)` is a whole identifier of the text: letters, digits and underscores, as many as there are. */
  ghost predicate Identifier(alnum: char -> bool, text: string, x: nat, y: nat) {
    && x < y <= |text|
    && (forall i :: x <= i < y ==> text[i] == '_' || alnum(text[i]))
    && (x > 0 ==> text[x - 1] != '_' && !alnum(text[x - 1]))
    && (y < |text| ==> text[y] != '_' && !alnum(text[y]))
  }

  /** Every identifier that touches `[from, to]` lies within the extended range. */
  lemma IdentifierCovered(alnum: char -> bool, text: string, from: nat, to: nat, b: nat, e: nat, x: nat, y: nat)
    requires !alnum('\n')
    requires from <= to && BackTo(alnum, text, from, b) && ForwardTo(alnum, text, to, e)
    requires Identifier(alnum, text, x, y) && x <= to && from <= y
    ensures b <= x && y <= e
  {
    assert forall k :: x <= k < y ==> k < |text| && IsWord(alnum, text[k]);
  }
}
