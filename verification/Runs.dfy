/** Runs of text inside one leaf of a region, and the two loops that edit them. */
module Runs {

  /** The payload of a run: a pointer that is only ever compared. */
  type Data = int

  datatype Run = Run(length: nat, data: Data)

  /** The region's join callback; a NULL callback is `NEVER_JOIN`. */
  type JoinFunc = (nat, Run, Run) -> bool

  const NEVER_JOIN: JoinFunc := (o: nat, l: Run, r: Run) => false

  const MAX_RUNS: nat := 26
  const MIN_RUNS: nat := MAX_RUNS / 3

  /** The callback only accepts runs carrying the same data. */
  ghost predicate SoundJoin(join: JoinFunc) {
    forall o: nat, l: Run, r: Run :: join(o, l, r) ==> l.data == r.data
  }

  /** The callback accepts every two runs carrying the same data. */
  ghost predicate EagerJoin(join: JoinFunc) {
    forall o: nat, l: Run, r: Run :: l.data == r.data ==> join(o, l, r)
  }

  ghost predicate RefusesAll(join: JoinFunc) {
    forall o: nat, l: Run, r: Run :: !join(o, l, r)
  }

  predicate Positive(runs: seq<Run>) {
    forall i :: 0 <= i < |runs| ==> runs[i].length > 0
  }

  predicate Differ(runs: seq<Run>, i: nat)
    requires 0 < i < |runs|
  {
    runs[i - 1].data != runs[i].data
  }

  /** No two neighbouring runs carry the same data. */
  predicate Merged(runs: seq<Run>) {
    forall i :: 0 < i < |runs| ==> Differ(runs, i)
  }

  lemma Neighbours(runs: seq<Run>, i: nat)
    requires Merged(runs) && i < |runs|
    ensures i > 0 ==> runs[i - 1].data != runs[i].data
    ensures i + 1 < |runs| ==> runs[i].data != runs[i + 1].data
  {
    assert i > 0 ==> Differ(runs, i);
    assert i + 1 < |runs| ==> Differ(runs, i + 1);
  }

  function Repeat(n: nat, d: Data): (s: seq<Data>)
    ensures |s| == n
    ensures forall i :: 0 <= i < n ==> s[i] == d
  {
    seq(n, i => d)
  }

  function Total(runs: seq<Run>): nat {
    if runs == [] then 0 else runs[0].length + Total(runs[1..])
  }

  /** One entry per character: the flat sequence a list of runs stands for. */
  function Expand(runs: seq<Run>): (s: seq<Data>)
    ensures |s| == Total(runs)
  {
    if runs == [] then [] else Repeat(runs[0].length, runs[0].data) + Expand(runs[1..])
  }

  lemma {:induction false} ExpandConcat(a: seq<Run>, b: seq<Run>)
    ensures Expand(a + b) == Expand(a) + Expand(b)
    ensures Total(a + b) == Total(a) + Total(b)
  {
    if a == [] {
      assert a + b == b;
    } else {
      assert (a + b)[1..] == a[1..] + b;
      ExpandConcat(a[1..], b);
      assert Expand(a + b) == Repeat(a[0].length, a[0].data) + (Expand(a[1..]) + Expand(b));
    }
  }

  lemma Assoc<T>(a: seq<T>, b: seq<T>, c: seq<T>)
    ensures a + (b + c) == (a + b) + c
  {
  }

  lemma ExpandOne(r: Run)
    ensures Expand([r]) == Repeat(r.length, r.data)
    ensures Total([r]) == r.length
  {
    assert [r][1..] == [];
  }

  lemma Around<T>(s: seq<T>, i: nat)
    requires i < |s|
    ensures s[..i] + [s[i]] + s[i + 1..] == s
    ensures s[..i] + [s[i]] == s[..i + 1]
  {
  }

  lemma ExpandAround(a: seq<Run>, r: Run, b: seq<Run>)
    ensures Expand(a + [r] + b) == Expand(a) + Repeat(r.length, r.data) + Expand(b)
    ensures Total(a + [r] + b) == Total(a) + r.length + Total(b)
    ensures Total(a + [r]) == Total(a) + r.length
  {
    ExpandConcat(a + [r], b);
    ExpandConcat(a, [r]);
    ExpandOne(r);
  }

  /** The list of runs read as a prefix, one run and a suffix. */
  lemma ExpandAt(runs: seq<Run>, i: nat)
    requires i < |runs|
    ensures Expand(runs) == Expand(runs[..i]) + Repeat(runs[i].length, runs[i].data) + Expand(runs[i + 1..])
    ensures Total(runs) == Total(runs[..i]) + runs[i].length + Total(runs[i + 1..])
    ensures Total(runs[..i + 1]) == Total(runs[..i]) + runs[i].length
  {
    Around(runs, i);
    ExpandAround(runs[..i], runs[i], runs[i + 1..]);
  }

  lemma TotalAt(runs: seq<Run>, i: nat)
    requires i < |runs|
    ensures Total(runs[..i + 1]) == Total(runs[..i]) + runs[i].length
    ensures Total(runs[..i + 1]) <= Total(runs)
  {
    ExpandAt(runs, i);
  }

  lemma {:induction false} TotalMonotone(runs: seq<Run>, i: nat, j: nat)
    requires i <= j <= |runs|
    ensures Total(runs[..i]) <= Total(runs[..j])
  {
    assert runs[..j] == runs[..i] + runs[i..j];
    ExpandConcat(runs[..i], runs[i..j]);
  }

  lemma PositiveTotal(runs: seq<Run>)
    requires Positive(runs)
    ensures Total(runs) == 0 <==> runs == []
  {
  }

  /** Replaces the elements `[i, j)` of a list by `mid`. */
  function Splice<T>(s: seq<T>, i: nat, j: nat, mid: seq<T>): seq<T>
    requires i <= j <= |s|
  {
    s[..i] + mid + s[j..]
  }

  lemma ExpandSplice(runs: seq<Run>, i: nat, j: nat, mid: seq<Run>)
    requires i <= j <= |runs|
    ensures Expand(Splice(runs, i, j, mid)) == Expand(runs[..i]) + Expand(mid) + Expand(runs[j..])
  {
    ExpandConcat(runs[..i] + mid, runs[j..]);
    ExpandConcat(runs[..i], mid);
  }

  /** Where two runs meet, or either end of the list. */
  ghost predicate OnBoundary(runs: seq<Run>, within: nat) {
    exists i :: 0 <= i <= |runs| && Total(runs[..i]) == within
  }

  // ---------------------------------------------------------------- cutting a list of runs

  /** A run of `k` characters, or none. */
  function Part(k: nat, d: Data): seq<Run> {
    if k == 0 then [] else [Run(k, d)]
  }

  /** The runs of the first `p` characters; the last one may be cut. */
  function TakeRuns(runs: seq<Run>, p: nat): seq<Run> {
    if runs == [] || p == 0 then []
    else if p < runs[0].length then [Run(p, runs[0].data)]
    else [runs[0]] + TakeRuns(runs[1..], p - runs[0].length)
  }

  /** The runs of the characters from `p` on; the first one may be cut. */
  function DropRuns(runs: seq<Run>, p: nat): seq<Run> {
    if runs == [] || p == 0 then runs
    else if p < runs[0].length then [Run(runs[0].length - p, runs[0].data)] + runs[1..]
    else DropRuns(runs[1..], p - runs[0].length)
  }

  /** The runs with `x` put in at `p`, joined to nothing. */
  function With(runs: seq<Run>, p: nat, x: Run): seq<Run> {
    TakeRuns(runs, p) + [x] + DropRuns(runs, p)
  }

  /** The runs without the characters `[from, to)`, with nothing joined where they were. */
  function Without(runs: seq<Run>, from: nat, to: nat): seq<Run> {
    TakeRuns(runs, from) + DropRuns(runs, to)
  }

  lemma {:induction false} TotalCuts(runs: seq<Run>, p: nat)
    requires p <= Total(runs)
    ensures Total(TakeRuns(runs, p)) == p && Total(DropRuns(runs, p)) == Total(runs) - p
  {
    if runs != [] && p >= runs[0].length {
      TotalCuts(runs[1..], p - runs[0].length);
    }
  }

  /** Cutting `k` characters into run `i`. */
  lemma {:induction false} CutsAt(runs: seq<Run>, i: nat, k: nat, p: nat)
    requires i < |runs| && k <= runs[i].length && p == Total(runs[..i]) + k && Positive(runs)
    ensures p <= Total(runs)
    ensures TakeRuns(runs, p) == runs[..i] + Part(k, runs[i].data)
    ensures DropRuns(runs, p) == Part(runs[i].length - k, runs[i].data) + runs[i + 1..]
  {
    if i == 0 {
      assert k == runs[0].length ==> DropRuns(runs[1..], 0) == runs[1..];
    } else {
      assert runs[..i][1..] == runs[1..][..i - 1] && runs[..i][0] == runs[0];
      CutsAt(runs[1..], i - 1, k, p - runs[0].length);
      assert runs[..i] == [runs[0]] + runs[1..][..i - 1];
    }
  }

  lemma {:induction false} TakeConcat(a: seq<Run>, b: seq<Run>, p: nat)
    requires Positive(a)
    ensures TakeRuns(a + b, Total(a) + p) == a + TakeRuns(b, p)
    ensures DropRuns(a + b, Total(a) + p) == DropRuns(b, p)
  {
    if a == [] {
      assert a + b == b && a + TakeRuns(b, p) == TakeRuns(b, p);
    } else {
      var rest := a[1..] + b;
      assert (a + b)[1..] == rest && (a + b)[0] == a[0];
      TakeConcat(a[1..], b, p);
      CutPast(a + b, Total(a) + p);
      assert [a[0]] + (a[1..] + TakeRuns(b, p)) == a + TakeRuns(b, p);
    }
  }

  lemma CutPast(runs: seq<Run>, p: nat)
    requires runs != [] && 0 < runs[0].length <= p
    ensures TakeRuns(runs, p) == [runs[0]] + TakeRuns(runs[1..], p - runs[0].length)
    ensures DropRuns(runs, p) == DropRuns(runs[1..], p - runs[0].length)
  {
  }

  lemma CutNothing(runs: seq<Run>)
    ensures TakeRuns(runs, 0) == [] && DropRuns(runs, 0) == runs
  {
  }

  lemma {:induction false} TakeFirst(a: seq<Run>, b: seq<Run>, p: nat)
    requires p <= Total(a) && Positive(a)
    ensures TakeRuns(a + b, p) == TakeRuns(a, p) && DropRuns(a + b, p) == DropRuns(a, p) + b
  {
    if a == [] || p == 0 {
      CutNothing(a + b);
      CutNothing(a);
    } else {
      assert (a + b)[1..] == a[1..] + b && (a + b)[0] == a[0];
      if p >= a[0].length {
        TakeFirst(a[1..], b, p - a[0].length);
        CutPast(a + b, p);
        CutPast(a, p);
      }
    }
  }

  /** Cutting inside the middle part of a list cuts that part. */
  lemma CutsInside(a: seq<Run>, m: seq<Run>, b: seq<Run>, p: nat, q: nat)
    requires p <= Total(m) && q == Total(a) + p && Positive(a) && Positive(m)
    ensures q <= Total(a + m + b)
    ensures TakeRuns(a + m + b, q) == a + TakeRuns(m, p)
    ensures DropRuns(a + m + b, q) == DropRuns(m, p) + b
  {
    hide *;
    TakeFirst(m, b, p);
    TakeConcat(a, m + b, p);
    ExpandConcat(m, b);
    ExpandConcat(a, m + b);
    Assoc(a, m, b);
  }

  /** What is taken stays between two runs or ends on one, whatever follows. */
  lemma TakenBoundary(runs: seq<Run>, p: nat, rest: seq<Run>)
    requires p <= Total(runs)
    ensures OnBoundary(TakeRuns(runs, p) + rest, p)
  {
    var t := TakeRuns(runs, p);
    TotalCuts(runs, p);
    assert (t + rest)[..|t|] == t;
  }

  lemma WithoutIs(runs: seq<Run>, from: nat, to: nat)
    requires from <= to <= Total(runs) && Positive(runs)
    ensures Without(runs, from, to) == TakeRuns(runs, from) + DropRuns(runs, to)
    ensures Total(TakeRuns(runs, from)) == from && Positive(TakeRuns(runs, from))
    ensures Total(Without(runs, from, to)) == Total(runs) - (to - from)
  {
    hide TakeRuns, DropRuns, Total;
    TotalCuts(runs, from);
    TotalCuts(runs, to);
    PositiveCuts(runs, from);
    ExpandConcat(TakeRuns(runs, from), DropRuns(runs, to));
  }

  /** Cutting out at one place twice is cutting out once. */
  lemma WithoutTwice(runs: seq<Run>, from: nat, k: nat, rest: nat, all: seq<Run>)
    requires from + k + rest <= Total(runs) && Positive(runs) && all == Without(runs, from, from + k)
    ensures Without(all, from, from + rest) == Without(runs, from, from + k + rest)
  {
    hide TakeRuns, DropRuns, Total, Positive;
    var mid := from + k;
    WithoutIs(runs, from, mid);
    var a, b := TakeRuns(runs, from), DropRuns(runs, mid);
    TakeConcat(a, b, 0);
    TakeConcat(a, b, rest);
    CutNothing(b);
    DropTwice(runs, mid, rest);
    assert a + [] == a;
  }

  lemma {:induction false} PositiveCuts(runs: seq<Run>, p: nat)
    requires p <= Total(runs) && Positive(runs)
    ensures Positive(TakeRuns(runs, p)) && Positive(DropRuns(runs, p))
  {
    if runs != [] && p >= runs[0].length {
      PositiveCuts(runs[1..], p - runs[0].length);
    }
  }

  lemma {:induction false} DropTwice(runs: seq<Run>, p: nat, q: nat)
    requires p + q <= Total(runs) && Positive(runs)
    ensures DropRuns(DropRuns(runs, p), q) == DropRuns(runs, p + q)
  {
    if runs != [] && p >= runs[0].length {
      DropTwice(runs[1..], p - runs[0].length, q);
    }
  }

  /** Runs that are cut and put together stand for the data that are. */
  lemma {:induction false} ExpandCuts(runs: seq<Run>, p: nat)
    requires p <= Total(runs) && Positive(runs)
    ensures Expand(TakeRuns(runs, p)) == Expand(runs)[..p] && Expand(DropRuns(runs, p)) == Expand(runs)[p..]
  {
    hide *;
    if runs == [] || p == 0 {
      ExpandCutNone(runs, p);
    } else if p < runs[0].length {
      ExpandCutFirst(runs, p);
    } else {
      var q := p - runs[0].length;
      PastFirst(runs);
      ExpandCuts(runs[1..], q);
      CutPast(runs, p);
      ExpandConcat([runs[0]], TakeRuns(runs[1..], q));
      ExpandOne(runs[0]);
      CutTwo(Expand(runs), Repeat(runs[0].length, runs[0].data), Expand(runs[1..]), q, p);
    }
  }

  lemma PastFirst(runs: seq<Run>)
    requires runs != [] && Positive(runs)
    ensures Total(runs) == runs[0].length + Total(runs[1..]) && runs[0].length > 0 && Positive(runs[1..])
    ensures Expand(runs) == Repeat(runs[0].length, runs[0].data) + Expand(runs[1..])
    ensures |Repeat(runs[0].length, runs[0].data)| == runs[0].length && |Expand(runs[1..])| == Total(runs[1..])
  {
  }

  lemma ExpandCutNone(runs: seq<Run>, p: nat)
    requires (runs == [] || p == 0) && p <= |Expand(runs)|
    ensures Expand(TakeRuns(runs, p)) == Expand(runs)[..p] && Expand(DropRuns(runs, p)) == Expand(runs)[p..]
  {
  }

  lemma ExpandCutFirst(runs: seq<Run>, p: nat)
    requires runs != [] && 0 < p < runs[0].length && p <= |Expand(runs)|
    ensures Expand(TakeRuns(runs, p)) == Expand(runs)[..p] && Expand(DropRuns(runs, p)) == Expand(runs)[p..]
  {
    hide *;
    var a, b := Run(p, runs[0].data), Run(runs[0].length - p, runs[0].data);
    CutFirst(runs, p);
    NothingBefore(runs);
    FlatPrefix(runs, 0, p, p);
    ExpandOne(a);
    ExpandConcat([b], runs[1..]);
    ExpandOne(b);
  }

  lemma NothingBefore(runs: seq<Run>)
    ensures Total(runs[..0]) == 0 && Expand(runs[..0]) == [] && forall s: seq<Data> :: Expand(runs[..0]) + s == s
  {
  }

  lemma CutFirst(runs: seq<Run>, p: nat)
    requires runs != [] && 0 < p < runs[0].length
    ensures TakeRuns(runs, p) == [Run(p, runs[0].data)]
    ensures DropRuns(runs, p) == [Run(runs[0].length - p, runs[0].data)] + runs[1..]
  {
  }

  lemma CutTwo<T>(s: seq<T>, a: seq<T>, b: seq<T>, q: nat, p: nat)
    requires s == a + b && q <= |b| && p == |a| + q
    ensures s[..p] == a + b[..q] && s[p..] == b[q..]
  {
  }

  /** The flat sequence with a run put in at a position. */
  function InsertFlat(s: seq<Data>, at: nat, r: Run): seq<Data>
    requires at <= |s|
  {
    s[..at] + Repeat(r.length, r.data) + s[at..]
  }

  /** The flat sequence without the characters `[from, to)`. */
  function RemoveFlat(s: seq<Data>, from: nat, to: nat): seq<Data>
    requires from <= to <= |s|
  {
    s[..from] + s[to..]
  }


  /** Putting `x` in the middle piece of a flat text is putting it in the text. */
  lemma FlatCut(s: seq<Data>, a: seq<Data>, m: seq<Data>, b: seq<Data>, k: nat, p: nat, r: seq<Data>)
    requires s == a + m + b && k <= |m| && p == |a| + k
    ensures p <= |s| && s[..p] + r + s[p..] == a + (m[..k] + r + m[k..]) + b
  {
  }

  /** Every way of putting the new run next to, or into, run `i` stands for the same flat text. */
  lemma InsertedAt(runs: seq<Run>, i: nat, k: nat, x: Run, mid: seq<Run>, p: nat)
    requires i < |runs| && k <= runs[i].length && p == Total(runs[..i]) + k
    requires var d := Repeat(runs[i].length, runs[i].data);
      Expand(mid) == d[..k] + Repeat(x.length, x.data) + d[k..]
    ensures p <= Total(runs)
    ensures Expand(Splice(runs, i, i + 1, mid)) == InsertFlat(Expand(runs), p, x)
  {
    ExpandAt(runs, i);
    ExpandSplice(runs, i, i + 1, mid);
    FlatCut(Expand(runs), Expand(runs[..i]), Repeat(runs[i].length, runs[i].data), Expand(runs[i + 1..]), k, p,
            Repeat(x.length, x.data));
  }

  lemma Expand2(a: Run, b: Run)
    ensures Expand([a, b]) == Repeat(a.length, a.data) + Repeat(b.length, b.data)
  {
    assert [a, b] == [a] + [b];
    ExpandConcat([a], [b]);
    ExpandOne(a);
    ExpandOne(b);
  }

  lemma Expand3(a: Run, b: Run, c: Run)
    ensures Expand([a, b, c]) == Repeat(a.length, a.data) + Repeat(b.length, b.data) + Repeat(c.length, c.data)
  {
    assert [a, b, c] == [a] + [b, c];
    ExpandConcat([a], [b, c]);
    ExpandOne(a);
    Expand2(b, c);
  }

  /** What replacing run `i` by the runs `mid` keeps of the list's shape. */
  lemma SpliceShape(runs: seq<Run>, i: nat, mid: seq<Run>)
    requires i < |runs| && Positive(runs) && Positive(mid)
    ensures Positive(Splice(runs, i, i + 1, mid))
    ensures |Splice(runs, i, i + 1, mid)| == |runs| + |mid| - 1
  {
  }

  lemma SpliceMerged(runs: seq<Run>, i: nat, mid: seq<Run>)
    requires i < |runs| && Merged(runs)
    requires mid != [] && Merged(mid)
    requires i > 0 ==> runs[i - 1].data != mid[0].data
    requires i + 1 < |runs| ==> mid[|mid| - 1].data != runs[i + 1].data
    ensures Merged(Splice(runs, i, i + 1, mid))
  {
    var out := Splice(runs, i, i + 1, mid);
    forall b | 0 < b < |out|
      ensures Differ(out, b)
    {
      if b < i {
        assert Differ(runs, b);
      } else if i + |mid| < b {
        assert Differ(runs, b - |mid| + 1);
      } else if i < b < i + |mid| {
        assert Differ(mid, b - i);
      }
    }
  }

  /** `mid` may stand in for run `i` of a merged list without creating equal neighbours. */
  ghost predicate Fits(runs: seq<Run>, i: nat, mid: seq<Run>)
    requires i < |runs| && mid != []
  {
    && Merged(mid)
    && (i > 0 ==> runs[i - 1].data != mid[0].data)
    && (i + 1 < |runs| ==> mid[|mid| - 1].data != runs[i + 1].data)
  }

  /** Everything the insertion needs to know about replacing run `i` by `mid`. */
  ghost predicate Inserted(runs: seq<Run>, i: nat, x: Run, mid: seq<Run>, p: nat)
    requires i < |runs| && mid != []
  {
    var out := Splice(runs, i, i + 1, mid);
    && Positive(out)
    && |out| == |runs| + |mid| - 1
    && p <= Total(runs) && Expand(out) == InsertFlat(Expand(runs), p, x)
    && (Merged(runs) && Fits(runs, i, mid) ==> Merged(out))
  }

  lemma Replaced(runs: seq<Run>, i: nat, k: nat, x: Run, mid: seq<Run>, p: nat)
    requires i < |runs| && k <= runs[i].length && mid != [] && p == Total(runs[..i]) + k
    requires Positive(runs) && Positive(mid)
    requires
      var d := Repeat(runs[i].length, runs[i].data);
      Expand(mid) == d[..k] + Repeat(x.length, x.data) + d[k..]
    ensures Inserted(runs, i, x, mid, p)
  {
    SpliceShape(runs, i, mid);
    InsertedAt(runs, i, k, x, mid, p);
    if Merged(runs) && Fits(runs, i, mid) {
      SpliceMerged(runs, i, mid);
    }
  }

  lemma InsideIsNotBoundary(runs: seq<Run>, i: nat, within: nat)
    requires i < |runs|
    requires Total(runs[..i]) < within < Total(runs[..i + 1])
    ensures !OnBoundary(runs, within)
  {
    forall k | 0 <= k <= |runs|
      ensures Total(runs[..k]) != within
    {
      if k <= i {
        TotalMonotone(runs, k, i);
      } else {
        TotalMonotone(runs, i + 1, k);
      }
    }
  }

  /** Run `i` grown by an equal-data run, wherever in it the new text lands. */
  lemma GrownRun(runs: seq<Run>, i: nat, k: nat, x: Run, joined: Run, p: nat)
    requires i < |runs| && k <= runs[i].length && p == Total(runs[..i]) + k && Positive(runs)
    requires x.data == runs[i].data == joined.data && joined.length == runs[i].length + x.length
    ensures Inserted(runs, i, x, [joined], p)
  {
    ExpandOne(joined);
    Replaced(runs, i, k, x, [joined], p);
  }

  /** The new run placed at either end of run `i`. */
  lemma PairedRun(runs: seq<Run>, i: nat, k: nat, x: Run, mid: seq<Run>, p: nat)
    requires i < |runs| && k <= runs[i].length && p == Total(runs[..i]) + k
    requires Positive(runs) && x.length > 0
    requires (k == 0 && mid == [x, runs[i]]) || (k == runs[i].length && mid == [runs[i], x])
    ensures Inserted(runs, i, x, mid, p)
  {
    Expand2(mid[0], mid[1]);
    Replaced(runs, i, k, x, mid, p);
  }

  lemma WithAt(runs: seq<Run>, i: nat, k: nat, p: nat, x: Run)
    requires i < |runs| && 0 < k <= runs[i].length && p == Total(runs[..i]) + k && Positive(runs)
    ensures With(runs, p, x) == Splice(runs, i, i + 1,
      [Run(k, runs[i].data), x] + Part(runs[i].length - k, runs[i].data))
  {
    CutsAt(runs, i, k, p);
  }

  function JoinedBefore(join: JoinFunc, offset: nat, runs: seq<Run>, x: Run): seq<Run>
    requires runs != []
  {
    Splice(runs, 0, 1, if join(offset, x, runs[0]) then [Run(x.length + runs[0].length, x.data)] else [x, runs[0]])
  }

  function JoinedAfter(join: JoinFunc, offset: nat, runs: seq<Run>, i: nat, x: Run): seq<Run>
    requires i < |runs|
  {
    if join(offset, runs[i], x) then Splice(runs, i, i + 1, [Run(runs[i].length + x.length, runs[i].data)])
    else if i + 1 < |runs| && join(offset, x, runs[i + 1]) then
      Splice(runs, i + 1, i + 2, [Run(x.length + runs[i + 1].length, x.data)])
    else Splice(runs, i, i + 1, [runs[i], x])
  }

  function JoinedInside(join: JoinFunc, offset: nat, runs: seq<Run>, i: nat, cut: nat, x: Run): seq<Run>
    requires i < |runs| && cut <= runs[i].length && cut <= offset
  {
    var left, right := Run(cut, runs[i].data), Run(runs[i].length - cut, runs[i].data);
    var (middle, tail) := if join(offset, x, right) then (Run(x.length + right.length, x.data), []) else (x, [right]);
    var joined := Run(left.length + middle.length, left.data);
    var head := if join(offset - cut, left, middle) then [joined] else [left, middle];
    Splice(runs, i, i + 1, head + tail)
  }

  /** The first run that reaches up to `within`. */
  function RunAt(runs: seq<Run>, within: nat): (i: nat)
    requires runs != []
    ensures i < |runs|
  {
    if within <= runs[0].length || |runs| == 1 then 0 else 1 + RunAt(runs[1..], within - runs[0].length)
  }

  lemma {:induction false} RunAtIs(runs: seq<Run>, i: nat, within: nat)
    requires i < |runs| && Positive(runs) && within <= Total(runs[..i + 1]) && (i > 0 ==> Total(runs[..i]) < within)
    ensures RunAt(runs, within) == i
  {
    TotalTail(runs, i);
    if i == 0 {
      assert runs[1..][..0] == [];
    } else {
      TotalTail(runs, i - 1);
      RunAtIs(runs[1..], i - 1, within - runs[0].length);
    }
  }

  /** The runs of a leaf with `x` put in at `within`, joined to its neighbours as far as the callback goes. */
  function Joining(join: JoinFunc, offset: nat, runs: seq<Run>, within: nat, x: Run): seq<Run>
    requires within <= offset
  {
    if runs == [] then [x]
    else if within == 0 then JoinedBefore(join, offset, runs, x)
    else
      var i := RunAt(runs, within);
      var cut := within - Total(runs[..i]);
      if cut == runs[i].length then JoinedAfter(join, offset, runs, i, x)
      else if 0 < cut < runs[i].length then JoinedInside(join, offset, runs, i, cut, x)
      else runs
  }

  lemma WithAfter(runs: seq<Run>, i: nat, p: nat, x: Run)
    requires i < |runs| && Positive(runs) && p == Total(runs[..i]) + runs[i].length
    ensures With(runs, p, x) == Splice(runs, i, i + 1, [runs[i], x])
  {
    hide With, Splice;
    WithAt(runs, i, runs[i].length, p, x);
    assert [runs[i], x] + [] == [runs[i], x];
  }

  lemma WithInside(runs: seq<Run>, i: nat, cut: nat, p: nat, x: Run)
    requires i < |runs| && Positive(runs) && 0 < cut < runs[i].length && p == Total(runs[..i]) + cut
    ensures
      var left, right := Run(cut, runs[i].data), Run(runs[i].length - cut, runs[i].data);
      With(runs, p, x) == Splice(runs, i, i + 1, [left, x, right])
  {
    hide With, Splice;
    WithAt(runs, i, cut, p, x);
    var left, right := Run(cut, runs[i].data), Run(runs[i].length - cut, runs[i].data);
    assert [left, x] + [right] == [left, x, right];
  }

  lemma WithFirst(runs: seq<Run>, x: Run)
    requires runs != []
    ensures With(runs, 0, x) == Splice(runs, 0, 1, [x, runs[0]])
  {
    CutNothing(runs);
  }

  /** The new run lands in front of the first run: extend that run or go before it. */
  method InsertBefore(join: JoinFunc, offset: nat, runs: seq<Run>, x: Run) returns (out: seq<Run>)
    requires SoundJoin(join)
    requires runs != [] && Positive(runs) && x.length > 0
    ensures Positive(out)
    ensures Expand(out) == InsertFlat(Expand(runs), 0, x)
    ensures |runs| <= |out| <= |runs| + 1
    ensures RefusesAll(join) ==> |out| == |runs| + 1 && out == With(runs, 0, x)
    ensures out == JoinedBefore(join, offset, runs, x)
    ensures |out| == |runs| + if join(offset, x, runs[0]) then 0 else 1
    ensures EagerJoin(join) && Merged(runs) ==> Merged(out)
  {
    hide TakeRuns, DropRuns, Total, Expand, InsertFlat, Repeat, With;
    NothingBefore(runs);
    WithFirst(runs, x);
    if Merged(runs) {
      Neighbours(runs, 0);
    }
    var run := runs[0];
    var mid;
    if join(offset, x, run) {
      mid := [Run(x.length + run.length, x.data)];
      GrownRun(runs, 0, 0, x, mid[0], 0);
    } else {
      mid := [x, run];
      PairedRun(runs, 0, 0, x, mid, 0);
    }
    out := Splice(runs, 0, 1, mid);
  }

  /** The new run lands right after run `i`: extend it, extend the next one, or go in between. */
  method InsertAfter(join: JoinFunc, offset: nat, runs: seq<Run>, i: nat, x: Run, ghost p: nat) returns (out: seq<Run>)
    requires SoundJoin(join)
    requires i < |runs| && Positive(runs) && x.length > 0
    requires p == Total(runs[..i + 1]) == Total(runs[..i]) + runs[i].length
    ensures Positive(out)
    ensures p <= Total(runs) && Expand(out) == InsertFlat(Expand(runs), p, x)
    ensures |runs| <= |out| <= |runs| + 1
    ensures RefusesAll(join) ==> |out| == |runs| + 1 && out == With(runs, p, x)
    ensures out == JoinedAfter(join, offset, runs, i, x)
    ensures
      var joins := join(offset, runs[i], x) || (i + 1 < |runs| && join(offset, x, runs[i + 1]));
      |out| == |runs| + if joins then 0 else 1
    ensures EagerJoin(join) && Merged(runs) ==> Merged(out)
  {
    hide TakeRuns, DropRuns, Total, Expand, InsertFlat, Repeat, With, Part, Positive;
    WithAfter(runs, i, p, x);
    var run := runs[i];
    if Merged(runs) {
      Neighbours(runs, i);
    }
    var j := i;
    var mid;
    if join(offset, run, x) {
      mid := [Run(run.length + x.length, run.data)];
      GrownRun(runs, i, run.length, x, mid[0], p);
    } else if i + 1 < |runs| && join(offset, x, runs[i + 1]) {
      j := i + 1;
      mid := [Run(x.length + runs[j].length, x.data)];
      GrownRun(runs, j, 0, x, mid[0], p);
      if Merged(runs) {
        Neighbours(runs, j);
      }
    } else {
      mid := [run, x];
      PairedRun(runs, i, run.length, x, mid, p);
    }
    out := Splice(runs, j, j + 1, mid);
  }

  /** The new run lands strictly inside run `i`, which is cut in two around it. */
  method InsertInside(join: JoinFunc, offset: nat, runs: seq<Run>, i: nat, cut: nat, x: Run, ghost p: nat)
    returns (out: seq<Run>)
    requires SoundJoin(join)
    requires i < |runs| && Positive(runs) && x.length > 0
    requires 0 < cut < runs[i].length && cut <= offset && p == Total(runs[..i]) + cut
    ensures Positive(out)
    ensures p <= Total(runs) && Expand(out) == InsertFlat(Expand(runs), p, x)
    ensures |runs| <= |out| <= |runs| + 2
    ensures RefusesAll(join) ==> |out| == |runs| + 2 && out == With(runs, p, x)
    ensures out == JoinedInside(join, offset, runs, i, cut, x)
    ensures
      var left, right := Run(cut, runs[i].data), Run(runs[i].length - cut, runs[i].data);
      var joins := join(offset, x, right);
      var middle := if joins then Run(x.length + right.length, x.data) else x;
      |out| == |runs| + (if joins then 0 else 1) + if join(offset - cut, left, middle) then 0 else 1
    ensures EagerJoin(join) && Merged(runs) ==> Merged(out)
  {
    hide TakeRuns, DropRuns, Total, Expand, InsertFlat, Repeat, With, Part;
    WithInside(runs, i, cut, p, x);
    if Merged(runs) {
      Neighbours(runs, i);
    }
    var run := runs[i];
    var left := Run(cut, run.data);
    var right := Run(run.length - cut, run.data);
    var toInsert := x;
    var tail := [];
    if join(offset, toInsert, right) {
      toInsert := Run(toInsert.length + right.length, toInsert.data);
    } else {
      tail := [right];
    }
    var mid;
    if join(offset - cut, left, toInsert) {
      mid := [Run(left.length + toInsert.length, left.data)] + tail;
    } else {
      mid := [left, toInsert] + tail;
    }
    CutRun(runs, i, cut, x, mid, p);
    out := Splice(runs, i, i + 1, mid);
  }

  lemma RepeatCut(n: nat, d: Data, k: nat)
    requires k <= n
    ensures Repeat(n, d)[..k] == Repeat(k, d)
    ensures Repeat(n, d)[k..] == Repeat(n - k, d)
  {
  }

  /** The four outcomes of cutting run `i` around an insertion all stand for the same text. */
  lemma CutRun(runs: seq<Run>, i: nat, cut: nat, x: Run, mid: seq<Run>, p: nat)
    requires i < |runs| && 0 < cut < runs[i].length && p == Total(runs[..i]) + cut
    requires Positive(runs) && x.length > 0
    requires
      var l, r := Run(cut, runs[i].data), Run(runs[i].length - cut, runs[i].data);
      || mid == [l, x, r]
      || (x.data == l.data && mid == [l, Run(x.length + r.length, x.data)])
      || (x.data == l.data && mid == [Run(l.length + x.length, l.data), r])
      || (x.data == l.data && mid == [Run(l.length + (x.length + r.length), l.data)])
    ensures Inserted(runs, i, x, mid, p)
  {
    if |mid| == 3 {
      Expand3(mid[0], mid[1], mid[2]);
      assert mid == [mid[0], mid[1], mid[2]];
    } else if |mid| == 2 {
      Expand2(mid[0], mid[1]);
      assert mid == [mid[0], mid[1]];
    } else {
      ExpandOne(mid[0]);
      assert mid == [mid[0]];
    }
    RepeatCut(runs[i].length, runs[i].data, cut);
    Replaced(runs, i, cut, x, mid, p);
  }

  /** The insertion loop over one leaf that already holds runs. */
  method InsertIntoRuns(join: JoinFunc, offset: nat, runs: seq<Run>, within: nat, x: Run)
    returns (out: seq<Run>)
    requires SoundJoin(join)
    requires runs != [] && Positive(runs) && x.length > 0
    requires within <= Total(runs) && within <= offset
    ensures Positive(out)
    ensures Expand(out) == InsertFlat(Expand(runs), within, x)
    ensures |runs| <= |out| <= |runs| + 2
    ensures RefusesAll(join) ==>
      |out| == |runs| + (if OnBoundary(runs, within) then 1 else 2) && out == With(runs, within, x)
    ensures out == Joining(join, offset, runs, within, x)
    ensures EagerJoin(join) && Merged(runs) ==> Merged(out)
  {
    hide With, SoundJoin, TakeRuns, DropRuns, EagerJoin, Merged, Expand, Repeat, InsertFlat, Positive;
    hide JoinedAfter, JoinedBefore, JoinedInside;
    var left: nat := within;
    var i := 0;
    while i < |runs|
      invariant i <= |runs|
      invariant left + Total(runs[..i]) == within
      invariant i > 0 ==> left > 0
      invariant left <= Total(runs[i..])
    {
      var run := runs[i];
      ExpandAt(runs, i);
      assert runs[i..][1..] == runs[i + 1..];
      if left == 0 {
        assert OnBoundary(runs, within) by { assert Total(runs[..i]) == within; }
        assert i == 0;
        out := InsertBefore(join, offset, runs, x);
        return;
      } else if left == run.length {
        assert OnBoundary(runs, within) by { assert Total(runs[..i + 1]) == within; }
        TotalStep(runs, i);
        RunAtIs(runs, i, within);
        out := InsertAfter(join, offset, runs, i, x, within);
        return;
      } else if left < run.length {
        assert !OnBoundary(runs, within) by { InsideIsNotBoundary(runs, i, within); }
        TotalStep(runs, i);
        RunAtIs(runs, i, within);
        out := InsertInside(join, offset, runs, i, left, x, within);
        return;
      }
      left := left - run.length;
      i := i + 1;
    }
    assert false;
  }

  lemma TakeDropOf<T>(s: seq<T>, a: seq<T>, m: seq<T>, b: seq<T>, k: nat, p: nat)
    requires s == a + m + b && k <= |m| && p == |a| + k
    ensures p <= |s| && s[..p] == a + m[..k] && s[p..] == m[k..] + b
  {
  }

  lemma FlatPrefix(runs: seq<Run>, i: nat, k: nat, p: nat)
    requires i < |runs| && k <= runs[i].length && p == Total(runs[..i]) + k
    ensures p <= Total(runs)
    ensures Expand(runs)[..p] == Expand(runs[..i]) + Repeat(k, runs[i].data)
    ensures Expand(runs)[p..] == Repeat(runs[i].length - k, runs[i].data) + Expand(runs[i + 1..])
  {
    ExpandAt(runs, i);
    RepeatCut(runs[i].length, runs[i].data, k);
    TakeDropOf(Expand(runs), Expand(runs[..i]), Repeat(runs[i].length, runs[i].data), Expand(runs[i + 1..]), k, p);
  }

  lemma CutAndGlue<T>(s: seq<T>, i: nat)
    requires i <= |s|
    ensures s[..i] + s[i..] == s
  {
  }

  lemma GlueCut<T>(s: seq<T>, a: seq<T>, b: seq<T>, p: nat)
    requires s == a + b && p == |a|
    ensures s[..p] == a && s[p..] == b
  {
  }

  lemma FlatCutAt(runs: seq<Run>, i: nat)
    requires i <= |runs|
    ensures Total(runs[..i]) <= Total(runs)
    ensures Expand(runs)[..Total(runs[..i])] == Expand(runs[..i])
    ensures Expand(runs)[Total(runs[..i])..] == Expand(runs[i..])
  {
    CutAndGlue(runs, i);
    ExpandConcat(runs[..i], runs[i..]);
    GlueCut(Expand(runs), Expand(runs[..i]), Expand(runs[i..]), Total(runs[..i]));
  }

  /** The `n` characters at `within` lie strictly inside run `i`. */
  predicate StrictlyInside(runs: seq<Run>, i: nat, within: nat, n: nat)
    requires i < |runs|
  {
    Total(runs[..i]) < within && within + n < Total(runs[..i + 1])
  }

  /** The callback refuses to join the two ends that a removal strictly inside run `i` leaves. */
  predicate EndsStayApart(join: JoinFunc, base: nat, runs: seq<Run>, i: nat, within: nat, n: nat)
    requires i < |runs| && StrictlyInside(runs, i, within, n)
  {
    var lo, hi := Total(runs[..i]), Total(runs[..i + 1]);
    !join(base + lo, Run(within - lo, runs[i].data), Run(hi - within - n, runs[i].data))
  }

  /** The removal has to store one more run than the leaf holds now. */
  ghost predicate AddsRun(join: JoinFunc, base: nat, runs: seq<Run>, within: nat, n: nat) {
    exists i :: 0 <= i < |runs| && StrictlyInside(runs, i, within, n) && EndsStayApart(join, base, runs, i, within, n)
  }

  /** The `n` characters at `within` lie strictly inside no run. */
  predicate NoInside(runs: seq<Run>, within: nat, n: nat) {
    forall i :: 0 <= i < |runs| ==> !StrictlyInside(runs, i, within, n)
  }

  /** The run that the `n` characters at `within` lie strictly inside of, or -1. */
  function InsideOf(runs: seq<Run>, within: nat, n: nat): (i: int)
    ensures -1 <= i < |runs|
  {
    if runs == [] then -1
    else if within < runs[0].length then (if 0 < within && within + n < runs[0].length then 0 else -1)
    else
      var i := InsideOf(runs[1..], within - runs[0].length, n);
      if i < 0 then -1 else i + 1
  }

  lemma {:induction false} InsideOfIs(runs: seq<Run>, within: nat, n: nat)
    ensures
      var i := InsideOf(runs, within, n);
      if i < 0 then NoInside(runs, within, n) else StrictlyInside(runs, i, within, n)
  {
    if runs != [] {
      InsideFirst(runs, within, n);
      if within >= runs[0].length {
        var tail, w := runs[1..], within - runs[0].length;
        InsideOfIs(tail, w, n);
        forall j | 0 <= j < |tail|
          ensures StrictlyInside(runs, j + 1, within, n) <==> StrictlyInside(tail, j, w, n)
        {
          InsideTail(runs, j, within, n);
        }
        forall k | 0 < k < |runs| && StrictlyInside(runs, k, within, n)
          ensures StrictlyInside(tail, k - 1, w, n)
        {
          InsideTail(runs, k - 1, within, n);
        }
      } else {
        forall j | 0 < j < |runs|
          ensures !StrictlyInside(runs, j, within, n)
        {
          TotalMonotone(runs, 1, j);
          assert runs[..1] == [runs[0]] && [runs[0]][1..] == [];
        }
      }
    }
  }

  lemma InsideFirst(runs: seq<Run>, within: nat, n: nat)
    requires runs != []
    ensures StrictlyInside(runs, 0, within, n) <==> 0 < within && within + n < runs[0].length
  {
    assert runs[..1] == [runs[0]] && [runs[0]][1..] == [] && runs[..0] == [];
  }

  lemma InsideTail(runs: seq<Run>, j: nat, within: nat, n: nat)
    requires j + 1 < |runs| && within >= runs[0].length
    ensures StrictlyInside(runs, j + 1, within, n) <==> StrictlyInside(runs[1..], j, within - runs[0].length, n)
  {
    TotalTail(runs, j);
    TotalTail(runs, j + 1);
  }

  lemma TotalTail(runs: seq<Run>, k: nat)
    requires k < |runs|
    ensures Total(runs[..k + 1]) == runs[0].length + Total(runs[1..][..k])
  {
    assert runs[..k + 1][0] == runs[0] && runs[..k + 1][1..] == runs[1..][..k];
  }

  /**
   * The runs of a leaf without the characters `[within, to)`: where they lie strictly inside one run its ends may be
   * joined again.
   */
  function Cutting(join: JoinFunc, base: nat, runs: seq<Run>, within: nat, n: nat, to: nat): seq<Run> {
    InsideOfIs(runs, within, n);
    var i := InsideOf(runs, within, n);
    if i >= 0 && !EndsStayApart(join, base, runs, i, within, n) then
      TotalStep(runs, i);
      Splice(runs, i, i + 1, [Run(runs[i].length - n, runs[i].data)])
    else
      Without(runs, within, to)
  }

  lemma TotalStep(runs: seq<Run>, i: nat)
    requires i < |runs|
    ensures Total(runs[..i + 1]) == Total(runs[..i]) + runs[i].length
  {
    assert runs[..i + 1] == runs[..i] + [runs[i]] && [runs[i]][1..] == [];
    ExpandConcat(runs[..i], [runs[i]]);
  }

  lemma CuttingOutside(join: JoinFunc, base: nat, runs: seq<Run>, within: nat, n: nat, to: nat)
    requires NoInside(runs, within, n)
    ensures Cutting(join, base, runs, within, n, to) == Without(runs, within, to)
  {
    InsideOfIs(runs, within, n);
  }

  lemma CuttingInside(join: JoinFunc, base: nat, runs: seq<Run>, i: nat, within: nat, n: nat, to: nat)
    requires i < |runs| && StrictlyInside(runs, i, within, n) && n <= runs[i].length
    ensures Cutting(join, base, runs, within, n, to) ==
      if EndsStayApart(join, base, runs, i, within, n) then Without(runs, within, to)
      else Splice(runs, i, i + 1, [Run(runs[i].length - n, runs[i].data)])
  {
    InsideOfIs(runs, within, n);
    InsideOnlyOne(runs, InsideOf(runs, within, n), i, within, n);
  }

  lemma InsideOnlyOne(runs: seq<Run>, i: nat, j: nat, within: nat, n: nat)
    requires i < |runs| && j < |runs|
    requires Total(runs[..i]) <= within < Total(runs[..i + 1])
    requires StrictlyInside(runs, j, within, n)
    ensures i == j
  {
    if i < j {
      TotalMonotone(runs, i + 1, j);
    } else if j < i {
      TotalMonotone(runs, j + 1, i);
    }
  }

  lemma NotInside(join: JoinFunc, base: nat, runs: seq<Run>, i: nat, within: nat, n: nat)
    requires i < |runs|
    requires Total(runs[..i]) <= within < Total(runs[..i + 1])
    requires !StrictlyInside(runs, i, within, n)
    ensures NoInside(runs, within, n) && !AddsRun(join, base, runs, within, n)
  {
    forall j | 0 <= j < |runs| && StrictlyInside(runs, j, within, n)
      ensures false
    {
      InsideOnlyOne(runs, i, j, within, n);
    }
  }

  /** The runs before `at` stand for the text up to `from`, the rest for the text from `to` on. */
  lemma RemovalDone(runs: seq<Run>, out: seq<Run>, i: nat, at: nat, from: nat, to: nat)
    requires i <= |runs| && at <= |out|
    requires from <= to == Total(runs[..i])
    requires out[at..] == runs[i..]
    requires from <= Total(runs) && Expand(out[..at]) == Expand(runs)[..from]
    ensures to <= Total(runs)
    ensures Expand(out) == RemoveFlat(Expand(runs), from, to)
  {
    FlatCutAt(runs, i);
    CutAndGlue(out, at);
    ExpandConcat(out[..at], out[at..]);
  }

  lemma SuffixStep<T>(a: seq<T>, i: nat, b: seq<T>, j: nat)
    requires i <= |a| && j < |b| && a[i..] == b[j..]
    ensures i < |a| && a[i] == b[j] && a[i + 1..] == b[j + 1..]
  {
    assert |a[i..]| == |b[j..]|;
    assert a[i..][0] == b[j..][0];
    assert a[i..][1..] == b[j..][1..];
  }

  lemma TrimTail(runs: seq<Run>, i: nat, keep: nat, p: nat)
    requires i < |runs| && keep <= runs[i].length && p == Total(runs[..i]) + keep
    ensures p <= Total(runs)
    ensures Expand(runs[..i] + [Run(keep, runs[i].data)]) == Expand(runs)[..p]
  {
    FlatPrefix(runs, i, keep, p);
    ExpandConcat(runs[..i], [Run(keep, runs[i].data)]);
    ExpandOne(Run(keep, runs[i].data));
  }

  /** Dropping the first `cut` characters of run `i`, everything between `from` and it being gone. */
  lemma TrimHead(runs: seq<Run>, i: nat, out: seq<Run>, at: nat, cut: nat, from: nat, to: nat)
    requires i < |runs| && at < |out| && cut <= runs[i].length
    requires out[at..] == runs[i..]
    requires from <= to == Total(runs[..i]) + cut
    requires from <= Total(runs) && Expand(out[..at]) == Expand(runs)[..from]
    ensures to <= Total(runs)
    ensures Expand(Splice(out, at, at + 1, [Run(runs[i].length - cut, runs[i].data)]))
      == RemoveFlat(Expand(runs), from, to)
  {
    var r := Run(runs[i].length - cut, runs[i].data);
    FlatPrefix(runs, i, cut, to);
    SuffixStep(out, at, runs, i);
    ExpandSplice(out, at, at + 1, [r]);
    ExpandOne(r);
    Assoc(Expand(out[..at]), Expand([r]), Expand(out[at + 1..]));
  }

  lemma CutOut(runs: seq<Run>, i: nat, left: nat, right: nat, mid: seq<Run>, from: nat, to: nat)
    requires i < |runs| && left <= right <= runs[i].length
    requires from == Total(runs[..i]) + left && to == Total(runs[..i]) + right
    requires Expand(mid) == Repeat(left, runs[i].data) + Repeat(runs[i].length - right, runs[i].data)
    ensures to <= Total(runs)
    ensures Expand(Splice(runs, i, i + 1, mid)) == RemoveFlat(Expand(runs), from, to)
  {
    FlatPrefix(runs, i, left, from);
    FlatPrefix(runs, i, right, to);
    ExpandSplice(runs, i, i + 1, mid);
    Regroup(Expand(runs[..i]), Repeat(left, runs[i].data), Repeat(runs[i].length - right, runs[i].data),
            Expand(runs[i + 1..]));
  }

  lemma Regroup<T>(a: seq<T>, b: seq<T>, c: seq<T>, d: seq<T>)
    ensures a + (b + c) + d == (a + b) + (c + d)
  {
  }

  lemma AddsRunHere(join: JoinFunc, base: nat, runs: seq<Run>, i: nat, within: nat, n: nat)
    requires i < |runs| && StrictlyInside(runs, i, within, n)
    ensures AddsRun(join, base, runs, within, n) <==> EndsStayApart(join, base, runs, i, within, n)
  {
    if AddsRun(join, base, runs, within, n) {
      var j :| 0 <= j < |runs| && StrictlyInside(runs, j, within, n) && EndsStayApart(join, base, runs, j, within, n);
      InsideOnlyOne(runs, i, j, within, n);
    }
  }

  /** Where the removal loop stands after `i` runs of the leaf. */
  datatype Scan = Scan(i: nat, out: seq<Run>, at: nat, left: nat, rest: nat, start: nat)

  /**
   * Until the scan has gone past `within` nothing has changed; from then on the kept runs stand
   * for the text before `within` and `rest` characters are still to go.
   */
  ghost predicate Scanning(join: JoinFunc, base: nat, runs: seq<Run>, within: nat, n: nat, s: Scan) {
    && s.i <= |runs| && s.at <= |s.out| && s.at <= s.i
    && s.out[s.at..] == runs[s.i..]
    && Positive(s.out) && |s.out| <= |runs|
    && (if Total(runs[..s.i]) < within then
          s.out == runs && s.at == s.i && s.rest == n && s.left + Total(runs[..s.i]) == within
          && s.start == base + Total(runs[..s.i])
        else
          s.left == 0 && s.rest + Total(runs[..s.i]) == n + within
          && within <= Total(runs) && Expand(s.out[..s.at]) == Expand(runs)[..within]
          && s.out[..s.at] == TakeRuns(runs, within))
    && (within < Total(runs[..s.i]) ==> NoInside(runs, within, n) && !AddsRun(join, base, runs, within, n))
  }

  lemma SpliceCuts(runs: seq<Run>, i: nat, j: nat, mid: seq<Run>, k: nat)
    requires i <= j <= |runs| && k == i + |mid|
    ensures |Splice(runs, i, j, mid)| == |runs| - (j - i) + |mid|
    ensures Splice(runs, i, j, mid)[..i] == runs[..i]
    ensures Splice(runs, i, j, mid)[..k] == runs[..i] + mid
    ensures Splice(runs, i, j, mid)[k..] == runs[j..]
    ensures Positive(runs) && Positive(mid) ==> Positive(Splice(runs, i, j, mid))
  {
  }

  lemma ScanSkip(join: JoinFunc, base: nat, runs: seq<Run>, within: nat, n: nat, s: Scan)
    requires Positive(runs) && Scanning(join, base, runs, within, n, s)
    requires s.i < |runs| && s.left >= runs[s.i].length
    ensures Scanning(join, base, runs, within, n,
              Scan(s.i + 1, s.out, s.at + 1, s.left - runs[s.i].length, s.rest, s.start + runs[s.i].length))
  {
    hide TakeRuns, Total, Expand, AddsRun;
    TotalAt(runs, s.i);
    FlatCutAt(runs, s.i + 1);
    if Total(runs[..s.i + 1]) == within {
      CutsAt(runs, s.i, runs[s.i].length, within);
      assert runs[..s.i] + Part(runs[s.i].length, runs[s.i].data) == runs[..s.i + 1];
    }
  }

  lemma ScanTrim(join: JoinFunc, base: nat, runs: seq<Run>, within: nat, n: nat, s: Scan)
    requires Positive(runs) && Scanning(join, base, runs, within, n, s)
    requires s.i < |runs| && 0 < s.left < runs[s.i].length <= s.left + s.rest
    ensures s.at < |s.out|
    ensures Scanning(join, base, runs, within, n,
              Scan(s.i + 1, Splice(s.out, s.at, s.at + 1, [Run(s.left, runs[s.i].data)]), s.at + 1, 0,
                   s.rest - (runs[s.i].length - s.left), s.start + s.left))
  {
    TotalAt(runs, s.i);
    NotInside(join, base, runs, s.i, within, n);
    TrimTail(runs, s.i, s.left, within);
    CutsAt(runs, s.i, s.left, within);
    SuffixStep(s.out, s.at, runs, s.i);
    SpliceCuts(s.out, s.at, s.at + 1, [Run(s.left, runs[s.i].data)], s.at + 1);
  }

  lemma ScanDrop(join: JoinFunc, base: nat, runs: seq<Run>, within: nat, n: nat, s: Scan)
    requires Positive(runs) && Scanning(join, base, runs, within, n, s)
    requires s.i < |runs| && s.left == 0 && s.rest >= runs[s.i].length
    ensures s.at < |s.out|
    ensures Scanning(join, base, runs, within, n,
              Scan(s.i + 1, Splice(s.out, s.at, s.at + 1, []), s.at, 0, s.rest - runs[s.i].length, s.start))
  {
    TotalAt(runs, s.i);
    SuffixStep(s.out, s.at, runs, s.i);
    SpliceCuts(s.out, s.at, s.at + 1, [], s.at);
    NotAdded(join, base, runs, within, n, s);
  }

  /**
   * What removing `n` characters at `within` from one leaf must give: as much of the range as the
   * leaf holds is gone, `rest` characters are still to be removed, and at most one run was added.
   */
  ghost predicate Removed(join: JoinFunc, base: nat, runs: seq<Run>, within: nat, n: nat, out: seq<Run>, rest: nat,
      to: nat) {
    && Positive(out)
    && |out| <= |runs| + (if AddsRun(join, base, runs, within, n) then 1 else 0)
    && within <= Total(runs)
    && rest == (if n <= Total(runs) - within then 0 else n - (Total(runs) - within))
    && to == within + n - rest
    && Expand(out) == RemoveFlat(Expand(runs), within, to)
    && out == Cutting(join, base, runs, within, n, to)
    && (RefusesAll(join) ==> out == Without(runs, within, to))
  }

  lemma LeafBound(runs: seq<Run>, i: nat)
    requires i <= |runs|
    ensures Total(runs[..i]) <= Total(runs)
    ensures i == |runs| ==> Total(runs[..i]) == Total(runs)
  {
    FlatCutAt(runs, i);
    if i == |runs| {
      assert runs[..i] == runs;
    }
  }

  /** The loop ran out of runs, or stopped on a run boundary with nothing left to remove. */
  lemma NoneLeft(join: JoinFunc, base: nat, runs: seq<Run>, within: nat, n: nat, s: Scan, to: nat)
    requires Positive(runs) && within < Total(runs) && Scanning(join, base, runs, within, n, s)
    requires s.rest == 0 < n || s.i == |runs|
    requires to == within + n - s.rest
    ensures Removed(join, base, runs, within, n, s.out, s.rest, to)
    ensures NoInside(runs, within, n) && !AddsRun(join, base, runs, within, n)
  {
    hide Cutting, Without, TakeRuns, DropRuns;
    LeafBound(runs, s.i);
    RemovalDone(runs, s.out, s.i, s.at, within, to);
    DropAt(runs, s.i);
    CutAndGlue(s.out, s.at);
    RemovedIs(join, base, runs, within, n, s.out, s.rest, to, s.out[..s.at], s.out[s.at..]);
  }

  /** Cutting between two runs. */
  lemma DropAt(runs: seq<Run>, i: nat)
    requires i <= |runs| && Positive(runs)
    ensures DropRuns(runs, Total(runs[..i])) == runs[i..]
  {
    if i < |runs| {
      CutsAt(runs, i, 0, Total(runs[..i]));
      assert [runs[i]] + runs[i + 1..] == runs[i..];
    } else {
      assert runs[..i] == runs && runs + [] == runs;
      TakeConcat(runs, [], 0);
    }
  }

  /** A scan that has reached `within` is past every run the range could lie strictly inside of. */
  lemma NotAdded(join: JoinFunc, base: nat, runs: seq<Run>, within: nat, n: nat, s: Scan)
    requires Positive(runs) && Scanning(join, base, runs, within, n, s)
    requires s.i < |runs| && s.left == 0
    ensures NoInside(runs, within, n) && !AddsRun(join, base, runs, within, n)
  {
    TotalAt(runs, s.i);
    if within == Total(runs[..s.i]) {
      NotInside(join, base, runs, s.i, within, n);
    }
  }

  lemma PastInside(join: JoinFunc, base: nat, runs: seq<Run>, within: nat, n: nat, s: Scan)
    requires Positive(runs) && Scanning(join, base, runs, within, n, s)
    requires s.i < |runs| && s.left == 0
    ensures within <= Total(runs[..s.i]) && s.rest + Total(runs[..s.i]) == n + within
    ensures within <= Total(runs) && Expand(s.out[..s.at]) == Expand(runs)[..within]
    ensures s.out[..s.at] == TakeRuns(runs, within)
    ensures Positive(s.out) && |s.out| <= |runs| && s.at <= |s.out| && s.out[s.at..] == runs[s.i..]
  {
  }

  /** The range lies strictly inside the current run. */
  method CutMiddle(join: JoinFunc, base: nat, start: nat, runs: seq<Run>, i: nat, left: nat, n: nat, ghost within: nat,
                   ghost to: nat)
    returns (ok: bool, out: seq<Run>)
    requires SoundJoin(join)
    requires Positive(runs) && |runs| <= MAX_RUNS && n > 0
    requires i < |runs| && StrictlyInside(runs, i, within, n) && left + n <= runs[i].length
    requires within == Total(runs[..i]) + left && start == base + Total(runs[..i]) && to == within + n
    ensures ok <==> !(|runs| == MAX_RUNS && AddsRun(join, base, runs, within, n))
    ensures
      var joins := join(start, Run(left, runs[i].data), Run(runs[i].length - left - n, runs[i].data));
      (ok <==> joins || |runs| < MAX_RUNS) && (ok ==> |out| == |runs| + if joins then 0 else 1)
    ensures ok ==> Removed(join, base, runs, within, n, out, 0, to)
  {
    hide Total, Expand, Cutting;
    var run := runs[i];
    TotalAt(runs, i);
    TotalStep(runs, i);
    AddsRunHere(join, base, runs, i, within, n);
    CuttingInside(join, base, runs, i, within, n, to);
    var l := Run(left, run.data);
    var r := Run(run.length - left - n, run.data);
    if join(start, l, r) {
      out := Splice(runs, i, i + 1, [Run(l.length + r.length, l.data)]);
      CutJoined(runs, i, left, left + n, within, to, out);
      ok := true;
    } else if |runs| == MAX_RUNS {
      ok, out := false, runs;
    } else {
      out := Splice(runs, i, i + 1, [l, r]);
      CutApart(runs, i, left, left + n, within, to, out);
      MiddleOut(runs, i, left, left + n, within, to);
      ok := true;
    }
  }

  lemma CutJoined(runs: seq<Run>, i: nat, left: nat, right: nat, from: nat, to: nat, out: seq<Run>)
    requires Positive(runs)
    requires i < |runs| && 0 < left <= right < runs[i].length
    requires from == Total(runs[..i]) + left && to == Total(runs[..i]) + right
    requires out == Splice(runs, i, i + 1, [Run(left + (runs[i].length - right), runs[i].data)])
    ensures Positive(out) && |out| == |runs|
    ensures to <= Total(runs) && Expand(out) == RemoveFlat(Expand(runs), from, to)
  {
    var joined := Run(left + (runs[i].length - right), runs[i].data);
    ExpandOne(joined);
    SpliceShape(runs, i, [joined]);
    CutOut(runs, i, left, right, [joined], from, to);
  }

  lemma CutApart(runs: seq<Run>, i: nat, left: nat, right: nat, from: nat, to: nat, out: seq<Run>)
    requires Positive(runs)
    requires i < |runs| && 0 < left <= right < runs[i].length
    requires from == Total(runs[..i]) + left && to == Total(runs[..i]) + right
    requires out == Splice(runs, i, i + 1, [Run(left, runs[i].data), Run(runs[i].length - right, runs[i].data)])
    ensures Positive(out) && |out| == |runs| + 1
    ensures to <= Total(runs) && Expand(out) == RemoveFlat(Expand(runs), from, to)
  {
    var l, r := Run(left, runs[i].data), Run(runs[i].length - right, runs[i].data);
    Expand2(l, r);
    SpliceShape(runs, i, [l, r]);
    CutOut(runs, i, left, right, [l, r], from, to);
  }

  lemma MiddleOut(runs: seq<Run>, i: nat, left: nat, right: nat, from: nat, to: nat)
    requires Positive(runs) && i < |runs| && 0 < left <= right < runs[i].length
    requires from == Total(runs[..i]) + left && to == Total(runs[..i]) + right
    ensures
      var l, r := Run(left, runs[i].data), Run(runs[i].length - right, runs[i].data);
      Splice(runs, i, i + 1, [l, r]) == Without(runs, from, to)
  {
    CutsAt(runs, i, left, from);
    CutsAt(runs, i, right, to);
  }

  lemma InsideHere(join: JoinFunc, base: nat, runs: seq<Run>, within: nat, n: nat, s: Scan)
    requires Positive(runs) && Scanning(join, base, runs, within, n, s)
    requires s.i < |runs| && 0 < s.left && s.left + s.rest < runs[s.i].length
    ensures StrictlyInside(runs, s.i, within, n) && s.rest == n
    ensures within == Total(runs[..s.i]) + s.left && s.start == base + Total(runs[..s.i])
  {
    TotalAt(runs, s.i);
  }

  /** The three cases in which the scan goes on: pass a run, keep a run's head, or drop a run. */
  function Next(join: JoinFunc, base: nat, runs: seq<Run>, within: nat, n: nat, s: Scan): (t: Scan)
    requires Positive(runs) && Scanning(join, base, runs, within, n, s)
    requires s.i < |runs| && s.rest > 0
    requires !(0 < s.left && s.left + s.rest < runs[s.i].length)
    requires !(s.left == 0 && s.rest < runs[s.i].length)
    ensures t.i == s.i + 1 && Scanning(join, base, runs, within, n, t)
  {
    var run := runs[s.i];
    if s.left >= run.length then
      ScanSkip(join, base, runs, within, n, s);
      Scan(s.i + 1, s.out, s.at + 1, s.left - run.length, s.rest, s.start + run.length)
    else if s.left > 0 then
      ScanTrim(join, base, runs, within, n, s);
      Scan(s.i + 1, Splice(s.out, s.at, s.at + 1, [Run(s.left, run.data)]), s.at + 1, 0,
           s.rest - (run.length - s.left), s.start + s.left)
    else
      ScanDrop(join, base, runs, within, n, s);
      Scan(s.i + 1, Splice(s.out, s.at, s.at + 1, []), s.at, 0, s.rest - run.length, s.start)
  }

  lemma TailKept(join: JoinFunc, base: nat, runs: seq<Run>, within: nat, n: nat, s: Scan, to: nat, out: seq<Run>)
    requires Positive(runs) && Scanning(join, base, runs, within, n, s)
    requires s.i < |runs| && s.left == 0 < s.rest < runs[s.i].length && to == within + n && s.at < |s.out|
    requires out == Splice(s.out, s.at, s.at + 1, [Run(runs[s.i].length - s.rest, runs[s.i].data)])
    ensures Removed(join, base, runs, within, n, out, 0, to)
    ensures NoInside(runs, within, n) && !AddsRun(join, base, runs, within, n)
  {
    hide *;
    var r := Run(runs[s.i].length - s.rest, runs[s.i].data);
    PastInside(join, base, runs, within, n, s);
    NotAdded(join, base, runs, within, n, s);
    SuffixStep(s.out, s.at, runs, s.i);
    TrimHead(runs, s.i, s.out, s.at, s.rest, within, to);
    CutsAt(runs, s.i, s.rest, to);
    TailOut(s.out, s.at, r, runs[s.i + 1..], out);
    assert Part(r.length, r.data) == [r] by {
      PartOne(r);
    }
    TailFits(runs, s.i, within, n, s.rest);
    RemovedIs(join, base, runs, within, n, out, 0, to, s.out[..s.at], [r] + runs[s.i + 1..]);
  }

  lemma TailFits(runs: seq<Run>, i: nat, within: nat, n: nat, rest: nat)
    requires i < |runs| && within <= Total(runs[..i]) && rest + Total(runs[..i]) == n + within && rest < runs[i].length
    ensures n <= Total(runs) - within && within <= within + n <= Total(runs)
  {
    TotalStep(runs, i);
    LeafBound(runs, i + 1);
  }

  lemma PartOne(r: Run)
    requires r.length > 0
    ensures Part(r.length, r.data) == [r]
  {
  }

  lemma TailOut(s: seq<Run>, at: nat, r: Run, behind: seq<Run>, out: seq<Run>)
    requires at < |s| && s[at + 1..] == behind && Positive(s) && r.length > 0 && out == Splice(s, at, at + 1, [r])
    ensures out == s[..at] + ([r] + behind) && Positive(out) && |out| == |s|
  {
  }

  lemma RemovedIs(join: JoinFunc, base: nat, runs: seq<Run>, within: nat, n: nat, out: seq<Run>, rest: nat, to: nat,
                  a: seq<Run>, b: seq<Run>)
    requires Positive(out) && |out| <= |runs| && within <= to <= Total(runs) && to == within + n - rest
    requires rest == if n <= Total(runs) - within then 0 else n - (Total(runs) - within)
    requires Expand(out) == RemoveFlat(Expand(runs), within, to) && NoInside(runs, within, n)
    requires out == a + b && a == TakeRuns(runs, within) && b == DropRuns(runs, to)
    ensures Removed(join, base, runs, within, n, out, rest, to)
  {
    hide TakeRuns, DropRuns, Total, Expand, AddsRun, NoInside, Cutting;
    CuttingOutside(join, base, runs, within, n, to);
  }

  /** The range ends inside the current run: its tail is all that stays of it. */
  function KeepTail(join: JoinFunc, base: nat, runs: seq<Run>, within: nat, n: nat, s: Scan, ghost to: nat)
    : (out: seq<Run>)
    requires Positive(runs) && Scanning(join, base, runs, within, n, s)
    requires s.i < |runs| && s.left == 0 < s.rest < runs[s.i].length && to == within + n
    ensures Removed(join, base, runs, within, n, out, 0, to)
    ensures NoInside(runs, within, n) && !AddsRun(join, base, runs, within, n)
  {
    SuffixStep(s.out, s.at, runs, s.i);
    var out := Splice(s.out, s.at, s.at + 1, [Run(runs[s.i].length - s.rest, runs[s.i].data)]);
    TailKept(join, base, runs, within, n, s, to, out);
    out
  }

  /**
   * The removal loop over one leaf. `ok` is false when the loop would store a run past the leaf's
   * last slot, which aborts the program.
   */
  method RemoveFromRuns(join: JoinFunc, base: nat, runs: seq<Run>, within: nat, n: nat)
    returns (ok: bool, out: seq<Run>, rest: nat, ghost to: nat)
    requires SoundJoin(join)
    requires Positive(runs) && |runs| <= MAX_RUNS
    requires within < Total(runs) && n > 0
    ensures ok <==> !(|runs| == MAX_RUNS && AddsRun(join, base, runs, within, n))
    ensures ok ==> Removed(join, base, runs, within, n, out, rest, to)
  {
    out, rest, to := runs, n, within + n;
    var s := Scan(0, runs, 0, within, n, base);
    FlatCutAt(runs, 0);
    while s.i < |runs|
      invariant s.i <= |runs| && s.rest > 0
      invariant Scanning(join, base, runs, within, n, s)
      decreases |runs| - s.i
    {
      var run := runs[s.i];
      if 0 < s.left && s.left + s.rest < run.length {
        InsideHere(join, base, runs, within, n, s);
        ok, out := CutMiddle(join, base, s.start, runs, s.i, s.left, s.rest, within, to);
        rest := 0;
        return;
      } else if s.left == 0 && s.rest < run.length {
        ok, out, rest := true, KeepTail(join, base, runs, within, n, s, to), 0;
        return;
      }
      s := Next(join, base, runs, within, n, s);
      if s.rest == 0 {
        break;
      }
    }
    ok, out, rest, to := true, s.out, s.rest, within + n - s.rest;
    NoneLeft(join, base, runs, within, n, s, to);
  }

  /** There are no more runs than characters. */
  lemma {:induction false} RunsAtMost(runs: seq<Run>)
    requires Positive(runs)
    ensures |runs| <= Total(runs) == |Expand(runs)|
  {
    if runs != [] {
      RunsAtMost(runs[1..]);
    }
  }

  lemma BoundaryBehind(runs: seq<Run>, p: nat)
    requires runs != [] && OnBoundary(runs[1..], p)
    ensures OnBoundary(runs, runs[0].length + p)
  {
    var k :| 0 <= k <= |runs| - 1 && Total(runs[1..][..k]) == p;
    assert runs[..k + 1][0] == runs[0] && runs[..k + 1][1..] == runs[1..][..k];
  }

  /** Where the datum changes, two runs meet. */
  lemma {:induction false} EdgeIsBoundary(runs: seq<Run>, p: nat)
    requires 0 < p < |Expand(runs)| && Expand(runs)[p - 1] != Expand(runs)[p]
    ensures OnBoundary(runs, p)
  {
    var n := runs[0].length;
    assert Expand(runs) == Repeat(n, runs[0].data) + Expand(runs[1..]);
    if p <= n {
      assert p == n && runs[..1] == [runs[0]] && [runs[0]][1..] == [];
      assert Total(runs[..1]) == n;
    } else {
      EdgeIsBoundary(runs[1..], p - n);
      BoundaryBehind(runs, p - n);
    }
  }

  lemma StartIsBoundary(runs: seq<Run>)
    ensures OnBoundary(runs, 0)
  {
    assert Total(runs[..0]) == 0;
  }

  lemma WithBoundary(runs: seq<Run>, p: nat, x: Run)
    requires p <= Total(runs)
    ensures OnBoundary(With(runs, p, x), p)
  {
    TakenBoundary(runs, p, [x] + DropRuns(runs, p));
    assert With(runs, p, x) == TakeRuns(runs, p) + ([x] + DropRuns(runs, p));
  }

  lemma WithoutBoundary(runs: seq<Run>, from: nat, to: nat)
    requires from <= Total(runs)
    ensures OnBoundary(Without(runs, from, to), from)
  {
    TakenBoundary(runs, from, DropRuns(runs, to));
  }
}
