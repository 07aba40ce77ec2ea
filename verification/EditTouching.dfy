/**
 * Edits whose ranges do not overlap but may touch: exactly when applying them in turn comes to the same as replacing
 * all ranges at once.
 */
module EditTouching {
  import opened TextEdits
  import opened EditTurns

  // ---------------------------------------------------------------- all at once

  /** The ranges are in order from `p` on, none over another, in a text of `n` characters; they may touch. */
  predicate Sorted(n: nat, p: nat, es: seq<Edit>)
    decreases |es|
  {
    if es == [] then p <= n else p <= es[0].begin <= es[0].end && Sorted(n, es[0].end, es[1..])
  }

  /** The text from `p` on with every range replaced. */
  function AtOnce(text: string, p: nat, es: seq<Edit>): string
    requires Sorted(|text|, p, es)
    decreases |es|
  {
    SortedBounds(|text|, p, es);
    if es == [] then text[p..] else text[p..es[0].begin] + es[0].text + AtOnce(text, es[0].end, es[1..])
  }

  lemma AtOnceFirst(text: string, p: nat, es: seq<Edit>)
    requires Sorted(|text|, p, es)
    ensures es == [] ==> AtOnce(text, p, es) == text[p..]
    ensures es != [] ==>
      && p <= es[0].begin <= es[0].end <= |text| && Sorted(|text|, es[0].end, es[1..])
      && AtOnce(text, p, es) == text[p..es[0].begin] + es[0].text + AtOnce(text, es[0].end, es[1..])
  {
    SortedBounds(|text|, p, es);
  }

  lemma SortedIf(n: nat, p: nat, es: seq<Edit>)
    requires es == [] ==> p <= n
    requires es != [] ==> p <= es[0].begin <= es[0].end && Sorted(n, es[0].end, es[1..])
    ensures Sorted(n, p, es)
  {
  }

  lemma {:induction false} SortedBounds(n: nat, p: nat, es: seq<Edit>)
    requires Sorted(n, p, es)
    ensures p <= n && forall i :: 0 <= i < |es| ==> p <= es[i].begin <= es[i].end <= n
    decreases |es|
  {
    if es != [] {
      SortedBounds(n, es[0].end, es[1..]);
      forall i | 0 < i < |es|
        ensures p <= es[i].begin <= es[i].end <= n
      {
        assert es[i] == es[1..][i - 1];
      }
    }
  }

  // ---------------------------------------------------------------- in turn

  function AllMoved(e: Edit, rest: seq<Edit>): (moved: seq<Edit>)
    requires e.begin <= e.end
    ensures |moved| == |rest| && forall i :: 0 <= i < |rest| ==> moved[i] == Moved(e, rest[i])
  {
    seq(|rest|, i requires 0 <= i < |rest| => Moved(e, rest[i]))
  }

  predicate Ranges(edits: seq<Edit>) {
    forall i :: 0 <= i < |edits| ==> edits[i].begin <= edits[i].end
  }

  /** No other edit that is still to come catches the text of this one. */
  predicate Free(e: Edit, rest: seq<Edit>) {
    e.text == "" || forall i :: 0 <= i < |rest| ==> Separated(e, rest[i])
  }

  /** At its turn every edit inserts nothing or touches none of those that are still to come. */
  predicate Uncaught(edits: seq<Edit>)
    requires Ranges(edits)
    decreases |edits|
  {
    edits == [] || (Free(edits[0], edits[1..]) && Uncaught(AllMoved(edits[0], edits[1..])))
  }

  /** The first edit, and then the others in turn. */
  lemma {:induction false} FirstTurn(text: string, edits: seq<Edit>, n: nat)
    requires edits != [] && AllInText(text, edits) && 0 < n <= |edits|
    ensures
      var u := NextTurn(Turn(text, edits));
      Turns(text, edits, n) == Turns(u.text, u.rest, n - 1)
  {
    if n == 1 {
      assert Turns(text, edits, 0) == Turn(text, edits);
    } else {
      FirstTurn(text, edits, n - 1);
    }
  }

  lemma InTurnFirst(text: string, edits: seq<Edit>)
    requires edits != [] && AllInText(text, edits)
    ensures InText(text, edits[0]) && AllInText(Replaced(text, edits[0]), AllMoved(edits[0], edits[1..]))
    ensures InTurn(text, edits) == InTurn(Replaced(text, edits[0]), AllMoved(edits[0], edits[1..]))
  {
    hide Moved, Replaced, Turns;
    FirstTurn(text, edits, |edits|);
    assert NextTurn(Turn(text, edits)).rest == AllMoved(edits[0], edits[1..]);
  }

  // ---------------------------------------------------------------- what is caught is lost

  predicate Within(edits: seq<Edit>, p: int) {
    exists i :: 0 <= i < |edits| && edits[i].begin <= p < edits[i].end
  }

  /** How many characters of `[lo, hi)` lie in some range. */
  function Cover(edits: seq<Edit>, lo: int, hi: int): (n: nat)
    ensures lo <= hi ==> n <= hi - lo
    decreases hi - lo
  {
    if lo >= hi then 0 else (if Within(edits, lo) then 1 else 0) + Cover(edits, lo + 1, hi)
  }

  lemma {:induction false} CoverSplit(edits: seq<Edit>, lo: int, mid: int, hi: int)
    requires lo <= mid <= hi
    ensures Cover(edits, lo, hi) == Cover(edits, lo, mid) + Cover(edits, mid, hi)
    decreases mid - lo
  {
    hide Within;
    if lo < mid {
      CoverSplit(edits, lo + 1, mid, hi);
    }
  }

  /** What lies in a range still does when both are shifted. */
  lemma {:induction false} CoverShift(a: seq<Edit>, b: seq<Edit>, lo: int, hi: int, z: int)
    requires forall p {:trigger Within(a, p)} :: lo <= p < hi && Within(a, p) ==> Within(b, p + z)
    ensures Cover(a, lo, hi) <= Cover(b, lo + z, hi + z)
    decreases hi - lo
  {
    hide Within;
    if lo < hi {
      CoverShift(a, b, lo + 1, hi, z);
    }
  }

  lemma {:induction false} CoverFull(edits: seq<Edit>, lo: int, hi: int)
    requires lo <= hi && forall p {:trigger Within(edits, p)} :: lo <= p < hi ==> Within(edits, p)
    ensures Cover(edits, lo, hi) == hi - lo
    decreases hi - lo
  {
    hide Within;
    if lo < hi {
      CoverFull(edits, lo + 1, hi);
    }
  }

  lemma {:induction false} CoverNone(edits: seq<Edit>, lo: int, hi: int)
    requires forall p {:trigger Within(edits, p)} :: lo <= p < hi ==> !Within(edits, p)
    ensures Cover(edits, lo, hi) == 0
    decreases hi - lo
  {
    hide Within;
    if lo < hi {
      CoverNone(edits, lo + 1, hi);
    }
  }

  function TextTotal(edits: seq<Edit>): nat {
    if edits == [] then 0 else |edits[0].text| + TextTotal(edits[1..])
  }

  lemma {:induction false} TextTotalMoved(e: Edit, rest: seq<Edit>)
    requires e.begin <= e.end
    ensures TextTotal(AllMoved(e, rest)) == TextTotal(rest)
  {
    if rest != [] {
      TextTotalMoved(e, rest[1..]);
      assert AllMoved(e, rest)[1..] == AllMoved(e, rest[1..]);
    }
  }

  /** A place of a range outside the replaced one is in that range when it has moved. */
  lemma WithinMoves(e: Edit, rest: seq<Edit>, p: nat)
    requires e.begin <= e.end && Within(rest, p)
    ensures p < e.begin ==> Within(AllMoved(e, rest), p)
    ensures p >= e.end ==> Within(AllMoved(e, rest), p - (e.end - e.begin) + |e.text|)
  {
    var i :| 0 <= i < |rest| && rest[i].begin <= p < rest[i].end;
    var m := AllMoved(e, rest)[i];
    assert m == Moved(e, rest[i]);
  }

  /** The inserted text is in a moved range if that range touches the replaced one. */
  lemma CaughtInside(e: Edit, rest: seq<Edit>, p: nat)
    requires e.begin <= e.end && Ranges(rest) && !Free(e, rest) && e.begin <= p < e.begin + |e.text|
    ensures Within(AllMoved(e, rest), p)
  {
    var i :| 0 <= i < |rest| && !Separated(e, rest[i]);
    var m := AllMoved(e, rest)[i];
    assert m == Moved(e, rest[i]);
  }

  /** One turn loses nothing but what it replaces, and its own text if that is caught. */
  lemma CoverTurn(text: string, e: Edit, rest: seq<Edit>)
    requires InText(text, e) && AllInText(text, rest)
    ensures
      var n, now := |text| - (e.end - e.begin) + |e.text|, AllMoved(e, rest);
      && Cover([e] + rest, 0, |text|) <= Cover(now, 0, n) + (e.end - e.begin)
      && (Ranges(rest) && !Free(e, rest) ==>
            Cover([e] + rest, 0, |text|) + |e.text| <= Cover(now, 0, n) + (e.end - e.begin))
  {
    hide *;
    InTextIs(text, e);
    var all, now, a, b, k := [e] + rest, AllMoved(e, rest), e.begin, e.end, |e.text|;
    var n := |text| - (b - a) + k;
    CoverSplit(all, 0, a, |text|);
    CoverSplit(all, a, b, |text|);
    CoverSplit(now, 0, a, n);
    CoverSplit(now, a, a + k, n);
    CoverBefore(e, rest);
    CoverBehind(e, rest, |text|);
    if Ranges(rest) && !Free(e, rest) {
      CoverCaught(e, rest);
    }
  }

  lemma InTextIs(text: string, e: Edit)
    ensures InText(text, e) <==> e.begin <= e.end <= |text|
  {
  }

  lemma CoverBefore(e: Edit, rest: seq<Edit>)
    requires e.begin <= e.end
    ensures Cover([e] + rest, 0, e.begin) <= Cover(AllMoved(e, rest), 0, e.begin)
  {
    hide *;
    forall p: int | 0 <= p < e.begin && Within([e] + rest, p)
      ensures Within(AllMoved(e, rest), p + 0)
    {
      WithinOther(e, rest, p);
      WithinMoves(e, rest, p);
    }
    CoverShift([e] + rest, AllMoved(e, rest), 0, e.begin, 0);
  }

  lemma CoverBehind(e: Edit, rest: seq<Edit>, n: nat)
    requires e.begin <= e.end <= n
    ensures
      var z := |e.text| - (e.end - e.begin);
      Cover([e] + rest, e.end, n) <= Cover(AllMoved(e, rest), e.begin + |e.text|, n + z)
  {
    hide *;
    var z := |e.text| - (e.end - e.begin);
    forall p: int | e.end <= p < n && Within([e] + rest, p)
      ensures Within(AllMoved(e, rest), p + z)
    {
      WithinOther(e, rest, p);
      WithinMoves(e, rest, p);
    }
    CoverShift([e] + rest, AllMoved(e, rest), e.end, n, z);
  }

  lemma CoverCaught(e: Edit, rest: seq<Edit>)
    requires e.begin <= e.end && Ranges(rest) && !Free(e, rest)
    ensures Cover(AllMoved(e, rest), e.begin, e.begin + |e.text|) == |e.text|
  {
    hide *;
    forall p: int | e.begin <= p < e.begin + |e.text|
      ensures Within(AllMoved(e, rest), p)
    {
      CaughtInside(e, rest, p);
    }
    CoverFull(AllMoved(e, rest), e.begin, e.begin + |e.text|);
  }

  lemma WithinOther(e: Edit, rest: seq<Edit>, p: int)
    requires Within([e] + rest, p) && !(e.begin <= p < e.end)
    ensures Within(rest, p)
  {
    var all := [e] + rest;
    var i :| 0 <= i < |all| && all[i].begin <= p < all[i].end;
    assert rest[i - 1] == all[i];
  }

  /** No text grows beyond what is outside all ranges and what is put in, and if text is caught it falls short of it. */
  lemma {:induction false} InTurnLength(text: string, edits: seq<Edit>)
    requires AllInText(text, edits)
    ensures Ranges(edits) && |InTurn(text, edits)| <= |text| - Cover(edits, 0, |text|) + TextTotal(edits)
    ensures !Uncaught(edits) ==> |InTurn(text, edits)| < |text| - Cover(edits, 0, |text|) + TextTotal(edits)
    decreases |edits|
  {
    assert Ranges(edits) by {
      forall i | 0 <= i < |edits|
        ensures edits[i].begin <= edits[i].end
      {
        assert InText(text, edits[i]);
      }
    }
    if edits == [] {
      CoverNone(edits, 0, |text|);
    } else {
      var e, rest := edits[0], edits[1..];
      InTurnFirst(text, edits);
      FirstAndRest(text, edits);
      hide *;
      CoverTurn(text, e, rest);
      ReplacedLength(text, e);
      TextTotalIs(edits);
      TextTotalMoved(e, rest);
      UncaughtIs(edits);
      InTurnLength(Replaced(text, e), AllMoved(e, rest));
    }
  }

  lemma FirstAndRest(text: string, edits: seq<Edit>)
    requires edits != [] && AllInText(text, edits) && Ranges(edits)
    ensures edits == [edits[0]] + edits[1..] && AllInText(text, edits[1..]) && Ranges(edits[1..])
  {
    assert forall i :: 0 <= i < |edits| - 1 ==> edits[1..][i] == edits[i + 1];
  }

  lemma UncaughtIs(edits: seq<Edit>)
    requires Ranges(edits) && edits != []
    ensures edits[0].begin <= edits[0].end && Ranges(AllMoved(edits[0], edits[1..]))
    ensures Uncaught(edits) <==> Free(edits[0], edits[1..]) && Uncaught(AllMoved(edits[0], edits[1..]))
  {
    var e, moved := edits[0], AllMoved(edits[0], edits[1..]);
    forall i | 0 <= i < |moved|
      ensures moved[i].begin <= moved[i].end
    {
      assert moved[i] == Moved(e, edits[i + 1]);
    }
  }

  lemma ReplacedLength(text: string, e: Edit)
    requires InText(text, e)
    ensures |Replaced(text, e)| == |text| - (e.end - e.begin) + |e.text|
  {
  }

  // ---------------------------------------------------------------- what is not caught comes out as at once

  /** The text behind the replaced range, and the ranges in it, only shift. */
  lemma {:induction false} AtOnceShift(text: string, e: Edit, q: nat, es: seq<Edit>)
    requires InText(text, e) && e.end <= q && Sorted(|text|, q, es) && Free(e, es)
    ensures
      var z, u := |e.text| - (e.end - e.begin), Replaced(text, e);
      && q + z >= 0 && Sorted(|u|, q + z, AllMoved(e, es))
      && AtOnce(u, q + z, AllMoved(e, es)) == AtOnce(text, q, es)
    decreases |es|
  {
    hide *;
    var z, u := |e.text| - (e.end - e.begin), Replaced(text, e);
    InTextIs(text, e);
    SortedBounds(|text|, q, es);
    AtOnceFirst(text, q, es);
    ReplacedBehind(text, e, q);
    if es == [] {
      SortedIf(|u|, q + z, AllMoved(e, es));
    } else {
      var d, moved := es[0], AllMoved(e, es);
      MovedBehind(e, es);
      AllMovedFirst(e, es);
      FreeTail(e, es);
      AtOnceShift(text, e, d.end, es[1..]);
      ReplacedBetween(text, e, q, d.begin);
      SortedIf(|u|, q + z, moved);
    }
    AtOnceFirst(u, q + z, AllMoved(e, es));
  }

  lemma ReplacedBehind(text: string, e: Edit, q: nat)
    requires InText(text, e) && e.end <= q <= |text|
    ensures
      var z, u := |e.text| - (e.end - e.begin), Replaced(text, e);
      0 <= q + z <= |u| == |text| + z && u[q + z..] == text[q..]
  {
  }

  lemma ReplacedBetween(text: string, e: Edit, q: nat, r: nat)
    requires InText(text, e) && e.end <= q <= r <= |text|
    ensures
      var z, u := |e.text| - (e.end - e.begin), Replaced(text, e);
      0 <= q + z <= r + z <= |u| && u[q + z..r + z] == text[q..r]
  {
  }

  /** Behind the replaced range a range only shifts, unless it catches the new text. */
  lemma MovedBehind(e: Edit, es: seq<Edit>)
    requires es != [] && Free(e, es) && e.begin <= e.end <= es[0].begin <= es[0].end
    ensures
      var z, d := |e.text| - (e.end - e.begin), es[0];
      d.begin + z >= 0 && Moved(e, d) == Edit(d.begin + z, d.end + z, d.text)
  {
    assert |e.text| > 0 ==> Separated(e, es[0]);
  }

  lemma MovedBefore(e: Edit, es: seq<Edit>)
    requires es != [] && Free(e, es) && es[0].begin <= es[0].end <= e.begin <= e.end
    ensures Moved(e, es[0]) == es[0]
  {
    assert |e.text| > 0 ==> Separated(e, es[0]);
  }

  lemma FreeTail(e: Edit, es: seq<Edit>)
    requires es != [] && Free(e, es)
    ensures Free(e, es[1..])
  {
    forall i | 0 <= i < |es[1..]|
      ensures es[1..][i] == es[i + 1]
    {
    }
  }

  /** Up to the first range the text is copied. */
  lemma AtOncePrefix(text: string, p: nat, q: nat, es: seq<Edit>)
    requires p <= q && Sorted(|text|, q, es)
    ensures q <= |text| && Sorted(|text|, p, es) && AtOnce(text, p, es) == text[p..q] + AtOnce(text, q, es)
  {
    hide *;
    SortedBounds(|text|, q, es);
    AtOnceFirst(text, q, es);
    SortedIf(|text|, p, es);
    AtOnceFirst(text, p, es);
    if es == [] {
      CutTwice(text, p, q, |text|);
    } else {
      var b := es[0].begin;
      CutTwice(text, p, q, b);
      GlueFour(text[p..q], text[q..b], es[0].text, AtOnce(text, es[0].end, es[1..]));
    }
  }

  lemma CutTwice(text: string, p: nat, q: nat, r: nat)
    requires p <= q <= r <= |text|
    ensures text[p..r] == text[p..q] + text[q..r] && (r == |text| ==> text[p..] == text[p..q] + text[q..])
  {
  }

  lemma GlueFour(a: string, b: string, c: string, d: string)
    ensures (a + b) + c + d == a + (b + c + d)
  {
  }

  function Others(es: seq<Edit>, k: nat): seq<Edit>
    requires k < |es|
  {
    es[..k] + es[k + 1..]
  }

  /** Replacing one range first and then the others at once is replacing all at once, if nothing is caught. */
  lemma {:induction false} AtOnceLater(text: string, p: nat, es: seq<Edit>, k: nat)
    requires Sorted(|text|, p, es) && k < |es| && InText(text, es[k]) && Free(es[k], Others(es, k))
    ensures Sorted(|Replaced(text, es[k])|, p, AllMoved(es[k], Others(es, k)))
    ensures AtOnce(Replaced(text, es[k]), p, AllMoved(es[k], Others(es, k))) == AtOnce(text, p, es)
    decreases k
  {
    hide *;
    InTextIs(text, es[k]);
    var e, u, moved := es[k], Replaced(text, es[k]), AllMoved(es[k], Others(es, k));
    SortedBounds(|text|, p, es);
    AtOnceFirst(text, p, es);
    OthersIs(es, k);
    if k == 0 {
      AtOnceShift(text, e, e.end, es[1..]);
      ReplacedBefore(text, e, p);
      AtOncePrefix(u, p, e.begin + |e.text|, moved);
    } else {
      var d, tail := es[0], es[1..];
      FreeTail(e, Others(es, k));
      SortedBounds(|text|, d.end, tail);
      AtOnceLater(text, d.end, tail, k - 1);
      MovedBefore(e, Others(es, k));
      AllMovedFirst(e, Others(es, k));
      ReplacedSame(text, e, p, d.begin);
      SortedIf(|u|, p, moved);
      AtOnceFirst(u, p, moved);
    }
  }

  lemma OthersIs(es: seq<Edit>, k: nat)
    requires k < |es|
    ensures k == 0 ==> Others(es, 0) == es[1..]
    ensures k > 0 ==>
      && es[1..][k - 1] == es[k] && Others(es, k) != [] && Others(es, k)[0] == es[0]
      && Others(es, k)[1..] == Others(es[1..], k - 1)
  {
  }

  lemma ReplacedBefore(text: string, e: Edit, p: nat)
    requires InText(text, e) && p <= e.begin
    ensures e.begin + |e.text| <= |Replaced(text, e)|
    ensures Replaced(text, e)[p..e.begin + |e.text|] == text[p..e.begin] + e.text
  {
  }

  lemma ReplacedSame(text: string, e: Edit, p: nat, q: nat)
    requires InText(text, e) && p <= q <= e.begin
    ensures q <= |Replaced(text, e)| && Replaced(text, e)[p..q] == text[p..q]
  {
  }

  // ---------------------------------------------------------------- the order in which they are applied

  /** The same edits in another order. */
  ghost predicate Arranged(edits: seq<Edit>, es: seq<Edit>)
    decreases |edits|
  {
    if edits == [] then es == []
    else exists k {:trigger es[k]} :: 0 <= k < |es| && es[k] == edits[0] && Arranged(edits[1..], Others(es, k))
  }

  lemma {:induction false} SameArranged(edits: seq<Edit>, es: seq<Edit>)
    requires multiset(edits) == multiset(es)
    ensures Arranged(edits, es)
    decreases |edits|
  {
    if edits == [] {
      assert |es| == |multiset(edits)|;
    } else {
      assert edits == [edits[0]] + edits[1..] && edits[0] in multiset(es);
      var k :| 0 <= k < |es| && es[k] == edits[0];
      WithOthers(es, k);
      assert multiset(edits[1..]) == multiset(edits) - multiset{edits[0]};
      SameArranged(edits[1..], Others(es, k));
    }
  }

  lemma WithOthers(es: seq<Edit>, k: nat)
    requires k < |es|
    ensures multiset(Others(es, k)) == multiset(es) - multiset{es[k]}
  {
    assert es == es[..k] + [es[k]] + es[k + 1..];
  }

  lemma OthersMoved(e: Edit, es: seq<Edit>, k: nat)
    requires e.begin <= e.end && k < |es|
    ensures AllMoved(e, Others(es, k)) == Others(AllMoved(e, es), k) && AllMoved(e, es)[k] == Moved(e, es[k])
  {
    hide Moved;
  }

  lemma AllMovedFirst(e: Edit, es: seq<Edit>)
    requires e.begin <= e.end && es != []
    ensures AllMoved(e, es)[0] == Moved(e, es[0]) && AllMoved(e, es)[1..] == AllMoved(e, es[1..])
  {
    hide Moved;
  }

  lemma {:induction false} MovedArranged(e: Edit, edits: seq<Edit>, es: seq<Edit>)
    requires e.begin <= e.end && Arranged(edits, es)
    ensures Arranged(AllMoved(e, edits), AllMoved(e, es))
    decreases |edits|
  {
    if edits != [] {
      var k :| 0 <= k < |es| && es[k] == edits[0] && Arranged(edits[1..], Others(es, k));
      hide AllMoved, Moved, Others;
      MovedArranged(e, edits[1..], Others(es, k));
      AllMovedFirst(e, edits);
      OthersMoved(e, es, k);
      assert AllMoved(e, es)[k] == AllMoved(e, edits)[0];
    }
  }

  lemma {:induction false} TotalParts(a: seq<Edit>, b: seq<Edit>)
    ensures TextTotal(a + b) == TextTotal(a) + TextTotal(b)
  {
    if a == [] {
      assert a + b == b;
    } else {
      assert (a + b)[0] == a[0] && (a + b)[1..] == a[1..] + b;
      TotalParts(a[1..], b);
    }
  }

  lemma {:induction false} TotalArranged(edits: seq<Edit>, es: seq<Edit>)
    requires Arranged(edits, es)
    ensures TextTotal(edits) == TextTotal(es) && forall e :: e in edits <==> e in es
    decreases |edits|
  {
    if edits != [] {
      var k :| 0 <= k < |es| && es[k] == edits[0] && Arranged(edits[1..], Others(es, k));
      TotalArranged(edits[1..], Others(es, k));
      assert edits == [edits[0]] + edits[1..];
      TotalOthers(es, k);
    }
  }

  lemma TotalOthers(es: seq<Edit>, k: nat)
    requires k < |es|
    ensures TextTotal(es) == |es[k].text| + TextTotal(Others(es, k))
    ensures forall e :: e in es <==> e == es[k] || e in Others(es, k)
  {
    var a, b := es[..k], [es[k]] + es[k + 1..];
    assert es == a + b && b[1..] == es[k + 1..];
    TotalParts(a, b);
    TotalParts(a, es[k + 1..]);
  }

  lemma FreeArranged(e: Edit, rest: seq<Edit>, es: seq<Edit>)
    requires Free(e, rest) && forall d :: d in rest <==> d in es
    ensures Free(e, es)
  {
    if e.text != "" {
      forall i | 0 <= i < |es|
        ensures Separated(e, es[i])
      {
        assert es[i] in rest;
      }
    }
  }

  lemma InTextArranged(text: string, edits: seq<Edit>, es: seq<Edit>)
    requires Sorted(|text|, 0, es) && forall d :: d in edits <==> d in es
    ensures AllInText(text, edits) && Ranges(edits)
  {
    SortedBounds(|text|, 0, es);
    forall i | 0 <= i < |edits|
      ensures InText(text, edits[i])
    {
      assert edits[i] in es;
    }
  }

  lemma {:induction false} UncaughtAtOnce(text: string, edits: seq<Edit>, es: seq<Edit>)
    requires Sorted(|text|, 0, es) && Arranged(edits, es) && Ranges(edits) && Uncaught(edits)
    requires AllInText(text, edits)
    ensures InTurn(text, edits) == AtOnce(text, 0, es)
    decreases |edits|
  {
    if edits == [] {
      assert text[0..] == text;
    } else {
      var k :| 0 <= k < |es| && es[k] == edits[0] && Arranged(edits[1..], Others(es, k));
      var e, rest := edits[0], edits[1..];
      InTurnFirst(text, edits);
      TotalArranged(rest, Others(es, k));
      FreeArranged(e, rest, Others(es, k));
      hide InTurn, AtOnce, Replaced, Free, AllMoved, Sorted;
      AtOnceLater(text, 0, es, k);
      MovedArranged(e, rest, Others(es, k));
      UncaughtAtOnce(Replaced(text, e), AllMoved(e, rest), AllMoved(e, Others(es, k)));
    }
  }

  lemma {:induction false} AtOnceLength(text: string, p: nat, es: seq<Edit>)
    requires Sorted(|text|, p, es)
    ensures |AtOnce(text, p, es)| == |text| - p - Cover(es, p, |text|) + TextTotal(es)
    decreases |es|
  {
    hide *;
    SortedBounds(|text|, p, es);
    AtOnceFirst(text, p, es);
    TextTotalIs(es);
    if es == [] {
      CoverEmpty(p, |text|);
    } else {
      CoverSorted(|text|, p, es);
      AtOnceLength(text, es[0].end, es[1..]);
    }
  }

  lemma TextTotalIs(es: seq<Edit>)
    ensures TextTotal(es) == if es == [] then 0 else |es[0].text| + TextTotal(es[1..])
  {
  }

  lemma CoverEmpty(p: nat, n: nat)
    ensures Cover([], p, n) == 0
  {
    CoverNone([], p, n);
  }

  lemma CoverSorted(n: nat, p: nat, es: seq<Edit>)
    requires es != [] && Sorted(n, p, es)
    ensures es[0].begin <= es[0].end && Cover(es, p, n) == es[0].end - es[0].begin + Cover(es[1..], es[0].end, n)
  {
    hide Cover;
    var d, tail := es[0], es[1..];
    SortedBounds(n, p, es);
    SortedBounds(n, d.end, tail);
    assert forall i :: 0 < i < |es| ==> es[i] == tail[i - 1];
    CoverSplit(es, p, d.begin, n);
    CoverSplit(es, d.begin, d.end, n);
    CoverNone(es, p, d.begin);
    CoverFull(es, d.begin, d.end);
    CoverTail(es, n);
  }

  lemma CoverTail(es: seq<Edit>, n: nat)
    requires es != [] && es[0].begin <= es[0].end
    ensures Cover(es, es[0].end, n) == Cover(es[1..], es[0].end, n)
  {
    hide Cover, Within;
    forall q: int | es[0].end <= q < n
      ensures Within(es, q) <==> Within(es[1..], q)
    {
      TailWithin(es, q);
    }
    CoverShift(es, es[1..], es[0].end, n, 0);
    CoverShift(es[1..], es, es[0].end, n, 0);
  }

  lemma TailWithin(es: seq<Edit>, q: int)
    requires es != [] && !(es[0].begin <= q < es[0].end)
    ensures Within(es, q) <==> Within(es[1..], q)
  {
    if Within(es, q) {
      var i :| 0 <= i < |es| && es[i].begin <= q < es[i].end;
      assert es[1..][i - 1] == es[i];
    }
    if Within(es[1..], q) {
      var i :| 0 <= i < |es| - 1 && es[1..][i].begin <= q < es[1..][i].end;
      assert es[1..][i] == es[i + 1];
    }
  }

  /**
   * Edits whose ranges do not overlap, applied in turn in any order, come out as if all ranges were replaced at once
   * exactly if at its turn every edit inserts nothing or touches none of those that are still to come.
   */
  lemma TouchingAll(text: string, edits: seq<Edit>, es: seq<Edit>)
    requires Sorted(|text|, 0, es) && multiset(edits) == multiset(es)
    ensures AllInText(text, edits) && Ranges(edits)
    ensures InTurn(text, edits) == AtOnce(text, 0, es) <==> Uncaught(edits)
  {
    SameArranged(edits, es);
    TotalArranged(edits, es);
    InTextArranged(text, edits, es);
    hide *;
    if Uncaught(edits) {
      UncaughtAtOnce(text, edits, es);
    } else {
      InTurnLength(text, edits);
      AtOnceLength(text, 0, es);
      SameWithin(edits, es);
      CoverShift(es, edits, 0, |text|, 0);
    }
  }

  lemma MovedApart(e: Edit, d: Edit, f: Edit)
    requires e.begin <= e.end && d.begin <= d.end && f.begin <= f.end
    requires Separated(e, d) && Separated(e, f) && Separated(d, f)
    ensures Separated(Moved(e, d), Moved(e, f))
  {
  }

  /** Nothing is caught where there is a character between any two ranges. */
  lemma {:induction false} ApartUncaught(edits: seq<Edit>)
    requires Ranges(edits) && AllSeparated(edits)
    ensures Uncaught(edits)
    decreases |edits|
  {
    if edits != [] {
      UncaughtIs(edits);
      var e, rest := edits[0], edits[1..];
      var moved := AllMoved(e, rest);
      forall i | 0 <= i < |rest|
        ensures Separated(e, rest[i])
      {
        assert Separated(edits[0], edits[i + 1]);
      }
      forall i, j | 0 <= i < j < |moved|
        ensures Separated(moved[i], moved[j])
      {
        assert Separated(edits[i + 1], edits[j + 1]) && rest[i] == edits[i + 1] && rest[j] == edits[j + 1];
        MovedApart(e, rest[i], rest[j]);
      }
      ApartUncaught(moved);
    }
  }

  /** For ranges with a character between any two of them, both ways to say "at once" are the same. */
  lemma AtOnceApart(text: string, edits: seq<Edit>, es: seq<Edit>)
    requires Sorted(|text|, 0, es) && multiset(edits) == multiset(es) && AllSeparated(edits)
    ensures AllInText(text, edits) && AtOnce(text, 0, es) == Substituted(text, edits)
  {
    hide *;
    TouchingAll(text, edits, es);
    ApartUncaught(edits);
    InTurnSeparated(text, edits);
  }

  lemma SameWithin(edits: seq<Edit>, es: seq<Edit>)
    requires forall e :: e in edits <==> e in es
    ensures forall p {:trigger Within(es, p)} :: Within(es, p) ==> Within(edits, p + 0)
    ensures forall p {:trigger Within(edits, p)} :: Within(edits, p) ==> Within(es, p + 0)
  {
    forall p: int
      ensures Within(es, p) <==> Within(edits, p)
    {
      if Within(es, p) {
        var i :| 0 <= i < |es| && es[i].begin <= p < es[i].end;
        assert es[i] in edits;
        var j :| 0 <= j < |edits| && edits[j] == es[i];
      }
      if Within(edits, p) {
        var i :| 0 <= i < |edits| && edits[i].begin <= p < edits[i].end;
        assert edits[i] in es;
        var j :| 0 <= j < |es| && es[j] == edits[i];
      }
    }
  }
}
