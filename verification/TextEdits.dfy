/** Replacing several ranges of a text at once, and what one replacement after the other does instead. */
module TextEdits {
  /** A replacement of the characters `[begin, end)`. */
  datatype Edit = Edit(begin: nat, end: nat, text: string)

  predicate InText(text: string, e: Edit) {
    e.begin <= e.end <= |text|
  }

  /** There is at least one character between the two ranges. */
  predicate Separated(d: Edit, e: Edit) {
    d.end < e.begin || e.end < d.begin
  }

  ghost predicate AllSeparated(edits: seq<Edit>) {
    forall i, j :: 0 <= i < j < |edits| ==> Separated(edits[i], edits[j])
  }

  ghost predicate AllInText(text: string, edits: seq<Edit>) {
    forall i :: 0 <= i < |edits| ==> InText(text, edits[i])
  }

  /** The edit that begins at `p`, or the number of edits if there is none. */
  function EditAt(edits: seq<Edit>, p: nat): (i: nat)
    ensures i <= |edits|
    ensures i < |edits| ==> edits[i].begin == p
    ensures i == |edits| ==> forall j :: 0 <= j < |edits| ==> edits[j].begin != p
  {
    if edits == [] then 0 else if edits[0].begin == p then 0 else 1 + EditAt(edits[1..], p)
  }

  function CharAt(text: string, p: nat): string {
    if p < |text| then [text[p]] else ""
  }

  /**
   * Walks over the text from `p` to `q`: where an edit begins its text is put out, and the walk goes on with the
   * character behind its range. The place behind the end of the text counts as a character, an empty one.
   */
  function Walk(text: string, edits: seq<Edit>, p: nat, q: nat): string
    requires AllInText(text, edits)
    decreases q - p
  {
    if p >= q then ""
    else
      var i := EditAt(edits, p);
      if i == |edits| then CharAt(text, p) + Walk(text, edits, p + 1, q)
      else edits[i].text + CharAt(text, edits[i].end) + Walk(text, edits, edits[i].end + 1, q)
  }

  /** All edits at once: every range of the original text is replaced, everything else stays. */
  function Substituted(text: string, edits: seq<Edit>): string
    requires AllInText(text, edits)
  {
    Walk(text, edits, 0, |text| + 1)
  }

  /** A place that no edit reaches over. */
  ghost predicate Clean(edits: seq<Edit>, m: nat) {
    forall i :: 0 <= i < |edits| ==> m <= edits[i].begin || edits[i].end < m
  }

  lemma {:induction false} WalkSplit(text: string, edits: seq<Edit>, p: nat, m: nat, q: nat)
    requires AllInText(text, edits) && p <= m <= q && Clean(edits, m) && Clean(edits, q)
    ensures Walk(text, edits, p, q) == Walk(text, edits, p, m) + Walk(text, edits, m, q)
    decreases q - p
  {
    hide EditAt, CharAt;
    if p < m {
      var i := EditAt(edits, p);
      var (head, next) :=
        if i == |edits| then (CharAt(text, p), p + 1)
        else (edits[i].text + CharAt(text, edits[i].end), edits[i].end + 1);
      assert next <= m;
      WalkSplit(text, edits, next, m, q);
      GlueThree(head, Walk(text, edits, next, m), Walk(text, edits, m, q));
      assert Walk(text, edits, p, q) == head + Walk(text, edits, next, q);
      assert Walk(text, edits, p, m) == head + Walk(text, edits, next, m);
    } else {
      assert Walk(text, edits, p, m) == "";
    }
  }

  /** Where no edit begins the text is copied. */
  lemma {:induction false} WalkPlain(text: string, edits: seq<Edit>, p: nat, q: nat)
    requires AllInText(text, edits) && p <= q <= |text|
    requires forall i :: 0 <= i < |edits| ==> !(p <= edits[i].begin < q)
    ensures Walk(text, edits, p, q) == text[p..q]
    decreases q - p
  {
    if p < q {
      WalkPlain(text, edits, p + 1, q);
      assert [text[p]] + text[p + 1..q] == text[p..q];
    }
  }

  lemma EditAtMore(edits: seq<Edit>, e: Edit, p: nat)
    ensures EditAt(edits + [e], p) == if EditAt(edits, p) < |edits| || e.begin != p then
                                        (if EditAt(edits, p) < |edits| then EditAt(edits, p) else |edits| + 1)
                                      else |edits|
  {
    if edits == [] {
    } else {
      assert (edits + [e])[0] == edits[0] && (edits + [e])[1..] == edits[1..] + [e];
      EditAtMore(edits[1..], e, p);
    }
  }

  /** An edit that begins elsewhere does not matter. */
  lemma {:induction false} WalkMore(text: string, edits: seq<Edit>, e: Edit, p: nat, q: nat)
    requires AllInText(text, edits) && InText(text, e) && !(p <= e.begin < q)
    ensures AllInText(text, edits + [e])
    ensures Walk(text, edits + [e], p, q) == Walk(text, edits, p, q)
    decreases q - p
  {
    hide CharAt, EditAt;
    if p < q {
      EditAtMore(edits, e, p);
      var i := EditAt(edits, p);
      if i == |edits| {
        WalkMore(text, edits, e, p + 1, q);
      } else {
        assert (edits + [e])[i] == edits[i];
        WalkMore(text, edits, e, edits[i].end + 1, q);
      }
    }
  }

  /** `e` has not been applied yet, and lies apart from all that have. */
  ghost predicate Pending(text: string, edits: seq<Edit>, e: Edit) {
    AllInText(text, edits) && InText(text, e) && forall i :: 0 <= i < |edits| ==> Separated(edits[i], e)
  }

  /** Where a place of the original text is after some edits. */
  function PlaceOf(text: string, edits: seq<Edit>, m: nat): nat
    requires AllInText(text, edits)
  {
    |Walk(text, edits, 0, m)|
  }

  lemma WalkCopy(text: string, edits: seq<Edit>, p: nat, q: nat)
    requires AllInText(text, edits) && p < q && forall i :: 0 <= i < |edits| ==> edits[i].begin != p
    ensures Walk(text, edits, p, q) == CharAt(text, p) + Walk(text, edits, p + 1, q)
  {
    assert EditAt(edits, p) == |edits|;
  }

  lemma WalkEdit(text: string, edits: seq<Edit>, e: Edit, q: nat)
    requires AllInText(text, edits + [e]) && e.begin < q && forall i :: 0 <= i < |edits| ==> edits[i].begin != e.begin
    ensures Walk(text, edits + [e], e.begin, q) == e.text + CharAt(text, e.end) + Walk(text, edits + [e], e.end + 1, q)
  {
    EditAtMore(edits, e, e.begin);
    assert EditAt(edits, e.begin) == |edits|;
    assert (edits + [e])[|edits|] == e;
  }

  lemma PendingClean(text: string, edits: seq<Edit>, e: Edit)
    requires Pending(text, edits, e)
    ensures Clean(edits, e.begin) && Clean(edits, e.end) && Clean(edits, e.end + 1) && Clean(edits, |text| + 1)
    ensures AllInText(text, edits + [e]) && Clean(edits + [e], e.begin) && Clean(edits + [e], |text| + 1)
    ensures forall i :: 0 <= i < |edits| ==> edits[i].begin != e.begin && edits[i].begin != e.end
    ensures forall i :: 0 <= i < |edits| ==> !(e.begin <= edits[i].begin < e.end)
  {
    forall i | 0 <= i < |edits|
      ensures Separated(edits[i], e) && InText(text, edits[i])
    {
    }
  }

  lemma GlueThree(a: string, b: string, c: string)
    ensures a + (b + c) == a + b + c
  {
  }

  /** The text after some edits, cut at the range of one that is still to come. */
  lemma PendingParts(text: string, edits: seq<Edit>, e: Edit)
    requires Pending(text, edits, e)
    ensures
      var n := |text| + 1;
      && Substituted(text, edits) == Walk(text, edits, 0, e.begin) + text[e.begin..e.end] + Walk(text, edits, e.end, n)
      && PlaceOf(text, edits, e.end) == PlaceOf(text, edits, e.begin) + (e.end - e.begin)
      && Walk(text, edits, e.end, n) == CharAt(text, e.end) + Walk(text, edits, e.end + 1, n)
  {
    hide Walk;
    var n := |text| + 1;
    PendingClean(text, edits, e);
    WalkSplit(text, edits, 0, e.begin, n);
    WalkSplit(text, edits, e.begin, e.end, n);
    WalkSplit(text, edits, 0, e.begin, e.end);
    WalkPlain(text, edits, e.begin, e.end);
    WalkCopy(text, edits, e.end, n);
    GlueThree(Walk(text, edits, 0, e.begin), text[e.begin..e.end], Walk(text, edits, e.end, n));
  }

  /** One more edit: the text in its range is exchanged, the rest stays. */
  lemma SubstitutedMore(text: string, edits: seq<Edit>, e: Edit)
    requires Pending(text, edits, e)
    ensures AllInText(text, edits + [e])
    ensures Substituted(text, edits + [e]) ==
      Walk(text, edits, 0, e.begin) + e.text + Walk(text, edits, e.end, |text| + 1)
  {
    hide Walk, EditAt;
    var n := |text| + 1;
    PendingClean(text, edits, e);
    WalkMore(text, edits, e, 0, e.begin);
    WalkMore(text, edits, e, e.end + 1, n);
    WalkSplit(text, edits + [e], 0, e.begin, n);
    WalkEdit(text, edits, e, n);
    PendingParts(text, edits, e);
    var a, b, c := Walk(text, edits, 0, e.begin), CharAt(text, e.end), Walk(text, edits, e.end + 1, n);
    GlueThree(e.text, b, c);
    GlueThree(a, e.text, b + c);
  }

  /** What applying `e` does to a place of another pending edit. */
  lemma PlaceMoves(text: string, edits: seq<Edit>, e: Edit, m: nat)
    requires Pending(text, edits, e) && m <= |text| && (m < e.begin || e.end < m)
    requires Clean(edits, m) && forall i :: 0 <= i < |edits| ==> edits[i].begin != m
    ensures AllInText(text, edits + [e])
    ensures m < e.begin ==>
      && PlaceOf(text, edits + [e], m) == PlaceOf(text, edits, m)
      && PlaceOf(text, edits, m) < PlaceOf(text, edits, e.begin)
    ensures e.end < m ==>
      && PlaceOf(text, edits + [e], m) == PlaceOf(text, edits, m) - (e.end - e.begin) + |e.text|
      && PlaceOf(text, edits, m) > PlaceOf(text, edits, e.end)
  {
    hide Walk;
    WalkMore(text, edits, e, 0, if m < e.begin then m else 0);
    if m < e.begin {
      PendingClean(text, edits, e);
      WalkSplit(text, edits, 0, m, e.begin);
      WalkCopy(text, edits, m, e.begin);
      assert |CharAt(text, m)| == 1;
    } else {
      PlaceBehind(text, edits, e, m);
    }
  }

  lemma PlaceBehind(text: string, edits: seq<Edit>, e: Edit, m: nat)
    requires Pending(text, edits, e) && e.end < m <= |text| && Clean(edits, m)
    ensures AllInText(text, edits + [e])
    ensures PlaceOf(text, edits + [e], m) == PlaceOf(text, edits, m) - (e.end - e.begin) + |e.text|
    ensures PlaceOf(text, edits, m) > PlaceOf(text, edits, e.end)
  {
    hide Walk, EditAt;
    PendingClean(text, edits, e);
    assert Clean(edits + [e], m);
    WalkMore(text, edits, e, 0, e.begin);
    WalkMore(text, edits, e, e.end + 1, m);
    WalkSplit(text, edits + [e], 0, e.begin, m);
    WalkEdit(text, edits, e, m);
    WalkSplit(text, edits, 0, e.begin, m);
    WalkSplit(text, edits, e.begin, e.end, m);
    WalkSplit(text, edits, 0, e.begin, e.end);
    WalkPlain(text, edits, e.begin, e.end);
    WalkCopy(text, edits, e.end, m);
    assert |CharAt(text, e.end)| == 1;
  }

  // ---------------------------------------------------------------- order

  /** With ranges apart there is one edit at most that begins at a place. */
  lemma EditAtOnly(edits: seq<Edit>, k: nat)
    requires AllSeparated(edits) && k < |edits| && forall i :: 0 <= i < |edits| ==> edits[i].begin <= edits[i].end
    ensures EditAt(edits, edits[k].begin) == k
  {
    var i := EditAt(edits, edits[k].begin);
    assert i < k ==> Separated(edits[i], edits[k]);
    assert k < i < |edits| ==> Separated(edits[k], edits[i]);
  }

  lemma EditAtSame(text: string, a: seq<Edit>, b: seq<Edit>, p: nat)
    requires AllInText(text, b) && AllSeparated(b)
    requires forall e :: e in a <==> e in b
    ensures EditAt(a, p) == |a| <==> EditAt(b, p) == |b|
    ensures EditAt(a, p) < |a| ==> EditAt(b, p) < |b| && b[EditAt(b, p)] == a[EditAt(a, p)]
  {
    var i, j := EditAt(a, p), EditAt(b, p);
    if i < |a| {
      assert a[i] in b;
      var k :| 0 <= k < |b| && b[k] == a[i];
      EditAtOnly(b, k);
    }
    assert j < |b| ==> b[j] in a;
  }

  /** Edits in any order: with ranges apart, it only matters which edits there are. */
  lemma {:induction false} WalkSame(text: string, a: seq<Edit>, b: seq<Edit>, p: nat, q: nat)
    requires AllInText(text, a) && AllInText(text, b) && AllSeparated(b)
    requires forall e :: e in a <==> e in b
    ensures Walk(text, a, p, q) == Walk(text, b, p, q)
    decreases q - p
  {
    if p < q {
      EditAtSame(text, a, b, p);
      var i := EditAt(a, p);
      WalkSame(text, a, b, if i < |a| then a[i].end + 1 else p + 1, q);
    }
  }

  lemma {:induction false} OnceOnly(text: string, edits: seq<Edit>, e: Edit)
    requires AllInText(text, edits) && AllSeparated(edits)
    ensures multiset(edits)[e] <= 1
  {
    if edits != [] {
      var n := |edits| - 1;
      var rest := edits[..n];
      assert edits == rest + [edits[n]];
      OnceOnly(text, rest, e);
      forall k | 0 <= k < n
        ensures rest[k] != edits[n]
      {
        assert Separated(edits[k], edits[n]);
      }
    }
  }

  lemma TwiceAtLeast(edits: seq<Edit>, i: nat, j: nat)
    requires i < j < |edits| && edits[i] == edits[j]
    ensures multiset(edits)[edits[i]] >= 2
  {
    assert edits == edits[..j] + edits[j..];
    assert edits[..j][i] in edits[..j] && edits[j..][0] in edits[j..];
  }

  /** Edits listed in another order are still apart from each other. */
  lemma SeparatedAnyOrder(text: string, a: seq<Edit>, b: seq<Edit>)
    requires AllInText(text, a) && AllSeparated(a) && multiset(a) == multiset(b)
    ensures AllInText(text, b) && AllSeparated(b)
    ensures forall e :: e in a <==> e in b
  {
    forall e
      ensures e in a <==> e in b
    {
      assert e in multiset(a) <==> e in multiset(b);
    }
    forall i | 0 <= i < |b|
      ensures InText(text, b[i])
    {
      assert b[i] in a;
    }
    forall i, j | 0 <= i < j < |b|
      ensures Separated(b[i], b[j])
    {
      assert b[i] in a && b[j] in a;
      var k :| 0 <= k < |a| && a[k] == b[i];
      var l :| 0 <= l < |a| && a[l] == b[j];
      if k == l {
        TwiceAtLeast(b, i, j);
        OnceOnly(text, a, b[i]);
      }
    }
  }

  /** The result does not depend on the order of the edits. */
  lemma OrderIndependent(text: string, a: seq<Edit>, b: seq<Edit>)
    requires AllInText(text, a) && AllSeparated(a) && multiset(a) == multiset(b)
    ensures AllInText(text, b) && Substituted(text, a) == Substituted(text, b)
  {
    SeparatedAnyOrder(text, a, b);
    WalkSame(text, a, b, 0, |text| + 1);
  }

  /** Exchanging the text between the two places of a pending edit is the next substitution. */
  lemma AppliedText(text: string, edits: seq<Edit>, e: Edit)
    requires Pending(text, edits, e)
    ensures
      var s, a, b := Substituted(text, edits), PlaceOf(text, edits, e.begin), PlaceOf(text, edits, e.end);
      a <= b <= |s| && AllInText(text, edits + [e]) && s[..a] + e.text + s[b..] == Substituted(text, edits + [e])
  {
    hide Walk;
    PendingParts(text, edits, e);
    SubstitutedMore(text, edits, e);
    var w, m, r := Walk(text, edits, 0, e.begin), text[e.begin..e.end], Walk(text, edits, e.end, |text| + 1);
    CutThree(Substituted(text, edits), w, m, r);
  }

  lemma CutThree(s: string, a: string, m: string, b: string)
    requires s == a + m + b
    ensures s[..|a|] == a && s[|a| + |m|..] == b
  {
  }
}
