/** Buffers with marks, edits that place marks around their range, and a list of edits over several buffers. */
module EditBuffers {
  import opened TextEdits
  import opened EditTurns

  type Marks = map<nat, Mark>

  /** The fields of a buffer. */
  datatype State = State(text: string, marks: Marks, nextMark: nat, actions: nat)

  class Buffer {
    var text: string
    var marks: Marks
    var nextMark: nat
    /** How many user actions are open. */
    var actions: nat

    constructor (text: string)
      ensures this.text == text && marks == map[] && actions == 0 && Valid()
    {
      this.text, marks, nextMark, actions := text, map[], 0, 0;
    }

    ghost predicate Valid()
      reads this
    {
      forall i :: i in marks ==> i < nextMark && marks[i].pos <= |text|
    }

    ghost function Snap(): State
      reads this
    {
      State(text, marks, nextMark, actions)
    }

    method BeginUserAction()
      modifies this`actions
      ensures actions == old(actions) + 1
    {
      actions := actions + 1;
    }

    method EndUserAction()
      requires actions > 0
      modifies this`actions
      ensures actions == old(actions) - 1
    {
      actions := actions - 1;
    }

    method CreateMark(pos: nat, left: bool) returns (id: nat)
      requires Valid() && pos <= |text|
      modifies this`marks, this`nextMark
      ensures Valid() && id == old(nextMark) && nextMark == id + 1 && id !in old(marks)
      ensures marks == old(marks)[id := Mark(pos, left)]
    {
      id := nextMark;
      marks := marks[id := Mark(pos, left)];
      nextMark := nextMark + 1;
    }

    method Delete(a: nat, b: nat)
      requires Valid() && a <= b <= |text|
      modifies this`text, this`marks
      ensures Valid() && text == old(text)[..a] + old(text)[b..]
      ensures marks.Keys == old(marks.Keys) && forall i :: i in marks ==> marks[i] == AfterDelete(old(marks)[i], a, b)
    {
      text := text[..a] + text[b..];
      marks := map i | i in marks :: AfterDelete(marks[i], a, b);
    }

    method Insert(p: nat, s: string)
      requires Valid() && p <= |text|
      modifies this`text, this`marks
      ensures Valid() && text == old(text)[..p] + s + old(text)[p..]
      ensures marks.Keys == old(marks.Keys) && forall i :: i in marks ==> marks[i] == AfterInsert(old(marks)[i], p, |s|)
    {
      text := text[..p] + s + text[p..];
      marks := map i | i in marks :: AfterInsert(marks[i], p, |s|);
    }

    method DeleteMark(id: nat)
      requires Valid()
      modifies this`marks
      ensures Valid() && marks == old(marks) - {id}
    {
      marks := marks - {id};
    }
  }

  type File = int

  datatype Place = NoPlace | Range(file: File, begin: nat, end: nat)

  function WithMarks(s: State, p: Place): State
    requires p.Range?
  {
    var b := s.nextMark;
    State(s.text, s.marks[b := Mark(p.begin, true)][b + 1 := Mark(p.end, false)], b + 2, s.actions + 1)
  }

  class TextEdit {
    const place: Place
    const text: string
    var beginMark: nat
    var endMark: nat

    constructor (place: Place, text: string)
      ensures this.place == place && this.text == text
    {
      this.place, this.text := place, text;
      beginMark, endMark := 0, 0;
    }

    /** Puts a mark at either end of the range; text inserted at an end stays inside. */
    method Prepare(buffer: Buffer)
      requires buffer.Valid() && place.Range? && place.begin <= |buffer.text| && place.end <= |buffer.text|
      modifies this`beginMark, this`endMark, buffer`marks, buffer`nextMark
      ensures buffer.Valid() && beginMark == old(buffer.nextMark) && endMark == beginMark + 1 < buffer.nextMark
      ensures beginMark !in old(buffer.marks) && endMark !in old(buffer.marks) && buffer.nextMark == endMark + 1
      ensures buffer.marks == old(buffer.marks)[beginMark := Mark(place.begin, true)][endMark := Mark(place.end, false)]
    {
      beginMark := buffer.CreateMark(place.begin, true);
      endMark := buffer.CreateMark(place.end, false);
    }

    /** The buffer with the two marks of this edit and one more user action. */
    method Stage(buffer: Buffer)
      requires buffer.Valid() && place.Range? && place.begin <= |buffer.text| && place.end <= |buffer.text|
      modifies this`beginMark, this`endMark, buffer
      ensures buffer.Valid() && beginMark == old(buffer.nextMark) && endMark == beginMark + 1
      ensures buffer.Snap() == WithMarks(old(buffer.Snap()), place)
    {
      buffer.BeginUserAction();
      Prepare(buffer);
    }

    /** Replaces the text between the marks and drops the marks. */
    method Apply(buffer: Buffer)
      requires buffer.Valid() && beginMark in buffer.marks && endMark in buffer.marks && beginMark != endMark
      requires buffer.marks[beginMark].pos <= buffer.marks[endMark].pos && buffer.marks[beginMark].left
      modifies buffer`text, buffer`marks
      ensures buffer.Valid() && buffer.marks.Keys == old(buffer.marks).Keys - {beginMark, endMark}
      ensures
        var a, b := old(buffer.marks[beginMark].pos), old(buffer.marks[endMark].pos);
        && b <= |old(buffer.text)|
        && buffer.text == old(buffer.text)[..a] + text + old(buffer.text)[b..]
        && forall i :: i in buffer.marks ==> buffer.marks[i] == AfterReplace(old(buffer.marks)[i], a, b, |text|)
    {
      var a, b := buffer.marks[beginMark].pos, buffer.marks[endMark].pos;
      ghost var before := buffer.text;
      buffer.Delete(a, b);
      var p := buffer.marks[beginMark].pos;
      buffer.Insert(p, text);
      assert buffer.text == before[..a] + text + before[b..];
      buffer.DeleteMark(beginMark);
      buffer.DeleteMark(endMark);
    }
  }

  // ---------------------------------------------------------------- many edits

  predicate IsFor(e: TextEdit, f: File) {
    e.place.Range? && e.place.file == f
  }

  function Plain(e: TextEdit): Edit
    requires e.place.Range?
  {
    Edit(e.place.begin, e.place.end, e.text)
  }

  /** The edits of one file, in the order of the list. */
  function EditsFor(edits: seq<TextEdit>, f: File): seq<Edit> {
    if edits == [] then []
    else EditsFor(edits[..|edits| - 1], f) + if IsFor(edits[|edits| - 1], f) then [Plain(edits[|edits| - 1])] else []
  }

  lemma EditsNext(edits: seq<TextEdit>, k: nat, f: File)
    requires k < |edits|
    ensures EditsFor(edits[..k + 1], f) == EditsFor(edits[..k], f)
      + if IsFor(edits[k], f) then [Plain(edits[k])] else []
  {
    assert edits[..k + 1][..k] == edits[..k];
  }

  /** The edits of a file that come first in the list are the first of the file. */
  lemma {:induction false} EditsPrefix(edits: seq<TextEdit>, k: nat, j: nat, f: File)
    requires k <= j <= |edits|
    ensures |EditsFor(edits[..k], f)| <= |EditsFor(edits[..j], f)|
    ensures EditsFor(edits[..k], f) == EditsFor(edits[..j], f)[..|EditsFor(edits[..k], f)|]
  {
    if k < j {
      EditsPrefix(edits, k, j - 1, f);
      EditsNext(edits, j - 1, f);
    } else {
      var s := EditsFor(edits[..k], f);
      assert s[..|s|] == s;
    }
  }

  /** Where an edit of a file stands among all edits of the file. */
  lemma PlaceInList(edits: seq<TextEdit>, j: nat, f: File)
    requires j < |edits| && IsFor(edits[j], f)
    ensures |EditsFor(edits[..j], f)| < |EditsFor(edits, f)|
    ensures
      var e := EditsFor(edits, f)[|EditsFor(edits[..j], f)|];
      && e == Plain(edits[j])
      && e.begin == edits[j].place.begin && e.end == edits[j].place.end && e.text == edits[j].text
  {
    EditsPrefix(edits, j + 1, |edits|, f);
    EditsNext(edits, j, f);
    assert edits[..|edits|] == edits;
  }

  /** An edit further down the list comes later among the edits of its file. */
  lemma LaterInList(edits: seq<TextEdit>, k: nat, j: nat, f: File)
    requires k < j < |edits| && IsFor(edits[k], f)
    ensures |EditsFor(edits[..k], f)| < |EditsFor(edits[..j], f)|
  {
    EditsPrefix(edits, k + 1, j, f);
    EditsNext(edits, k, f);
  }

  /** The marks of an edit are at the ends of its range. */
  predicate MarksAt(marks: Marks, e: Edit, begin: nat, end: nat) {
    begin in marks && marks[begin] == Mark(e.begin, true) && end in marks && marks[end] == Mark(e.end, false)
  }

  /** The marks of a later edit after an earlier one of the same file has been applied. */
  lemma MarksMove(before: Marks, after: Marks, first: Edit, e: Edit, begin: nat, end: nat)
    requires first.begin <= first.end && MarksAt(before, e, begin, end) && begin in after && end in after
    requires after[begin] == AfterReplace(before[begin], first.begin, first.end, |first.text|)
    requires after[end] == AfterReplace(before[end], first.begin, first.end, |first.text|)
    ensures MarksAt(after, Moved(first, e), begin, end)
  {
  }

  // ---------------------------------------------------------------- the three passes over the list

  /** Mark `x` is one of the two of edit `j`. */
  predicate MarkOfAt(edits: seq<TextEdit>, ids: seq<nat>, f: File, x: nat, j: nat) {
    j < |ids| && j < |edits| && IsFor(edits[j], f) && (x == ids[j] || x == ids[j] + 1)
  }

  /** Mark `x` was there before or belongs to one of the edits from number `k` on. */
  ghost predicate Known(s0: State, edits: seq<TextEdit>, ids: seq<nat>, k: nat, f: File, x: nat) {
    x in s0.marks || exists j: nat {:trigger MarkOfAt(edits, ids, f, x, j)} :: k <= j && MarkOfAt(edits, ids, f, x, j)
  }

  predicate ApartAt(edits: seq<TextEdit>, ids: seq<nat>, f: File, j: nat, l: nat) {
    j < l < |ids| && l < |edits| && IsFor(edits[j], f) && IsFor(edits[l], f) ==> ids[j] + 1 < ids[l]
  }

  /** The marks of different edits are different. */
  ghost predicate IdsApart(edits: seq<TextEdit>, ids: seq<nat>, f: File) {
    forall j: nat, l: nat {:trigger ApartAt(edits, ids, f, j, l)} :: ApartAt(edits, ids, f, j, l)
  }

  /**
   * Edit `j`, if it is one of the file, has its marks at its range; `n` edits of the file are no longer among
   * `rest`.
   */
  ghost predicate HasMarks(s0: State, s: State, edits: seq<TextEdit>, ids: seq<nat>, f: File, rest: seq<Edit>, n: nat,
      j: nat)
  {
    j < |ids| && j < |edits| && IsFor(edits[j], f) ==>
      && s0.nextMark <= ids[j] && ids[j] + 1 < s.nextMark
      && var place := |EditsFor(edits[..j], f)|;
      && n <= place < n + |rest| && MarksAt(s.marks, rest[place - n], ids[j], ids[j] + 1)
  }

  ghost predicate OldMarks(s0: State, s: State) {
    && s0.nextMark <= s.nextMark && s0.marks.Keys <= s.marks.Keys
    && forall x :: x in s0.marks ==> x < s0.nextMark
  }

  ghost predicate AllKnown(s0: State, s: State, edits: seq<TextEdit>, ids: seq<nat>, k: nat, f: File) {
    forall x: nat {:trigger Known(s0, edits, ids, k, f, x)} :: x in s.marks ==> Known(s0, edits, ids, k, f, x)
  }

  ghost predicate AllHaveMarks(s0: State, s: State, edits: seq<TextEdit>, ids: seq<nat>, k: nat, f: File,
      rest: seq<Edit>, n: nat)
  {
    forall j: nat {:trigger HasMarks(s0, s, edits, ids, f, rest, n, j)} :: k <= j ==>
      HasMarks(s0, s, edits, ids, f, rest, n, j)
  }

  /** The first |ids| edits have placed their marks. */
  ghost predicate Placing(s0: State, s: State, edits: seq<TextEdit>, ids: seq<nat>, f: File) {
    && |ids| <= |edits| && IdsApart(edits, ids, f)
    && s.text == s0.text && OldMarks(s0, s) && AllKnown(s0, s, edits, ids, 0, f)
    && AllHaveMarks(s0, s, edits, ids, 0, f, EditsFor(edits, f), 0)
    && s.actions == s0.actions + |EditsFor(edits[..|ids|], f)|
  }

  /** All marks are placed and the first `k` edits have been applied. */
  ghost predicate Applying(s0: State, s: State, edits: seq<TextEdit>, ids: seq<nat>, k: nat, f: File) {
    && |ids| == |edits| && k <= |edits| && IdsApart(edits, ids, f)
    && AllInText(s0.text, EditsFor(edits, f))
    && var n := |EditsFor(edits[..k], f)|;
    && n <= |EditsFor(edits, f)|
    && var t := Turns(s0.text, EditsFor(edits, f), n);
    && s.text == t.text
    && OldMarks(s0, s) && AllKnown(s0, s, edits, ids, k, f) && AllHaveMarks(s0, s, edits, ids, k, f, t.rest, n)
    && s.actions == s0.actions + |EditsFor(edits, f)|
  }

  lemma KnownMore(s0: State, edits: seq<TextEdit>, ids: seq<nat>, k: nat, f: File, id: nat, x: nat)
    requires Known(s0, edits, ids, k, f, x)
    ensures Known(s0, edits, ids + [id], k, f, x)
  {
    if x !in s0.marks {
      var j: nat :| k <= j && MarkOfAt(edits, ids, f, x, j);
      assert MarkOfAt(edits, ids + [id], f, x, j);
    }
  }

  lemma IdsMore(edits: seq<TextEdit>, ids: seq<nat>, f: File, id: nat)
    requires IdsApart(edits, ids, f) && |ids| < |edits|
    requires IsFor(edits[|ids|], f) ==> forall j: nat :: j < |ids| && IsFor(edits[j], f) ==> ids[j] + 1 < id
    ensures IdsApart(edits, ids + [id], f)
  {
    forall j: nat, l: nat
      ensures ApartAt(edits, ids + [id], f, j, l)
    {
      assert ApartAt(edits, ids, f, j, l);
    }
  }

  /** What the next edit of the file does when it places its marks. */
  lemma PlacedOne(s0: State, s: State, t: State, edits: seq<TextEdit>, ids: seq<nat>, f: File)
    requires Placing(s0, s, edits, ids, f) && |ids| < |edits| && IsFor(edits[|ids|], f)
    requires t == WithMarks(s, edits[|ids|].place)
    requires edits[|ids|].place.begin <= edits[|ids|].place.end <= |s0.text|
    requires forall x :: x in s.marks ==> x < s.nextMark
    ensures Placing(s0, t, edits, ids + [s.nextMark], f)
  {
    var n, id, more, all := |ids|, s.nextMark, ids + [s.nextMark], EditsFor(edits, f);
    EditsNext(edits, n, f);
    PlaceInList(edits, n, f);
    hide EditsFor;
    forall j: nat | j < n && IsFor(edits[j], f)
      ensures ids[j] + 1 < id
    {
      assert HasMarks(s0, s, edits, ids, f, all, 0, j);
    }
    IdsMore(edits, ids, f, id);
    forall x: nat | x in t.marks
      ensures Known(s0, edits, more, 0, f, x)
    {
      if x in s.marks {
        assert Known(s0, edits, ids, 0, f, x);
        KnownMore(s0, edits, ids, 0, f, id, x);
      } else {
        assert MarkOfAt(edits, more, f, x, n);
      }
    }
    forall j: nat
      ensures HasMarks(s0, t, edits, more, f, all, 0, j)
    {
      if j != n {
        assert HasMarks(s0, s, edits, ids, f, all, 0, j);
      }
    }
  }

  /** An edit of another file, or of none, has no marks in this buffer. */
  lemma PlacedOther(s0: State, s: State, edits: seq<TextEdit>, ids: seq<nat>, f: File, id: nat)
    requires Placing(s0, s, edits, ids, f) && |ids| < |edits| && !IsFor(edits[|ids|], f)
    ensures Placing(s0, s, edits, ids + [id], f)
  {
    EditsNext(edits, |ids|, f);
    IdsMore(edits, ids, f, id);
    forall x: nat | x in s.marks
      ensures Known(s0, edits, ids + [id], 0, f, x)
    {
      assert Known(s0, edits, ids, 0, f, x);
      KnownMore(s0, edits, ids, 0, f, id, x);
    }
    forall j: nat
      ensures HasMarks(s0, s, edits, ids + [id], f, EditsFor(edits, f), 0, j)
    {
      assert HasMarks(s0, s, edits, ids, f, EditsFor(edits, f), 0, j);
    }
  }

  lemma AllPlaced(s0: State, s: State, edits: seq<TextEdit>, ids: seq<nat>, f: File)
    requires Placing(s0, s, edits, ids, f) && |ids| == |edits| && AllInText(s0.text, EditsFor(edits, f))
    ensures Applying(s0, s, edits, ids, 0, f)
  {
    assert edits[..|edits|] == edits && edits[..0] == [] && EditsFor([], f) == [];
    assert Turns(s0.text, EditsFor(edits, f), 0) == Turn(s0.text, EditsFor(edits, f));
  }

  /** The next edit of the file, and the buffer's text when it is its turn. */
  lemma TurnOf(s0: State, s: State, edits: seq<TextEdit>, ids: seq<nat>, k: nat, f: File) returns (t: Turn)
    requires Applying(s0, s, edits, ids, k, f) && k < |edits| && IsFor(edits[k], f)
    ensures AllInText(s0.text, EditsFor(edits, f)) && |EditsFor(edits[..k], f)| < |EditsFor(edits, f)|
    ensures t == Turns(s0.text, EditsFor(edits, f), |EditsFor(edits[..k], f)|) && s.text == t.text && t.rest != []
    ensures t.rest[0].text == edits[k].text && InText(t.text, t.rest[0])
    ensures MarksAt(s.marks, t.rest[0], ids[k], ids[k] + 1) && s0.nextMark <= ids[k]
    ensures IdsApart(edits, ids, f) && OldMarks(s0, s) && AllKnown(s0, s, edits, ids, k, f)
    ensures AllHaveMarks(s0, s, edits, ids, k, f, t.rest, |EditsFor(edits[..k], f)|)
    ensures |ids| == |edits| && s.actions == s0.actions + |EditsFor(edits, f)|
  {
    PlaceInList(edits, k, f);
    hide EditsFor, Turns;
    var n := |EditsFor(edits[..k], f)|;
    t := Turns(s0.text, EditsFor(edits, f), n);
    assert HasMarks(s0, s, edits, ids, f, t.rest, n, k);
    assert EditsFor(edits, f)[n + 0] == Plain(edits[k]);
  }

  /** The text between two marks is replaced, and the marks are dropped. */
  ghost predicate MarkedReplaced(s: State, t: State, id: nat, text: string) {
    && id in s.marks && id + 1 in s.marks && s.marks[id].pos <= s.marks[id + 1].pos <= |s.text|
    && var a, b := s.marks[id].pos, s.marks[id + 1].pos;
    && t.text == s.text[..a] + text + s.text[b..] && t.nextMark == s.nextMark && t.actions == s.actions
    && t.marks.Keys == s.marks.Keys - {id, id + 1}
    && (forall i :: i in t.marks ==> t.marks[i] == AfterReplace(s.marks[i], a, b, |text|))
  }

  /** What the next edit of the file finds. */
  lemma ReadyOne(s0: State, s: State, edits: seq<TextEdit>, ids: seq<nat>, k: nat, f: File)
    requires Applying(s0, s, edits, ids, k, f) && k < |edits| && IsFor(edits[k], f)
    ensures ids[k] in s.marks && ids[k] + 1 in s.marks && s.marks[ids[k]].left
    ensures s.marks[ids[k]].pos <= s.marks[ids[k] + 1].pos <= |s.text|
  {
    hide Applying;
    var t := TurnOf(s0, s, edits, ids, k, f);
  }

  /** What applying the next edit of the file does. */
  lemma AppliedOne(s0: State, s: State, u: State, edits: seq<TextEdit>, ids: seq<nat>, k: nat, f: File)
    requires Applying(s0, s, edits, ids, k, f) && k < |edits| && IsFor(edits[k], f)
    requires MarkedReplaced(s, u, ids[k], edits[k].text)
    ensures Applying(s0, u, edits, ids, k + 1, f)
  {
    var t := TurnOf(s0, s, edits, ids, k, f);
    var all, n := EditsFor(edits, f), |EditsFor(edits[..k], f)|;
    EditsNext(edits, k, f);
    hide EditsFor, IdsApart, OldMarks, AllKnown;
    AppliedKeys(s0, s, u, edits, ids, k, f);
    assert Turns(s0.text, all, n + 1) == NextTurn(t);
    var rest, m := NextTurn(t).rest, n + 1;
    forall j: nat
      ensures k + 1 <= j ==> HasMarks(s0, u, edits, ids, f, rest, m, j)
    {
      if k + 1 <= j {
        AppliedMarks(s0, s, u, edits, ids, k, f, t, n, j);
      }
    }
  }

  lemma AppliedKeys(s0: State, s: State, t: State, edits: seq<TextEdit>, ids: seq<nat>, k: nat, f: File)
    requires |ids| == |edits| && k < |ids| && IsFor(edits[k], f) && OldMarks(s0, s) && AllKnown(s0, s, edits, ids, k, f)
    requires s0.nextMark <= ids[k] && t.nextMark == s.nextMark && t.marks.Keys == s.marks.Keys - {ids[k], ids[k] + 1}
    ensures OldMarks(s0, t) && AllKnown(s0, t, edits, ids, k + 1, f)
  {
    forall x: nat | x in t.marks
      ensures Known(s0, edits, ids, k + 1, f, x)
    {
      assert x in t.marks.Keys && Known(s0, edits, ids, k, f, x);
      if x !in s0.marks {
        var j: nat :| k <= j && MarkOfAt(edits, ids, f, x, j);
        assert j != k;
      }
    }
  }

  lemma AppliedMarks(s0: State, s: State, u: State, edits: seq<TextEdit>, ids: seq<nat>, k: nat, f: File, t: Turn,
      n: nat, j: nat)
    requires |ids| == |edits| && k < j && k < |ids| && IsFor(edits[k], f) && IdsApart(edits, ids, f)
    requires n == |EditsFor(edits[..k], f)| && t.rest != [] && AllInText(t.text, t.rest)
    requires MarksAt(s.marks, t.rest[0], ids[k], ids[k] + 1) && t.rest[0].text == edits[k].text
    requires AllHaveMarks(s0, s, edits, ids, k, f, t.rest, n)
    requires MarkedReplaced(s, u, ids[k], edits[k].text)
    ensures HasMarks(s0, u, edits, ids, f, NextTurn(t).rest, n + 1, j)
  {
    assert HasMarks(s0, s, edits, ids, f, t.rest, n, j);
    if j < |edits| && IsFor(edits[j], f) {
      assert ApartAt(edits, ids, f, k, j);
      LaterInList(edits, k, j, f);
      var place := |EditsFor(edits[..j], f)|;
      assert NextTurn(t).rest[place - n - 1] == Moved(t.rest[0], t.rest[place - n - 1 + 1]);
      assert ids[j] in u.marks.Keys && ids[j] + 1 in u.marks.Keys;
      hide EditsFor, NextTurn, Moved;
      MarksMove(s.marks, u.marks, t.rest[0], t.rest[place - n], ids[j], ids[j] + 1);
    }
  }

  lemma AppliedOther(s0: State, s: State, edits: seq<TextEdit>, ids: seq<nat>, k: nat, f: File)
    requires Applying(s0, s, edits, ids, k, f) && k < |edits| && !IsFor(edits[k], f)
    ensures Applying(s0, s, edits, ids, k + 1, f)
  {
    EditsNext(edits, k, f);
    var all, done := EditsFor(edits, f), EditsFor(edits[..k], f);
    assert done + [] == done;
    var t := Turns(s0.text, all, |done|);
    hide Turns, EditsFor;
    forall x: nat | x in s.marks
      ensures Known(s0, edits, ids, k + 1, f, x)
    {
      assert Known(s0, edits, ids, k, f, x);
      if x !in s0.marks {
        var j: nat :| k <= j && MarkOfAt(edits, ids, f, x, j);
        assert j != k;
      }
    }
    forall j: nat
      ensures k + 1 <= j ==> HasMarks(s0, s, edits, ids, f, t.rest, |done|, j)
    {
      assert k <= j ==> HasMarks(s0, s, edits, ids, f, t.rest, |done|, j);
    }
  }

  /** In the end all edits of the file have had their turn, and no mark is left over. */
  lemma AllApplied(s0: State, s: State, edits: seq<TextEdit>, ids: seq<nat>, f: File)
    requires Applying(s0, s, edits, ids, |edits|, f)
    ensures AllInText(s0.text, EditsFor(edits, f)) && s.text == InTurn(s0.text, EditsFor(edits, f))
    ensures s.marks.Keys == s0.marks.Keys && s.actions == s0.actions + |EditsFor(edits, f)|
  {
    assert edits[..|edits|] == edits;
    forall x: nat | x in s.marks
      ensures x in s0.marks
    {
      assert Known(s0, edits, ids, |edits|, f, x);
    }
  }

  /** The buffer that an edit belongs to, if it has a range and its file has a buffer. */
  function Lookup(buffers: map<File, Buffer?>, e: TextEdit): Buffer? {
    if e.place.Range? && e.place.file in buffers then buffers[e.place.file] else null
  }

  ghost predicate OneBufferEach(buffers: map<File, Buffer?>) {
    forall f, g :: f in buffers && g in buffers && f != g && buffers[f] != null ==> buffers[f] != buffers[g]
  }

  /** The open buffers. */
  ghost function Opened(buffers: map<File, Buffer?>): set<Buffer> {
    set f | f in buffers && buffers[f] != null :: buffers[f]
  }

  /** A file whose edits have their ranges in its buffer. */
  ghost predicate Editable(buffers: map<File, Buffer?>, edits: seq<TextEdit>, f: File)
    reads Opened(buffers)
  {
    f in buffers && buffers[f] != null ==>
      buffers[f].Valid() && AllInText(buffers[f].text, EditsFor(edits, f))
  }

  /** The states of the open buffers before anything was done, and what the edits of each have to be like. */
  ghost predicate Start(buffers: map<File, Buffer?>, edits: seq<TextEdit>, before: map<File, State>) {
    (forall f {:trigger EditsFor(edits, f)} {:trigger before[f]} :: f in buffers && buffers[f] != null ==>
        f in before && AllInText(before[f].text, EditsFor(edits, f)))
  }

  lemma FitsBefore(buffers: map<File, Buffer?>, edits: seq<TextEdit>, before: map<File, State>, i: nat)
    requires Start(buffers, edits, before) && i < |edits| && Lookup(buffers, edits[i]) != null
    ensures
      var f := edits[i].place.file;
      f in before && InText(before[f].text, Plain(edits[i])) && AllInText(before[f].text, EditsFor(edits, f))
  {
    var f := edits[i].place.file;
    PlaceInList(edits, i, f);
    assert InText(before[f].text, EditsFor(edits, f)[|EditsFor(edits[..i], f)|]);
  }

  lemma FileFits(buffers: map<File, Buffer?>, edits: seq<TextEdit>, before: map<File, State>, f: File)
    requires Start(buffers, edits, before) && f in buffers && buffers[f] != null
    ensures f in before && AllInText(before[f].text, EditsFor(edits, f))
  {
    assert EditsFor(edits, f) == EditsFor(edits, f);
  }

  /** Edit `i` opens a user action and places its marks, if its buffer is there. */
  method PlaceNext(buffers: map<File, Buffer?>, edits: seq<TextEdit>, i: nat, ghost before: map<File, State>,
                   ghost ids: seq<nat>) returns (ghost id: nat)
    requires Start(buffers, edits, before) && OneBufferEach(buffers) && i < |edits| && |ids| == i
    requires forall f :: f in buffers && buffers[f] != null ==>
      f in before && buffers[f].Valid() && Placing(before[f], buffers[f].Snap(), edits, ids, f)
    modifies Opened(buffers), edits[i]
    ensures forall f :: f in buffers && buffers[f] != null ==>
      f in before && buffers[f].Valid() && Placing(before[f], buffers[f].Snap(), edits, ids + [id], f)
    ensures Lookup(buffers, edits[i]) != null ==> edits[i].beginMark == id && edits[i].endMark == id + 1
  {
    hide Placing, EditsFor, Start, AllInText;
    var edit := edits[i];
    var buffer := Lookup(buffers, edit);
    ghost var states := map f | f in buffers && buffers[f] != null :: buffers[f].Snap();
    id := 0;
    if buffer != null {
      FitsBefore(buffers, edits, before, i);
      PlacingText(before[edit.place.file], states[edit.place.file], edits, ids, edit.place.file);
      id := buffer.nextMark;
      edit.Stage(buffer);
    }
    forall f | f in buffers && buffers[f] != null
      ensures Placing(before[f], buffers[f].Snap(), edits, ids + [id], f)
    {
      if IsFor(edit, f) {
        PlacedOne(before[f], states[f], buffers[f].Snap(), edits, ids, f);
      } else {
        assert buffers[f].Snap() == states[f];
        PlacedOther(before[f], states[f], edits, ids, f, id);
      }
    }
  }

  /** First pass: every edit whose buffer is there opens a user action and places its marks. */
  method PlaceAll(buffers: map<File, Buffer?>, edits: seq<TextEdit>, ghost before: map<File, State>)
    returns (ghost ids: seq<nat>)
    requires Start(buffers, edits, before) && OneBufferEach(buffers)
    requires forall i, j :: 0 <= i < j < |edits| ==> edits[i] != edits[j]
    requires forall f :: f in buffers && buffers[f] != null ==>
      f in before && buffers[f].Valid() && buffers[f].Snap() == before[f]
    modifies Opened(buffers), edits
    ensures |ids| == |edits|
    ensures forall i :: 0 <= i < |edits| && Lookup(buffers, edits[i]) != null ==>
      edits[i].beginMark == ids[i] && edits[i].endMark == ids[i] + 1
    ensures forall f :: f in buffers && buffers[f] != null ==>
      f in before && buffers[f].Valid() && Applying(before[f], buffers[f].Snap(), edits, ids, 0, f)
  {
    hide Placing, Applying, EditsFor, Start, AllInText;
    ids := [];
    forall f | f in buffers && buffers[f] != null
      ensures Placing(before[f], buffers[f].Snap(), edits, ids, f)
    {
      NonePlaced(buffers[f].Snap(), edits, f);
    }
    for i := 0 to |edits|
      invariant |ids| == i
      invariant forall j :: 0 <= j < i && Lookup(buffers, edits[j]) != null ==>
        edits[j].beginMark == ids[j] && edits[j].endMark == ids[j] + 1
      invariant forall f :: f in buffers && buffers[f] != null ==>
        f in before && buffers[f].Valid() && Placing(before[f], buffers[f].Snap(), edits, ids, f)
    {
      ghost var id := PlaceNext(buffers, edits, i, before, ids);
      ids := ids + [id];
    }
    forall f | f in buffers && buffers[f] != null
      ensures f in before && Applying(before[f], buffers[f].Snap(), edits, ids, 0, f)
    {
      FileFits(buffers, edits, before, f);
      AllPlaced(before[f], buffers[f].Snap(), edits, ids, f);
    }
  }

  /** Second pass: every edit whose buffer is there replaces the text between its marks. */
  method ApplyAll(buffers: map<File, Buffer?>, edits: seq<TextEdit>, ghost before: map<File, State>,
      ghost ids: seq<nat>)
    requires Start(buffers, edits, before) && OneBufferEach(buffers) && |ids| == |edits|
    requires forall i :: 0 <= i < |edits| && Lookup(buffers, edits[i]) != null ==>
      edits[i].beginMark == ids[i] && edits[i].endMark == ids[i] + 1
    requires forall f :: f in buffers && buffers[f] != null ==>
      f in before && buffers[f].Valid() && Applying(before[f], buffers[f].Snap(), edits, ids, 0, f)
    modifies Opened(buffers)
    ensures forall f :: f in buffers && buffers[f] != null ==>
      buffers[f].Valid() && Applying(before[f], buffers[f].Snap(), edits, ids, |edits|, f)
  {
    hide Applying, EditsFor, Start, AllInText;
    for i := 0 to |edits|
      invariant forall f :: f in buffers && buffers[f] != null ==>
        buffers[f].Valid() && Applying(before[f], buffers[f].Snap(), edits, ids, i, f)
    {
      var edit := edits[i];
      var buffer := Lookup(buffers, edit);
      ghost var states := map f | f in buffers && buffers[f] != null :: buffers[f].Snap();
      if buffer != null {
        FitsBefore(buffers, edits, before, i);
        ghost var f := edit.place.file;
        ReadyOne(before[f], states[f], edits, ids, i, f);
        edit.Apply(buffer);
      }
      forall f | f in buffers && buffers[f] != null
        ensures Applying(before[f], buffers[f].Snap(), edits, ids, i + 1, f)
      {
        if IsFor(edit, f) {
          AppliedOne(before[f], states[f], buffers[f].Snap(), edits, ids, i, f);
        } else {
          assert buffers[f].Snap() == states[f];
          AppliedOther(before[f], states[f], edits, ids, i, f);
        }
      }
    }
  }

  /** Third pass: every edit whose buffer is there closes its user action. */
  method CloseAll(buffers: map<File, Buffer?>, edits: seq<TextEdit>, ghost before: map<File, State>)
    requires OneBufferEach(buffers)
    requires forall f :: f in buffers && buffers[f] != null ==>
      f in before && buffers[f].Valid() && buffers[f].actions == before[f].actions + |EditsFor(edits, f)|
    modifies Opened(buffers)
    ensures forall f :: f in buffers && buffers[f] != null ==>
      buffers[f].Valid() && buffers[f].actions == before[f].actions
      && buffers[f].text == old(buffers[f].text) && buffers[f].marks == old(buffers[f].marks)
  {
    assert edits[..0] == [] && edits[..|edits|] == edits;
    for i := 0 to |edits|
      invariant forall f :: f in buffers && buffers[f] != null ==>
        buffers[f].Valid() && buffers[f].actions + |EditsFor(edits[..i], f)| == before[f].actions + |EditsFor(edits, f)|
        && buffers[f].text == old(buffers[f].text) && buffers[f].marks == old(buffers[f].marks)
    {
      forall f
        ensures |EditsFor(edits[..i + 1], f)| == |EditsFor(edits[..i], f)| + if IsFor(edits[i], f) then 1 else 0
        ensures |EditsFor(edits[..i + 1], f)| <= |EditsFor(edits, f)|
      {
        EditsNext(edits, i, f);
        EditsPrefix(edits, i + 1, |edits|, f);
      }
      var buffer := Lookup(buffers, edits[i]);
      if buffer != null {
        buffer.EndUserAction();
      }
    }
  }

  /**
   * Applies a list of edits to their buffers: all edits place their marks, then each replaces the text between its
   * marks, then the user actions are closed. In every buffer its edits have had their turn; if there is a character
   * between any two of its ranges, that is the substitution of all of them at once.
   */
  method DoApplyEdits(buffers: map<File, Buffer?>, edits: seq<TextEdit>)
    requires OneBufferEach(buffers) && forall f :: f in buffers ==> Editable(buffers, edits, f)
    requires forall i, j :: 0 <= i < j < |edits| ==> edits[i] != edits[j]
    modifies Opened(buffers), edits
    ensures forall f :: f in buffers && buffers[f] != null ==>
      && buffers[f].Valid() && Carried(old(buffers[f].text), buffers[f].text, EditsFor(edits, f))
      && buffers[f].marks.Keys == old(buffers[f].marks.Keys) && buffers[f].actions == old(buffers[f].actions)
  {
    ghost var before := map f | f in buffers && buffers[f] != null :: buffers[f].Snap();
    assert forall f :: f in buffers ==> Editable(buffers, edits, f);
    ghost var ids := PlaceAll(buffers, edits, before);
    ApplyAll(buffers, edits, before, ids);
    forall f | f in buffers && buffers[f] != null
      ensures f in before && Carried(before[f].text, buffers[f].text, EditsFor(edits, f))
      ensures buffers[f].marks.Keys == before[f].marks.Keys
      ensures buffers[f].actions == before[f].actions + |EditsFor(edits, f)|
    {
      AllApplied(before[f], buffers[f].Snap(), edits, ids, f);
      if AllSeparated(EditsFor(edits, f)) {
        InTurnSeparated(before[f].text, EditsFor(edits, f));
      }
    }
    CloseAll(buffers, edits, before);
  }

  lemma PlacingText(s0: State, s: State, edits: seq<TextEdit>, ids: seq<nat>, f: File)
    requires Placing(s0, s, edits, ids, f)
    ensures s.text == s0.text
  {
  }

  lemma NonePlaced(s: State, edits: seq<TextEdit>, f: File)
    requires forall x :: x in s.marks ==> x < s.nextMark
    ensures Placing(s, s, edits, [], f)
  {
    assert edits[..0] == [];
    forall x: nat | x in s.marks
      ensures Known(s, edits, [], 0, f, x)
    {
    }
    forall j: nat, l: nat
      ensures ApartAt(edits, [], f, j, l)
    {
    }
    forall j: nat
      ensures HasMarks(s, s, edits, [], f, EditsFor(edits, f), 0, j)
    {
    }
  }

  // ---------------------------------------------------------------- two edits

  /** Two edits of one buffer: both place their marks, then one is applied after the other. */
  method ApplyInTurn(text: string, first: Edit, second: Edit) returns (r: string)
    requires InText(text, first) && InText(text, second)
    ensures AllInText(text, [first, second]) && r == InTurn(text, [first, second])
  {
    hide Turns, NextTurn, InTurn;
    MovedInText(text, first, second);
    TwoTurns(text, first, second);
    var buffer := new Buffer(text);
    var x := new TextEdit(Range(0, first.begin, first.end), first.text);
    var y := new TextEdit(Range(0, second.begin, second.end), second.text);
    x.Stage(buffer);
    y.Stage(buffer);
    hide AfterReplace, AfterInsert, AfterDelete, InTurn;
    x.Apply(buffer);
    y.Apply(buffer);
    r := buffer.text;
  }

  /** Two edits of one buffer, in either order. */
  method ApplyTwo(text: string, d: Edit, e: Edit, dFirst: bool) returns (r: string)
    requires InOrder(text, d, e)
    ensures r == Caught(text, d, e, dFirst)
  {
    TwoInTurn(text, d, e);
    if dFirst {
      r := ApplyInTurn(text, d, e);
    } else {
      r := ApplyInTurn(text, e, d);
    }
  }
}
