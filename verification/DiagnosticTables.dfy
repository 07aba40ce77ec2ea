/** What one file keeps of the diagnostics of every provider. */
module DiagnosticTables {
  type File = nat

  type Provider = nat

  datatype Option<T> = None | Some(value: T)

  datatype Diagnostic = Diagnostic(file: Option<File>, text: string)

  /** The table of a file, which is released when its last entry goes; an entry without a list is an empty list. */
  datatype Table = NoTable | Table(entries: map<Provider, seq<Diagnostic>>)

  function Stored(t: Table, p: Provider): seq<Diagnostic> {
    if t.Table? && p in t.entries then t.entries[p] else []
  }

  function Cleared(t: Table, p: Provider): Table {
    if t.NoTable? || t.entries - {p} == map[] then NoTable else Table(t.entries - {p})
  }

  function Added(t: Table, p: Provider, d: Diagnostic): Table {
    if t.NoTable? then Table(map[p := [d]]) else Table(t.entries[p := Stored(t, p) + [d]])
  }

  /** The items of a batch that are about a file, in the order of the batch. */
  function About(batch: seq<Diagnostic>, file: File): seq<Diagnostic> {
    if batch == [] then [] else
    var d := batch[|batch| - 1];
    About(batch[..|batch| - 1], file) + if d.file == Some(file) then [d] else []
  }

  lemma ClearedStored(t: Table, p: Provider, q: Provider)
    ensures Stored(Cleared(t, p), q) == if p == q then [] else Stored(t, q)
  {
    if t.Table? && q in t.entries && p != q {
      assert q in t.entries - {p};
    }
  }

  lemma AddedStored(t: Table, p: Provider, d: Diagnostic, q: Provider)
    ensures Stored(Added(t, p, d), q) == if p == q then Stored(t, p) + [d] else Stored(t, q)
  {
  }

  /** Nothing is lost or doubled: every item about a file is in that file's list as often as in the batch. */
  lemma {:induction false} AboutCounts(batch: seq<Diagnostic>, file: File, d: Diagnostic)
    ensures multiset(About(batch, file))[d] == if d.file == Some(file) then multiset(batch)[d] else 0
  {
    if batch != [] {
      var n := |batch| - 1;
      assert batch == batch[..n] + [batch[n]];
      AboutCounts(batch[..n], file, d);
    }
  }

  /** Between these cuts the list has these items. */
  predicate PieceAt(all: seq<Diagnostic>, cuts: seq<nat>, i: nat, items: seq<Diagnostic>) {
    i + 1 < |cuts| && cuts[i] <= cuts[i + 1] <= |all| && all[cuts[i]..cuts[i + 1]] == items
  }

  /** The list is cut into the lists of these providers, one after the other, with nothing left over. */
  ghost predicate CutUp(t: Table, all: seq<Diagnostic>, order: seq<Provider>, cuts: seq<nat>) {
    && |cuts| == |order| + 1 && cuts[0] == 0 && cuts[|order|] == |all|
    && forall i :: 0 <= i < |order| ==> PieceAt(all, cuts, i, Stored(t, order[i]))
  }

  lemma CutUpMore(t: Table, all: seq<Diagnostic>, order: seq<Provider>, cuts: seq<nat>, p: Provider)
    requires CutUp(t, all, order, cuts)
    ensures
      var more := all + Stored(t, p);
      CutUp(t, more, order + [p], cuts + [|more|])
  {
    var more, n := all + Stored(t, p), |order|;
    forall i | 0 <= i <= n
      ensures PieceAt(more, cuts + [|more|], i, Stored(t, (order + [p])[i]))
    {
      if i < n {
        assert PieceAt(all, cuts, i, Stored(t, order[i]));
      }
    }
  }
}
