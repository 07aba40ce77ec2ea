/** Loading the buffers that a list of edits needs, and applying the edits when the last one is there. */
module ApplyEdits {
  import opened EditBuffers
  import opened EditTurns

  /** What has become of the request. */
  datatype Outcome = Waiting | Failed | Saving

  /** Where the buffers have come from, and which of them are to be closed in the end. */
  ghost predicate Tracked(buffers: map<File, Buffer?>, toClose: map<File, Buffer>, before: map<File, Buffer>,
                          loads: set<File>, failed: bool) {
    && (forall f :: f in loads ==> f in buffers && buffers[f] == null)
    && (forall f :: f in buffers && buffers[f] == null && f !in loads ==> failed)
    && (forall f :: f in toClose <==> f in buffers && f !in before && buffers[f] != null)
    && (forall f :: f in toClose ==> buffers[f] == toClose[f])
    && (forall f :: f in buffers && f in before ==> buffers[f] == before[f])
    && loads !! before.Keys
  }

  lemma TrackedLoad(buffers: map<File, Buffer?>, toClose: map<File, Buffer>, before: map<File, Buffer>,
                    loads: set<File>, file: File, buffer: Buffer)
    requires Tracked(buffers, toClose, before, loads, false) && file in loads
    ensures Tracked(buffers[file := buffer], toClose[file := buffer], before, loads - {file}, false)
  {
  }

  lemma TrackedFail(buffers: map<File, Buffer?>, toClose: map<File, Buffer>, before: map<File, Buffer>,
                    loads: set<File>, failed: bool, file: File)
    requires Tracked(buffers, toClose, before, loads, failed)
    ensures Tracked(buffers, toClose, before, loads - {file}, true)
  {
  }

  lemma TrackedOpen(buffers: map<File, Buffer?>, toClose: map<File, Buffer>, before: map<File, Buffer>,
                    loads: set<File>, failed: bool, file: File)
    requires Tracked(buffers, toClose, before, loads, failed) && file in before && file !in buffers
    ensures Tracked(buffers[file := before[file]], toClose, before, loads, failed)
  {
  }

  lemma TrackedWanted(buffers: map<File, Buffer?>, toClose: map<File, Buffer>, before: map<File, Buffer>,
                      loads: set<File>, failed: bool, file: File)
    requires Tracked(buffers, toClose, before, loads, failed) && file !in before && file !in buffers
    ensures Tracked(buffers[file := null], toClose, before, loads + {file}, failed) && file !in loads
  {
  }

  lemma TrackedMeans(buffers: map<File, Buffer?>, toClose: map<File, Buffer>, before: map<File, Buffer>,
                     loads: set<File>, failed: bool)
    requires Tracked(buffers, toClose, before, loads, failed)
    ensures forall f :: f in loads ==> f in buffers && buffers[f] == null
    ensures buffers == map[] ==> toClose == map[] && loads == {}
  {
    if buffers == map[] {
      assert forall f :: f !in toClose;
      assert forall f :: f !in loads;
    }
  }

  /** The files of the first edits have been looked up. */
  ghost predicate Sought(edits: seq<TextEdit>, n: nat, buffers: map<File, Buffer?>, loads: set<File>,
                         open: map<File, Buffer>)
    requires n <= |edits|
  {
    && (forall j :: 0 <= j < n && edits[j].place.Range? ==> edits[j].place.file in buffers)
    && (forall f :: f in buffers ==> if f in open then buffers[f] == open[f] else f in loads)
    && (forall f :: f in buffers ==> exists j :: 0 <= j < n && edits[j].place.Range? && edits[j].place.file == f)
  }

  lemma SoughtBefore(edits: seq<TextEdit>, i: nat, buffers: map<File, Buffer?>, loads: set<File>,
                     open: map<File, Buffer>)
    requires i < |edits| && Sought(edits, i, buffers, loads, open)
    requires edits[i].place.Range? ==> edits[i].place.file in buffers
    ensures Sought(edits, i + 1, buffers, loads, open)
  {
    forall f | f in buffers
      ensures exists j :: 0 <= j < i + 1 && edits[j].place.Range? && edits[j].place.file == f
    {
      var j :| 0 <= j < i && edits[j].place.Range? && edits[j].place.file == f;
    }
  }

  lemma SoughtNow(edits: seq<TextEdit>, i: nat, buffers: map<File, Buffer?>, loads: set<File>,
                  open: map<File, Buffer>)
    requires i < |edits| && Sought(edits, i, buffers, loads, open) && edits[i].place.Range?
    ensures
      var f := edits[i].place.file;
      && (f in open ==> Sought(edits, i + 1, buffers[f := open[f]], loads, open))
      && (f !in open ==> Sought(edits, i + 1, buffers[f := null], loads + {f}, open))
  {
    var file := edits[i].place.file;
    forall f | f in buffers || f == file
      ensures exists j :: 0 <= j < i + 1 && edits[j].place.Range? && edits[j].place.file == f
    {
      if f == file {
        assert edits[i].place.Range?;
      } else {
        var j :| 0 <= j < i && edits[j].place.Range? && edits[j].place.file == f;
      }
    }
  }

  class EditState {
    const edits: seq<TextEdit>
    var nActive: nat
    var failed: bool
    var buffers: map<File, Buffer?>
    var toClose: map<File, Buffer>
    var outcome: Outcome
    /** How often the edits have been applied, and how often an error has been returned. */
    var applied: nat
    var errors: nat
    /** The buffers that have been closed because they were only loaded for the edits. */
    var closed: set<Buffer>
    /** The files whose buffers are being loaded. */
    ghost var loads: set<File>
    /** The buffers that were open when the request came. */
    ghost var before: map<File, Buffer>

    ghost predicate Valid()
      reads this
    {
      && nActive == |loads|
      && Tracked(buffers, toClose, before, loads, failed)
      && (failed <==> outcome == Failed) && errors == (if failed then 1 else 0)
      && applied == (if outcome == Saving then 1 else 0)
      && (outcome == Saving ==> loads == {})
    }

    /** Every edit with a range has an entry for its file. */
    ghost predicate Covered()
      reads this
    {
      forall i :: 0 <= i < |edits| && edits[i].place.Range? ==> edits[i].place.file in buffers
    }

    /** The request is under way; once nothing is left to be loaded it has been carried out or has failed. */
    ghost predicate UnderWay()
      reads this
    {
      Valid() && Covered() && (loads == {} ==> outcome != Waiting)
    }

    /**
     * The buffers to be closed in the end are those of files that were not open and whose load has come back, and as
     * long as none has failed they are all of those.
     */
    lemma ToClose()
      requires Valid()
      ensures forall f :: f in toClose ==> f !in before && f !in loads && f in buffers && buffers[f] == toClose[f]
      ensures !failed ==> forall f :: f in buffers && f !in before && f !in loads ==> f in toClose
    {
    }

    /** With all buffers there, no edit is passed over. */
    lemma NothingMissing()
      requires Valid() && Covered() && loads == {} && !failed
      ensures forall i :: 0 <= i < |edits| && edits[i].place.Range? ==> Lookup(buffers, edits[i]) != null
    {
    }

    constructor (edits: seq<TextEdit>)
      ensures Valid() && this.edits == edits && buffers == map[] && loads == {} && outcome == Waiting && nActive == 0
      ensures toClose == map[] && closed == {}
    {
      this.edits := edits;
      nActive, failed, buffers, toClose := 0, false, map[], map[];
      outcome, applied, errors, closed := Waiting, 0, 0, {};
      loads, before := {}, map[];
    }

    /** All buffers are there: the edits are applied and the buffers are saved. */
    method Proceed()
      requires Valid() && Covered() && loads == {} && outcome == Waiting && Fit(buffers, edits)
      modifies this`outcome, this`applied, Opened(buffers), edits
      ensures UnderWay() && outcome == Saving && applied == 1
      ensures forall i :: 0 <= i < |edits| && edits[i].place.Range? ==> Lookup(buffers, edits[i]) != null
      ensures forall f :: f in buffers && buffers[f] != null ==>
        Carried(old(buffers[f].text), buffers[f].text, EditsFor(edits, f))
    {
      hide Carried, EditsFor;
      NothingMissing();
      DoApplyEdits(buffers, edits);
      applied := applied + 1;
      outcome := Saving;
    }

    /** Looks the file of an edit up; one that is not open is loaded, each only once. */
    method Want(i: nat, open: map<File, Buffer>)
      requires i < |edits| && Valid() && outcome == Waiting && before == open
      requires Sought(edits, i, buffers, loads, open)
      modifies this`buffers, this`nActive, this`loads
      ensures Valid() && outcome == Waiting && Sought(edits, i + 1, buffers, loads, open)
    {
      hide Sought, Tracked, Fit, Carried, EditsFor;
      var place := edits[i].place;
      if place.NoPlace? || place.file in buffers {
        SoughtBefore(edits, i, buffers, loads, open);
        return;
      }
      SoughtNow(edits, i, buffers, loads, open);
      if place.file in open {
        TrackedOpen(buffers, toClose, before, loads, failed, place.file);
        buffers := buffers[place.file := open[place.file]];
        return;
      }
      TrackedWanted(buffers, toClose, before, loads, failed, place.file);
      buffers := buffers[place.file := null];
      nActive := nActive + 1;
      loads := loads + {place.file};
    }

    /** Every edit with a range has an open buffer. */
    ghost predicate AllOpen(open: map<File, Buffer>) {
      forall i :: 0 <= i < |edits| && edits[i].place.Range? ==> edits[i].place.file in open
    }

    /** Looks all files up; if none has to be loaded the edits are applied at once. */
    method Start(open: map<File, Buffer>)
      requires Valid() && buffers == map[] && loads == {} && outcome == Waiting
      requires AllOpen(open) ==> Fit(open, edits)
      modifies this, Opened(open), edits
      ensures UnderWay()
      ensures loads == set i | 0 <= i < |edits| && edits[i].place.Range?
        && edits[i].place.file !in open :: edits[i].place.file
      ensures forall f :: f in buffers && f in open ==> buffers[f] == open[f]
      ensures before == open && toClose == map[] && closed == old(closed)
      ensures loads == {} <==> AllOpen(open)
      ensures loads == {} ==> outcome == Saving && applied == 1
      ensures loads == {} ==> forall f :: f in buffers ==>
        f in open && Carried(old(open[f].text), open[f].text, EditsFor(edits, f))
      ensures loads != {} ==> outcome == Waiting && forall f :: f in open ==> open[f].text == old(open[f].text)
    {
      hide Valid, EditsFor, Carried, Fit;
      Begin(open);
      for i := 0 to |edits|
        modifies this`buffers, this`nActive, this`loads
        invariant Valid() && outcome == Waiting && Sought(edits, i, buffers, loads, open)
      {
        Want(i, open);
      }
      AllWanted(open);
      if nActive == 0 {
        FitSome(buffers, open);
        Proceed();
      }
    }

    method Begin(open: map<File, Buffer>)
      requires Valid() && buffers == map[] && outcome == Waiting
      modifies this`before
      ensures Valid() && before == open && toClose == map[] && Sought(edits, 0, buffers, loads, open)
    {
      hide Fit, Carried, EditsFor;
      TrackedMeans(buffers, toClose, before, loads, failed);
      before := open;
    }

    lemma AllWanted(open: map<File, Buffer>)
      requires Valid() && outcome == Waiting && Sought(edits, |edits|, buffers, loads, open)
      ensures Covered() && (nActive == 0 <==> loads == {}) && (loads == {} <==> AllOpen(open))
      ensures loads == set i | 0 <= i < |edits| && edits[i].place.Range?
        && edits[i].place.file !in open :: edits[i].place.file
    {
      forall f
        ensures f in loads <==>
          exists i :: 0 <= i < |edits| && edits[i].place.Range? && edits[i].place.file == f && f !in open
      {
        if f in loads {
          assert f in buffers && buffers[f] == null;
        }
      }
    }

    lemma FitSome(some: map<File, Buffer?>, all: map<File, Buffer?>)
      requires Fit(all, edits) && forall f :: f in some ==> f in all && some[f] == all[f]
      ensures Fit(some, edits)
    {
    }

    /** Takes note of a load that has come back. */
    method Note(file: File, buffer: Buffer?)
      requires UnderWay() && file in loads
      modifies this
      ensures Valid() && Covered() && loads == old(loads) - {file} && (nActive == 0 <==> loads == {})
      ensures failed == (old(failed) || buffer == null) && applied == 0
      ensures outcome == if failed then Failed else Waiting
      ensures buffers == if failed then old(buffers) else old(buffers)[file := buffer]
      ensures toClose == if failed || buffer == null then old(toClose) else old(toClose)[file := buffer]
      ensures before == old(before) && closed == old(closed)
    {
      hide Tracked, Fit, Carried, EditsFor;
      TrackedMeans(buffers, toClose, before, loads, failed);
      TrackedFail(buffers, toClose, before, loads, failed, file);
      if buffer != null && !failed {
        TrackedLoad(buffers, toClose, before, loads, file, buffer);
      }
      nActive := nActive - 1;
      loads := loads - {file};
      if buffer == null {
        if !failed {
          failed := true;
          outcome := Failed;
          errors := errors + 1;
        }
      }
      if failed {
        return;
      }
      buffers := buffers[file := buffer];
      toClose := toClose[file := buffer];
    }

    lemma UnderWayIs()
      ensures UnderWay() <==> Valid() && Covered() && (loads == {} ==> outcome != Waiting)
      ensures Valid() ==> errors == (if failed then 1 else 0)
    {
    }

    /** A load has come back, with a buffer or without; the last one lets the edits be applied, if none has failed. */
    method Loaded(file: File, buffer: Buffer?)
      requires UnderWay() && file in loads
      requires loads == {file} && !failed && buffer != null ==> Fit(buffers[file := buffer], edits)
      modifies this, Opened(buffers[file := buffer]), edits
      ensures UnderWay() && loads == old(loads) - {file}
      ensures failed == (old(failed) || buffer == null)
      ensures outcome == if failed then Failed else if loads == {} then Saving else Waiting
      ensures applied == (if !failed && loads == {} then 1 else 0) && errors <= 1
      ensures buffers == if failed then old(buffers) else old(buffers)[file := buffer]
      ensures toClose == if failed || buffer == null then old(toClose) else old(toClose)[file := buffer]
      ensures before == old(before) && closed == old(closed)
      ensures outcome == Saving ==> forall f :: f in buffers && buffers[f] != null ==>
        Carried(old((buffers[file := buffer])[f].text), buffers[f].text, EditsFor(edits, f))
      ensures outcome != Saving ==> forall b: Buffer :: b in Opened(old(buffers)) ==> b.text == old(b.text)
    {
      hide Valid, Covered, UnderWay, Fit, Carried, EditsFor;
      UnderWayIs();
      Note(file, buffer);
      UnderWayIs();
      assert loads == {} ==> old(loads) == {file};
      if !failed && nActive == 0 {
        Proceed();
      }
      UnderWayIs();
    }

    /** The request has been answered: the buffers that were only loaded for it are closed. */
    method Completed()
      requires UnderWay() && outcome != Waiting
      modifies this`closed
      ensures UnderWay() && closed == old(closed) + (set f | f in toClose :: toClose[f])
    {
      var left := toClose.Keys;
      while left != {}
        invariant left <= toClose.Keys
        invariant closed == old(closed) + (set f | f in toClose && f !in left :: toClose[f])
        decreases left
      {
        SomeFile(left);
        var f :| f in left;
        closed := closed + {toClose[f]};
        left := left - {f};
      }
    }
  }

  lemma SomeFile(files: set<File>)
    ensures files == {} || exists f :: f in files
  {
    if forall f :: f !in files {
      assert files == {};
    }
  }

  /** The edits fit the buffers as they are, so that applying them does what it should. */
  ghost predicate Fit(buffers: map<File, Buffer?>, edits: seq<TextEdit>)
    reads Opened(buffers)
  {
    && OneBufferEach(buffers) && (forall f :: f in buffers ==> Editable(buffers, edits, f))
    && (forall i, j :: 0 <= i < j < |edits| ==> edits[i] != edits[j])
  }
}
