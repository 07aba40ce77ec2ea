/** The diagnostics of all files: asynchronous providers, one timer that starts rounds, and files that come and go. */
module DiagnosticsManagers {
  import opened DiagnosticTables
  import opened DiagnosticsProtocol

  class Group {
    const file: File
    var table: Table
    var adapter: Adapter
    var contents: Option<string>
    var lang: Option<string>
    var sequence: nat
    var inDiagnose: nat
    var needsDiagnose: bool
    var hasDiagnostics: bool
    var wasRemoved: bool
    /** The providers of this group that have not answered yet. */
    ghost var running: set<Provider>
    /** How many providers were unloaded before they answered. */
    ghost var lost: nat
    /** How many rounds were started. */
    ghost var rounds: nat

    constructor (file: File)
      ensures this.file == file && Snap() == CREATED
      ensures table == NoTable && adapter == NoAdapter && contents == None && lang == None
      ensures sequence == 0 && inDiagnose == 0 && !needsDiagnose && !hasDiagnostics && !wasRemoved
    {
      this.file := file;
      table, adapter, contents, lang, sequence, inDiagnose := NoTable, NoAdapter, None, None, 0, 0;
      needsDiagnose, hasDiagnostics, wasRemoved := false, false, false;
      running, lost, rounds := {}, 0, 0;
    }

    ghost function Snap(): State
      reads this
    {
      State(table, adapter, contents, lang, sequence, inDiagnose, needsDiagnose, hasDiagnostics, wasRemoved,
            running, lost, rounds)
    }

    /** A round is wanted and nothing stands in its way. */
    predicate Ready()
      reads this
      ensures Ready() <==> Idle(Snap())
    {
      needsDiagnose && adapter.Adapter? && inDiagnose == 0
    }

    predicate CanDispose()
      reads this
    {
      adapter.NoAdapter? && !hasDiagnostics
    }

    method Add(p: Provider, d: Diagnostic)
      modifies this`table, this`hasDiagnostics, this`sequence
      ensures Snap() == WithItem(old(Snap()), p, d)
    {
      if table.NoTable? {
        table := Table(map[]);
      }
      if p !in table.entries {
        table := Table(table.entries[p := []]);
      }
      table := Table(table.entries[p := table.entries[p] + [d]]);
      hasDiagnostics := true;
      sequence := sequence + 1;
      assert [] + [d] == [d];
      assert old(table).NoTable? ==> table.entries == map[p := [d]];
      assert old(table).Table? ==> table.entries == old(table).entries[p := Stored(old(table), p) + [d]];
      assert table == Added(old(table), p, d);
    }

    /** Drops the entry of a provider, and the table with its last entry. */
    method Strip(p: Provider) returns (had: bool)
      modifies this`table
      ensures Snap() == old(Snap()).(table := Cleared(old(table), p)) && had == old(table).Table?
    {
      had := false;
      if table.Table? {
        table := Table(table.entries - {p});
        if |table.entries| == 0 {
          assert table.entries == map[];
          table := NoTable;
        }
        had := true;
      }
    }

    /** Makes sure that there is a table and an adapter. */
    method Equip(lang: Option<string>, id: nat) returns (made: bool)
      modifies this`table, this`lang, this`adapter
      ensures Snap() == Equipped(old(Snap()), lang, id) && made == old(adapter).NoAdapter?
    {
      made := false;
      if table.NoTable? {
        table := Table(map[]);
      }
      this.lang := lang;
      if adapter.NoAdapter? {
        adapter := Adapter(id, {});
        made := true;
      }
    }

    method HasDiagnostics() returns (found: bool)
      ensures found == HasItems(table)
    {
      if table.NoTable? {
        return false;
      }
      var todo := table.entries.Keys;
      while todo != {}
        invariant todo <= table.entries.Keys
        invariant forall p :: p in table.entries && p !in todo ==> table.entries[p] == []
        decreases todo
      {
        var p :| p in todo;
        if |table.entries[p]| > 0 {
          return true;
        }
        todo := todo - {p};
      }
      return false;
    }
  }

  class Manager {
    var groups: map<File, Group>
    /** A round is scheduled. */
    var timer: bool
    /** The group that each loaded provider is tagged with. */
    var tags: map<Provider, Group>
    /** The requests that providers have not answered yet. */
    ghost var inFlight: map<Provider, Request>
    /** The files of all adapters so far. */
    ghost var owners: map<nat, File>

    constructor ()
      ensures Valid() && View() == World(map[], map[], map[], map[], false)
    {
      groups, timer, tags, inFlight, owners := map[], false, map[], map[], map[];
    }

    ghost predicate Held(g: Group)
      reads this`groups
    {
      g.file in groups && groups[g.file] == g
    }

    ghost predicate Filed()
      reads this`groups, this`tags
    {
      && (forall f {:trigger groups[f]} :: f in groups ==> groups[f].file == f)
      && (forall p {:trigger tags[p]} :: p in tags ==> Held(tags[p]))
    }

    ghost function Now(): map<File, State>
      reads this`groups, groups.Values
    {
      map f | f in groups :: groups[f].Snap()
    }

    ghost function TagFiles(): map<Provider, File>
      reads this`tags
    {
      map p | p in tags :: tags[p].file
    }

    ghost function View(): World
      reads this, groups.Values
    {
      World(Now(), TagFiles(), inFlight, owners, timer)
    }

    ghost predicate Valid()
      reads this, groups.Values
    {
      Filed() && Good(View())
    }

    /** No group goes, and the groups that come are new. */
    twostate predicate Kin()
      reads this`groups
    {
      && (forall f {:trigger old(groups)[f]} :: f in old(groups) ==> f in groups && groups[f] == old(groups)[f])
      && (forall f {:trigger groups[f]} :: f in groups ==> f in old(groups) || fresh(groups[f]))
    }

    lemma ViewMeans()
      ensures forall g {:trigger Held(g)} :: Held(g) ==> g.file in View().now && View().now[g.file] == g.Snap()
      ensures View().inFlight == inFlight && forall p {:trigger p in tags} :: p in tags <==> p in View().tags
      ensures View().now.Keys == groups.Keys && View().tags.Keys == tags.Keys && View().owners == owners
      ensures Filed() ==> forall f {:trigger groups[f]} :: f in groups ==> Held(groups[f]) && groups[f].file == f
    {
    }

    twostate lemma KinMeans()
      requires Kin()
      ensures forall g :: g in groups.Values ==> g in old(groups.Values) || fresh(g)
    {
      forall g | g in groups.Values
        ensures g in old(groups.Values) || fresh(g)
      {
        var f :| f in groups && groups[f] == g;
        assert f in old(groups) ==> groups[f] == old(groups)[f];
      }
    }

    twostate lemma KinNow()
      requires groups == old(groups)
      ensures Kin()
    {
    }

    lemma ViewIs()
      ensures View() == World(Now(), TagFiles(), inFlight, owners, timer)
    {
    }

    lemma ValidMeans()
      requires Valid()
      ensures Filed() && Good(View())
    {
    }

    lemma MakeValid()
      requires Filed() && Good(View())
      ensures Valid()
    {
    }

    /** One group has been written, and nothing that other groups hold. */
    twostate lemma OneChanged(g: Group)
      requires old(Filed()) && old(Held(g)) && groups == old(groups) && tags == old(tags)
      requires forall h {:trigger h.Snap()} :: h in groups.Values && h != g ==> h.Snap() == old(h.Snap())
      ensures Filed() && Held(g) && g.file in old(View()).now && old(View()).now[g.file] == old(g.Snap())
      ensures View() ==
        World(old(View()).now[g.file := g.Snap()], old(View()).tags, inFlight, owners, timer)
    {
      assert forall f {:trigger groups[f]} :: f in groups ==> groups[f] in groups.Values;
      assert Now() == old(Now())[g.file := g.Snap()];
    }

    method FindGroup(file: File) returns (g: Group)
      requires Filed()
      modifies this`groups
      ensures Filed() && Kin() && Held(g) && g.file == file && View() == Known(old(View()), file)
      ensures file in old(groups) ==> g == old(groups)[file]
      ensures file !in old(groups) ==> fresh(g)
    {
      if file in groups {
        g := groups[file];
        assert Now()[file := g.Snap()] == Now();
      } else {
        g := new Group(file);
        groups := groups[file := g];
        assert Now() == old(Now())[file := g.Snap()];
      }
    }

    method QueueDiagnose(g: Group)
      requires Filed() && Held(g)
      modifies this`timer, g`needsDiagnose
      ensures Filed() && View() == Queued(old(View()), g.file)
    {
      g.needsDiagnose := true;
      if g.inDiagnose == 0 && !timer {
        timer := true;
      }
      OneChanged(g);
    }

    method StripGroup(group: Group, p: Provider) returns (had: bool)
      requires Filed() && Held(group)
      modifies group`table
      ensures Filed() && View() == CleanedSome(old(View()), p, {group.file})
      ensures had == old(View()).now[group.file].table.Table?
    {
      had := group.Strip(p);
      OneChanged(group);
      assert Now() == CleanedSome(old(View()), p, {group.file}).now;
    }

    /** Takes the diagnostics of a provider from every file. */
    method ClearByProvider(p: Provider) returns (changed: bool)
      requires Filed()
      modifies groups.Values`table
      ensures Filed() && View() == Cleaned(old(View()), p)
      ensures changed <==> HasTable(old(View()), old(View()).now.Keys)
    {
      hide *;
      ghost var w := View();
      ViewMeans();
      changed := false;
      var todo := groups.Keys;
      ghost var done: set<File> := {};
      CleanedNone(w, p);
      while todo != {}
        invariant done + todo == groups.Keys && done !! todo && Filed()
        invariant w.now.Keys == groups.Keys && View() == CleanedSome(w, p, done) && (changed <==> HasTable(w, done))
        decreases todo
      {
        var f :| f in todo;
        ViewMeans();
        CleanedMore(w, p, done, f);
        var had := StripGroup(groups[f], p);
        changed := changed || had;
        todo, done := todo - {f}, done + {f};
      }
      ViewMeans();
      assert done == groups.Keys;
      CleanedFinally(w, p);
    }

    ghost function Owner(id: nat): Group
      requires Filed() && Owned(View(), id)
      reads this, groups.Values
    {
      groups[owners[id]]
    }

    ghost function TagGroup(p: Provider): Group
      requires p in tags
      reads this`tags
    {
      tags[p]
    }

    /** Looks the group of an adapter up; there always is one. */
    method FindGroupFromAdapter(id: nat) returns (g: Group)
      requires Filed() && AllSound(View()) && Owned(View(), id)
      ensures g == Owner(id) && Held(g) && g.file == owners[id] && g.adapter.Adapter?
    {
      var todo := groups.Keys;
      while todo != {}
        invariant todo <= groups.Keys && owners[id] in todo
        decreases todo
      {
        var f :| f in todo;
        g := groups[f];
        if g.adapter.Adapter? && g.adapter.id == id {
          assert Sound(View(), f);
          return;
        }
        todo := todo - {f};
      }
      assert false;
    }

    method PutTag(p: Provider, group: Group)
      requires Filed() && Held(group)
      modifies this`tags
      ensures Filed() && tags == old(tags)[p := group]
        && View() == old(View()).(tags := old(View()).tags[p := group.file])
    {
      tags := tags[p := group];
      assert TagFiles() == old(TagFiles())[p := group.file];
    }

    method DropTag(p: Provider)
      requires Filed()
      modifies this`tags
      ensures Filed() && tags == old(tags) - {p} && View() == old(View()).(tags := old(View()).tags - {p})
    {
      tags := tags - {p};
      assert TagFiles() == old(TagFiles()) - {p};
    }

    /** Tags a provider that came to the adapter of a group. */
    method Tag(group: Group, p: Provider)
      requires Filed() && Held(group) && group.adapter.Adapter? && p !in tags
      modifies this`tags, group`adapter
      ensures Filed() && tags == old(tags)[p := group] && View() == Tagged(old(View()), group.file, p)
    {
      hide Filed, View, Now, TagFiles, Held;
      ViewIs();
      group.adapter := group.adapter.(extensions := group.adapter.extensions + {p});
      OneChanged(group);
      PutTag(p, group);
    }

    /** Makes an empty entry for a provider, if there is a table to put it in. */
    method Note(group: Group, p: Provider)
      requires Filed() && Held(group)
      modifies group`table
      ensures Filed() && View() == Noted(old(View()), group.file, p)
    {
      if group.table.Table? {
        group.table := Table(group.table.entries[p := []]);
      }
      OneChanged(group);
    }

    /** A newly made provider comes to an adapter. */
    method ExtensionAdded(id: nat, p: Provider)
      requires Filed() && AllSound(View()) && Owned(View(), id) && TimelyBut(View(), owners[id]) && p !in tags
        && p !in inFlight
      modifies this`tags, this`timer, Owner(id)`table, Owner(id)`adapter, Owner(id)`needsDiagnose
      ensures Valid() && View() == Joined(old(View()), id, p)
    {
      hide AllSound, Sound, Good, Tagged, Noted, Queued, TimelyBut, Now, TagFiles;
      var group := FindGroupFromAdapter(id);
      ViewMeans();
      Tag(group, p);
      Note(group, p);
      QueueDiagnose(group);
      JoinedGood(old(View()), id, p);
    }

    /** Frees a provider of its tag; an answer that is still out will find no group. */
    method Untag(p: Provider)
      requires Filed() && p in tags && tags[p].adapter.Adapter?
      modifies this`tags, TagGroup(p)`adapter, TagGroup(p)`running, TagGroup(p)`lost
      ensures Filed() && tags == old(tags) - {p} && View() == Untagged(old(View()), p)
    {
      hide Filed, View, Now, TagFiles, Held;
      ViewIs();
      TagMeans(p);
      var g := tags[p];
      g.adapter := g.adapter.(extensions := g.adapter.extensions - {p});
      g.lost := if p in g.running then g.lost + 1 else g.lost;
      g.running := g.running - {p};
      OneChanged(g);
      DropTag(p);
    }

    /** A provider leaves its adapter; its diagnostics go with it. */
    method ExtensionRemoved(p: Provider)
      requires Valid() && p in tags
      modifies this`tags, groups.Values`table, TagGroup(p)`adapter, TagGroup(p)`running, TagGroup(p)`lost
      ensures Valid() && tags == old(tags) - {p} && p in old(View()).tags
      ensures old(tags)[p].file in old(groups) && old(tags[p].adapter).Adapter? && View() == Parted(old(View()), p)
    {
      hide AllSound, Sound, Timely, Cleaned;
      assert tags[p] == groups[tags[p].file];
      LoadedBy(View(), p);
      PartedGood(View(), p);
      var _ := ClearByProvider(p);
      Untag(p);
    }

    method ProviderInvalidated(p: Provider)
      requires Valid() && p in tags
      modifies this`timer, TagGroup(p)`needsDiagnose
      ensures Valid() && tags[p].file in groups && View() == Queued(old(View()), tags[p].file)
    {
      hide AllSound, Sound;
      var group := tags[p];
      LoadedBy(View(), p);
      QueuedGood(View(), group.file);
      QueueDiagnose(group);
    }

    /** Sends a request to one provider of a group. */
    method Launch(group: Group, p: Provider)
      requires Filed() && Held(group)
      modifies this`inFlight, group`inDiagnose, group`running
      ensures Filed() && View() == Sent(old(View()), group.file, {p})
    {
      hide Filed, View, Now, TagFiles, Held;
      ViewIs();
      CallOne(inFlight, group.file, group.Snap(), p);
      inFlight := inFlight[p := RequestOf(group.file, group.Snap())];
      group.inDiagnose := group.inDiagnose + 1;
      group.running := group.running + {p};
      OneChanged(group);
    }

    /** Notes that a round starts. */
    method Announce(group: Group)
      requires Filed() && Held(group)
      modifies group`needsDiagnose, group`hasDiagnostics, group`contents, group`rounds
      ensures Filed() && group.Snap() == Announced(old(group.Snap()))
      ensures View() == old(View()).(now := old(View()).now[group.file := group.Snap()])
    {
      hide Filed, View, Now, TagFiles, Held;
      ViewIs();
      group.needsDiagnose, group.hasDiagnostics := false, false;
      if group.contents.None? {
        group.contents := Some("");
      }
      group.rounds := group.rounds + 1;
      OneChanged(group);
    }

    /** Sends a request to every provider of a group. */
    method SendAll(group: Group)
      requires Filed() && Held(group) && group.adapter.Adapter?
      modifies this`inFlight, group`inDiagnose, group`running
      ensures Filed() && View() == Sent(old(View()), group.file, group.adapter.extensions)
    {
      hide *;
      ghost var v := View();
      ViewMeans();
      var todo := group.adapter.extensions;
      ghost var done: set<Provider> := {};
      SentNone(v, group.file);
      while todo != {}
        modifies this`inFlight, group`inDiagnose, group`running
        invariant done + todo == group.adapter.extensions && done !! todo && Filed()
        invariant group.file in v.now && View() == Sent(v, group.file, done)
        decreases todo
      {
        var p :| p in todo;
        Launch(group, p);
        SentMore(v, group.file, done, p);
        todo, done := todo - {p}, done + {p};
      }
      assert done == group.adapter.extensions;
    }

    /** Starts a round: every provider of the group is sent one request, and none of them has one out already. */
    method Diagnose(group: Group)
      requires Filed() && AllSound(View()) && Held(group) && group.Ready()
      modifies this`inFlight, group`needsDiagnose, group`hasDiagnostics, group`contents, group`inDiagnose,
        group`running, group`rounds
      ensures Filed() && View() == Rung(old(View()), {group.file})
    {
      hide AllSound, Sound, Announced, RequestOf, Sent, Rung, Now, TagFiles;
      ViewMeans();
      IdleMeans(View(), group.file);
      assert group.inDiagnose == 0 && forall p :: p in group.adapter.extensions ==> p in tags && p !in inFlight;
      RungSent(View(), group.file);
      Announce(group);
      SendAll(group);
    }

    /** Starts a round for a group if it is ready. */
    method DiagnoseIfReady(group: Group)
      requires Filed() && AllSound(View()) && Held(group)
      modifies this`inFlight, group
      ensures Filed() && View() == Rung(old(View()), {group.file})
    {
      hide AllSound, Sound, Rung, Now, TagFiles;
      ViewMeans();
      if group.Ready() {
        Diagnose(group);
      } else {
        RungNot(View(), group.file);
      }
    }

    /** The timer fires: a round starts for every group that is ready, and for no other. */
    method BeginDiagnose()
      requires Valid()
      modifies this`timer, this`inFlight, groups.Values
      ensures Valid() && View() == Fired(old(View()))
    {
      hide *;
      ValidMeans();
      ViewIs();
      ghost var w := View().(timer := false);
      FiredGood(View());
      FiredMeans(View());
      timer := false;
      ViewIs();
      ViewMeans();
      var todo := groups.Keys;
      ghost var done: set<File> := {};
      RungNone(w);
      while todo != {}
        modifies this`inFlight, groups.Values
        invariant done + todo == groups.Keys && done !! todo && Filed()
        invariant w.now.Keys == groups.Keys && View() == Rung(w, done)
        decreases todo
      {
        var f :| f in todo;
        RungSound(w, done);
        RungMore(w, done, f);
        ViewMeans();
        DiagnoseIfReady(groups[f]);
        todo, done := todo - {f}, done + {f};
      }
      ViewMeans();
      assert done == groups.Keys;
      MakeValid();
    }

    method AddToGroup(group: Group, p: Provider, d: Diagnostic)
      requires Filed() && Held(group)
      modifies group`table, group`hasDiagnostics, group`sequence
      ensures Filed() && View() == old(View()).(now := old(View()).now[group.file := WithItem(old(group.Snap()), p, d)])
    {
      group.Add(p, d);
      OneChanged(group);
    }

    /** Adds an item to the group of its file, which is made if it is not there. */
    method AddDiagnostic(p: Provider, d: Diagnostic)
      requires Filed()
      modifies this`groups, groups.Values`table, groups.Values`hasDiagnostics, groups.Values`sequence
      ensures Filed() && Kin() && View() == old(View()).(now := ToldOne(old(View()).now, p, d))
    {
      hide *;
      KinNow();
      ToldOneIs(View(), p, d);
      if d.file.None? {
        return;
      }
      var group := FindGroup(d.file.value);
      ViewMeans();
      KnownIs(old(View()), group.file, WithItem(Before(old(View()).now, group.file), p, d));
      AddToGroup(group, p, d);
    }

    /** Adds an item; the group of the provider is tried first, which comes to the same as looking the file up. */
    method Report(group: Group, p: Provider, d: Diagnostic)
      requires Filed() && Held(group)
      modifies this`groups, groups.Values`table, groups.Values`hasDiagnostics, groups.Values`sequence
      ensures Filed() && Kin() && Held(group) && View() == old(View()).(now := ToldOne(old(View()).now, p, d))
    {
      hide Filed, Now, TagFiles, WithItem;
      ViewMeans();
      if d.file.Some? {
        if d.file.value == group.file {
          AddToGroup(group, p, d);
        } else {
          AddDiagnostic(p, d);
        }
      }
    }

    /** Adds a batch of items in order. */
    method ReportAll(group: Group, p: Provider, batch: seq<Diagnostic>)
      requires Filed() && Held(group)
      modifies this`groups, groups.Values`table, groups.Values`hasDiagnostics, groups.Values`sequence
      ensures Filed() && Kin() && Held(group) && View() == old(View()).(now := Told(old(View()).now, p, batch))
    {
      hide Filed, Now, TagFiles, ToldOne;
      for i := 0 to |batch|
        modifies this`groups, groups.Values`table, groups.Values`hasDiagnostics, groups.Values`sequence
        invariant Filed() && Kin() && Held(group) && View() == old(View()).(now := Told(old(View()).now, p, batch[..i]))
      {
        Report(group, p, batch[i]);
        assert batch[..i + 1][..i] == batch[..i];
      }
      assert batch[..|batch|] == batch;
    }

    /** Takes a request off its group. */
    method Close(group: Group, p: Provider)
      requires Filed() && Held(group) && group.inDiagnose > 0
      modifies this`inFlight, group`inDiagnose, group`running, group`sequence
      ensures Filed() && old(group.Snap()).inDiagnose > 0
      ensures View() == old(View()).(now := old(View()).now[group.file := Answered(old(group.Snap()), p)],
        inFlight := inFlight)
      ensures inFlight == old(inFlight) - {p}
    {
      hide Filed, View, Now, TagFiles, Held;
      ViewIs();
      group.inDiagnose := group.inDiagnose - 1;
      group.running := group.running - {p};
      inFlight := inFlight - {p};
      group.sequence := group.sequence + 1;
      OneChanged(group);
    }

    lemma TagMeans(p: Provider)
      requires Filed() && p in tags
      ensures Held(tags[p]) && p in View().tags && View().tags[p] == tags[p].file
      ensures TagGroup(p) == tags[p] && tags[p] in groups.Values
    {
    }

    lemma OwnerMeans(id: nat)
      requires Filed() && Owned(View(), id)
      ensures Owner(id) in groups.Values
    {
    }

    /** Replaces what a provider reported. */
    method Replace(group: Group, p: Provider, result: Option<seq<Diagnostic>>) returns (changed: bool)
      requires Filed() && Held(group)
      modifies this`groups, groups.Values`table, groups.Values`hasDiagnostics, groups.Values`sequence
      ensures Filed() && Kin() && Held(group)
      ensures var batch := if result.None? then [] else result.value;
        && View() == Reported(old(View()), p, batch)
        && (changed <==> HasTable(old(View()), old(View()).now.Keys) || batch != [])
    {
      hide Filed, View, Cleaned, Told;
      changed := ClearByProvider(p);
      ToldNone(View(), p);
      if result.Some? {
        ReportAll(group, p, result.value);
        if |result.value| > 0 {
          changed := true;
        }
      }
    }

    /** Asks for another round if one is wanted, or else disposes of a group that is of no use any more. */
    method Finish(group: Group)
      requires Filed() && Held(group)
      modifies this`timer, this`groups, group`needsDiagnose, group`wasRemoved
      ensures group.adapter.Adapter? ==> Filed() && groups == old(groups)
      ensures group.adapter.Adapter? ==> View() == Requeued(old(View()), group.file)
      ensures group.adapter.NoAdapter? ==> View().now == Requeued(old(View()), group.file).now
    {
      if !group.wasRemoved && group.inDiagnose == 0 && group.needsDiagnose {
        QueueDiagnose(group);
      } else if group.CanDispose() {
        group.wasRemoved := true;
        groups := groups - {group.file};
        assert Now() == old(Now()) - {group.file};
      }
    }

    /** An answer of a provider that is gone is dropped. */
    ghost method Drop(p: Provider)
      requires Filed()
      modifies this`inFlight
      ensures Filed() && Kin() && View() == old(View()).(inFlight := old(View()).inFlight - {p})
    {
      inFlight := inFlight - {p};
    }

    /**
     * A provider is done: its old diagnostics go, the new ones come, and if another round is wanted it is asked
     * for.
     */
    method DiagnoseDone(p: Provider, result: Option<seq<Diagnostic>>) returns (emitted: bool)
      requires Valid() && p in inFlight
      modifies this, groups.Values
      ensures Valid() && Kin()
      ensures Good(old(View())) && p in old(View()).inFlight
      ensures var batch := if result.None? then [] else result.value;
        && View() == Completed(old(View()), p, batch)
        && (emitted <==> p in old(tags) && (HasTable(old(View()), old(View()).now.Keys) || batch != []))
    {
      hide *;
      ghost var w := View();
      ghost var batch := if result.None? then [] else result.value;
      ValidMeans();
      ViewMeans();
      emitted := false;
      CompletedGood(w, p, batch);
      KinNow();
      if p !in tags {
        CompletedStray(w, p, batch);
        Drop(p);
        MakeValid();
        return;
      }
      var group := tags[p];
      TagMeans(p);
      CompletedTagged(w, p, batch);
      emitted := Replace(group, p, result);
      SnapMeans(group);
      Close(group, p);
      SnapMeans(group);
      Finish(group);
      MakeValid();
    }

    lemma SnapMeans(g: Group)
      requires Held(g)
      ensures View().inFlight == inFlight && g.file in View().now
      ensures var s := View().now[g.file];
        s == g.Snap() && s.contents == g.contents && s.table == g.table && s.inDiagnose == g.inDiagnose
        && s.adapter == g.adapter && s.removed == g.wasRemoved
    {
    }

    method FileChanged(file: File, contents: Option<string>, lang: Option<string>)
      requires Valid()
      modifies this`groups, this`timer, groups.Values
      ensures Valid() && Kin() && View() == Changed(old(View()), file, contents, lang)
    {
      hide *;
      ValidMeans();
      ChangedGood(View(), file, contents, lang);
      ChangedIs(View(), file, contents, lang);
      var group := FindGroup(file);
      ViewMeans();
      Describe(group, contents, lang);
      QueueDiagnose(group);
      MakeValid();
    }

    method Describe(group: Group, contents: Option<string>, lang: Option<string>)
      requires Filed() && Held(group)
      modifies group`contents, group`lang
      ensures Filed() && View() == old(View()).(now :=
        old(View()).now[group.file := old(group.Snap()).(contents := contents, lang := lang)])
    {
      group.lang := lang;
      group.contents := contents;
      OneChanged(group);
    }

    /** The providers that suit the new language come and go later. */
    method LanguageChanged(file: File, lang: Option<string>)
      requires Valid()
      modifies this`groups, this`timer, groups.Values
      ensures Valid() && Kin() && View() == Changed(old(View()), file, Before(old(View()).now, file).contents, lang)
    {
      hide *;
      ValidMeans();
      ghost var contents := Before(View().now, file).contents;
      ChangedGood(View(), file, contents, lang);
      ChangedIs(View(), file, contents, lang);
      var group := FindGroup(file);
      ViewMeans();
      SnapMeans(group);
      Describe(group, group.contents, lang);
      QueueDiagnose(group);
      MakeValid();
    }

    method Rediagnose(file: File)
      requires Valid()
      modifies this`groups, this`timer, groups.Values
      ensures Valid() && Kin()
      ensures var s := Before(old(View()).now, file); View() == Changed(old(View()), file, s.contents, s.lang)
    {
      hide *;
      ValidMeans();
      ghost var s := Before(View().now, file);
      ChangedGood(View(), file, s.contents, s.lang);
      ChangedIs(View(), file, s.contents, s.lang);
      var group := FindGroup(file);
      QueueDiagnose(group);
      MakeValid();
    }

    /** Makes sure that a group has a table and an adapter. */
    method Prepare(group: Group, lang: Option<string>, id: nat) returns (made: bool)
      requires Filed() && Held(group)
      modifies this`owners, group`table, group`lang, group`adapter
      ensures Filed() && group.Snap() == Equipped(old(group.Snap()), lang, id)
      ensures View() == old(View()).(now := old(View()).now[group.file := group.Snap()], owners := owners)
      ensures made == old(group.adapter).NoAdapter?
        && owners == if made then old(owners)[id := group.file] else old(owners)
    {
      hide Filed, View, Now, TagFiles, Held, Equipped;
      ViewIs();
      made := group.Equip(lang, id);
      if made {
        owners := owners[id := group.file];
      }
      OneChanged(group);
    }

    /** Finds or makes the group of a file and makes sure that it has a table and an adapter. */
    method OpenGroup(file: File, lang: Option<string>, id: nat) returns (group: Group, made: bool)
      requires Filed()
      modifies this`groups, this`owners, groups.Values`table, groups.Values`lang, groups.Values`adapter
      ensures Filed() && Kin() && Held(group) && group.file == file && (fresh(group) || group in old(groups).Values)
      ensures View() == Prepared(old(View()), file, lang, id)
      ensures made == Before(old(View()).now, file).adapter.NoAdapter?
    {
      hide *;
      ghost var w := View();
      PreparedKnown(w, file, lang, id);
      KnownIs(w, file, Before(w.now, file));
      ViewMeans();
      group := FindGroup(file);
      SnapMeans(group);
      ViewMeans();
      PreparedIn(View(), file, lang, id);
      made := Prepare(group, lang, id);
    }

    /** A file is opened: it gets an adapter, if it has none, with some providers. */
    method FileOpened(file: File, lang: Option<string>, id: nat, providers: set<Provider>)
      requires Valid() && id !in owners && providers !! tags.Keys && providers !! inFlight.Keys
      modifies this, groups.Values
      ensures Valid() && Kin() && View() == Opened(old(View()), file, lang, id, providers)
    {
      hide *;
      ghost var w := View();
      ValidMeans();
      ViewMeans();
      assert providers !! w.tags.Keys;
      OpenedGood(w, file, lang, id, providers);
      PreparedGood(w, file, lang, id);
      PreparedIs(w, file, lang, id, providers);
      var group, made := OpenGroup(file, lang, id);
      SnapMeans(group);
      ViewMeans();
      if made {
        JoinAll(group, id, providers);
      }
      QueueDiagnose(group);
      MakeValid();
    }

    lemma OwnerIs(id: nat, g: Group)
      requires Filed() && Held(g) && Owned(View(), id) && View().owners[id] == g.file
      ensures Owner(id) == g
    {
    }

    /** Loads some providers of a new adapter. */
    method JoinAll(group: Group, id: nat, providers: set<Provider>)
      requires Filed() && AllSound(View()) && Held(group) && group.table.Table? && group.adapter.Adapter?
        && group.adapter.id == id
      requires TimelyBut(View(), group.file) && id in owners && owners[id] == group.file
      requires providers !! tags.Keys && providers !! inFlight.Keys
      modifies this`tags, this`timer, group`table, group`adapter, group`needsDiagnose
      ensures Filed() && group.file in old(View()).now && old(group.adapter).Adapter? && old(group.table).Table?
      ensures View() == JoinedAll(old(View()), group.file, providers)
    {
      hide *;
      ghost var w, f := View(), group.file;
      SnapMeans(group);
      ViewMeans();
      var todo := providers;
      ghost var done: set<Provider> := {};
      JoinedNone(w, f);
      while todo != {}
        invariant done + todo == providers && done !! todo && Filed() && View() == JoinedAll(w, f, done)
        decreases todo
      {
        var p :| p in todo;
        JoinedAllGood(w, id, f, done);
        JoinedAllMore(w, id, f, done, p);
        ViewMeans();
        OwnerIs(id, group);
        ExtensionAdded(id, p);
        ValidMeans();
        todo, done := todo - {p}, done + {p};
      }
      assert done == providers;
    }

    method Forget(group: Group)
      requires Filed() && Held(group)
      modifies group`contents, group`lang, group`needsDiagnose
      ensures Filed() && View() == old(View()).(now := old(View()).now[group.file := Vacated(old(group.Snap()))])
    {
      group.contents := None;
      group.lang := None;
      group.needsDiagnose := false;
      OneChanged(group);
    }

    method Conclude(group: Group, has: bool)
      requires Filed() && Held(group)
      modifies group`adapter, group`table, group`hasDiagnostics
      ensures Filed() && View() == old(View()).(now := old(View()).now[group.file := Closing(old(group.Snap()), has)])
    {
      group.adapter := NoAdapter;
      if group.table.Table? && |group.table.entries| == 0 {
        assert group.table.entries == map[];
        group.table := NoTable;
      }
      group.hasDiagnostics := has;
      OneChanged(group);
    }

    /** Unloads all providers of a group. */
    method PartAll(group: Group)
      requires Valid() && Held(group) && group.adapter.Adapter?
      modifies this`tags, groups.Values`table, group`adapter, group`running, group`lost
      ensures Valid() && group.file in old(View()).now && old(group.adapter).Adapter?
      ensures View() == PartedAll(old(View()), group.file, old(group.adapter.extensions))
    {
      hide *;
      ghost var w, f := View(), group.file;
      SnapMeans(group);
      ValidMeans();
      var todo := group.adapter.extensions;
      ghost var all := todo;
      ghost var done: set<Provider> := {};
      PartedNone(w, f);
      while todo != {}
        invariant done + todo == all && done !! todo && Valid() && View() == PartedAll(w, f, done)
        decreases todo
      {
        var p :| p in todo;
        ValidMeans();
        TagOf(w, f, p);
        PartedAllMore(w, f, done, p);
        ViewMeans();
        TagIs(p, group);
        ExtensionRemoved(p);
        todo, done := todo - {p}, done + {p};
      }
      assert done == all;
    }

    lemma TagIs(p: Provider, g: Group)
      requires Filed() && Held(g) && p in View().tags && View().tags[p] == g.file
      ensures p in tags && tags[p] == g && TagGroup(p) == g
    {
    }

    /** Finds or makes the group of a file and forgets what it knows of the contents. */
    method ForgetFile(file: File) returns (group: Group)
      requires Valid()
      modifies this`groups, groups.Values`contents, groups.Values`lang, groups.Values`needsDiagnose
      ensures Valid() && Kin() && Held(group) && group.file == file && (fresh(group) || group in old(groups).Values)
      ensures View() == Forgotten(old(View()), file)
    {
      hide *;
      ghost var w := View();
      ValidMeans();
      ForgottenGood(w, file);
      ForgottenKnown(w, file);
      KnownIs(w, file, Vacated(Before(w.now, file)));
      ViewMeans();
      group := FindGroup(file);
      ViewMeans();
      SnapMeans(group);
      Forget(group);
      MakeValid();
    }

    /** A file is closed: its providers go, and whether it had any diagnostics is remembered. */
    method FileClosed(file: File)
      requires Valid()
      modifies this`groups, this`tags, groups.Values
      ensures Valid() && Kin() && View() == Shut(old(View()), file)
    {
      hide *;
      ghost var w := View();
      ValidMeans();
      ShutGood(w, file);
      ShutIs(w, file);
      ViewMeans();
      var group := ForgetFile(file);
      KinMeans();
      SnapMeans(group);
      var has := group.HasDiagnostics();
      if group.adapter.Adapter? {
        PartAll(group);
      }
      ValidMeans();
      SnapMeans(group);
      Conclude(group, has);
      MakeValid();
    }

    method GetBusy() returns (busy: bool)
      requires Valid()
      ensures busy <==> exists f :: f in groups && (groups[f].running != {} || groups[f].lost > 0)
    {
      forall f {:trigger groups[f]} | f in groups
        ensures groups[f].inDiagnose > 0 <==> groups[f].running != {} || groups[f].lost > 0
      {
        assert Sound(View(), f);
      }
      var todo := groups.Keys;
      while todo != {}
        invariant todo <= groups.Keys
        invariant forall f :: f in groups && f !in todo ==> groups[f].inDiagnose == 0
        decreases todo
      {
        var f :| f in todo;
        if groups[f].inDiagnose > 0 {
          return true;
        }
        todo := todo - {f};
      }
      busy := false;
    }

    /** The lists of all providers for a file, one after the other; which provider comes first is left open. */
    method GetDiagnosticsForFile(file: File)
      returns (ret: seq<Diagnostic>, ghost order: seq<Provider>, ghost cuts: seq<nat>)
      requires Filed()
      ensures var t := Before(Now(), file).table;
        && (forall i, j :: 0 <= i < j < |order| ==> order[i] != order[j])
        && (forall p :: p in order <==> t.Table? && p in t.entries)
      ensures |cuts| == |order| + 1 && cuts[0] == 0 && cuts[|order|] == |ret|
      ensures forall i :: 0 <= i < |order| ==> PieceAt(ret, cuts, i, Kept(Now(), file, order[i]))
    {
      ret, order, cuts := [], [], [0];
      if file in groups && groups[file].table.Table? {
        var entries := groups[file].table.entries;
        var todo := entries.Keys;
        while todo != {}
          invariant todo <= entries.Keys
          invariant forall p :: p in order <==> p in entries && p !in todo
          invariant forall i, j :: 0 <= i < j < |order| ==> order[i] != order[j]
          invariant CutUp(Table(entries), ret, order, cuts)
          decreases todo
        {
          var p :| p in todo;
          CutUpMore(Table(entries), ret, order, cuts, p);
          ret, order, todo := ret + entries[p], order + [p], todo - {p};
          cuts := cuts + [|ret|];
        }
        assert forall p :: Kept(Now(), file, p) == Stored(Table(entries), p);
      }
    }

    method GetSequenceForFile(file: File) returns (sequence: nat)
      ensures sequence == Before(Now(), file).sequence
    {
      sequence := if file in groups then groups[file].sequence else 0;
    }
  }
}
