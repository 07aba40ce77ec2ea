/**
 * What each event means for those who look at the manager from outside: what every file keeps of every provider, which
 * requests go out and with what, which rounds are wanted.
 */
module DiagnosticsEffects {
  import opened DiagnosticTables
  import opened DiagnosticsProtocol

  /** The contents as a provider gets to see them. */
  function Shown(contents: Option<string>): string {
    match contents
    case None => ""
    case Some(text) => text
  }

  /** The two states are the same but for the table, of which the effects speak by what is kept in it. */
  predicate SameBut(s: State, t: State) {
    && s.adapter == t.adapter && s.contents == t.contents && s.lang == t.lang && s.sequence == t.sequence
    && s.inDiagnose == t.inDiagnose && s.needs == t.needs && s.has == t.has && s.running == t.running
    && s.lost == t.lost && s.rounds == t.rounds && s.removed == t.removed
  }

  /** All that an event leaves alone that is not about a group. */
  predicate SameOutside(w: World, v: World) {
    w.inFlight == v.inFlight && w.owners == v.owners
  }

  // ---------------------------------------------------------------- rounds

  /**
   * When the timer fires, exactly the providers of the groups that want a round, have an adapter and wait for no answer
   * are sent a request: with their file, its contents and its language. What was out before stays out.
   */
  lemma FireSends(w: World, p: Provider)
    requires Good(w)
    ensures
      var v := Fired(w);
      var asked := p in w.tags && w.tags[p] in w.now && w.now[w.tags[p]].needs && w.now[w.tags[p]].inDiagnose == 0;
      && (p in v.inFlight <==> p in w.inFlight || asked)
      && (asked ==> p !in w.inFlight && v.inFlight[p].file == w.tags[p])
      && (asked ==> v.inFlight[p].contents == Shown(w.now[w.tags[p]].contents))
      && (asked ==> v.inFlight[p].lang == w.now[w.tags[p]].lang)
      && (!asked && p in w.inFlight ==> v.inFlight[p] == w.inFlight[p])
      && v.tags == w.tags && v.owners == w.owners && !v.timer && v.now.Keys == w.now.Keys
  {
    if p in w.tags {
      LoadedBy(w, p);
      assert Sound(w, w.tags[p]);
    }
  }

  /** All providers of a group that starts a round are asked, and are waited for; no further round is wanted. */
  lemma FireGroup(w: World, f: File)
    requires Good(w) && f in w.now
    ensures
      var s, t := w.now[f], Fired(w).now[f];
      if s.needs && s.adapter.Adapter? && s.inDiagnose == 0 then
        && t.running == s.adapter.extensions && t.inDiagnose == |s.adapter.extensions|
        && (forall p :: p in s.adapter.extensions ==> p in Fired(w).inFlight)
        && !t.needs && !t.has && t.rounds == s.rounds + 1 && t.contents == Some(Shown(s.contents))
        && t.table == s.table && t.adapter == s.adapter && t.lang == s.lang && t.sequence == s.sequence
        && t.lost == s.lost && t.removed == s.removed
      else t == s
  {
    var s := w.now[f];
    assert Sound(w, f);
    if s.needs && s.adapter.Adapter? && s.inDiagnose == 0 {
      assert s.running == {};
      forall p | p in s.adapter.extensions
        ensures p in Fired(w).inFlight
      {
        assert p in Loaded(s.adapter);
      }
    }
  }

  // ---------------------------------------------------------------- files

  /** New contents or a new language are stored, and a round is wanted; all else stays. */
  lemma ChangeStores(w: World, f: File, contents: Option<string>, lang: Option<string>, e: File, q: Provider)
    ensures
      var v := Changed(w, f, contents, lang);
      && f in v.now && v.now[f].contents == contents && v.now[f].lang == lang && v.now[f].needs
      && SameBut(Before(w.now, f).(contents := contents, lang := lang, needs := true), v.now[f])
      && (e != f ==> Before(v.now, e) == Before(w.now, e)) && (e in v.now <==> e in w.now || e == f)
      && Kept(v.now, e, q) == Kept(w.now, e, q)
      && v.tags == w.tags && SameOutside(w, v) && (v.timer <==> w.timer || Before(w.now, f).inDiagnose == 0)
  {
  }

  /** The providers that a file gets when it is opened: the new ones, if it has no adapter. */
  function Joining(s: State, ps: set<Provider>): set<Provider> {
    if s.adapter.NoAdapter? then ps else {}
  }

  lemma OpenedParts(w: World, f: File, lang: Option<string>, id: nat, ps: set<Provider>)
    ensures
      var v, s := Opened(w, f, lang, id, ps), Before(w.now, f);
      var t := Equipped(s, lang, id);
      && f in v.now && v.now == w.now[f := v.now[f]] && v.inFlight == w.inFlight && t.adapter.Adapter? && t.table.Table?
      && v.owners == (if s.adapter.NoAdapter? then w.owners[id := f] else w.owners)
      && v.now[f] == (if s.adapter.NoAdapter? then WithProviders(t, ps) else t).(needs := true)
      && v.tags == (if s.adapter.NoAdapter? then TagAll(w.tags, ps, f) else w.tags)
      && (v.timer <==> w.timer || s.inDiagnose == 0)
  {
    hide WithEntries, TagAll;
    var u, s := Prepared(w, f, lang, id), Before(w.now, f);
    assert u.now[f] == Equipped(s, lang, id);
  }

  /** A file that is opened has an adapter, with new providers if it had none, and a round is wanted. */
  lemma OpenGroup(w: World, f: File, lang: Option<string>, id: nat, ps: set<Provider>)
    requires Good(w) && id !in w.owners && ps !! w.tags.Keys && ps !! w.inFlight.Keys
    ensures
      var v, s := Opened(w, f, lang, id, ps), Before(w.now, f);
      && f in v.now && v.now[f].adapter.Adapter? && Loaded(v.now[f].adapter) == Loaded(s.adapter) + Joining(s, ps)
      && SameBut(s.(adapter := v.now[f].adapter, lang := lang, needs := true), v.now[f])
      && v.now[f].adapter.id == (if s.adapter.NoAdapter? then id else s.adapter.id)
      && v.owners == (if s.adapter.NoAdapter? then w.owners[id := f] else w.owners)
      && v.inFlight == w.inFlight && (v.timer <==> w.timer || s.inDiagnose == 0)
  {
    hide Good, Opened, WithEntries, TagAll;
    OpenedParts(w, f, lang, id, ps);
  }

  /** What is known about a file stays when it is opened, be it from providers of other files; so do all other files. */
  lemma OpenKeeps(w: World, f: File, lang: Option<string>, id: nat, ps: set<Provider>, e: File, q: Provider)
    requires Good(w) && id !in w.owners && ps !! w.tags.Keys && ps !! w.inFlight.Keys
    ensures
      var v, joined := Opened(w, f, lang, id, ps), Joining(Before(w.now, f), ps);
      && (e != f ==> Before(v.now, e) == Before(w.now, e)) && (e in v.now <==> e in w.now || e == f)
      && Kept(v.now, e, q) == (if e == f && q in joined then [] else Kept(w.now, e, q))
  {
    hide Good, Opened, TagAll;
    OpenedParts(w, f, lang, id, ps);
  }

  lemma OpenTags(w: World, f: File, lang: Option<string>, id: nat, ps: set<Provider>, q: Provider)
    requires Good(w) && id !in w.owners && ps !! w.tags.Keys && ps !! w.inFlight.Keys
    ensures
      var v, joined := Opened(w, f, lang, id, ps), Joining(Before(w.now, f), ps);
      && (q in v.tags <==> q in w.tags || q in joined)
      && (q in joined ==> v.tags[q] == f) && (q in w.tags ==> v.tags[q] == w.tags[q])
  {
    hide Good, Opened, WithEntries, WithProviders, Equipped;
    OpenedParts(w, f, lang, id, ps);
  }

  /** A file that is closed has no adapter, contents or language, and no round is wanted for it. */
  lemma CloseGroup(w: World, f: File)
    requires Good(w)
    ensures
      var v, s := Shut(w, f), Before(w.now, f);
      && f in v.now && v.now[f].adapter.NoAdapter? && v.now[f].contents == None && v.now[f].lang == None
      && !v.now[f].needs
      && SameBut(s.(adapter := NoAdapter, contents := None, lang := None, needs := false, has := v.now[f].has,
                    running := v.now[f].running, lost := v.now[f].lost), v.now[f])
      && SameOutside(w, v) && v.timer == w.timer
  {
    hide Good, ClearedAll, HasItems;
  }

  /** Whether a file had any diagnostics, of whatever provider, is remembered when it is closed. */
  lemma CloseRemembers(w: World, f: File)
    requires Good(w)
    ensures f in Shut(w, f).now && (Shut(w, f).now[f].has <==> exists p :: Kept(w.now, f, p) != [])
  {
    hide Good, ClearedAll, HasItems;
    var s := Before(w.now, f);
    HasItemsIs(s.table);
    assert forall p :: Kept(w.now, f, p) == Stored(s.table, p);
  }

  /**
   * A file that is closed loses its providers, and with them everything they have reported, be it about other files;
   * what the providers of other files have reported about it is kept.
   */
  lemma CloseKeeps(w: World, f: File, e: File, q: Provider)
    requires Good(w)
    ensures
      var v, gone := Shut(w, f), Loaded(Before(w.now, f).adapter);
      && (e != f ==> SameBut(Before(w.now, e), Before(v.now, e))) && (e in v.now <==> e in w.now || e == f)
      && Kept(v.now, e, q) == (if q in gone then [] else Kept(w.now, e, q))
  {
    hide Good, ClearedAll, HasItems;
    ClearedAllStored(Before(w.now, e).table, Loaded(Before(w.now, f).adapter), q);
  }

  lemma CloseTags(w: World, f: File, q: Provider)
    requires Good(w)
    ensures
      var v, gone := Shut(w, f), Loaded(Before(w.now, f).adapter);
      (q in v.tags <==> q in w.tags && q !in gone) && (q in v.tags ==> v.tags[q] == w.tags[q])
  {
    hide Good, ClearedAll, HasItems;
  }

  lemma HasItemsIs(t: Table)
    ensures HasItems(t) <==> exists p :: Stored(t, p) != []
  {
    if HasItems(t) {
      var p :| p in t.entries && t.entries[p] != [];
      assert Stored(t, p) != [];
    }
    if exists p :: Stored(t, p) != [] {
      var p :| Stored(t, p) != [];
      assert p in t.entries && t.entries[p] != [];
    }
  }

  lemma ClearedAllStored(t: Table, ps: set<Provider>, q: Provider)
    ensures Stored(ClearedAll(t, ps), q) == if q in ps then [] else Stored(t, q)
  {
    if t.Table? && q in t.entries && q !in ps {
      assert q in t.entries - ps;
    }
  }

  // ---------------------------------------------------------------- providers

  /** A provider that asks for a round gets one wanted for its file. */
  lemma InvalidateAsks(w: World, p: Provider, e: File, q: Provider)
    requires AllSound(w) && p in w.tags
    ensures w.tags[p] in w.now
    ensures
      var v, f := Queued(w, w.tags[p]), w.tags[p];
      && v.now.Keys == w.now.Keys && v.now[f] == w.now[f].(needs := true)
      && (e != f ==> Before(v.now, e) == Before(w.now, e)) && Kept(v.now, e, q) == Kept(w.now, e, q)
      && v.tags == w.tags && SameOutside(w, v) && (v.timer <==> w.timer || w.now[f].inDiagnose == 0)
  {
    LoadedBy(w, p);
  }

  /** A provider that comes belongs to the file of its adapter, has reported nothing there, and gets a round wanted. */
  lemma LoadJoins(w: World, id: nat, p: Provider, e: File, q: Provider)
    requires Owned(w, id) && p !in w.tags
    ensures
      var v, f := Joined(w, id, p), w.owners[id];
      && v.now.Keys == w.now.Keys && v.now[f].adapter == Adapter(id, w.now[f].adapter.extensions + {p})
      && SameBut(w.now[f].(adapter := v.now[f].adapter, needs := true), v.now[f])
      && (e != f ==> Before(v.now, e) == Before(w.now, e))
      && Kept(v.now, e, q) == (if e == f && q == p then [] else Kept(w.now, e, q))
      && (q in v.tags <==> q in w.tags || q == p) && v.tags[p] == f && (q in w.tags ==> v.tags[q] == w.tags[q])
      && SameOutside(w, v) && (v.timer <==> w.timer || w.now[f].inDiagnose == 0)
  {
  }

  /** A provider that goes takes everything it has reported with it, about whatever file. */
  lemma UnloadTakes(w: World, p: Provider, e: File, q: Provider)
    requires AllSound(w) && p in w.tags
    ensures w.tags[p] in w.now && w.now[w.tags[p]].adapter.Adapter?
    ensures
      var v, f := Parted(w, p), w.tags[p];
      && v.now.Keys == w.now.Keys && (e != f ==> SameBut(Before(w.now, e), Before(v.now, e)))
      && Kept(v.now, e, q) == (if q == p then [] else Kept(w.now, e, q))
      && (q in v.tags <==> q in w.tags && q != p) && (q in v.tags ==> v.tags[q] == w.tags[q])
      && SameOutside(w, v) && v.timer == w.timer
  {
    hide Sound, Cleared;
    LoadedBy(w, p);
    ClearedStored(Before(w.now, e).table, p, q);
  }

  /** Its own group goes on without it; an answer that is still out is lost. */
  lemma UnloadGroup(w: World, p: Provider)
    requires AllSound(w) && p in w.tags
    ensures w.tags[p] in w.now && w.now[w.tags[p]].adapter.Adapter?
    ensures
      var s, t := w.now[w.tags[p]], Parted(w, p).now[w.tags[p]];
      && t.adapter == Adapter(s.adapter.id, s.adapter.extensions - {p}) && t.running == s.running - {p}
      && t.lost == s.lost + (if p in w.inFlight then 1 else 0)
      && SameBut(s.(adapter := t.adapter, running := t.running, lost := t.lost), t)
  {
    LoadedBy(w, p);
    assert Sound(w, w.tags[p]);
    hide Sound, Cleared;
  }

  // ---------------------------------------------------------------- answers

  /**
   * An answer replaces all that its provider has reported before, file by file; the provider's own group waits for one
   * answer less, and when it waits for none and a round is wanted the timer is set. Nothing else changes.
   */
  lemma AnswerReplaces(w: World, p: Provider, batch: seq<Diagnostic>, e: File, q: Provider)
    requires Good(w) && p in w.inFlight && p in w.tags
    ensures
      var v, f := Completed(w, p, batch), w.tags[p];
      && f in v.now && (e in v.now <==> e in w.now || About(batch, e) != [])
      && Kept(v.now, e, q) == (if q == p then About(batch, e) else Kept(w.now, e, q))
      && v.now[f].inDiagnose == w.now[f].inDiagnose - 1 && v.now[f].running == w.now[f].running - {p}
      && Before(v.now, e).sequence == Before(w.now, e).sequence + |About(batch, e)| + (if e == f then 1 else 0)
      && (Before(v.now, e).has <==> Before(w.now, e).has || About(batch, e) != [])
      && SameBut(Before(w.now, e).(inDiagnose := Before(v.now, e).inDiagnose, running := Before(v.now, e).running,
                                   sequence := Before(v.now, e).sequence, has := Before(v.now, e).has),
                 Before(v.now, e))
      && (e != f ==> Before(v.now, e).inDiagnose == Before(w.now, e).inDiagnose)
      && (e != f ==> Before(v.now, e).running == Before(w.now, e).running)
      && v.inFlight == w.inFlight - {p} && v.tags == w.tags && v.owners == w.owners
      && (v.timer <==> w.timer || (v.now[f].inDiagnose == 0 && w.now[f].needs))
  {
    hide Sound, About, Stored, Told, Reported;
    LoadedBy(w, p);
    ReportedMeans(w, p, batch, e, q);
    ReportedMeans(w, p, batch, w.tags[p], p);
    ReportedSame(w, p, batch, e);
    ReportedSame(w, p, batch, w.tags[p]);
  }

  lemma ReportedSame(w: World, p: Provider, batch: seq<Diagnostic>, f: File)
    ensures
      var s, t := Before(w.now, f), Before(Reported(w, p, batch).now, f);
      && SameBut(s.(sequence := t.sequence, has := t.has), t) && (t.has <==> s.has || About(batch, f) != [])
  {
    ToldMeans(Cleaned(w, p).now, p, batch, f, p);
  }

  /** The answer of a provider that is gone is dropped. */
  lemma AnswerDropped(w: World, p: Provider, batch: seq<Diagnostic>)
    requires Good(w) && p in w.inFlight && p !in w.tags
    ensures Completed(w, p, batch) == w.(inFlight := w.inFlight - {p})
  {
  }
}
