/** Whole runs of the diagnostics manager. */
module DiagnosticsRuns {
  import opened DiagnosticTables
  import opened DiagnosticsManagers
  import opened DiagnosticsProtocol

  datatype Event =
    | Open(file: File, lang: Option<string>, id: nat, providers: set<Provider>)
    | Close(file: File)
    | Change(file: File, contents: Option<string>, lang: Option<string>)
    | Speak(file: File, lang: Option<string>)
    | Ask(file: File)
    | Invalidate(provider: Provider)
    | Load(id: nat, provider: Provider)
    | Unload(provider: Provider)
    | Fire
    | Answer(provider: Provider, batch: seq<Diagnostic>)

  /**
   * Adapters and providers are newly made when they come, only tagged providers are listened to, a timer fires
   * when it is set, and an answer comes once for a request that is out.
   */
  predicate Enabled(w: World, e: Event) {
    match e
    case Open(_, _, id, ps) => id !in w.owners && ps !! w.tags.Keys && ps !! w.inFlight.Keys
    case Invalidate(p) => p in w.tags
    case Load(id, p) => Owned(w, id) && p !in w.tags && p !in w.inFlight
    case Unload(p) => p in w.tags
    case Fire => w.timer
    case Answer(p, _) => p in w.inFlight
    case _ => true
  }

  function Next(w: World, e: Event): World
    requires Good(w) && Enabled(w, e)
  {
    match e
    case Open(f, lang, id, ps) => Opened(w, f, lang, id, ps)
    case Close(f) => Shut(w, f)
    case Change(f, contents, lang) => Changed(w, f, contents, lang)
    case Speak(f, lang) => Changed(w, f, Before(w.now, f).contents, lang)
    case Ask(f) => Changed(w, f, Before(w.now, f).contents, Before(w.now, f).lang)
    case Invalidate(p) => LoadedBy(w, p); Queued(w, w.tags[p])
    case Load(id, p) => Joined(w, id, p)
    case Unload(p) => LoadedBy(w, p); Parted(w, p)
    case Fire => Fired(w)
    case Answer(p, batch) => Completed(w, p, batch)
  }

  lemma NextGood(w: World, e: Event)
    requires Good(w) && Enabled(w, e)
    ensures Good(Next(w, e))
  {
    match e
    case Open(f, lang, id, ps) => OpenedGood(w, f, lang, id, ps);
    case Close(f) => ShutGood(w, f);
    case Change(f, contents, lang) => ChangedGood(w, f, contents, lang);
    case Speak(f, lang) => ChangedGood(w, f, Before(w.now, f).contents, lang);
    case Ask(f) => ChangedGood(w, f, Before(w.now, f).contents, Before(w.now, f).lang);
    case Invalidate(p) => LoadedBy(w, p); QueuedGood(w, w.tags[p]);
    case Load(id, p) => JoinedGood(w, id, p);
    case Unload(p) => PartedGood(w, p);
    case Fire => FiredGood(w);
    case Answer(p, batch) => CompletedGood(w, p, batch);
  }

  /** Counters do not fall, and a group that lost an answer starts no round again. */
  ghost predicate Grown(s: State, t: State) {
    t.sequence >= s.sequence && t.lost >= s.lost && t.rounds >= s.rounds && (s.lost > 0 ==> t.rounds == s.rounds)
  }

  /** Groups stay. */
  ghost predicate Onward(w: World, v: World) {
    forall f {:trigger f in w.now} :: f in w.now ==> f in v.now && Grown(w.now[f], v.now[f])
  }

  lemma NextOnward(w: World, e: Event)
    requires Good(w) && Enabled(w, e)
    ensures Onward(w, Next(w, e))
  {
    forall f {:trigger f in w.now} | f in w.now ensures f in Next(w, e).now && Grown(w.now[f], Next(w, e).now[f]) {
      NextGrown(w, e, f);
    }
  }

  lemma NextGrown(w: World, e: Event, f: File)
    requires Good(w) && Enabled(w, e) && f in w.now
    ensures f in Next(w, e).now && Grown(w.now[f], Next(w, e).now[f])
  {
    hide Idle;
    hide Sound, AllSound, TimelyBut, Shut, Opened, Parted, Fired, Completed;
    match e
    case Open(g, lang, id, ps) => OpenedGrown(w, g, lang, id, ps, f);
    case Close(g) => ShutGrown(w, g, f);
    case Change(g, contents, lang) =>
    case Speak(g, lang) =>
    case Ask(g) =>
    case Invalidate(p) => LoadedBy(w, p);
    case Load(id, p) =>
    case Unload(p) => PartedGrown(w, p, f);
    case Fire => FiredGrown(w, f);
    case Answer(p, batch) => CompletedGrown(w, p, batch, f);
  }

  lemma OpenedGrown(w: World, g: File, lang: Option<string>, id: nat, ps: set<Provider>, f: File)
    requires f in w.now
    ensures f in Opened(w, g, lang, id, ps).now && Grown(w.now[f], Opened(w, g, lang, id, ps).now[f])
  {
  }

  lemma ShutGrown(w: World, g: File, f: File)
    requires f in w.now
    ensures f in Shut(w, g).now && Grown(w.now[f], Shut(w, g).now[f])
  {
  }

  lemma PartedGrown(w: World, p: Provider, f: File)
    requires AllSound(w) && p in w.tags && f in w.now
    ensures w.tags[p] in w.now && w.now[w.tags[p]].adapter.Adapter?
    ensures f in Parted(w, p).now && Grown(w.now[f], Parted(w, p).now[f])
  {
    hide Sound;
    LoadedBy(w, p);
  }

  lemma FiredGrown(w: World, f: File)
    requires AllSound(w) && f in w.now
    ensures f in Fired(w).now && Grown(w.now[f], Fired(w).now[f])
  {
    assert Sound(w, f);
  }

  lemma CompletedGrown(w: World, p: Provider, batch: seq<Diagnostic>, f: File)
    requires AllSound(w) && p in w.inFlight && f in w.now
    ensures f in Completed(w, p, batch).now && Grown(w.now[f], Completed(w, p, batch).now[f])
  {
    hide About, Stored, Told, Reported;
    if p in w.tags {
      LoadedBy(w, p);
      ReportedMeans(w, p, batch, f, p);
      ReportedMeans(w, p, batch, w.tags[p], p);
    }
  }

  const START := World(map[], map[], map[], map[], false)

  /** A run from a good state, every event of which can happen when it does. */
  ghost predicate Legal(w: World, es: seq<Event>)
    requires Good(w)
    decreases |es|
  {
    es == [] || (Enabled(w, es[0]) && (NextGood(w, es[0]); Legal(Next(w, es[0]), es[1..])))
  }

  ghost function Play(w: World, es: seq<Event>): World
    requires Good(w) && Legal(w, es)
    decreases |es|
  {
    if es == [] then w else
    NextGood(w, es[0]);
    Play(Next(w, es[0]), es[1..])
  }

  /**
   * Over every run the counters agree with the requests that are out, a group that can start a round has the
   * timer pending, and no group goes or starts a round again once an answer to it was lost.
   */
  lemma {:induction false} EveryRun(w: World, es: seq<Event>)
    requires Good(w) && Legal(w, es)
    ensures Good(Play(w, es)) && Onward(w, Play(w, es))
    decreases |es|
  {
    hide Good, Next, Enabled;
    if es != [] {
      NextGood(w, es[0]);
      NextOnward(w, es[0]);
      EveryRun(Next(w, es[0]), es[1..]);
    }
  }

  lemma Started()
    ensures Good(START)
  {
  }

  /**
   * The timer starts a round exactly for the groups that want one, have an adapter, and neither have nor lost an
   * answer.
   */
  lemma RoundStarts(w: World, f: File)
    requires Good(w) && f in w.now
    ensures var s, t := w.now[f], Fired(w).now[f];
      t.rounds == s.rounds + (if s.needs && s.adapter.Adapter? && s.running == {} && s.lost == 0 then 1 else 0)
  {
    assert Sound(w, f);
  }

  /** Closing a file while some of its providers still work loses their answers. */
  lemma CloseLoses(w: World, f: File)
    requires Good(w) && f in w.now
    ensures Shut(w, f).now[f].lost == w.now[f].lost + |w.now[f].running| && Shut(w, f).now[f].running == {}
    ensures Shut(w, f).now[f].rounds == w.now[f].rounds
  {
    var s := w.now[f];
    assert Sound(w, f);
    assert forall p :: p in s.running ==> p in Loaded(s.adapter);
    assert s.running * Loaded(s.adapter) == s.running && s.running - Loaded(s.adapter) == {};
  }

  /**
   * However a run goes on after a file was closed while some of its providers still work, the file is not
   * diagnosed any more.
   */
  lemma ClosedMidRound(w: World, f: File, es: seq<Event>)
    requires Good(w) && f in w.now && w.now[f].running != {} && Good(Shut(w, f)) && Legal(Shut(w, f), es)
    ensures f in Play(Shut(w, f), es).now && Play(Shut(w, f), es).now[f].rounds == w.now[f].rounds
  {
    hide Good, Play, Shut;
    CloseLoses(w, f);
    ShutGrown(w, f, f);
    EveryRun(Shut(w, f), es);
  }

  // Such a run: a file is opened with one provider, a round starts, the file is closed, the answer comes, the
  // file is opened again.

  const WANTED := CREATED.(table := Table(map[1 := []]), adapter := Adapter(0, {1}), needs := true)
  const BUSY := WANTED.(needs := false, contents := Some(""), inDiagnose := 1, running := {1}, rounds := 1)
  const CLOSED := CREATED.(inDiagnose := 1, lost := 1, rounds := 1)
  const REOPENED := CLOSED.(table := Table(map[2 := []]), adapter := Adapter(1, {2}), needs := true)

  const CALL := map[1 := Request(0, "", None)]

  lemma OpenFirst()
    ensures Opened(START, 0, None, 0, {1}) == World(map[0 := WANTED], map[1 := 0], map[], map[0 := 0], true)
  {
    assert WithEntries(map[], {1}) == map[1 := []];
    assert TagAll(map[], {1}, 0) == map[1 := 0];
    assert {} + {1} == {1};
    var s := CREATED.(table := Table(map[]), adapter := Adapter(0, {}));
    assert Prepared(START, 0, None, 0) == World(map[0 := s], map[], map[], map[0 := 0], false);
    assert WithProviders(s, {1}) == WANTED;
  }

  lemma FireFirst()
    ensures Fired(World(map[0 := WANTED], map[1 := 0], map[], map[0 := 0], true)) ==
      World(map[0 := BUSY], map[1 := 0], CALL, map[0 := 0], false)
  {
    var w := World(map[0 := WANTED], map[1 := 0], map[], map[0 := 0], false);
    assert BeganAll(w.now, {0}) == map[0 := BUSY];
    assert Calls(w, {0}) == CALL;
  }

  lemma CloseBusy()
    ensures Shut(World(map[0 := BUSY], map[1 := 0], CALL, map[0 := 0], false), 0) ==
      World(map[0 := CLOSED], map[], CALL, map[0 := 0], false)
  {
    var w := World(map[0 := BUSY], map[1 := 0], CALL, map[0 := 0], false);
    var u := Forgotten(w, 0);
    var v := PartedAll(u, 0, {1});
    assert Table(map[1 := []]).entries - {1} == map[];
    assert {1} * {1} == {1} && {1} - {1} == {};
    assert v.now[0] == CLOSED.(adapter := Adapter(0, {}));
    assert v.tags == map[];
    assert Shut(w, 0).now == map[0 := CLOSED];
  }

  lemma OpenAgain()
    ensures Opened(World(map[0 := CLOSED], map[], map[], map[0 := 0], false), 0, None, 1, {2}) ==
      World(map[0 := REOPENED], map[2 := 0], map[], map[0 := 0, 1 := 0], false)
  {
    assert WithEntries(map[], {2}) == map[2 := []];
    assert TagAll(map[], {2}, 0) == map[2 := 0];
    assert {} + {2} == {2};
    var w := World(map[0 := CLOSED], map[], map[], map[0 := 0], false);
    var s := CLOSED.(table := Table(map[]), adapter := Adapter(1, {}));
    assert Prepared(w, 0, None, 1) == World(map[0 := s], map[], map[], map[0 := 0, 1 := 0], false);
    assert WithProviders(s, {2}) == REOPENED;
    assert w.now[0 := REOPENED] == map[0 := REOPENED];
  }

  lemma PlayFirst(w: World, e: Event, v: World, es: seq<Event>)
    requires Good(w) && Enabled(w, e) && Next(w, e) == v
    ensures Good(v)
    ensures Legal(v, es) ==> Legal(w, [e] + es) && Play(w, [e] + es) == Play(v, es)
  {
    NextGood(w, e);
    assert ([e] + es)[1..] == es;
  }

  lemma WedgedSteps()
    ensures var es := [Open(0, None, 0, {1})]
      + ([Fire] + ([Close(0)] + ([Answer(1, [])] + ([Open(0, None, 1, {2})] + []))));
      && Good(START) && Legal(START, es)
      && Play(START, es) == World(map[0 := REOPENED], map[2 := 0], map[], map[0 := 0, 1 := 0], false)
  {
    var w1 := World(map[0 := WANTED], map[1 := 0], map[], map[0 := 0], true);
    var w2 := World(map[0 := BUSY], map[1 := 0], CALL, map[0 := 0], false);
    var w3 := World(map[0 := CLOSED], map[], CALL, map[0 := 0], false);
    var w4 := World(map[0 := CLOSED], map[], map[], map[0 := 0], false);
    var w5 := World(map[0 := REOPENED], map[2 := 0], map[], map[0 := 0, 1 := 0], false);
    assert CALL - {1} == map[];
    hide Good, Legal, Play, Opened, Fired, Shut, WANTED, BUSY, CLOSED, REOPENED;
    Started();
    OpenFirst();
    PlayFirst(START, Open(0, None, 0, {1}), w1,
        [Fire] + ([Close(0)] + ([Answer(1, [])] + ([Open(0, None, 1, {2})] + []))));
    FireFirst();
    PlayFirst(w1, Fire, w2, [Close(0)] + ([Answer(1, [])] + ([Open(0, None, 1, {2})] + [])));
    CloseBusy();
    PlayFirst(w2, Close(0), w3, [Answer(1, [])] + ([Open(0, None, 1, {2})] + []));
    PlayFirst(w3, Answer(1, []), w4, [Open(0, None, 1, {2})] + []);
    OpenAgain();
    PlayFirst(w4, Open(0, None, 1, {2}), w5, []);
    PlayNone(w5);
  }

  lemma PlayNone(w: World)
    requires Good(w)
    ensures Legal(w, []) && Play(w, []) == w
  {
  }

  /** A round is wanted, nothing is in flight, and still the timer is not pending. */
  lemma Wedged()
    ensures var es := [Open(0, None, 0, {1}), Fire, Close(0), Answer(1, []), Open(0, None, 1, {2})];
      && Good(START) && Legal(START, es)
      && var w := Play(START, es);
      && w.now == map[0 := REOPENED] && REOPENED.needs && REOPENED.adapter.Adapter? && w.inFlight == map[] && !w.timer
  {
    hide Good, Legal, Play;
    WedgedSteps();
    assert [Open(0, None, 0, {1}), Fire, Close(0), Answer(1, []), Open(0, None, 1, {2})] ==
      [Open(0, None, 0, {1})] + ([Fire] + ([Close(0)] + ([Answer(1, [])] + ([Open(0, None, 1, {2})] + []))));
  }

  lemma NextIs(w: World, e: Event)
    requires Good(w) && Enabled(w, e)
    ensures AllSound(w)
    ensures match e
      case Open(f, lang, id, ps) =>
        id !in w.owners && ps !! w.tags.Keys && ps !! w.inFlight.Keys && Next(w, e) == Opened(w, f, lang, id, ps)
      case Close(f) => Next(w, e) == Shut(w, f)
      case Change(f, contents, lang) => Next(w, e) == Changed(w, f, contents, lang)
      case Speak(f, lang) => Next(w, e) == Changed(w, f, Before(w.now, f).contents, lang)
      case Ask(f) => Next(w, e) == Changed(w, f, Before(w.now, f).contents, Before(w.now, f).lang)
      case Invalidate(p) => p in w.tags && w.tags[p] in w.now && Next(w, e) == Queued(w, w.tags[p])
      case Load(id, p) =>
        Owned(w, id) && TimelyBut(w, w.owners[id]) && p !in w.tags && p !in w.inFlight && Next(w, e) == Joined(w, id, p)
      case Unload(p) =>
        p in w.tags && w.tags[p] in w.now && w.now[w.tags[p]].adapter.Adapter? && Next(w, e) == Parted(w, p)
      case Fire => Next(w, e) == Fired(w)
      case Answer(p, batch) => p in w.inFlight && Next(w, e) == Completed(w, p, batch)
  {
    match e
    case Invalidate(p) => LoadedBy(w, p);
    case Unload(p) => LoadedBy(w, p);
    case _ =>
  }

  /** What the manager does about a provider that asks for a round, comes or goes. */
  method HandleProvider(m: Manager, e: Event)
    requires m.Valid() && Enabled(m.View(), e) && (e.Invalidate? || e.Load? || e.Unload?)
    modifies m, m.groups.Values
    ensures m.Valid() && m.groups == old(m.groups) && Good(old(m.View())) && m.View() == Next(old(m.View()), e)
  {
    hide *;
    m.ValidMeans();
    m.ViewMeans();
    NextIs(m.View(), e);
    match e
    case Invalidate(p) =>
      m.TagMeans(p);
      m.ProviderInvalidated(p);
    case Load(id, p) =>
      m.OwnerMeans(id);
      m.ExtensionAdded(id, p);
    case Unload(p) =>
      m.TagMeans(p);
      m.ExtensionRemoved(p);
  }

  /** What the manager does about an event. */
  method Handle(m: Manager, e: Event)
    requires m.Valid() && Enabled(m.View(), e)
    modifies m, m.groups.Values
    ensures m.Valid() && m.Kin() && Good(old(m.View())) && m.View() == Next(old(m.View()), e)
  {
    hide *;
    m.ValidMeans();
    NextIs(m.View(), e);
    match e
    case Open(f, lang, id, ps) =>
      m.ViewMeans();
      m.FileOpened(f, lang, id, ps);
    case Close(f) => m.FileClosed(f);
    case Change(f, contents, lang) => m.FileChanged(f, contents, lang);
    case Speak(f, lang) => m.LanguageChanged(f, lang);
    case Ask(f) => m.Rediagnose(f);
    case Fire =>
      m.BeginDiagnose();
      m.KinNow();
    case Answer(p, batch) =>
      m.ViewMeans();
      var _ := m.DiagnoseDone(p, Some(batch));
    case _ =>
      HandleProvider(m, e);
      m.KinNow();
  }
}
