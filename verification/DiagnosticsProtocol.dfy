/**
 * The diagnostics manager as a protocol: what each event does to the groups, the timer and the requests that are out,
 * and what holds after any run of events.
 */
module DiagnosticsProtocol {
  import opened DiagnosticTables

  /** The providers that are loaded for an open file. */
  datatype Adapter = NoAdapter | Adapter(id: nat, extensions: set<Provider>)

  function Loaded(a: Adapter): set<Provider> {
    if a.NoAdapter? then {} else a.extensions
  }

  datatype Request = Request(file: File, contents: string, lang: Option<string>)

  /**
   * A group. The last three are not kept by the program: the providers that have not answered yet, how many were
   * unloaded before they answered, and how many rounds were started.
   */
  datatype State = State(table: Table, adapter: Adapter, contents: Option<string>, lang: Option<string>,
                         sequence: nat, inDiagnose: nat, needs: bool, has: bool, removed: bool,
                         running: set<Provider>, lost: nat, rounds: nat)

  const CREATED := State(NoTable, NoAdapter, None, None, 0, 0, false, false, false, {}, 0, 0)

  /**
   * The groups, the file of each provider's group, the requests that are out, the files of all adapters so far,
   * the timer.
   */
  datatype World = World(now: map<File, State>, tags: map<Provider, File>, inFlight: map<Provider, Request>,
                         owners: map<nat, File>, timer: bool)

  /** A group wants a round and can start one. */
  predicate Idle(s: State) {
    s.needs && s.adapter.Adapter? && s.inDiagnose == 0
  }

  ghost predicate Sound(w: World, f: File)
    requires f in w.now
  {
    var s := w.now[f];
    && !s.removed && s.inDiagnose == |s.running| + s.lost
    && (s.adapter.Adapter? ==> s.adapter.id in w.owners && w.owners[s.adapter.id] == f)
    && (forall p {:trigger p in Loaded(s.adapter)} {:trigger w.tags[p]} ::
          p in Loaded(s.adapter) <==> p in w.tags && w.tags[p] == f)
    && (forall p {:trigger p in s.running} :: p in s.running <==> p in w.inFlight && p in Loaded(s.adapter))
  }

  ghost predicate AllSound(w: World) {
    && (forall f {:trigger w.now[f]} :: f in w.now ==> Sound(w, f))
    && (forall p {:trigger w.tags[p]} :: p in w.tags ==> w.tags[p] in w.now)
  }

  /** A group that wants a round, has an adapter and has nothing in flight has the timer pending. */
  ghost predicate Timely(w: World) {
    forall f {:trigger w.now[f]} :: f in w.now && Idle(w.now[f]) ==> w.timer
  }

  ghost predicate TimelyBut(w: World, f: File) {
    forall e {:trigger w.now[e]} :: e in w.now && e != f && Idle(w.now[e]) ==> w.timer
  }

  ghost predicate Good(w: World) {
    AllSound(w) && Timely(w)
  }

  /** A file that is not known yet is as good as one with nothing in it. */
  function Before(was: map<File, State>, f: File): State {
    if f in was then was[f] else CREATED
  }

  function Known(w: World, f: File): World {
    w.(now := w.now[f := Before(w.now, f)])
  }

  function Queued(w: World, f: File): World
    requires f in w.now
  {
    w.(now := w.now[f := w.now[f].(needs := true)], timer := w.timer || w.now[f].inDiagnose == 0)
  }

  lemma GoodMeans(w: World, f: File)
    requires Good(w)
    ensures AllSound(w) && TimelyBut(w, f)
  {
  }

  lemma KnownGood(w: World, f: File)
    requires Good(w)
    ensures Good(Known(w, f))
  {
    var v := Known(w, f);
    forall e {:trigger v.now[e]} | e in v.now ensures Sound(v, e) {
      assert e in w.now ==> Sound(w, e);
    }
  }

  lemma QueuedGood(w: World, f: File)
    requires AllSound(w) && f in w.now && TimelyBut(w, f)
    ensures Good(Queued(w, f))
  {
    var v := Queued(w, f);
    forall e {:trigger v.now[e]} | e in v.now ensures Sound(v, e) {
      assert Sound(w, e);
    }
    assert forall e {:trigger v.now[e]} :: e in v.now && e != f ==> v.now[e] == w.now[e];
  }

  /** The parts of a group that the tables have to agree with. */
  predicate SameLinks(s: State, t: State) {
    s.removed == t.removed && s.inDiagnose == t.inDiagnose && s.adapter == t.adapter && s.running == t.running
    && s.lost == t.lost
  }

  lemma ChangedSound(w: World, v: World)
    requires AllSound(w) && w.now.Keys == v.now.Keys && w.tags == v.tags && w.inFlight == v.inFlight
      && w.owners == v.owners
    requires forall f {:trigger v.now[f]} :: f in v.now ==> SameLinks(w.now[f], v.now[f])
    ensures AllSound(v)
  {
    forall f {:trigger v.now[f]} | f in v.now ensures Sound(v, f) {
      assert Sound(w, f) && SameLinks(w.now[f], v.now[f]);
    }
    forall p {:trigger v.tags[p]} | p in v.tags ensures v.tags[p] in v.now {
      assert w.tags[p] in w.now;
    }
  }

  // Providers come and go.

  predicate Owned(w: World, id: nat) {
    id in w.owners && w.owners[id] in w.now && w.now[w.owners[id]].adapter.Adapter?
    && w.now[w.owners[id]].adapter.id == id
  }

  function WithProvider(s: State, p: Provider): State
    requires s.adapter.Adapter?
  {
    s.(adapter := s.adapter.(extensions := s.adapter.extensions + {p}))
  }

  function Tagged(w: World, f: File, p: Provider): World
    requires f in w.now && w.now[f].adapter.Adapter?
  {
    w.(now := w.now[f := WithProvider(w.now[f], p)], tags := w.tags[p := f])
  }

  function Noted(w: World, f: File, p: Provider): World
    requires f in w.now
  {
    var s := w.now[f];
    w.(now := w.now[f := s.(table := if s.table.NoTable? then NoTable else Table(s.table.entries[p := []]))])
  }

  /**
   * A newly made provider is tagged with the group of its adapter and gets an empty entry, and a round is asked
   * for.
   */
  function Joined(w: World, id: nat, p: Provider): World
    requires Owned(w, id)
  {
    Queued(Noted(Tagged(w, w.owners[id], p), w.owners[id], p), w.owners[id])
  }

  function Cleaned(w: World, p: Provider): World {
    w.(now := map f | f in w.now :: w.now[f].(table := Cleared(w.now[f].table, p)))
  }

  /** The same for some of the files. */
  function CleanedSome(w: World, p: Provider, done: set<File>): World {
    w.(now := map f | f in w.now :: if f in done then w.now[f].(table := Cleared(w.now[f].table, p)) else w.now[f])
  }

  ghost predicate HasTable(w: World, done: set<File>) {
    exists f {:trigger w.now[f]} :: f in w.now && f in done && w.now[f].table.Table?
  }

  lemma CleanedNone(w: World, p: Provider)
    ensures CleanedSome(w, p, {}) == w && !HasTable(w, {})
  {
    assert CleanedSome(w, p, {}).now == w.now;
  }

  lemma CleanedMore(w: World, p: Provider, done: set<File>, f: File)
    requires f in w.now && f !in done
    ensures CleanedSome(CleanedSome(w, p, done), p, {f}) == CleanedSome(w, p, done + {f})
    ensures f in CleanedSome(w, p, done).now && CleanedSome(w, p, done).now[f] == w.now[f]
    ensures HasTable(w, done + {f}) <==> HasTable(w, done) || w.now[f].table.Table?
  {
    hide Cleared;
    assert CleanedSome(CleanedSome(w, p, done), p, {f}).now == CleanedSome(w, p, done + {f}).now;
  }

  lemma CleanedFinally(w: World, p: Provider)
    ensures CleanedSome(w, p, w.now.Keys) == Cleaned(w, p)
  {
    assert CleanedSome(w, p, w.now.Keys).now == Cleaned(w, p).now;
  }

  /** An answer that is still out when its provider goes is never counted back. */
  function WithoutProvider(s: State, p: Provider): State
    requires s.adapter.Adapter?
  {
    s.(adapter := s.adapter.(extensions := s.adapter.extensions - {p}), running := s.running - {p},
       lost := if p in s.running then s.lost + 1 else s.lost)
  }

  function Untagged(w: World, p: Provider): World
    requires p in w.tags && w.tags[p] in w.now && w.now[w.tags[p]].adapter.Adapter?
  {
    w.(now := w.now[w.tags[p] := WithoutProvider(w.now[w.tags[p]], p)], tags := w.tags - {p})
  }

  /** A provider goes: its diagnostics leave every file, and its group is forgotten. */
  function Parted(w: World, p: Provider): World
    requires p in w.tags && w.tags[p] in w.now && w.now[w.tags[p]].adapter.Adapter?
  {
    Untagged(Cleaned(w, p), p)
  }

  lemma TaggedSound(w: World, f: File, p: Provider)
    requires AllSound(w) && f in w.now && w.now[f].adapter.Adapter? && p !in w.tags && p !in w.inFlight
    ensures AllSound(Tagged(w, f, p))
  {
    var v := Tagged(w, f, p);
    forall e {:trigger v.now[e]} | e in v.now ensures Sound(v, e) {
      assert Sound(w, e);
      assert p !in w.now[e].running;
      forall q ensures q in Loaded(v.now[e].adapter) <==> q in v.tags && v.tags[q] == e {
        assert q in Loaded(w.now[e].adapter) <==> q in w.tags && w.tags[q] == e;
      }
    }
    forall q {:trigger v.tags[q]} | q in v.tags ensures v.tags[q] in v.now {
      assert q != p ==> w.tags[q] in w.now;
    }
  }

  lemma JoinedGood(w: World, id: nat, p: Provider)
    requires AllSound(w) && Owned(w, id) && TimelyBut(w, w.owners[id]) && p !in w.tags && p !in w.inFlight
    ensures Good(Joined(w, id, p)) && Owned(Joined(w, id, p), id)
  {
    hide AllSound, Sound;
    var f := w.owners[id];
    var u := Tagged(w, f, p);
    TaggedSound(w, f, p);
    var v := Noted(u, f, p);
    ChangedSound(u, v);
    forall e {:trigger v.now[e]} | e in v.now && e != f && Idle(v.now[e]) ensures v.timer {
      assert Idle(w.now[e]);
    }
    QueuedGood(v, f);
  }

  lemma CleanedGood(w: World, p: Provider)
    requires Good(w)
    ensures Good(Cleaned(w, p))
  {
    ChangedSound(w, Cleaned(w, p));
    forall f {:trigger w.now[f]} | f in w.now ensures Idle(Cleaned(w, p).now[f]) <==> Idle(w.now[f]) {
    }
  }

  lemma LoadedBy(w: World, p: Provider)
    requires AllSound(w) && p in w.tags
    ensures w.tags[p] in w.now && w.now[w.tags[p]].adapter.Adapter? && p in w.now[w.tags[p]].adapter.extensions
    ensures p in w.inFlight ==> p in w.now[w.tags[p]].running && w.now[w.tags[p]].inDiagnose > 0
    ensures !w.now[w.tags[p]].removed
  {
    assert Sound(w, w.tags[p]) && p in Loaded(w.now[w.tags[p]].adapter);
  }

  lemma OneLess(s: set<Provider>, p: Provider)
    ensures |s - {p}| + (if p in s then 1 else 0) == |s|
  {
    if p in s {
      assert s == s - {p} + {p};
    } else {
      assert s == s - {p};
    }
  }

  lemma UntaggedOwn(w: World, p: Provider)
    requires AllSound(w) && p in w.tags && w.tags[p] in w.now && w.now[w.tags[p]].adapter.Adapter?
    ensures Sound(Untagged(w, p), w.tags[p])
  {
    var f := w.tags[p];
    var s, v := w.now[f], Untagged(w, p);
    var t := v.now[f];
    assert Sound(w, f);
    OneLess(s.running, p);
    forall q ensures q in t.running <==> q in w.inFlight && q in Loaded(t.adapter) {
      assert q in s.running <==> q in w.inFlight && q in Loaded(s.adapter);
    }
    forall q ensures q in Loaded(t.adapter) <==> q in v.tags && v.tags[q] == f {
      assert q in Loaded(s.adapter) <==> q in w.tags && w.tags[q] == f;
    }
  }

  lemma UntaggedOther(w: World, p: Provider, e: File)
    requires AllSound(w) && p in w.tags && e in w.now && w.tags[p] in w.now && w.now[w.tags[p]].adapter.Adapter?
    requires e != w.tags[p]
    ensures Sound(Untagged(w, p), e)
  {
    var v := Untagged(w, p);
    assert Sound(w, e) && v.now[e] == w.now[e];
    forall q ensures q in Loaded(w.now[e].adapter) <==> q in v.tags && v.tags[q] == e {
      assert q in Loaded(w.now[e].adapter) <==> q in w.tags && w.tags[q] == e;
    }
  }

  lemma UntaggedGood(w: World, p: Provider)
    requires Good(w) && p in w.tags
    ensures w.tags[p] in w.now && w.now[w.tags[p]].adapter.Adapter? && Good(Untagged(w, p))
  {
    LoadedBy(w, p);
    var f := w.tags[p];
    var v := Untagged(w, p);
    forall e {:trigger v.now[e]} | e in v.now ensures Sound(v, e) {
      if e == f {
        UntaggedOwn(w, p);
      } else {
        UntaggedOther(w, p, e);
      }
    }
    forall q {:trigger v.tags[q]} | q in v.tags ensures v.tags[q] in v.now {
      assert w.tags[q] in w.now;
    }
  }

  lemma PartedGood(w: World, p: Provider)
    requires Good(w) && p in w.tags
    ensures w.tags[p] in w.now && w.now[w.tags[p]].adapter.Adapter? && Good(Parted(w, p))
  {
    CleanedGood(w, p);
    UntaggedGood(Cleaned(w, p), p);
    LoadedBy(w, p);
  }

  // Rounds.

  function RequestOf(f: File, s: State): Request {
    Request(f, if s.contents.None? then "" else s.contents.value, s.lang)
  }

  /** A round is noted to start. */
  function Announced(s: State): State {
    s.(needs := false, has := false, rounds := s.rounds + 1,
        contents := Some(if s.contents.None? then "" else s.contents.value))
  }

  function CallsTo(f: File, s: State, ps: set<Provider>): map<Provider, Request> {
    map p | p in ps :: RequestOf(f, s)
  }

  /** Some providers of a group are sent a request each. */
  function Sent(w: World, f: File, ps: set<Provider>): World
    requires f in w.now
  {
    var s := w.now[f];
    w.(now := w.now[f := s.(running := s.running + ps, inDiagnose := s.inDiagnose + |ps|)],
       inFlight := w.inFlight + CallsTo(f, s, ps))
  }

  /** A group that is idle starts a round with all its providers. */
  function Began(s: State): State {
    if !Idle(s) then s else
    Announced(s).(running := s.running + s.adapter.extensions, inDiagnose := |s.adapter.extensions|)
  }

  function BeganAll(now: map<File, State>, done: set<File>): map<File, State> {
    map f | f in now :: if f in done then Began(now[f]) else now[f]
  }

  /** The requests of the rounds that start when some groups are rung. */
  function Calls(w: World, done: set<File>): map<Provider, Request> {
    map p | p in w.tags && w.tags[p] in done && w.tags[p] in w.now && Idle(w.now[w.tags[p]]) ::
      RequestOf(w.tags[p], w.now[w.tags[p]])
  }

  function Rung(w: World, done: set<File>): World {
    w.(now := BeganAll(w.now, done), inFlight := w.inFlight + Calls(w, done))
  }

  /** The timer fires: every idle group starts a round. */
  function Fired(w: World): World {
    Rung(w.(timer := false), w.now.Keys)
  }

  lemma SameRequest(f: File, s: State, t: State)
    requires s.contents == t.contents && s.lang == t.lang
    ensures RequestOf(f, s) == RequestOf(f, t)
  {
  }

  lemma CallOne(inFlight: map<Provider, Request>, f: File, s: State, p: Provider)
    ensures inFlight[p := RequestOf(f, s)] == inFlight + CallsTo(f, s, {p})
  {
    hide RequestOf;
  }

  lemma SentNone(w: World, f: File)
    requires f in w.now
    ensures Sent(w, f, {}) == w
  {
    var s := w.now[f];
    assert w.inFlight + CallsTo(f, s, {}) == w.inFlight && s.running + {} == s.running && w.now[f := s] == w.now;
  }

  lemma SentMore(w: World, f: File, ps: set<Provider>, p: Provider)
    requires f in w.now && p !in ps
    ensures f in Sent(w, f, ps).now && Sent(Sent(w, f, ps), f, {p}) == Sent(w, f, ps + {p})
  {
    var s, t := w.now[f], Sent(w, f, ps).now[f];
    SameRequest(f, s, t);
    CallOne(w.inFlight + CallsTo(f, s, ps), f, t, p);
    CallsToMore(w.inFlight, f, s, ps, p);
    assert s.running + ps + {p} == s.running + (ps + {p});
  }

  lemma CallsToMore(inFlight: map<Provider, Request>, f: File, s: State, ps: set<Provider>, p: Provider)
    ensures (inFlight + CallsTo(f, s, ps))[p := RequestOf(f, s)] == inFlight + CallsTo(f, s, ps + {p})
  {
    hide RequestOf;
  }

  /** Rounds do not overlap: none of the providers of an idle group has a request out, and no answer was lost. */
  lemma IdleMeans(w: World, f: File)
    requires AllSound(w) && f in w.now && w.now[f].inDiagnose == 0
    ensures w.now[f].running == {} && w.now[f].lost == 0
    ensures forall p :: p in Loaded(w.now[f].adapter) <==> p in w.tags && w.tags[p] == f
    ensures forall p :: p in Loaded(w.now[f].adapter) ==> p in w.tags && w.tags[p] == f && p !in w.inFlight
  {
    var s := w.now[f];
    assert Sound(w, f);
    forall p | p in Loaded(s.adapter) ensures p !in w.inFlight {
      assert p !in s.running;
    }
  }

  lemma RungMore(w: World, done: set<File>, f: File)
    requires f in w.now && f !in done
    ensures Rung(Rung(w, done), {f}) == Rung(w, done + {f})
  {
    hide *;
    var u := Rung(w, done);
    BeganMore(w.now, done, f);
    CallsMore(w, done, f);
    assert w.inFlight + Calls(w, done) + Calls(u, {f}) == w.inFlight + (Calls(w, done) + Calls(u, {f}));
    RungMeans(w, done);
    RungMeans(w, done + {f});
    RungMeans(u, {f});
  }

  lemma RungNone(w: World)
    ensures Rung(w, {}) == w
  {
    assert BeganAll(w.now, {}) == w.now && w.inFlight + Calls(w, {}) == w.inFlight;
  }

  lemma RungNot(w: World, f: File)
    requires f in w.now && !Idle(w.now[f])
    ensures Rung(w, {f}) == w
  {
    assert BeganAll(w.now, {f}) == w.now && w.inFlight + Calls(w, {f}) == w.inFlight;
  }

  lemma FiredMeans(w: World)
    requires Good(w)
    ensures var v := w.(timer := false); AllSound(v) && Fired(w) == Rung(v, w.now.Keys)
  {
    ChangedSound(w, w.(timer := false));
  }

  lemma RungMeans(w: World, done: set<File>)
    ensures Rung(w, done) == w.(now := BeganAll(w.now, done), inFlight := w.inFlight + Calls(w, done))
  {
  }

  lemma BeganMore(now: map<File, State>, done: set<File>, f: File)
    requires f in now && f !in done
    ensures BeganAll(BeganAll(now, done), {f}) == BeganAll(now, done + {f})
  {
    hide Began;
  }

  lemma CallsMore(w: World, done: set<File>, f: File)
    requires f in w.now && f !in done
    ensures Calls(w, done) + Calls(Rung(w, done), {f}) == Calls(w, done + {f})
  {
    hide Began, RequestOf, Idle;
  }

  /** A round that starts sends the requests of all providers of the group. */
  lemma RungSent(w: World, f: File)
    requires AllSound(w) && f in w.now && Idle(w.now[f])
    ensures Sent(w.(now := w.now[f := Announced(w.now[f])]), f, w.now[f].adapter.extensions) == Rung(w, {f})
  {
    IdleMeans(w, f);
    var s := w.now[f];
    assert Announced(s).(running := s.running + s.adapter.extensions,
      inDiagnose := s.inDiagnose + |s.adapter.extensions|) == Began(s);
    assert w.now[f := Announced(s)][f := Began(s)] == BeganAll(w.now, {f}) by {
      hide Began, Announced;
    }
    assert CallsTo(f, Announced(s), s.adapter.extensions) == Calls(w, {f}) by {
      CallsToAll(w, f);
    }
  }

  lemma CallsToAll(w: World, f: File)
    requires f in w.now && Idle(w.now[f])
    requires forall p :: p in w.now[f].adapter.extensions <==> p in w.tags && w.tags[p] == f
    ensures CallsTo(f, Announced(w.now[f]), w.now[f].adapter.extensions) == Calls(w, {f})
  {
    assert RequestOf(f, Announced(w.now[f])) == RequestOf(f, w.now[f]);
    hide RequestOf, Announced, Idle;
  }

  lemma RungSound(w: World, done: set<File>)
    requires AllSound(w)
    ensures AllSound(Rung(w, done))
  {
    hide Sound;
    var v := Rung(w, done);
    forall e {:trigger v.now[e]} | e in v.now ensures Sound(v, e) {
      RungSoundAt(w, done, e);
    }
    forall q {:trigger v.tags[q]} | q in v.tags ensures v.tags[q] in v.now {
      assert w.tags[q] in w.now;
    }
  }

  lemma RungSoundAt(w: World, done: set<File>, e: File)
    requires AllSound(w) && e in w.now
    ensures Sound(Rung(w, done), e)
  {
    var v := Rung(w, done);
    assert Sound(w, e);
    if w.now[e].inDiagnose == 0 {
      IdleMeans(w, e);
    }
    forall p ensures p in v.now[e].running <==> p in v.inFlight && p in Loaded(v.now[e].adapter) {
      assert p in w.now[e].running <==> p in w.inFlight && p in Loaded(w.now[e].adapter);
      assert p in Loaded(w.now[e].adapter) <==> p in w.tags && w.tags[p] == e;
    }
  }

  lemma FiredGood(w: World)
    requires Good(w)
    ensures Good(Fired(w)) && !Fired(w).timer
  {
    var v := w.(timer := false);
    ChangedSound(w, v);
    RungSound(v, w.now.Keys);
    forall e {:trigger w.now[e]} | e in w.now ensures !Idle(Began(w.now[e])) {
    }
  }

  // Answers.

  function WithItem(s: State, p: Provider, d: Diagnostic): State {
    s.(table := Added(s.table, p, d), has := true, sequence := s.sequence + 1)
  }

  /**
   * The groups once a batch was added item by item, each to the group of its file, which is made if it is not
   * there.
   */
  function Told(now: map<File, State>, p: Provider, batch: seq<Diagnostic>): map<File, State> {
    if batch == [] then now else
    var n := |batch| - 1;
    ToldOne(Told(now, p, batch[..n]), p, batch[n])
  }

  function ToldOne(now: map<File, State>, p: Provider, d: Diagnostic): map<File, State> {
    if d.file.None? then now else now[d.file.value := WithItem(Before(now, d.file.value), p, d)]
  }

  /** What a file keeps of the diagnostics of a provider. */
  function Kept(now: map<File, State>, f: File, p: Provider): seq<Diagnostic> {
    Stored(Before(now, f).table, p)
  }

  /**
   * Adding a batch puts, file by file, the items about the file at the end of the list of the provider, and
   * nothing else.
   */
  lemma {:induction false} ToldMeans(now: map<File, State>, p: Provider, batch: seq<Diagnostic>, f: File, q: Provider)
    ensures var after := Told(now, p, batch);
      var items := About(batch, f);
      && (f in after <==> f in now || items != [])
      && Kept(after, f, q) == Kept(now, f, q) + (if q == p then items else [])
      && Before(after, f) == Before(now, f).(table := Before(after, f).table, has := Before(now, f).has || items != [],
                                             sequence := Before(now, f).sequence + |items|)
  {
    hide Stored, Before, ToldOne, Added;
    if batch == [] {
      assert Kept(now, f, q) + [] == Kept(now, f, q);
    } else {
      var n := |batch| - 1;
      ToldMeans(now, p, batch[..n], f, q);
      ToldOneMeans(Told(now, p, batch[..n]), p, batch[n], f, q);
    }
  }

  lemma ToldOneMeans(now: map<File, State>, p: Provider, d: Diagnostic, f: File, q: Provider)
    ensures var after := ToldOne(now, p, d);
      if d.file == Some(f) then
        && f in after && Kept(after, f, q) == Kept(now, f, q) + (if q == p then [d] else [])
        && Before(after, f) == Before(now, f).(table := Before(after, f).table, has := true,
            sequence := Before(now, f).sequence + 1)
      else
        && (f in after <==> f in now) && Before(after, f) == Before(now, f)
  {
    AddedStored(Before(now, f).table, p, d, q);
  }

  /** The own group of a provider takes one request off and moves its sequence on, whatever was reported. */
  function Answered(s: State, p: Provider): State
    requires s.inDiagnose > 0
  {
    s.(inDiagnose := s.inDiagnose - 1, running := s.running - {p}, sequence := s.sequence + 1)
  }

  function Closed(w: World, p: Provider): World
    requires p in w.tags && w.tags[p] in w.now && w.now[w.tags[p]].inDiagnose > 0
  {
    w.(now := w.now[w.tags[p] := Answered(w.now[w.tags[p]], p)], inFlight := w.inFlight - {p})
  }

  /** Another round is asked for if one is wanted, or else a group that is of no use any more goes. */
  function Requeued(w: World, f: File): World
    requires f in w.now
  {
    var s := w.now[f];
    if !s.removed && s.inDiagnose == 0 && s.needs then Queued(w, f)
    else if s.adapter.NoAdapter? && !s.has then w.(now := w.now - {f})
    else w
  }

  function Reported(w: World, p: Provider, batch: seq<Diagnostic>): World {
    var u := Cleaned(w, p);
    u.(now := Told(u.now, p, batch))
  }

  /**
   * An answer of a provider; once the provider is gone it is dropped, and the group it was counted for never
   * learns of it.
   */
  function Completed(w: World, p: Provider, batch: seq<Diagnostic>): World
    requires AllSound(w) && p in w.inFlight
  {
    if p !in w.tags then w.(inFlight := w.inFlight - {p}) else
    LoadedBy(w, p);
    ReportedMeans(w, p, batch, w.tags[p], p);
    Requeued(Closed(Reported(w, p, batch), p), w.tags[p])
  }

  /**
   * What is kept of a provider's diagnostics after its answer are the new items, file by file and in order;
   * those of the other providers stay, and files that come up for the first time get a group.
   */
  lemma ReportedMeans(w: World, p: Provider, batch: seq<Diagnostic>, f: File, q: Provider)
    ensures var v := Reported(w, p, batch);
      && (f in v.now <==> f in w.now || About(batch, f) != [])
      && Kept(v.now, f, q) == (if q == p then About(batch, f) else Kept(w.now, f, q))
      && SameLinks(Before(w.now, f), Before(v.now, f)) && Before(w.now, f).needs == Before(v.now, f).needs
      && Before(v.now, f).rounds == Before(w.now, f).rounds
      && Before(v.now, f).sequence == Before(w.now, f).sequence + |About(batch, f)|
      && v == w.(now := v.now)
  {
    ToldMeans(Cleaned(w, p).now, p, batch, f, q);
    ClearedStored(Before(w.now, f).table, p, q);
    assert [] + About(batch, f) == About(batch, f);
    assert Kept(w.now, f, q) + [] == Kept(w.now, f, q);
  }

  lemma CompletedKeeps(w: World, p: Provider, batch: seq<Diagnostic>, f: File, q: Provider)
    requires AllSound(w) && p in w.inFlight && p in w.tags
    ensures var now := Completed(w, p, batch).now;
      && (f in now <==> f in w.now || About(batch, f) != [])
      && Kept(now, f, q) == (if q == p then About(batch, f) else Kept(w.now, f, q))
      && Before(now, f).sequence == Before(w.now, f).sequence + |About(batch, f)| + (if f == w.tags[p] then 1 else 0)
  {
    hide About, Stored, Told, Reported;
    LoadedBy(w, p);
    ReportedMeans(w, p, batch, f, q);
    ReportedMeans(w, p, batch, w.tags[p], p);
  }

  lemma ReportedGood(w: World, p: Provider, batch: seq<Diagnostic>)
    requires Good(w)
    ensures Good(Reported(w, p, batch))
  {
    hide Reported, Sound, About, Kept;
    var v := Reported(w, p, batch);
    forall f ensures f in w.now ==> f in v.now
      ensures SameLinks(Before(w.now, f), Before(v.now, f)) && Before(w.now, f).needs == Before(v.now, f).needs
    {
      ReportedMeans(w, p, batch, f, p);
    }
    ReportedMeans(w, p, batch, 0, p);
    forall f {:trigger v.now[f]} | f in v.now ensures Sound(v, f) {
      ReportedSoundAt(w, v, f);
    }
    forall f {:trigger v.now[f]} | f in v.now && Idle(v.now[f]) ensures v.timer {
      assert Before(w.now, f) == Before(v.now, f).(table := Before(w.now, f).table,
        contents := Before(w.now, f).contents, lang := Before(w.now, f).lang, sequence := Before(w.now, f).sequence,
            has := Before(w.now, f).has, rounds := Before(w.now, f).rounds);
      assert Idle(Before(w.now, f));
    }
  }

  lemma ReportedSoundAt(w: World, v: World, f: File)
    requires AllSound(w) && f in v.now && v == w.(now := v.now) && SameLinks(Before(w.now, f), Before(v.now, f))
    ensures Sound(v, f)
  {
    if f in w.now {
      assert Sound(w, f);
    }
    forall p ensures p in Loaded(v.now[f].adapter) <==> p in v.tags && v.tags[p] == f {
      assert p in w.tags ==> w.tags[p] in w.now;
    }
  }

  lemma ClosedSound(w: World, p: Provider)
    requires AllSound(w) && p in w.inFlight && p in w.tags
    ensures w.tags[p] in w.now && w.now[w.tags[p]].inDiagnose > 0 && AllSound(Closed(w, p))
  {
    hide Sound;
    LoadedBy(w, p);
    var v := Closed(w, p);
    forall e {:trigger v.now[e]} | e in v.now ensures Sound(v, e) {
      ClosedSoundAt(w, p, e);
    }
    forall q {:trigger v.tags[q]} | q in v.tags ensures v.tags[q] in v.now {
      assert w.tags[q] in w.now;
    }
  }

  lemma ClosedSoundAt(w: World, p: Provider, e: File)
    requires AllSound(w) && p in w.inFlight && p in w.tags && e in w.now && w.tags[p] in w.now
      && w.now[w.tags[p]].inDiagnose > 0
    ensures Sound(Closed(w, p), e)
  {
    var s, t := w.now[e], Closed(w, p).now[e];
    assert Sound(w, e) && Sound(w, w.tags[p]);
    assert p in s.running <==> e == w.tags[p];
    assert p in s.running ==> s.running == s.running - {p} + {p};
    forall q ensures q in t.running <==> q in Closed(w, p).inFlight && q in Loaded(t.adapter) {
      assert q in s.running <==> q in w.inFlight && q in Loaded(s.adapter);
    }
  }

  /** An answer of a provider that is gone touches no group. */
  lemma StrayGood(w: World, p: Provider)
    requires Good(w) && p !in w.tags
    ensures Good(w.(inFlight := w.inFlight - {p}))
  {
    var v := w.(inFlight := w.inFlight - {p});
    forall e {:trigger v.now[e]} | e in v.now ensures Sound(v, e) {
      assert Sound(w, e);
      assert p !in Loaded(w.now[e].adapter);
    }
    forall q {:trigger v.tags[q]} | q in v.tags ensures v.tags[q] in v.now {
      assert w.tags[q] in w.now;
    }
  }

  lemma CompletedGood(w: World, p: Provider, batch: seq<Diagnostic>)
    requires Good(w) && p in w.inFlight
    ensures Good(Completed(w, p, batch))
  {
    hide Sound, Reported;
    if p !in w.tags {
      StrayGood(w, p);
    } else {
      LoadedBy(w, p);
      var f := w.tags[p];
      ReportedGood(w, p, batch);
      ReportedMeans(w, p, batch, f, p);
      var u := Reported(w, p, batch);
      ClosedSound(u, p);
      var v := Closed(u, p);
      forall e {:trigger v.now[e]} | e in v.now && e != f && Idle(v.now[e]) ensures v.timer {
        assert Idle(u.now[e]);
      }
      if v.now[f].inDiagnose == 0 && v.now[f].needs {
        QueuedGood(v, f);
      }
    }
  }

  // Files.

  /** New contents or a new language of a file. */
  function Changed(w: World, f: File, contents: Option<string>, lang: Option<string>): World {
    var s := Before(w.now, f);
    Queued(w.(now := w.now[f := s.(contents := contents, lang := lang)]), f)
  }

  /** Some providers join one after the other; a round is asked for with the first. */
  function JoinedAll(w: World, f: File, ps: set<Provider>): World
    requires f in w.now && w.now[f].adapter.Adapter? && w.now[f].table.Table?
  {
    w.(now := w.now[f := WithProviders(w.now[f], ps)], tags := TagAll(w.tags, ps, f),
       timer := w.timer || (ps != {} && w.now[f].inDiagnose == 0))
  }

  function WithProviders(s: State, ps: set<Provider>): State
    requires s.adapter.Adapter? && s.table.Table?
  {
    s.(adapter := s.adapter.(extensions := s.adapter.extensions + ps), needs := s.needs || ps != {},
       table := Table(WithEntries(s.table.entries, ps)))
  }

  function WithEntries(t: map<Provider, seq<Diagnostic>>, ps: set<Provider>): map<Provider, seq<Diagnostic>> {
    t + map p | p in ps :: []
  }

  function TagAll(tags: map<Provider, File>, ps: set<Provider>, f: File): map<Provider, File> {
    tags + map p | p in ps :: f
  }

  function Equipped(s: State, lang: Option<string>, id: nat): State {
    s.(table := if s.table.NoTable? then Table(map[]) else s.table, lang := lang,
       adapter := if s.adapter.NoAdapter? then Adapter(id, {}) else s.adapter)
  }

  /** The group of a file that is opened, before the providers of a new adapter join. */
  function Prepared(w: World, f: File, lang: Option<string>, id: nat): World {
    var s := Before(w.now, f);
    w.(now := w.now[f := Equipped(s, lang, id)], owners := if s.adapter.NoAdapter? then w.owners[id := f] else w.owners)
  }

  /** A file is opened: it gets an adapter, if it has none, with some providers. */
  function Opened(w: World, f: File, lang: Option<string>, id: nat, ps: set<Provider>): World {
    var u := Prepared(w, f, lang, id);
    Queued(if Before(w.now, f).adapter.Adapter? then u else JoinedAll(u, f, ps), f)
  }

  function ClearedAll(t: Table, ps: set<Provider>): Table {
    if ps == {} then t else if t.NoTable? || t.entries - ps == map[] then NoTable else Table(t.entries - ps)
  }

  /** The providers of a group go one after the other. */
  function PartedAll(w: World, f: File, ps: set<Provider>): World
    requires f in w.now && w.now[f].adapter.Adapter?
  {
    w.(now := map e | e in w.now :: Without(w.now[e], e == f, ps), tags := w.tags - ps)
  }

  /** A group without some providers, which are its own or those of another. */
  function Without(s: State, own: bool, ps: set<Provider>): State
    requires own ==> s.adapter.Adapter?
  {
    var t := s.(table := ClearedAll(s.table, ps));
    if !own then t else
    t.(adapter := s.adapter.(extensions := s.adapter.extensions - ps), running := s.running - ps,
        lost := s.lost + |s.running * ps|)
  }

  predicate HasItems(t: Table) {
    t.Table? && exists p :: p in t.entries && t.entries[p] != []
  }

  function Vacated(s: State): State {
    s.(contents := None, lang := None, needs := false)
  }

  /** The group of a file that is closed, before its providers go. */
  function Forgotten(w: World, f: File): World {
    w.(now := w.now[f := Vacated(Before(w.now, f))])
  }

  function Closing(s: State, has: bool): State {
    s.(adapter := NoAdapter, table := if s.table == Table(map[]) then NoTable else s.table, has := has)
  }

  /** A file is closed: its providers go with all their diagnostics, and whether it had any is remembered. */
  function Shut(w: World, f: File): World {
    var u := Forgotten(w, f);
    var v := if u.now[f].adapter.Adapter? then PartedAll(u, f, u.now[f].adapter.extensions) else u;
    Ended(v, f, HasItems(u.now[f].table))
  }

  function Ended(w: World, f: File, has: bool): World
    requires f in w.now
  {
    w.(now := w.now[f := Closing(w.now[f], has)])
  }

  lemma ChangedGood(w: World, f: File, contents: Option<string>, lang: Option<string>)
    requires Good(w)
    ensures Good(Changed(w, f, contents, lang))
  {
    KnownGood(w, f);
    var u := Known(w, f);
    var v := w.(now := w.now[f := Before(w.now, f).(contents := contents, lang := lang)]);
    ChangedSound(u, v);
    forall e {:trigger v.now[e]} | e in v.now && e != f && Idle(v.now[e]) ensures v.timer {
      assert Idle(u.now[e]);
    }
    QueuedGood(v, f);
  }

  lemma JoinedMeans(w: World, id: nat, p: Provider)
    requires Owned(w, id) && w.now[w.owners[id]].table.Table?
    ensures var f := w.owners[id];
      Joined(w, id, p) == w.(now := w.now[f := WithProviders(w.now[f], {p})], tags := TagAll(w.tags, {p}, f),
                             timer := w.timer || w.now[f].inDiagnose == 0)
  {
    hide WithEntries;
    var f := w.owners[id];
    var s := w.now[f];
    EntryOne(s.table.entries, p);
    assert w.tags[p := f] == TagAll(w.tags, {p}, f);
    assert Joined(w, id, p).now[f] == WithProviders(s, {p});
    assert Joined(w, id, p).now == w.now[f := WithProviders(s, {p})];
  }

  lemma EntryOne(t: map<Provider, seq<Diagnostic>>, p: Provider)
    ensures WithEntries(t, {p}) == t[p := []]
  {
  }

  lemma EntriesMore(t: map<Provider, seq<Diagnostic>>, ps: set<Provider>, qs: set<Provider>)
    ensures WithEntries(WithEntries(t, ps), qs) == WithEntries(t, ps + qs)
  {
  }

  lemma WithProvidersMore(s: State, ps: set<Provider>, qs: set<Provider>)
    requires s.adapter.Adapter? && s.table.Table?
    ensures WithProviders(WithProviders(s, ps), qs) == WithProviders(s, ps + qs)
  {
    assert s.adapter.extensions + ps + qs == s.adapter.extensions + (ps + qs);
    EntriesMore(s.table.entries, ps, qs);
  }

  lemma TagAllMore(tags: map<Provider, File>, ps: set<Provider>, qs: set<Provider>, f: File)
    ensures TagAll(TagAll(tags, ps, f), qs, f) == TagAll(tags, ps + qs, f)
  {
  }

  lemma JoinedAllMore(w: World, id: nat, f: File, ps: set<Provider>, p: Provider)
    requires f in w.now && w.now[f].table.Table? && w.now[f].adapter.Adapter? && w.now[f].adapter.id == id
    requires id in w.owners && w.owners[id] == f
    ensures var u := JoinedAll(w, f, ps);
      && Owned(u, id) && u.owners == w.owners && u.inFlight == w.inFlight
      && (forall q :: q in u.tags <==> q in w.tags || q in ps)
      && Joined(u, id, p) == JoinedAll(w, f, ps + {p})
  {
    var u := JoinedAll(w, f, ps);
    assert u.now[f] == WithProviders(w.now[f], ps);
    JoinedMeans(u, id, p);
    WithProvidersMore(w.now[f], ps, {p});
    TagAllMore(w.tags, ps, {p}, f);
    hide *;
    assert u.now[f := WithProviders(w.now[f], ps + {p})] == w.now[f := WithProviders(w.now[f], ps + {p})];
  }

  lemma JoinedNone(w: World, f: File)
    requires f in w.now && w.now[f].adapter.Adapter? && w.now[f].table.Table?
    ensures JoinedAll(w, f, {}) == w
  {
    var s, none: set<Provider> := w.now[f], {};
    assert w.tags + (map p | p in none :: f) == w.tags;
    assert WithEntries(s.table.entries, {}) == s.table.entries && s.adapter.extensions + {} == s.adapter.extensions;
    assert WithProviders(s, {}) == s && w.now[f := s] == w.now;
  }

  lemma {:induction false} JoinedAllGood(w: World, id: nat, f: File, ps: set<Provider>)
    requires AllSound(w) && TimelyBut(w, f)
    requires f in w.now && w.now[f].table.Table? && w.now[f].adapter.Adapter? && w.now[f].adapter.id == id
    requires id in w.owners && w.owners[id] == f && ps !! w.tags.Keys && ps !! w.inFlight.Keys
    ensures AllSound(JoinedAll(w, f, ps)) && TimelyBut(JoinedAll(w, f, ps), f)
    decreases ps
  {
    hide *;
    if ps == {} {
      JoinedNone(w, f);
    } else {
      var p :| p in ps;
      JoinedAllGood(w, id, f, ps - {p});
      JoinedAllMore(w, id, f, ps - {p}, p);
      JoinedGood(JoinedAll(w, f, ps - {p}), id, p);
      assert ps - {p} + {p} == ps;
      GoodMeans(JoinedAll(w, f, ps), f);
    }
  }

  lemma PreparedSoundAt(w: World, f: File, lang: Option<string>, id: nat, e: File)
    requires AllSound(Known(w, f)) && id !in w.owners && e in Known(w, f).now
    ensures Sound(Prepared(w, f, lang, id), e)
  {
    var k, u := Known(w, f), Prepared(w, f, lang, id);
    assert u.tags == k.tags && u.inFlight == k.inFlight && Loaded(u.now[e].adapter) == Loaded(k.now[e].adapter);
    assert Sound(Known(w, f), e);
  }

  lemma PreparedGood(w: World, f: File, lang: Option<string>, id: nat)
    requires Good(w) && id !in w.owners
    ensures var u := Prepared(w, f, lang, id); AllSound(u) && TimelyBut(u, f)
  {
    KnownGood(w, f);
    var k, u := Known(w, f), Prepared(w, f, lang, id);
    hide Sound;
    forall e {:trigger u.now[e]} | e in u.now ensures Sound(u, e) {
      PreparedSoundAt(w, f, lang, id, e);
    }
    forall q {:trigger u.tags[q]} | q in u.tags ensures u.tags[q] in u.now {
      assert w.tags[q] in w.now;
    }
    forall e {:trigger u.now[e]} | e in u.now && e != f && Idle(u.now[e]) ensures u.timer {
      assert Idle(k.now[e]);
    }
  }

  lemma OpenedGood(w: World, f: File, lang: Option<string>, id: nat, ps: set<Provider>)
    requires Good(w) && id !in w.owners && ps !! w.tags.Keys && ps !! w.inFlight.Keys
    ensures Good(Opened(w, f, lang, id, ps))
  {
    hide Sound;
    var u := Prepared(w, f, lang, id);
    PreparedGood(w, f, lang, id);
    if Before(w.now, f).adapter.NoAdapter? {
      JoinedAllGood(u, id, f, ps);
      QueuedGood(JoinedAll(u, f, ps), f);
    } else {
      QueuedGood(u, f);
    }
  }

  lemma ClearedMore(t: Table, ps: set<Provider>, p: Provider)
    requires p !in ps
    ensures ClearedAll(ClearedAll(t, ps), {p}) == ClearedAll(t, ps + {p})
  {
    if t.Table? {
      assert t.entries - ps - {p} == t.entries - (ps + {p});
      assert t.entries - ps == map[] ==> t.entries - (ps + {p}) == map[];
    }
  }

  lemma WithoutMore(s: State, own: bool, ps: set<Provider>, p: Provider)
    requires (own ==> s.adapter.Adapter?) && p !in ps
    ensures Without(Without(s, own, ps), own, {p}) == Without(s, own, ps + {p})
  {
    hide ClearedAll;
    ClearedMore(s.table, ps, p);
    if own {
      FewerStill(s.running, ps, p);
      FewerStill(s.adapter.extensions, ps, p);
    }
  }

  lemma FewerStill(s: set<Provider>, ps: set<Provider>, p: Provider)
    requires p !in ps
    ensures s - ps - {p} == s - (ps + {p}) && |s * ps| + |(s - ps) * {p}| == |s * (ps + {p})|
  {
    if p in s {
      assert (s - ps) * {p} == {p} && s * (ps + {p}) == s * ps + {p};
    } else {
      assert (s - ps) * {p} == {} && s * (ps + {p}) == s * ps;
    }
  }

  lemma WithoutOne(s: State, p: Provider)
    requires s.adapter.Adapter?
    ensures Without(s, true, {p}) == WithoutProvider(s.(table := Cleared(s.table, p)), p)
  {
    assert s.running * {p} == if p in s.running then {p} else {};
  }

  lemma PartedMeans(w: World, p: Provider)
    requires p in w.tags && w.tags[p] in w.now && w.now[w.tags[p]].adapter.Adapter?
    ensures Parted(w, p) == PartedAll(w, w.tags[p], {p})
  {
    var f := w.tags[p];
    var v := Parted(w, p);
    WithoutOne(w.now[f], p);
    forall e {:trigger v.now[e]} | e in v.now ensures v.now[e] == Without(w.now[e], e == f, {p}) {
    }
    assert v.now == PartedAll(w, f, {p}).now;
  }

  lemma PartedIn(w: World, f: File, ps: set<Provider>)
    requires f in w.now && w.now[f].adapter.Adapter?
    ensures PartedAll(w, f, ps).now.Keys == w.now.Keys && PartedAll(w, f, ps).now[f].adapter.Adapter?
  {
  }

  lemma PartedTwice(w: World, f: File, ps: set<Provider>, p: Provider)
    requires f in w.now && w.now[f].adapter.Adapter? && p !in ps
    ensures PartedAll(w, f, ps).now.Keys == w.now.Keys && PartedAll(w, f, ps).now[f].adapter.Adapter?
    ensures PartedAll(PartedAll(w, f, ps), f, {p}) == PartedAll(w, f, ps + {p})
  {
    PartedIn(w, f, ps);
    hide Without;
    var u := PartedAll(w, f, ps);
    var x, v := PartedAll(u, f, {p}), PartedAll(w, f, ps + {p});
    forall e {:trigger x.now[e]} | e in w.now ensures x.now[e] == v.now[e] {
      WithoutMore(w.now[e], e == f, ps, p);
    }
    assert x.now == v.now;
    assert w.tags - ps - {p} == w.tags - (ps + {p});
  }

  lemma PartedAllMore(w: World, f: File, ps: set<Provider>, p: Provider)
    requires f in w.now && w.now[f].adapter.Adapter? && p in w.tags && w.tags[p] == f && p !in ps
    ensures var u := PartedAll(w, f, ps);
      && p in u.tags && u.tags[p] == f && u.now[f].adapter.Adapter?
      && Parted(u, p) == PartedAll(w, f, ps + {p})
  {
    hide Parted, Without;
    PartedTwice(w, f, ps, p);
    PartedMeans(PartedAll(w, f, ps), p);
  }

  lemma TagOf(w: World, f: File, p: Provider)
    requires Good(w) && f in w.now && w.now[f].adapter.Adapter? && p in w.now[f].adapter.extensions
    ensures p in w.tags && w.tags[p] == f
  {
    assert Sound(w, f) && p in Loaded(w.now[f].adapter);
  }

  lemma {:induction false} PartedAllGood(w: World, f: File, ps: set<Provider>)
    requires Good(w) && f in w.now && w.now[f].adapter.Adapter? && ps <= w.now[f].adapter.extensions
    ensures Good(PartedAll(w, f, ps))
    decreases ps
  {
    hide *;
    if ps == {} {
      PartedNone(w, f);
    } else {
      var p :| p in ps;
      TagOf(w, f, p);
      PartedAllGood(w, f, ps - {p});
      PartedAllMore(w, f, ps - {p}, p);
      PartedGood(PartedAll(w, f, ps - {p}), p);
      assert ps - {p} + {p} == ps;
    }
  }

  lemma PartedNone(w: World, f: File)
    requires f in w.now && w.now[f].adapter.Adapter?
    ensures PartedAll(w, f, {}) == w
  {
    var v, s := PartedAll(w, f, {}), w.now[f];
    assert s.running * {} == {} && s.running - {} == s.running && s.adapter.extensions - {} == s.adapter.extensions;
    assert v.now == w.now && v.tags == w.tags;
  }

  lemma ForgottenGood(w: World, f: File)
    requires Good(w)
    ensures Good(Forgotten(w, f))
  {
    KnownGood(w, f);
    var k, u := Known(w, f), Forgotten(w, f);
    ChangedSound(k, u);
    forall e {:trigger u.now[e]} | e in u.now && Idle(u.now[e]) ensures u.timer {
      assert Idle(k.now[e]);
    }
  }

  lemma ShutGood(w: World, f: File)
    requires Good(w)
    ensures Good(Shut(w, f))
  {
    ForgottenGood(w, f);
    var u := Forgotten(w, f);
    var has := HasItems(u.now[f].table);
    if u.now[f].adapter.Adapter? {
      PartedAllGood(u, f, u.now[f].adapter.extensions);
      ClosingGood(PartedAll(u, f, u.now[f].adapter.extensions), f, has);
    } else {
      ClosingGood(u, f, has);
    }
  }

  lemma ClosingGood(w: World, f: File, has: bool)
    requires Good(w) && f in w.now && Loaded(w.now[f].adapter) == {}
    ensures Good(Ended(w, f, has))
  {
    var v := Ended(w, f, has);
    forall e {:trigger v.now[e]} | e in v.now ensures Sound(v, e) {
      assert Sound(w, e);
    }
    forall q {:trigger v.tags[q]} | q in v.tags ensures v.tags[q] in v.now {
      assert w.tags[q] in w.now;
    }
    forall e {:trigger v.now[e]} | e in v.now && Idle(v.now[e]) ensures v.timer {
      assert Idle(w.now[e]);
    }
  }

  lemma ToldNone(w: World, p: Provider)
    ensures w == w.(now := Told(w.now, p, []))
  {
  }

  lemma CompletedStray(w: World, p: Provider, batch: seq<Diagnostic>)
    requires AllSound(w) && p in w.inFlight && p !in w.tags
    ensures Completed(w, p, batch) == w.(inFlight := w.inFlight - {p})
  {
  }

  lemma CompletedTagged(w: World, p: Provider, batch: seq<Diagnostic>)
    requires AllSound(w) && p in w.inFlight && p in w.tags
    ensures var f, v := w.tags[p], Reported(w, p, batch);
      && v.tags == w.tags && v.inFlight == w.inFlight
      && f in v.now && v.now[f].inDiagnose > 0 && v.now[f].adapter.Adapter? && !v.now[f].removed
      && Completed(w, p, batch) == Requeued(v.(now := v.now[f := Answered(v.now[f], p)],
          inFlight := w.inFlight - {p}), f)
  {
    hide Reported;
    LoadedBy(w, p);
    assert Sound(w, w.tags[p]);
    ReportedMeans(w, p, batch, w.tags[p], p);
  }

  lemma KnownIs(w: World, f: File, s: State)
    ensures Known(w, f) == w.(now := w.now[f := Before(w.now, f)]) && Known(w, f).now[f] == Before(w.now, f)
    ensures Known(w, f).now[f := s] == w.now[f := s]
  {
  }

  lemma ToldOneIs(w: World, p: Provider, d: Diagnostic)
    ensures ToldOne(w.now, p, d) == if d.file.None? then w.now
      else w.now[d.file.value := WithItem(Before(w.now, d.file.value), p, d)]
  {
  }

  lemma ChangedIs(w: World, f: File, contents: Option<string>, lang: Option<string>)
    ensures var s := Before(w.now, f);
      && Known(w, f).now[f] == s
      && var v := Known(w, f).(now := Known(w, f).now[f := s.(contents := contents, lang := lang)]);
      && Changed(w, f, contents, lang) == Queued(v, f)
      && (contents == s.contents && lang == s.lang ==> v == Known(w, f))
  {
    var s := Before(w.now, f);
    assert Known(w, f).now[f := s.(contents := contents, lang := lang)]
      == w.now[f := s.(contents := contents, lang := lang)];
  }

  lemma PreparedKnown(w: World, f: File, lang: Option<string>, id: nat)
    ensures Prepared(Known(w, f), f, lang, id) == Prepared(w, f, lang, id)
  {
    var u, v := Prepared(Known(w, f), f, lang, id), Prepared(w, f, lang, id);
    assert u.now == v.now;
  }

  lemma PreparedIn(w: World, f: File, lang: Option<string>, id: nat)
    requires f in w.now
    ensures Prepared(w, f, lang, id) == w.(now := w.now[f := Equipped(w.now[f], lang, id)],
                                           owners := if w.now[f].adapter.NoAdapter? then w.owners[id := f]
                                               else w.owners)
  {
  }

  lemma PreparedIs(w: World, f: File, lang: Option<string>, id: nat, ps: set<Provider>)
    ensures var s, u := Before(w.now, f), Prepared(w, f, lang, id);
      && f in u.now && u.now[f].table.Table? && u.now[f].adapter.Adapter? && u.tags == w.tags
      && u.inFlight == w.inFlight
      && (s.adapter.Adapter? ==> Opened(w, f, lang, id, ps) == Queued(u, f))
      && (s.adapter.NoAdapter? ==> u.now[f].adapter == Adapter(id, {}) && u.owners == w.owners[id := f]
                                   && Opened(w, f, lang, id, ps) == Queued(JoinedAll(u, f, ps), f))
  {
  }

  lemma ForgottenKnown(w: World, f: File)
    ensures Forgotten(w, f) == w.(now := w.now[f := Vacated(Before(w.now, f))]) && f in Forgotten(w, f).now
    ensures Forgotten(Known(w, f), f) == Forgotten(w, f)
  {
    assert Forgotten(Known(w, f), f).now == Forgotten(w, f).now;
  }

  lemma ShutIs(w: World, f: File)
    ensures var u := Forgotten(w, f);
      && f in u.now
      && (forall v: World {:trigger v.now[f]} :: f in v.now ==>
            Ended(v, f, HasItems(u.now[f].table)) == v.(now := v.now[f := Closing(v.now[f], HasItems(u.now[f].table))]))
      && (u.now[f].adapter.NoAdapter? ==> Shut(w, f) == Ended(u, f, HasItems(u.now[f].table)))
      && (u.now[f].adapter.Adapter? ==>
          Shut(w, f) == Ended(PartedAll(u, f, u.now[f].adapter.extensions), f, HasItems(u.now[f].table)))
  {
  }
}
