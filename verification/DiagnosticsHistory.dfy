/**
 * What the manager shows and sends after any run of events, told from the events alone: the diagnostics of a file, and
 * the contents and language that providers are asked about.
 */
module DiagnosticsHistory {
  import opened DiagnosticTables
  import opened DiagnosticsProtocol
  import opened DiagnosticsEffects
  import opened DiagnosticsRuns

  // ---------------------------------------------------------------- runs, event by event

  lemma {:induction false} LegalParts(w: World, es: seq<Event>, n: nat)
    requires Good(w) && Legal(w, es) && n <= |es|
    ensures Legal(w, es[..n]) && Good(Play(w, es[..n])) && Legal(Play(w, es[..n]), es[n..])
    ensures Play(w, es) == Play(Play(w, es[..n]), es[n..])
    decreases n
  {
    hide Good, Enabled, Next;
    if n == 0 {
      assert es[..0] == [] && es[0..] == es;
    } else {
      NextGood(w, es[0]);
      LegalParts(Next(w, es[0]), es[1..], n - 1);
      assert es[..n][0] == es[0] && es[..n][1..] == es[1..][..n - 1] && es[n..] == es[1..][n - 1..];
    }
  }

  /** The last event of a run. */
  lemma LastEvent(es: seq<Event>)
    requires Good(START) && Legal(START, es) && es != []
    ensures
      var n := |es| - 1;
      && Legal(START, es[..n]) && Good(Play(START, es[..n])) && Enabled(Play(START, es[..n]), es[n])
      && Play(START, es) == Next(Play(START, es[..n]), es[n])
  {
    var n := |es| - 1;
    LegalParts(START, es, n);
    hide Good, Enabled, Next;
    var w := Play(START, es[..n]);
    var last := es[n..];
    assert last == [es[n]] && last[0] == es[n] && last[1..] == [];
    NextGood(w, es[n]);
    assert Play(Next(w, last[0]), last[1..]) == Next(w, last[0]);
  }

  // ---------------------------------------------------------------- contents and language

  /** The contents of a file that was last changed to since it was opened, or else none. */
  function Given(es: seq<Event>, f: File): string {
    if es == [] then ""
    else
      var n := |es| - 1;
      match es[n]
      case Change(g, contents, _) => if g == f then Shown(contents) else Given(es[..n], f)
      case Close(g) => if g == f then "" else Given(es[..n], f)
      case _ => Given(es[..n], f)
  }

  /** The language that a file was last said to have since it was opened. */
  function Spoken(es: seq<Event>, f: File): Option<string> {
    if es == [] then None
    else
      var n := |es| - 1;
      match es[n]
      case Change(g, _, lang) => if g == f then lang else Spoken(es[..n], f)
      case Speak(g, lang) => if g == f then lang else Spoken(es[..n], f)
      case Open(g, lang, _, _) => if g == f then lang else Spoken(es[..n], f)
      case Close(g) => if g == f then None else Spoken(es[..n], f)
      case _ => Spoken(es[..n], f)
  }

  /** The contents and the language that are kept of a file are the last ones told. */
  lemma {:induction false} ToldLast(es: seq<Event>, f: File)
    requires Good(START) && Legal(START, es)
    ensures
      var s := Before(Play(START, es).now, f);
      Shown(s.contents) == Given(es, f) && s.lang == Spoken(es, f)
    decreases |es|
  {
    hide Good, Legal, Enabled;
    if es != [] {
      var n := |es| - 1;
      LastEvent(es);
      ToldLast(es[..n], f);
      ToldStep(Play(START, es[..n]), es[n], f);
    }
  }

  lemma ToldStep(w: World, e: Event, f: File)
    requires Good(w) && Enabled(w, e)
    ensures
      var s, t := Before(w.now, f), Before(Next(w, e).now, f);
      && Shown(t.contents) == (if e.Change? && e.file == f then Shown(e.contents)
                               else if e.Close? && e.file == f then "" else Shown(s.contents))
      && t.lang == (if (e.Change? || e.Speak? || e.Open?) && e.file == f then e.lang
                    else if e.Close? && e.file == f then None else s.lang)
  {
    hide Opened, Shut, Changed, Joined, Parted, Fired, Completed, Queued, Sound, Timely, Kept, Owned;
    match e
    case Open(g, lang, id, ps) =>
      OpenGroup(w, g, lang, id, ps);
      OpenKeeps(w, g, lang, id, ps, f, 0);
    case Close(g) =>
      CloseGroup(w, g);
      CloseKeeps(w, g, f, 0);
    case Change(g, contents, lang) => ChangeStores(w, g, contents, lang, f, 0);
    case Speak(g, lang) => ChangeStores(w, g, Before(w.now, g).contents, lang, f, 0);
    case Ask(g) => ChangeStores(w, g, Before(w.now, g).contents, Before(w.now, g).lang, f, 0);
    case Invalidate(p) => InvalidateAsks(w, p, f, 0);
    case Load(id, p) => LoadJoins(w, id, p, f, 0);
    case Unload(p) =>
      UnloadTakes(w, p, f, 0);
      UnloadGroup(w, p);
    case Fire =>
      FireSends(w, 0);
      if f in w.now {
        FireGroup(w, f);
      }
    case Answer(p, batch) =>
      if p in w.tags {
        AnswerReplaces(w, p, batch, f, 0);
      } else {
        AnswerDropped(w, p, batch);
      }
  }

  // ---------------------------------------------------------------- requests

  /** The request was sent when the timer fired as event `i`, with what its file was last told to be then. */
  predicate SentAt(es: seq<Event>, i: nat, r: Request) {
    i < |es| && es[i].Fire? && r.contents == Given(es[..i], r.file) && r.lang == Spoken(es[..i], r.file)
  }

  /** Every request that is out was sent by the timer, with the contents and the language told last before. */
  lemma {:induction false} RequestsSent(es: seq<Event>, p: Provider) returns (i: nat)
    requires Good(START) && Legal(START, es) && p in Play(START, es).inFlight
    ensures SentAt(es, i, Play(START, es).inFlight[p])
    decreases |es|
  {
    hide Good, Legal, Enabled;
    if es == [] {
      assert false;
    } else {
      var n := |es| - 1;
      LastEvent(es);
      var w := Play(START, es[..n]);
      RequestStep(w, es[n], p);
      var r := Play(START, es).inFlight[p];
      if p in w.inFlight && w.inFlight[p] == r {
        i := RequestsSent(es[..n], p);
        assert es[..n][i] == es[i] && es[..n][..i] == es[..i];
      } else {
        i := n;
        ToldLast(es[..n], r.file);
      }
    }
  }

  lemma RequestStep(w: World, e: Event, p: Provider)
    requires Good(w) && Enabled(w, e) && p in Next(w, e).inFlight
    ensures
      var r := Next(w, e).inFlight[p];
      || (p in w.inFlight && w.inFlight[p] == r)
      || (e.Fire? && r.contents == Shown(Before(w.now, r.file).contents) && r.lang == Before(w.now, r.file).lang)
  {
    hide Opened, Shut, Changed, Joined, Parted, Fired, Completed, Queued, Sound, Timely, Kept, Owned;
    match e
    case Open(g, lang, id, ps) => OpenGroup(w, g, lang, id, ps);
    case Close(g) => CloseGroup(w, g);
    case Change(g, contents, lang) => ChangeStores(w, g, contents, lang, 0, 0);
    case Speak(g, lang) => ChangeStores(w, g, Before(w.now, g).contents, lang, 0, 0);
    case Ask(g) => ChangeStores(w, g, Before(w.now, g).contents, Before(w.now, g).lang, 0, 0);
    case Invalidate(q) => InvalidateAsks(w, q, 0, 0);
    case Load(id, q) => LoadJoins(w, id, q, 0, 0);
    case Unload(q) => UnloadTakes(w, q, 0, 0);
    case Fire => FireSends(w, p);
    case Answer(q, batch) =>
      if q in w.tags {
        AnswerReplaces(w, q, batch, 0, 0);
      } else {
        AnswerDropped(w, q, batch);
      }
  }

  // ---------------------------------------------------------------- diagnostics

  /** The last answer of a provider since it came. */
  function Latest(es: seq<Event>, q: Provider): seq<Diagnostic> {
    if es == [] then []
    else
      var n := |es| - 1;
      match es[n]
      case Answer(p, batch) => if p == q then batch else Latest(es[..n], q)
      case Open(_, _, _, ps) => if q in ps then [] else Latest(es[..n], q)
      case Load(_, p) => if p == q then [] else Latest(es[..n], q)
      case _ => Latest(es[..n], q)
  }

  /**
   * After any run, what a file keeps of a provider is what the provider's last answer says about it, in order, as long
   * as the provider is loaded; of a provider that is gone nothing is kept.
   */
  lemma {:induction false} KeptLast(es: seq<Event>, f: File, q: Provider)
    requires Good(START) && Legal(START, es)
    ensures
      var w := Play(START, es);
      Kept(w.now, f, q) == if q in w.tags then About(Latest(es, q), f) else []
    decreases |es|
  {
    hide Good, Legal, Enabled, Next;
    if es != [] {
      var n := |es| - 1;
      LastEvent(es);
      KeptLast(es[..n], f, q);
      KeptStep(Play(START, es[..n]), es[n], f, q);
    }
  }

  lemma KeptStep(w: World, e: Event, f: File, q: Provider)
    requires Good(w) && Enabled(w, e) && (q !in w.tags ==> Kept(w.now, f, q) == [])
    ensures
      var v := Next(w, e);
      && (q !in v.tags ==> Kept(v.now, f, q) == [])
      && (q in v.tags ==>
            Kept(v.now, f, q) ==
            if e.Answer? && e.provider == q then About(e.batch, f)
            else if (e.Open? && q in e.providers) || (e.Load? && e.provider == q) then []
            else Kept(w.now, f, q))
      && (q in v.tags && !(e.Open? && q in e.providers) && !(e.Load? && e.provider == q) ==> q in w.tags)
  {
    hide Opened, Shut, Changed, Joined, Parted, Fired, Completed, Queued, Sound, Timely, Kept, Owned, About;
    match e
    case Open(g, lang, id, ps) =>
      OpenKeeps(w, g, lang, id, ps, f, q);
      OpenTags(w, g, lang, id, ps, q);
    case Close(g) =>
      CloseKeeps(w, g, f, q);
      CloseTags(w, g, q);
    case Change(g, contents, lang) => ChangeStores(w, g, contents, lang, f, q);
    case Speak(g, lang) => ChangeStores(w, g, Before(w.now, g).contents, lang, f, q);
    case Ask(g) => ChangeStores(w, g, Before(w.now, g).contents, Before(w.now, g).lang, f, q);
    case Invalidate(p) => InvalidateAsks(w, p, f, q);
    case Load(id, p) => LoadJoins(w, id, p, f, q);
    case Unload(p) => UnloadTakes(w, p, f, q);
    case Fire =>
      FireSends(w, 0);
      FireKeeps(w, f, q);
    case Answer(p, batch) =>
      if p in w.tags {
        AnswerReplaces(w, p, batch, f, q);
      } else {
        AnswerDropped(w, p, batch);
      }
  }

  lemma FireKeeps(w: World, f: File, q: Provider)
    requires Good(w)
    ensures Kept(Fired(w).now, f, q) == Kept(w.now, f, q)
  {
    FireSends(w, q);
    if f in w.now {
      FireGroup(w, f);
    }
  }
}
