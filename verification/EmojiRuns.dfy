/** What holds in every interleaving of views, uploads, reloads and late answers (web/src/custom-emoji.ts). */
module EmojiRuns {
  import opened Strings
  import opened EmojiCatalog

  // ---------------------------------------------------------------- the invariant

  /** Every registered catalog exists, serves one vault, has a listener, and has not been torn down. */
  predicate RegistryHolds(s: State) {
    && (forall vault :: vault in s.catalogs ==>
          s.catalogs[vault] < |s.objects|
          && s.objects[s.catalogs[vault]].listeners != [] && !s.objects[s.catalogs[vault]].aborted)
    && (forall v, w :: v in s.catalogs && w in s.catalogs && s.catalogs[v] == s.catalogs[w] ==> v == w)
  }

  predicate Distinct(listeners: seq<nat>) {
    forall i, j :: 0 <= i < j < |listeners| ==> listeners[i] != listeners[j]
  }

  /** A catalog's listeners are handles that were given out for it, and it is registered while it has any. */
  predicate ListenersOf(s: State, k: nat, listeners: seq<nat>) {
    && Distinct(listeners)
    && forall l :: l in listeners ==>
         l < |s.handles| && s.handles[l].catalog == k
         && s.handles[l].vault in s.catalogs && s.catalogs[s.handles[l].vault] == k
  }

  predicate ListenersHold(s: State) {
    && (forall l :: 0 <= l < |s.handles| ==> s.handles[l].catalog < |s.objects|)
    && (forall k :: 0 <= k < |s.objects| ==> ListenersOf(s, k, s.objects[k].listeners))
  }

  /** The published entries lead every catalog. */
  predicate EntriesHold(s: State) {
    forall k :: 0 <= k < |s.objects| ==> Led(s.objects[k]) && DistinctNames(s.objects[k].published)
  }

  /** No request is newer than its catalog, and each is newer than the requests before it for the same catalog. */
  predicate RequestsHold(s: State) {
    && (forall k :: 0 <= k < |s.requests| ==>
          s.requests[k].catalog < |s.objects| && s.requests[k].generation <= s.objects[s.requests[k].catalog].generation)
    && (forall i, j :: 0 <= i < j < |s.requests| && s.requests[i].catalog == s.requests[j].catalog ==>
          s.requests[i].generation < s.requests[j].generation)
  }

  predicate Holds(s: State) {
    RegistryHolds(s) && ListenersHold(s) && EntriesHold(s) && RequestsHold(s)
  }

  lemma StartHolds()
    ensures Holds(START)
  {
  }

  lemma {:induction false} WithoutIs(listeners: seq<nat>, l: nat)
    ensures forall x :: x in Without(listeners, l) <==> x in listeners && x != l
    ensures Distinct(listeners) ==> Distinct(Without(listeners, l))
  {
    if listeners != [] {
      var first, more := listeners[0], listeners[1..];
      WithoutIs(more, l);
      assert listeners == [first] + more;
      if Distinct(listeners) {
        assert Distinct(more);
        assert first !in more;
      }
    }
  }

  // ---------------------------------------------------------------- every event keeps it

  /** Everything but the listener of a catalog that is just being made. */
  predicate HoldsBut(s: State, vault: string) {
    && (forall v :: v in s.catalogs ==> s.catalogs[v] < |s.objects| && !s.objects[s.catalogs[v]].aborted)
    && (forall v :: v in s.catalogs && v != vault ==> s.objects[s.catalogs[v]].listeners != [])
    && (forall v, w :: v in s.catalogs && w in s.catalogs && s.catalogs[v] == s.catalogs[w] ==> v == w)
    && vault in s.catalogs && ListenersHold(s) && EntriesHold(s) && RequestsHold(s)
  }

  lemma RequestedHolds(s: State, vault: string)
    requires Holds(s) && vault !in s.catalogs
    ensures RequestsHold(WithCatalog(s, vault)) && EntriesHold(WithCatalog(s, vault))
  {
  }

  lemma CatalogIsMade(s: State, vault: string)
    requires Holds(s)
    ensures HoldsBut(WithCatalog(s, vault), vault)
  {
    if vault !in s.catalogs {
      RequestedHolds(s, vault);
      var t := WithCatalog(s, vault);
      forall k | 0 <= k < |t.objects| ensures ListenersOf(t, k, t.objects[k].listeners) {
        if k < |s.objects| {
          assert ListenersOf(s, k, s.objects[k].listeners);
        }
      }
    }
  }

  /** The registry once a new handle listens to the catalog of `vault`. */
  function Listening(t: State, vault: string): State
    requires vault in t.catalogs && t.catalogs[vault] < |t.objects|
  {
    var k := t.catalogs[vault];
    t.(objects := t.objects[k := t.objects[k].(listeners := t.objects[k].listeners + [|t.handles|])],
       handles := t.handles + [Handle(vault, k)])
  }

  lemma AddedListener(listeners: seq<nat>, l: nat)
    requires Distinct(listeners) && forall x :: x in listeners ==> x < l
    ensures Distinct(listeners + [l])
  {
    assert forall i :: 0 <= i < |listeners| ==> listeners[i] in listeners;
  }

  lemma ListeningListeners(t: State, vault: string, k: nat)
    requires HoldsBut(t, vault) && k < |t.objects|
    ensures ListenersOf(Listening(t, vault), k, Listening(t, vault).objects[k].listeners)
  {
    assert ListenersOf(t, k, t.objects[k].listeners);
    if k == t.catalogs[vault] {
      AddedListener(t.objects[k].listeners, |t.handles|);
    }
  }

  lemma ListeningHolds(t: State, vault: string)
    requires HoldsBut(t, vault)
    ensures Holds(Listening(t, vault))
  {
    forall k | 0 <= k < |t.objects| ensures ListenersOf(Listening(t, vault), k, Listening(t, vault).objects[k].listeners) {
      ListeningListeners(t, vault, k);
    }
  }

  lemma ObserveHolds(s: State, vault: string)
    requires Holds(s)
    ensures Holds(ObserveStep(s, vault))
  {
    CatalogIsMade(s, vault);
    ListeningHolds(WithCatalog(s, vault), vault);
  }

  lemma TeardownHolds(s: State, l: nat)
    requires Holds(s)
    ensures Holds(TeardownStep(s, l))
  {
    if l < |s.handles| {
      var h := s.handles[l];
      var t := TeardownStep(s, l);
      WithoutIs(s.objects[h.catalog].listeners, l);
      forall k | 0 <= k < |t.objects| ensures ListenersOf(t, k, t.objects[k].listeners) {
        assert ListenersOf(s, k, s.objects[k].listeners);
        assert forall x :: x in t.objects[k].listeners ==> x in s.objects[k].listeners;
      }
      EmptiedIsUnregistered(s, l);
    }
  }

  /** A registered catalog that loses its last listener loses it to one of its own handles. */
  lemma EmptiedIsUnregistered(s: State, l: nat)
    requires Holds(s) && l < |s.handles|
    ensures forall v :: v in TeardownStep(s, l).catalogs ==> TeardownStep(s, l).objects[s.catalogs[v]].listeners != []
  {
    var h := s.handles[l];
    var c := s.objects[h.catalog];
    WithoutIs(c.listeners, l);
    assert ListenersOf(s, h.catalog, c.listeners);
    if c.listeners != [] && Without(c.listeners, l) == [] {
      assert c.listeners[0] in c.listeners && c.listeners[0] == l;
    }
  }

  /** New entries for one catalog leave everything else as it was. */
  lemma NotifiedHolds(s: State, k: nat, c: Catalog)
    requires Holds(s) && k < |s.objects|
    requires c.listeners == s.objects[k].listeners && c.aborted == s.objects[k].aborted
    requires c.generation >= s.objects[k].generation && Led(c) && DistinctNames(c.published)
    ensures Holds(Notified(s, k, c))
  {
    var t := Notified(s, k, c);
    forall j | 0 <= j < |t.objects| ensures ListenersOf(t, j, t.objects[j].listeners) {
      assert ListenersOf(s, j, s.objects[j].listeners);
    }
  }

  lemma PublishHolds(s: State, vault: string, entry: Emoji)
    requires Holds(s)
    ensures Holds(PublishStep(s, vault, entry))
  {
    if Registered(s, vault) {
      var k := s.catalogs[vault];
      var c := s.objects[k];
      var published := WithPublished(c.published, entry);
      var c' := c.(published := published, entries := Merge(c.entries, published));
      assert Led(c) && DistinctNames(c.published);
      PublishedStaysDistinct(c.published, entry);
      MergeIsLed(c.entries, c');
      NotifiedHolds(s, k, c');
    }
  }

  lemma RespondHolds(s: State, k: nat, answer: seq<Emoji>)
    requires Holds(s)
    ensures Holds(RespondStep(s, k, answer))
  {
    if k < |s.requests| && Current(s, s.requests[k]) {
      var c := s.objects[s.requests[k].catalog];
      var c' := c.(entries := Merge(answer, c.published));
      assert Led(c) && DistinctNames(c.published);
      MergeIsLed(answer, c');
      NotifiedHolds(s, s.requests[k].catalog, c');
    }
  }

  lemma ReloadHolds(s: State, vault: string)
    requires Holds(s)
    ensures Holds(ReloadStep(s, vault))
  {
    if Registered(s, vault) {
      var k := s.catalogs[vault];
      var t := ReloadStep(s, vault);
      forall j | 0 <= j < |t.objects| ensures ListenersOf(t, j, t.objects[j].listeners) {
        assert ListenersOf(s, j, s.objects[j].listeners);
      }
    }
  }

  lemma StepHolds(s: State, e: Event)
    requires Holds(s)
    ensures Holds(Step(s, e))
  {
    match e
    case Observe(vault) => ObserveHolds(s, vault);
    case Microtask(l) =>
    case Teardown(l) => TeardownHolds(s, l);
    case Publish(vault, entry) => PublishHolds(s, vault, entry);
    case Reload(vault) => ReloadHolds(s, vault);
    case Respond(k, answer) => RespondHolds(s, k, answer);
  }

  lemma {:induction false} RunKeeps(s: State, events: seq<Event>)
    requires Holds(s)
    ensures Holds(Run(s, events))
    decreases |events|
  {
    if events != [] {
      StepHolds(s, events[0]);
      RunKeeps(Step(s, events[0]), events[1..]);
    }
  }

  /**
   * In every interleaving, catalogs lead with what was published, every registered catalog has a listener and has
   * not been torn down, and no request is newer than its catalog.
   */
  lemma RunHolds(events: seq<Event>)
    ensures Holds(Run(START, events))
  {
    StartHolds();
    RunKeeps(START, events);
  }

  lemma {:induction false} RunConcat(s: State, a: seq<Event>, b: seq<Event>)
    ensures Run(s, a + b) == Run(Run(s, a), b)
    decreases |a|
  {
    if a == [] {
      assert a + b == b;
    } else {
      TailOfConcat(a, b);
      RunConcat(Step(s, a[0]), a[1..], b);
    }
  }

  // ---------------------------------------------------------------- late answers

  /** Catalog objects are never forgotten, revived or set back. */
  predicate Later(s: State, t: State) {
    && |s.objects| <= |t.objects| && s.requests <= t.requests && s.handles <= t.handles
    && (forall k :: 0 <= k < |s.objects| ==>
          s.objects[k].generation <= t.objects[k].generation && (s.objects[k].aborted ==> t.objects[k].aborted))
    && (forall v :: v in t.catalogs && t.catalogs[v] < |s.objects| ==> v in s.catalogs && s.catalogs[v] == t.catalogs[v])
  }

  lemma ObserveIsLater(s: State, vault: string)
    requires Holds(s)
    ensures Later(s, ObserveStep(s, vault))
  {
  }

  lemma NotifyIsLater(s: State, e: Event)
    requires Holds(s) && (e.Publish? || e.Respond?)
    ensures Later(s, Step(s, e))
  {
  }

  lemma TeardownIsLater(s: State, l: nat)
    requires Holds(s)
    ensures Later(s, TeardownStep(s, l))
  {
  }

  lemma StepIsLater(s: State, e: Event)
    requires Holds(s)
    ensures Later(s, Step(s, e))
  {
    match e
    case Observe(vault) => ObserveIsLater(s, vault);
    case Teardown(l) => TeardownIsLater(s, l);
    case Publish(_, _) => NotifyIsLater(s, e);
    case Respond(_, _) => NotifyIsLater(s, e);
    case _ =>
  }

  lemma LaterStillStale(s: State, t: State, r: Request)
    requires Later(s, t) && r.catalog < |s.objects| && r.generation <= s.objects[r.catalog].generation
    requires !Current(s, r)
    ensures !Current(t, r)
  {
  }

  /** A response that is stale once is stale for good. */
  lemma {:induction false} StaleStaysStale(s: State, events: seq<Event>, q: nat)
    requires Holds(s) && q < |s.requests| && !Current(s, s.requests[q])
    ensures var t := Run(s, events);
      q < |t.requests| && t.requests[q] == s.requests[q] && !Current(t, s.requests[q])
    decreases |events|
  {
    if events != [] {
      var next := Step(s, events[0]);
      StepHolds(s, events[0]);
      StepIsLater(s, events[0]);
      LaterStillStale(s, next, s.requests[q]);
      StaleStaysStale(next, events[1..], q);
    }
  }

  /** So, in every interleaving, an answer to a superseded request or for a torn-down catalog changes nothing. */
  lemma LateAnswerChangesNothing(s: State, events: seq<Event>, q: nat, answer: seq<Emoji>)
    requires Holds(s) && q < |s.requests| && !Current(s, s.requests[q])
    ensures Step(Run(s, events), Respond(q, answer)) == Run(s, events)
  {
    StaleStaysStale(s, events, q);
  }

  /** A reload supersedes every earlier request of the vault's catalog. */
  lemma ReloadSupersedes(s: State, vault: string, q: nat)
    requires Holds(s) && vault in s.catalogs && q < |s.requests| && s.requests[q].catalog == s.catalogs[vault]
    ensures !Current(Step(s, Reload(vault)), s.requests[q])
  {
  }

  /** Tearing down the last listener makes every request of its catalog stale. */
  lemma TeardownSupersedes(s: State, l: nat, q: nat)
    requires Holds(s) && l < |s.handles| && q < |s.requests| && s.requests[q].catalog == s.handles[l].catalog
    requires forall x :: x in s.objects[s.handles[l].catalog].listeners ==> x == l
    ensures !Current(Step(s, Teardown(l)), s.requests[q])
  {
    var h := s.handles[l];
    var c := s.objects[h.catalog];
    WithoutIs(c.listeners, l);
    assert ListenersOf(s, h.catalog, c.listeners);
    NothingIsLeft(c.listeners, l);
  }

  lemma {:induction false} NothingIsLeft(listeners: seq<nat>, l: nat)
    requires forall x :: x in listeners ==> x == l
    ensures Without(listeners, l) == []
  {
    if listeners != [] {
      assert listeners[0] in listeners && forall x :: x in listeners[1..] ==> x in listeners;
      NothingIsLeft(listeners[1..], l);
    }
  }

  /** While a request is the newest of its catalog, the catalog shows its answer under what was published. */
  predicate Shows(s: State, q: nat, answer: seq<Emoji>)
    requires q < |s.requests|
  {
    var r := s.requests[q];
    Current(s, r) ==> s.objects[r.catalog].entries == Merge(answer, s.objects[r.catalog].published)
  }

  lemma PublishShows(s: State, vault: string, entry: Emoji, q: nat, answer: seq<Emoji>)
    requires Holds(s) && q < |s.requests| && Shows(s, q, answer) && Current(s, s.requests[q])
    ensures Shows(PublishStep(s, vault, entry), q, answer)
  {
    PublishIsMerge(answer, s.objects[s.requests[q].catalog].published, entry);
  }

  /** Two requests for one catalog are never both the newest. */
  lemma OthersAreStale(s: State, q: nat, x: nat)
    requires Holds(s) && q < |s.requests| && x < |s.requests| && x != q
    requires Current(s, s.requests[q]) && s.requests[x].catalog == s.requests[q].catalog
    ensures !Current(s, s.requests[x])
  {
    if x < q {
      assert s.requests[x].generation < s.requests[q].generation;
    }
  }

  lemma RespondShows(s: State, x: nat, other: seq<Emoji>, q: nat, answer: seq<Emoji>)
    requires Holds(s) && q < |s.requests| && Shows(s, q, answer) && Current(s, s.requests[q]) && x != q
    ensures Shows(RespondStep(s, x, other), q, answer)
  {
    if x < |s.requests| && s.requests[x].catalog == s.requests[q].catalog {
      OthersAreStale(s, q, x);
    }
  }

  lemma QuietStepShows(s: State, e: Event, q: nat, answer: seq<Emoji>)
    requires Holds(s) && q < |s.requests| && Shows(s, q, answer) && Current(s, s.requests[q])
    requires !e.Publish? && !e.Respond? && q < |Step(s, e).requests| && Step(s, e).requests[q] == s.requests[q]
    ensures Shows(Step(s, e), q, answer)
  {
    match e
    case Observe(vault) =>
    case Microtask(l) =>
    case Teardown(l) =>
    case Reload(vault) =>
      if vault in s.catalogs && s.catalogs[vault] == s.requests[q].catalog {
        ReloadSupersedes(s, vault, q);
      }
  }

  lemma StepShows(s: State, e: Event, q: nat, answer: seq<Emoji>)
    requires Holds(s) && q < |s.requests| && Shows(s, q, answer)
    requires !(e.Respond? && e.request == q)
    ensures q < |Step(s, e).requests| && Step(s, e).requests[q] == s.requests[q] && Shows(Step(s, e), q, answer)
  {
    StepIsLater(s, e);
    if !Current(s, s.requests[q]) {
      LaterStillStale(s, Step(s, e), s.requests[q]);
    } else if e.Publish? {
      PublishShows(s, e.vault, e.entry, q, answer);
    } else if e.Respond? {
      RespondShows(s, e.request, e.answer, q, answer);
    } else {
      QuietStepShows(s, e, q, answer);
    }
  }

  lemma {:induction false} RunShows(s: State, events: seq<Event>, q: nat, answer: seq<Emoji>)
    requires Holds(s) && q < |s.requests| && Shows(s, q, answer)
    requires forall e :: e in events ==> !(e.Respond? && e.request == q)
    ensures q < |Run(s, events).requests| && Run(s, events).requests[q] == s.requests[q]
    ensures Shows(Run(s, events), q, answer)
    decreases |events|
  {
    if events != [] {
      assert events[0] in events && forall e :: e in events[1..] ==> e in events;
      StepHolds(s, events[0]);
      StepShows(s, events[0], q, answer);
      RunShows(Step(s, events[0]), events[1..], q, answer);
    }
  }

  /**
   * The newest request decides: once it is answered, then through any later uploads, views and stale answers, and
   * until a newer request is made or the catalog is torn down, the entries are its answer under the published ones.
   */
  lemma NewestAnswerWins(s: State, q: nat, answer: seq<Emoji>, events: seq<Event>)
    requires Holds(s) && q < |s.requests| && Current(s, s.requests[q])
    requires forall e :: e in events ==> !(e.Respond? && e.request == q)
    ensures var t := Run(Step(s, Respond(q, answer)), events);
      Current(t, s.requests[q]) ==>
        t.objects[s.requests[q].catalog].entries == Merge(answer, t.objects[s.requests[q].catalog].published)
  {
    StepHolds(s, Respond(q, answer));
    RunShows(Step(s, Respond(q, answer)), events, q, answer);
  }

  // ---------------------------------------------------------------- torn-down listeners

  predicate Gone(s: State, l: nat) {
    l < |s.handles| && forall k :: 0 <= k < |s.objects| ==> l !in s.objects[k].listeners
  }

  lemma TeardownMakesGone(s: State, l: nat)
    requires Holds(s) && l < |s.handles|
    ensures Gone(Step(s, Teardown(l)), l)
  {
    WithoutIs(s.objects[s.handles[l].catalog].listeners, l);
    forall k | 0 <= k < |s.objects| && k != s.handles[l].catalog ensures l !in s.objects[k].listeners {
      assert ListenersOf(s, k, s.objects[k].listeners);
    }
  }

  lemma {:induction false} CallsAreTo(listeners: seq<nat>, entries: seq<Emoji>)
    ensures forall c :: c in Calls(listeners, entries) ==> c.listener in listeners
  {
    if listeners != [] {
      CallsAreTo(listeners[1..], entries);
      assert listeners == [listeners[0]] + listeners[1..];
    }
  }

  /** The calls that an event adds. */
  predicate AddsNoCall(s: State, t: State, l: nat) {
    s.calls <= t.calls && forall i :: |s.calls| <= i < |t.calls| ==> t.calls[i].listener != l
  }

  lemma AnswerKeepsGone(s: State, q: nat, answer: seq<Emoji>, l: nat)
    requires Holds(s) && Gone(s, l)
    ensures Gone(RespondStep(s, q, answer), l) && AddsNoCall(s, RespondStep(s, q, answer), l)
  {
    if q < |s.requests| && Current(s, s.requests[q]) {
      var c := s.objects[s.requests[q].catalog];
      CallsAreTo(c.listeners, Merge(answer, c.published));
    }
  }

  lemma TeardownKeepsGone(s: State, x: nat, l: nat)
    requires Holds(s) && Gone(s, l)
    ensures Gone(TeardownStep(s, x), l) && AddsNoCall(s, TeardownStep(s, x), l)
  {
    if x < |s.handles| {
      WithoutIs(s.objects[s.handles[x].catalog].listeners, x);
    }
  }

  lemma StepKeepsGone(s: State, e: Event, l: nat)
    requires Holds(s) && Gone(s, l)
    ensures Gone(Step(s, e), l) && AddsNoCall(s, Step(s, e), l)
  {
    match e
    case Publish(vault, _) => NotifiedKeepsGone(s, e, vault, l);
    case Respond(q, answer) => AnswerKeepsGone(s, q, answer, l);
    case Teardown(x) => TeardownKeepsGone(s, x, l);
    case _ =>
  }

  lemma NotifiedKeepsGone(s: State, e: Event, vault: string, l: nat)
    requires Holds(s) && Gone(s, l) && e.Publish? && e.vault == vault
    ensures Gone(Step(s, e), l) && AddsNoCall(s, Step(s, e), l)
  {
    if vault in s.catalogs {
      var c := s.objects[s.catalogs[vault]];
      CallsAreTo(c.listeners, Merge(c.entries, WithPublished(c.published, e.entry)));
    }
  }

  lemma {:induction false} GoneIsNotCalled(s: State, events: seq<Event>, l: nat)
    requires Holds(s) && Gone(s, l)
    ensures Gone(Run(s, events), l) && AddsNoCall(s, Run(s, events), l)
    decreases |events|
  {
    if events != [] {
      var next := Step(s, events[0]);
      StepHolds(s, events[0]);
      StepKeepsGone(s, events[0], l);
      GoneIsNotCalled(next, events[1..], l);
    }
  }

  /** In every interleaving, a listener is not called again behind the event that tears its view down. */
  lemma NoCallAfterTeardown(before: seq<Event>, l: nat, later: seq<Event>)
    requires l < |Run(START, before).handles|
    ensures AddsNoCall(Run(START, before), Run(START, before + [Teardown(l)] + later), l)
  {
    var s := Run(START, before);
    RunHolds(before);
    RunConcat(START, before, [Teardown(l)]);
    RunConcat(START, before + [Teardown(l)], later);
    assert [Teardown(l)][1..] == [] && Run(s, [Teardown(l)]) == Run(Step(s, Teardown(l)), []);
    TeardownMakesGone(s, l);
    StepHolds(s, Teardown(l));
    GoneIsNotCalled(Step(s, Teardown(l)), later, l);
  }
}
