/** What the views of a vault show of its custom emoji (web/src/custom-emoji.ts). */
module EmojiShown {
  import opened Strings
  import opened EmojiCatalog
  import opened EmojiRuns

  // ---------------------------------------------------------------- taking entries out of a list

  /** The positions `at` are those of the entries that meet `taken`, in ascending order. */
  ghost predicate Positions(at: seq<nat>, entries: seq<Emoji>, taken: Emoji -> bool) {
    && (forall i, j :: 0 <= i < j < |at| ==> at[i] < at[j])
    && (forall i :: 0 <= i < |at| ==> at[i] < |entries| && taken(entries[at[i]]))
    && (forall k: nat :: k < |entries| && taken(entries[k]) ==> k in at)
  }

  ghost predicate TakenAt(some: seq<Emoji>, entries: seq<Emoji>, at: seq<nat>, taken: Emoji -> bool) {
    Positions(at, entries, taken) && |at| == |some| && forall i :: 0 <= i < |at| ==> some[i] == entries[at[i]]
  }

  /** `some` is what is left of `entries` when all that do not meet `taken` go: same order, same repetitions. */
  ghost predicate TakenFrom(some: seq<Emoji>, entries: seq<Emoji>, taken: Emoji -> bool) {
    exists at: seq<nat> :: TakenAt(some, entries, at, taken)
  }

  lemma NothingTaken(taken: Emoji -> bool)
    ensures TakenFrom([], [], taken)
  {
    assert TakenAt([], [], [], taken);
  }

  lemma PositionsSkip(at: seq<nat>, entries: seq<Emoji>, e: Emoji, taken: Emoji -> bool)
    requires Positions(at, entries, taken) && !taken(e)
    ensures Positions(at, entries + [e], taken)
  {
  }

  lemma PositionsTake(at: seq<nat>, entries: seq<Emoji>, e: Emoji, taken: Emoji -> bool)
    requires Positions(at, entries, taken) && taken(e)
    ensures Positions(at + [|entries|], entries + [e], taken)
  {
    var next, all := at + [|entries|], entries + [e];
    assert next[|at|] == |entries|;
    assert forall k :: k in at ==> k in next;
    assert forall k: nat :: k < |entries| ==> all[k] == entries[k];
  }

  lemma TakenSnoc(some: seq<Emoji>, entries: seq<Emoji>, e: Emoji, taken: Emoji -> bool)
    requires TakenFrom(some, entries, taken)
    ensures TakenFrom(if taken(e) then some + [e] else some, entries + [e], taken)
  {
    var at: seq<nat> :| TakenAt(some, entries, at, taken);
    if taken(e) {
      PositionsTake(at, entries, e, taken);
      assert TakenAt(some + [e], entries + [e], at + [|entries|], taken);
    } else {
      PositionsSkip(at, entries, e, taken);
      assert TakenAt(some, entries + [e], at, taken);
    }
  }

  function Other(names: seq<Emoji>): Emoji -> bool {
    (e: Emoji) => forall p :: p in names ==> p.shortcode != e.shortcode
  }

  lemma NotNamed(names: seq<Emoji>, e: Emoji)
    ensures Other(names)(e) <==> !Named(names, e.shortcode)
  {
    if Named(names, e.shortcode) {
      var i :| 0 <= i < |names| && names[i].shortcode == e.shortcode;
      assert names[i] in names;
    }
  }

  lemma {:induction false} UnpublishedIsTaken(entries: seq<Emoji>, names: seq<Emoji>)
    ensures TakenFrom(Unpublished(entries, names), entries, Other(names))
    decreases |entries|
  {
    if entries == [] {
      NothingTaken(Other(names));
    } else {
      var front, e := Init(entries), Last(entries);
      InitLast(entries);
      UnpublishedIsTaken(front, names);
      UnpublishedConcat(front, [e], names);
      UnpublishedFirst(e, [], names);
      assert [e] + [] == [e] && Kept(e, names) + [] == Kept(e, names);
      NotNamed(names, e);
      TakenSnoc(Unpublished(front, names), front, e, Other(names));
      assert Unpublished(front, names) + [] == Unpublished(front, names);
    }
  }

  // ---------------------------------------------------------------- answers

  /** What a catalog shows of an answer under what was published. */
  ghost predicate ShowsAnswer(c: Catalog, answer: seq<Emoji>) {
    && (forall e :: e in c.entries <==>
          e in c.published || (e in answer && forall p :: p in c.published ==> p.shortcode != e.shortcode))
    && |c.published| <= |c.entries| && c.entries[..|c.published|] == c.published
    && TakenFrom(c.entries[|c.published|..], answer, Other(c.published))
  }

  lemma MergeShows(c: Catalog, answer: seq<Emoji>)
    requires c.entries == Merge(answer, c.published)
    ensures ShowsAnswer(c, answer)
  {
    UnpublishedIs(answer, c.published);
    UnpublishedIsTaken(answer, c.published);
    assert c.entries[|c.published|..] == Unpublished(answer, c.published);
    forall e: Emoji ensures Named(c.published, e.shortcode) <==> !forall p :: p in c.published ==> p.shortcode != e.shortcode {
      NotNamed(c.published, e);
    }
  }

  /**
   * Once the newest request of a catalog is answered, and until a newer one is made or the catalog is torn down, it
   * shows what was published, and then of the answer what has no published shortcode, in the answer's order.
   */
  lemma AnswerIsShown(s: State, q: nat, answer: seq<Emoji>, events: seq<Event>)
    requires Holds(s) && q < |s.requests| && Current(s, s.requests[q])
    requires forall e :: e in events ==> !(e.Respond? && e.request == q)
    ensures var t := Run(Step(s, Respond(q, answer)), events);
      Current(t, s.requests[q]) ==> ShowsAnswer(t.objects[s.requests[q].catalog], answer)
  {
    var t := Run(Step(s, Respond(q, answer)), events);
    NewestAnswerWins(s, q, answer, events);
    if Current(t, s.requests[q]) {
      MergeShows(t.objects[s.requests[q].catalog], answer);
    }
  }

  lemma {:induction false} NoneOfNone(entries: seq<Emoji>)
    ensures Unpublished(entries, []) == entries
  {
    if entries != [] {
      NoneOfNone(entries[1..]);
      assert entries == [entries[0]] + entries[1..];
    }
  }

  lemma FirstRequest(vault: string)
    ensures Step(START, Observe(vault))
         == State(map[vault := 0], [Catalog([], [], 1, [0], false)], [Request(vault, 0, 1)], [Handle(vault, 0)], [])
  {
    var t := WithCatalog(START, vault);
    assert t.objects == [Catalog([], [], 1, [], false)] && t.requests == [Request(vault, 0, 1)];
    assert [] + [0] == [0] && [] + [Handle(vault, 0)] == [Handle(vault, 0)];
    assert Step(START, Observe(vault)).objects == [Catalog([], [], 1, [0], false)];
  }

  lemma TwoSteps(s: State, a: Event, b: Event)
    ensures Run(s, [a, b]) == Step(Step(s, a), b)
  {
    var t := Step(s, a);
    assert [a, b][1..] == [b] && [b][1..] == [];
    assert Run(s, [a, b]) == Run(t, [b]);
    assert Run(t, [b]) == Run(Step(t, b), []);
  }

  /** The first view of a vault makes one request, and its answer is shown as it is. */
  lemma FirstAnswerIsShown(vault: string, answer: seq<Emoji>)
    ensures var t := Run(START, [Observe(vault), Respond(0, answer)]);
      && t.catalogs == map[vault := 0] && |t.objects| == 1 && |t.requests| == 1
      && t.objects[0].entries == answer && t.calls == [Call(0, answer)]
  {
    TwoSteps(START, Observe(vault), Respond(0, answer));
    FirstRequest(vault);
    NoneOfNone(answer);
    assert [0][1..] == [] && [] + answer == answer;
    assert Calls([0], answer) == [Call(0, answer)];
  }

  // ---------------------------------------------------------------- uploads and reloads

  lemma {:induction false} TellsEveryone(listeners: seq<nat>, entries: seq<Emoji>)
    ensures forall l :: l in listeners <==> Call(l, entries) in Calls(listeners, entries)
  {
    if listeners != [] {
      TellsEveryone(listeners[1..], entries);
      assert listeners == [listeners[0]] + listeners[1..];
    }
  }

  /** What a step tells the listeners of a catalog: all of it, to all of them, and nothing to others. */
  ghost predicate Tells(s: State, t: State, k: nat)
    requires k < |s.objects| && k < |t.objects|
  {
    && s.calls <= t.calls
    && forall l, shown :: Call(l, shown) in t.calls[|s.calls|..] <==> l in s.objects[k].listeners && shown == t.objects[k].entries
  }

  lemma NotifiedTells(s: State, k: nat, c: Catalog)
    requires k < |s.objects| && c.listeners == s.objects[k].listeners
    ensures Tells(s, Notified(s, k, c), k)
  {
    var t := Notified(s, k, c);
    TellsEveryone(c.listeners, c.entries);
    CallsShow(c.listeners, c.entries);
    assert t.calls[|s.calls|..] == Calls(c.listeners, c.entries);
  }

  lemma {:induction false} CallsShow(listeners: seq<nat>, entries: seq<Emoji>)
    ensures forall c :: c in Calls(listeners, entries) ==> c.entries == entries
  {
    if listeners != [] {
      CallsShow(listeners[1..], entries);
    }
  }

  /** Of a catalog that leads with what was published, republishing an entry only moves that entry to the front. */
  lemma PublishedEntries(c: Catalog, entry: Emoji)
    requires Led(c)
    ensures Merge(c.entries, WithPublished(c.published, entry)) == [entry] + Unpublished(c.entries, [entry])
  {
    var n := |c.published|;
    var tail := c.entries[n..];
    var next := WithPublished(c.published, entry);
    assert c.entries == c.published + tail;
    forall e: Emoji ensures Named(next, e.shortcode) <==> Named(c.published, e.shortcode) || entry.shortcode == e.shortcode {
      WithPublishedNames(c.published, entry, e.shortcode);
    }
    forall e | e in c.published ensures Named(next, e.shortcode) {
      var i :| 0 <= i < n && c.published[i] == e;
      assert Named(c.published, e.shortcode);
    }
    NoneUnpublished(c.published, next);
    UnpublishedConcat(c.published, tail, next);
    UnpublishedConcat(c.published, tail, [entry]);
    forall e | e in tail ensures Named(next, e.shortcode) <==> Named([entry], e.shortcode) {
      assert [entry][0] == entry;
      var i :| 0 <= i < |tail| && tail[i] == e;
      assert !Named(c.published, c.entries[n + i].shortcode);
    }
    SameNames(tail, next, [entry]);
    assert [] + Unpublished(tail, next) == Unpublished(tail, next);
    Associate([entry], Unpublished(c.published, [entry]), Unpublished(tail, [entry]));
  }

  lemma {:induction false} SameNames(entries: seq<Emoji>, a: seq<Emoji>, b: seq<Emoji>)
    requires forall e :: e in entries ==> (Named(a, e.shortcode) <==> Named(b, e.shortcode))
    ensures Unpublished(entries, a) == Unpublished(entries, b)
  {
    if entries != [] {
      assert entries[0] in entries && forall x :: x in entries[1..] ==> x in entries;
      SameNames(entries[1..], a, b);
    }
  }

  lemma PublishedFirst(c: Catalog, entry: Emoji, shown: seq<Emoji>)
    requires Led(c) && shown == Merge(c.entries, WithPublished(c.published, entry))
    ensures shown != [] && shown[0] == entry && TakenFrom(shown[1..], c.entries, Other([entry]))
  {
    PublishedEntries(c, entry);
    UnpublishedIsTaken(c.entries, [entry]);
    assert shown[1..] == Unpublished(c.entries, [entry]);
  }

  lemma PublishIs(s: State, vault: string, entry: Emoji)
    requires Holds(s) && vault in s.catalogs
    ensures s.catalogs[vault] < |s.objects|
    ensures var c := s.objects[s.catalogs[vault]];
      var published := WithPublished(c.published, entry);
      Step(s, Publish(vault, entry))
      == Notified(s, s.catalogs[vault], c.(published := published, entries := Merge(c.entries, published)))
  {
  }

  /**
   * An upload is shown first, in place of an entry of its shortcode; everything else that was shown still is, in its
   * order; and every view of the vault is told.
   */
  lemma UploadIsShown(s: State, vault: string, entry: Emoji)
    requires Holds(s) && vault in s.catalogs
    ensures var t, k := Step(s, Publish(vault, entry)), s.catalogs[vault];
      && k < |s.objects| == |t.objects| && t.objects[k].entries != [] && t.objects[k].entries[0] == entry
      && TakenFrom(t.objects[k].entries[1..], s.objects[k].entries, Other([entry]))
      && Tells(s, t, k)
  {
    var k := s.catalogs[vault];
    var c := s.objects[k];
    var published := WithPublished(c.published, entry);
    var c' := c.(published := published, entries := Merge(c.entries, published));
    assert Led(c);
    PublishedFirst(c, entry, c'.entries);
    NotifiedTells(s, k, c');
    PublishIs(s, vault, entry);
  }

  /** A reload forgets what was published: its answer is shown as it is, and every view of the vault is told. */
  lemma ReloadShowsTheAnswer(s: State, vault: string, answer: seq<Emoji>)
    requires Holds(s) && vault in s.catalogs
    ensures var r := Step(s, Reload(vault));
      var t, k := Step(r, Respond(|s.requests|, answer)), s.catalogs[vault];
      && k < |s.objects| == |r.objects| == |t.objects| && |r.requests| == |s.requests| + 1
      && t.objects[k].entries == answer && Tells(r, t, k) && r.objects[k].listeners == s.objects[k].listeners
  {
    var r, k := Step(s, Reload(vault)), s.catalogs[vault];
    ReloadHolds(s, vault);
    NoneOfNone(answer);
    assert [] + answer == answer;
    NotifiedTells(r, k, r.objects[k].(entries := Merge(answer, [])));
  }

  /** A further view of a vault shares the catalog and its request; it is told what is shown when its turn comes. */
  lemma FurtherViewShares(s: State, vault: string)
    requires Holds(s) && vault in s.catalogs
    ensures var t, k, l := Step(s, Observe(vault)), s.catalogs[vault], |s.handles|;
      && t.requests == s.requests && t.catalogs == s.catalogs && |t.objects| == |s.objects|
      && t.objects[k] == s.objects[k].(listeners := s.objects[k].listeners + [l])
      && Step(t, Microtask(l)).calls == s.calls + [Call(l, s.objects[k].entries)]
  {
    var k := s.catalogs[vault];
    var t := Step(s, Observe(vault));
    assert t.objects[k].listeners[|s.objects[k].listeners|] == |s.handles|;
  }

  /** One of several views that is torn down leaves the catalog and its other listeners as they are. */
  lemma OtherViewsRemain(s: State, l: nat, x: nat)
    requires Holds(s) && l < |s.handles| && x != l && x in s.objects[s.handles[l].catalog].listeners
    ensures var t, k := Step(s, Teardown(l)), s.handles[l].catalog;
      && t.catalogs == s.catalogs && t.requests == s.requests && t.calls == s.calls
      && t.objects[k].entries == s.objects[k].entries && !(l in t.objects[k].listeners)
      && forall y :: y != l ==> (y in t.objects[k].listeners <==> y in s.objects[k].listeners)
  {
    WithoutIs(s.objects[s.handles[l].catalog].listeners, l);
    assert x in Without(s.objects[s.handles[l].catalog].listeners, l);
  }
}
