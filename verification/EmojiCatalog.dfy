/** Custom emoji catalogs shared by the views of a vault, with requests that answer in any order (web/src/custom-emoji.ts). */
module EmojiCatalog {
  import opened Strings

  datatype Emoji = Emoji(shortcode: string, pack: string, aliases: seq<string>, imageUrl: string)

  /** A catalog object; its listeners are in the order in which they were added. */
  datatype Catalog = Catalog(entries: seq<Emoji>, published: seq<Emoji>, generation: nat, listeners: seq<nat>,
                             aborted: bool)

  /** A request in flight: it remembers the catalog object it was made for, and that catalog's generation. */
  datatype Request = Request(vault: string, catalog: nat, generation: nat)

  /** What an observer was given: the vault and the catalog object it listens to. */
  datatype Handle = Handle(vault: string, catalog: nat)

  /** A listener that was called, and with what. */
  datatype Call = Call(listener: nat, entries: seq<Emoji>)

  /** The registry, every catalog object ever made, every request and handle ever given out, and all calls so far. */
  datatype State = State(catalogs: map<string, nat>, objects: seq<Catalog>, requests: seq<Request>, handles: seq<Handle>,
                         calls: seq<Call>)

  datatype Event =
    | Observe(vault: string)
    | Microtask(listener: nat)
    | Teardown(listener: nat)
    | Publish(vault: string, entry: Emoji)
    | Reload(vault: string)
    | Respond(request: nat, answer: seq<Emoji>)

  // ---------------------------------------------------------------- merging

  predicate Named(entries: seq<Emoji>, shortcode: string) {
    exists i :: 0 <= i < |entries| && entries[i].shortcode == shortcode
  }

  /** The entries whose shortcode is not among the published ones. */
  function Unpublished(entries: seq<Emoji>, published: seq<Emoji>): seq<Emoji> {
    if entries == [] then []
    else (if Named(published, entries[0].shortcode) then [] else [entries[0]]) + Unpublished(entries[1..], published)
  }

  /** `merge`. */
  function Merge(entries: seq<Emoji>, published: seq<Emoji>): seq<Emoji> {
    published + Unpublished(entries, published)
  }

  /** What publishing does to the published list: the entry comes first, and replaces one of its name. */
  function WithPublished(published: seq<Emoji>, entry: Emoji): seq<Emoji> {
    [entry] + Unpublished(published, [entry])
  }

  lemma {:induction false} UnpublishedIs(entries: seq<Emoji>, published: seq<Emoji>)
    ensures forall e :: e in Unpublished(entries, published) <==> e in entries && !Named(published, e.shortcode)
  {
    if entries != [] {
      UnpublishedIs(entries[1..], published);
      assert entries == [entries[0]] + entries[1..];
    }
  }

  function Kept(e: Emoji, published: seq<Emoji>): seq<Emoji> {
    if Named(published, e.shortcode) then [] else [e]
  }

  lemma UnpublishedFirst(e: Emoji, more: seq<Emoji>, published: seq<Emoji>)
    ensures Unpublished([e] + more, published) == Kept(e, published) + Unpublished(more, published)
  {
    assert ([e] + more)[1..] == more;
  }

  lemma {:induction false} UnpublishedConcat(a: seq<Emoji>, b: seq<Emoji>, published: seq<Emoji>)
    ensures Unpublished(a + b, published) == Unpublished(a, published) + Unpublished(b, published)
  {
    if a == [] {
      assert a + b == b;
    } else {
      var e, more := a[0], a[1..];
      UnpublishedConcat(more, b, published);
      assert a == [e] + more && a + b == [e] + (more + b);
      UnpublishedFirst(e, more, published);
      UnpublishedFirst(e, more + b, published);
      Associate(Kept(e, published), Unpublished(more, published), Unpublished(b, published));
    }
  }

  lemma {:induction false} UnpublishedTwice(entries: seq<Emoji>, first: seq<Emoji>, second: seq<Emoji>)
    requires forall e :: e in entries && Named(first, e.shortcode) ==> Named(second, e.shortcode)
    ensures Unpublished(Unpublished(entries, first), second) == Unpublished(entries, second)
  {
    if entries != [] {
      var e, more := entries[0], entries[1..];
      assert e in entries && forall x :: x in more ==> x in entries;
      UnpublishedTwice(more, first, second);
      if Named(first, e.shortcode) {
        assert [] + Unpublished(more, first) == Unpublished(more, first);
      } else {
        UnpublishedFirst(e, Unpublished(more, first), second);
      }
    }
  }

  lemma {:induction false} NoneUnpublished(entries: seq<Emoji>, published: seq<Emoji>)
    requires forall e :: e in entries ==> Named(published, e.shortcode)
    ensures Unpublished(entries, published) == []
  {
    if entries != [] {
      assert entries[0] in entries && forall x :: x in entries[1..] ==> x in entries;
      NoneUnpublished(entries[1..], published);
    }
  }

  lemma WithPublishedNames(published: seq<Emoji>, entry: Emoji, shortcode: string)
    ensures Named(WithPublished(published, entry), shortcode) <==> Named(published, shortcode) || entry.shortcode == shortcode
  {
    var next := WithPublished(published, entry);
    UnpublishedIs(published, [entry]);
    assert next[0] == entry;
    assert [entry][0] == entry;
    if Named(published, shortcode) && entry.shortcode != shortcode {
      var i :| 0 <= i < |published| && published[i].shortcode == shortcode;
      assert published[i] in published && !Named([entry], shortcode);
      assert published[i] in next;
    }
    if Named(next, shortcode) && entry.shortcode != shortcode {
      var i :| 0 <= i < |next| && next[i].shortcode == shortcode;
      assert next[i] in Unpublished(published, [entry]);
      assert next[i] in published;
    }
  }

  /** Publishing onto a merged catalog is merging the same answer with the longer published list. */
  lemma PublishIsMerge(answer: seq<Emoji>, published: seq<Emoji>, entry: Emoji)
    ensures Merge(Merge(answer, published), WithPublished(published, entry)) == Merge(answer, WithPublished(published, entry))
  {
    var next := WithPublished(published, entry);
    forall e: Emoji | Named(published, e.shortcode) ensures Named(next, e.shortcode) {
      WithPublishedNames(published, entry, e.shortcode);
    }
    forall e | e in published ensures Named(next, e.shortcode) {
      var i :| 0 <= i < |published| && published[i] == e;
      assert Named(published, e.shortcode);
    }
    NoneUnpublished(published, next);
    UnpublishedConcat(published, Unpublished(answer, published), next);
    UnpublishedTwice(answer, published, next);
  }

  /** The published entries come first, and no other entry has the shortcode of one of them. */
  predicate Led(c: Catalog) {
    && |c.published| <= |c.entries| && c.entries[..|c.published|] == c.published
    && forall i :: |c.published| <= i < |c.entries| ==> !Named(c.published, c.entries[i].shortcode)
  }

  predicate DistinctNames(entries: seq<Emoji>) {
    forall i, j :: 0 <= i < j < |entries| ==> entries[i].shortcode != entries[j].shortcode
  }

  lemma MergeIsLed(answer: seq<Emoji>, c: Catalog)
    requires c.entries == Merge(answer, c.published)
    ensures Led(c)
  {
    UnpublishedIs(answer, c.published);
    forall i | |c.published| <= i < |c.entries| ensures !Named(c.published, c.entries[i].shortcode) {
      assert c.entries[i] in Unpublished(answer, c.published);
    }
  }

  lemma {:induction false} UnpublishedKeepsDistinct(entries: seq<Emoji>, published: seq<Emoji>)
    requires DistinctNames(entries)
    ensures DistinctNames(Unpublished(entries, published))
  {
    if entries != [] {
      var e, more := entries[0], entries[1..];
      UnpublishedKeepsDistinct(more, published);
      UnpublishedIs(more, published);
      forall x | x in Unpublished(more, published) ensures x.shortcode != e.shortcode {
        var k :| 0 <= k < |more| && more[k] == x;
        assert entries[k + 1] == x;
      }
    }
  }

  lemma PublishedStaysDistinct(published: seq<Emoji>, entry: Emoji)
    requires DistinctNames(published)
    ensures DistinctNames(WithPublished(published, entry))
  {
    UnpublishedKeepsDistinct(published, [entry]);
    UnpublishedIs(published, [entry]);
    forall x | x in Unpublished(published, [entry]) ensures x.shortcode != entry.shortcode {
      assert [entry][0] == entry;
    }
  }

  // ---------------------------------------------------------------- steps

  function Without(listeners: seq<nat>, l: nat): seq<nat> {
    if listeners == [] then [] else (if listeners[0] == l then [] else [listeners[0]]) + Without(listeners[1..], l)
  }

  /** `notify`: every listener is called with the catalog's entries. */
  function Calls(listeners: seq<nat>, entries: seq<Emoji>): seq<Call> {
    if listeners == [] then [] else [Call(listeners[0], entries)] + Calls(listeners[1..], entries)
  }

  predicate Registered(s: State, vault: string) {
    vault in s.catalogs && s.catalogs[vault] < |s.objects|
  }

  /** The first, synchronous part of `load`. */
  function Requested(s: State, vault: string, k: nat): State
    requires k < |s.objects|
  {
    var generation := s.objects[k].generation + 1;
    s.(objects := s.objects[k := s.objects[k].(generation := generation)],
       requests := s.requests + [Request(vault, k, generation)])
  }

  const FRESH := Catalog([], [], 0, [], false)

  /** The catalog of a vault, made and requested if there is none. */
  function WithCatalog(s: State, vault: string): State {
    if Registered(s, vault) then s
    else Requested(s.(catalogs := s.catalogs[vault := |s.objects|], objects := s.objects + [FRESH]), vault, |s.objects|)
  }

  function ObserveStep(s: State, vault: string): State {
    var t := WithCatalog(s, vault);
    var k := t.catalogs[vault];
    t.(objects := t.objects[k := t.objects[k].(listeners := t.objects[k].listeners + [|t.handles|])],
       handles := t.handles + [Handle(vault, k)])
  }

  function MicrotaskStep(s: State, l: nat): State {
    if l < |s.handles| && s.handles[l].catalog < |s.objects| && l in s.objects[s.handles[l].catalog].listeners
    then s.(calls := s.calls + [Call(l, s.objects[s.handles[l].catalog].entries)])
    else s
  }

  function TeardownStep(s: State, l: nat): State {
    if l >= |s.handles| || s.handles[l].catalog >= |s.objects| then s
    else
      var h := s.handles[l];
      var c := s.objects[h.catalog];
      var left := Without(c.listeners, l);
      if left == [] && h.vault in s.catalogs && s.catalogs[h.vault] == h.catalog then
        s.(objects := s.objects[h.catalog := c.(listeners := left, aborted := true)], catalogs := s.catalogs - {h.vault})
      else s.(objects := s.objects[h.catalog := c.(listeners := left)])
  }

  /** A catalog whose entries changed, and the calls that tells. */
  function Notified(s: State, k: nat, c: Catalog): State
    requires k < |s.objects|
  {
    s.(objects := s.objects[k := c], calls := s.calls + Calls(c.listeners, c.entries))
  }

  function PublishStep(s: State, vault: string, entry: Emoji): State {
    if !Registered(s, vault) then s
    else
      var k := s.catalogs[vault];
      var c := s.objects[k];
      var published := WithPublished(c.published, entry);
      Notified(s, k, c.(published := published, entries := Merge(c.entries, published)))
  }

  function ReloadStep(s: State, vault: string): State {
    if !Registered(s, vault) then s
    else
      var k := s.catalogs[vault];
      Requested(s.(objects := s.objects[k := s.objects[k].(published := [])]), vault, k)
  }

  /** Whether a response still counts: its catalog is registered, not torn down, and has made no newer request. */
  predicate Current(s: State, r: Request) {
    && r.catalog < |s.objects| && r.vault in s.catalogs && s.catalogs[r.vault] == r.catalog
    && !s.objects[r.catalog].aborted && s.objects[r.catalog].generation == r.generation
  }

  function RespondStep(s: State, k: nat, answer: seq<Emoji>): State {
    if k >= |s.requests| || !Current(s, s.requests[k]) then s
    else
      var r := s.requests[k];
      var c := s.objects[r.catalog];
      Notified(s, r.catalog, c.(entries := Merge(answer, c.published)))
  }

  function Step(s: State, e: Event): State {
    match e
    case Observe(vault) => ObserveStep(s, vault)
    case Microtask(l) => MicrotaskStep(s, l)
    case Teardown(l) => TeardownStep(s, l)
    case Publish(vault, entry) => PublishStep(s, vault, entry)
    case Reload(vault) => ReloadStep(s, vault)
    case Respond(k, answer) => RespondStep(s, k, answer)
  }

  function Run(s: State, events: seq<Event>): State
    decreases |events|
  {
    if events == [] then s else Run(Step(s, events[0]), events[1..])
  }

  const START := State(map[], [], [], [], [])

  // ---------------------------------------------------------------- the registry as the page runs it

  class Registry {
    var catalogs: map<string, nat>
    var objects: seq<Catalog>
    var requests: seq<Request>
    var handles: seq<Handle>
    var calls: seq<Call>

    function Now(): State
      reads this
    {
      State(catalogs, objects, requests, handles, calls)
    }

    constructor ()
      ensures Now() == START
    {
      catalogs, objects, requests, handles, calls := map[], [], [], [], [];
    }

    method ObserveCustomEmoji(vault: string) returns (listener: nat)
      modifies this
      ensures Now() == Step(old(Now()), Observe(vault)) && listener == |old(handles)|
    {
      if !(vault in catalogs && catalogs[vault] < |objects|) {
        catalogs := catalogs[vault := |objects|];
        objects := objects + [FRESH];
        Load(vault, |objects| - 1);
      }
      var current := catalogs[vault];
      listener := |handles|;
      objects := objects[current := objects[current].(listeners := objects[current].listeners + [listener])];
      handles := handles + [Handle(vault, current)];
    }

    method RunMicrotask(listener: nat)
      modifies this
      ensures Now() == Step(old(Now()), Microtask(listener))
    {
      if listener < |handles| && handles[listener].catalog < |objects| {
        var catalog := objects[handles[listener].catalog];
        if listener in catalog.listeners {
          calls := calls + [Call(listener, catalog.entries)];
        }
      }
    }

    /** The function that `observeCustomEmoji` returns. */
    method Stop(listener: nat)
      modifies this
      ensures Now() == Step(old(Now()), Teardown(listener))
    {
      if listener < |handles| && handles[listener].catalog < |objects| {
        var h := handles[listener];
        var left := Without(objects[h.catalog].listeners, listener);
        objects := objects[h.catalog := objects[h.catalog].(listeners := left)];
        if |left| == 0 && h.vault in catalogs && catalogs[h.vault] == h.catalog {
          objects := objects[h.catalog := objects[h.catalog].(aborted := true)];
          catalogs := catalogs - {h.vault};
        }
      }
    }

    method PublishCustomEmoji(vault: string, entry: Emoji)
      modifies this
      ensures Now() == Step(old(Now()), Publish(vault, entry))
    {
      if vault in catalogs && catalogs[vault] < |objects| {
        var k := catalogs[vault];
        var published := [entry] + Unpublished(objects[k].published, [entry]);
        objects := objects[k := objects[k].(published := published)];
        objects := objects[k := objects[k].(entries := Merge(objects[k].entries, published))];
        Notify(k);
      }
    }

    method ReloadCustomEmoji(vault: string)
      modifies this
      ensures Now() == Step(old(Now()), Reload(vault))
    {
      if vault in catalogs && catalogs[vault] < |objects| {
        var k := catalogs[vault];
        objects := objects[k := objects[k].(published := [])];
        Load(vault, k);
      }
    }

    /** `load` up to its first `await`. */
    method Load(vault: string, k: nat)
      requires k < |objects|
      modifies this
      ensures Now() == Requested(old(Now()), vault, k)
    {
      objects := objects[k := objects[k].(generation := objects[k].generation + 1)];
      requests := requests + [Request(vault, k, objects[k].generation)];
    }

    /** `load` behind its `await`s: the answer to a request, or nothing where the request failed. */
    method Loaded(request: nat, answer: seq<Emoji>)
      modifies this
      ensures Now() == Step(old(Now()), Respond(request, answer))
    {
      if request < |requests| {
        var r := requests[request];
        if !(r.vault in catalogs && catalogs[r.vault] == r.catalog) || r.catalog >= |objects|
           || objects[r.catalog].aborted || objects[r.catalog].generation != r.generation {
          return;
        }
        objects := objects[r.catalog := objects[r.catalog].(entries := Merge(answer, objects[r.catalog].published))];
        Notify(r.catalog);
      }
    }

    method Notify(k: nat)
      requires k < |objects|
      modifies this`calls
      ensures calls == old(calls) + Calls(objects[k].listeners, objects[k].entries)
    {
      var listeners, entries := objects[k].listeners, objects[k].entries;
      for i := 0 to |listeners|
        invariant calls + Calls(listeners[i..], entries) == old(calls) + Calls(listeners, entries)
      {
        assert listeners[i..][1..] == listeners[i + 1..];
        Associate(calls, [Call(listeners[i], entries)], Calls(listeners[i + 1..], entries));
        calls := calls + [Call(listeners[i], entries)];
      }
      assert calls + [] == calls;
    }
  }
}
