/** The files a first visit downloads, found with a worklist over the bundler's manifest (web/perf/bundle.ts). */
module EagerChunks {
  import opened Strings

  datatype Chunk = Chunk(file: string, isEntry: bool, imports: seq<string>, assets: seq<string>)

  /** The manifest's entries in their order, each with its key. */
  type Manifest = seq<(string, Chunk)>

  // ---------------------------------------------------------------- the manifest

  /** `manifest[key]`. */
  function ByKey(m: Manifest, key: string): (r: Option<Chunk>)
    ensures r.Some? ==> exists i :: 0 <= i < |m| && m[i] == (key, r.value)
  {
    if m == [] then None
    else if Last(m).0 == key then Some(Last(m).1)
    else
      var r := ByKey(Init(m), key);
      assert r.Some? ==> forall i :: 0 <= i < |Init(m)| ==> Init(m)[i] == m[i];
      r
  }

  /** `byFile.get(file)`: of several chunks with one file, the last. */
  function ByFile(m: Manifest, file: string): (r: Option<Chunk>)
    ensures r.Some? ==> r.value.file == file && exists i :: 0 <= i < |m| && m[i].1 == r.value
    ensures r.None? ==> forall i :: 0 <= i < |m| ==> m[i].1.file != file
  {
    if m == [] then None
    else if Last(m).1.file == file then Some(Last(m).1)
    else
      var r := ByFile(Init(m), file);
      assert forall i :: 0 <= i < |Init(m)| ==> Init(m)[i] == m[i];
      r
  }

  function EntryFiles(m: Manifest): seq<string> {
    if m == [] then [] else (if m[0].1.isEntry then [m[0].1.file] else []) + EntryFiles(m[1..])
  }

  /** The files of the chunks that a chunk imports statically; an unknown key is skipped. */
  function ImportedFiles(m: Manifest, imports: seq<string>): seq<string> {
    if imports == [] then []
    else
      (match ByKey(m, imports[0]) case None => [] case Some(c) => [c.file]) + ImportedFiles(m, imports[1..])
  }

  function ToSet(s: seq<string>): set<string> {
    set x | x in s
  }

  /** Every file the manifest names. */
  function AllFiles(m: Manifest): set<string> {
    if m == [] then {} else AllFiles(Init(m)) + {Last(m).1.file} + ToSet(Last(m).1.assets)
  }

  lemma {:induction false} ChunksAreNamed(m: Manifest, i: nat)
    requires i < |m|
    ensures m[i].1.file in AllFiles(m) && ToSet(m[i].1.assets) <= AllFiles(m)
  {
    if i < |m| - 1 {
      ChunksAreNamed(Init(m), i);
    }
  }

  lemma {:induction false} EntriesAre(m: Manifest)
    ensures forall f :: f in EntryFiles(m) <==> exists i :: 0 <= i < |m| && m[i].1.isEntry && m[i].1.file == f
  {
    if m != [] {
      EntriesAre(m[1..]);
      assert forall i :: 0 < i < |m| ==> m[i] == m[1..][i - 1];
      forall f ensures f in EntryFiles(m) <==> exists i :: 0 <= i < |m| && m[i].1.isEntry && m[i].1.file == f {
        if f in EntryFiles(m[1..]) {
          var k :| 0 <= k < |m| - 1 && m[1..][k].1.isEntry && m[1..][k].1.file == f;
          assert m[k + 1].1.isEntry;
        }
      }
    }
  }

  // ---------------------------------------------------------------- the set that is meant

  /** What belongs to a first visit with `files`: the entries, and with a chunk its assets and its static imports. */
  predicate Closed(m: Manifest, files: set<string>) {
    && ToSet(EntryFiles(m)) <= files
    && forall i :: 0 <= i < |m| && m[i].1.file in files ==> Needs(m, m[i].1) <= files
  }

  /** What a chunk brings along: its assets and the files of its static imports. */
  function Needs(m: Manifest, c: Chunk): set<string> {
    ToSet(c.assets) + ToSet(ImportedFiles(m, c.imports))
  }

  /** The chunk that a file stands for. */
  predicate Stands(m: Manifest, i: nat)
    requires i < |m|
  {
    ByFile(m, m[i].1.file) == Some(m[i].1)
  }

  /**
   * However the file of the chunk comes to be marked by a chunk within `reach`, what it needs is needed there too:
   * the chunk is marked by itself alone, or shares its needs with all that list it as an asset.
   */
  predicate Safe(m: Manifest, reach: set<string>, c: Chunk) {
    forall i: nat | i < |m| :: m[i].1.file in reach && Stands(m, i) && Covers(m[i].1, c.file) ==>
      Needs(m, c) <= {m[i].1.file} + Needs(m, m[i].1)
  }

  /** What the safe ones of the first `k` chunks need, if their files are in `files`. */
  function SafeNeeds(m: Manifest, reach: set<string>, files: set<string>, k: nat): set<string>
    requires k <= |m|
  {
    if k == 0 then {}
    else
      SafeNeeds(m, reach, files, k - 1)
      + if m[k - 1].1.file in files && Safe(m, reach, m[k - 1].1) then Needs(m, m[k - 1].1) else {}
  }

  /** What is found in `n` steps from the entries through safe chunks. */
  function FoundIn(m: Manifest, reach: set<string>, n: nat): set<string> {
    if n == 0 then ToSet(EntryFiles(m))
    else FoundIn(m, reach, n - 1) + SafeNeeds(m, reach, FoundIn(m, reach, n - 1), |m|)
  }

  /** Every chunk within reach is safe, or what it needs is found through safe ones. */
  predicate NothingHidden(m: Manifest, reach: set<string>) {
    forall j: nat | j < |m| :: m[j].1.file in reach ==>
      Safe(m, reach, m[j].1) || Needs(m, m[j].1) <= FoundIn(m, reach, |m|)
  }

  /** Reaching the chunk marks the file as found. */
  predicate Covers(c: Chunk, file: string) {
    file == c.file || file in c.assets
  }

  /** No two chunks share a file. */
  predicate DistinctFiles(m: Manifest) {
    forall i, j :: 0 <= i < j < |m| ==> m[i].1.file != m[j].1.file
  }

  /** A chunk that is listed as an asset has no assets of its own and imports nothing. */
  predicate AssetsAreLeaves(m: Manifest) {
    forall i, j :: 0 <= i < |m| && 0 <= j < |m| && m[j].1.file in m[i].1.assets ==> Needs(m, m[j].1) == {}
  }

  /** The two properties every bundle has: a file for each chunk, and assets that lead nowhere. */
  lemma LeafAssetsHideNothing(m: Manifest, reach: set<string>)
    requires DistinctFiles(m) && AssetsAreLeaves(m)
    ensures NothingHidden(m, reach)
  {
    forall j: nat | j < |m| ensures Safe(m, reach, m[j].1) {
      forall i: nat | i < |m| && Covers(m[i].1, m[j].1.file)
        ensures Needs(m, m[j].1) <= {m[i].1.file} + Needs(m, m[i].1)
      {
        if m[j].1.file == m[i].1.file {
          assert i == j;
        }
      }
    }
  }

  // ---------------------------------------------------------------- the worklist

  /** Everything the loop still has to look at is named by the manifest. */
  predicate Queued(m: Manifest, queue: seq<string>, eager: set<string>) {
    eager <= AllFiles(m) && forall f :: f in queue ==> f in AllFiles(m)
  }

  lemma {:induction false} ImportsAreNamed(m: Manifest, imports: seq<string>)
    ensures forall f :: f in ImportedFiles(m, imports) ==> f in AllFiles(m)
  {
    if imports != [] {
      ImportsAreNamed(m, imports[1..]);
      var found := ByKey(m, imports[0]);
      if found.Some? {
        var i :| 0 <= i < |m| && m[i] == (imports[0], found.value);
        ChunksAreNamed(m, i);
      }
    }
  }

  lemma FileStepQueued(m: Manifest, queue: seq<string>, eager: set<string>, c: Chunk)
    requires Queued(m, queue, eager) && ByFile(m, c.file) == Some(c)
    ensures Queued(m, queue + ImportedFiles(m, c.imports), eager + {c.file} + ToSet(c.assets))
  {
    ImportsAreNamed(m, c.imports);
    var i :| 0 <= i < |m| && m[i].1 == c;
    ChunksAreNamed(m, i);
  }

  lemma EntriesAreNamed(m: Manifest)
    ensures Queued(m, EntryFiles(m), {})
  {
    EntriesAre(m);
    forall f | f in EntryFiles(m) ensures f in AllFiles(m) {
      var i :| 0 <= i < |m| && m[i].1.isEntry && m[i].1.file == f;
      ChunksAreNamed(m, i);
    }
  }

  lemma FewerLeft(all: set<string>, eager: set<string>, more: set<string>, f: string)
    requires eager <= all && f in all && f !in eager && eager + {f} <= more
    ensures |all - more| < |all - eager|
  {
    assert all - more <= all - eager - {f};
    SmallerSet(all - more, all - eager - {f});
    assert |all - eager - {f}| == |all - eager| - 1;
  }

  lemma {:induction false} SmallerSet(a: set<string>, b: set<string>)
    requires a <= b
    ensures |a| <= |b|
    decreases |a|
  {
    if a != {} {
      var x :| x in a;
      SmallerSet(a - {x}, b - {x});
    }
  }

  /** The loop from some point on: it ends, since every round shortens the queue or finds a new file. */
  function Worklist(m: Manifest, queue: seq<string>, eager: set<string>): set<string>
    requires Queued(m, queue, eager)
    decreases |AllFiles(m) - eager|, |queue|
  {
    if queue == [] then eager
    else
      var file, rest := Last(queue), Init(queue);
      if file in eager then Worklist(m, rest, eager)
      else match ByFile(m, file)
        case None =>
          FewerLeft(AllFiles(m), eager, eager + {file}, file);
          Worklist(m, rest, eager + {file})
        case Some(c) =>
          FileStepQueued(m, rest, eager, c);
          FewerLeft(AllFiles(m), eager, eager + {file} + ToSet(c.assets), file);
          Worklist(m, rest + ImportedFiles(m, c.imports), eager + {file} + ToSet(c.assets))
  }

  function Eager(m: Manifest): set<string> {
    EntriesAreNamed(m);
    Worklist(m, EntryFiles(m), {})
  }

  /** `eagerChunks` as the script runs it. */
  method RunEagerChunks(m: Manifest) returns (eager: set<string>)
    ensures eager == Eager(m)
  {
    eager := {};
    var queue := EntryFiles(m);
    EntriesAreNamed(m);
    while queue != []
      invariant Queued(m, queue, eager)
      invariant Worklist(m, queue, eager) == Eager(m)
      decreases |AllFiles(m) - eager|, |queue|
    {
      var file := Last(queue);
      queue := Init(queue);
      if file in eager {
        continue;
      }
      var chunk := ByFile(m, file);
      if chunk.None? {
        FewerLeft(AllFiles(m), eager, eager + {file}, file);
        eager := eager + {file};
        continue;
      }
      FileStepQueued(m, queue, eager, chunk.value);
      FewerLeft(AllFiles(m), eager, eager + {file} + ToSet(chunk.value.assets), file);
      eager := eager + {file} + ToSet(chunk.value.assets);
      queue := queue + ImportedFiles(m, chunk.value.imports);
    }
  }

  // ---------------------------------------------------------------- it finds exactly the least closed set

  /** Nothing is found that need not be there. */
  lemma {:induction false} FindsNoMore(m: Manifest, queue: seq<string>, eager: set<string>, files: set<string>)
    requires Queued(m, queue, eager) && Closed(m, files) && eager <= files && ToSet(queue) <= files
    ensures Worklist(m, queue, eager) <= files
    decreases |AllFiles(m) - eager|, |queue|
  {
    if queue != [] {
      var file, rest := Last(queue), Init(queue);
      assert file in ToSet(queue) && ToSet(rest) <= ToSet(queue);
      if file in eager {
        FindsNoMore(m, rest, eager, files);
      } else if ByFile(m, file).None? {
        FewerLeft(AllFiles(m), eager, eager + {file}, file);
        FindsNoMore(m, rest, eager + {file}, files);
      } else {
        var c := ByFile(m, file).value;
        FileStepQueued(m, rest, eager, c);
        FewerLeft(AllFiles(m), eager, eager + {file} + ToSet(c.assets), file);
        assert ToSet(rest + ImportedFiles(m, c.imports)) == ToSet(rest) + ToSet(ImportedFiles(m, c.imports));
        FindsNoMore(m, rest + ImportedFiles(m, c.imports), eager + {file} + ToSet(c.assets), files);
      }
    }
  }

  /** What has been found is closed at safe chunks, up to what is still queued. */
  predicate Pending(m: Manifest, reach: set<string>, queue: seq<string>, eager: set<string>) {
    && ToSet(EntryFiles(m)) <= eager + ToSet(queue) <= reach
    && forall i: nat | i < |m| :: m[i].1.file in eager && Safe(m, reach, m[i].1) ==> Needs(m, m[i].1) <= eager + ToSet(queue)
  }

  lemma SkipPending(m: Manifest, reach: set<string>, queue: seq<string>, eager: set<string>)
    requires queue != [] && Pending(m, reach, queue, eager) && Last(queue) in eager
    ensures Pending(m, reach, Init(queue), eager)
  {
    assert queue == Init(queue) + [Last(queue)];
    assert ToSet(queue) == ToSet(Init(queue)) + {Last(queue)};
  }

  lemma UnknownPending(m: Manifest, reach: set<string>, queue: seq<string>, eager: set<string>)
    requires queue != [] && Pending(m, reach, queue, eager) && ByFile(m, Last(queue)).None?
    ensures Pending(m, reach, Init(queue), eager + {Last(queue)})
  {
    assert queue == Init(queue) + [Last(queue)];
    assert ToSet(queue) == ToSet(Init(queue)) + {Last(queue)};
  }

  /** What a safe chunk needs is found or queued once a chunk that covers it has been visited. */
  lemma CoveredPending(m: Manifest, reach: set<string>, c: Chunk, d: Chunk)
    requires Safe(m, reach, d) && c.file in reach && ByFile(m, c.file) == Some(c) && Covers(c, d.file)
    ensures Needs(m, d) <= {c.file} + ToSet(c.assets) + ToSet(ImportedFiles(m, c.imports))
  {
    var i: nat :| i < |m| && m[i].1 == c;
    assert Stands(m, i) && Covers(m[i].1, d.file);
  }

  lemma VisitedQueue(m: Manifest, queue: seq<string>, c: Chunk)
    requires queue != [] && Last(queue) == c.file
    ensures ToSet(queue) == ToSet(Init(queue)) + {c.file}
    ensures ToSet(Init(queue) + ImportedFiles(m, c.imports)) == ToSet(Init(queue)) + ToSet(ImportedFiles(m, c.imports))
  {
    assert queue == Init(queue) + [c.file];
  }

  lemma ChunkNeedsWithin(m: Manifest, reach: set<string>, c: Chunk)
    requires Closed(m, reach) && c.file in reach && ByFile(m, c.file) == Some(c)
    ensures Needs(m, c) <= reach
  {
    var i: nat :| i < |m| && m[i].1 == c;
    assert m[i].1.file in reach;
  }

  lemma ChunkPending(m: Manifest, reach: set<string>, queue: seq<string>, eager: set<string>, c: Chunk)
    requires Closed(m, reach) && queue != [] && Pending(m, reach, queue, eager) && ByFile(m, Last(queue)) == Some(c)
    ensures Pending(m, reach, Init(queue) + ImportedFiles(m, c.imports), eager + {c.file} + ToSet(c.assets))
  {
    VisitedQueue(m, queue, c);
    ChunkNeedsWithin(m, reach, c);
    var more, left := eager + {c.file} + ToSet(c.assets), ToSet(Init(queue) + ImportedFiles(m, c.imports));
    assert eager + ToSet(queue) <= more + left;
    forall i: nat | i < |m| && m[i].1.file in more && Safe(m, reach, m[i].1) ensures Needs(m, m[i].1) <= more + left {
      if m[i].1.file !in eager {
        CoveredPending(m, reach, c, m[i].1);
      }
    }
  }

  lemma {:induction false} FindsEverything(m: Manifest, reach: set<string>, queue: seq<string>, eager: set<string>)
    requires Queued(m, queue, eager) && Closed(m, reach) && Pending(m, reach, queue, eager)
    ensures Pending(m, reach, [], Worklist(m, queue, eager))
    decreases |AllFiles(m) - eager|, |queue|
  {
    if queue != [] {
      var file, rest := Last(queue), Init(queue);
      if file in eager {
        SkipPending(m, reach, queue, eager);
        FindsEverything(m, reach, rest, eager);
      } else if ByFile(m, file).None? {
        FewerLeft(AllFiles(m), eager, eager + {file}, file);
        UnknownPending(m, reach, queue, eager);
        FindsEverything(m, reach, rest, eager + {file});
      } else {
        var c := ByFile(m, file).value;
        FileStepQueued(m, rest, eager, c);
        FewerLeft(AllFiles(m), eager, eager + {file} + ToSet(c.assets), file);
        ChunkPending(m, reach, queue, eager, c);
        FindsEverything(m, reach, rest + ImportedFiles(m, c.imports), eager + {file} + ToSet(c.assets));
      }
    }
  }

  lemma PendingNeeds(m: Manifest, reach: set<string>, eager: set<string>, i: nat)
    requires i < |m| && Pending(m, reach, [], eager) && m[i].1.file in eager && Safe(m, reach, m[i].1)
    ensures Needs(m, m[i].1) <= eager
  {
    assert ToSet([]) == {};
  }

  lemma {:induction false} SafeNeedsWithin(m: Manifest, reach: set<string>, files: set<string>, eager: set<string>, k: nat)
    requires k <= |m| && files <= eager && Pending(m, reach, [], eager)
    ensures SafeNeeds(m, reach, files, k) <= eager
  {
    if k > 0 {
      SafeNeedsWithin(m, reach, files, eager, k - 1);
      if m[k - 1].1.file in files && Safe(m, reach, m[k - 1].1) {
        PendingNeeds(m, reach, eager, k - 1);
      }
    }
  }

  lemma {:induction false} FoundWithin(m: Manifest, reach: set<string>, eager: set<string>, n: nat)
    requires Pending(m, reach, [], eager)
    ensures FoundIn(m, reach, n) <= eager
  {
    assert ToSet([]) == {};
    if n > 0 {
      FoundWithin(m, reach, eager, n - 1);
      SafeNeedsWithin(m, reach, FoundIn(m, reach, n - 1), eager, |m|);
    }
  }

  /**
   * The worklist returns the least set with the entries that is closed under assets and static imports, where nothing
   * is hidden within the chunks of some closed set.
   */
  lemma EagerIsLeastClosed(m: Manifest, reach: set<string>, files: set<string>)
    requires Closed(m, reach) && NothingHidden(m, reach)
    ensures Closed(m, Eager(m))
    ensures Closed(m, files) ==> Eager(m) <= files
  {
    EntriesAreNamed(m);
    FindsEverything(m, reach, EntryFiles(m), {});
    FoundWithin(m, reach, Eager(m), |m|);
    assert ToSet([]) == {};
    forall i: nat | i < |m| && m[i].1.file in Eager(m) ensures Needs(m, m[i].1) <= Eager(m) {
    }
    if Closed(m, files) {
      FindsNoMore(m, EntryFiles(m), {}, files);
    }
  }

  /** Whatever is hidden, nothing too much is ever found. */
  lemma EagerIsNeverTooMuch(m: Manifest, files: set<string>)
    requires Closed(m, files)
    ensures Eager(m) <= files
  {
    EntriesAreNamed(m);
    FindsNoMore(m, EntryFiles(m), {}, files);
  }

  /** All files of the manifest together are closed, so there is always a set to look for hidden chunks within. */
  lemma AllFilesAreClosed(m: Manifest)
    ensures Closed(m, AllFiles(m))
  {
    EntriesAreNamed(m);
    forall i | 0 <= i < |m| ensures Needs(m, m[i].1) <= AllFiles(m) {
      ChunksAreNamed(m, i);
      ImportsAreNamed(m, m[i].1.imports);
    }
  }

  /** For distinct files and assets that lead nowhere, as a bundler writes them, nothing is missed. */
  lemma EagerOfLeafAssets(m: Manifest, files: set<string>)
    requires DistinctFiles(m) && AssetsAreLeaves(m)
    ensures Closed(m, Eager(m))
    ensures Closed(m, files) ==> Eager(m) <= files
  {
    AllFilesAreClosed(m);
    LeafAssetsHideNothing(m, AllFiles(m));
    EagerIsLeastClosed(m, AllFiles(m), files);
  }

  // ---------------------------------------------------------------- a chunk that is also an asset

  /** Two entries, one of which lists the other as an asset, and what the other one imports. */
  const LISTING := Chunk("a", true, [], ["x"])
  const LISTED := Chunk("x", true, ["c"], [])
  const LEAF := Chunk("z", false, [], [])
  const LISTED_FIRST: Manifest := [("b", LISTED), ("a", LISTING), ("c", LEAF)]
  const LISTING_FIRST: Manifest := [("a", LISTING), ("b", LISTED), ("c", LEAF)]

  lemma EntriesFirst(e: (string, Chunk), more: Manifest)
    ensures EntryFiles([e] + more) == (if e.1.isEntry then [e.1.file] else []) + EntryFiles(more)
  {
    assert ([e] + more)[1..] == more;
  }

  lemma TwoEntries(first: (string, Chunk), second: (string, Chunk))
    requires first.1.isEntry && second.1.isEntry
    ensures EntryFiles([first, second, ("c", LEAF)]) == [first.1.file, second.1.file]
  {
    EntriesFirst(("c", LEAF), []);
    EntriesFirst(second, [("c", LEAF)]);
    EntriesFirst(first, [second, ("c", LEAF)]);
    assert [("c", LEAF)] + [] == [("c", LEAF)];
    assert [second] + [("c", LEAF)] == [second, ("c", LEAF)];
    assert [first] + [second, ("c", LEAF)] == [first, second, ("c", LEAF)];
  }

  lemma Lookups(first: (string, Chunk), second: (string, Chunk))
    requires first.1.file != second.1.file && first.1.file != "z" && second.1.file != "z"
    ensures var m := [first, second, ("c", LEAF)];
      && ByFile(m, first.1.file) == Some(first.1) && ByFile(m, second.1.file) == Some(second.1)
      && ByFile(m, "z") == Some(LEAF) && ImportedFiles(m, ["c"]) == ["z"]
  {
    var m, two := [first, second, ("c", LEAF)], [first, second];
    assert Init(m) == two && Init(two) == [first] && Init([first]) == [];
    assert ByFile([first], first.1.file) == Some(first.1) && ByFile(two, second.1.file) == Some(second.1);
    assert ByKey(m, "c") == Some(LEAF) && ["c"][1..] == [];
  }

  /** One round at a file that was not found before. */
  lemma Visit(m: Manifest, rest: seq<string>, c: Chunk, eager: set<string>)
    requires Queued(m, rest + [c.file], eager) && c.file !in eager && ByFile(m, c.file) == Some(c)
    ensures var queue', eager' := rest + ImportedFiles(m, c.imports), eager + {c.file} + ToSet(c.assets);
      Queued(m, queue', eager') && Worklist(m, rest + [c.file], eager) == Worklist(m, queue', eager')
  {
    SnocInit(rest, c.file);
    assert forall f :: f in rest ==> f in rest + [c.file];
    FileStepQueued(m, rest, eager, c);
  }

  /** Listed first, the chunk is popped last, is taken for done by then, and its import is missed. */
  lemma ListedFirstMisses()
    ensures Eager(LISTED_FIRST) == {"a", "x"} && !Closed(LISTED_FIRST, Eager(LISTED_FIRST))
  {
    var m := LISTED_FIRST;
    TwoEntries(("b", LISTED), ("a", LISTING));
    Lookups(("b", LISTED), ("a", LISTING));
    EntriesAreNamed(m);
    assert ["x"] + ["a"] == ["x", "a"] && ["x"] + [] == ["x"] && {} + {"a"} + ToSet(["x"]) == {"a", "x"};
    Visit(m, ["x"], LISTING, {});
    SkipLast(m, "x", {"a", "x"});
    assert m[0].1.file in Eager(m) && "z" in ToSet(["z"]) && "z" in Needs(m, m[0].1);
  }

  lemma SkipLast(m: Manifest, file: string, eager: set<string>)
    requires Queued(m, [file], eager) && file in eager
    ensures Worklist(m, [file], eager) == eager
  {
    assert Init([file]) == [] && Last([file]) == file;
    assert Worklist(m, [], eager) == eager;
  }

  lemma LeafVisits(m: Manifest)
    requires m == LISTING_FIRST && ByFile(m, "z") == Some(LEAF) && Queued(m, ["a", "z"], {"x"})
    ensures Queued(m, ["a"], {"x", "z"}) && Worklist(m, ["a", "z"], {"x"}) == Worklist(m, ["a"], {"x", "z"})
  {
    assert ["a"] + ["z"] == ["a", "z"] && ["a"] + [] == ["a"] && {"x"} + {"z"} + ToSet([]) == {"x", "z"};
    Visit(m, ["a"], LEAF, {"x"});
  }

  lemma LastVisit(m: Manifest, c: Chunk, eager: set<string>)
    requires Queued(m, [c.file], eager) && c.file !in eager && ByFile(m, c.file) == Some(c) && c.imports == []
    ensures Worklist(m, [c.file], eager) == eager + {c.file} + ToSet(c.assets)
  {
    assert [] + [c.file] == [c.file] && ImportedFiles(m, c.imports) == [];
    Visit(m, [], c, eager);
    assert Queued(m, [], eager + {c.file} + ToSet(c.assets));
  }

  lemma ListingVisits(m: Manifest)
    requires m == LISTING_FIRST && ByFile(m, "a") == Some(LISTING) && Queued(m, ["a"], {"x", "z"})
    ensures Worklist(m, ["a"], {"x", "z"}) == {"a", "x", "z"}
  {
    LastVisit(m, LISTING, {"x", "z"});
    assert {"x", "z"} + {"a"} + ToSet(["x"]) == {"a", "x", "z"};
  }

  lemma AllThreeAreClosed(m: Manifest)
    requires m == LISTING_FIRST && EntryFiles(m) == ["a", "x"] && ImportedFiles(m, ["c"]) == ["z"]
    ensures Closed(m, {"a", "x", "z"})
  {
    assert m[0].1 == LISTING && m[1].1 == LISTED && m[2].1 == LEAF;
    assert Needs(m, LISTING) == {"x"} && Needs(m, LISTED) == {"z"} && Needs(m, LEAF) == {};
  }

  /** Listed last, it is popped first, and everything is found. */
  lemma ListingFirstFinds()
    ensures Eager(LISTING_FIRST) == {"a", "x", "z"} && Closed(LISTING_FIRST, Eager(LISTING_FIRST))
  {
    var m := LISTING_FIRST;
    TwoEntries(("a", LISTING), ("b", LISTED));
    Lookups(("a", LISTING), ("b", LISTED));
    EntriesAreNamed(m);
    assert ["a"] + ["x"] == ["a", "x"] && ["a"] + ["z"] == ["a", "z"] && {} + {"x"} + ToSet([]) == {"x"};
    Visit(m, ["a"], LISTED, {});
    LeafVisits(m);
    ListingVisits(m);
    AllThreeAreClosed(m);
  }

  /**
   * A chunk that is also listed as an asset can be taken for done before it is reached, and its own imports are
   * missed. Whether they are depends on the order of the queue: the same chunks in another order are all found.
   */
  lemma AssetHidesAChunk()
    ensures multiset(LISTED_FIRST) == multiset(LISTING_FIRST)
    ensures forall reach :: Closed(LISTED_FIRST, reach) ==> !NothingHidden(LISTED_FIRST, reach)
    ensures Eager(LISTED_FIRST) == {"a", "x"} && !Closed(LISTED_FIRST, Eager(LISTED_FIRST))
    ensures Eager(LISTING_FIRST) == {"a", "x", "z"} && Closed(LISTING_FIRST, Eager(LISTING_FIRST))
  {
    ListedFirstMisses();
    ListingFirstFinds();
    forall reach | Closed(LISTED_FIRST, reach) ensures !NothingHidden(LISTED_FIRST, reach) {
      if NothingHidden(LISTED_FIRST, reach) {
        EagerIsLeastClosed(LISTED_FIRST, reach, reach);
      }
    }
  }
}
