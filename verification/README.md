# Memberberry, verified

Memberberry keeps notes as Markdown files. This project models the parts of it that decide what a note means, who may
read it and what survives an edit, and proves what they promise. Loops and objects that change in place are methods
and classes here, each proved against a function that says what it computes; the laws are lemmas about those functions.

## What is modelled

- **The canonical form of a note.** `Model`, `Syntax`, `Flanking` and `Inlines` hold the tree, the tag scanner, the
  flanking rules of CommonMark 0.31.2 (section 6.2) and `push`; `Settling`, `Marks`, `CanonicalInlines`, `Shapes`, `Trimming`,
  `Bodies`, `Cells` and `CanonicalBlocks` hold the rewriting up to whole documents; `PlainText` relates it to the text
  that `extract.rs` reads. One natural number, the weight of a run, carries termination: every push either appends its
  item unchanged or makes the run lighter. One sequence, its ink, carries conservation; `Signs` adds the separations
  between words. `Delimiters` says in plain terms which marks stay and which go, `BodyText` what becomes of the lines of
  code and mathematics, and `BlockShapes` what a block keeps besides its content.
- **Extraction** (`Extract`, `Indexing`): links and media in one walk with back-patched contexts, and what it finds.
- **Merging and resolving conflicts** (`Lcs`, `Merge`, `Survival`, `Conflict`, `Standalone`, `Resolved`).
- **HTML out and in** (`Escaping`, `HtmlTree`, `HtmlParser`, `HtmlRoundTrip`, `HtmlMarkup`, `HtmlAddresses`,
  `HtmlWriter`, `HtmlDocuments`, `HtmlText`, `PageText`): the renderer, the stack parser of the web clipper, what the one
  makes of the other, and what canonicalizing changes on a page. `HtmlReader` is a reader of pages with a table of its
  own, and `HtmlReading` shows that it finds the structure of the note; `HtmlMalformed` and `Entities` are about markup
  that others wrote.
- **Frontmatter** (`Frontmatter`, `FrontmatterRoundTrip`, `FrontmatterDocument`, `FrontmatterWritten`): split, parse and
  render, and the parsing of what people write.
- **Access rules** (`Permissions`), **accounts, sessions, invitations and cookie keys** (`Auth`, `AuthDb`, `AuthRuns`,
  `AuthAccounts`).
- **Dated notes** (`Calendar`, `IsoWeeks`, `Daily`, `DailyPaths`), down to the day arithmetic.
- **Custom emoji catalogs** (`EmojiCatalog`, `EmojiRuns`, `EmojiShown`): views, uploads and late answers in any order.
- **The bundle's initial files** (`EagerChunks`): a worklist over the manifest.

`Strings` holds what they share.

## Parameters and representations

- The Unicode classes behind the flanking tests are a parameter that agrees with ASCII; `to_lowercase` is one too.
  White space, trimming, UTF-8 and percent-encoding are written out.
- SHA-256, HMAC, Argon2, fresh random bytes and the clock are parameters of the operations that use them. Tables are
  sequences and maps; an operation and the rollback of a refused one are atomic.
- A sorted map is the sequence of its entries in strictly ascending order. A catalog object of the web client is its
  position in a list of all catalogs ever made, so that two catalogs of one vault stay distinct.
- Task metadata other than the status travels along and is never inspected.

## Where the code and its words differ

The model follows the code. These lemmas show the difference.

- "Idempotent" (crates/mb-core/src/canonical.rs:15) does not hold of every document: `Shapes.NotIdempotent` for marks
  inside their own kind, `Bodies.MathBodyNotIdempotent` for a blank outer line of mathematics, and
  `Cells.CellNotIdempotent` for a soft break inside a mark that a table cell drops. `CanonicalInlines.IdempotentIffFlat`,
  `Cells.CellIdempotentIff` and `CanonicalBlocks.DocumentIdempotentIff` say exactly when it holds, in terms of the first
  result. `Shapes.UnnestedIsIdempotent` and `CanonicalBlocks.PlainDocumentIsIdempotent` give conditions to check on the
  input; these go one way. An exact condition on the input would have to say which marks the first round drops, and every
  mark that goes changes the neighbours by which the next one is judged: only the round itself decides that.
- "Each pass strictly removes at least one mark" (crates/mb-core/src/canonical.rs:230): `Marks.PassWithoutMarks` shows two
  runs without a mark, as `push` builds them, that a pass changes: an empty text goes, a tag takes in the text behind it.
  `Marks.DeepRemovesAMark` gives a condition to check beforehand under which the comment is right, and
  `Marks.RemovesAMarkIff` says exactly when a pass meets it. The exact condition speaks of the run as the pass emits it,
  since whether a mark is dropped depends on what was emitted in front of it. `Settling.SettleLoop` ends because the weight
  shrinks.
- Keeping theirs is described as keeping both for callouts without a local version (crates/mb-core/src/conflict.rs:376-380).
  But such a callout stands behind the block that all versions share, unless its gap is the first, and that block is then
  dropped: `Standalone.KeepTheirsDropsAgreed` is a merge that does it, `Standalone.StandaloneDropsAgreed` says which block
  goes in every merge and exactly when none does.
- `decode_entities` appends the rest twice where an `&` is never closed (crates/mb-core/src/html.rs:417-444):
  `Escaping.UnclosedEntityDoubles` shows it, and by `Escaping.DecodesOnceIffClosed` it happens exactly to the texts with an
  `&` that has no `;` behind it.
- The closure of a chunk's imports (web/perf/bundle.ts:44-63) can be missed where a chunk is also listed as an asset:
  `EagerChunks.AssetHidesAChunk`. `EagerChunks.EagerIsLeastClosed` gives a condition on the manifest under which nothing is
  missed. It is one way, because the rest depends on the order in which the queue is worked off: the import of the witness
  is missed in one order of the manifest and found in the other, so no condition on the chunks alone is exact.

## Model

| member | source | states |
|---|---|---|
| `Syntax.ScanTag` | crates/mb-core/src/syntax.rs:14-36 | The loop over `len` and `has_alpha` returns the length of the longest tag, in the sense of `TagLength`: a run of tag characters without trailing separators that holds a letter. |
| `Syntax.TagLengthShape` | crates/mb-core/src/syntax.rs:14-36 | A scanned tag is a non-empty prefix of tag characters that does not end in `_`, and scanning the prefix alone finds all of it. |
| `Flanking.OpenEdgeIsLooser` | crates/mb-core/src/canonical.rs:369-400 | A mark that can be written between two characters can still be written where an end of the run takes the place of such a character or the emphasis around it is gone: the flanking rules of section 6.2 of CommonMark 0.31.2 are monotone in this sense. |
| `Inlines.PushWeight` | crates/mb-core/src/canonical.rs:505-610 | `push` either appends its item unchanged, exactly when the last item and the new one neither merge nor alter each other, or makes the run strictly lighter in a weight of nodes, characters and trailing underscores. |
| `Inlines.PushInk` | crates/mb-core/src/canonical.rs:505-610 | However it merges, absorbs text into a tag or splits a tag, `push` keeps the visible characters and the references of the run followed by those of the item. |
| `Inlines.SpacedIffPushable` | crates/mb-core/src/canonical.rs:505-610 | A run is rebuilt unchanged by pushing its items one by one exactly when all its neighbours are in normal form. |
| `Settling.DropUnexpressibleMarks` | crates/mb-core/src/canonical.rs:293-349 | The loop computes `DropMarks`: each mark that cannot open, close or pick a delimiter against the item in front and the one behind is replaced by its children. |
| `Settling.SettleLoop` | crates/mb-core/src/canonical.rs:231-253 | The loop that repeats passes until nothing changes terminates and returns `Settle`. |
| `Marks.RemovesAMarkIff` | crates/mb-core/src/canonical.rs:224-253 | A pass removes a mark, or changes nothing, exactly where the run is in normal form already or the pass drops a mark or joins two of one kind, at some depth. |
| `Marks.DeepRemovesAMark` | crates/mb-core/src/canonical.rs:224-253 | In every context, a pass over a tree in which no push would change anything at any depth removes a mark or changes nothing, and so does settling it. |
| `Marks.SettleMarks` | crates/mb-core/src/canonical.rs:231-280 | Settling never adds a mark, and keeps their number exactly when no pass drops or joins one, at any depth. |
| `Marks.PassWithoutMarks` | crates/mb-core/src/canonical.rs:230-253 | Against the comment: a break and a blank text, or a tag with a trailing underscore and a text, are pushed to runs without a mark that the first pass still changes. |
| `Settling.SettleIsFixpoint` | crates/mb-core/src/canonical.rs:231-253 | What `settle` returns is left alone by a further pass, at this level and inside every mark and link. |
| `Settling.SettledIffNormal` | crates/mb-core/src/canonical.rs:224-280 | `settle` leaves a run alone exactly when, at every depth, neighbours are in normal form and every mark can open, close and pick a delimiter against its actual neighbours. |
| `Settling.SettleIsNormal` | crates/mb-core/src/canonical.rs:224-280 | For every inline tree and context the result of `settle` is in that normal form. |
| `Settling.SettleInk` | crates/mb-core/src/canonical.rs:231-349 | Settling keeps every visible character and reference, in order. |
| `Settling.NormalInLooserContext` | crates/mb-core/src/canonical.rs:255-280 | A run that is normal under a `*` delimiter, or inside emphasis, is also normal in the empty context. |
| `Delimiters.MarkBetweenTexts` | crates/mb-core/src/canonical.rs:293-436 | A mark of any kind around any text, with or without text on either side, stays as it is or leaves one joined text, and it stays exactly where neither delimiter faces a blank from inside, nor punctuation from inside with a word outside; an emphasis that touches an asterisk moreover needs a blank, punctuation or nothing on both sides. |
| `Delimiters.MarkInsideEmphasis` | crates/mb-core/src/canonical.rs:255-349 | Inside an emphasis, within a link: the mark stays exactly where it could be written there, where an emphasis has only the underscore left. |
| `Delimiters.MarkBehindAtom` | crates/mb-core/src/canonical.rs:409-502 | Behind a link, an image, a wikilink, a tag, code and the like, a mark stays exactly where it may stand behind the last character that such an item is written with. |
| `Delimiters.MarkBeforeAtom` | crates/mb-core/src/canonical.rs:409-502 | The same in front of one, for its first character. |
| `Delimiters.EmphasisBehindStrong` | crates/mb-core/src/canonical.rs:293-349 | An emphasis right behind a strong stays exactly where a blank, punctuation or nothing follows; else its text joins what follows, and the strong goes too if it ended in punctuation. |
| `Delimiters.EmphasisBeforeStrong` | crates/mb-core/src/canonical.rs:293-349 | The mirror image, in front of a strong. |
| `Delimiters.EmphasisAroundStrong` | crates/mb-core/src/canonical.rs:293-436 | An emphasis whose body begins or ends in a strong stays exactly where blanks, punctuation or nothing stand on both sides of it; else its strong and its text are released. |
| `CanonicalInlines.CanonicalKeepsInk` | crates/mb-core/src/canonical.rs:208-221 | `inlines` keeps visible characters, links, images, emoji and footnote references, in order. |
| `Signs.CanonicalKeepsSigns` | crates/mb-core/src/canonical.rs:206-221 | `inlines` also keeps the separations between what is visible, in order and as strong as they were, where white space and breaks side by side count as one and the strongest decides: no two words run together, and no line break is lost or made. |
| `CanonicalInlines.CanonicalWeight` | crates/mb-core/src/canonical.rs:208-221 | `inlines` never makes a tree heavier, and returns it unchanged when it keeps its weight. |
| `CanonicalInlines.FixedIffNormalAndFlat` | crates/mb-core/src/canonical.rs:208-221 | A tree is a fixed point of `inlines` exactly when it is normal and no mark, at any depth, has a mark of its own kind directly under it. |
| `CanonicalInlines.IdempotentIffFlat` | crates/mb-core/src/canonical.rs:206-221 | `inlines` is idempotent on a tree exactly when its first result has no mark with one of its own kind directly inside. |
| `CanonicalInlines.RepeatReachesFixpoint` | crates/mb-core/src/canonical.rs:208-221 | Repeating `inlines` as often as the tree is heavy always ends in a fixed point. |
| `Shapes.CanonicalFits` | crates/mb-core/src/canonical.rs:208-502 | A shape (which kinds may occur inside which, and whether breaks may occur) that a tree fits is still fitted by its canonical form. |
| `Shapes.UnnestedIsIdempotent` | crates/mb-core/src/canonical.rs:206-221 | On every tree in which no kind of mark occurs inside itself, `inlines` is idempotent. |
| `Shapes.NotIdempotent` | crates/mb-core/src/canonical.rs:15-17 | The documented idempotence fails: `Emphasis[Emphasis["a"], Strong["[", Emphasis["x"]]]` changes on the second pass. |
| `Trimming.TrimEdgesLoop` | crates/mb-core/src/canonical.rs:646-697 | The two trimming loops compute `TrimEdges`. |
| `Trimming.TrimEdgesIsTrimmed` | crates/mb-core/src/canonical.rs:646-697 | What is left starts and ends in neither a break nor white space of a text. |
| `Trimming.TrimEdgesInk` | crates/mb-core/src/canonical.rs:646-697 | Trimming edges drops nothing visible. |
| `Trimming.TrimEdgesIsNormal` | crates/mb-core/src/canonical.rs:646-697 | Trimming the edges of a settled run keeps it settled. |
| `Trimming.FlattenBreaksInk` | crates/mb-core/src/canonical.rs:616-643 | Replacing breaks by spaces, at every depth, drops nothing visible. |
| `Signs.LineKeepsSigns` | crates/mb-core/src/canonical.rs:72-76 | Between the edges of its block, a paragraph keeps all its separations. |
| `Signs.HeadingKeepsSigns` | crates/mb-core/src/canonical.rs:78-82 | A heading or a title keeps its words apart where breaks become spaces. |
| `Bodies.CodeBodyIsStable` | crates/mb-core/src/canonical.rs:104-114 | Normalizing a code body a second time changes nothing, and it keeps the ink. |
| `BodyText.CodeKeepsLines` | crates/mb-core/src/canonical.rs:104-113 | Whichever of the three line endings each line has, a code body keeps its lines and ends them alike. |
| `BodyText.CodeDropsBlankEnd` | crates/mb-core/src/canonical.rs:104-113 | Blank lines behind the last one that is not are dropped, and that line's own break. |
| `BodyText.MathKeepsLines` | crates/mb-core/src/canonical.rs:135-148 | A math body keeps its lines without the white space around each and without the line breaks around all of them. |
| `Bodies.MathBodyLoop` | crates/mb-core/src/canonical.rs:135-148 | The line loop computes `MathBody`. |
| `Bodies.MathBodyIdempotentIff` | crates/mb-core/src/canonical.rs:135-148 | `math_body` is idempotent on a body exactly when, behind the outer line feeds, a body of several lines has something visible on its first and last line; it keeps the ink in any case. |
| `Bodies.MathBodyNotIdempotent` | crates/mb-core/src/canonical.rs:135-148 | The body of a space, a line feed and `x` needs two rounds. |
| `Cells.CellLoop` | crates/mb-core/src/canonical.rs:164-180 | The loop over a cell computes `Cell`: its lines, canonicalized one by one and joined by hard breaks. |
| `Cells.CellInk` | crates/mb-core/src/canonical.rs:164-180 | A canonical cell keeps the ink of the cell. |
| `Signs.CellKeepsSigns` | crates/mb-core/src/canonical.rs:164-180 | A canonical cell keeps its words apart, at breaks and at white space. |
| `Cells.CellIdempotentIff` | crates/mb-core/src/canonical.rs:164-180 | Canonicalizing a cell is idempotent exactly when its first result holds no soft break and is flat. |
| `Cells.CellNotIdempotent` | crates/mb-core/src/canonical.rs:164-180 | A soft break inside a mark that gets dropped survives the first round and becomes a hard break in the second. |
| `CanonicalBlocks.MergeAdjacentLists` | crates/mb-core/src/canonical.rs:33-60 | The loop computes `MergeLists`: neighbouring lists of one kind become one, unless one of them carries an anchor. |
| `CanonicalBlocks.CanonicalTableInk` | crates/mb-core/src/canonical.rs:153-188 | Squaring a table off keeps every cell, and a table is dropped only when it shows nothing. |
| `BlockShapes.TableKeeps` | crates/mb-core/src/canonical.rs:153-188 | A table gets as many columns as its widest part has: alignments and cells stay in their places, the missing ones are added on the right, empty and aligned by default. |
| `BlockShapes.BlockKeepsShape` | crates/mb-core/src/canonical.rs:69-117 | A block that does not vanish keeps its kind and anchor, a heading its level, a callout its kind and fold, code its language, a list its kind and number of items and, if numbered, its start, which is at least 1. |
| `BlockShapes.RunKeepsShapes` | crates/mb-core/src/canonical.rs:33-67 | The blocks that do not vanish keep their shapes one by one, in order. |
| `BlockShapes.ListsAreJoined` | crates/mb-core/src/canonical.rs:33-60 | Any number of lists of one kind without anchors, side by side, become one list that starts where the first did and holds the items of all in order. |
| `CanonicalBlocks.DocumentKeepsInk` | crates/mb-core/src/canonical.rs:17-204 | Canonicalizing a document keeps its visible characters and its references, in order, through lists, quotes, callouts and tables. Task markers are not part of this; the next row is about them. |
| `CanonicalBlocks.MarkerSurvivesIff` | crates/mb-core/src/canonical.rs:190-204 | An item keeps its task marker exactly when its first block that does not vanish, if there is one, is a paragraph. |
| `CanonicalBlocks.DocumentFixedIffNormal` | crates/mb-core/src/canonical.rs:17-204 | A document is a fixed point exactly when all its runs, cells, bodies and lists are in their normal forms. |
| `CanonicalBlocks.DocumentIdempotentIff` | crates/mb-core/src/canonical.rs:15-31 | `document` is idempotent on a document exactly when its first result is settled: flat runs, break-free fixed cells, visible edges of mathematics. |
| `CanonicalBlocks.PlainDocumentIsIdempotent` | crates/mb-core/src/canonical.rs:15-31 | `document` is idempotent on every document without self-nested marks, without soft breaks inside the marks of table cells and with visible edges of mathematics. |
| `PlainText.TextIsInk` | crates/mb-core/src/extract.rs:287-317 | The non-white characters of `plain_text` are the visible characters of the ink. |
| `PlainText.CanonicalKeepsText` | crates/mb-core/src/extract.rs:287-317 | `plain_text` reads the same non-white characters before and after `inlines`. |
| `PlainText.DocumentKeepsText` | crates/mb-core/src/extract.rs:158-190 | `block_text`, joined over a document, reads the same non-white characters before and after canonicalizing it. |
| `PlainText.JoinedSplits` | crates/mb-core/src/extract.rs:181-190 | Joined parts without blanks are found again by splitting at blanks. |
| `PlainText.JoinedSkipsEmpty` | crates/mb-core/src/extract.rs:181-190 | An empty part changes nothing, wherever it stands. |
| `PlainText.BreaksAreBlanks` | crates/mb-core/src/extract.rs:287-317 | A break of either kind reads as one blank between what stands around it. |
| `Indexing.IndexReadsThePage` | crates/mb-core/src/extract.rs:287-317 | `plain_text` is exactly the text of the rendered page, but that breaks read as blanks, images as their captions, and footnote marks as nothing. |
| `Indexing.ReferencesAreFound` | crates/mb-core/src/extract.rs:97-246 | The extracted links are the wikilinks of the note in order, with target, anchor, alias and embedding as they stand there, and the media mentions are its link and image destinations in order. |
| `Indexing.LinksKnowTheirBlock` | crates/mb-core/src/extract.rs:97-156 | Each of them carries the anchor and the text of the innermost block around it, with title, items, quoted blocks and cells read in document order. |
| `Indexing.CanonicalKeepsReferences` | crates/mb-core/src/extract.rs:97-263 | Canonicalizing a note changes neither the links extracted from it nor the media paths recorded. |
| `Extract.PatchRaw` | crates/mb-core/src/extract.rs:138-156 | Back-patching the links that a block left open gives them the anchor and the text that a top-down extraction hands down. |
| `Extract.RunLinksAttributed` | crates/mb-core/src/extract.rs:97-156 | Every extracted link has a context. |
| `Extract.RecordedMedia` | crates/mb-core/src/extract.rs:248-263 | The recorded media are exactly the mentioned media paths, each once, named by its first mention. |
| `Indexing.MediaIsRecorded` | crates/mb-core/src/extract.rs:212-263 | An image or a link into `media/`, with or without `./` in front, anywhere in a paragraph of a note that has not mentioned the path before, is recorded under that path and its caption. |
| `Indexing.MediaPathIs` | crates/mb-core/src/extract.rs:248-263 | Nothing but `media/` paths, with at most one `./` in front, is recorded. |
| `Extract.Extracted.RecordMedia` | crates/mb-core/src/extract.rs:248-273 | Records a mention in both media lists, which stay the same paths without duplicates. |
| `Extract.Extracted.Attribute` | crates/mb-core/src/extract.rs:138-156 | Patches exactly the links behind `first_link` that have no context yet. |
| `Extract.Extracted.WalkInlines` | crates/mb-core/src/extract.rs:212-246 | Appends the open links of a run and records its media mentions, in order. |
| `Extract.Extracted.WalkBlocks` | crates/mb-core/src/extract.rs:97-136 | Appends exactly the links of the top-down specification: each with the anchor and the text of its innermost enclosing block. |
| `Lcs.ComputeMatches` | crates/mb-core/src/conflict.rs:447-506 | The table filled in nested loops and the walk through it return `Matches`. |
| `Lcs.MatchesAreLongest` | crates/mb-core/src/conflict.rs:447-506 | The pairs increase strictly in both components, pair equal elements, and no common subsequence is longer. |
| `Lcs.TieSkipsTheFirst` | crates/mb-core/src/conflict.rs:447-506 | Of two blocks that changed places, which could both be kept only one at a time, the walk keeps the one that stands second in the first version. |
| `Merge.ComputeAnchors` | crates/mb-core/src/conflict.rs:420-438 | The loop over slots returns the blocks that both sides still share with the base. |
| `Merge.AnchorsAreAligned` | crates/mb-core/src/conflict.rs:420-438 | Anchors increase strictly in all three versions and mark one block that is equal in all of them. |
| `Merge.PushPairwise` | crates/mb-core/src/conflict.rs:390-405 | Appends each local block followed by the callout of its counterpart; the last one takes all that are left. |
| `Merge.PushRegion` | crates/mb-core/src/conflict.rs:354-383 | Appends what a gap contributes: the changed side, or both with callouts. |
| `Merge.RunMergeThreeWay` | crates/mb-core/src/conflict.rs:270-303 | The cursor loop over anchors returns `MergeThreeWay`. |
| `Merge.RunMergeTwoWay` | crates/mb-core/src/conflict.rs:306-337 | The loop over matches returns `MergeTwoWay`. |
| `Merge.GapsPartition` | crates/mb-core/src/conflict.rs:270-337 | The gaps and the agreed blocks between them make up each version exactly. |
| `Merge.OnlyTheyChanged` | crates/mb-core/src/conflict.rs:270-303 | merge(b, b, t) = t, deletions included. |
| `Merge.OnlyIChanged` | crates/mb-core/src/conflict.rs:270-303 | merge(b, m, b) = m, deletions included. |
| `Merge.BothMadeTheSameChange` | crates/mb-core/src/conflict.rs:270-303 | merge(b, x, x) = x. |
| `Merge.MergeWithItself` | crates/mb-core/src/conflict.rs:306-337 | Without a base, merge(x, x) = x. |
| `Survival.RegionKeepsBoth` | crates/mb-core/src/conflict.rs:354-405 | In every gap the blocks of a side that changed it survive in order: mine as they are, theirs bare or inside a callout. |
| `Survival.MergeKeepsBoth` | crates/mb-core/src/conflict.rs:270-405 | Over a whole merge, what a side changed or the other side left alone survives in order; flattening brings blocks inside callouts back. |
| `Survival.TwoWayLosesNothing` | crates/mb-core/src/conflict.rs:306-337 | In a two-way merge `mine` is a subsequence of the result, and no block of `theirs` is lost. |
| `Survival.MergeDoesNotNest` | crates/mb-core/src/conflict.rs:198-246 | Merging never puts a conflict inside a conflict callout, at any depth, if the versions had none. |
| `Survival.ResolveAllMine` | crates/mb-core/src/conflict.rs:145-194 | Resolving every top-level conflict as mine drops exactly the conflict callouts. |
| `Survival.MergeWithoutConflicts` | crates/mb-core/src/conflict.rs:270-405 | For versions without conflicts, dropping the conflicts of a merge gives their change where only they made one and mine everywhere else. |
| `Survival.PairwiseResolves` | crates/mb-core/src/conflict.rs:390-405 | A divergent gap shows min(|mine|, |theirs|) callouts, the k-th with the counterpart of the k-th local block and right behind it; keeping mine gives mine back, keeping theirs gives theirs flattened and the local blocks without a counterpart. |
| `Resolved.MergeAsTheirs` | crates/mb-core/src/conflict.rs:145-405 | Of a merge of versions without conflicts, keeping theirs everywhere gives, gap by gap, the one change that was made, or theirs and my surplus blocks where both changed it, and drops exactly the agreed blocks in front of a callout that stands alone. |
| `Resolved.MergeAsTheirsKeepsAgreed` | crates/mb-core/src/conflict.rs:145-405 | Where no callout stands alone behind an agreed block, all agreed blocks are kept. |
| `Resolved.ResolveAllBoth` | crates/mb-core/src/conflict.rs:145-194 | Resolving every top-level conflict as both puts the content of each callout in its place. |
| `Conflict.CalloutIsDated` | crates/mb-core/src/conflict.rs:198-246 | A callout of theirs is a conflict without anchor or fold, titled with the marker and the time stamp, around their flattened blocks. |
| `Conflict.CaseDoesNotMatter` | crates/mb-core/src/conflict.rs:108-116 | A callout is a conflict exactly when its kind reads `conflict` in whatever case. |
| `Conflict.FlattenedHasNoConflict` | crates/mb-core/src/conflict.rs:211-246 | `flatten_conflicts` leaves no conflict at any depth. |
| `Conflict.NthFinds` | crates/mb-core/src/conflict.rs:130-143 | A conflict with k conflicts in front of it is the k-th. |
| `Conflict.NthExists` | crates/mb-core/src/conflict.rs:130-143 | `nth` finds a conflict exactly for the ordinals below the number of top-level conflicts. |
| `Conflict.ResolveLowersCount` | crates/mb-core/src/conflict.rs:145-194 | Where no callout holds a conflict, resolving one lowers the top-level count by exactly one and keeps that property. |
| `Conflict.RunsEnd` | crates/mb-core/src/conflict.rs:118-194 | Any sequence of resolutions is at most as long as there are conflicts, and leaves exactly the rest of them. |
| `Conflict.RunContinues` | crates/mb-core/src/conflict.rs:118-194 | As long as a conflict is left, some resolution applies. |
| `Conflict.KeepTheirsIsKeepBothIff` | crates/mb-core/src/conflict.rs:145-194 | Keeping theirs equals keeping both exactly where no ordinary block stands in front of the callout. |
| `Standalone.StandaloneDropsAgreed` | crates/mb-core/src/conflict.rs:145-194 | In any merge, where my blocks of a gap were deleted and they changed it, the callout stands right behind the block all versions agree on, and keeping theirs drops that block; it equals keeping both exactly where the gap is the first or that block is a conflict itself. |
| `Standalone.KeepTheirsDropsAgreed` | crates/mb-core/src/conflict.rs:376-380 | Against the comment: merging [a, b] with [a] and [a, c] shows [a, callout of c], and keeping theirs leaves c without a. |
| `Escaping.RunEscapeText` | crates/mb-core/src/html.rs:906-915 | The loop appends the escaped text. |
| `Escaping.RunEscapeAttr` | crates/mb-core/src/html.rs:921-932 | The loop appends the escaped attribute value. |
| `Escaping.EscapedTextHasNoTag` | crates/mb-core/src/html.rs:903-915 | Escaped text holds no angle bracket, and is empty only for empty text. |
| `Escaping.EscapedAttrHasNoQuote` | crates/mb-core/src/html.rs:917-932 | An escaped value holds neither quotes nor angle brackets. |
| `Escaping.RunDecode` | crates/mb-core/src/html.rs:412-445 | The loop over entities computes `DecodeWith`, the doubled rest behind an unclosed `&` included. |
| `Escaping.DecodeUndoesEscape` | crates/mb-core/src/html.rs:412-445 | Decoding after escaping, as text or as an attribute, is the identity on every string. |
| `Escaping.DecodesOnceIffClosed` | crates/mb-core/src/html.rs:412-445 | Decoding writes everything exactly once if and only if every `&` has some `;` behind it; otherwise some end of the text is appended a second time. |
| `Escaping.UnclosedEntityDoubles` | crates/mb-core/src/html.rs:417-444 | `R&D` decodes to `R&DR&D`, and behind an entity that decodes the same happens to the text that follows. |
| `Entities.EntityDecodes` | crates/mb-core/src/html.rs:412-445 | A known entity between `&` and `;` becomes its character, and decoding goes on behind it. |
| `Entities.UnknownStays` | crates/mb-core/src/html.rs:412-445 | An unknown one stays. |
| `Entities.NumericEntityDecodes` | crates/mb-core/src/html.rs:432-441 | Every Unicode scalar value can be written by its number in decimal and in hexadecimal digits. |
| `Entities.NamedEntitiesDecode` | crates/mb-core/src/html.rs:422-431 | A non-breaking space becomes an ordinary one, and `apos` an apostrophe. |
| `HtmlParser.RunParseHtml` | crates/mb-core/src/html.rs:62-170 | The cursor and the stack of open elements compute `ParseHtml`. |
| `HtmlParser.ReadMarkup` | crates/mb-core/src/html.rs:76-103 | The part behind a `<`: stray brackets, comments and tags. |
| `HtmlParser.ReadTag` | crates/mb-core/src/html.rs:102-154 | The part behind a whole tag: declarations, end tags, discarded, void and open elements. |
| `HtmlParser.CloseElement` | crates/mb-core/src/html.rs:107-126 | An end tag closes down to the innermost element of its name, and nothing when there is none. |
| `HtmlMalformed.UnclosedElementsEnd` | crates/mb-core/src/html.rs:62-211 | Elements that are opened one in the other and never closed end with the page, nested as they were opened. |
| `HtmlMalformed.EndTagClosesInner` | crates/mb-core/src/html.rs:102-170 | An end tag closes what is still open inside its element. |
| `HtmlMalformed.StrayEndTag` | crates/mb-core/src/html.rs:102-170 | An end tag without a start tag changes nothing. |
| `HtmlMalformed.ScriptsAreSkipped` | crates/mb-core/src/html.rs:62-170 | Scripts, styles and templates are skipped up to their end tag, whatever their text looks like. |
| `HtmlMalformed.CommentsAreSkipped` | crates/mb-core/src/html.rs:76-103 | A comment leaves no trace, whatever stands in it. |
| `HtmlMalformed.DeclarationsAreSkipped` | crates/mb-core/src/html.rs:102-106 | Document types and other declarations leave no trace either. |
| `HtmlMalformed.VoidNeedsNoEnd` | crates/mb-core/src/html.rs:102-170 | `br`, `hr`, `img`, `input`, `wbr` and `col` have no content and need no end. |
| `HtmlMalformed.BareTagOpens` | crates/mb-core/src/html.rs:102-170 | A tag in any case opens the element of its lower-case name. |
| `HtmlMalformed.StrayBracket` | crates/mb-core/src/html.rs:76-103 | A `<` that opens no markup is text. |
| `HtmlMalformed.OtherValues` | crates/mb-core/src/html.rs:180-211 | An attribute value without quotes or in single quotes is decoded like one in double quotes. |
| `HtmlRoundTrip.AttrsReadBack` | crates/mb-core/src/html.rs:180-211 | The attribute loop reads back every attribute, bare or quoted, with its exact value. |
| `HtmlRoundTrip.ParseUndoesSerialize` | crates/mb-core/src/html.rs:62-211 | Parsing the text of properly nested elements gives back the tree: every element, attribute, value and joined text. |
| `HtmlRoundTrip.ContentKeepsText` | crates/mb-core/src/html.rs:172-178 | The text of that tree is exactly the text handed to the escaper, in order. |
| `HtmlWriter.RenderDocument` | crates/mb-core/src/html.rs:477-481 | The rendered document is the text of `RunMarkup`: every start tag has its end tag. |
| `HtmlWriter.Writer.PushBlocks` | crates/mb-core/src/html.rs:483-487 | Appends the markup of a run of blocks, a line each. |
| `HtmlWriter.Writer.PushBlock` | crates/mb-core/src/html.rs:489-551 | Appends the markup of one block. |
| `HtmlWriter.Writer.PushList` | crates/mb-core/src/html.rs:570-591 | Appends a list with its start number and task marker. |
| `HtmlWriter.Writer.PushItem` | crates/mb-core/src/html.rs:593-616 | Appends an item, with its disabled checkbox if it is a task. |
| `HtmlWriter.Writer.PushCallout` | crates/mb-core/src/html.rs:618-659 | Appends a callout: a toggle if it folds, its kind for a missing title, no body if it is empty. |
| `HtmlWriter.Writer.PushTable` | crates/mb-core/src/html.rs:661-671 | Appends a table with its head and its body. |
| `HtmlWriter.Writer.PushRow` | crates/mb-core/src/html.rs:673-697 | Appends a row, every cell aligned as its column. |
| `HtmlWriter.Writer.PushInline` | crates/mb-core/src/html.rs:705-788 | Appends the markup of one inline. |
| `HtmlWriter.Writer.PushLink` | crates/mb-core/src/html.rs:728-754 | Appends a link; an address that executes is left out and the link disabled. |
| `HtmlWriter.Writer.PushWikilink` | crates/mb-core/src/html.rs:800-851 | Appends a wikilink with its references as data attributes, or its text where links are inert. |
| `HtmlAddresses.GuardCovers` | crates/mb-core/src/html.rs:868-888 | Every address whose scheme a browser would run, after dropping blanks and control characters in front and line ends anywhere, is blocked. |
| `HtmlAddresses.GuardIsExact` | crates/mb-core/src/html.rs:868-888 | On addresses without blanks and control characters, exactly those are blocked. |
| `HtmlAddresses.SafeUrlIsSafe` | crates/mb-core/src/html.rs:868-888 | No browser runs what `safe_url` returns, and an address without blanks that no browser runs comes back unchanged. |
| `HtmlAddresses.RoutedIsSafe` | crates/mb-core/src/html.rs:853-860 | An address of a prefix and a tail without a colon runs only if the prefix alone does. |
| `HtmlAddresses.EncodedIsTame` | crates/mb-core/src/html.rs:890-903 | Percent-encoded text holds only unreserved characters and percent signs. |
| `HtmlAddresses.EncodingIsReversible` | crates/mb-core/src/html.rs:889-903 | Percent-decoding an encoded text gives its UTF-8 bytes. |
| `HtmlAddresses.Utf8IsRead` | crates/mb-core/src/html.rs:889-903 | The bytes that are encoded are those of UTF-8 (section 3 of RFC 3629): they give the character back, in the shortest form. |
| `HtmlAddresses.EncodingKeepsPaths` | crates/mb-core/src/html.rs:889-903 | Encoding leaves exactly the texts of unreserved characters and slashes alone; everything else gets longer. |
| `HtmlAddresses.WikiAddress` | crates/mb-core/src/html.rs:800-818 | Behind the route, a wikilink's address decodes to its target and, behind one `#`, to the heading or block it names. |
| `HtmlAddresses.MediaAddress` | crates/mb-core/src/html.rs:852-866 | Media with an authority of their own or a path from the root are addressed as they are, unless that would run; all others decode to their destination behind the media route. |
| `HtmlDocuments.RunIsInert` | crates/mb-core/src/html.rs:477-851 | The output holds only the known elements and attributes, and a browser runs an `href` or `src` of it only if it runs the prefix that the server chose for note or media addresses. |
| `HtmlDocuments.RenderReadsBack` | crates/mb-core/src/html.rs:477-851 | Parsing a rendered document gives exactly its elements, and as text exactly what was handed to the escaper. |
| `HtmlText.PageShowsTheNote` | crates/mb-core/src/html.rs:483-851 | The visible characters of the page that is read back are those of the note, in order. |
| `HtmlReading.PageHasTheStructure` | crates/mb-core/src/html.rs:483-851 | A reader of pages with its own table of elements finds, in the parsed page of every document, the structure of the note: marks by kind, headings by level, lists with kind and start, items with task status and a disabled box ticked when done, quotes, callouts with kind, fold and title, tables with alignments, code with language, mathematics, rules, links with target and title, wikilinks with target, anchor and embedding, images with caption, emoji, tags and footnotes, with the exact text of each and all anchors. |
| `PageText.CanonicalizingKeepsThePage` | crates/mb-core/src/canonical.rs:17-204 | The page of the canonical note shows the page of the note and the kind of every callout whose title is not empty but canonicalizes to nothing; the two are the same exactly when no such kind is visible. |
| `Frontmatter.RunSplit` | crates/mb-core/src/frontmatter.rs:40-55 | The loop over line offsets returns `Split`. |
| `Frontmatter.RunParse` | crates/mb-core/src/frontmatter.rs:64-103 | The loop over lines returns `Parse`. |
| `Frontmatter.CollectRaw` | crates/mb-core/src/frontmatter.rs:105-121 | Takes the lines up to the next key, and moves the index behind them. |
| `Frontmatter.CollectBlockList` | crates/mb-core/src/frontmatter.rs:146-156 | Takes the items of a block list, unquoted, and moves the index behind them. |
| `FrontmatterRoundTrip.RunRender` | crates/mb-core/src/frontmatter.rs:214-256 | Appending key by key returns `Render`. |
| `FrontmatterRoundTrip.RereadIffKept` | crates/mb-core/src/frontmatter.rs:178-186 | A scalar is read back unchanged exactly when it needs no quotes or holds neither a quote nor a backslash. |
| `FrontmatterRoundTrip.RereadItemsIffKept` | crates/mb-core/src/frontmatter.rs:258-261 | A list is read back unchanged exactly when every item is, and none holds a comma. |
| `FrontmatterDocument.SplitUndoesRender` | crates/mb-core/src/frontmatter.rs:40-55 | Whatever lines stand in the body, as long as none is a fence, splitting finds the body and the rest of the note again. |
| `FrontmatterDocument.ParseReadsEveryValue` | crates/mb-core/src/frontmatter.rs:64-103 | Parsing a rendered body gives every key its own value, as quoting and unquoting leave it. |
| `FrontmatterDocument.RoundTrip` | crates/mb-core/src/frontmatter.rs:40-275 | Split returns the body and the rest; parse of the body equals the frontmatter exactly when no item holds a comma and nothing that must be quoted holds a quote or a backslash. |
| `FrontmatterWritten.WrittenIsRead` | crates/mb-core/src/frontmatter.rs:64-212 | Frontmatter written by hand, in any order (block lists with any indentation, scalars bare or in quotes, verbatim blocks, blank lines) is read piece by piece as what each piece stands for. |
| `FrontmatterWritten.BlockListIsRead` | crates/mb-core/src/frontmatter.rs:138-156 | A list in block style under `tags`, `aliases` or a key of the user, among any other keys, gives exactly its items, without their dashes, blanks and quotes. |
| `FrontmatterWritten.FlowIsRead` | crates/mb-core/src/frontmatter.rs:170-186 | A list in brackets, with any blanks around its items and with quotes or without, gives exactly its items. |
| `FrontmatterWritten.ScalarIsRead` | crates/mb-core/src/frontmatter.rs:178-202 | One alias behind its key is one alias, and a scalar under a key of the user is kept without its quotes. |
| `FrontmatterWritten.FieldIsRead` | crates/mb-core/src/frontmatter.rs:188-202 | A scalar behind `id`, `created`, `updated` or `icon` becomes that field. |
| `FrontmatterWritten.TagRowIsRead` | crates/mb-core/src/frontmatter.rs:204-212 | `tags: a, b`, with commas or without, gives the tags in the row, among any other keys. |
| `FrontmatterWritten.BlockIsKept` | crates/mb-core/src/frontmatter.rs:64-144 | A block scalar, or whatever else is indented under a key, is kept line by line as it is under that key. |
| `FrontmatterWritten.LooseLinesAreKept` | crates/mb-core/src/frontmatter.rs:72-128 | Lines that belong to no key are kept together up to the next key. |
| `FrontmatterDocument.UnfencedIsText` | crates/mb-core/src/frontmatter.rs:40-62 | Text that does not open with a fence, or whose fence is never closed, has no frontmatter and is all body. |
| `Permissions.MatchesIsSegmentPrefix` | crates/mb-core/src/permissions.rs:113-123 | A rule covers a note exactly when its segments are a prefix of the note's segments. |
| `Permissions.EquallySpecificIsEqual` | crates/mb-core/src/permissions.rs:113-123 | Two rule paths that match one note with equally many segments are equal. |
| `Permissions.NewAccess` | crates/mb-core/src/permissions.rs:159-184 | Built exactly for distinct members and distinct, non-empty rules; else the error names the first duplicate member, or the first empty or repeated rule. |
| `Permissions.RunEffectiveRole` | crates/mb-core/src/permissions.rs:191-211 | The loop over rules returns `EffectiveRole`. |
| `Permissions.RoleIsEffective` | crates/mb-core/src/permissions.rs:186-211 | A matching denial is final; else the matching rule with most segments decides; else the membership. |
| `Permissions.OrderDoesNotMatter` | crates/mb-core/src/permissions.rs:186-211 | Permuting the rules changes nobody's role. |
| `Permissions.DenialIsFinal` | crates/mb-core/src/permissions.rs:186-190 | A denial on a folder holds for everything below it, whatever other rules say. |
| `AuthDb.AuthDb.constructor` | crates/mb-auth/src/lib.rs:269-274 | Opening migrates: a current signing key is made when there is none. |
| `AuthDb.AuthDb.InsertUser` | crates/mb-auth/src/lib.rs:1380-1413 | Adds one enabled account, or nothing and the first error in the order name, display name, password, duplicate. |
| `AuthDb.AuthDb.SetupFirstUser` | crates/mb-auth/src/lib.rs:311-325 | Adds an administrator to an empty table only. |
| `AuthDb.AuthDb.CreateUser` | crates/mb-auth/src/lib.rs:328-330 | Adds an account without administration. |
| `AuthDb.AuthDb.Authenticate` | crates/mb-auth/src/lib.rs:337-368 | Returns the enabled account of that name whose hash verifies. |
| `AuthDb.AuthDb.SetDisabled` | crates/mb-auth/src/lib.rs:371-386 | Sets the flag, unless that disables the last enabled administrator. |
| `AuthDb.AuthDb.SetAdmin` | crates/mb-auth/src/lib.rs:392-407 | Sets the flag, unless that demotes the last enabled administrator. |
| `AuthDb.AuthDb.ResetPassword` | crates/mb-auth/src/lib.rs:413-433 | Replaces the hash and ends every session of that user. |
| `AuthDb.AuthDb.CreateSession` | crates/mb-auth/src/lib.rs:440-475 | Adds a session under the digest of its token for an enabled user and a future expiry. |
| `AuthDb.AuthDb.AuthenticateSession` | crates/mb-auth/src/lib.rs:478-497 | Returns the enabled user of an unexpired session. |
| `AuthDb.AuthDb.RevokeSession` | crates/mb-auth/src/lib.rs:501-509 | Removes that session and no other row. |
| `AuthDb.AuthDb.CreateInvite` | crates/mb-auth/src/lib.rs:512-550 | Adds an open invitation, or the first error in the order of the checks. |
| `AuthDb.AuthDb.AcceptInvite` | crates/mb-auth/src/lib.rs:553-599 | Marks an open, unexpired invitation as accepted and adds its account, or changes nothing. |
| `AuthDb.AuthDb.IsLastEnabledAdmin` | crates/mb-auth/src/lib.rs:1347-1371 | Whether this user is the only enabled administrator. |
| `AuthDb.AuthDb.SignedSessionCookie` | crates/mb-auth/src/lib.rs:626-633 | The token, a dot and its signature under the current key. |
| `AuthDb.AuthDb.AuthenticateSignedSessionCookie` | crates/mb-auth/src/lib.rs:639-666 | The loop over all keys decides whether some key signed the token; then its session decides. |
| `AuthDb.AuthDb.RotateSessionCookieSecret` | crates/mb-auth/src/lib.rs:669-687 | Retires every key and adds a current one. |
| `AuthDb.ConstantTimeEq` | crates/mb-auth/src/lib.rs:1526-1535 | The loop that looks at every byte decides equality. |
| `AuthDb.Hex` | crates/mb-auth/src/lib.rs:1552-1559 | The loop returns two digits per byte, so 32 random bytes make a well-formed token. |
| `AuthDb.HexIsInjective` | crates/mb-auth/src/lib.rs:1552-1570 | Different byte strings of one length are written differently. |
| `AuthRuns.AnAdminRemains` | crates/mb-auth/src/lib.rs:311-407 | In every run, once an enabled administrator exists one always does. |
| `AuthRuns.SetupMakesTheAdmin` | crates/mb-auth/src/lib.rs:307-325 | Setup of an empty database leaves one account, an enabled administrator, and works once. |
| `AuthRuns.DisablingIsRefusedExactly` | crates/mb-auth/src/lib.rs:370-386 | Disabling is refused as last administrator exactly where it would leave none. |
| `AuthRuns.DemotingIsRefusedExactly` | crates/mb-auth/src/lib.rs:388-407 | Demoting is refused as last administrator exactly where it would leave none. |
| `AuthRuns.NamesAreDurable` | crates/mb-auth/src/lib.rs:1205-1217 | In every run account names stay unique, and no account is renamed or removed. |
| `AuthRuns.OneKeyIsCurrent` | crates/mb-auth/src/lib.rs:669-687 | In every run exactly one signing key is current. |
| `AuthRuns.OpenedHasOneKey` | crates/mb-auth/src/lib.rs:1317-1335 | After opening, exactly one signing key is current. |
| `AuthRuns.SecretsAreKept` | crates/mb-auth/src/lib.rs:635-687 | In every run all signing secrets stay in the table, in order. |
| `AuthRuns.AcceptedAtMostOnce` | crates/mb-auth/src/lib.rs:552-599 | In no run is an invitation accepted twice. |
| `AuthRuns.CookieOutlivesRotation` | crates/mb-auth/src/lib.rs:635-687 | A signed cookie authenticates after any run as its session does, whatever was rotated. |
| `AuthRuns.ForgedCookieIsRefused` | crates/mb-auth/src/lib.rs:622-666 | A signature that no key made authenticates nobody. |
| `AuthRuns.SessionLivesUntilEnded` | crates/mb-auth/src/lib.rs:409-509 | A session row survives a run exactly when the run neither revokes it nor resets its user's password. |
| `AuthRuns.CookieAuthenticatesExactly` | crates/mb-auth/src/lib.rs:440-687 | A cookie authenticates its user after any run exactly when the session was not ended, has not expired and the user is enabled. |
| `AuthRuns.CookieInEveryRun` | crates/mb-auth/src/lib.rs:440-687 | The same for a cookie issued at any moment of any run from a freshly opened database, whatever is rotated before and after. |
| `AuthRuns.LoginIsExact` | crates/mb-auth/src/lib.rs:332-368 | A name and a password sign in exactly the enabled account of that name whose hash verifies. |
| `AuthAccounts.AdminsAreNamed` | crates/mb-auth/src/lib.rs:311-407 | In every run, whoever administers at the end did so at the start, was made by a first-run setup that was not refused, or was named in a grant; in particular no invitation makes an administrator. |
| `AuthAccounts.SetAdminIsExact` | crates/mb-auth/src/lib.rs:392-407 | Setting the administrator flag sets it to what was asked, for that account, and changes nothing else. |
| `AuthAccounts.AccountsAreRequested` | crates/mb-auth/src/lib.rs:311-599 | In every run, each account that is new was made by an operation that was not refused, and still carries the name and display name of its request. |
| `AuthAccounts.NewAccount` | crates/mb-auth/src/lib.rs:1380-1413 | A new account stands behind all others, is enabled, carries the names of its request, and administers only if first-run setup made it. |
| `AuthAccounts.PasswordSignsIn` | crates/mb-auth/src/lib.rs:332-433 | Given that verifying accepts what hashing made, an account signs in with the password it was made or reset with, after any further run without a reset of it, exactly while it is enabled. |
| `AuthAccounts.OnlyThatPasswordSignsIn` | crates/mb-auth/src/lib.rs:332-433 | Given that verifying accepts nothing else, it signs in with no other password, such as one from before a reset. |
| `AuthAccounts.DisabledIsLockedOut` | crates/mb-auth/src/lib.rs:337-497 | A disabled account gets in with no password and no session. |
| `AuthAccounts.EnabledIsLetIn` | crates/mb-auth/src/lib.rs:371-386 | Enabled again, it gets in as before, with its sessions. |
| `AuthAccounts.SessionIsIssued` | crates/mb-auth/src/lib.rs:440-509 | A session is issued exactly for an enabled account, a future expiry and a fresh token; it is then its account's until it expires or is revoked. |
| `AuthAccounts.ResetEndsSessions` | crates/mb-auth/src/lib.rs:409-433 | A reset ends all sessions of its account and leaves all others alone. |
| `AuthAccounts.InvitationAdmitsOne` | crates/mb-auth/src/lib.rs:512-599 | An invitation keeps its vault, role and inviter, is accepted exactly before its expiry and by a request that is in order, and then refuses everybody. |
| `AuthAccounts.RotationSignsAnew` | crates/mb-auth/src/lib.rs:622-687 | Behind a rotation cookies are signed with the fresh secret, and all that were signed before are still known. |
| `EmojiCatalog.Registry.ObserveCustomEmoji` | web/src/custom-emoji.ts:44-56 | Makes and requests a missing catalog, and adds one listener to it. |
| `EmojiCatalog.Registry.RunMicrotask` | web/src/custom-emoji.ts:55-55 | Calls a listener with the entries of that moment, if it is still there. |
| `EmojiCatalog.Registry.Stop` | web/src/custom-emoji.ts:56-62 | Removes the listener; the last one aborts and forgets the catalog. |
| `EmojiCatalog.Registry.PublishCustomEmoji` | web/src/custom-emoji.ts:66-72 | Puts the entry first among the published, merges and notifies. |
| `EmojiCatalog.Registry.ReloadCustomEmoji` | web/src/custom-emoji.ts:78-83 | Drops the published entries and makes a newer request. |
| `EmojiCatalog.Registry.Load` | web/src/custom-emoji.ts:85-92 | Raises the generation and remembers it in the request. |
| `EmojiCatalog.Registry.Loaded` | web/src/custom-emoji.ts:97-100 | Merges and notifies for the newest request of a registered catalog, and does nothing otherwise. |
| `EmojiCatalog.Registry.Notify` | web/src/custom-emoji.ts:106-108 | The loop calls every listener with the catalog's entries, in order. |
| `EmojiCatalog.PublishIsMerge` | web/src/custom-emoji.ts:66-105 | Publishing onto a merged catalog is merging the same answer with the longer published list. |
| `EmojiRuns.RunHolds` | web/src/custom-emoji.ts:44-108 | In every interleaving of events from the empty registry, entries start with the published ones and hold no other of their shortcodes, and every registered catalog has a listener. |
| `EmojiRuns.LateAnswerChangesNothing` | web/src/custom-emoji.ts:97-97 | In every interleaving, an answer to a superseded request or a torn-down catalog changes nothing. |
| `EmojiRuns.ReloadSupersedes` | web/src/custom-emoji.ts:74-86 | A reload makes every earlier request of its catalog stale. |
| `EmojiRuns.TeardownSupersedes` | web/src/custom-emoji.ts:56-62 | Tearing down the last listener makes every request of its catalog stale. |
| `EmojiRuns.NewestAnswerWins` | web/src/custom-emoji.ts:17-17 | Once the newest request is answered, the entries stay that answer under the published ones until a newer request or the teardown. |
| `EmojiShown.AnswerIsShown` | web/src/custom-emoji.ts:17-108 | From the answer to the newest request on, in every run without a newer one or the teardown, an entry is shown exactly if it was published, or is in the answer and no published entry has its shortcode; the published come first, and the rest keeps the answer's order and repetitions. |
| `EmojiShown.FirstAnswerIsShown` | web/src/custom-emoji.ts:44-105 | From the empty registry, the answer to the first view's request is shown as it is, to that view. |
| `EmojiShown.UploadIsShown` | web/src/custom-emoji.ts:66-72 | An uploaded entry is shown first, all that was shown under other shortcodes stays in order, and every view of the vault is told, nobody else. |
| `EmojiShown.ReloadShowsTheAnswer` | web/src/custom-emoji.ts:74-108 | A reload makes one request, whose answer is then shown as it is to every view of the vault. |
| `EmojiShown.FurtherViewShares` | web/src/custom-emoji.ts:44-56 | A further view makes no request and is told what its vault shows. |
| `EmojiShown.OtherViewsRemain` | web/src/custom-emoji.ts:56-62 | Tearing one of several views down leaves the others, the entries and the requests alone. |
| `EmojiRuns.NoCallAfterTeardown` | web/src/custom-emoji.ts:54-57 | In every interleaving from the empty registry, no call to a listener is added behind the event that tears it down. |
| `Calendar.CivilUndoesDays` | crates/mb-core/src/task.rs:237-263 | The date of a real date's day number is that date. |
| `Calendar.DaysUndoCivil` | crates/mb-core/src/task.rs:237-263 | Every day number is that of a real date. |
| `Calendar.GregorianIsCalendar` | crates/mb-core/src/task.rs:237-282 | 1 January 1970 has number 0, the next day has the next number across months, years and leap days, and numbers and real dates correspond one to one. |
| `IsoWeeks.WeekdaysFollow` | crates/mb-core/src/task.rs:185-192 | The epoch was a Thursday, and weekdays follow each other from day to day. |
| `IsoWeeks.WeekIsItsThursdays` | crates/mb-core/src/task.rs:184-215 | The week of ISO 8601: it belongs to the year of its Thursday and is numbered by that year's Thursdays, from 1 to 53. |
| `IsoWeeks.MondayHasTheWeek` | crates/mb-core/src/task.rs:196-215 | A date and the Monday of its week have one week number. |
| `IsoWeeks.WeekIsFound` | crates/mb-core/src/task.rs:217-229 | From the year and number of a date's week, `from_iso_week` returns the Monday of that week. |
| `Daily.RunFormatDate` | crates/mb-core/src/daily.rs:144-189 | The loop over the pattern returns `FormatDate`. |
| `Daily.RunPeriodicDate` | crates/mb-core/src/daily.rs:51-85 | The loop over pattern and input returns `PeriodicDate`. |
| `Daily.TextReadsBack` | crates/mb-core/src/daily.rs:51-189 | Parsing what a pattern formats reads back the value of every directive in it and nothing else. |
| `Daily.PathReadsBack` | crates/mb-core/src/daily.rs:30-85 | Parsing the path of a date gives the date, the Monday of its week or the first of its month, for every folder and format that give a path. |
| `DailyPaths.PathIsGiven` | crates/mb-core/src/daily.rs:30-39 | In visible folders, a format that names its period and ends in `.md` gives the path that one expects, with every directive filled in; a format that does not name the period gives none. |
| `DailyPaths.PiecesAreFilled` | crates/mb-core/src/daily.rs:144-189 | Formatting fills in every directive, years with four digits and all else with two, and keeps the text between them. |
| `DailyPaths.HiddenFolderGivesNone` | crates/mb-core/src/daily.rs:128-142 | A folder with a hidden part gives no path. |
| `Daily.DistinctPeriodsDistinctPaths` | crates/mb-core/src/daily.rs:30-85 | Dates share a path only within one day, week or month. |
| `EagerChunks.RunEagerChunks` | web/perf/bundle.ts:65-87 | The worklist loop terminates, cycles included, and returns `Eager`. |
| `EagerChunks.EagerIsLeastClosed` | web/perf/bundle.ts:44-87 | If within some closed set every chunk shares its needs with those that list it as an asset, or has its needs found through chunks that do, the result is the least set with the entries that is closed under assets and static imports. |
| `EagerChunks.EagerOfLeafAssets` | web/perf/bundle.ts:65-87 | So it is where files are distinct and a chunk listed as an asset has no assets and imports nothing, as the entries a bundler writes for emitted assets. |
| `EagerChunks.EagerIsNeverTooMuch` | web/perf/bundle.ts:65-87 | For every manifest, the result is within every such closed set. |
| `EagerChunks.AssetHidesAChunk` | web/perf/bundle.ts:73-79 | A chunk that is also listed as an asset is taken for done before it is reached, and its import is missed; with the same chunks in another order, it is found. |

## Left out

- Style spans (`MbStyle`, crates/mb-core/src/style.rs): the inline trees of the model hold none, so the second settling
  after joining styled links is not modelled.
- Parsing and serializing Markdown (crates/mb-core/src/parse.rs, serialize.rs): the canonical form is modelled without them.
- The other scanners of crates/mb-core/src/syntax.rs (shortcodes, footnotes, anchors): nothing modelled here calls them.
- Tags, tasks, headings, anchored blocks, word counts and titles in crates/mb-core/src/extract.rs: plain accumulations
  beside the links and media.
- `from_html` behind the parser (crates/mb-core/src/html.rs:31-58 and 213-409): the conversion of elements to blocks.
- EscapedTextHasNoTag: says nothing of quotes in text, which the escaper leaves alone as the code does.
- ParseUndoesSerialize: is about markup with known lower-case names, every element closed; for other markup the lemmas of
  `HtmlMalformed` say what each irregularity does, one at a time.
- WrittenIsRead: is about frontmatter without lists in brackets, which `FlowIsRead` covers by themselves and `RoundTrip`
  among other keys as the program writes them, and without blank lines inside verbatim blocks.
- SafeUrlIsSafe: what a browser runs is decided by the scheme of the address alone; what a page behind an ordinary scheme
  does is outside the model.
- EagerIsLeastClosed: is one way; see the section on where the code and its words differ.
- RoundTrip: is about frontmatter whose user keys are well formed and not claimed by the parser with that kind of value,
  and which holds no line feeds and no verbatim blocks; verbatim blocks are parsed and rendered, but a block without a
  key is filed under its line number and so moves.
- NFC normalization of rule paths and note paths (crates/mb-core/src/permissions.rs:91): `Permissions.IsNotePath` takes
  text that is normalized already.
- Parsing `access.toml`, role spellings and usernames of the access list.
- API tokens, share links, share cookies and listing queries of crates/mb-auth/src/lib.rs: more tables of the kind that
  sessions and invitations show.
- SQLite failures other than a primary key that is taken, the stored spelling of a role, and creation times, which
  nothing reads back.
- The length of a token or signature that SHA-256 and the random generator produce enters as the assumption that every
  signature is a digest of 64 hexadecimal digits.
- 32-bit years of dates: day numbers and years are unbounded, except for the 64-bit range of milliseconds, which
  `checked_add_days` tests.
- PathReadsBack: is about calendar and ISO years from 0 to 9999, which four digits can write.
- In the emoji catalog: the wire validation, the lookup by alias, hydration of rendered spans, and listeners that call
  back into the registry while they are being notified.
- Measuring the bundle, walking directories, compression, and everything else of web/perf/bundle.ts around the worklist.
- The server, the command line, the Svelte client and the deployment scripts: input and output around these parts.
- The emoji table and its search, fuzzy suggestions, name folding: they would add only easy members.
