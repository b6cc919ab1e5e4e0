/**
 * What extraction finds, told from the note instead of from the walk: which references, in which blocks, and which
 * media, under which names (crates/mb-core/src/extract.rs).
 */
module Indexing {
  import opened Strings
  import opened Model
  import opened Flanking
  import opened Inlines
  import opened CanonicalBlocks
  import opened PlainText
  import opened Extract
  import HtmlReader

  // ---------------------------------------------------------------- references in the ink

  /** The wikilinks among what a note shows and refers to. */
  function WikisOf(ink: seq<Glyph>): seq<WikiLink> {
    if ink == [] then []
    else WikisOf(Init(ink)) + match Last(ink) case Atom(Wiki(w)) => [w] case _ => []
  }

  /** The destinations of its links and images. */
  function DestsOf(ink: seq<Glyph>): seq<string> {
    if ink == [] then []
    else DestsOf(Init(ink)) + match Last(ink) case LinkOpen(d, _) => [d] case Atom(Image(d, _)) => [d] case _ => []
  }

  lemma {:induction false} WikisConcat(a: seq<Glyph>, b: seq<Glyph>)
    ensures WikisOf(a + b) == WikisOf(a) + WikisOf(b) && DestsOf(a + b) == DestsOf(a) + DestsOf(b)
  {
    if b == [] {
      assert a + b == a;
    } else {
      InitOfConcat(a, b);
      WikisConcat(a, Init(b));
    }
  }

  lemma WikisOne(g: Glyph)
    ensures WikisOf([g]) == match g case Atom(Wiki(w)) => [w] case _ => []
    ensures DestsOf([g]) == match g case LinkOpen(d, _) => [d] case Atom(Image(d, _)) => [d] case _ => []
  {
    assert Init([g]) == [];
  }

  /** Characters refer to nothing. */
  lemma {:induction false} NoWikis(ink: seq<Glyph>)
    requires forall g :: g in ink ==> !g.Atom? && !g.LinkOpen?
    ensures WikisOf(ink) == [] && DestsOf(ink) == []
  {
    if ink != [] {
      NoWikis(Init(ink));
    }
  }

  /** What a link refers to, without the block it was found in. */
  function Reference(link: LinkRef): WikiLink {
    WikiLink(link.target, link.anchor, link.alias, link.embed)
  }

  function References(links: seq<LinkRef>): seq<WikiLink> {
    seq(|links|, i requires 0 <= i < |links| => Reference(links[i]))
  }

  function Dests(mentions: seq<(string, string)>): seq<string> {
    seq(|mentions|, i requires 0 <= i < |mentions| => mentions[i].0)
  }

  lemma ReferencesConcat(a: seq<LinkRef>, b: seq<LinkRef>)
    ensures References(a + b) == References(a) + References(b)
  {
  }

  lemma DestsConcat(a: seq<(string, string)>, b: seq<(string, string)>)
    ensures Dests(a + b) == Dests(a) + Dests(b)
  {
  }

  /** A part of a note, its links and its mentions agree on what it refers to. */
  predicate Agree(ink: seq<Glyph>, links: seq<LinkRef>, mentions: seq<(string, string)>) {
    References(links) == WikisOf(ink) && Dests(mentions) == DestsOf(ink)
  }

  lemma AgreeConcat(ink: seq<Glyph>, links: seq<LinkRef>, mentions: seq<(string, string)>,
                    ink': seq<Glyph>, links': seq<LinkRef>, mentions': seq<(string, string)>)
    requires Agree(ink, links, mentions) && Agree(ink', links', mentions')
    ensures Agree(ink + ink', links + links', mentions + mentions')
  {
    WikisConcat(ink, ink');
    ReferencesConcat(links, links');
    DestsConcat(mentions, mentions');
  }

  lemma AgreeNothing(ink: seq<Glyph>)
    requires forall g :: g in ink ==> !g.Atom? && !g.LinkOpen?
    ensures Agree(ink, [], [])
  {
    NoWikis(ink);
  }

  lemma AgreeOne(g: Glyph, links: seq<LinkRef>, mentions: seq<(string, string)>)
    requires References(links) == match g case Atom(Wiki(w)) => [w] case _ => []
    requires Dests(mentions) == match g case LinkOpen(d, _) => [d] case Atom(Image(d, _)) => [d] case _ => []
    ensures Agree([g], links, mentions)
  {
    WikisOne(g);
  }

  lemma {:induction false} RunAgrees(items: seq<Inline>, anchor: Option<string>, text: Option<string>)
    ensures Agree(InkAll(items), LinksIn(items, anchor, text), Mentions(items))
    decreases items
  {
    if items == [] {
      AgreeNothing([]);
    } else {
      var init, last := Init(items), Last(items);
      RunAgrees(init, anchor, text);
      ItemAgrees(last, anchor, text);
      AgreeConcat(InkAll(init), LinksIn(init, anchor, text), Mentions(init),
                  Ink(last), InlineLinks(last, anchor, text), InlineMentions(last));
    }
  }

  lemma LinkAgrees(d: string, t: Option<string>, name: string, ink: seq<Glyph>, links: seq<LinkRef>, mentions: seq<(string, string)>)
    requires Agree(ink, links, mentions)
    ensures Agree([LinkOpen(d, t)] + ink + [LinkClose], links, [(d, name)] + mentions)
  {
    AgreeOne(LinkOpen(d, t), [], [(d, name)]);
    AgreeConcat([LinkOpen(d, t)], [], [(d, name)], ink, links, mentions);
    AgreeNothing([LinkClose]);
    AgreeConcat([LinkOpen(d, t)] + ink, [] + links, [(d, name)] + mentions, [LinkClose], [], []);
    assert [] + links + [] == links && [(d, name)] + mentions + [] == [(d, name)] + mentions;
  }

  lemma {:induction false} ItemAgrees(item: Inline, anchor: Option<string>, text: Option<string>)
    ensures Agree(Ink(item), InlineLinks(item, anchor, text), InlineMentions(item))
    decreases item
  {
    match item
    case Mark(_, c) => RunAgrees(c, anchor, text);
    case Link(d, t, c) =>
      RunAgrees(c, anchor, text);
      LinkAgrees(d, t, PlainText.Plain(c), InkAll(c), LinksIn(c, anchor, text), Mentions(c));
    case Text(_) => AgreeNothing(Ink(item));
    case Code(_) => AgreeNothing(Ink(item));
    case Math(_) => AgreeNothing(Ink(item));
    case Tag(_) => AgreeNothing(Ink(item));
    case SoftBreak => AgreeNothing(Ink(item));
    case HardBreak => AgreeNothing(Ink(item));
    case _ => AgreeOne(Atom(item), InlineLinks(item, anchor, text), InlineMentions(item));
  }

  lemma {:induction false} RowAgrees(cells: seq<seq<Inline>>, anchor: Option<string>, text: Option<string>)
    ensures Agree(RowInk(cells), CellsLinks(cells, anchor, text), CellsMentions(cells))
  {
    if cells == [] {
      AgreeNothing([]);
    } else {
      var init, last := Init(cells), Last(cells);
      RowAgrees(init, anchor, text);
      RunAgrees(last, anchor, text);
      AgreeConcat(RowInk(init), CellsLinks(init, anchor, text), CellsMentions(init),
                  InkAll(last), LinksIn(last, anchor, text), Mentions(last));
    }
  }

  lemma {:induction false} RowInkConcat(a: seq<seq<Inline>>, b: seq<seq<Inline>>)
    ensures RowInk(a + b) == RowInk(a) + RowInk(b)
  {
    if b == [] {
      assert a + b == a;
    } else {
      InitOfConcat(a, b);
      RowInkConcat(a, Init(b));
      Associate(RowInk(a), RowInk(Init(b)), InkAll(Last(b)));
    }
  }

  lemma {:induction false} RowsAreCells(rows: seq<seq<seq<Inline>>>)
    ensures RowsInk(rows) == RowInk(Extract.Flatten(rows))
  {
    if rows != [] {
      RowsAreCells(Init(rows));
      RowInkConcat(Extract.Flatten(Init(rows)), Last(rows));
    }
  }

  lemma TableAgrees(t: Table, anchor: Option<string>, text: Option<string>)
    ensures Agree(TableInk(t), CellsLinks(Extract.Cells(t), anchor, text), CellsMentions(Extract.Cells(t)))
  {
    RowsAreCells(t.rows);
    RowInkConcat(t.head, Extract.Flatten(t.rows));
    RowAgrees(Extract.Cells(t), anchor, text);
  }

  lemma {:induction false} BlockAgrees(b: Block)
    ensures Agree(BlockInk(b), BlockLinks(b), BlockMentions(b))
    decreases b
  {
    var text := Some(BlockText(b));
    match b.kind
    case Paragraph(c) => RunAgrees(c, b.anchor, text);
    case Heading(_, c) => RunAgrees(c, b.anchor, text);
    case List(_, _, items) => ItemsAgree(items);
    case Blockquote(inner) => BlocksAgree(inner);
    case Callout(_, _, title, body) =>
      RunAgrees(title, b.anchor, text);
      BlocksAgree(body);
      AgreeConcat(InkAll(title), LinksIn(title, b.anchor, text), Mentions(title), RunInk(body), RunLinks(body), RunMentions(body));
    case TableBlock(t) => TableAgrees(t, b.anchor, text);
    case CodeBlock(_, _) => AgreeNothing(BlockInk(b));
    case MathBlock(_) => AgreeNothing(BlockInk(b));
    case Divider => AgreeNothing([]);
  }

  lemma {:induction false} BlocksAgree(blocks: seq<Block>)
    ensures Agree(RunInk(blocks), RunLinks(blocks), RunMentions(blocks))
    decreases blocks
  {
    if blocks == [] {
      AgreeNothing([]);
    } else {
      var init, last := Init(blocks), Last(blocks);
      BlocksAgree(init);
      BlockAgrees(last);
      AgreeConcat(RunInk(init), RunLinks(init), RunMentions(init), BlockInk(last), BlockLinks(last), BlockMentions(last));
    }
  }

  lemma {:induction false} ItemsAgree(items: seq<ListItem>)
    ensures Agree(ItemsInk(items), ItemsLinks(items), ItemsMentions(items))
    decreases items
  {
    if items == [] {
      AgreeNothing([]);
    } else {
      var init, last := Init(items), Last(items).content;
      ItemsAgree(init);
      BlocksAgree(last);
      AgreeConcat(ItemsInk(init), ItemsLinks(init), ItemsMentions(init), RunInk(last), RunLinks(last), RunMentions(last));
    }
  }

  /** Extraction finds every wikilink of a note, as it stands there and in its order, and so do the mentions of media. */
  lemma ReferencesAreFound(blocks: seq<Block>)
    ensures References(RunLinks(blocks)) == WikisOf(RunInk(blocks))
    ensures Dests(RunMentions(blocks)) == DestsOf(RunInk(blocks))
  {
    BlocksAgree(blocks);
  }

  lemma {:induction false} PathsFollowDests(a: seq<(string, string)>, b: seq<(string, string)>)
    requires Dests(a) == Dests(b)
    ensures Paths(RecordAll([], a)) == Paths(RecordAll([], b))
    decreases |a|
  {
    assert |a| == |Dests(a)| == |Dests(b)| == |b|;
    if a != [] {
      assert Dests(Init(a)) == Init(Dests(a)) && Dests(Init(b)) == Init(Dests(b));
      PathsFollowDests(Init(a), Init(b));
      assert Last(a).0 == Last(Dests(a)) && Last(b).0 == Last(Dests(b));
      OnePathMore(RecordAll([], Init(a)), RecordAll([], Init(b)), Last(a), Last(b));
    }
  }

  lemma KnownIsInPaths(refs: seq<MediaRef>, path: string)
    ensures Known(refs, path) <==> path in Paths(refs)
  {
    if path in Paths(refs) {
      var i :| 0 <= i < |refs| && Paths(refs)[i] == path;
      assert refs[i].path == path;
    }
    if Known(refs, path) {
      var i :| 0 <= i < |refs| && refs[i].path == path;
      assert Paths(refs)[i] == path;
    }
  }

  lemma OnePathMore(a: seq<MediaRef>, b: seq<MediaRef>, m: (string, string), n: (string, string))
    requires Paths(a) == Paths(b) && m.0 == n.0
    ensures Paths(Record(a, m)) == Paths(Record(b, n))
  {
    if MediaPath(m.0).Some? {
      var path := MediaPath(m.0).value;
      KnownIsInPaths(a, path);
      KnownIsInPaths(b, path);
      assert Paths(a + [MediaRef(path, m.1)]) == Paths(a) + [path];
      assert Paths(b + [MediaRef(path, n.1)]) == Paths(b) + [path];
    }
  }

  /** Canonicalizing a note changes neither the links that are extracted from it nor the media it uses. */
  lemma CanonicalKeepsReferences(u: Classifier, blocks: seq<Block>)
    ensures References(RunLinks(CanonicalRun(u, blocks))) == References(RunLinks(blocks))
    ensures Paths(RecordAll([], RunMentions(CanonicalRun(u, blocks)))) == Paths(RecordAll([], RunMentions(blocks)))
  {
    DocumentKeepsInk(u, blocks);
    ReferencesAreFound(blocks);
    ReferencesAreFound(CanonicalRun(u, blocks));
    PathsFollowDests(RunMentions(CanonicalRun(u, blocks)), RunMentions(blocks));
  }

  // ---------------------------------------------------------------- the block of a reference

  /** A run of inlines and the innermost block it stands in. */
  datatype Leaf = Leaf(block: Block, run: seq<Inline>)

  function Leaves(blocks: seq<Block>): seq<Leaf>
    decreases blocks
  {
    if blocks == [] then [] else LeavesOf(blocks[0]) + Leaves(blocks[1..])
  }

  function LeavesOf(b: Block): seq<Leaf>
    decreases b
  {
    match b.kind
    case Paragraph(c) => [Leaf(b, c)]
    case Heading(_, c) => [Leaf(b, c)]
    case List(_, _, items) => ItemLeaves(items)
    case Blockquote(inner) => Leaves(inner)
    case Callout(_, _, title, body) => [Leaf(b, title)] + Leaves(body)
    case TableBlock(t) => CellLeaves(b, t.head) + RowLeaves(b, t.rows)
    case _ => []
  }

  function ItemLeaves(items: seq<ListItem>): seq<Leaf>
    decreases items
  {
    if items == [] then [] else Leaves(items[0].content) + ItemLeaves(items[1..])
  }

  function CellLeaves(b: Block, cells: seq<seq<Inline>>): seq<Leaf> {
    if cells == [] then [] else [Leaf(b, cells[0])] + CellLeaves(b, cells[1..])
  }

  function RowLeaves(b: Block, rows: seq<seq<seq<Inline>>>): seq<Leaf> {
    if rows == [] then [] else CellLeaves(b, rows[0]) + RowLeaves(b, rows[1..])
  }

  /** A reference that knows its block: the block's anchor, and what a reader sees of the block. */
  function Found(w: WikiLink, b: Block): LinkRef {
    LinkRef(w.target, w.anchor, w.alias, w.embed, b.anchor, Some(BlockText(b)))
  }

  function FoundAll(wikis: seq<WikiLink>, b: Block): seq<LinkRef> {
    seq(|wikis|, i requires 0 <= i < |wikis| => Found(wikis[i], b))
  }

  function FoundIn(leaves: seq<Leaf>): seq<LinkRef> {
    if leaves == [] then [] else FoundAll(WikisOf(InkAll(leaves[0].run)), leaves[0].block) + FoundIn(leaves[1..])
  }

  lemma {:induction false} FoundConcat(a: seq<Leaf>, b: seq<Leaf>)
    ensures FoundIn(a + b) == FoundIn(a) + FoundIn(b)
    decreases |a|
  {
    if a == [] {
      assert a + b == b;
    } else {
      TailOfConcat(a, b);
      FoundConcat(a[1..], b);
      Associate(FoundAll(WikisOf(InkAll(a[0].run)), a[0].block), FoundIn(a[1..]), FoundIn(b));
    }
  }

  lemma FoundOne(leaf: Leaf)
    ensures FoundIn([leaf]) == LinksIn(leaf.run, leaf.block.anchor, Some(BlockText(leaf.block)))
  {
    var b := leaf.block;
    var links := LinksIn(leaf.run, b.anchor, Some(BlockText(b)));
    RunAgrees(leaf.run, b.anchor, Some(BlockText(b)));
    LinksKnow(leaf.run, b.anchor, Some(BlockText(b)));
    var found := FoundAll(WikisOf(InkAll(leaf.run)), b);
    assert |found| == |References(links)| == |links|;
    forall i | 0 <= i < |links| ensures found[i] == links[i] {
      assert References(links)[i] == Reference(links[i]);
    }
    assert FoundIn([leaf][1..]) == [] && found + [] == found && found == links;
  }

  lemma {:induction false} LinksKnow(items: seq<Inline>, anchor: Option<string>, text: Option<string>)
    ensures forall l :: l in LinksIn(items, anchor, text) ==> l.sourceBlock == anchor && l.context == text
    decreases items
  {
    if items != [] {
      LinksKnow(Init(items), anchor, text);
      match Last(items)
      case Mark(_, c) => LinksKnow(c, anchor, text);
      case Link(_, _, c) => LinksKnow(c, anchor, text);
      case _ =>
    }
  }

  lemma {:induction false} LeavesSnoc(blocks: seq<Block>, b: Block)
    ensures Leaves(blocks + [b]) == Leaves(blocks) + LeavesOf(b)
    decreases |blocks|
  {
    if blocks == [] {
      assert [] + [b] == [b] && [b][1..] == [] && LeavesOf(b) + [] == LeavesOf(b);
    } else {
      TailOfConcat(blocks, [b]);
      LeavesSnoc(blocks[1..], b);
      Associate(LeavesOf(blocks[0]), Leaves(blocks[1..]), LeavesOf(b));
    }
  }

  lemma {:induction false} ItemLeavesSnoc(items: seq<ListItem>, item: ListItem)
    ensures ItemLeaves(items + [item]) == ItemLeaves(items) + Leaves(item.content)
    decreases |items|
  {
    if items == [] {
      assert [] + [item] == [item] && [item][1..] == [] && Leaves(item.content) + [] == Leaves(item.content);
    } else {
      TailOfConcat(items, [item]);
      ItemLeavesSnoc(items[1..], item);
      Associate(Leaves(items[0].content), ItemLeaves(items[1..]), Leaves(item.content));
    }
  }

  lemma {:induction false} CellLeavesConcat(b: Block, a: seq<seq<Inline>>, c: seq<seq<Inline>>)
    ensures CellLeaves(b, a + c) == CellLeaves(b, a) + CellLeaves(b, c)
    decreases |a|
  {
    if a == [] {
      assert a + c == c;
    } else {
      TailOfConcat(a, c);
      CellLeavesConcat(b, a[1..], c);
      Associate([Leaf(b, a[0])], CellLeaves(b, a[1..]), CellLeaves(b, c));
    }
  }

  lemma {:induction false} FlattenUnfold(rows: seq<seq<seq<Inline>>>)
    requires rows != []
    ensures Extract.Flatten(rows) == rows[0] + Extract.Flatten(rows[1..])
    decreases |rows|
  {
    if |rows| == 1 {
      assert rows[1..] == [] && Init(rows) == [] && [] + rows[0] == rows[0] && rows[0] + [] == rows[0];
    } else {
      FlattenUnfold(Init(rows));
      assert Init(rows)[1..] == Init(rows[1..]) && Last(rows[1..]) == Last(rows);
      Associate(rows[0], Extract.Flatten(Init(rows[1..])), Last(rows));
    }
  }

  lemma {:induction false} RowLeavesAreCells(b: Block, rows: seq<seq<seq<Inline>>>)
    ensures RowLeaves(b, rows) == CellLeaves(b, Extract.Flatten(rows))
  {
    if rows != [] {
      RowLeavesAreCells(b, rows[1..]);
      FlattenUnfold(rows);
      CellLeavesConcat(b, rows[0], Extract.Flatten(rows[1..]));
    }
  }

  lemma {:induction false} CellsFound(b: Block, cells: seq<seq<Inline>>)
    ensures CellsLinks(cells, b.anchor, Some(BlockText(b))) == FoundIn(CellLeaves(b, cells))
  {
    if cells != [] {
      var init, last := Init(cells), Last(cells);
      CellsFound(b, init);
      InitLast(cells);
      CellLeavesConcat(b, init, [last]);
      FoundConcat(CellLeaves(b, init), CellLeaves(b, [last]));
      assert CellLeaves(b, [last]) == [Leaf(b, last)];
      FoundOne(Leaf(b, last));
    }
  }

  lemma {:induction false} BlockFound(b: Block)
    ensures BlockLinks(b) == FoundIn(LeavesOf(b))
    decreases b
  {
    match b.kind
    case Paragraph(c) => FoundOne(Leaf(b, c));
    case Heading(_, c) => FoundOne(Leaf(b, c));
    case List(_, _, items) => ItemsFound(items);
    case Blockquote(inner) => LinksKnowTheirBlock(inner);
    case Callout(_, _, title, body) =>
      LinksKnowTheirBlock(body);
      FoundConcat([Leaf(b, title)], Leaves(body));
      FoundOne(Leaf(b, title));
    case TableBlock(t) =>
      RowLeavesAreCells(b, t.rows);
      CellLeavesConcat(b, t.head, Extract.Flatten(t.rows));
      CellsFound(b, Extract.Cells(t));
    case _ =>
  }

  /** Every extracted link knows the innermost block around it, by its anchor and its text. */
  lemma {:induction false} LinksKnowTheirBlock(blocks: seq<Block>)
    ensures RunLinks(blocks) == FoundIn(Leaves(blocks))
    decreases blocks
  {
    if blocks != [] {
      var init, last := Init(blocks), Last(blocks);
      LinksKnowTheirBlock(init);
      BlockFound(last);
      InitLast(blocks);
      LeavesSnoc(init, last);
      FoundConcat(Leaves(init), LeavesOf(last));
    }
  }

  lemma {:induction false} ItemsFound(items: seq<ListItem>)
    ensures ItemsLinks(items) == FoundIn(ItemLeaves(items))
    decreases items
  {
    if items != [] {
      var init, last := Init(items), Last(items);
      ItemsFound(init);
      LinksKnowTheirBlock(last.content);
      InitLast(items);
      ItemLeavesSnoc(init, last);
      FoundConcat(ItemLeaves(init), Leaves(last.content));
    }
  }

  // ---------------------------------------------------------------- media and their names

  lemma PlainPath(path: string)
    requires "media/" <= path
    ensures MediaPath(path) == Some(path) && MediaPath("./" + path) == Some(path)
  {
    var dotted := "./" + path;
    assert path[0] == 'm' && !("./" <= path) && DropDotSlash(path) == path;
    assert dotted[2..] == path && "./media/" <= dotted;
  }

  /** A path in the media folder, written from the vault's root. */
  lemma MediaPathIs(dest: string, path: string)
    ensures MediaPath(dest) == Some(path) <==> "media/" <= path && (dest == path || dest == "./" + path)
  {
    if "./media/" <= dest {
      var rest := dest[2..];
      assert dest == "./" + rest && "media/" <= rest;
      PlainPath(rest);
    } else if "media/" <= dest {
      PlainPath(dest);
    }
    if "media/" <= path {
      PlainPath(path);
    }
  }

  lemma {:induction false} MentionsConcat(a: seq<Inline>, b: seq<Inline>)
    ensures Mentions(a + b) == Mentions(a) + Mentions(b)
  {
    if b == [] {
      assert a + b == a;
    } else {
      InitOfConcat(a, b);
      MentionsConcat(a, Init(b));
      Associate(Mentions(a), Mentions(Init(b)), InlineMentions(Last(b)));
    }
  }

  lemma {:induction false} RunMentionsConcat(a: seq<Block>, b: seq<Block>)
    ensures RunMentions(a + b) == RunMentions(a) + RunMentions(b)
  {
    if b == [] {
      assert a + b == a;
    } else {
      InitOfConcat(a, b);
      RunMentionsConcat(a, Init(b));
      Associate(RunMentions(a), RunMentions(Init(b)), BlockMentions(Last(b)));
    }
  }

  /** The first mention of a path names it. */
  lemma NamedByTheFirst(front: seq<(string, string)>, dest: string, name: string, back: seq<(string, string)>, path: string)
    requires MediaPath(dest) == Some(path) && !Mentioned(front, path)
    ensures MediaRef(path, name) in RecordAll([], front + ([(dest, name)] + back))
  {
    var all := front + ([(dest, name)] + back);
    assert all[|front|] == (dest, name);
    assert forall j :: 0 <= j < |front| ==> all[j] == front[j] && MediaPath(all[j].0) != Some(path);
    RecordedMedia(all);
    var refs := RecordAll([], all);
    assert Mentioned(all, path);
    var i :| 0 <= i < |refs| && refs[i].path == path;
    assert refs[i] in refs;
    var k: nat :| FirstMention(all, refs[i], k);
  }

  /** A picture in the media folder, or a link into it, with a caption. */
  function Captioned(picture: bool, dest: string, title: Option<string>, caption: string): Inline {
    if picture then Image(dest, caption) else Link(dest, title, [Text(caption)])
  }

  lemma TextIsItself(caption: string)
    ensures PlainText.Plain([Text(caption)]) == caption && Mentions([Text(caption)]) == []
  {
    assert Init([Text(caption)]) == [];
    assert PlainText.Plain([]) == "" && "" + caption == caption;
    assert Mentions([]) == [] && InlineMentions(Text(caption)) == [];
  }

  lemma CaptionIsTheName(picture: bool, dest: string, title: Option<string>, caption: string)
    ensures Mentions([Captioned(picture, dest, title, caption)]) == [(dest, caption)]
  {
    var item := Captioned(picture, dest, title, caption);
    assert Init([item]) == [] && Mentions([]) == [];
    TextIsItself(caption);
    assert InlineMentions(item) == [(dest, caption)];
  }

  lemma ParagraphMentions(front: seq<Block>, run: seq<Inline>, anchor: Option<string>, back: seq<Block>)
    ensures RunMentions(front + [Block(Paragraph(run), anchor)] + back) == RunMentions(front) + Mentions(run) + RunMentions(back)
  {
    var b := Block(Paragraph(run), anchor);
    RunMentionsConcat(front + [b], back);
    SnocInit(front, b);
  }

  lemma RunWith(before: seq<Inline>, item: Inline, after: seq<Inline>)
    ensures Mentions(before + [item] + after) == Mentions(before) + (Mentions([item]) + Mentions(after))
  {
    MentionsConcat(before + [item], after);
    MentionsConcat(before, [item]);
    Associate(Mentions(before), Mentions([item]), Mentions(after));
  }

  lemma Regrouped<T>(a: seq<T>, b: seq<T>, x: seq<T>, c: seq<T>, d: seq<T>)
    ensures a + (b + (x + c)) + d == (a + b) + (x + (c + d))
  {
    Associate(a, b, x + c);
    Associate(a + b, x + c, d);
    Associate(x, c, d);
  }

  /** Media used in a paragraph are recorded under their path and the first caption that a note gives them. */
  lemma MediaIsRecorded(front: seq<Block>, before: seq<Inline>, picture: bool, dest: string, title: Option<string>, caption: string,
                        after: seq<Inline>, anchor: Option<string>, back: seq<Block>, path: string)
    requires "media/" <= path && (dest == path || dest == "./" + path)
    requires !Mentioned(RunMentions(front) + Mentions(before), path)
    ensures var run := before + [Captioned(picture, dest, title, caption)] + after;
      MediaRef(path, caption) in RecordAll([], RunMentions(front + [Block(Paragraph(run), anchor)] + back))
  {
    var item := Captioned(picture, dest, title, caption);
    MediaPathIs(dest, path);
    CaptionIsTheName(picture, dest, title, caption);
    ParagraphMentions(front, before + [item] + after, anchor, back);
    RunWith(before, item, after);
    Regrouped(RunMentions(front), Mentions(before), [(dest, caption)], Mentions(after), RunMentions(back));
    NamedByTheFirst(RunMentions(front) + Mentions(before), dest, caption, Mentions(after) + RunMentions(back), path);
  }

  // ---------------------------------------------------------------- the text of the index and of the page

  /** What the index reads otherwise than the page shows: breaks as blanks, pictures as their captions, no footnotes. */
  function Indexed(items: seq<Inline>): seq<Inline>
    decreases items
  {
    if items == [] then [] else Indexed(Init(items)) + [IndexedItem(Last(items))]
  }

  function IndexedItem(item: Inline): Inline
    decreases item
  {
    match item
    case SoftBreak => Text(" ")
    case HardBreak => Text(" ")
    case Image(_, alt) => Text(alt)
    case FootnoteRef(_) => Text("")
    case Mark(k, c) => Mark(k, Indexed(c))
    case Link(d, t, c) => Link(d, t, Indexed(c))
    case _ => item
  }

  lemma {:induction false} RunTextSnoc(items: seq<Inline>, item: Inline)
    ensures HtmlReader.RunText(items + [item]) == HtmlReader.RunText(items) + HtmlReader.ItemText(item)
    decreases |items|
  {
    if items == [] {
      assert [] + [item] == [item] && [item][1..] == [] && HtmlReader.ItemText(item) + "" == HtmlReader.ItemText(item);
    } else {
      TailOfConcat(items, [item]);
      RunTextSnoc(items[1..], item);
      Associate(HtmlReader.ItemText(items[0]), HtmlReader.RunText(items[1..]), HtmlReader.ItemText(item));
    }
  }

  /** But for that, the index reads exactly the text that stands on the page. */
  lemma {:induction false} IndexReadsThePage(items: seq<Inline>)
    ensures PlainText.Plain(items) == HtmlReader.RunText(Indexed(items))
    decreases items
  {
    if items != [] {
      var item := Last(items);
      IndexReadsThePage(Init(items));
      RunTextSnoc(Indexed(Init(items)), IndexedItem(item));
      match item
      case Mark(_, c) => IndexReadsThePage(c);
      case Link(_, _, c) => IndexReadsThePage(c);
      case _ =>
    }
  }
}
