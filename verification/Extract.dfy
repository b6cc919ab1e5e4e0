/** Link and media extraction (`walk_blocks`, `attribute`, `walk_inlines` and `record_media` in crates/mb-core/src/extract.rs). */
module Extract {
  import opened Strings
  import opened Model
  import opened Inlines
  import opened PlainText

  datatype LinkRef = LinkRef(target: string, anchor: Option<Anchor>, alias: Option<string>, embed: bool,
                             sourceBlock: Option<string>, context: Option<string>)

  datatype MediaRef = MediaRef(path: string, originalName: string)

  // ---------------------------------------------------------------- what the links should be

  /** A link knows its block: the anchor and the visible text handed down to it. */
  function LinkIn(w: WikiLink, anchor: Option<string>, text: Option<string>): LinkRef {
    LinkRef(w.target, w.anchor, w.alias, w.embed, anchor, text)
  }

  /** The links of a run of inlines, in document order, given the block around them. */
  function LinksIn(items: seq<Inline>, anchor: Option<string>, text: Option<string>): seq<LinkRef>
    decreases items
  {
    if items == [] then [] else LinksIn(Init(items), anchor, text) + InlineLinks(Last(items), anchor, text)
  }

  function InlineLinks(item: Inline, anchor: Option<string>, text: Option<string>): seq<LinkRef>
    decreases item
  {
    match item
    case Wiki(w) => [LinkIn(w, anchor, text)]
    case Mark(_, c) => LinksIn(c, anchor, text)
    case Link(_, _, c) => LinksIn(c, anchor, text)
    case _ => []
  }

  function CellsLinks(cells: seq<seq<Inline>>, anchor: Option<string>, text: Option<string>): seq<LinkRef> {
    if cells == [] then [] else CellsLinks(Init(cells), anchor, text) + LinksIn(Last(cells), anchor, text)
  }

  /** A table's cells in reading order. */
  function Cells(t: Table): seq<seq<Inline>> {
    t.head + Flatten(t.rows)
  }

  function Flatten<T>(rows: seq<seq<T>>): seq<T> {
    if rows == [] then [] else Flatten(Init(rows)) + Last(rows)
  }

  /** Top-down: a block hands its own anchor and text to the links directly in it, and its children do the same. */
  function BlockLinks(b: Block): seq<LinkRef>
    decreases b
  {
    var text := Some(BlockText(b));
    match b.kind
    case Paragraph(c) => LinksIn(c, b.anchor, text)
    case Heading(_, c) => LinksIn(c, b.anchor, text)
    case List(_, _, items) => ItemsLinks(items)
    case Blockquote(inner) => RunLinks(inner)
    case Callout(_, _, title, body) => LinksIn(title, b.anchor, text) + RunLinks(body)
    case TableBlock(t) => CellsLinks(Cells(t), b.anchor, text)
    case _ => []
  }

  function RunLinks(blocks: seq<Block>): seq<LinkRef>
    decreases blocks
  {
    if blocks == [] then [] else RunLinks(Init(blocks)) + BlockLinks(Last(blocks))
  }

  function ItemsLinks(items: seq<ListItem>): seq<LinkRef>
    decreases items
  {
    if items == [] then [] else ItemsLinks(Init(items)) + RunLinks(Last(items).content)
  }

  // ---------------------------------------------------------------- back-patching

  /** `attribute` on one link: a link that already has a context keeps it. */
  function PatchOne(link: LinkRef, b: Block): LinkRef {
    if link.context == None then link.(sourceBlock := b.anchor, context := Some(BlockText(b))) else link
  }

  function Patch(links: seq<LinkRef>, b: Block): seq<LinkRef> {
    seq(|links|, i requires 0 <= i < |links| => PatchOne(links[i], b))
  }

  predicate Attributed(links: seq<LinkRef>) {
    forall i :: 0 <= i < |links| ==> links[i].context.Some?
  }

  lemma PatchConcat(a: seq<LinkRef>, c: seq<LinkRef>, b: Block)
    ensures Patch(a + c, b) == Patch(a, b) + Patch(c, b)
  {
  }

  lemma PatchAttributed(links: seq<LinkRef>, b: Block)
    requires Attributed(links)
    ensures Patch(links, b) == links
  {
  }

  /** Patching the links a block left open gives them what top-down extraction would have handed down. */
  lemma {:induction false} PatchRaw(items: seq<Inline>, b: Block)
    ensures Patch(LinksIn(items, None, None), b) == LinksIn(items, b.anchor, Some(BlockText(b)))
    decreases items
  {
    if items != [] {
      PatchRaw(Init(items), b);
      PatchConcat(LinksIn(Init(items), None, None), InlineLinks(Last(items), None, None), b);
      match Last(items)
      case Mark(_, c) => PatchRaw(c, b);
      case Link(_, _, c) => PatchRaw(c, b);
      case _ =>
    }
  }

  lemma {:induction false} PatchRawCells(cells: seq<seq<Inline>>, b: Block)
    ensures Patch(CellsLinks(cells, None, None), b) == CellsLinks(cells, b.anchor, Some(BlockText(b)))
  {
    if cells != [] {
      PatchRawCells(Init(cells), b);
      PatchRaw(Last(cells), b);
      PatchConcat(CellsLinks(Init(cells), None, None), LinksIn(Last(cells), None, None), b);
    }
  }

  lemma {:induction false} LinksInAttributed(items: seq<Inline>, anchor: Option<string>, text: string)
    ensures Attributed(LinksIn(items, anchor, Some(text)))
    decreases items
  {
    if items != [] {
      LinksInAttributed(Init(items), anchor, text);
      match Last(items)
      case Mark(_, c) => LinksInAttributed(c, anchor, text);
      case Link(_, _, c) => LinksInAttributed(c, anchor, text);
      case _ =>
    }
  }

  lemma {:induction false} CellsLinksAttributed(cells: seq<seq<Inline>>, anchor: Option<string>, text: string)
    ensures Attributed(CellsLinks(cells, anchor, Some(text)))
  {
    if cells != [] {
      CellsLinksAttributed(Init(cells), anchor, text);
      LinksInAttributed(Last(cells), anchor, text);
    }
  }

  /** Every extracted link has a context. */
  lemma {:induction false} RunLinksAttributed(blocks: seq<Block>)
    ensures Attributed(RunLinks(blocks))
    decreases blocks
  {
    if blocks != [] {
      RunLinksAttributed(Init(blocks));
      BlockLinksAttributed(Last(blocks));
    }
  }

  lemma {:induction false} BlockLinksAttributed(b: Block)
    ensures Attributed(BlockLinks(b))
    decreases b
  {
    match b.kind
    case Paragraph(c) => LinksInAttributed(c, b.anchor, BlockText(b));
    case Heading(_, c) => LinksInAttributed(c, b.anchor, BlockText(b));
    case List(_, _, items) => ItemsLinksAttributed(items);
    case Blockquote(inner) => RunLinksAttributed(inner);
    case Callout(_, _, title, body) => LinksInAttributed(title, b.anchor, BlockText(b)); RunLinksAttributed(body);
    case TableBlock(t) => CellsLinksAttributed(Cells(t), b.anchor, BlockText(b));
    case _ =>
  }

  lemma {:induction false} ItemsLinksAttributed(items: seq<ListItem>)
    ensures Attributed(ItemsLinks(items))
    decreases items
  {
    if items != [] {
      ItemsLinksAttributed(Init(items));
      RunLinksAttributed(Last(items).content);
    }
  }

  // ---------------------------------------------------------------- media

  /** A destination inside the vault's media folder, as an object path. */
  function MediaPath(dest: string): Option<string> {
    if "media/" <= dest || "./media/" <= dest then Some(DropDotSlash(dest)) else None
  }

  /** `trim_start_matches("./")`. */
  function DropDotSlash(dest: string): string {
    if "./" <= dest then DropDotSlash(dest[2..]) else dest
  }

  predicate Known(refs: seq<MediaRef>, path: string) {
    exists i :: 0 <= i < |refs| && refs[i].path == path
  }

  /** `record_media`: the first mention of a path is the one that names it. */
  function Record(refs: seq<MediaRef>, mention: (string, string)): seq<MediaRef> {
    match MediaPath(mention.0)
    case None => refs
    case Some(path) => if Known(refs, path) then refs else refs + [MediaRef(path, mention.1)]
  }

  function RecordAll(refs: seq<MediaRef>, mentions: seq<(string, string)>): seq<MediaRef> {
    if mentions == [] then refs else Record(RecordAll(refs, Init(mentions)), Last(mentions))
  }

  lemma {:induction false} RecordAllConcat(refs: seq<MediaRef>, a: seq<(string, string)>, b: seq<(string, string)>)
    ensures RecordAll(refs, a + b) == RecordAll(RecordAll(refs, a), b)
  {
    if b == [] {
      assert a + b == a;
    } else {
      InitOfConcat(a, b);
      RecordAllConcat(refs, a, Init(b));
    }
  }

  /** Every image and link destination with its label, in the order the walk meets them. */
  function Mentions(items: seq<Inline>): seq<(string, string)>
    decreases items
  {
    if items == [] then [] else Mentions(Init(items)) + InlineMentions(Last(items))
  }

  function InlineMentions(item: Inline): seq<(string, string)>
    decreases item
  {
    match item
    case Mark(_, c) => Mentions(c)
    case Link(dest, _, c) => [(dest, Plain(c))] + Mentions(c)
    case Image(dest, alt) => [(dest, alt)]
    case _ => []
  }

  function CellsMentions(cells: seq<seq<Inline>>): seq<(string, string)> {
    if cells == [] then [] else CellsMentions(Init(cells)) + Mentions(Last(cells))
  }

  function BlockMentions(b: Block): seq<(string, string)>
    decreases b
  {
    match b.kind
    case Paragraph(c) => Mentions(c)
    case Heading(_, c) => Mentions(c)
    case List(_, _, items) => ItemsMentions(items)
    case Blockquote(inner) => RunMentions(inner)
    case Callout(_, _, title, body) => Mentions(title) + RunMentions(body)
    case TableBlock(t) => CellsMentions(Cells(t))
    case _ => []
  }

  function RunMentions(blocks: seq<Block>): seq<(string, string)>
    decreases blocks
  {
    if blocks == [] then [] else RunMentions(Init(blocks)) + BlockMentions(Last(blocks))
  }

  function ItemsMentions(items: seq<ListItem>): seq<(string, string)>
    decreases items
  {
    if items == [] then [] else ItemsMentions(Init(items)) + RunMentions(Last(items).content)
  }

  predicate DistinctPaths(refs: seq<MediaRef>) {
    forall i, j :: 0 <= i < j < |refs| ==> refs[i].path != refs[j].path
  }

  function Paths(refs: seq<MediaRef>): seq<string> {
    seq(|refs|, i requires 0 <= i < |refs| => refs[i].path)
  }

  predicate Mentioned(mentions: seq<(string, string)>, path: string) {
    exists k :: 0 <= k < |mentions| && MediaPath(mentions[k].0) == Some(path)
  }

  /** The `k`-th mention is the first of its path, and gives the reference its name. */
  predicate FirstMention(mentions: seq<(string, string)>, r: MediaRef, k: nat) {
    && k < |mentions| && MediaPath(mentions[k].0) == Some(r.path) && mentions[k].1 == r.originalName
    && forall j :: 0 <= j < k ==> MediaPath(mentions[j].0) != Some(r.path)
  }

  lemma MentionedSnoc(init: seq<(string, string)>, mention: (string, string), path: string)
    ensures Mentioned(init + [mention], path) <==> Mentioned(init, path) || MediaPath(mention.0) == Some(path)
  {
    var all := init + [mention];
    if Mentioned(init, path) {
      var k :| 0 <= k < |init| && MediaPath(init[k].0) == Some(path);
      assert all[k] == init[k];
    }
    if MediaPath(mention.0) == Some(path) {
      assert all[|init|] == mention;
    }
  }

  lemma FirstMentionSnoc(init: seq<(string, string)>, mention: (string, string), r: MediaRef)
    ensures (exists k :: FirstMention(init, r, k)) ==> exists k :: FirstMention(init + [mention], r, k)
    ensures MediaPath(mention.0) == Some(r.path) && mention.1 == r.originalName && !Mentioned(init, r.path)
        ==> exists k :: FirstMention(init + [mention], r, k)
  {
    var all := init + [mention];
    if k: nat :| FirstMention(init, r, k) {
      assert all[..k] == init[..k] && forall j :: 0 <= j < k ==> all[j] == init[j];
      assert FirstMention(all, r, k);
    }
    if MediaPath(mention.0) == Some(r.path) && mention.1 == r.originalName && !Mentioned(init, r.path) {
      assert forall j :: 0 <= j < |init| ==> all[j] == init[j];
      assert FirstMention(all, r, |init|);
    }
  }

  /** The recorded references: one per mentioned media path, named by its first mention. */
  lemma {:induction false} RecordedMedia(mentions: seq<(string, string)>)
    ensures DistinctPaths(RecordAll([], mentions))
    ensures forall path :: Known(RecordAll([], mentions), path) <==> Mentioned(mentions, path)
    ensures forall r <- RecordAll([], mentions) :: exists k :: FirstMention(mentions, r, k)
  {
    if mentions != [] {
      var init, mention := Init(mentions), Last(mentions);
      RecordedMedia(init);
      InitLast(mentions);
      RecordedOneMore(init, mention);
    }
  }

  lemma RecordedOneMore(init: seq<(string, string)>, mention: (string, string))
    requires var refs := RecordAll([], init);
      && DistinctPaths(refs)
      && (forall path :: Known(refs, path) <==> Mentioned(init, path))
      && forall r <- refs :: exists k :: FirstMention(init, r, k)
    ensures var all := Record(RecordAll([], init), mention);
      && DistinctPaths(all)
      && (forall path :: Known(all, path) <==> Mentioned(init + [mention], path))
      && forall r <- all :: exists k :: FirstMention(init + [mention], r, k)
  {
    var refs := RecordAll([], init);
    forall path ensures Known(Record(refs, mention), path) <==> Mentioned(init + [mention], path) {
      RecordKnows(refs, mention, path);
      MentionedSnoc(init, mention, path);
    }
    forall r | r in Record(refs, mention) ensures exists k :: FirstMention(init + [mention], r, k) {
      FirstMentionSnoc(init, mention, r);
      assert r in refs ==> exists k :: FirstMention(init, r, k);
    }
  }

  lemma RecordKnows(refs: seq<MediaRef>, mention: (string, string), path: string)
    ensures Known(Record(refs, mention), path) <==> Known(refs, path) || MediaPath(mention.0) == Some(path)
  {
    var r := Record(refs, mention);
    if Known(refs, path) {
      var i :| 0 <= i < |refs| && refs[i].path == path;
      assert r[i].path == path;
    }
    if MediaPath(mention.0) == Some(path) && !Known(refs, path) {
      assert r[|refs|].path == path;
    }
  }

  // ---------------------------------------------------------------- the walk

  lemma ItemsSnoc(items: seq<Inline>, i: nat)
    requires i < |items|
    ensures LinksIn(items[..i + 1], None, None) == LinksIn(items[..i], None, None) + InlineLinks(items[i], None, None)
    ensures Mentions(items[..i + 1]) == Mentions(items[..i]) + InlineMentions(items[i])
  {
    TakeSnoc(items, i);
    SnocInit(items[..i], items[i]);
  }

  lemma CellsSnoc(cells: seq<seq<Inline>>, i: nat)
    requires i < |cells|
    ensures CellsLinks(cells[..i + 1], None, None) == CellsLinks(cells[..i], None, None) + LinksIn(cells[i], None, None)
    ensures CellsMentions(cells[..i + 1]) == CellsMentions(cells[..i]) + Mentions(cells[i])
  {
    TakeSnoc(cells, i);
    SnocInit(cells[..i], cells[i]);
  }

  /** What a walk accumulates: the part of `Extracted` that links and media need. */
  class Extracted {
    var links: seq<LinkRef>
    var media: seq<string>
    var mediaRefs: seq<MediaRef>

    /** The two media lists agree and name no path twice. */
    ghost predicate Valid()
      reads this
    {
      media == Paths(mediaRefs) && DistinctPaths(mediaRefs)
    }

    constructor ()
      ensures Valid() && links == [] && mediaRefs == []
    {
      links, media, mediaRefs := [], [], [];
    }

    method RecordMedia(dest: string, originalName: string)
      requires Valid()
      modifies `media, `mediaRefs
      ensures Valid() && mediaRefs == Record(old(mediaRefs), (dest, originalName))
    {
      if "media/" <= dest || "./media/" <= dest {
        var path := DropDotSlash(dest);
        assert path in media <==> Known(mediaRefs, path) by {
          if Known(mediaRefs, path) {
            var i :| 0 <= i < |mediaRefs| && mediaRefs[i].path == path;
            assert media[i] == path;
          }
        }
        if path !in media {
          media := media + [path];
        }
        if !Known(mediaRefs, path) {
          mediaRefs := mediaRefs + [MediaRef(path, originalName)];
        }
      }
    }

    method WalkInlines(items: seq<Inline>)
      requires Valid()
      modifies this
      ensures Valid()
      ensures links == old(links) + LinksIn(items, None, None)
      ensures mediaRefs == RecordAll(old(mediaRefs), Mentions(items))
      decreases items
    {
      for i := 0 to |items|
        invariant Valid()
        invariant links == old(links) + LinksIn(items[..i], None, None)
        invariant mediaRefs == RecordAll(old(mediaRefs), Mentions(items[..i]))
      {
        var item := items[i];
        ItemsSnoc(items, i);
        RecordAllConcat(old(mediaRefs), Mentions(items[..i]), InlineMentions(item));
        Associate(old(links), LinksIn(items[..i], None, None), InlineLinks(item, None, None));
        WalkInline(item);
      }
      assert items[..|items|] == items;
    }

    method WalkInline(item: Inline)
      requires Valid()
      modifies this
      ensures Valid()
      ensures links == old(links) + InlineLinks(item, None, None)
      ensures mediaRefs == RecordAll(old(mediaRefs), InlineMentions(item))
      decreases item
    {
      match item
      case Mark(_, c) => WalkInlines(c);
      case Link(dest, _, c) =>
        RecordAllConcat(mediaRefs, [(dest, Plain(c))], Mentions(c));
        assert Init([(dest, Plain(c))]) == [];
        RecordMedia(dest, Plain(c));
        WalkInlines(c);
      case Image(dest, alt) =>
        assert Init([(dest, alt)]) == [];
        RecordMedia(dest, alt);
      case Wiki(w) => links := links + [LinkIn(w, None, None)];
      case _ =>
    }

    /** Fills in the context of the links from `firstLink` on that are still open. */
    method Attribute(firstLink: nat, block: Block)
      requires firstLink <= |links|
      modifies `links
      ensures links == old(links)[..firstLink] + Patch(old(links)[firstLink..], block)
    {
      if forall i :: firstLink <= i < |links| ==> links[i].context.Some? {
        PatchAttributed(links[firstLink..], block);
        return;
      }
      for i := firstLink to |links|
        invariant |links| == |old(links)|
        invariant forall k :: 0 <= k < |links| ==>
          links[k] == if firstLink <= k < i then PatchOne(old(links)[k], block) else old(links)[k]
      {
        if links[i].context == None {
          links := links[i := links[i].(sourceBlock := block.anchor, context := Some(BlockText(block)))];
        }
      }
    }

    /** The back-patching walk extracts the links that top-down extraction defines. */
    method WalkBlocks(blocks: seq<Block>)
      requires Valid()
      modifies this
      ensures Valid()
      ensures links == old(links) + RunLinks(blocks)
      ensures mediaRefs == RecordAll(old(mediaRefs), RunMentions(blocks))
      decreases blocks
    {
      for i := 0 to |blocks|
        invariant Valid()
        invariant links == old(links) + RunLinks(blocks[..i])
        invariant mediaRefs == RecordAll(old(mediaRefs), RunMentions(blocks[..i]))
      {
        var block := blocks[i];
        assert blocks[..i + 1] == blocks[..i] + [block];
        SnocInit(blocks[..i], block);
        RecordAllConcat(old(mediaRefs), RunMentions(blocks[..i]), BlockMentions(block));
        WalkBlock(block);
      }
      assert blocks[..|blocks|] == blocks;
    }

    /** The links a block's own walk leaves, before they are attributed. */
    static ghost function Open(b: Block): seq<LinkRef> {
      match b.kind
      case Paragraph(c) => LinksIn(c, None, None)
      case Heading(_, c) => LinksIn(c, None, None)
      case List(_, _, items) => ItemsLinks(items)
      case Blockquote(inner) => RunLinks(inner)
      case Callout(_, _, title, body) => LinksIn(title, None, None) + RunLinks(body)
      case TableBlock(t) => CellsLinks(Cells(t), None, None)
      case _ => []
    }

    static lemma PatchOpen(b: Block)
      ensures Patch(Open(b), b) == BlockLinks(b)
    {
      match b.kind
      case Paragraph(c) => PatchRaw(c, b);
      case Heading(_, c) => PatchRaw(c, b);
      case List(_, _, items) => ItemsLinksAttributed(items); PatchAttributed(ItemsLinks(items), b);
      case Blockquote(inner) => RunLinksAttributed(inner); PatchAttributed(RunLinks(inner), b);
      case Callout(_, _, title, body) =>
        PatchRaw(title, b);
        RunLinksAttributed(body);
        PatchAttributed(RunLinks(body), b);
        PatchConcat(LinksIn(title, None, None), RunLinks(body), b);
      case TableBlock(t) => PatchRawCells(Cells(t), b);
      case _ =>
    }

    method WalkBlock(block: Block)
      requires Valid()
      modifies this
      ensures Valid()
      ensures links == old(links) + BlockLinks(block)
      ensures mediaRefs == RecordAll(old(mediaRefs), BlockMentions(block))
      decreases block, 1
    {
      var firstLink := |links|;
      WalkContents(block);
      assert links[..firstLink] == old(links) && links[firstLink..] == Open(block);
      PatchOpen(block);
      Attribute(firstLink, block);
    }

    method WalkContents(block: Block)
      requires Valid()
      modifies this
      ensures Valid()
      ensures links == old(links) + Open(block)
      ensures mediaRefs == RecordAll(old(mediaRefs), BlockMentions(block))
      decreases block, 0
    {
      match block.kind
      case Paragraph(c) => WalkInlines(c);
      case Heading(_, c) => WalkInlines(c);
      case List(_, _, items) => WalkItems(items);
      case Blockquote(inner) => WalkBlocks(inner);
      case Callout(_, _, title, body) =>
        RecordAllConcat(mediaRefs, Mentions(title), RunMentions(body));
        WalkInlines(title);
        WalkBlocks(body);
      case TableBlock(t) => WalkCells(Cells(t));
      case _ =>
    }

    method WalkItems(items: seq<ListItem>)
      requires Valid()
      modifies this
      ensures Valid()
      ensures links == old(links) + ItemsLinks(items)
      ensures mediaRefs == RecordAll(old(mediaRefs), ItemsMentions(items))
      decreases items
    {
      for i := 0 to |items|
        invariant Valid()
        invariant links == old(links) + ItemsLinks(items[..i])
        invariant mediaRefs == RecordAll(old(mediaRefs), ItemsMentions(items[..i]))
      {
        assert items[..i + 1] == items[..i] + [items[i]];
        SnocInit(items[..i], items[i]);
        RecordAllConcat(old(mediaRefs), ItemsMentions(items[..i]), RunMentions(items[i].content));
        WalkBlocks(items[i].content);
      }
      assert items[..|items|] == items;
    }

    method WalkCells(cells: seq<seq<Inline>>)
      requires Valid()
      modifies this
      ensures Valid()
      ensures links == old(links) + CellsLinks(cells, None, None)
      ensures mediaRefs == RecordAll(old(mediaRefs), CellsMentions(cells))
    {
      for i := 0 to |cells|
        invariant Valid()
        invariant links == old(links) + CellsLinks(cells[..i], None, None)
        invariant mediaRefs == RecordAll(old(mediaRefs), CellsMentions(cells[..i]))
      {
        CellsSnoc(cells, i);
        RecordAllConcat(old(mediaRefs), CellsMentions(cells[..i]), Mentions(cells[i]));
        Associate(old(links), CellsLinks(cells[..i], None, None), LinksIn(cells[i], None, None));
        WalkInlines(cells[i]);
      }
      assert cells[..|cells|] == cells;
    }
  }
}
