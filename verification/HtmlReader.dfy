/**
 * What the page says of a note's structure: a reader of parsed HTML, with its own table of elements and attributes,
 * finds the marks, blocks, lists, links and tables of the note (crates/mb-core/src/html.rs).
 */
module HtmlReader {
  import opened Strings
  import opened Model
  import opened HtmlTree
  import opened HtmlParser
  import opened HtmlRoundTrip
  import opened HtmlMarkup

  // ---------------------------------------------------------------- what a page can say

  /** What an element stands for. */
  datatype Role =
    | Marked(mark: MarkKind)
    | CodeText(lang: Option<string>)
    | MathText
    | LinkTo(dest: Option<string>, title: Option<string>, guarded: bool)
    | WikiTo(target: string, anchor: Option<Anchor>, embed: bool, href: string)
    | Picture(src: string, alt: string)
    | TagName
    | EmojiName(name: string)
    | FootnoteMark
    | LineBreak
    | Para(id: Option<string>)
    | Head(level: nat, id: Option<string>)
    | Listing(ordered: bool, start: nat, tasks: bool, id: Option<string>)
    | Entry(status: Option<TaskStatus>)
    | Box(checked: bool, enabled: bool)
    | Quote(id: Option<string>)
    | Panel(kind: string, fold: Fold, id: Option<string>)
    | PanelTitle
    | PanelBody
    | Preformatted(id: Option<string>)
    | MathDisplay(id: Option<string>)
    | Rule(id: Option<string>)
    | Grid(id: Option<string>)
    | GridHead
    | GridBody
    | GridRow
    | GridCell(heading: bool, alignment: CellAlignment)
    | Unknown

  /** An element: what it stands for, the exact text in it where it is not just a container, and the elements in it. */
  datatype View = View(role: Role, text: string, parts: seq<View>)

  predicate IsContainer(r: Role) {
    || r.Listing? || r.Entry? || r.Quote? || r.Panel? || r.PanelBody? || r.Preformatted? || r.Grid? || r.GridHead?
    || r.GridBody? || r.GridRow?
  }

  // ---------------------------------------------------------------- the reader

  type Pairing = seq<(string, string)>

  function Get(attrs: Pairing, name: string): Option<string> {
    if attrs == [] then None else if attrs[0].0 == name then Some(attrs[0].1) else Get(attrs[1..], name)
  }

  function GetText(attrs: Pairing, name: string): string {
    var v := Get(attrs, name);
    if v.Some? then v.value else ""
  }

  /** The number that digits stand for. */
  function NumberOf(digits: string): nat {
    if digits == "" then 0
    else NumberOf(Init(digits)) * 10 + if '0' <= Last(digits) <= '9' then (Last(digits) - '0') as nat else 0
  }

  function MarkOf(tag: string): Option<MarkKind> {
    if tag == "em" then Some(Emphasis)
    else if tag == "strong" then Some(Strong)
    else if tag == "del" then Some(Strikethrough)
    else if tag == "mark" then Some(Highlight)
    else None
  }

  function LevelOf(tag: string): nat {
    if tag == "h1" then 1 else if tag == "h2" then 2 else if tag == "h3" then 3
    else if tag == "h4" then 4 else if tag == "h5" then 5 else if tag == "h6" then 6 else 0
  }

  function LanguageOf(class_: Option<string>): Option<string> {
    if class_.Some? && "language-" <= class_.value then Some(class_.value[9..]) else None
  }

  function AnchorOf(attrs: Pairing): Option<Anchor> {
    var kind := Get(attrs, "data-anchor-kind");
    if kind == Some("heading") then Some(HeadingAnchor(GetText(attrs, "data-anchor")))
    else if kind == Some("block") then Some(BlockAnchor(GetText(attrs, "data-anchor")))
    else None
  }

  /** A link into the vault has its reference as data; any other has at most an address. */
  function LinkRole(attrs: Pairing): Role {
    if Get(attrs, "data-target").Some? then
      WikiTo(GetText(attrs, "data-target"), AnchorOf(attrs), Get(attrs, "data-embed") == Some("true"), GetText(attrs, "href"))
    else LinkTo(Get(attrs, "href"), Get(attrs, "title"), Get(attrs, "rel") == Some("noopener noreferrer"))
  }

  function SpanRole(attrs: Pairing): Role {
    var class_ := Get(attrs, "class");
    if class_ == Some("mb-math") then MathText
    else if class_ == Some("mb-tag") then TagName
    else if class_ == Some("mb-emoji") then EmojiName(GetText(attrs, "data-shortcode"))
    else Unknown
  }

  function LineRole(tag: string, attrs: Pairing): Role {
    if tag == "code" then CodeText(LanguageOf(Get(attrs, "class")))
    else if tag == "span" then SpanRole(attrs)
    else if tag == "a" then LinkRole(attrs)
    else if tag == "img" then Picture(GetText(attrs, "src"), GetText(attrs, "alt"))
    else if tag == "br" then LineBreak
    else if tag == "sup" then FootnoteMark
    else Unknown
  }

  function StatusOf(class_: Option<string>): Option<TaskStatus> {
    if class_ == Some("mb-task mb-task-todo") then Some(Todo)
    else if class_ == Some("mb-task mb-task-done") then Some(Done)
    else if class_ == Some("mb-task mb-task-cancelled") then Some(Cancelled)
    else None
  }

  /** Numbering starts at 1 unless the element says otherwise. */
  function ListRole(tag: string, attrs: Pairing): Role {
    if tag == "ul" then Listing(false, 1, Get(attrs, "class") == Some("mb-task-list"), Get(attrs, "id"))
    else if tag == "ol" then
      Listing(true, if Get(attrs, "start").Some? then NumberOf(GetText(attrs, "start")) else 1,
              Get(attrs, "class") == Some("mb-task-list"), Get(attrs, "id"))
    else if tag == "li" then Entry(StatusOf(Get(attrs, "class")))
    else if GetText(attrs, "type") == "checkbox" then Box(Get(attrs, "checked").Some?, Get(attrs, "disabled").None?)
    else Unknown
  }

  const PANEL := "mb-callout mb-callout-"

  function PanelKind(attrs: Pairing): string {
    var class_ := GetText(attrs, "class");
    if PANEL <= class_ then class_[|PANEL|..] else ""
  }

  function DivRole(attrs: Pairing): Role {
    var class_ := Get(attrs, "class");
    if class_ == Some("mb-math-block") then MathDisplay(Get(attrs, "id"))
    else if class_ == Some("mb-callout-title") then PanelTitle
    else if class_ == Some("mb-callout-body") then PanelBody
    else Panel(PanelKind(attrs), Unfoldable, Get(attrs, "id"))
  }

  /** A toggle is expanded exactly when it is open. */
  function BlockRole(tag: string, attrs: Pairing): Role {
    if tag == "p" then Para(Get(attrs, "id"))
    else if tag == "blockquote" then Quote(Get(attrs, "id"))
    else if tag == "pre" then Preformatted(Get(attrs, "id"))
    else if tag == "hr" then Rule(Get(attrs, "id"))
    else if tag == "summary" then PanelTitle
    else if tag == "details" then
      Panel(PanelKind(attrs), if Get(attrs, "open").Some? then Expanded else Collapsed, Get(attrs, "id"))
    else DivRole(attrs)
  }

  function AlignmentOf(style: Option<string>): CellAlignment {
    if style == Some("text-align:left") then Left
    else if style == Some("text-align:center") then Center
    else if style == Some("text-align:right") then Right
    else Default
  }

  function TableRole(tag: string, attrs: Pairing): Role {
    if tag == "table" then Grid(Get(attrs, "id"))
    else if tag == "thead" then GridHead
    else if tag == "tbody" then GridBody
    else if tag == "tr" then GridRow
    else GridCell(tag == "th", AlignmentOf(Get(attrs, "style")))
  }

  function RoleOf(tag: string, attrs: Pairing): Role {
    if MarkOf(tag).Some? then Marked(MarkOf(tag).value)
    else if LevelOf(tag) > 0 then Head(LevelOf(tag), Get(attrs, "id"))
    else if tag in {"ul", "ol", "li", "input"} then ListRole(tag, attrs)
    else if tag in {"p", "blockquote", "pre", "hr", "summary", "details", "div"} then BlockRole(tag, attrs)
    else if tag in {"table", "thead", "tbody", "tr", "th", "td"} then TableRole(tag, attrs)
    else LineRole(tag, attrs)
  }

  function ViewOf(role: Role, text: string, parts: seq<View>): View {
    View(role, if IsContainer(role) then "" else text, parts)
  }

  /** The elements of a parsed page, text between them left aside. */
  function ReadNodes(nodes: seq<Node>): seq<View>
    decreases nodes
  {
    if nodes == [] then [] else ReadNode(nodes[0]) + ReadNodes(nodes[1..])
  }

  function ReadNode(node: Node): seq<View>
    decreases node
  {
    match node
    case TextNode(_) => []
    case Element(tag, attrs, children) => [ViewOf(RoleOf(tag, attrs), NodesText(children), ReadNodes(children))]
  }

  // ---------------------------------------------------------------- what a note holds

  /** The exact text of a run on the page. */
  function RunText(items: seq<Inline>): string
    decreases items
  {
    if items == [] then "" else ItemText(items[0]) + RunText(items[1..])
  }

  function ItemText(item: Inline): string
    decreases item
  {
    match item
    case Text(t) => t
    case Mark(_, c) => RunText(c)
    case Code(c) => c
    case Math(m) => m
    case Link(_, _, c) => RunText(c)
    case Image(_, _) => ""
    case Wiki(w) => if w.alias.Some? then w.alias.value else w.target
    case Tag(t) => "#" + t
    case Emoji(e) => ":" + e + ":"
    case FootnoteRef(note) => note
    case SoftBreak => "\n"
    case HardBreak => ""
  }

  function LineViews(items: seq<Inline>, urls: Urls): seq<View>
    decreases items
  {
    if items == [] then [] else ItemViews(items[0], urls) + LineViews(items[1..], urls)
  }

  /** A wikilink is a link only where the page has somewhere to go. */
  predicate Routed(w: WikiLink, urls: Urls) {
    urls.wikilinks || (w.embed && urls.embeds)
  }

  function ItemViews(item: Inline, urls: Urls): seq<View>
    decreases item
  {
    match item
    case Text(_) => []
    case SoftBreak => []
    case Mark(k, c) => [View(Marked(k), RunText(c), LineViews(c, urls))]
    case Code(c) => [View(CodeText(None), c, [])]
    case Math(m) => [View(MathText, m, [])]
    case Link(dest, title, c) =>
      [View(LinkTo(if Executes(dest) then None else Some(dest), title, IsExternal(dest)), RunText(c), LineViews(c, urls))]
    case Image(dest, alt) => [View(Picture(ResolveMedia(dest, urls), alt), "", [])]
    case Wiki(w) => if Routed(w, urls) then [View(WikiTo(w.target, w.anchor, w.embed, WikiHref(w, urls)), ItemText(item), [])] else []
    case Tag(_) => [View(TagName, ItemText(item), [])]
    case Emoji(e) => [View(EmojiName(e), ItemText(item), [])]
    case FootnoteRef(note) => [View(FootnoteMark, note, [])]
    case HardBreak => [View(LineBreak, "", [])]
  }

  function AlignmentAt(alignments: seq<CellAlignment>, i: nat): CellAlignment {
    if i < |alignments| then alignments[i] else Default
  }

  /** The cells of a row from column `i` on. */
  function CellViews(cells: seq<seq<Inline>>, alignments: seq<CellAlignment>, i: nat, heading: bool, urls: Urls): seq<View>
    requires i <= |cells|
    decreases |cells| - i
  {
    if i == |cells| then []
    else
      [View(GridCell(heading, AlignmentAt(alignments, i)), RunText(cells[i]), LineViews(cells[i], urls))]
      + CellViews(cells, alignments, i + 1, heading, urls)
  }

  function RowView(cells: seq<seq<Inline>>, alignments: seq<CellAlignment>, heading: bool, urls: Urls): View {
    View(GridRow, "", CellViews(cells, alignments, 0, heading, urls))
  }

  function RowViews(rows: seq<seq<seq<Inline>>>, alignments: seq<CellAlignment>, urls: Urls): seq<View> {
    if rows == [] then [] else [RowView(rows[0], alignments, false, urls)] + RowViews(rows[1..], alignments, urls)
  }

  function HeadView(t: Table, urls: Urls): View {
    View(GridHead, "", [RowView(t.head, t.alignments, true, urls)])
  }

  function TableBodyView(t: Table, urls: Urls): View {
    View(GridBody, "", RowViews(t.rows, t.alignments, urls))
  }

  function BlockViews(blocks: seq<Block>, urls: Urls): seq<View>
    decreases blocks, 0
  {
    if blocks == [] then [] else [BlockView(blocks[0], urls)] + BlockViews(blocks[1..], urls)
  }

  function HeadLevel(level: nat): nat {
    if 1 <= level <= 5 then level else 6
  }

  function LeafView(b: Block, urls: Urls): View
    requires !b.kind.List? && !b.kind.Blockquote? && !b.kind.Callout?
  {
    match b.kind
    case Paragraph(c) => View(Para(b.anchor), RunText(c), LineViews(c, urls))
    case Heading(level, c) => View(Head(HeadLevel(level), b.anchor), RunText(c), LineViews(c, urls))
    case CodeBlock(lang, code) =>
      View(Preformatted(b.anchor), "", [View(CodeText(if lang == Some("") then None else lang), code, [])])
    case Divider => View(Rule(b.anchor), "", [])
    case TableBlock(t) => View(Grid(b.anchor), "", [HeadView(t, urls), TableBodyView(t, urls)])
    case MathBlock(m) => View(MathDisplay(b.anchor), m, [])
  }

  function BlockView(b: Block, urls: Urls): View
    decreases b, 0
  {
    match b.kind
    case List(ordered, start, items) =>
      View(Listing(ordered, if ordered then start else 1, exists item :: item in items && item.task.Some?, b.anchor), "",
           EntryViews(items, urls))
    case Blockquote(quoted) => View(Quote(b.anchor), "", BlockViews(quoted, urls))
    case Callout(kind, fold, title, body) =>
      View(Panel(urls.lower(kind), fold, b.anchor), "", TitleViews(kind, title, urls) + BodyViews(body, urls))
    case _ => LeafView(b, urls)
  }

  /** A callout without a title is titled with its kind. */
  function TitleViews(kind: string, title: seq<Inline>, urls: Urls): seq<View> {
    [View(PanelTitle, if title == [] then kind else RunText(title), LineViews(title, urls))]
  }

  function BodyViews(body: seq<Block>, urls: Urls): seq<View>
    decreases body, 1
  {
    if body == [] then [] else [View(PanelBody, "", BlockViews(body, urls))]
  }

  function EntryViews(items: seq<ListItem>, urls: Urls): seq<View>
    decreases items, 0
  {
    if items == [] then [] else [EntryView(items[0], urls)] + EntryViews(items[1..], urls)
  }

  function EntryView(item: ListItem, urls: Urls): View
    decreases item, 0
  {
    match item.task
    case None => View(Entry(None), "", BlockViews(item.content, urls))
    case Some(t) => View(Entry(Some(t.status)), "", [View(Box(t.status.Done?, false), "", [])] + BlockViews(item.content, urls))
  }
}
