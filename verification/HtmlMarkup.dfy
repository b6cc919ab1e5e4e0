/** The elements a document is rendered as (crates/mb-core/src/html.rs). */
module HtmlMarkup {
  import opened Strings
  import opened Model
  import opened HtmlTree

  /** Where links point; Unicode lower-casing is a parameter. */
  datatype Urls = Urls(note: string, media: string, wikilinks: bool, embeds: bool, lower: string -> string)

  // ---------------------------------------------------------------- addresses

  predicate IsControl(c: char) {
    c <= '\U{001F}' || '\U{007F}' <= c <= '\U{009F}'
  }

  /** What a browser ignores in front of and inside a scheme is left out. */
  function Stripped(s: string): string {
    if s == "" then "" else (if IsControl(s[0]) || s[0] == ' ' then "" else [s[0]]) + Stripped(s[1..])
  }

  predicate Executes(dest: string) {
    var lower := AsciiLower(Stripped(dest));
    "javascript:" <= lower || "vbscript:" <= lower || "data:" <= lower || "file:" <= lower
  }

  function SafeUrl(dest: string): string {
    if Executes(dest) then "#blocked" else dest
  }

  predicate IsExternal(dest: string) {
    var lower := AsciiLower(dest);
    "http://" <= lower || "https://" <= lower || "//" <= lower
  }

  predicate IsUnreserved(c: char) {
    'A' <= c <= 'Z' || 'a' <= c <= 'z' || '0' <= c <= '9' || c in {'-', '_', '.', '~', '/'}
  }

  function UpperHex(n: nat): char {
    if n < 10 then '0' + n as char else if n < 16 then 'A' + (n - 10) as char else '0'
  }

  function EncodeByte(b: nat): string {
    if b < 0x80 && IsUnreserved(b as char) then [b as char] else ['%', UpperHex(b / 16), UpperHex(b % 16)]
  }

  function EncodeBytes(bytes: seq<nat>): string {
    if bytes == [] then "" else EncodeByte(bytes[0]) + EncodeBytes(bytes[1..])
  }

  /** `percent_encode`. */
  function PercentEncode(text: string): string {
    if text == "" then "" else EncodeBytes(Utf8(text[0])) + PercentEncode(text[1..])
  }

  function ResolveMedia(dest: string, urls: Urls): string {
    if IsExternal(dest) || "/" <= dest then SafeUrl(dest) else urls.media + PercentEncode(dest)
  }

  // ---------------------------------------------------------------- inlines

  function Named(name: string, value: string): Attr {
    Attr(name, Some(value))
  }

  function MarkTag(kind: MarkKind): string {
    match kind case Emphasis => "em" case Strong => "strong" case Strikethrough => "del" case Highlight => "mark"
  }

  /** A neutralized address is not written at all. */
  function TargetAttr(dest: string): seq<Attr> {
    if SafeUrl(dest) == dest then [Named("href", dest)] else [Named("aria-disabled", "true")]
  }

  function RelAttr(dest: string): seq<Attr> {
    if IsExternal(dest) then [Named("rel", "noopener noreferrer")] else []
  }

  function LinkAttrs(dest: string, title: Option<string>): seq<Attr> {
    TargetAttr(dest) + TitleAttr(title) + RelAttr(dest)
  }

  function ImageAttrs(dest: string, alt: string, urls: Urls): seq<Attr> {
    [Named("src", ResolveMedia(dest, urls)), Named("alt", alt)]
  }

  function TitleAttr(title: Option<string>): seq<Attr> {
    match title case None => [] case Some(t) => [Named("title", t)]
  }

  function AnchorName(a: Anchor): string {
    match a case HeadingAnchor(h) => h case BlockAnchor(id) => id
  }

  function WikiHref(w: WikiLink, urls: Urls): string {
    urls.note + PercentEncode(w.target) + match w.anchor case None => "" case Some(a) => "#" + PercentEncode(AnchorName(a))
  }

  function WikiClass(w: WikiLink): seq<Attr> {
    if w.embed then [Named("class", "mb-embed"), Named("data-embed", "true")] else [Named("class", "mb-wikilink")]
  }

  function WikiTarget(w: WikiLink, urls: Urls): seq<Attr> {
    [Named("href", WikiHref(w, urls)), Named("data-target", w.target)]
  }

  function WikiAttrs(w: WikiLink, urls: Urls): seq<Attr> {
    WikiClass(w) + WikiTarget(w, urls) + WikiAnchorAttrs(w.anchor)
  }

  function WikiAnchorAttrs(anchor: Option<Anchor>): seq<Attr> {
    match anchor
    case None => []
    case Some(HeadingAnchor(h)) => [Named("data-anchor-kind", "heading"), Named("data-anchor", h)]
    case Some(BlockAnchor(id)) => [Named("data-anchor-kind", "block"), Named("data-anchor", id)]
  }

  function WikiText(w: WikiLink): string {
    if w.alias.Some? then w.alias.value else w.target
  }

  function WikiMarkup(w: WikiLink, urls: Urls): Markup {
    if urls.wikilinks || (w.embed && urls.embeds) then Markup.Tag("a", WikiAttrs(w, urls), [Chars(WikiText(w))])
    else Chars(WikiText(w))
  }

  function EmojiMarkup(name: string): Markup {
    Markup.Tag("span", [Named("class", "mb-emoji"), Named("data-shortcode", name)], [Chars(":"), Chars(name), Chars(":")])
  }

  function InlinesMarkup(items: seq<Inline>, urls: Urls): seq<Markup>
    decreases items
  {
    if items == [] then [] else [InlineMarkup(items[0], urls)] + InlinesMarkup(items[1..], urls)
  }

  function InlineMarkup(item: Inline, urls: Urls): Markup
    decreases item
  {
    match item
    case Text(t) => Chars(t)
    case Mark(kind, children) => Markup.Tag(MarkTag(kind), [], InlinesMarkup(children, urls))
    case Code(c) => Markup.Tag("code", [], [Chars(c)])
    case Math(m) => Markup.Tag("span", [Named("class", "mb-math")], [Chars(m)])
    case Link(dest, title, content) => Markup.Tag("a", LinkAttrs(dest, title), InlinesMarkup(content, urls))
    case Image(dest, alt) => Void("img", ImageAttrs(dest, alt, urls))
    case Wiki(w) => WikiMarkup(w, urls)
    case Tag(t) => Markup.Tag("span", [Named("class", "mb-tag")], [Chars("#"), Chars(t)])
    case Emoji(name) => EmojiMarkup(name)
    case FootnoteRef(note) => Markup.Tag("sup", [Named("class", "mb-footnote-ref")], [Chars(note)])
    case SoftBreak => Chars("\n")
    case HardBreak => Void("br", [])
  }

  // ---------------------------------------------------------------- blocks

  function IdAttr(anchor: Option<string>): seq<Attr> {
    match anchor case None => [] case Some(a) => [Named("id", a)]
  }

  function HeadingTag(level: nat): string {
    match level case 1 => "h1" case 2 => "h2" case 3 => "h3" case 4 => "h4" case 5 => "h5" case _ => "h6"
  }

  predicate HasTask(items: seq<ListItem>) {
    exists item :: item in items && item.task.Some?
  }

  function ListTag(ordered: bool): string {
    if ordered then "ol" else "ul"
  }

  function NumberAttr(ordered: bool, start: nat): seq<Attr> {
    if ordered && start != 1 then [Named("start", Decimal(start))] else []
  }

  function TaskListAttr(items: seq<ListItem>): seq<Attr> {
    if HasTask(items) then [Named("class", "mb-task-list")] else []
  }

  function ListAttrs(ordered: bool, start: nat, items: seq<ListItem>, anchor: Option<string>): seq<Attr> {
    IdAttr(anchor) + NumberAttr(ordered, start) + TaskListAttr(items)
  }

  function StatusName(status: TaskStatus): string {
    match status case Todo => "todo" case Done => "done" case Cancelled => "cancelled"
  }

  function ItemAttrs(task: Option<Task>): seq<Attr> {
    match task case None => [] case Some(t) => [Named("class", "mb-task mb-task-" + StatusName(t.status))]
  }

  function Checkbox(task: Option<Task>): seq<Markup> {
    match task
    case None => []
    case Some(t) => [Void("input", BoxAttrs(t)), Chars(" ")]
  }

  function BoxAttrs(t: Task): seq<Attr> {
    [Named("type", "checkbox"), Attr("disabled", None)] + if t.status.Done? then [Attr("checked", None)] else []
  }

  function CalloutTag(fold: Fold): string {
    if fold.Unfoldable? then "div" else "details"
  }

  function TitleTag(fold: Fold): string {
    if fold.Unfoldable? then "div" else "summary"
  }

  function FoldAttrs(fold: Fold): seq<Attr> {
    match fold
    case Unfoldable => []
    case Collapsed => [Named("data-fold", "collapsed")]
    case Expanded => [Named("data-fold", "expanded"), Attr("open", None)]
  }

  function CalloutAttrs(kind: string, fold: Fold, anchor: Option<string>, urls: Urls): seq<Attr> {
    [Named("class", "mb-callout mb-callout-" + urls.lower(kind))] + IdAttr(anchor) + FoldAttrs(fold)
  }

  function TitleMarkup(kind: string, title: seq<Inline>, urls: Urls): seq<Markup> {
    if title == [] then [Chars(kind)] else InlinesMarkup(title, urls)
  }

  function CodeAttrs(lang: Option<string>): seq<Attr> {
    if lang.Some? && lang.value != "" then [Named("class", "language-" + lang.value)] else []
  }

  function CodeMarkup(lang: Option<string>, code: string, anchor: Option<string>): Markup {
    Markup.Tag("pre", IdAttr(anchor), [Markup.Tag("code", CodeAttrs(lang), [Chars(code)])])
  }

  /** Mathematics is written as its source, for a typesetter in the page to pick up. */
  function MathMarkup(m: string, anchor: Option<string>): Markup {
    Markup.Tag("div", MathAttrs(anchor), [Chars(m)])
  }

  function MathAttrs(anchor: Option<string>): seq<Attr> {
    [Named("class", "mb-math-block")] + IdAttr(anchor)
  }

  function AlignText(alignment: CellAlignment): string {
    match alignment case Default => "" case Left => "left" case Center => "center" case Right => "right"
  }

  function CellAttrs(alignments: seq<CellAlignment>): seq<Attr> {
    if alignments == [] || AlignText(alignments[0]) == "" then []
    else [Named("style", "text-align:" + AlignText(alignments[0]))]
  }

  function CellMarkup(cell: seq<Inline>, alignments: seq<CellAlignment>, tag: string, urls: Urls): Markup {
    Markup.Tag(tag, CellAttrs(alignments), InlinesMarkup(cell, urls))
  }

  function CellsMarkup(cells: seq<seq<Inline>>, alignments: seq<CellAlignment>, tag: string, urls: Urls): seq<Markup> {
    if cells == [] then []
    else
      [CellMarkup(cells[0], alignments, tag, urls)]
      + CellsMarkup(cells[1..], if alignments == [] then [] else alignments[1..], tag, urls)
  }

  function RowMarkup(cells: seq<seq<Inline>>, alignments: seq<CellAlignment>, tag: string, urls: Urls): seq<Markup> {
    [Markup.Tag("tr", [], CellsMarkup(cells, alignments, tag, urls)), Chars("\n")]
  }

  function RowsMarkup(rows: seq<seq<seq<Inline>>>, alignments: seq<CellAlignment>, urls: Urls): seq<Markup> {
    if rows == [] then [] else RowMarkup(rows[0], alignments, "td", urls) + RowsMarkup(rows[1..], alignments, urls)
  }

  function HeadMarkup(t: Table, urls: Urls): Markup {
    Markup.Tag("thead", [], [Chars("\n")] + RowMarkup(t.head, t.alignments, "th", urls))
  }

  function TableBodyMarkup(t: Table, urls: Urls): Markup {
    Markup.Tag("tbody", [], [Chars("\n")] + RowsMarkup(t.rows, t.alignments, urls))
  }

  function TableContent(t: Table, urls: Urls): seq<Markup> {
    [Chars("\n"), HeadMarkup(t, urls), Chars("\n"), TableBodyMarkup(t, urls), Chars("\n")]
  }

  /** A run of blocks, a line each. */
  function RunMarkup(blocks: seq<Block>, urls: Urls): seq<Markup>
    decreases blocks, 0
  {
    if blocks == [] then [] else [BlockMarkup(blocks[0], urls), Chars("\n")] + RunMarkup(blocks[1..], urls)
  }

  function BlockMarkup(b: Block, urls: Urls): Markup
    decreases b, 1
  {
    match b.kind
    case Paragraph(content) => Markup.Tag("p", IdAttr(b.anchor), InlinesMarkup(content, urls))
    case Heading(level, content) => Markup.Tag(HeadingTag(level), IdAttr(b.anchor), InlinesMarkup(content, urls))
    case List(ordered, start, items) =>
      Markup.Tag(ListTag(ordered), ListAttrs(ordered, start, items, b.anchor), [Chars("\n")] + ItemsMarkup(items, urls))
    case Blockquote(quoted) => Markup.Tag("blockquote", IdAttr(b.anchor), RunMarkup(quoted, urls))
    case Callout(kind, fold, title, body) => CalloutMarkup(kind, fold, title, body, b.anchor, urls)
    case CodeBlock(lang, code) => CodeMarkup(lang, code, b.anchor)
    case Divider => Void("hr", IdAttr(b.anchor))
    case TableBlock(t) => Markup.Tag("table", IdAttr(b.anchor), TableContent(t, urls))
    case MathBlock(m) => MathMarkup(m, b.anchor)
  }

  function CalloutHead(kind: string, fold: Fold, title: seq<Inline>, urls: Urls): seq<Markup> {
    [Chars("\n"), Markup.Tag(TitleTag(fold), [Named("class", "mb-callout-title")], TitleMarkup(kind, title, urls)),
     Chars("\n")]
  }

  function CalloutMarkup(kind: string, fold: Fold, title: seq<Inline>, body: seq<Block>, anchor: Option<string>,
                         urls: Urls): Markup
    decreases body, 3
  {
    Markup.Tag(CalloutTag(fold), CalloutAttrs(kind, fold, anchor, urls),
               CalloutHead(kind, fold, title, urls) + BodyMarkup(body, urls))
  }

  function BodyMarkup(body: seq<Block>, urls: Urls): seq<Markup>
    decreases body, 2
  {
    if body == [] then [] else [BodyElement(body, urls), Chars("\n")]
  }

  function BodyElement(body: seq<Block>, urls: Urls): Markup
    decreases body, 1
  {
    Markup.Tag("div", [Named("class", "mb-callout-body")], [Chars("\n")] + RunMarkup(body, urls))
  }

  function ItemsMarkup(items: seq<ListItem>, urls: Urls): seq<Markup>
    decreases items, 0
  {
    if items == [] then [] else [ItemMarkup(items[0], urls), Chars("\n")] + ItemsMarkup(items[1..], urls)
  }

  function ItemMarkup(item: ListItem, urls: Urls): Markup
    decreases item, 0
  {
    Markup.Tag("li", ItemAttrs(item.task), Checkbox(item.task) + RunMarkup(item.content, urls))
  }
}
