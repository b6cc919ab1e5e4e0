/** The block model: documents as trees of blocks and inlines (crates/mb-core/src/model.rs). */
module Model {
  import opened Strings

  datatype MarkKind = Emphasis | Strong | Strikethrough | Highlight

  datatype Anchor = HeadingAnchor(heading: string) | BlockAnchor(id: string)

  datatype WikiLink = WikiLink(target: string, anchor: Option<Anchor>, alias: Option<string>, embed: bool)

  datatype Inline =
    | Text(text: string)
    | Mark(kind: MarkKind, children: seq<Inline>)
    | Code(code: string)
    | Math(tex: string)
    | Link(dest: string, title: Option<string>, content: seq<Inline>)
    | Image(src: string, alt: string)
    | Wiki(link: WikiLink)
    | Tag(name: string)
    | Emoji(shortcode: string)
    | FootnoteRef(note: string)
    | SoftBreak
    | HardBreak

  predicate IsBreak(item: Inline) {
    item.SoftBreak? || item.HardBreak?
  }

  datatype CellAlignment = Default | Left | Center | Right

  datatype Fold = Unfoldable | Expanded | Collapsed

  datatype TaskStatus = Todo | Done | Cancelled

  /** A task's metadata (dates, priority) travels with it and is never inspected here. */
  datatype Task = Task(status: TaskStatus, meta: string)

  datatype ListItem = ListItem(task: Option<Task>, content: seq<Block>)

  datatype Table = Table(alignments: seq<CellAlignment>, head: seq<seq<Inline>>, rows: seq<seq<seq<Inline>>>)

  datatype BlockKind =
    | Paragraph(text: seq<Inline>)
    | Heading(level: nat, content: seq<Inline>)
    | List(ordered: bool, start: nat, items: seq<ListItem>)
    | Blockquote(quoted: seq<Block>)
    | Callout(kind: string, fold: Fold, title: seq<Inline>, body: seq<Block>)
    | CodeBlock(lang: Option<string>, code: string)
    | Divider
    | TableBlock(table: Table)
    | MathBlock(tex: string)

  datatype Block = Block(kind: BlockKind, anchor: Option<string>)
}
