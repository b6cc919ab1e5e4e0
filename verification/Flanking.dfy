/** CommonMark's delimiter-run rules (section 6.2 of CommonMark 0.31.2), as canonicalization applies them. */
module Flanking {
  import opened Strings
  import opened Model

  datatype Class = Whitespace | Punctuation | Other

  predicate IsAsciiPunctuation(c: char) {
    '!' <= c <= '/' || ':' <= c <= '@' || '[' <= c <= '`' || '{' <= c <= '~'
  }

  /** CommonMark's character classes for the ASCII range. */
  function AsciiClass(c: char): Class {
    if c == ' ' || '\U{0009}' <= c <= '\U{000D}' then Whitespace
    else if IsAsciiPunctuation(c) then Punctuation
    else Other
  }

  ghost predicate AgreesOnAscii(of: char -> Class) {
    forall c: char {:trigger of(c)} :: c < '\U{0080}' ==> of(c) == AsciiClass(c)
  }

  /**
   * A classification of characters. Which non-ASCII characters are punctuation depends on the Unicode
   * version, so the model leaves it open: every result holds for every classifier that is right on ASCII.
   */
  type Classifier = of: char -> Class | AgreesOnAscii(of) witness AsciiClass

  /** No neighbour means the start or the end of a line, which counts as whitespace. */
  function ClassOf(u: Classifier, c: Option<char>): Class {
    match c
    case None => Whitespace
    case Some(ch) => u(ch)
  }

  predicate LeftFlanking(u: Classifier, before: Option<char>, after: Option<char>) {
    match ClassOf(u, after)
    case Whitespace => false
    case Other => true
    case Punctuation => ClassOf(u, before) != Other
  }

  predicate RightFlanking(u: Classifier, before: Option<char>, after: Option<char>) {
    match ClassOf(u, before)
    case Whitespace => false
    case Other => true
    case Punctuation => ClassOf(u, after) != Other
  }

  /** Whether `_` certainly opens or closes against this neighbour. */
  predicate UnderscoreSafe(c: Option<char>) {
    match c
    case None => true
    case Some(ch) => ch in {' ', '\t', '\n', '\r', '\U{000C}'} || IsAsciiPunctuation(ch)
  }

  /** The first character an inline renders as, if it renders one on its line. */
  function FirstChar(item: Inline): Option<char> {
    match item
    case Text(t) => if t == "" then None else Some(t[0])
    case SoftBreak => None
    case HardBreak => None
    case Tag(_) => Some('#')
    case Emoji(_) => Some(':')
    case Code(_) => Some('`')
    case Math(_) => Some('$')
    case Image(_, _) => Some('!')
    case Wiki(w) => Some(if w.embed then '!' else '[')
    case Link(_, _, _) => Some('[')
    case FootnoteRef(_) => Some('[')
    case Mark(_, _) => Some('*')
  }

  function LinkTail(dest: string): char {
    if dest == "" || ' ' in dest || '(' in dest || ')' in dest then '>' else ')'
  }

  /** The last character an inline renders as: a tag ends in its own body, not in punctuation. */
  function LastChar(item: Inline): Option<char> {
    match item
    case Text(t) => LastOption(t)
    case SoftBreak => None
    case HardBreak => None
    case Tag(t) => LastOption(t)
    case Emoji(_) => Some(':')
    case Code(_) => Some('`')
    case Math(_) => Some('$')
    case Wiki(_) => Some(']')
    case FootnoteRef(_) => Some(']')
    case Image(dest, _) => Some(LinkTail(dest))
    case Link(dest, _, _) => Some(LinkTail(dest))
    case Mark(_, _) => Some('*')
  }

  /** What surrounds a run of inlines: the delimiters of the enclosing mark, and whether an emphasis encloses it. */
  datatype Context = Context(prev: Option<char>, next: Option<char>, inside: bool)

  const TOP := Context(None, None, false)

  function Delimiter(kind: MarkKind): char {
    match kind
    case Emphasis => '*'
    case Strong => '*'
    case Strikethrough => '~'
    case Highlight => '='
  }

  /** The context of a mark's children; the emphasis flag passes through the other marks. */
  function MarkContext(kind: MarkKind, inside: bool): Context {
    Context(Some(Delimiter(kind)), Some(Delimiter(kind)), inside || kind == Emphasis)
  }

  function LinkContext(inside: bool): Context {
    Context(Some('['), Some(')'), inside)
  }

  /** The character before a run's next item: the last one rendered, or else the enclosing delimiter. */
  function Before(out: seq<Inline>, ctx: Context): Option<char> {
    if out == [] then ctx.prev else OrElse(LastChar(Last(out)), ctx.prev)
  }

  /** The character after position `i`: the first one the next item renders, or else the enclosing delimiter. */
  function After(items: seq<Inline>, i: nat, ctx: Context): Option<char>
    requires i < |items|
  {
    if i + 1 < |items| then OrElse(FirstChar(items[i + 1]), ctx.next) else ctx.next
  }

  predicate CanOpen(u: Classifier, kind: MarkKind, children: seq<Inline>, prev: Option<char>) {
    kind != Highlight ==> LeftFlanking(u, prev, if children == [] then None else FirstChar(children[0]))
  }

  predicate CanClose(u: Classifier, kind: MarkKind, children: seq<Inline>, next: Option<char>) {
    kind != Highlight ==> RightFlanking(u, if children == [] then None else LastChar(Last(children)), next)
  }

  /** An emphasis against a `*`, or anywhere inside another emphasis, has to be written with `_`. */
  predicate MustUseUnderscore(kind: MarkKind, children: seq<Inline>, prev: Option<char>, next: Option<char>, inside: bool) {
    kind == Emphasis &&
    (|| inside
     || prev == Some('*')
     || next == Some('*')
     || (children != [] && FirstChar(children[0]) == Some('*'))
     || (children != [] && LastChar(Last(children)) == Some('*')))
  }

  /** Whether Markdown can write this mark between these two neighbours. */
  predicate Expressible(u: Classifier, kind: MarkKind, children: seq<Inline>,
                        prev: Option<char>, next: Option<char>, inside: bool) {
    && CanOpen(u, kind, children, prev)
    && CanClose(u, kind, children, next)
    && (MustUseUnderscore(kind, children, prev, next, inside) ==> UnderscoreSafe(prev) && UnderscoreSafe(next))
  }

  /** `ctx` allows every mark `strict` allows: its edges are open or the same, and it forces `_` no more often. */
  predicate Looser(ctx: Context, strict: Context) {
    && (ctx.prev == None || ctx.prev == strict.prev)
    && (ctx.next == None || ctx.next == strict.next)
    && (ctx.inside ==> strict.inside)
  }

  /** An open edge never makes a mark inexpressible that a real neighbour allowed. */
  lemma OpenEdgeIsLooser(u: Classifier, kind: MarkKind, children: seq<Inline>,
                         prev: Option<char>, next: Option<char>, inside: bool,
                         prev': Option<char>, next': Option<char>, inside': bool)
    requires Expressible(u, kind, children, prev, next, inside)
    requires prev' == None || prev' == prev
    requires next' == None || next' == next
    requires inside' ==> inside
    ensures Expressible(u, kind, children, prev', next', inside')
  {
  }
}
