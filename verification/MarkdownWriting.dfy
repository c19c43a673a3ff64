/** A writer of Markdown that knows nothing of the renderer, and that the renderer reads back whatever
    it writes: every block with its own text, in order, whichever way it was laid out. */
module MarkdownWriting {
  import opened Options
  import opened JsText
  import opened MarkdownLines
  import opened MarkdownBlocks
  import opened MarkdownReading
  import opened Splitting

  // ----- What is written -----

  /** A marker, the whitespace after it, and the text. */
  datatype Marked = Marked(mark: string, spaces: string, text: string)

  /** A line of a quote, with at most one character of whitespace after the `>`. */
  datatype QuoteLine = QuoteLine(space: string, text: string)

  /** A column of a delimiter row. */
  datatype Column = Column(left: bool, dashes: nat, right: bool)

  /** Which ends of a table row have a pipe. */
  datatype Edges = Edges(front: bool, back: bool)

  /** A block as somebody writes it. Code may be left open by a text that ends in it. */
  datatype Written =
    | HeadingWritten(head: Marked)
    | ParagraphWritten(lines: seq<string>)
    | ListWritten(ordered: bool, items: seq<Marked>)
    | QuoteWritten(quoted: seq<QuoteLine>)
    | RuleWritten(dash: char, length: nat)
    | CodeWritten(info: string, body: seq<string>, ending: string)
    | OpenCodeWritten(info: string, body: seq<string>)
    | TableWritten(names: seq<string>, closed: bool, columns: seq<Column>, edges: Edges, rows: seq<seq<string>>)

  /** A block, the whitespace around each of its lines, and the blank lines after it. */
  datatype Placed = Placed(before: string, block: Written, after: string, gap: seq<string>)

  // ----- What it says -----

  function TextsOf(items: seq<Marked>): seq<string> {
    seq(|items|, i requires 0 <= i < |items| => items[i].text)
  }

  function QuoteTexts(quoted: seq<QuoteLine>): seq<string> {
    seq(|quoted|, i requires 0 <= i < |quoted| => quoted[i].text)
  }

  function AlignsOf(columns: seq<Column>): seq<Align> {
    seq(|columns|, i requires 0 <= i < |columns| => AlignmentSaid(columns[i].left, columns[i].right))
  }

  function Meaning(w: Written): Block {
    match w
    case HeadingWritten(head) => Heading(if |head.mark| == 4 then 4 else 3, head.text)
    case ParagraphWritten(lines) => Paragraph(Join(lines, " "))
    case ListWritten(ordered, items) => List(ordered, TextsOf(items))
    case QuoteWritten(quoted) => Quote(Join(QuoteTexts(quoted), " "))
    case RuleWritten(_, _) => Rule
    case CodeWritten(_, body, _) => Code(Join(body, "\n"))
    case OpenCodeWritten(_, body) => Code(Join(body, "\n"))
    case TableWritten(names, _, columns, _, rows) => Table(names, AlignsOf(columns), rows)
  }

  function Meanings(doc: seq<Placed>): seq<Block> {
    seq(|doc|, i requires 0 <= i < |doc| => Meaning(doc[i].block))
  }

  // ----- How it is written -----

  function MarkedText(m: Marked): string { m.mark + m.spaces + m.text }

  function QuoteText(q: QuoteLine): string { ">" + q.space + q.text }

  /** The cells with a space on either side, but for the outer sides of the row. */
  function Spaced(cells: seq<string>, lead: string, trail: string): seq<string> {
    seq(|cells|, i requires 0 <= i < |cells| =>
      (if i == 0 then lead else " ") + cells[i] + (if i == |cells| - 1 then trail else " "))
  }

  function Row(cells: seq<string>, edges: Edges): string {
    (if edges.front then "|" else "")
    + Join(Spaced(cells, if edges.front then " " else "", if edges.back then " " else ""), "|")
    + (if edges.back then "|" else "")
  }

  function ColumnCells(columns: seq<Column>): seq<string> {
    seq(|columns|, i requires 0 <= i < |columns| =>
      DelimiterCell(columns[i].left, columns[i].dashes, columns[i].right))
  }

  function MarkedTexts(items: seq<Marked>): seq<string> {
    seq(|items|, i requires 0 <= i < |items| => MarkedText(items[i]))
  }

  function QuoteLines(quoted: seq<QuoteLine>): seq<string> {
    seq(|quoted|, i requires 0 <= i < |quoted| => QuoteText(quoted[i]))
  }

  function RowTexts(rows: seq<seq<string>>, closed: bool): seq<string> {
    seq(|rows|, i requires 0 <= i < |rows| => Row(rows[i], Edges(true, closed)))
  }

  function Padded(p: Placed, text: string): string { p.before + text + p.after }

  function PaddedAll(p: Placed, texts: seq<string>): seq<string> {
    seq(|texts|, i requires 0 <= i < |texts| => Padded(p, texts[i]))
  }

  /** The lines of a block without the whitespace around them; those inside a fence are left as they are. */
  function Texts(w: Written): seq<string> {
    match w
    case HeadingWritten(head) => [MarkedText(head)]
    case ParagraphWritten(lines) => lines
    case ListWritten(_, items) => MarkedTexts(items)
    case QuoteWritten(quoted) => QuoteLines(quoted)
    case RuleWritten(dash, length) => [Repeated(dash, length)]
    case CodeWritten(info, body, ending) => ["```" + info] + body + ["```" + ending]
    case OpenCodeWritten(info, body) => ["```" + info] + body
    case TableWritten(names, closed, columns, edges, rows) =>
      [Row(names, Edges(true, closed)), Row(ColumnCells(columns), edges)] + RowTexts(rows, closed)
  }

  function FirstText(w: Written): string {
    if Texts(w) == [] then "" else Texts(w)[0]
  }

  function Printed(p: Placed): seq<string> {
    match p.block
    case CodeWritten(info, body, ending) => [Padded(p, "```" + info)] + body + [Padded(p, "```" + ending)]
    case OpenCodeWritten(info, body) => [Padded(p, "```" + info)] + body
    case _ => PaddedAll(p, Texts(p.block))
  }

  function PrintedAll(doc: seq<Placed>): seq<string> {
    if doc == [] then [] else Printed(doc[0]) + doc[0].gap + PrintedAll(doc[1..])
  }

  // ----- What can be written -----

  predicate OneLine(s: string) {
    forall i | 0 <= i < |s| :: s[i] != '\n' && s[i] != '\r'
  }

  predicate Spaces(s: string) { Blank(s) && OneLine(s) }

  predicate MarkedWell(m: Marked) {
    && m.spaces != "" && Spaces(m.spaces) && Solid(m.text) && forall i | 0 <= i < |m.text| :: !EndsLine(m.text[i])
  }

  predicate QuotedWell(q: QuoteLine) {
    && OneLine(q.text) && Spaces(q.space) && |q.space| <= 1
    && (q.text == "" ==> q.space == "") && (q.text != "" ==> !IsSpace(q.text[|q.text| - 1]))
    && (q.text != "" && q.space == "" ==> !IsSpace(q.text[0]))
  }

  /** Nothing at its end that would come off with the whitespace. */
  predicate EndsWell(s: string) {
    OneLine(s) && (s != "" ==> !IsSpace(s[|s| - 1]))
  }

  predicate CellsWell(cells: seq<string>, edges: Edges) {
    && cells != []
    && (forall i | 0 <= i < |cells| :: Core(cells[i]) && OneLine(cells[i]) && '|' !in cells[i])
    && (edges.front || cells[0] != "") && (edges.back || cells[|cells| - 1] != "")
  }

  /** It is not three dashes or stars, or more. */
  predicate NoRule(t: string) {
    |t| < 3 || (t != Repeated('-', |t|) && t != Repeated('*', |t|))
  }

  /** No closing fence, wherever it stands on the line. */
  predicate NoFence(s: string) {
    forall k | 0 <= k <= |s| && Blank(s[..k]) :: !("```" <= s[k..])
  }

  /** The first line of a paragraph opens nothing else; a pipe opens it only when it stands alone. */
  ghost predicate OpensParagraph(t: string, alone: bool) {
    !(">" <= t) && !("```" <= t) && !OpensMarked(t) && NoRule(t) && ("|" <= t ==> alone)
  }

  ghost predicate Printable(w: Written) {
    match w
    case HeadingWritten(head) => HashMark(head.mark) && MarkedWell(head)
    case ParagraphWritten(lines) =>
      && lines != [] && (forall i | 0 <= i < |lines| :: Solid(lines[i]) && OneLine(lines[i]))
      && OpensParagraph(lines[0], |lines| == 1) && forall i | 0 < i < |lines| :: !Stops(lines[i])
    case ListWritten(ordered, items) =>
      && items != []
      && forall i | 0 <= i < |items| ::
           MarkedWell(items[i]) && if ordered then NumberMark(items[i].mark) else BulletMark(items[i].mark)
    case QuoteWritten(quoted) => quoted != [] && forall i | 0 <= i < |quoted| :: QuotedWell(quoted[i])
    case RuleWritten(dash, length) => (dash == '-' || dash == '*') && length >= 3
    case CodeWritten(info, body, ending) =>
      EndsWell(info) && EndsWell(ending) && forall i | 0 <= i < |body| :: OneLine(body[i]) && NoFence(body[i])
    case OpenCodeWritten(info, body) =>
      EndsWell(info) && forall i | 0 <= i < |body| :: OneLine(body[i]) && NoFence(body[i])
    case TableWritten(names, closed, columns, edges, rows) =>
      && CellsWell(names, Edges(true, closed))
      && columns != [] && (forall i | 0 <= i < |columns| :: columns[i].dashes > 0)
      && forall i | 0 <= i < |rows| :: CellsWell(rows[i], Edges(true, closed))
  }

  /** Whether a line that says `next` may come right after a block without becoming part of it. */
  ghost predicate Leaves(w: Written, next: string) {
    match w
    case ParagraphWritten(lines) => if lines != [] && "|" <= lines[0] then next == "" else Stops(next)
    case ListWritten(ordered, _) =>
      forall mark, spaces, text | (if ordered then NumberMark(mark) else BulletMark(mark)) ::
        !IsMarkedBy(next, mark, spaces, text)
    case QuoteWritten(_) => !(">" <= next)
    case TableWritten(_, _, _, _, _) => !("|" <= next)
    case OpenCodeWritten(_, _) => false
    case _ => true
  }

  /** Blocks that can be written, each with blank lines after it or a block that may follow right away; only
      the last may be code left open. */
  ghost predicate Fits(doc: seq<Placed>) {
    doc != [] ==>
      && Printable(doc[0].block) && Spaces(doc[0].before) && Spaces(doc[0].after)
      && (forall i | 0 <= i < |doc[0].gap| :: Spaces(doc[0].gap[i]))
      && (|doc| > 1 && doc[0].gap == [] ==> Leaves(doc[0].block, FirstText(doc[1].block)))
      && (doc[0].block.OpenCodeWritten? ==> |doc| == 1 && doc[0].gap == [])
      && Fits(doc[1..])
  }
}
