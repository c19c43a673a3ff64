/** The block half of the answer renderer: lines to blocks. It is run again on every prefix of
    an answer as the answer streams in. */
module MarkdownBlocks {
  import opened Options
  import opened JsText
  import opened MarkdownLines
  import opened Splitting

  datatype Block =
    | Heading(level: nat, text: string)
    | Paragraph(text: string)
    | List(ordered: bool, items: seq<string>)
    | Quote(text: string)
    | Rule
    | Code(text: string)
    | Table(head: seq<string>, align: seq<Align>, rows: seq<seq<string>>)

  /** The lines a block goes on over. */
  datatype Kind = InFence | Piped | Items(ordered: bool) | Quoted | Prose

  function Item(ordered: bool, line: Line): Option<string> {
    if ordered then line.numbered else line.bullet
  }

  predicate Continues(kind: Kind, line: Line) {
    match kind
    case InFence => !line.fence
    case Piped => line.pipe
    case Items(ordered) => Item(ordered, line).Some?
    case Quoted => line.quote
    case Prose => !(line.blank || line.pipe || line.quote || line.fence || line.startsBlock)
  }

  function OrEmpty(text: Option<string>): string {
    if text.Some? then text.value else ""
  }

  /** `replace(/^>\s?/, "")` */
  function Unquoted(t: string): string {
    if !StartsWith(t, ">") then t else if |t| > 1 && IsSpace(t[1]) then t[2..] else t[1..]
  }

  /** What a line of the block contributes to it. */
  function Piece(kind: Kind, line: Line): string {
    match kind
    case InFence => line.text
    case Piped => line.trimmed
    case Items(ordered) => OrEmpty(Item(ordered, line))
    case Quoted => Unquoted(line.trimmed)
    case Prose => line.trimmed
  }

  /** For how many lines the block goes on. */
  function Extent(lines: seq<Line>, kind: Kind): (n: nat)
    ensures n <= |lines|
  {
    if lines != [] && Continues(kind, lines[0]) then 1 + Extent(lines[1..], kind) else 0
  }

  lemma {:induction false} ExtentMeans(lines: seq<Line>, kind: Kind)
    ensures forall i | 0 <= i < Extent(lines, kind) :: Continues(kind, lines[i])
    ensures Extent(lines, kind) < |lines| ==> !Continues(kind, lines[Extent(lines, kind)])
  {
    if lines != [] && Continues(kind, lines[0]) {
      ExtentMeans(lines[1..], kind);
    }
  }

  lemma {:induction false} ExtentIs(lines: seq<Line>, kind: Kind, n: nat)
    requires n <= |lines| && forall i | 0 <= i < n :: Continues(kind, lines[i])
    requires n < |lines| ==> !Continues(kind, lines[n])
    ensures Extent(lines, kind) == n
    decreases n
  {
    if n > 0 {
      ExtentIs(lines[1..], kind, n - 1);
    }
  }

  function Pieces(kind: Kind, lines: seq<Line>): seq<string> {
    if lines == [] then [] else [Piece(kind, lines[0])] + Pieces(kind, lines[1..])
  }

  lemma {:induction false} PiecesAppend(kind: Kind, a: seq<Line>, b: seq<Line>)
    ensures Pieces(kind, a + b) == Pieces(kind, a) + Pieces(kind, b)
    decreases |a|
  {
    if a == [] {
      assert a + b == b;
    } else {
      assert (a + b)[0] == a[0] && (a + b)[1..] == a[1..] + b;
      PiecesAppend(kind, a[1..], b);
    }
  }

  function Body(lines: seq<Line>, kind: Kind): seq<string> {
    Pieces(kind, lines[..Extent(lines, kind)])
  }

  function RowsOf(lines: seq<Line>): seq<seq<string>> {
    if lines == [] then [] else [lines[0].cells] + RowsOf(lines[1..])
  }

  lemma {:induction false} RowsAppend(a: seq<Line>, line: Line)
    ensures RowsOf(a + [line]) == RowsOf(a) + [line.cells]
    decreases |a|
  {
    if a == [] {
      assert a + [line] == [line] && [line][1..] == [];
    } else {
      assert (a + [line])[0] == a[0] && (a + [line])[1..] == a[1..] + [line];
      RowsAppend(a[1..], line);
    }
  }

  function TableRows(lines: seq<Line>): seq<seq<string>> {
    RowsOf(lines[..Extent(lines, Piped)])
  }

  /** The shape of the block that opens at a line that is not blank. */
  datatype Shape = Fenced | Ruled | Headed | Tabular | Listed(ordered: bool) | Quoting | Plain

  /** A piped line opens a table only if the next line is a delimiter row; past the end there
      is only the empty text, which is none. */
  function ShapeOf(lines: seq<Line>): Shape
    requires lines != []
  {
    var line := lines[0];
    if line.fence then Fenced
    else if line.rule then Ruled
    else if line.heading.Some? then Headed
    else if line.pipe && |lines| > 1 && lines[1].delimiter then Tabular
    else if line.numbered.Some? then Listed(true)
    else if line.bullet.Some? then Listed(false)
    else if line.quote then Quoting
    else Plain
  }

  /** How many lines the block takes. */
  function Length(lines: seq<Line>): (n: nat)
    requires lines != []
    ensures 0 < n <= |lines|
  {
    match ShapeOf(lines)
    case Fenced =>
      var body := Extent(lines[1..], InFence);
      if body + 2 <= |lines| then body + 2 else |lines|
    case Ruled => 1
    case Headed => 1
    case Tabular => 2 + Extent(lines[2..], Piped)
    case Listed(ordered) => Extent(lines, Items(ordered))
    case Quoting => Extent(lines, Quoted)
    case Plain => 1 + Extent(lines[1..], Prose)
  }

  /** The lines that belong together. */
  datatype Chunk = Chunk(shape: Shape, lines: seq<Line>)

  function FirstChunk(lines: seq<Line>): Chunk
    requires lines != []
  {
    Chunk(ShapeOf(lines), lines[..Length(lines)])
  }

  /** How a text is cut up. */
  function Chunks(lines: seq<Line>): seq<Chunk>
    decreases |lines|
  {
    if lines == [] then []
    else if lines[0].blank then Chunks(lines[1..])
    else [FirstChunk(lines)] + Chunks(lines[Length(lines)..])
  }

  /** What the lines opening a block of that shape say. */
  function Render(shape: Shape, lines: seq<Line>): Block
    requires lines != [] && (shape.Tabular? ==> |lines| > 1)
  {
    var line := lines[0];
    match shape
    case Fenced => Code(Join(Body(lines[1..], InFence), "\n"))
    case Ruled => Rule
    case Headed => Heading(if line.hashes >= 4 then 4 else 3, OrEmpty(line.heading))
    case Tabular => Table(line.cells, lines[1].alignments, TableRows(lines[2..]))
    case Listed(ordered) => List(ordered, Body(lines, Items(ordered)))
    case Quoting => Quote(Join(Body(lines, Quoted), " "))
    case Plain => Paragraph(Join([line.trimmed] + Body(lines[1..], Prose), " "))
  }

  /** A chunk is read by itself; one too short for its shape says nothing. */
  function BlockOf(chunk: Chunk): Block {
    if chunk.lines == [] || (chunk.shape.Tabular? && |chunk.lines| == 1) then Rule
    else Render(chunk.shape, chunk.lines)
  }

  function BlocksOf(chunks: seq<Chunk>): seq<Block> {
    if chunks == [] then [] else [BlockOf(chunks[0])] + BlocksOf(chunks[1..])
  }

  /** The blocks of some lines. */
  function Parse(lines: seq<Line>): seq<Block> { BlocksOf(Chunks(lines)) }

  /** `source.replace(/\r\n?/g, "\n")` */
  function Normalized(source: string): string {
    if source == "" then ""
    else if source[0] == '\r' then
      "\n" + Normalized(if |source| > 1 && source[1] == '\n' then source[2..] else source[1..])
    else [source[0]] + Normalized(source[1..])
  }

  function Lines(source: string): seq<Line> { ReadAll(Split(Normalized(source), '\n')) }

  // ----- The parser as it runs -----

  /** An inner loop: collects what each line contributes while the block goes on. */
  method Collect(lines: seq<Line>, from: nat, kind: Kind) returns (body: seq<string>, index: nat)
    requires from <= |lines|
    ensures index == from + Extent(lines[from..], kind)
    ensures body == Body(lines[from..], kind)
  {
    body, index := [], from;
    ghost var rest := lines[from..];
    while index < |lines| && Continues(kind, lines[index])
      invariant from <= index <= |lines|
      invariant forall i | 0 <= i < index - from :: Continues(kind, rest[i])
      invariant body == Pieces(kind, rest[..index - from])
    {
      assert rest[..index + 1 - from] == rest[..index - from] + [lines[index]];
      PiecesAppend(kind, rest[..index - from], [lines[index]]);
      body := body + [Piece(kind, lines[index])];
      index := index + 1;
    }
    ExtentIs(rest, kind, index - from);
  }

  method CollectRows(lines: seq<Line>, from: nat) returns (rows: seq<seq<string>>, index: nat)
    requires from <= |lines|
    ensures index == from + Extent(lines[from..], Piped)
    ensures rows == TableRows(lines[from..])
  {
    rows, index := [], from;
    ghost var rest := lines[from..];
    while index < |lines| && lines[index].pipe
      invariant from <= index <= |lines|
      invariant forall i | 0 <= i < index - from :: Continues(Piped, rest[i])
      invariant rows == RowsOf(rest[..index - from])
    {
      assert rest[..index + 1 - from] == rest[..index - from] + [lines[index]];
      RowsAppend(rest[..index - from], lines[index]);
      rows := rows + [lines[index].cells];
      index := index + 1;
    }
    ExtentIs(rest, Piped, index - from);
  }

  /** One turn of the outer loop at a line that is not blank. Every branch moves on. */
  method ParseOne(lines: seq<Line>, start: nat) returns (block: Block, index: nat)
    requires start < |lines|
    ensures block == Render(ShapeOf(lines[start..]), lines[start..])
    ensures index == start + Length(lines[start..])
  {
    var line := lines[start];
    ghost var rest := lines[start..];
    assert rest[1..] == lines[start + 1..];
    assert |rest| > 1 ==> rest[1] == lines[start + 1] && rest[2..] == lines[start + 2..];
    if line.fence {
      var body, close := Collect(lines, start + 1, InFence);
      index := if close < |lines| then close + 1 else |lines|;
      block := Code(Join(body, "\n"));
    } else if line.rule {
      block, index := Rule, start + 1;
    } else if line.heading.Some? {
      block, index := Heading(if line.hashes >= 4 then 4 else 3, line.heading.value), start + 1;
    } else if line.pipe && start + 1 < |lines| && lines[start + 1].delimiter {
      var head, align := line.cells, lines[start + 1].alignments;
      var rows, next := CollectRows(lines, start + 2);
      block, index := Table(head, align, rows), next;
    } else if line.bullet.Some? || line.numbered.Some? {
      var ordered := line.numbered.Some?;
      var items, next := Collect(lines, start, Items(ordered));
      block, index := List(ordered, items), next;
    } else if line.quote {
      var body, next := Collect(lines, start, Quoted);
      block, index := Quote(Join(body, " ")), next;
    } else {
      var body, next := Collect(lines, start + 1, Prose);
      block, index := Paragraph(Join([line.trimmed] + body, " ")), next;
    }
  }

  method ParseBlocks(source: string) returns (blocks: seq<Block>)
    ensures blocks == Parse(Lines(source))
  {
    var lines := Lines(source);
    blocks := ParseLines(lines);
  }

  /** The outer loop. */
  method ParseLines(lines: seq<Line>) returns (blocks: seq<Block>)
    ensures blocks == Parse(lines)
  {
    blocks := [];
    var index := 0;
    while index < |lines|
      invariant 0 <= index <= |lines|
      invariant blocks + Parse(lines[index..]) == Parse(lines)
      decreases |lines| - index
    {
      assert lines[index..][1..] == lines[index + 1..];
      if lines[index].blank {
        index := index + 1;
      } else {
        var block, next := ParseOne(lines, index);
        assert lines[index..][next - index..] == lines[next..];
        MoveOn(blocks, block, lines[index..]);
        blocks, index := blocks + [block], next;
      }
    }
  }

  lemma MoveOn(blocks: seq<Block>, block: Block, lines: seq<Line>)
    requires lines != [] && !lines[0].blank && (ShapeOf(lines).Tabular? ==> |lines| > 1)
    requires block == Render(ShapeOf(lines), lines)
    ensures blocks + [block] + Parse(lines[Length(lines)..]) == blocks + Parse(lines)
  {
    OneBlock(lines);
  }

  /** Nothing past its own lines bears on what a block says. */
  lemma OneBlock(lines: seq<Line>)
    requires lines != [] && !lines[0].blank
    ensures ShapeOf(lines).Tabular? ==> |lines| > 1
    ensures Parse(lines) == [Render(ShapeOf(lines), lines)] + Parse(lines[Length(lines)..])
  {
    var n, shape := Length(lines), ShapeOf(lines);
    var chunk := lines[..n];
    match shape {
      case Fenced => OwnExtent(lines, chunk, 1, InFence);
      case Ruled =>
      case Headed =>
      case Tabular => OwnExtent(lines, chunk, 2, Piped);
      case Listed(ordered) => OwnExtent(lines, chunk, 0, Items(ordered));
      case Quoting => OwnExtent(lines, chunk, 0, Quoted);
      case Plain => OwnExtent(lines, chunk, 1, Prose);
    }
    assert Render(shape, chunk) == Render(shape, lines);
    assert Chunks(lines)[0] == FirstChunk(lines) && Chunks(lines)[1..] == Chunks(lines[n..]);
  }

  lemma OwnExtent(lines: seq<Line>, chunk: seq<Line>, from: nat, kind: Kind)
    requires from <= |chunk| && chunk <= lines && from + Extent(lines[from..], kind) <= |chunk|
    ensures Extent(chunk[from..], kind) == Extent(lines[from..], kind)
    ensures chunk[from..][..Extent(chunk[from..], kind)] == lines[from..][..Extent(lines[from..], kind)]
  {
    var n := Extent(lines[from..], kind);
    ExtentMeans(lines[from..], kind);
    forall i | 0 <= i < |chunk| - from
      ensures chunk[from..][i] == lines[from..][i]
    {
    }
    ExtentIs(chunk[from..], kind, n);
  }
}
