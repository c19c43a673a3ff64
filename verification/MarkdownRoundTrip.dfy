/** The renderer reads back what `MarkdownWriting` writes. */
module MarkdownRoundTrip {
  import opened Options
  import opened JsText
  import opened MarkdownLines
  import opened MarkdownBlocks
  import opened MarkdownReading
  import opened MarkdownStreaming
  import opened MarkdownWriting
  import opened Splitting

  // ----- Blocks of lines already read -----

  /** Nothing comes next, or something that does not go on with the block. */
  ghost predicate Left(kind: Kind, rest: seq<Line>) {
    rest != [] ==> !Continues(kind, rest[0])
  }

  lemma ExtentThenRest(body: seq<Line>, rest: seq<Line>, kind: Kind)
    requires (forall i | 0 <= i < |body| :: Continues(kind, body[i])) && Left(kind, rest)
    ensures Extent(body + rest, kind) == |body| && (body + rest)[..|body|] == body && (body + rest)[|body|..] == rest
  {
    ExtentIs(body + rest, kind, |body|);
  }

  lemma {:induction false} PiecesAre(kind: Kind, lines: seq<Line>, texts: seq<string>)
    requires |texts| == |lines| && forall i | 0 <= i < |lines| :: Piece(kind, lines[i]) == texts[i]
    ensures Pieces(kind, lines) == texts
  {
    if lines != [] {
      PiecesAre(kind, lines[1..], texts[1..]);
      assert texts == [texts[0]] + texts[1..];
    }
  }

  lemma {:induction false} RowsAre(lines: seq<Line>, rows: seq<seq<string>>)
    requires |rows| == |lines| && forall i | 0 <= i < |lines| :: lines[i].cells == rows[i]
    ensures RowsOf(lines) == rows
  {
    if lines != [] {
      RowsAre(lines[1..], rows[1..]);
      assert rows == [rows[0]] + rows[1..];
    }
  }

  lemma BodyThenRest(lines: seq<Line>, rest: seq<Line>, kind: Kind, texts: seq<string>)
    requires |texts| == |lines| && Left(kind, rest)
    requires forall i | 0 <= i < |lines| :: Continues(kind, lines[i]) && Piece(kind, lines[i]) == texts[i]
    ensures Extent(lines + rest, kind) == |lines| && Body(lines + rest, kind) == texts
  {
    ExtentThenRest(lines, rest, kind);
    PiecesAre(kind, lines, texts);
  }

  /** The line is none of the things that open a block, but perhaps an item or a quote. */
  ghost predicate OpensLate(l: Line) {
    !l.blank && !l.fence && !l.rule && l.heading.None?
  }

  ghost predicate HeadingSaid(lines: seq<Line>, m: Marked) {
    && |lines| == 1 && !lines[0].blank && !lines[0].fence && !lines[0].rule
    && lines[0].heading == Some(m.text) && lines[0].hashes == |m.mark|
  }

  ghost predicate RuleSaid(lines: seq<Line>) {
    |lines| == 1 && !lines[0].blank && !lines[0].fence && lines[0].rule
  }

  ghost predicate ListSaid(lines: seq<Line>, ordered: bool, texts: seq<string>) {
    && |texts| == |lines| > 0 && (forall i | 0 <= i < |lines| :: Item(ordered, lines[i]) == Some(texts[i]))
    && OpensLate(lines[0]) && !lines[0].pipe && (!ordered ==> lines[0].numbered.None?)
  }

  ghost predicate QuoteSaid(lines: seq<Line>, texts: seq<string>) {
    && |texts| == |lines| > 0
    && (forall i | 0 <= i < |lines| :: lines[i].quote && Unquoted(lines[i].trimmed) == texts[i])
    && OpensLate(lines[0]) && !lines[0].pipe && lines[0].numbered.None? && lines[0].bullet.None?
  }

  ghost predicate ParagraphSaid(lines: seq<Line>, texts: seq<string>) {
    && |texts| == |lines| > 0 && (forall i | 0 <= i < |lines| :: lines[i].trimmed == texts[i])
    && (forall i | 0 < i < |lines| :: Continues(Prose, lines[i]))
    && OpensLate(lines[0]) && lines[0].numbered.None? && lines[0].bullet.None? && !lines[0].quote
    && (lines[0].pipe ==> |lines| == 1)
  }

  ghost predicate FenceSaid(l: Line) { l.fence && !l.blank }

  ghost predicate InsideSaid(l: Line, text: string) { !l.fence && l.text == text }

  ghost predicate CodeSaid(lines: seq<Line>, texts: seq<string>) {
    && |lines| == |texts| + 2 && FenceSaid(lines[0]) && FenceSaid(lines[|texts| + 1])
    && forall i | 0 <= i < |texts| :: InsideSaid(lines[i + 1], texts[i])
  }

  ghost predicate OpenCodeSaid(lines: seq<Line>, texts: seq<string>) {
    && |lines| == |texts| + 1 && FenceSaid(lines[0])
    && forall i | 0 <= i < |texts| :: InsideSaid(lines[i + 1], texts[i])
  }

  ghost predicate RowSaid(l: Line, cells: seq<string>) { OpensLate(l) && l.pipe && l.cells == cells }

  ghost predicate DelimiterSaid(l: Line, aligns: seq<Align>) { l.delimiter && l.alignments == aligns }

  ghost predicate TableSaid(lines: seq<Line>, names: seq<string>, aligns: seq<Align>, rows: seq<seq<string>>) {
    && |lines| == |rows| + 2 && RowSaid(lines[0], names) && DelimiterSaid(lines[1], aligns)
    && forall i | 0 <= i < |rows| :: RowSaid(lines[i + 2], rows[i])
  }

  /** The lines say what the block does. */
  ghost predicate Said(lines: seq<Line>, w: Written) {
    match w
    case HeadingWritten(head) => HeadingSaid(lines, head)
    case ParagraphWritten(texts) => ParagraphSaid(lines, texts)
    case ListWritten(ordered, items) => ListSaid(lines, ordered, TextsOf(items))
    case QuoteWritten(quoted) => QuoteSaid(lines, QuoteTexts(quoted))
    case RuleWritten(_, _) => RuleSaid(lines)
    case CodeWritten(_, body, _) => CodeSaid(lines, body)
    case OpenCodeWritten(_, body) => OpenCodeSaid(lines, body)
    case TableWritten(names, _, columns, _, rows) => TableSaid(lines, names, AlignsOf(columns), rows)
  }

  lemma HeadingThenRest(lines: seq<Line>, rest: seq<Line>, m: Marked)
    requires HeadingSaid(lines, m) && |m.mark| <= 4
    ensures Parse(lines + rest) == [Heading(if |m.mark| == 4 then 4 else 3, m.text)] + Parse(rest)
  {
    OneBlock(lines + rest);
    assert (lines + rest)[1..] == rest;
  }

  lemma RuleThenRest(lines: seq<Line>, rest: seq<Line>)
    requires RuleSaid(lines)
    ensures Parse(lines + rest) == [Rule] + Parse(rest)
  {
    OneBlock(lines + rest);
    assert (lines + rest)[1..] == rest;
  }

  lemma ListThenRest(lines: seq<Line>, rest: seq<Line>, ordered: bool, items: seq<string>)
    requires ListSaid(lines, ordered, items) && Left(Items(ordered), rest)
    ensures Parse(lines + rest) == [List(ordered, items)] + Parse(rest)
  {
    assert ShapeOf(lines + rest) == Listed(ordered) by {
      assert (lines + rest)[0] == lines[0] && Item(ordered, lines[0]).Some?;
    }
    BodyThenRest(lines, rest, Items(ordered), items);
    OneBlock(lines + rest);
    assert (lines + rest)[|lines|..] == rest;
  }

  lemma QuoteThenRest(lines: seq<Line>, rest: seq<Line>, texts: seq<string>)
    requires QuoteSaid(lines, texts) && Left(Quoted, rest)
    ensures Parse(lines + rest) == [Quote(Join(texts, " "))] + Parse(rest)
  {
    assert ShapeOf(lines + rest) == Quoting by {
      assert (lines + rest)[0] == lines[0] && lines[0].quote;
    }
    BodyThenRest(lines, rest, Quoted, texts);
    OneBlock(lines + rest);
    assert (lines + rest)[|lines|..] == rest;
  }

  lemma PlainBlock(lines: seq<Line>, n: nat)
    requires lines != [] && ShapeOf(lines) == Plain && !lines[0].blank && Extent(lines[1..], Prose) == n
    ensures Parse(lines) == [Paragraph(Join([lines[0].trimmed] + Body(lines[1..], Prose), " "))] + Parse(lines[1 + n..])
  {
    OneBlock(lines);
  }

  lemma ProseBody(more: seq<Line>, rest: seq<Line>, texts: seq<string>)
    requires |texts| == |more| && Left(Prose, rest)
    requires forall i | 0 <= i < |more| :: Continues(Prose, more[i]) && more[i].trimmed == texts[i]
    ensures Extent(more + rest, Prose) == |more| && Body(more + rest, Prose) == texts
  {
    BodyThenRest(more, rest, Prose, texts);
  }

  lemma PlainSaid(lines: seq<Line>, more: seq<Line>, rest: seq<Line>, texts: seq<string>)
    requires lines != [] && ShapeOf(lines) == Plain && !lines[0].blank && Left(Prose, rest)
    requires lines[1..] == more + rest && 1 + |more| <= |lines| && lines[1 + |more|..] == rest
    requires |texts| == |more| && forall i | 0 <= i < |more| :: Continues(Prose, more[i]) && more[i].trimmed == texts[i]
    ensures Parse(lines) == [Paragraph(Join([lines[0].trimmed] + texts, " "))] + Parse(rest)
  {
    ProseBody(more, rest, texts);
    PlainBlock(lines, |more|);
  }

  lemma PlainThenRest(first: Line, more: seq<Line>, rest: seq<Line>, texts: seq<string>)
    requires ShapeOf([first] + (more + rest)) == Plain && !first.blank && Left(Prose, rest)
    requires |texts| == |more| && forall i | 0 <= i < |more| :: Continues(Prose, more[i]) && more[i].trimmed == texts[i]
    ensures Parse([first] + (more + rest)) == [Paragraph(Join([first.trimmed] + texts, " "))] + Parse(rest)
  {
    var c := [first] + (more + rest);
    InParts([first], more, rest, 0);
    PlainSaid(c, more, rest, texts);
  }

  lemma ParagraphThenRest(lines: seq<Line>, rest: seq<Line>, texts: seq<string>)
    requires ParagraphSaid(lines, texts) && Left(Prose, rest)
    requires lines[0].pipe && rest != [] ==> !rest[0].delimiter
    ensures Parse(lines + rest) == [Paragraph(Join(texts, " "))] + Parse(rest)
  {
    var more := lines[1..];
    var c := [lines[0]] + (more + rest);
    assert lines + rest == c;
    assert ShapeOf(c) == Plain by {
      assert c[0] == lines[0] && (lines[0].pipe && |c| > 1 ==> c[1] == rest[0]);
    }
    PlainThenRest(lines[0], more, rest, texts[1..]);
    assert [texts[0]] + texts[1..] == texts;
  }

  lemma InParts(front: seq<Line>, body: seq<Line>, rest: seq<Line>, n: nat)
    requires front != [] && n <= |rest|
    ensures var c := front + (body + rest);
            c[0] == front[0] && c[|front|..] == body + rest && c[|front| + |body| + n..] == rest[n..]
    ensures rest[0..] == rest
  {
  }

  lemma FencedBlock(lines: seq<Line>, n: nat)
    requires lines != [] && FenceSaid(lines[0]) && Extent(lines[1..], InFence) == n && n + 2 <= |lines|
    ensures Parse(lines) == [Code(Join(Body(lines[1..], InFence), "\n"))] + Parse(lines[n + 2..])
  {
    OneBlock(lines);
  }

  lemma FencedBody(body: seq<Line>, after: seq<Line>, texts: seq<string>)
    requires after != [] && after[0].fence
    requires |texts| == |body| && forall i | 0 <= i < |body| :: !body[i].fence && body[i].text == texts[i]
    ensures Extent(body + after, InFence) == |body| && Body(body + after, InFence) == texts
  {
    BodyThenRest(body, after, InFence, texts);
  }

  lemma FencedSaid(lines: seq<Line>, body: seq<Line>, after: seq<Line>, texts: seq<string>)
    requires lines != [] && FenceSaid(lines[0]) && after != [] && after[0].fence
    requires lines[1..] == body + after && 2 + |body| <= |lines| && lines[|body| + 2..] == after[1..]
    requires |texts| == |body| && forall i | 0 <= i < |body| :: !body[i].fence && body[i].text == texts[i]
    ensures Parse(lines) == [Code(Join(texts, "\n"))] + Parse(after[1..])
  {
    FencedBody(body, after, texts);
    FencedBlock(lines, |body|);
  }

  lemma FencedThenRest(start: Line, body: seq<Line>, after: seq<Line>, texts: seq<string>)
    requires start.fence && !start.blank && after != [] && after[0].fence
    requires |texts| == |body| && forall i | 0 <= i < |body| :: !body[i].fence && body[i].text == texts[i]
    ensures Parse([start] + (body + after)) == [Code(Join(texts, "\n"))] + Parse(after[1..])
  {
    var c := [start] + (body + after);
    InParts([start], body, after, 1);
    FencedSaid(c, body, after, texts);
  }

  lemma CodeThenRest(lines: seq<Line>, rest: seq<Line>, texts: seq<string>)
    requires CodeSaid(lines, texts)
    ensures Parse(lines + rest) == [Code(Join(texts, "\n"))] + Parse(rest)
  {
    var n := |texts|;
    var body, after := lines[1..n + 1], [lines[n + 1]] + rest;
    assert lines + rest == [lines[0]] + (body + after);
    assert after[1..] == rest;
    forall i | 0 <= i < n
      ensures !body[i].fence && body[i].text == texts[i]
    {
      assert body[i] == lines[i + 1] && InsideSaid(lines[i + 1], texts[i]);
    }
    FencedThenRest(lines[0], body, after, texts);
  }

  lemma OpenBlock(lines: seq<Line>)
    requires lines != [] && FenceSaid(lines[0]) && Extent(lines[1..], InFence) == |lines| - 1
    ensures Parse(lines) == [Code(Join(Body(lines[1..], InFence), "\n"))]
  {
    OneBlock(lines);
    assert Parse([]) == [];
  }

  /** A fence that nothing closes takes the rest of the text. */
  lemma OpenCodeAlone(lines: seq<Line>, rest: seq<Line>, texts: seq<string>)
    requires OpenCodeSaid(lines, texts) && rest == []
    ensures Parse(lines + rest) == [Code(Join(texts, "\n"))] + Parse(rest)
  {
    var body := lines[1..];
    forall i | 0 <= i < |body|
      ensures !body[i].fence && body[i].text == texts[i]
    {
      assert body[i] == lines[i + 1] && InsideSaid(lines[i + 1], texts[i]);
    }
    BodyThenRest(body, [], InFence, texts);
    assert body + [] == body && lines + rest == lines;
    OpenBlock(lines);
    assert Parse([]) == [];
  }

  lemma RowsThenRest(head: Line, delimiter: Line, rows: seq<Line>, rest: seq<Line>, cells: seq<seq<string>>)
    requires OpensLate(head) && head.pipe && delimiter.delimiter && Left(Piped, rest)
    requires |cells| == |rows| && forall i | 0 <= i < |rows| :: rows[i].pipe && rows[i].cells == cells[i]
    ensures Parse([head, delimiter] + (rows + rest)) == [Table(head.cells, delimiter.alignments, cells)] + Parse(rest)
  {
    var c := [head, delimiter] + (rows + rest);
    assert c[0] == head && c[1] == delimiter && c[2..] == rows + rest && c[2 + |rows|..] == rest;
    ExtentThenRest(rows, rest, Piped);
    RowsAre(rows, cells);
    OneBlock(c);
  }

  lemma TableThenRest(lines: seq<Line>, rest: seq<Line>, names: seq<string>, aligns: seq<Align>, rows: seq<seq<string>>)
    requires TableSaid(lines, names, aligns, rows) && Left(Piped, rest)
    ensures Parse(lines + rest) == [Table(names, aligns, rows)] + Parse(rest)
  {
    var body := lines[2..];
    assert lines + rest == [lines[0], lines[1]] + (body + rest);
    forall i | 0 <= i < |rows|
      ensures body[i].pipe && body[i].cells == rows[i]
    {
      assert body[i] == lines[i + 2] && RowSaid(lines[i + 2], rows[i]);
    }
    RowsThenRest(lines[0], lines[1], body, rest, rows);
  }

  /** The line does not go on with the block. */
  ghost predicate LineLeaves(w: Written, line: Line) {
    match w
    case ParagraphWritten(texts) =>
      !Continues(Prose, line) && (texts != [] && "|" <= texts[0] ==> !line.delimiter)
    case ListWritten(ordered, _) => Item(ordered, line) == None
    case QuoteWritten(_) => !line.quote
    case TableWritten(_, _, _, _, _) => !line.pipe
    case OpenCodeWritten(_, _) => false
    case _ => true
  }

  /** Nothing follows the block, or a line that does not go on with it. */
  ghost predicate LeftBy(w: Written, rest: seq<Line>) {
    rest != [] ==> LineLeaves(w, rest[0])
  }

  /** Lines that say a block are read as it, and what follows them is read on its own. */
  lemma BlockThenRest(lines: seq<Line>, w: Written, rest: seq<Line>)
    requires Said(lines, w) && LeftBy(w, rest)
    requires w.HeadingWritten? ==> |w.head.mark| <= 4
    requires w.ParagraphWritten? ==> (lines[0].pipe <==> "|" <= w.lines[0])
    ensures Parse(lines + rest) == [Meaning(w)] + Parse(rest)
  {
    match w
    case HeadingWritten(head) => HeadingThenRest(lines, rest, head);
    case ParagraphWritten(texts) => ParagraphThenRest(lines, rest, texts);
    case ListWritten(ordered, items) => ListThenRest(lines, rest, ordered, TextsOf(items));
    case QuoteWritten(quoted) => QuoteThenRest(lines, rest, QuoteTexts(quoted));
    case RuleWritten(_, _) => RuleThenRest(lines, rest);
    case CodeWritten(_, body, _) => CodeThenRest(lines, rest, body);
    case OpenCodeWritten(_, body) => OpenCodeAlone(lines, rest, body);
    case TableWritten(names, _, columns, _, rows) => TableThenRest(lines, rest, names, AlignsOf(columns), rows);
  }

  lemma {:induction false} BlankLinesFirst(blanks: seq<Line>, rest: seq<Line>)
    requires forall i | 0 <= i < |blanks| :: blanks[i].blank
    ensures Parse(blanks + rest) == Parse(rest)
    decreases |blanks|
  {
    if blanks == [] {
      assert blanks + rest == rest;
    } else {
      assert (blanks + rest)[0] == blanks[0] && (blanks + rest)[1..] == blanks[1..] + rest;
      BlankLinesFirst(blanks[1..], rest);
    }
  }

  // ----- Lines as they are written -----

  /** What the renderer asks of a line it asks of the text without the whitespace around it. */
  lemma ReadPadded(before: string, t: string, after: string)
    requires Blank(before) && Blank(after) && Core(t)
    ensures var l := Read(before + t + after);
            && l.text == before + t + after && l.trimmed == t && (l.blank <==> t == "")
            && (l.fence <==> "```" <= t) && (l.rule <==> IsRule(t))
            && l.hashes == Hashes(t) && l.heading == HeadingText(t)
            && (l.pipe <==> "|" <= t) && l.cells == SplitCells(t) && l.numbered == NumberedText(t)
            && l.bullet == BulletText(t) && (l.quote <==> ">" <= t)
  {
    TrimOf(before, t, after);
  }

  lemma MarkedIsMarked(m: Marked)
    requires MarkedWell(m) && m.mark != ""
    ensures var t := MarkedText(m);
            && IsMarkedBy(t, m.mark, m.spaces, m.text) && |m.mark| < |t| && IsSpace(t[|m.mark|])
            && !IsSpace(t[|t| - 1])
  {
    var t := MarkedText(m);
    assert t[|m.mark|..] == m.spaces + m.text;
    assert t[|m.mark|] == m.spaces[0];
    assert t[|t| - 1] == m.text[|m.text| - 1];
  }

  lemma HeadingLine(t: string, m: Marked)
    requires HashMark(m.mark) && MarkedWell(m) && t == MarkedText(m)
    ensures Solid(t) && !("```" <= t) && !IsRule(t) && HeadingText(t) == Some(m.text) && Hashes(t) == |m.mark|
  {
    MarkedIsMarked(m);
    assert t[0] == m.mark[0] == '#';
    HeadedBy(t, m.mark, m.spaces, m.text);
    StartsElsewhere(t, "```");
    NoRuleWithSpace(t, |m.mark|);
  }

  lemma StartsElsewhere(t: string, prefix: string)
    requires t != "" && prefix != "" && t[0] != prefix[0]
    ensures !(prefix <= t)
  {
  }

  lemma NotOpened(t: string)
    requires t != "" && t[0] != '`' && t[0] != '#' && t[0] != '|'
    ensures !("```" <= t) && HeadingText(t) == None && !("|" <= t)
  {
    StartsElsewhere(t, "```");
    StartsElsewhere(t, "|");
  }

  /** A line opened by an item's marker opens nothing else. */
  lemma ItemOpens(t: string, mark: string)
    requires mark != "" && mark <= t && |mark| < |t| && IsSpace(t[|mark|]) && !IsSpace(t[|t| - 1])
    requires '0' <= mark[0] <= '9' || mark[0] == '-' || mark[0] == '*' || mark[0] == '+'
    ensures Solid(t) && !("```" <= t) && !IsRule(t) && HeadingText(t) == None && !("|" <= t)
    ensures !('0' <= mark[0] <= '9') ==> NumberedText(t) == None
  {
    assert t[0] == mark[0];
    NotOpened(t);
    NoRuleWithSpace(t, |mark|);
  }

  lemma NumberMarkOpens(mark: string)
    requires NumberMark(mark)
    ensures '0' <= mark[0] <= '9'
  {
    assert mark[0] == mark[..|mark| - 1][0];
  }

  lemma NumberLine(t: string, m: Marked)
    requires NumberMark(m.mark) && MarkedWell(m) && t == MarkedText(m)
    ensures Solid(t) && !("```" <= t) && !IsRule(t) && HeadingText(t) == None && !("|" <= t)
    ensures NumberedText(t) == Some(m.text)
  {
    MarkedIsMarked(m);
    NumberMarkOpens(m.mark);
    ItemOpens(t, m.mark);
    NumberedBy(t, m.mark, m.spaces, m.text);
  }

  lemma BulletLine(t: string, m: Marked)
    requires BulletMark(m.mark) && MarkedWell(m) && t == MarkedText(m)
    ensures Solid(t) && !("```" <= t) && !IsRule(t) && HeadingText(t) == None && !("|" <= t)
    ensures BulletText(t) == Some(m.text) && NumberedText(t) == None
  {
    MarkedIsMarked(m);
    ItemOpens(t, m.mark);
    BulletedBy(t, m.mark, m.spaces, m.text);
  }

  lemma NoRuleWithSpace(t: string, i: nat)
    requires i < |t| && IsSpace(t[i])
    ensures !IsRule(t)
  {
    assert t[i] in t && t[i] != '-' && t[i] != '*';
  }

  lemma QuotedLine(t: string, q: QuoteLine)
    requires QuotedWell(q) && t == QuoteText(q)
    ensures Solid(t) && !("```" <= t) && !IsRule(t) && HeadingText(t) == None && !("|" <= t)
    ensures NumberedText(t) == None && BulletText(t) == None && ">" <= t && Unquoted(t) == q.text
  {
    assert t[0] == '>' && t[1..] == q.space + q.text;
    assert q.text != "" ==> t[|t| - 1] == q.text[|q.text| - 1];
    NotOpened(t);
    assert t[0] in t;
    if q.space != "" {
      assert t[1] == q.space[0] && t[2..] == q.text;
    } else {
      assert t[1..] == q.text && (q.text != "" ==> t[1] == q.text[0]);
    }
  }

  lemma MarkedOpens(t: string, mark: string, spaces: string, text: string)
    requires IsMarkedBy(t, mark, spaces, text) && (HashMark(mark) || BulletMark(mark) || NumberMark(mark))
    ensures OpensMarked(t)
  {
    assert t[|mark|] == t[|mark|..][0] == spaces[0];
  }

  lemma UnmarkedIsNothing(t: string)
    requires !OpensMarked(t)
    ensures HeadingText(t) == None && BulletText(t) == None && NumberedText(t) == None
  {
    if HeadingText(t).Some? {
      HeadingMeans(t, HeadingText(t).value);
      var mark, spaces :| HashMark(mark) && IsMarkedBy(t, mark, spaces, HeadingText(t).value);
      MarkedOpens(t, mark, spaces, HeadingText(t).value);
    }
    if BulletText(t).Some? {
      BulletMeans(t, BulletText(t).value);
      var mark, spaces :| BulletMark(mark) && IsMarkedBy(t, mark, spaces, BulletText(t).value);
      MarkedOpens(t, mark, spaces, BulletText(t).value);
    }
    if NumberedText(t).Some? {
      NumberedMeans(t, NumberedText(t).value);
      var mark, spaces :| NumberMark(mark) && IsMarkedBy(t, mark, spaces, NumberedText(t).value);
      MarkedOpens(t, mark, spaces, NumberedText(t).value);
    }
  }

  lemma ParagraphOpening(t: string, alone: bool)
    requires OpensParagraph(t, alone)
    ensures !("```" <= t) && !IsRule(t) && HeadingText(t) == None && !(">" <= t)
    ensures NumberedText(t) == None && BulletText(t) == None && ("|" <= t ==> alone)
  {
    UnmarkedIsNothing(t);
    RuleMeans(t);
  }

  lemma RuleLine(t: string, dash: char, length: nat)
    requires (dash == '-' || dash == '*') && length >= 3 && t == Repeated(dash, length)
    ensures Solid(t) && !("```" <= t) && IsRule(t)
  {
    StartsElsewhere(t, "```");
    RuleMeans(t);
  }

  lemma FenceLine(t: string, info: string)
    requires EndsWell(info) && t == "```" + info
    ensures Solid(t) && "```" <= t
  {
    assert info != "" ==> t[|t| - 1] == info[|info| - 1];
  }

  lemma PrefixOfMore(prefix: string, s: string, more: string)
    requires prefix <= s
    ensures prefix <= s + more
  {
  }

  lemma NoPrefixOfMore(prefix: string, s: string, more: string)
    requires !(prefix <= s + more)
    ensures !(prefix <= s)
  {
    if prefix <= s {
      PrefixOfMore(prefix, s, more);
    }
  }

  lemma NoFenceAtItsStart(s: string)
    requires NoFence(s)
    ensures !("```" <= Trim(s))
  {
    var before, after := TrimParts(s);
    var rest := Trim(s) + after;
    assert s == before + rest;
    assert s[..|before|] == before && s[|before|..] == rest;
    NoPrefixOfMore("```", Trim(s), after);
  }

  lemma InsideFence(s: string)
    requires NoFence(s)
    ensures !Read(s).fence && Read(s).text == s
  {
    NoFenceAtItsStart(s);
    ReadStops(s);
  }

  // ----- Table rows -----

  lemma {:induction false} JoinHead(parts: seq<string>, head: string)
    requires parts != []
    ensures Join([head + parts[0]] + parts[1..], "|") == head + Join(parts, "|")
  {
    var longer := [head + parts[0]] + parts[1..];
    if |parts| > 1 {
      assert longer[1..] == parts[1..];
      assert head + parts[0] + "|" + Join(parts[1..], "|") == head + (parts[0] + "|" + Join(parts[1..], "|"));
    }
  }

  lemma {:induction false} JoinTail(parts: seq<string>, tail: string)
    requires parts != []
    ensures Join(parts[..|parts| - 1] + [parts[|parts| - 1] + tail], "|") == Join(parts, "|") + tail
    decreases |parts|
  {
    var longer := parts[..|parts| - 1] + [parts[|parts| - 1] + tail];
    if |parts| == 1 {
      assert longer == [parts[0] + tail];
    } else {
      var rest := parts[1..];
      JoinTail(rest, tail);
      assert longer[1..] == rest[..|rest| - 1] + [rest[|rest| - 1] + tail];
      assert parts[0] + "|" + (Join(rest, "|") + tail) == parts[0] + "|" + Join(rest, "|") + tail;
    }
  }

  lemma SpacedLead(cells: seq<string>, lead: string, trail: string)
    requires cells != []
    ensures Join(Spaced(cells, lead, trail), "|") == lead + Join(Spaced(cells, "", trail), "|")
  {
    var plain := Spaced(cells, "", trail);
    JoinHead(plain, lead);
    assert lead + plain[0] == Spaced(cells, lead, trail)[0];
    assert [lead + plain[0]] + plain[1..] == Spaced(cells, lead, trail);
  }

  lemma SpacedTrail(cells: seq<string>, lead: string, trail: string)
    requires cells != []
    ensures Join(Spaced(cells, lead, trail), "|") == Join(Spaced(cells, lead, ""), "|") + trail
  {
    var plain, n := Spaced(cells, lead, ""), |cells|;
    JoinTail(plain, trail);
    assert plain[n - 1] + trail == Spaced(cells, lead, trail)[n - 1];
    assert plain[..n - 1] + [plain[n - 1] + trail] == Spaced(cells, lead, trail);
  }

  lemma CellInSpace(left: string, cell: string, right: string)
    requires Blank(left) && Blank(right) && Core(cell) && '|' !in cell
    ensures '|' !in left + cell + right && Trim(left + cell + right) == cell
  {
    TrimOf(left, cell, right);
    assert forall k | 0 <= k < |left| :: left[k] != '|';
    assert forall k | 0 <= k < |right| :: right[k] != '|';
  }

  /** The cells come back whatever whitespace is around them. */
  lemma SpacedIsSplit(cells: seq<string>, lead: string, trail: string)
    requires cells != [] && Blank(lead) && Blank(trail)
    requires forall i | 0 <= i < |cells| :: Core(cells[i]) && '|' !in cells[i]
    ensures Trimmed(Split(Join(Spaced(cells, lead, trail), "|"), '|')) == cells
  {
    var parts := Spaced(cells, lead, trail);
    forall i | 0 <= i < |parts|
      ensures '|' !in parts[i] && Trim(parts[i]) == cells[i]
    {
      CellInSpace(if i == 0 then lead else " ", cells[i], if i == |cells| - 1 then trail else " ");
    }
    SplitJoin(parts, '|');
  }

  /** The inside of a row, between its outer pipes if it has them. */
  function Inner(cells: seq<string>, edges: Edges): string {
    Join(Spaced(cells, if edges.front then " " else "", if edges.back then " " else ""), "|")
  }

  lemma {:induction false} JoinEnds(parts: seq<string>)
    requires parts != [] && parts[|parts| - 1] != ""
    ensures var x, last := Join(parts, "|"), parts[|parts| - 1];
            && x != "" && x[|x| - 1] == last[|last| - 1] && (parts[0] != "" ==> x[0] == parts[0][0])
    decreases |parts|
  {
    if |parts| > 1 {
      assert parts[1..][|parts| - 2] == parts[|parts| - 1];
      JoinEnds(parts[1..]);
    }
  }

  lemma InnerEnds(cells: seq<string>, edges: Edges)
    requires CellsWell(cells, edges)
    ensures var x := Inner(cells, edges);
            && x != "" && x[0] != '|' && x[|x| - 1] != '|'
            && (edges.front || !IsSpace(x[0])) && (edges.back || !IsSpace(x[|x| - 1]))
  {
    var front, back := if edges.front then " " else "", if edges.back then " " else "";
    var parts := Spaced(cells, front, back);
    var last := cells[|cells| - 1];
    assert parts[0] != "" && parts[|parts| - 1] != "";
    assert edges.front ==> parts[0][0] == ' ';
    assert !edges.front ==> parts[0][0] == cells[0][0] && cells[0][0] in cells[0];
    assert edges.back ==> parts[|parts| - 1][|parts[|parts| - 1]| - 1] == ' ';
    assert !edges.back ==> parts[|parts| - 1][|parts[|parts| - 1]| - 1] == last[|last| - 1] && last[|last| - 1] in last;
    JoinEnds(parts);
  }

  lemma FirstPipeOff(before: string, x: string)
    requires Blank(before)
    ensures WithoutFirstPipe(before + ("|" + x)) == x
  {
    TrimStartOf(before, "|" + x);
  }

  lemma NoFirstPipe(before: string, x: string)
    requires Blank(before) && x != "" && x[0] != '|' && !IsSpace(x[0])
    ensures WithoutFirstPipe(before + x) == before + x
  {
    TrimStartOf(before, x);
  }

  lemma LastPipeOff(x: string, after: string)
    requires Blank(after)
    ensures WithoutLastPipe((x + "|") + after) == x
  {
    TrimEndOf(x + "|", after);
    assert (x + "|")[..|x|] == x;
  }

  lemma NoLastPipe(x: string, after: string)
    requires Blank(after) && x != "" && x[|x| - 1] != '|' && !IsSpace(x[|x| - 1])
    ensures WithoutLastPipe(x + after) == x + after
  {
    TrimEndOf(x, after);
  }

  /** What is left of a row once its first pipe, if it has one, is off with what is before it. */
  lemma FrontOff(before: string, cells: seq<string>, edges: Edges, after: string) returns (lead: string, rest: string)
    requires CellsWell(cells, edges) && Blank(before) && Blank(after)
    ensures WithoutFirstPipe(before + Row(cells, edges) + after) == lead + Inner(cells, edges) + rest
    ensures lead == (if edges.front then "" else before) && rest == (if edges.back then "|" else "") + after
  {
    var x := Inner(cells, edges);
    InnerEnds(cells, edges);
    lead, rest := if edges.front then "" else before, (if edges.back then "|" else "") + after;
    RowAround(before, cells, edges, after);
    FirstPipe(before, x, rest, edges.front);
  }

  lemma FirstPipe(before: string, x: string, rest: string, front: bool)
    requires Blank(before) && x != "" && x[0] != '|' && (front || !IsSpace(x[0]))
    ensures WithoutFirstPipe(if front then before + ("|" + (x + rest)) else before + (x + rest))
            == (if front then "" else before) + x + rest
  {
    if front {
      FirstPipeOff(before, x + rest);
      assert "" + x + rest == x + rest;
    } else {
      NoFirstPipe(before, x + rest);
      assert before + x + rest == before + (x + rest);
    }
  }

  lemma RowAround(before: string, cells: seq<string>, edges: Edges, after: string)
    ensures var x, rest := Inner(cells, edges), (if edges.back then "|" else "") + after;
            before + Row(cells, edges) + after ==
            if edges.front then before + ("|" + (x + rest)) else before + (x + rest)
  {
  }

  /** And once its last one is, with what is after it. */
  lemma BackOff(lead: string, x: string, back: bool, after: string)
    requires Blank(after) && x != "" && x[|x| - 1] != '|' && (back || !IsSpace(x[|x| - 1]))
    ensures WithoutLastPipe(lead + x + ((if back then "|" else "") + after)) == lead + x + if back then "" else after
  {
    var line := lead + x;
    assert line[|line| - 1] == x[|x| - 1];
    if back {
      LastPipeOff(line, after);
      assert line + ("|" + after) == (line + "|") + after;
      assert line + "" == line;
    } else {
      NoLastPipe(line, after);
      assert "" + after == after;
    }
  }

  /** A row, wherever it stands on its line and with whichever of its outer pipes, gives back its cells. */
  lemma RowSplits(before: string, cells: seq<string>, edges: Edges, after: string)
    requires CellsWell(cells, edges) && Blank(before) && Blank(after)
    ensures SplitCells(before + Row(cells, edges) + after) == cells
  {
    var x := Inner(cells, edges);
    var lead, rest := FrontOff(before, cells, edges, after);
    InnerEnds(cells, edges);
    BackOff(lead, x, edges.back, after);
    var inside := lead + x + if edges.back then "" else after;
    InsideIsSpaced(cells, edges, before, after, inside);
    SpacedIsSplit(cells, if edges.front then " " else before, if edges.back then " " else after);
  }

  lemma InsideIsSpaced(cells: seq<string>, edges: Edges, before: string, after: string, inside: string)
    requires cells != []
    requires inside == (if edges.front then "" else before) + Inner(cells, edges) + (if edges.back then "" else after)
    ensures inside ==
            Join(Spaced(cells, if edges.front then " " else before, if edges.back then " " else after), "|")
  {
    var front, back := if edges.front then " " else "", if edges.back then " " else "";
    var lead, trail := if edges.front then " " else before, if edges.back then " " else after;
    SpacedLead(cells, front, back);
    SpacedLead(cells, lead, back);
    SpacedTrail(cells, lead, back);
    SpacedTrail(cells, lead, trail);
  }

  lemma RowLine(cells: seq<string>, edges: Edges)
    requires CellsWell(cells, edges)
    ensures Solid(Row(cells, edges)) && (edges.front ==> "|" <= Row(cells, edges))
  {
    InnerEnds(cells, edges);
    Bracketed(if edges.front then "|" else "", Inner(cells, edges), if edges.back then "|" else "");
  }

  lemma Bracketed(front: string, x: string, back: string)
    requires x != "" && (front == "|" || (front == "" && !IsSpace(x[0])))
    requires back == "|" || (back == "" && !IsSpace(x[|x| - 1]))
    ensures Solid(front + x + back) && (front != "" ==> "|" <= front + x + back)
  {
    var t := front + x + back;
    assert t[0] == if front == "" then x[0] else '|';
    assert t[|t| - 1] == if back == "" then x[|x| - 1] else '|';
  }

  lemma PipeLine(t: string)
    requires "|" <= t
    ensures !("```" <= t) && !IsRule(t) && HeadingText(t) == None
  {
    assert t[0] == '|' && t[0] in t;
    StartsElsewhere(t, "```");
  }

  lemma ColumnsWell(columns: seq<Column>, edges: Edges)
    requires columns != [] && forall i | 0 <= i < |columns| :: columns[i].dashes > 0
    ensures CellsWell(ColumnCells(columns), edges)
  {
    var cells := ColumnCells(columns);
    forall i | 0 <= i < |cells|
      ensures Solid(cells[i]) && OneLine(cells[i]) && '|' !in cells[i]
    {
      DelimiterCellReads(columns[i].left, columns[i].dashes, columns[i].right);
    }
  }

  lemma ColumnsAlign(columns: seq<Column>)
    requires forall i | 0 <= i < |columns| :: columns[i].dashes > 0
    ensures Alignments(ColumnCells(columns)) == AlignsOf(columns)
    ensures forall i | 0 <= i < |columns| :: IsDashes(Trim(ColumnCells(columns)[i]))
  {
    var cells := ColumnCells(columns);
    forall i | 0 <= i < |cells|
      ensures IsDashes(Trim(cells[i])) && AlignmentOf(cells[i]) == AlignmentSaid(columns[i].left, columns[i].right)
    {
      DelimiterCellReads(columns[i].left, columns[i].dashes, columns[i].right);
      TrimOf("", cells[i], "");
      assert "" + cells[i] + "" == cells[i];
    }
  }

  lemma DelimiterLine(text: string, columns: seq<Column>)
    requires SplitCells(text) == ColumnCells(columns) && forall i | 0 <= i < |columns| :: columns[i].dashes > 0
    ensures Read(text).delimiter && Read(text).alignments == AlignsOf(columns)
  {
    ColumnsAlign(columns);
  }

  // ----- Blocks as they are written -----

  lemma PrintedAt(p: Placed, texts: seq<string>, i: nat)
    requires i < |texts|
    ensures ReadAll(PaddedAll(p, texts))[i] == Read(Padded(p, texts[i]))
  {
  }

  ghost predicate AroundIsBlank(p: Placed) { Blank(p.before) && Blank(p.after) }

  lemma HeadingRead(p: Placed, m: Marked)
    requires HashMark(m.mark) && MarkedWell(m) && AroundIsBlank(p)
    ensures HeadingSaid([Read(Padded(p, MarkedText(m)))], m)
  {
    HeadingLine(MarkedText(m), m);
    ReadPadded(p.before, MarkedText(m), p.after);
  }

  lemma RuleRead(p: Placed, dash: char, length: nat)
    requires (dash == '-' || dash == '*') && length >= 3 && AroundIsBlank(p)
    ensures RuleSaid([Read(Padded(p, Repeated(dash, length)))])
  {
    RuleLine(Repeated(dash, length), dash, length);
    ReadPadded(p.before, Repeated(dash, length), p.after);
  }

  ghost predicate ItemSaid(l: Line, ordered: bool, text: string) {
    Item(ordered, l) == Some(text) && OpensLate(l) && !l.pipe && (!ordered ==> l.numbered.None?)
  }

  predicate ItemWell(m: Marked, ordered: bool) {
    MarkedWell(m) && if ordered then NumberMark(m.mark) else BulletMark(m.mark)
  }

  lemma ItemRead(p: Placed, m: Marked, ordered: bool)
    requires ItemWell(m, ordered) && AroundIsBlank(p)
    ensures ItemSaid(Read(Padded(p, MarkedText(m))), ordered, m.text)
  {
    var t := MarkedText(m);
    if ordered {
      NumberLine(t, m);
    } else {
      BulletLine(t, m);
    }
    ReadPadded(p.before, t, p.after);
  }

  lemma ItemsRead(p: Placed, items: seq<Marked>, ordered: bool)
    requires items != [] && (forall i | 0 <= i < |items| :: ItemWell(items[i], ordered)) && AroundIsBlank(p)
    ensures ListSaid(ReadAll(PaddedAll(p, MarkedTexts(items))), ordered, TextsOf(items))
  {
    var lines := ReadAll(PaddedAll(p, MarkedTexts(items)));
    forall i | 0 <= i < |items|
      ensures ItemSaid(lines[i], ordered, TextsOf(items)[i])
    {
      PrintedAt(p, MarkedTexts(items), i);
      ItemRead(p, items[i], ordered);
    }
    AreItems(lines, ordered, TextsOf(items));
  }

  lemma AreItems(lines: seq<Line>, ordered: bool, texts: seq<string>)
    requires |texts| == |lines| > 0 && forall i | 0 <= i < |lines| :: ItemSaid(lines[i], ordered, texts[i])
    ensures ListSaid(lines, ordered, texts)
  {
    assert ItemSaid(lines[0], ordered, texts[0]);
  }

  ghost predicate QuotedSaid(l: Line, text: string) {
    && l.quote && Unquoted(l.trimmed) == text && OpensLate(l) && !l.pipe
    && l.numbered.None? && l.bullet.None?
  }

  lemma QuotedRead(p: Placed, q: QuoteLine)
    requires QuotedWell(q) && AroundIsBlank(p)
    ensures QuotedSaid(Read(Padded(p, QuoteText(q))), q.text)
  {
    QuotedLine(QuoteText(q), q);
    ReadPadded(p.before, QuoteText(q), p.after);
  }

  lemma QuotesRead(p: Placed, quoted: seq<QuoteLine>)
    requires quoted != [] && (forall i | 0 <= i < |quoted| :: QuotedWell(quoted[i])) && AroundIsBlank(p)
    ensures QuoteSaid(ReadAll(PaddedAll(p, QuoteLines(quoted))), QuoteTexts(quoted))
  {
    var lines := ReadAll(PaddedAll(p, QuoteLines(quoted)));
    forall i | 0 <= i < |quoted|
      ensures QuotedSaid(lines[i], QuoteTexts(quoted)[i])
    {
      PrintedAt(p, QuoteLines(quoted), i);
      QuotedRead(p, quoted[i]);
    }
    AreQuotes(lines, QuoteTexts(quoted));
  }

  lemma AreQuotes(lines: seq<Line>, texts: seq<string>)
    requires |texts| == |lines| > 0 && forall i | 0 <= i < |lines| :: QuotedSaid(lines[i], texts[i])
    ensures QuoteSaid(lines, texts)
  {
    assert QuotedSaid(lines[0], texts[0]);
  }

  ghost predicate ProseSaid(l: Line, text: string) { Continues(Prose, l) && l.trimmed == text }

  lemma ProseRead(p: Placed, t: string)
    requires Solid(t) && !Stops(t) && AroundIsBlank(p)
    ensures ProseSaid(Read(Padded(p, t)), t)
  {
    TrimOf(p.before, t, p.after);
    ParagraphStops(Padded(p, t));
  }

  ghost predicate OpeningSaid(l: Line, text: string, alone: bool) {
    && l.trimmed == text && OpensLate(l) && l.numbered.None? && l.bullet.None? && !l.quote
    && (l.pipe ==> alone) && (l.pipe <==> "|" <= text)
  }

  lemma OpeningRead(p: Placed, t: string, alone: bool)
    requires Solid(t) && OpensParagraph(t, alone) && AroundIsBlank(p)
    ensures OpeningSaid(Read(Padded(p, t)), t, alone)
  {
    ParagraphOpening(t, alone);
    ReadPadded(p.before, t, p.after);
  }

  lemma ProsesRead(p: Placed, texts: seq<string>)
    requires Printable(ParagraphWritten(texts)) && AroundIsBlank(p)
    ensures ParagraphSaid(ReadAll(PaddedAll(p, texts)), texts)
    ensures ReadAll(PaddedAll(p, texts))[0].pipe <==> "|" <= texts[0]
  {
    var lines := ReadAll(PaddedAll(p, texts));
    forall i | 0 < i < |texts|
      ensures ProseSaid(lines[i], texts[i])
    {
      PrintedAt(p, texts, i);
      ProseRead(p, texts[i]);
    }
    PrintedAt(p, texts, 0);
    OpeningRead(p, texts[0], |texts| == 1);
    AreProse(lines, texts);
  }

  lemma AreProse(lines: seq<Line>, texts: seq<string>)
    requires |texts| == |lines| > 0 && OpeningSaid(lines[0], texts[0], |texts| == 1)
    requires forall i | 0 < i < |lines| :: ProseSaid(lines[i], texts[i])
    ensures ParagraphSaid(lines, texts)
  {
    forall i | 0 <= i < |lines|
      ensures lines[i].trimmed == texts[i] && (0 < i ==> Continues(Prose, lines[i]))
    {
      assert 0 < i ==> ProseSaid(lines[i], texts[i]);
    }
  }

  lemma FenceRead(p: Placed, info: string)
    requires EndsWell(info) && AroundIsBlank(p)
    ensures FenceSaid(Read(Padded(p, "```" + info)))
  {
    FenceLine("```" + info, info);
    ReadPadded(p.before, "```" + info, p.after);
  }

  lemma ReadAllAppend(a: seq<string>, b: seq<string>)
    ensures ReadAll(a + b) == ReadAll(a) + ReadAll(b)
  {
    MappedAppend(Read, a, b);
  }

  lemma ReadOne(text: string)
    ensures ReadAll([text]) == [Read(text)]
  {
    ReadAt([text], 0);
  }

  lemma CodeRead(first: string, body: seq<string>, last: string)
    requires FenceSaid(Read(first)) && FenceSaid(Read(last)) && forall i | 0 <= i < |body| :: NoFence(body[i])
    ensures CodeSaid(ReadAll([first] + body + [last]), body)
  {
    ReadAllAppend([first] + body, [last]);
    ReadAllAppend([first], body);
    ReadOne(first);
    ReadOne(last);
    BodyRead(body);
    AreCode(Read(first), ReadAll(body), Read(last), body);
  }

  lemma OpenCodeRead(first: string, body: seq<string>)
    requires FenceSaid(Read(first)) && forall i | 0 <= i < |body| :: NoFence(body[i])
    ensures OpenCodeSaid(ReadAll([first] + body), body)
  {
    ReadAllAppend([first], body);
    ReadOne(first);
    BodyRead(body);
    AreOpenCode(Read(first), ReadAll(body), body);
  }

  lemma AreOpenCode(start: Line, inside: seq<Line>, body: seq<string>)
    requires |inside| == |body| && FenceSaid(start)
    requires forall i | 0 <= i < |body| :: InsideSaid(inside[i], body[i])
    ensures OpenCodeSaid([start] + inside, body)
  {
    var lines := [start] + inside;
    forall i | 0 <= i < |body|
      ensures InsideSaid(lines[i + 1], body[i])
    {
      assert lines[i + 1] == inside[i];
    }
  }

  lemma BodyRead(body: seq<string>)
    requires forall i | 0 <= i < |body| :: NoFence(body[i])
    ensures forall i | 0 <= i < |body| :: InsideSaid(ReadAll(body)[i], body[i])
  {
    forall i | 0 <= i < |body|
      ensures InsideSaid(ReadAll(body)[i], body[i])
    {
      ReadAt(body, i);
      InsideFence(body[i]);
    }
  }

  lemma AreCode(start: Line, inside: seq<Line>, end: Line, body: seq<string>)
    requires |inside| == |body| && FenceSaid(start) && FenceSaid(end)
    requires forall i | 0 <= i < |body| :: InsideSaid(inside[i], body[i])
    ensures CodeSaid([start] + inside + [end], body)
  {
    var lines := [start] + inside + [end];
    forall i | 0 <= i < |body|
      ensures InsideSaid(lines[i + 1], body[i])
    {
      assert lines[i + 1] == inside[i];
    }
  }

  lemma PipeRead(p: Placed, t: string)
    requires Solid(t) && "|" <= t && AroundIsBlank(p)
    ensures RowSaid(Read(Padded(p, t)), SplitCells(t))
  {
    PipeLine(t);
    ReadPadded(p.before, t, p.after);
  }

  lemma RowRead(p: Placed, cells: seq<string>, closed: bool)
    requires CellsWell(cells, Edges(true, closed)) && AroundIsBlank(p)
    ensures RowSaid(Read(Padded(p, Row(cells, Edges(true, closed)))), cells)
  {
    RowLine(cells, Edges(true, closed));
    PipeRead(p, Row(cells, Edges(true, closed)));
    RowSplitsAlone(cells, Edges(true, closed));
  }

  lemma NothingAround(t: string)
    ensures "" + t + "" == t
  {
  }

  lemma RowSplitsAlone(cells: seq<string>, edges: Edges)
    requires CellsWell(cells, edges)
    ensures SplitCells(Row(cells, edges)) == cells
  {
    var t := Row(cells, edges);
    NothingAround(t);
    RowSplits("", cells, edges, "");
  }

  lemma DelimiterRead(p: Placed, columns: seq<Column>, edges: Edges)
    requires columns != [] && (forall i | 0 <= i < |columns| :: columns[i].dashes > 0) && AroundIsBlank(p)
    ensures DelimiterSaid(Read(Padded(p, Row(ColumnCells(columns), edges))), AlignsOf(columns))
  {
    ColumnsWell(columns, edges);
    RowSplits(p.before, ColumnCells(columns), edges, p.after);
    DelimiterLine(Padded(p, Row(ColumnCells(columns), edges)), columns);
  }

  lemma RowsRead(p: Placed, rows: seq<seq<string>>, closed: bool)
    requires (forall i | 0 <= i < |rows| :: CellsWell(rows[i], Edges(true, closed))) && AroundIsBlank(p)
    ensures forall i | 0 <= i < |rows| :: RowSaid(ReadAll(PaddedAll(p, RowTexts(rows, closed)))[i], rows[i])
  {
    forall i | 0 <= i < |rows|
      ensures RowSaid(ReadAll(PaddedAll(p, RowTexts(rows, closed)))[i], rows[i])
    {
      PrintedAt(p, RowTexts(rows, closed), i);
      RowRead(p, rows[i], closed);
    }
  }

  lemma PaddedAppend(p: Placed, a: seq<string>, b: seq<string>)
    ensures ReadAll(PaddedAll(p, a + b)) == ReadAll(PaddedAll(p, a)) + ReadAll(PaddedAll(p, b))
  {
    assert PaddedAll(p, a + b) == PaddedAll(p, a) + PaddedAll(p, b);
    ReadAllAppend(PaddedAll(p, a), PaddedAll(p, b));
  }

  lemma TableLines(p: Placed, head: string, delimiter: string, texts: seq<string>, a: Line, b: Line)
    requires ReadAll(PaddedAll(p, [head])) == [a] && ReadAll(PaddedAll(p, [delimiter])) == [b]
    ensures ReadAll(PaddedAll(p, [head, delimiter] + texts)) == [a] + [b] + ReadAll(PaddedAll(p, texts))
  {
    PaddedAppend(p, [head, delimiter], texts);
    assert [head] + [delimiter] == [head, delimiter];
    PaddedAppend(p, [head], [delimiter]);
  }

  lemma TableRead(p: Placed, head: string, delimiter: string, texts: seq<string>, a: Line, b: Line,
                  names: seq<string>, aligns: seq<Align>, rows: seq<seq<string>>)
    requires ReadAll(PaddedAll(p, [head])) == [a] && ReadAll(PaddedAll(p, [delimiter])) == [b]
    requires RowSaid(a, names) && DelimiterSaid(b, aligns)
    requires |texts| == |rows| && forall i | 0 <= i < |rows| :: RowSaid(ReadAll(PaddedAll(p, texts))[i], rows[i])
    ensures TableSaid(ReadAll(PaddedAll(p, [head, delimiter] + texts)), names, aligns, rows)
  {
    TableLines(p, head, delimiter, texts, a, b);
    AreRows(a, b, ReadAll(PaddedAll(p, texts)), names, aligns, rows);
  }

  lemma AreRows(head: Line, delimiter: Line, lines: seq<Line>, names: seq<string>, aligns: seq<Align>,
                rows: seq<seq<string>>)
    requires |lines| == |rows| && RowSaid(head, names) && DelimiterSaid(delimiter, aligns)
    requires forall i | 0 <= i < |rows| :: RowSaid(lines[i], rows[i])
    ensures TableSaid([head] + [delimiter] + lines, names, aligns, rows)
  {
    var all := [head] + [delimiter] + lines;
    forall i | 0 <= i < |rows|
      ensures RowSaid(all[i + 2], rows[i])
    {
      assert all[i + 2] == lines[i];
    }
  }

  /** A block as it is printed says what it means. */
  lemma PrintedIsSaid(p: Placed)
    requires Printable(p.block) && AroundIsBlank(p)
    ensures Said(ReadAll(Printed(p)), p.block)
    ensures p.block.ParagraphWritten? ==> (ReadAll(Printed(p))[0].pipe <==> "|" <= p.block.lines[0])
  {
    match p.block
    case HeadingWritten(head) =>
      HeadingRead(p, head);
      OneRead(p, MarkedText(head));
    case ParagraphWritten(texts) => ProsesRead(p, texts);
    case ListWritten(ordered, items) => ItemsRead(p, items, ordered);
    case QuoteWritten(quoted) => QuotesRead(p, quoted);
    case RuleWritten(dash, length) =>
      RuleRead(p, dash, length);
      OneRead(p, Repeated(dash, length));
    case CodeWritten(info, body, ending) =>
      FenceRead(p, info);
      FenceRead(p, ending);
      CodeRead(Padded(p, "```" + info), body, Padded(p, "```" + ending));
    case OpenCodeWritten(info, body) =>
      FenceRead(p, info);
      OpenCodeRead(Padded(p, "```" + info), body);
    case TableWritten(names, closed, columns, edges, rows) =>
      var head, delimiter := Row(names, Edges(true, closed)), Row(ColumnCells(columns), edges);
      RowRead(p, names, closed);
      OneRead(p, head);
      DelimiterRead(p, columns, edges);
      OneRead(p, delimiter);
      RowsRead(p, rows, closed);
      TableRead(p, head, delimiter, RowTexts(rows, closed), Read(Padded(p, head)), Read(Padded(p, delimiter)),
                names, AlignsOf(columns), rows);
  }

  lemma OneRead(p: Placed, t: string)
    ensures ReadAll(PaddedAll(p, [t])) == [Read(Padded(p, t))]
  {
    PrintedAt(p, [t], 0);
  }

  // ----- What comes next -----

  lemma MarkNeeded(t: string, ordered: bool)
    requires forall mark, spaces, text | (if ordered then NumberMark(mark) else BulletMark(mark)) ::
               !IsMarkedBy(t, mark, spaces, text)
    ensures if ordered then NumberedText(t) == None else BulletText(t) == None
  {
    if ordered && NumberedText(t).Some? {
      NumberedMeans(t, NumberedText(t).value);
    }
    if !ordered && BulletText(t).Some? {
      BulletMeans(t, BulletText(t).value);
    }
  }

  lemma ParagraphLeft(texts: seq<string>, next: string)
    requires Leaves(ParagraphWritten(texts), Trim(next))
    ensures LineLeaves(ParagraphWritten(texts), Read(next))
  {
    ParagraphStops(next);
    if texts != [] && "|" <= texts[0] {
      BlankIsNoDelimiter(next);
    }
  }

  lemma ListLeft(ordered: bool, items: seq<Marked>, next: string)
    requires Leaves(ListWritten(ordered, items), Trim(next))
    ensures Item(ordered, Read(next)) == None
  {
    MarkNeeded(Trim(next), ordered);
  }

  lemma LeavesMeans(w: Written, next: string)
    requires Leaves(w, Trim(next))
    ensures LineLeaves(w, Read(next))
  {
    match w
    case ParagraphWritten(texts) => ParagraphLeft(texts, next);
    case ListWritten(ordered, items) => ListLeft(ordered, items, next);
    case QuoteWritten(_) => ReadStops(next);
    case TableWritten(_, _, _, _, _) => ReadStops(next);
    case _ =>
  }

  lemma NothingLeaves(w: Written)
    requires !w.OpenCodeWritten?
    ensures Leaves(w, "")
  {
  }

  lemma FirstIsSolid(w: Written)
    requires Printable(w)
    ensures Texts(w) != [] && Solid(FirstText(w))
  {
    match w
    case HeadingWritten(head) => HeadingLine(MarkedText(head), head);
    case ParagraphWritten(_) =>
    case ListWritten(ordered, items) =>
      if ordered {
        NumberLine(MarkedText(items[0]), items[0]);
      } else {
        BulletLine(MarkedText(items[0]), items[0]);
      }
    case QuoteWritten(quoted) => QuotedLine(QuoteText(quoted[0]), quoted[0]);
    case RuleWritten(dash, length) => RuleLine(Repeated(dash, length), dash, length);
    case CodeWritten(info, _, _) => FenceLine("```" + info, info);
    case OpenCodeWritten(info, _) => FenceLine("```" + info, info);
    case TableWritten(names, closed, _, _, _) => RowLine(names, Edges(true, closed));
  }

  lemma FirstPrinted(p: Placed)
    requires Printable(p.block) && AroundIsBlank(p)
    ensures Printed(p) != [] && Trim(Printed(p)[0]) == FirstText(p.block)
  {
    FirstIsSolid(p.block);
    TrimOf(p.before, FirstText(p.block), p.after);
    assert Printed(p)[0] == Padded(p, FirstText(p.block));
  }

  // ----- Whole texts -----

  lemma FirstOfAll(doc: seq<Placed>)
    requires doc != [] && Printable(doc[0].block) && AroundIsBlank(doc[0])
    ensures PrintedAll(doc) != [] && Trim(PrintedAll(doc)[0]) == FirstText(doc[0].block)
  {
    FirstPrinted(doc[0]);
    assert PrintedAll(doc)[0] == Printed(doc[0])[0];
  }

  lemma NextLeaves(doc: seq<Placed>)
    requires doc != [] && Fits(doc) && doc[0].gap + PrintedAll(doc[1..]) != []
    ensures Leaves(doc[0].block, Trim((doc[0].gap + PrintedAll(doc[1..]))[0]))
  {
    var gap, rest := doc[0].gap, PrintedAll(doc[1..]);
    if gap != [] {
      assert (gap + rest)[0] == gap[0];
      TrimLeavesNothing(gap[0]);
      NothingLeaves(doc[0].block);
    } else {
      assert gap + rest == rest && doc[1..] != [];
      assert doc[1..][0] == doc[1];
      FirstOfAll(doc[1..]);
    }
  }

  lemma RestIsLeft(doc: seq<Placed>)
    requires doc != [] && Fits(doc)
    ensures LeftBy(doc[0].block, ReadAll(doc[0].gap + PrintedAll(doc[1..])))
  {
    var texts := doc[0].gap + PrintedAll(doc[1..]);
    if texts != [] {
      NextLeaves(doc);
      LeavesMeans(doc[0].block, texts[0]);
      ReadAt(texts, 0);
    }
  }

  lemma GapsAreBlank(gap: seq<string>)
    requires forall i | 0 <= i < |gap| :: Blank(gap[i])
    ensures forall i | 0 <= i < |gap| :: ReadAll(gap)[i].blank
  {
    forall i | 0 <= i < |gap|
      ensures ReadAll(gap)[i].blank
    {
      ReadAt(gap, i);
      TrimLeavesNothing(gap[i]);
    }
  }

  lemma GapIsSkipped(gap: seq<string>, rest: seq<string>)
    requires forall i | 0 <= i < |gap| :: Blank(gap[i])
    ensures Parse(ReadAll(gap + rest)) == Parse(ReadAll(rest))
  {
    ReadAllAppend(gap, rest);
    GapsAreBlank(gap);
    BlankLinesFirst(ReadAll(gap), ReadAll(rest));
  }

  lemma FirstIsRead(p: Placed, after: seq<string>)
    requires Printable(p.block) && AroundIsBlank(p) && LeftBy(p.block, ReadAll(after))
    ensures Parse(ReadAll(Printed(p) + after)) == [Meaning(p.block)] + Parse(ReadAll(after))
  {
    PrintedIsSaid(p);
    ReadAllAppend(Printed(p), after);
    BlockThenRest(ReadAll(Printed(p)), p.block, ReadAll(after));
  }

  lemma PrintedFirst(doc: seq<Placed>)
    requires doc != []
    ensures PrintedAll(doc) == Printed(doc[0]) + (doc[0].gap + PrintedAll(doc[1..]))
    ensures Meanings(doc) == [Meaning(doc[0].block)] + Meanings(doc[1..])
  {
  }

  lemma FitsFirst(doc: seq<Placed>)
    requires doc != [] && Fits(doc)
    ensures Printable(doc[0].block) && AroundIsBlank(doc[0]) && Fits(doc[1..])
    ensures forall i | 0 <= i < |doc[0].gap| :: Blank(doc[0].gap[i])
  {
  }

  lemma {:induction false} DocumentIsRead(doc: seq<Placed>)
    requires Fits(doc)
    ensures Parse(ReadAll(PrintedAll(doc))) == Meanings(doc)
    decreases |doc|
  {
    if doc != [] {
      var p, rest := doc[0], PrintedAll(doc[1..]);
      FitsFirst(doc);
      DocumentIsRead(doc[1..]);
      GapIsSkipped(p.gap, rest);
      RestIsLeft(doc);
      FirstIsRead(p, p.gap + rest);
      PrintedFirst(doc);
    }
  }

  // ----- The characters of the text -----

  lemma {:induction false} JoinedOnOneLine(parts: seq<string>, sep: string)
    requires (forall i | 0 <= i < |parts| :: OneLine(parts[i])) && OneLine(sep)
    ensures OneLine(Join(parts, sep))
    decreases |parts|
  {
    if |parts| > 1 {
      JoinedOnOneLine(parts[1..], sep);
      OneLineTogether(parts[0], sep, Join(parts[1..], sep));
    }
  }

  lemma OneLineTogether(a: string, b: string, c: string)
    requires OneLine(a) && OneLine(b) && OneLine(c)
    ensures OneLine(a + b + c)
  {
  }

  lemma MarkIsOneLine(mark: string)
    requires HashMark(mark) || BulletMark(mark) || NumberMark(mark)
    ensures OneLine(mark)
  {
    if NumberMark(mark) {
      forall i | 0 <= i < |mark|
        ensures mark[i] != '\n' && mark[i] != '\r'
      {
        assert i < |mark| - 1 ==> mark[i] == mark[..|mark| - 1][i];
      }
    } else if HashMark(mark) {
      assert mark == Repeated('#', |mark|);
    }
  }

  lemma MarkedOnOneLine(m: Marked)
    requires MarkedWell(m) && (HashMark(m.mark) || BulletMark(m.mark) || NumberMark(m.mark))
    ensures OneLine(MarkedText(m))
  {
    MarkIsOneLine(m.mark);
    assert OneLine(m.text);
    OneLineTogether(m.mark, m.spaces, m.text);
  }

  lemma RowOnOneLine(cells: seq<string>, edges: Edges)
    requires forall i | 0 <= i < |cells| :: OneLine(cells[i])
    ensures OneLine(Row(cells, edges))
  {
    var parts := Spaced(cells, if edges.front then " " else "", if edges.back then " " else "");
    forall i | 0 <= i < |parts|
      ensures OneLine(parts[i])
    {
      OneLineTogether(if i > 0 || edges.front then " " else "", cells[i],
                      if i < |cells| - 1 || edges.back then " " else "");
    }
    JoinedOnOneLine(parts, "|");
    OneLineTogether(if edges.front then "|" else "", Join(parts, "|"), if edges.back then "|" else "");
  }

  lemma ColumnsOnOneLine(columns: seq<Column>)
    requires forall i | 0 <= i < |columns| :: columns[i].dashes > 0
    ensures forall i | 0 <= i < |columns| :: OneLine(ColumnCells(columns)[i])
  {
    forall i | 0 <= i < |columns|
      ensures OneLine(ColumnCells(columns)[i])
    {
      OneLineTogether(if columns[i].left then ":" else "", Repeated('-', columns[i].dashes),
                      if columns[i].right then ":" else "");
    }
  }

  ghost predicate AllOneLine(texts: seq<string>) { forall i | 0 <= i < |texts| :: OneLine(texts[i]) }

  lemma TextsOnOneLine(w: Written)
    requires Printable(w)
    ensures AllOneLine(Texts(w))
  {
    match w
    case HeadingWritten(head) => MarkedOnOneLine(head);
    case ParagraphWritten(_) =>
    case ListWritten(_, items) =>
      forall i | 0 <= i < |items|
        ensures OneLine(MarkedText(items[i]))
      {
        MarkedOnOneLine(items[i]);
      }
    case QuoteWritten(quoted) =>
      forall i | 0 <= i < |quoted|
        ensures OneLine(QuoteText(quoted[i]))
      {
        OneLineTogether(">", quoted[i].space, quoted[i].text);
      }
    case RuleWritten(_, _) =>
    case CodeWritten(info, body, ending) =>
      OneLineTogether("```", info, "");
      OneLineTogether("```", ending, "");
    case OpenCodeWritten(info, _) => OneLineTogether("```", info, "");
    case TableWritten(names, closed, columns, edges, rows) => TableOnOneLine(w);
  }

  lemma TableOnOneLine(w: Written)
    requires w.TableWritten? && Printable(w)
    ensures AllOneLine(Texts(w))
  {
    RowOnOneLine(w.names, Edges(true, w.closed));
    ColumnsOnOneLine(w.columns);
    RowOnOneLine(ColumnCells(w.columns), w.edges);
    forall i | 0 <= i < |w.rows|
      ensures OneLine(RowTexts(w.rows, w.closed)[i])
    {
      RowOnOneLine(w.rows[i], Edges(true, w.closed));
    }
  }

  lemma PrintedOnOneLine(p: Placed)
    requires Printable(p.block) && OneLine(p.before) && OneLine(p.after)
    ensures AllOneLine(Printed(p))
  {
    var texts, printed := Texts(p.block), Printed(p);
    TextsOnOneLine(p.block);
    forall i | 0 <= i < |printed|
      ensures OneLine(printed[i])
    {
      OneLineTogether(p.before, texts[i], p.after);
      assert printed[i] == texts[i] || printed[i] == Padded(p, texts[i]);
    }
  }

  lemma {:induction false} DocumentOnOneLines(doc: seq<Placed>)
    requires Fits(doc)
    ensures AllOneLine(PrintedAll(doc))
    decreases |doc|
  {
    if doc != [] {
      PrintedOnOneLine(doc[0]);
      DocumentOnOneLines(doc[1..]);
    }
  }

  /** A line ends with a newline, a carriage return, or both. */
  predicate EndsLines(eol: string) { eol == "\n" || eol == "\r" || eol == "\r\n" }

  lemma {:induction false} LineNormalized(s: string, eol: string, rest: string)
    requires OneLine(s) && EndsLines(eol) && (eol == "\r" && rest != "" ==> rest[0] != '\n')
    ensures Normalized(s + eol + rest) == s + "\n" + Normalized(rest)
    decreases |s|
  {
    var whole := s + eol + rest;
    if s == "" {
      assert whole == eol + rest;
      assert whole[|eol|..] == rest;
      assert eol == "\r" && rest != "" ==> whole[1] == rest[0];
    } else {
      assert whole[1..] == s[1..] + eol + rest;
      LineNormalized(s[1..], eol, rest);
      assert [s[0]] + (s[1..] + "\n" + Normalized(rest)) == s + "\n" + Normalized(rest);
    }
  }

  lemma {:induction false} TextNormalized(texts: seq<string>, eol: string)
    requires texts != [] && AllOneLine(texts) && EndsLines(eol)
    ensures Normalized(Join(texts, eol)) == Join(texts, "\n")
    ensures Join(texts, eol) != "" && eol == "\r" ==> Join(texts, eol)[0] != '\n'
    decreases |texts|
  {
    if |texts| == 1 {
      NoReturns(texts[0]);
    } else {
      TextNormalized(texts[1..], eol);
      LineNormalized(texts[0], eol, Join(texts[1..], eol));
      assert Join(texts, eol)[0] == if texts[0] == "" then eol[0] else texts[0][0];
    }
  }

  lemma TextIsSplit(texts: seq<string>, eol: string)
    requires texts != [] && AllOneLine(texts) && EndsLines(eol)
    ensures Lines(Join(texts, eol)) == ReadAll(texts)
  {
    TextNormalized(texts, eol);
    forall i | 0 <= i < |texts|
      ensures '\n' !in texts[i]
    {
      assert OneLine(texts[i]);
    }
    SplitJoin(texts, '\n');
  }

  lemma NothingIsRead()
    ensures Parse(Lines("")) == []
  {
    ReadOne("");
    TrimLeavesNothing("");
    assert Split("", '\n') == [""];
    BlankLinesFirst([Read("")], []);
    assert [Read("")] + [] == [Read("")];
  }

  /** Whatever is written is read back: each block with its own text, in order, however its lines are
      padded, whichever markers it has and however lines end, and nothing else. A fence left open at the end
      is read as one that is closed there. */
  lemma WrittenIsReadBack(doc: seq<Placed>, eol: string)
    requires Fits(doc) && EndsLines(eol)
    ensures Parse(Lines(Join(PrintedAll(doc), eol))) == Meanings(doc)
  {
    if PrintedAll(doc) == [] {
      DocumentIsRead(doc);
      NothingIsRead();
      assert ReadAll([]) == [];
    } else {
      DocumentOnOneLines(doc);
      TextIsSplit(PrintedAll(doc), eol);
      DocumentIsRead(doc);
    }
  }
}
