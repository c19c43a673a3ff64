/** What the answer renderer sees in one line of Markdown. */
module MarkdownLines {
  import opened Options
  import opened JsText
  import opened Splitting

  datatype Align = Left | Right | Center

  predicate IsFence(trimmed: string) { StartsWith(trimmed, "```") }

  predicate IsRule(trimmed: string) {
    |trimmed| >= 3 && ((forall c | c in trimmed :: c == '-') || (forall c | c in trimmed :: c == '*'))
  }

  /** `\s+(.*)$` from position `at`: the text after the whitespace, if that is how the line
      goes on. */
  function AfterSpace(s: string, at: nat): Option<string>
    requires at <= |s|
  {
    var spaces := Leading(s[at..]);
    var rest := s[at + spaces..];
    if spaces > 0 && forall c | c in rest :: !EndsLine(c) then Some(rest) else None
  }

  /** How many `#` a text opens with. */
  function Hashes(s: string): (n: nat)
    ensures n <= |s|
  {
    if s != "" && s[0] == '#' then 1 + Hashes(s[1..]) else 0
  }

  function HeadingText(trimmed: string): Option<string> {
    if 1 <= Hashes(trimmed) <= 4 then AfterSpace(trimmed, Hashes(trimmed)) else None
  }

  function BulletText(trimmed: string): Option<string> {
    if trimmed != "" && (trimmed[0] == '-' || trimmed[0] == '*' || trimmed[0] == '+')
        then AfterSpace(trimmed, 1) else None
  }

  /** How many digits a text opens with. */
  function NumberLength(s: string): (n: nat)
    ensures n <= |s|
  {
    if s != "" && '0' <= s[0] <= '9' then 1 + NumberLength(s[1..]) else 0
  }

  function NumberedText(trimmed: string): Option<string> {
    var n := NumberLength(trimmed);
    if 0 < n < |trimmed| && (trimmed[n] == '.' || trimmed[n] == ')') then AfterSpace(trimmed, n + 1) else None
  }

  /** A marker followed by whitespace, whatever comes after: what stops a paragraph. */
  predicate StartsBlock(trimmed: string) {
    || (1 <= Hashes(trimmed) <= 4 && Hashes(trimmed) < |trimmed| && IsSpace(trimmed[Hashes(trimmed)]))
    || (|trimmed| > 1 && (trimmed[0] == '-' || trimmed[0] == '*' || trimmed[0] == '+') && IsSpace(trimmed[1]))
    || (var n := NumberLength(trimmed);
        0 < n && n + 1 < |trimmed| && (trimmed[n] == '.' || trimmed[n] == ')') && IsSpace(trimmed[n + 1]))
  }

  // ----- Tables -----

  function WithoutFirstPipe(line: string): string {
    var s := TrimStart(line);
    if s != "" && s[0] == '|' then s[1..] else line
  }

  function WithoutLastPipe(line: string): string {
    var s := TrimEnd(line);
    if s != "" && s[|s| - 1] == '|' then s[..|s| - 1] else line
  }

  function Trimmed(cells: seq<string>): seq<string> {
    seq(|cells|, i requires 0 <= i < |cells| => Trim(cells[i]))
  }

  function SplitCells(line: string): seq<string> {
    Trimmed(Split(WithoutLastPipe(WithoutFirstPipe(line)), '|'))
  }

  function AlignmentOf(cell: string): Align {
    if EndsWith(cell, ":") then (if StartsWith(cell, ":") then Center else Right) else Left
  }

  /** `:?-{1,}:?` */
  predicate IsDashes(cell: string) {
    var from := if StartsWith(cell, ":") then 1 else 0;
    var to := if EndsWith(cell, ":") then |cell| - 1 else |cell|;
    from < to && forall i | from <= i < to :: cell[i] == '-'
  }

  predicate IsDelimiter(line: string) {
    forall i | 0 <= i < |SplitCells(line)| :: IsDashes(Trim(SplitCells(line)[i]))
  }

  function Alignments(cells: seq<string>): seq<Align> {
    seq(|cells|, i requires 0 <= i < |cells| => AlignmentOf(cells[i]))
  }

  /** The answers to every question the parser asks of a line. */
  datatype Line = Line(
    text: string, trimmed: string, blank: bool, fence: bool, rule: bool, hashes: nat, heading: Option<string>,
    pipe: bool, cells: seq<string>, delimiter: bool, alignments: seq<Align>,
    numbered: Option<string>, bullet: Option<string>, quote: bool, startsBlock: bool)

  function Read(text: string): Line {
    var t := Trim(text);
    Line(text, t, t == "", IsFence(t), IsRule(t), Hashes(t), HeadingText(t),
         StartsWith(t, "|"), SplitCells(t), IsDelimiter(text), Alignments(SplitCells(text)),
         NumberedText(t), BulletText(t), StartsWith(t, ">"), StartsBlock(t))
  }

  function Mapped<T, U>(f: T -> U, s: seq<T>): (r: seq<U>)
    ensures |r| == |s|
  {
    seq(|s|, i requires 0 <= i < |s| => f(s[i]))
  }

  lemma MappedAppend<T, U>(f: T -> U, a: seq<T>, b: seq<T>)
    ensures Mapped(f, a + b) == Mapped(f, a) + Mapped(f, b)
  {
  }

  function ReadAll(texts: seq<string>): (lines: seq<Line>)
    ensures |lines| == |texts|
  {
    Mapped(Read, texts)
  }

  /** A blank line is nothing else. */
  ghost predicate Plausible(line: Line) {
    line.blank ==>
      && !line.fence && !line.rule && line.heading.None? && !line.pipe && !line.delimiter
      && line.numbered.None? && line.bullet.None? && !line.quote && !line.startsBlock
  }

  lemma BlankIsNoDelimiter(text: string)
    requires Trim(text) == ""
    ensures !IsDelimiter(text)
  {
    forall i | 0 <= i < |text|
      ensures IsSpace(text[i])
    {
    }
    assert '|' !in text;
    assert WithoutFirstPipe(text) == text && WithoutLastPipe(text) == text;
    SplitWithout(text, '|');
    assert SplitCells(text)[0] == "";
    assert Trim("") == "";
    assert !IsDashes("");
  }

  lemma ReadIsPlausible(text: string)
    ensures Plausible(Read(text))
  {
    if Trim(text) == "" {
      BlankIsNoDelimiter(text);
    }
  }

  lemma ReadAllIsPlausible(texts: seq<string>)
    ensures forall i | 0 <= i < |texts| :: Plausible(ReadAll(texts)[i])
  {
    forall i | 0 <= i < |texts|
      ensures Plausible(ReadAll(texts)[i])
    {
      ReadIsPlausible(texts[i]);
    }
  }
}
