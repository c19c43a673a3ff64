/** What a line of Markdown is, said of its characters: each of the renderer's questions is answered
    yes by exactly the lines written so. */
module MarkdownReading {
  import opened Options
  import opened JsText
  import opened MarkdownLines
  import opened MarkdownBlocks
  import opened Splitting

  predicate Blank(s: string) {
    forall i | 0 <= i < |s| :: IsSpace(s[i])
  }

  /** Something that opens and ends in what is not whitespace. */
  predicate Solid(s: string) {
    s != "" && !IsSpace(s[0]) && !IsSpace(s[|s| - 1])
  }

  predicate Core(s: string) { s == "" || Solid(s) }

  function Repeated(c: char, n: nat): string { seq(n, _ => c) }

  // ----- Whitespace -----

  lemma LeadingIs(s: string, n: nat)
    requires n <= |s| && Blank(s[..n]) && (n < |s| ==> !IsSpace(s[n]))
    ensures Leading(s) == n
  {
    assert forall i | 0 <= i < n :: s[..n][i] == s[i];
  }

  lemma TrimEndIs(s: string, n: nat)
    requires n <= |s| && Blank(s[n..]) && (n > 0 ==> !IsSpace(s[n - 1]))
    ensures TrimEnd(s) == s[..n]
  {
    var r := TrimEnd(s);
    assert forall i | n <= i < |s| :: s[n..][i - n] == s[i];
    assert r == s[..|r|];
  }

  lemma TrimStartOf(before: string, rest: string)
    requires Blank(before) && (rest != "" ==> !IsSpace(rest[0]))
    ensures TrimStart(before + rest) == rest
  {
    var s := before + rest;
    assert s[..|before|] == before;
    LeadingIs(s, |before|);
  }

  lemma TrimEndOf(core: string, after: string)
    requires Blank(after) && (core != "" ==> !IsSpace(core[|core| - 1]))
    ensures TrimEnd(core + after) == core
  {
    var s := core + after;
    assert s[|core|..] == after;
    TrimEndIs(s, |core|);
  }

  /** Whitespace around what is solid, and only that, comes off. */
  lemma TrimOf(before: string, core: string, after: string)
    requires Blank(before) && Blank(after) && Core(core)
    ensures Trim(before + core + after) == core
  {
    assert before + core + after == before + (core + after);
    if core == "" {
      assert before + core + after == (before + after) + "";
      TrimStartOf(before + after, "");
      TrimEndOf("", "");
      assert "" + "" == "";
    } else {
      TrimStartOf(before, core + after);
      TrimEndOf(core, after);
    }
  }

  lemma TrimParts(s: string) returns (before: string, after: string)
    ensures Blank(before) && Blank(after) && Core(Trim(s)) && s == before + Trim(s) + after
  {
    var n := Leading(s);
    var rest := TrimStart(s);
    var core := TrimEnd(rest);
    before, after := s[..n], rest[|core|..];
    assert core == "" || core[0] == rest[0] == s[n];
    assert rest == core + after;
  }

  lemma TrimLeavesNothing(s: string)
    ensures Trim(s) == "" <==> Blank(s)
  {
    var before, after := TrimParts(s);
    if Trim(s) == "" {
      assert s == before + after;
    }
  }

  // ----- A marker, whitespace, and the text after it -----

  /** Whitespace and then `text`, all of it on the line. */
  predicate Follows(s: string, spaces: string, text: string) {
    && s == spaces + text && spaces != "" && Blank(spaces)
    && (text != "" ==> !IsSpace(text[0])) && forall i | 0 <= i < |text| :: !EndsLine(text[i])
  }

  lemma FollowedBy(s: string, at: nat, spaces: string, text: string)
    requires at <= |s| && Follows(s[at..], spaces, text)
    ensures AfterSpace(s, at) == Some(text)
  {
    var rest := s[at..];
    assert rest[..|spaces|] == spaces && rest[|spaces|..] == text;
    LeadingIs(rest, |spaces|);
    assert s[at + |spaces|..] == text;
    assert forall c | c in text :: !EndsLine(c);
  }

  lemma AfterSpaceFollows(s: string, at: nat, text: string)
    requires at <= |s| && AfterSpace(s, at) == Some(text)
    ensures Follows(s[at..], s[at..][..Leading(s[at..])], text)
  {
    var rest := s[at..];
    assert s[at + Leading(rest)..] == rest[Leading(rest)..];
  }

  lemma AfterSpaceMeans(s: string, at: nat, text: string)
    requires at <= |s|
    ensures AfterSpace(s, at) == Some(text) <==> exists spaces :: Follows(s[at..], spaces, text)
  {
    if AfterSpace(s, at) == Some(text) {
      AfterSpaceFollows(s, at, text);
    }
    if spaces :| Follows(s[at..], spaces, text) {
      FollowedBy(s, at, spaces, text);
    }
  }

  lemma {:induction false} HashesIs(s: string, n: nat)
    requires n <= |s| && s[..n] == Repeated('#', n) && (n < |s| ==> s[n] != '#')
    ensures Hashes(s) == n
    decreases n
  {
    if n > 0 {
      assert s[0] == s[..n][0] && s[1..][..n - 1] == s[..n][1..];
      HashesIs(s[1..], n - 1);
    }
  }

  lemma {:induction false} HashesMeans(s: string)
    ensures s[..Hashes(s)] == Repeated('#', Hashes(s)) && (Hashes(s) < |s| ==> s[Hashes(s)] != '#')
  {
    if s != "" && s[0] == '#' {
      HashesMeans(s[1..]);
      var n := Hashes(s);
      assert s[..n] == [s[0]] + s[1..][..n - 1];
    }
  }

  predicate IsDigits(s: string) {
    s != "" && forall i | 0 <= i < |s| :: '0' <= s[i] <= '9'
  }

  lemma {:induction false} NumberLengthIs(s: string, n: nat)
    requires n <= |s| && (forall i | 0 <= i < n :: '0' <= s[i] <= '9') && (n < |s| ==> !('0' <= s[n] <= '9'))
    ensures NumberLength(s) == n
    decreases n
  {
    if n > 0 {
      NumberLengthIs(s[1..], n - 1);
    }
  }

  lemma {:induction false} NumberLengthMeans(s: string)
    ensures forall i | 0 <= i < NumberLength(s) :: '0' <= s[i] <= '9'
    ensures NumberLength(s) < |s| ==> !('0' <= s[NumberLength(s)] <= '9')
  {
    if s != "" && '0' <= s[0] <= '9' {
      NumberLengthMeans(s[1..]);
      forall i | 0 <= i < NumberLength(s)
        ensures '0' <= s[i] <= '9'
      {
        if i > 0 {
          assert s[i] == s[1..][i - 1];
        }
      }
    }
  }

  // ----- The markers -----

  /** One to four `#`. */
  predicate HashMark(mark: string) {
    1 <= |mark| <= 4 && mark == Repeated('#', |mark|)
  }

  predicate BulletMark(mark: string) { mark == "-" || mark == "*" || mark == "+" }

  /** Digits, and a dot or a closing parenthesis. */
  predicate NumberMark(mark: string) {
    |mark| > 1 && IsDigits(mark[..|mark| - 1]) && (mark[|mark| - 1] == '.' || mark[|mark| - 1] == ')')
  }

  predicate IsMarkedBy(t: string, mark: string, spaces: string, text: string) {
    mark <= t && Follows(t[|mark|..], spaces, text)
  }

  lemma HashMarkIsHashes(t: string, mark: string)
    requires HashMark(mark) && mark <= t && (|mark| < |t| ==> IsSpace(t[|mark|]))
    ensures Hashes(t) == |mark|
  {
    assert t[..|mark|] == mark;
    HashesIs(t, |mark|);
  }

  lemma NumberMarkIsNumber(t: string, mark: string)
    requires NumberMark(mark) && mark <= t
    ensures NumberLength(t) == |mark| - 1 && t[|mark| - 1] == mark[|mark| - 1]
  {
    forall i | 0 <= i < |mark| - 1
      ensures '0' <= t[i] <= '9'
    {
      assert t[i] == mark[..|mark| - 1][i];
    }
    NumberLengthIs(t, |mark| - 1);
  }

  lemma HeadedBy(t: string, mark: string, spaces: string, text: string)
    requires HashMark(mark) && IsMarkedBy(t, mark, spaces, text)
    ensures HeadingText(t) == Some(text) && Hashes(t) == |mark|
  {
    assert t[|mark|] == t[|mark|..][0] == spaces[0];
    HashMarkIsHashes(t, mark);
    FollowedBy(t, |mark|, spaces, text);
  }

  lemma BulletedBy(t: string, mark: string, spaces: string, text: string)
    requires BulletMark(mark) && IsMarkedBy(t, mark, spaces, text)
    ensures BulletText(t) == Some(text)
  {
    FollowedBy(t, 1, spaces, text);
  }

  lemma NumberedBy(t: string, mark: string, spaces: string, text: string)
    requires NumberMark(mark) && IsMarkedBy(t, mark, spaces, text)
    ensures NumberedText(t) == Some(text)
  {
    NumberMarkIsNumber(t, mark);
    FollowedBy(t, |mark|, spaces, text);
  }

  /** A heading is one to four `#`, whitespace, and its text to the end of the line. */
  lemma HeadingMeans(t: string, text: string)
    ensures HeadingText(t) == Some(text) <==> exists mark, spaces :: HashMark(mark) && IsMarkedBy(t, mark, spaces, text)
  {
    var n := Hashes(t);
    HashesMeans(t);
    if HeadingText(t) == Some(text) {
      AfterSpaceMeans(t, n, text);
      var spaces :| Follows(t[n..], spaces, text);
      assert HashMark(t[..n]) && IsMarkedBy(t, t[..n], spaces, text);
    }
    if mark, spaces :| HashMark(mark) && IsMarkedBy(t, mark, spaces, text) {
      HeadedBy(t, mark, spaces, text);
    }
  }

  /** A bulleted item is `-`, `*` or `+`, whitespace, and its text. */
  lemma BulletMeans(t: string, text: string)
    ensures BulletText(t) == Some(text) <==>
              exists mark, spaces :: BulletMark(mark) && IsMarkedBy(t, mark, spaces, text)
  {
    if t != "" {
      AfterSpaceMeans(t, 1, text);
      assert t[..1] <= t && t[..1] == [t[0]];
      if BulletText(t) == Some(text) {
        var spaces :| Follows(t[1..], spaces, text);
        assert BulletMark([t[0]]) && IsMarkedBy(t, [t[0]], spaces, text);
      }
      if mark, spaces :| BulletMark(mark) && IsMarkedBy(t, mark, spaces, text) {
        BulletedBy(t, mark, spaces, text);
      }
    }
  }

  /** A numbered item is digits, a dot or a closing parenthesis, whitespace, and its text. */
  lemma NumberedMeans(t: string, text: string)
    ensures NumberedText(t) == Some(text) <==>
              exists mark, spaces :: NumberMark(mark) && IsMarkedBy(t, mark, spaces, text)
  {
    var n := NumberLength(t);
    NumberLengthMeans(t);
    if NumberedText(t) == Some(text) {
      AfterSpaceMeans(t, n + 1, text);
      var spaces :| Follows(t[n + 1..], spaces, text);
      var mark := t[..n + 1];
      assert mark[..|mark| - 1] == t[..n];
      assert NumberMark(mark) && IsMarkedBy(t, mark, spaces, text);
    }
    if mark, spaces :| NumberMark(mark) && IsMarkedBy(t, mark, spaces, text) {
      NumberedBy(t, mark, spaces, text);
    }
  }

  /** A rule is three or more of `-`, or of `*`, and nothing else. */
  lemma RuleMeans(t: string)
    ensures IsRule(t) <==> |t| >= 3 && (t == Repeated('-', |t|) || t == Repeated('*', |t|))
  {
    if IsRule(t) {
      forall i | 0 <= i < |t|
        ensures t[i] in t
      {
      }
      if c :| c in t && c == '-' {
        assert t == Repeated('-', |t|);
      } else {
        assert t == Repeated('*', |t|);
      }
    }
  }

  /** One of the markers, with whitespace after it. */
  ghost predicate OpensMarked(t: string) {
    exists mark :: mark <= t && |mark| < |t| && IsSpace(t[|mark|])
                   && (HashMark(mark) || BulletMark(mark) || NumberMark(mark))
  }

  lemma MarkOf(t: string) returns (mark: string)
    requires StartsBlock(t)
    ensures mark <= t && |mark| < |t| && IsSpace(t[|mark|])
    ensures HashMark(mark) || BulletMark(mark) || NumberMark(mark)
  {
    HashesMeans(t);
    NumberLengthMeans(t);
    if 1 <= Hashes(t) <= 4 && Hashes(t) < |t| && IsSpace(t[Hashes(t)]) {
      mark := t[..Hashes(t)];
    } else if |t| > 1 && (t[0] == '-' || t[0] == '*' || t[0] == '+') && IsSpace(t[1]) {
      mark := t[..1];
      assert mark == [t[0]];
    } else {
      mark := t[..NumberLength(t) + 1];
      assert mark[..|mark| - 1] == t[..NumberLength(t)];
    }
  }

  lemma StartsBlockMeans(t: string)
    ensures StartsBlock(t) <==> OpensMarked(t)
  {
    if StartsBlock(t) {
      var mark := MarkOf(t);
      assert OpensMarked(t);
    }
    if mark :| mark <= t && |mark| < |t| && IsSpace(t[|mark|])
               && (HashMark(mark) || BulletMark(mark) || NumberMark(mark)) {
      if HashMark(mark) {
        HashMarkIsHashes(t, mark);
      } else if NumberMark(mark) {
        NumberMarkIsNumber(t, mark);
      }
    }
  }

  /** What ends a paragraph: nothing, a pipe, a quote, a fence, or a marker with whitespace. */
  ghost predicate Stops(t: string) {
    t == "" || "|" <= t || ">" <= t || "```" <= t || OpensMarked(t)
  }

  lemma StopsMeans(t: string)
    ensures t == "" || StartsWith(t, "|") || StartsWith(t, ">") || IsFence(t) || StartsBlock(t) <==> Stops(t)
  {
    StartsBlockMeans(t);
  }

  lemma ReadStops(text: string)
    ensures var line := Read(text);
            && (line.blank <==> line.trimmed == "") && (line.pipe <==> StartsWith(line.trimmed, "|"))
            && (line.quote <==> StartsWith(line.trimmed, ">")) && (line.fence <==> IsFence(line.trimmed))
            && (line.startsBlock <==> StartsBlock(line.trimmed)) && line.trimmed == Trim(text)
  {
  }

  lemma LineStops(line: Line)
    requires && (line.blank <==> line.trimmed == "") && (line.pipe <==> StartsWith(line.trimmed, "|"))
             && (line.quote <==> StartsWith(line.trimmed, ">")) && (line.fence <==> IsFence(line.trimmed))
             && (line.startsBlock <==> StartsBlock(line.trimmed))
    ensures !Continues(Prose, line) <==> Stops(line.trimmed)
  {
    StopsMeans(line.trimmed);
  }

  /** A paragraph goes on until a line that, with the whitespace off it, is one of those. */
  lemma ParagraphStops(text: string)
    ensures !Continues(Prose, Read(text)) <==> Stops(Read(text).trimmed)
    ensures Read(text).trimmed == Trim(text)
  {
    ReadStops(text);
    LineStops(Read(text));
  }

  // ----- Delimiter rows -----

  /** The way a delimiter row aligns a column: dashes, with a colon to the right for right, on both
      sides for the middle. */
  function DelimiterCell(left: bool, dashes: nat, right: bool): string {
    (if left then ":" else "") + Repeated('-', dashes) + (if right then ":" else "")
  }

  function AlignmentSaid(left: bool, right: bool): Align {
    if right then (if left then Center else Right) else Left
  }

  lemma DelimiterCellReads(left: bool, dashes: nat, right: bool)
    requires dashes > 0
    ensures var cell := DelimiterCell(left, dashes, right);
            Solid(cell) && '|' !in cell && IsDashes(cell) && AlignmentOf(cell) == AlignmentSaid(left, right)
  {
    var cell := DelimiterCell(left, dashes, right);
    assert left ==> cell[0] == ':';
    assert right ==> cell[|cell| - 1..] == ":";
    assert !left ==> cell[0] == '-';
    assert !right ==> cell[|cell| - 1] == '-';
    assert left <==> StartsWith(cell, ":");
    assert right <==> EndsWith(cell, ":");
  }

  lemma DashesOf(cell: string) returns (left: bool, dashes: nat, right: bool)
    requires IsDashes(cell)
    ensures dashes > 0 && cell == DelimiterCell(left, dashes, right)
  {
    left, right := StartsWith(cell, ":"), EndsWith(cell, ":");
    var from := if left then 1 else 0;
    var to := if right then |cell| - 1 else |cell|;
    dashes := to - from;
    var middle := cell[from..to];
    assert middle == Repeated('-', dashes);
    assert cell[..from] == if left then ":" else "";
    assert cell[to..] == if right then ":" else "";
    assert cell == cell[..from] + middle + cell[to..];
  }

  /** A cell is a delimiter's if and only if it is so written, and then it aligns as it says. */
  ghost predicate SaysAlignment(cell: string, align: Align) {
    exists left, dashes, right | dashes > 0 ::
      cell == DelimiterCell(left, dashes, right) && align == AlignmentSaid(left, right)
  }

  lemma DelimiterMeans(cell: string, align: Align)
    ensures IsDashes(cell) && AlignmentOf(cell) == align <==> SaysAlignment(cell, align)
  {
    if IsDashes(cell) {
      var left, dashes, right := DashesOf(cell);
      DelimiterCellReads(left, dashes, right);
    }
    if SaysAlignment(cell, align) {
      var left: bool, dashes: nat, right: bool
        :| dashes > 0 && cell == DelimiterCell(left, dashes, right) && align == AlignmentSaid(left, right);
      DelimiterCellReads(left, dashes, right);
    }
  }
}
