/** What the splitters look for in a line, and what they hand on, said of the characters. */
module SqlStatements {
  import opened Options
  import opened PyText
  import opened Splitting
  import opened SqlQuotes
  import opened SqlSplitters

  // ----- What they look for -----

  /** A line ends a statement if and only if a semicolon is the last thing on it but for whitespace. */
  lemma EndsStatementMeans(line: string)
    ensures EndsStatement(line) <==>
              exists i | 0 <= i < |line| :: line[i] == ';' && forall j | i < j < |line| :: IsSpace(line[j])
  {
    if i :| 0 <= i < |line| && line[i] == ';' && forall j | i < j < |line| :: IsSpace(line[j]) {
      assert Ending(line) == i + 1;
    }
    if EndsStatement(line) {
      assert line[Ending(line) - 1] == ';';
    }
  }

  /** Where a line starts, the whitespace before it left aside. */
  predicate StartsAt(line: string, i: nat) {
    i < |line| && !IsSpace(line[i]) && forall j | 0 <= j < i :: IsSpace(line[j])
  }

  /** Something starts the line, and it is not two dashes. */
  ghost predicate SaysSomething(line: string) {
    exists i: nat :: StartsAt(line, i) && !("--" <= line[i..])
  }

  /** That is a command's line, and every other is a blank or a comment. */
  lemma IsCommandMeans(line: string)
    ensures IsCommand(line) <==> SaysSomething(line)
  {
    assert ['-', '-'] == "--";
    if IsCommand(line) {
      assert StartsAt(line, Leading(line));
    }
    if SaysSomething(line) {
      var i: nat :| StartsAt(line, i) && !("--" <= line[i..]);
      assert Leading(line) == i && Ending(line) > i;
      assert Strip(line)[0] == line[i];
    }
  }

  lemma TagAtMeans(s: string, tag: string)
    ensures TagAt(s) == Some(tag) <==> IsTag(tag) && tag <= s
  {
    if TagAt(s) == Some(tag) {
      TagAtIsTag(s);
    }
    if IsTag(tag) && tag <= s {
      TagIsTagAt(tag, s);
    }
  }

  /** A tag stands at `i` and none before it. */
  ghost predicate FirstStandsAt(s: string, tag: string, i: nat) {
    && i <= |s| && IsTag(tag) && tag <= s[i..]
    && forall j, other | 0 <= j < i && IsTag(other) :: !(other <= s[j..])
  }

  /** The tag that the search finds is the one that stands first on the line. */
  lemma {:induction false} FirstTagMeans(s: string, tag: string)
    ensures FirstTag(s) == Some(tag) <==> exists i :: FirstStandsAt(s, tag, i)
    decreases |s|
  {
    assert s[0..] == s;
    TagAtMeans(s, tag);
    if TagAt(s).Some? {
      TagAtMeans(s, TagAt(s).value);
      if FirstTag(s) == Some(tag) {
        assert FirstStandsAt(s, tag, 0);
      }
      if i: nat :| FirstStandsAt(s, tag, i) {
        assert i == 0;
      }
    } else if s != "" {
      FirstTagMeans(s[1..], tag);
      NoneHere(s);
      if i: nat :| FirstStandsAt(s[1..], tag, i) {
        OneFurther(s, tag, i);
      }
      if i: nat :| FirstStandsAt(s, tag, i) {
        assert i > 0;
        OneNearer(s, tag, i);
      }
    }
  }

  lemma NoneHere(s: string)
    requires TagAt(s).None?
    ensures forall other | IsTag(other) :: !(other <= s)
  {
    forall other | IsTag(other)
      ensures !(other <= s)
    {
      TagAtMeans(s, other);
    }
  }

  lemma OneFurther(s: string, tag: string, i: nat)
    requires s != "" && FirstStandsAt(s[1..], tag, i) && forall other | IsTag(other) :: !(other <= s)
    ensures FirstStandsAt(s, tag, i + 1)
  {
    assert s[1..][i..] == s[i + 1..];
    forall j, other | 0 <= j < i + 1 && IsTag(other)
      ensures !(other <= s[j..])
    {
      if j > 0 {
        assert s[1..][j - 1..] == s[j..];
      } else {
        assert s[0..] == s;
      }
    }
  }

  lemma OneNearer(s: string, tag: string, i: nat)
    requires i > 0 && FirstStandsAt(s, tag, i)
    ensures FirstStandsAt(s[1..], tag, i - 1)
  {
    assert s[1..][i - 1..] == s[i..];
    forall j, other | 0 <= j < i - 1 && IsTag(other)
      ensures !(other <= s[1..][j..])
    {
      assert s[1..][j..] == s[j + 1..];
    }
  }

  // ----- What they hand on -----

  /** Each chunk is handed on or not by itself, in order: the two that drop blanks drop nothing else. */
  lemma {:induction false} NotBlankInOrder(front: seq<string>, text: string, back: seq<string>)
    ensures NotBlank(front + [text] + back) == NotBlank(front) + (if text == "" then [] else [text]) + NotBlank(back)
    decreases |front|
  {
    var all := front + [text] + back;
    if front == [] {
      assert all[0] == text && all[1..] == back;
    } else {
      assert all[0] == front[0] && all[1..] == front[1..] + [text] + back;
      NotBlankInOrder(front[1..], text, back);
    }
  }

  ghost predicate SaysCommand(chunk: string) {
    exists k | 0 <= k < |Split(chunk, '\n')| :: SaysSomething(Split(chunk, '\n')[k])
  }

  lemma HasCommandMeans(chunk: string)
    ensures HasCommand(chunk) <==> SaysCommand(chunk)
  {
    var lines := Split(chunk, '\n');
    if HasCommand(chunk) {
      var line :| line in lines && IsCommand(line);
      var k :| 0 <= k < |lines| && lines[k] == line;
      IsCommandMeans(line);
    }
    if k :| 0 <= k < |lines| && SaysSomething(lines[k]) {
      IsCommandMeans(lines[k]);
      assert lines[k] in lines;
    }
  }

  /** The third hands on a chunk if and only if one of its lines is a command's. */
  lemma CommandsInOrder(front: seq<string>, text: string, back: seq<string>)
    ensures Commands(front + [text] + back)
            == Commands(front) + (if SaysCommand(text) then [text] else []) + Commands(back)
  {
    HasCommandMeans(text);
    CommandsAppend(front, text, back);
  }

  lemma FirstKept(first: seq<string>, front: seq<string>, text: seq<string>, back: seq<string>)
    ensures first + (front + text + back) == (first + front) + text + back
  {
  }

  lemma {:induction false} CommandsAppend(front: seq<string>, text: string, back: seq<string>)
    ensures Commands(front + [text] + back)
            == Commands(front) + (if HasCommand(text) then [text] else []) + Commands(back)
    decreases |front|
  {
    var all := front + [text] + back;
    if front == [] {
      assert all[0] == text && all[1..] == back;
    } else {
      assert all[0] == front[0] && all[1..] == front[1..] + [text] + back;
      CommandsAppend(front[1..], text, back);
      var first := if HasCommand(front[0]) then [front[0]] else [];
      FirstKept(first, Commands(front[1..]), if HasCommand(text) then [text] else [], Commands(back));
    }
  }

  predicate AllStripped(texts: seq<string>) {
    forall i | 0 <= i < |texts| :: IsStripped(texts[i])
  }

  lemma {:induction false} TextsAreStripped(chunks: seq<seq<string>>)
    ensures AllStripped(Texts(chunks))
  {
    if chunks != [] {
      StripLeavesStripped(Join(chunks[0], "\n"));
      TextsAreStripped(chunks[1..]);
    }
  }

  lemma {:induction false} NoBlankLeft(texts: seq<string>)
    requires AllStripped(texts)
    ensures AllStripped(NotBlank(texts)) && forall i | 0 <= i < |NotBlank(texts)| :: NotBlank(texts)[i] != ""
  {
    if texts != [] {
      NoBlankLeft(texts[1..]);
    }
  }

  lemma {:induction false} OnlyCommandsLeft(texts: seq<string>)
    requires AllStripped(texts)
    ensures AllStripped(Commands(texts)) && forall i | 0 <= i < |Commands(texts)| :: HasCommand(Commands(texts)[i])
  {
    if texts != [] {
      OnlyCommandsLeft(texts[1..]);
    }
  }

  /** No statement handed on is blank or has whitespace at its ends; and every one of the third's holds a
      command, so that none is a comment alone. */
  lemma StatementsAreWhole(text: string, i: nat)
    ensures i < |Baseline(text)| ==> Baseline(text)[i] != "" && IsStripped(Baseline(text)[i])
    ensures Tagged(text).Statements? && i < |Tagged(text).statements| ==>
              Tagged(text).statements[i] != "" && IsStripped(Tagged(text).statements[i])
    ensures i < |Plain(text)| ==> SaysCommand(Plain(text)[i]) && IsStripped(Plain(text)[i])
  {
    var b, t, p := BaselineChunks(text), TaggedChunks(text), PlainChunks(text);
    TextsAreStripped(b.cut);
    StripLeavesStripped(Join(b.rest, "\n"));
    NoBlankLeft(Texts(b.cut) + [Text(b.rest)]);
    TextsAreStripped(t.cut);
    NoBlankLeft(Texts(t.cut));
    TextsAreStripped(p.cut);
    StripLeavesStripped(Join(p.rest, "\n"));
    OnlyCommandsLeft(Texts(p.cut) + [Text(p.rest)]);
    if i < |Plain(text)| {
      HasCommandMeans(Plain(text)[i]);
    }
  }

  lemma StripLeavesNothing(s: string)
    ensures Strip(s) == "" <==> AllSpaces(s)
  {
    StripParts(s);
    if AllSpaces(s) {
      assert Leading(s) == |s|;
    }
  }

  /** The second refuses a text if and only if something other than whitespace follows its last cut, and then
      says how that begins, in at most 120 characters. */
  lemma RefusedOverItsEnd(text: string)
    ensures var left := Join(TaggedChunks(text).rest, "\n");
            && (Tagged(text).Unterminated? <==> !AllSpaces(left))
            && (Tagged(text).Unterminated? ==>
                  && Tagged(text).leftover != "" && Tagged(text).leftover <= Strip(left)
                  && |Tagged(text).leftover| == (if |Strip(left)| <= 120 then |Strip(left)| else 120))
  {
    StripLeavesNothing(Join(TaggedChunks(text).rest, "\n"));
  }
}
