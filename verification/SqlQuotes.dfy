/** Dollar quotes read character by character, and when the migrations' line-by-line splitters see
    the same quotes. */
module SqlQuotes {
  import opened Options
  import opened PyText
  import opened Splitting
  import opened SqlSplitters

  /** The quote open after `s`: a tag opens one, and only that tag closes it. */
  function Quote(open: Option<string>, s: string): (after: Option<string>)
    requires open.Some? ==> open.value != ""
    ensures after.Some? ==> after.value != ""
    decreases |s|
  {
    if s == "" then open
    else if open.Some? then
      if open.value <= s then Quote(None, s[|open.value|..]) else Quote(open, s[1..])
    else if TagAt(s).Some? then Quote(TagAt(s), s[|TagAt(s).value|..])
    else Quote(None, s[1..])
  }

  /** A dollar, letters or underscores or nothing, a dollar. */
  predicate IsTag(t: string) {
    && |t| >= 2 && t[0] == '$' && t[|t| - 1] == '$'
    && forall i | 0 < i < |t| - 1 :: 'A' <= t[i] <= 'Z' || 'a' <= t[i] <= 'z' || t[i] == '_'
  }

  lemma {:induction false} TagCharsAre(s: string)
    ensures forall i | 0 <= i < TagChars(s) :: IsTagChar(s[i])
    decreases |s|
  {
    if s != "" && IsTagChar(s[0]) {
      TagCharsAre(s[1..]);
    }
  }

  lemma {:induction false} TagCharsEnd(s: string, n: nat)
    requires n < |s| && !IsTagChar(s[n]) && forall i | 0 <= i < n :: IsTagChar(s[i])
    ensures TagChars(s) == n
    decreases n
  {
    if n > 0 {
      TagCharsEnd(s[1..], n - 1);
    }
  }

  lemma TagAtIsTag(s: string)
    requires TagAt(s).Some?
    ensures IsTag(TagAt(s).value)
  {
    TagCharsAre(s[1..]);
    var n := TagChars(s[1..]);
    var t := s[..n + 2];
    forall i | 0 < i < |t| - 1
      ensures IsTagChar(t[i])
    {
      assert t[i] == s[1..][i - 1];
    }
  }

  lemma TagIsTagAt(t: string, s: string)
    requires IsTag(t) && t <= s
    ensures TagAt(s) == Some(t)
  {
    var n := |t| - 2;
    assert forall i | 0 <= i < n :: s[1..][i] == t[i + 1];
    assert s[1..][n] == t[n + 1] == '$';
    TagCharsEnd(s[1..], n);
    assert s[..n + 2] == t;
  }

  lemma {:induction false} FirstTagIsTag(s: string)
    requires FirstTag(s).Some?
    ensures IsTag(FirstTag(s).value)
    decreases |s|
  {
    if TagAt(s).Some? {
      TagAtIsTag(s);
    } else {
      FirstTagIsTag(s[1..]);
    }
  }

  // ----- Past a mark -----

  /** What follows the first `mark` in `s`. */
  function Past(s: string, mark: string): (rest: string)
    requires Contains(s, mark)
    ensures |rest| <= |s| && (mark != "" ==> |rest| < |s|)
  {
    if mark <= s then s[|mark|..] else Past(s[1..], mark)
  }

  lemma {:induction false} CountPast(s: string, mark: string)
    requires mark != "" && Contains(s, mark)
    ensures Count(s, mark) == 1 + Count(Past(s, mark), mark)
    decreases |s|
  {
    if !(mark <= s) {
      CountPast(s[1..], mark);
      ContainsIsLong(s, mark);
    }
  }

  lemma {:induction false} ContainsIsLong(s: string, mark: string)
    requires Contains(s, mark)
    ensures |s| >= |mark|
    decreases |s|
  {
    if !(mark <= s) {
      ContainsIsLong(s[1..], mark);
    }
  }

  lemma {:induction false} QuoteInside(t: string, s: string)
    requires t != ""
    ensures Quote(Some(t), s) == if Contains(s, t) then Quote(None, Past(s, t)) else Some(t)
    decreases |s|
  {
    if s != "" && !(t <= s) {
      QuoteInside(t, s[1..]);
    }
  }

  lemma {:induction false} QuoteOutside(s: string)
    ensures FirstTag(s).None? ==> Quote(None, s) == None
    ensures FirstTag(s).Some? ==>
              && Contains(s, FirstTag(s).value)
              && Quote(None, s) == Quote(FirstTag(s), Past(s, FirstTag(s).value))
    decreases |s|
  {
    if s != "" && TagAt(s).None? {
      QuoteOutside(s[1..]);
      if FirstTag(s).Some? {
        FirstTagIsTag(s);
        if FirstTag(s).value <= s {
          TagIsTagAt(FirstTag(s).value, s);
        }
      }
    }
  }

  // ----- One line -----

  /** What follows the place where the line closes a quote, one it opened or one it began in. */
  function AfterClose(tag: Option<string>, line: string): Option<string> {
    if tag.Some? then
      if Contains(line, tag.value) then Some(Past(line, tag.value)) else None
    else
      var found := FirstTag(line);
      if found.Some? && Contains(line, found.value) && Contains(Past(line, found.value), found.value)
      then Some(Past(Past(line, found.value), found.value)) else None
  }

  /** Nothing after the first close on the line leaves a quote open. */
  predicate Tame(tag: Option<string>, line: string) {
    var rest := AfterClose(tag, line);
    rest.Some? ==> Quote(None, rest.value).None?
  }

  /** The tagged splitter is right about what a line leaves open exactly when the line is tame. */
  lemma TaggedReadsTameLines(tag: Option<string>, line: string)
    requires tag.Some? ==> tag.value != ""
    ensures TagAfter(tag, line) == Quote(tag, line) <==> Tame(tag, line)
  {
    if tag.Some? {
      QuoteInside(tag.value, line);
    } else {
      QuoteOutside(line);
      var found := FirstTag(line);
      if found.Some? {
        var t := found.value;
        CountPast(line, t);
        CountsWhatItContains(Past(line, t), t);
        QuoteInside(t, Past(line, t));
      }
    }
  }

  /** `s` holds no tag but the empty one. */
  predicate NoNamedTag(s: string)
    decreases |s|
  {
    s == "" || ((TagAt(s).Some? ==> TagAt(s).value == Dollars) && NoNamedTag(s[1..]))
  }

  lemma {:induction false} NoNamedTagAfter(s: string, k: nat)
    requires NoNamedTag(s) && k <= |s|
    ensures NoNamedTag(s[k..])
    decreases k
  {
    if k > 0 {
      NoNamedTagAfter(s[1..], k - 1);
      assert s[1..][k - 1..] == s[k..];
    } else {
      assert s[0..] == s;
    }
  }

  lemma DollarsAreATag(s: string)
    ensures Dollars <= s ==> TagAt(s) == Some(Dollars)
  {
    if Dollars <= s {
      assert IsTag(Dollars);
      TagIsTagAt(Dollars, s);
    }
  }

  lemma OddNext(n: nat)
    ensures Odd(1 + n) == !Odd(n)
  {}

  /** The baseline is right about every line that holds no named tag. */
  lemma {:induction false} BaselineReadsUnnamedLines(inside: bool, s: string)
    requires NoNamedTag(s)
    ensures Quote(DollarTag(inside), s) == DollarTag(Flip(inside, s))
    decreases |s|
  {
    if s != "" {
      DollarsAreATag(s);
      if Dollars <= s {
        NoNamedTagAfter(s, 2);
        BaselineReadsUnnamedLines(!inside, s[2..]);
        OddNext(Count(s[2..], Dollars));
      } else {
        BaselineReadsUnnamedLines(inside, s[1..]);
      }
    }
  }

  // ----- Many lines -----

  lemma PrefixBeforeBreak(t: string, a: string, b: string)
    requires '\n' !in t
    ensures t <= a + (['\n'] + b) <==> t <= a
  {
    var s := a + (['\n'] + b);
    assert s[|a|] == '\n' && s[..|a|] == a;
    assert t <= s ==> |t| <= |a|;
    assert |t| <= |a| ==> s[..|t|] == a[..|t|];
  }

  lemma TagHasNoBreak(t: string)
    requires IsTag(t)
    ensures '\n' !in t
  {}

  lemma TagAtBeforeBreak(a: string, b: string)
    ensures a != "" ==> TagAt(a + (['\n'] + b)) == TagAt(a)
  {
    var s := a + (['\n'] + b);
    if TagAt(s).Some? {
      TagAtIsTag(s);
      TagHasNoBreak(TagAt(s).value);
      PrefixBeforeBreak(TagAt(s).value, a, b);
      TagIsTagAt(TagAt(s).value, a);
    } else if TagAt(a).Some? {
      TagAtIsTag(a);
      TagIsTagAt(TagAt(a).value, s);
    }
  }

  /** Reading across a line break is reading the one line and then the other. */
  lemma {:induction false} QuoteAcrossBreak(open: Option<string>, a: string, b: string)
    requires open.Some? ==> IsTag(open.value)
    ensures Quote(open, a + (['\n'] + b)) == Quote(Quote(open, a), b)
    decreases |a|
  {
    var s := a + (['\n'] + b);
    if a == "" {
      assert s == ['\n'] + b && s[1..] == b;
      if open.Some? {
        assert open.value[0] == '$';
      }
    } else {
      assert s[1..] == a[1..] + (['\n'] + b);
      if open.Some? {
        TagHasNoBreak(open.value);
        PrefixBeforeBreak(open.value, a, b);
        if open.value <= a {
          assert s[|open.value|..] == a[|open.value|..] + (['\n'] + b);
          QuoteAcrossBreak(None, a[|open.value|..], b);
        } else {
          QuoteAcrossBreak(open, a[1..], b);
        }
      } else {
        TagAtBeforeBreak(a, b);
        if TagAt(a).Some? {
          TagAtIsTag(a);
          var n := |TagAt(a).value|;
          assert s[n..] == a[n..] + (['\n'] + b);
          QuoteAcrossBreak(TagAt(a), a[n..], b);
        } else {
          QuoteAcrossBreak(None, a[1..], b);
        }
      }
    }
  }

  // ----- Whole statements -----

  /** The quote open at the end of the lines, read as one text. */
  function QuoteOf(lines: seq<string>): Option<string> { Quote(None, Join(lines, "\n")) }

  lemma {:induction false} JoinOneMore(lines: seq<string>, line: string)
    ensures Join(lines + [line], "\n") == if lines == [] then line else Join(lines, "\n") + (['\n'] + line)
    decreases |lines|
  {
    if lines == [] {
      assert lines + [line] == [line];
    } else {
      assert (lines + [line])[1..] == lines[1..] + [line];
      JoinOneMore(lines[1..], line);
      if |lines| > 1 {
        var rest := Join(lines[1..], "\n");
        assert lines[0] + "\n" + (rest + (['\n'] + line)) == (lines[0] + "\n" + rest) + (['\n'] + line);
      }
    }
  }

  lemma QuoteOneMore(lines: seq<string>, line: string)
    ensures QuoteOf(lines + [line]) == Quote(QuoteOf(lines), line)
  {
    JoinOneMore(lines, line);
    if lines != [] {
      QuoteAcrossBreak(None, Join(lines, "\n"), line);
    }
  }

  ghost predicate NoneOpen(chunks: seq<seq<string>>) {
    forall i | 0 <= i < |chunks| :: QuoteOf(chunks[i]).None?
  }

  predicate AllTame(tag: Option<string>, lines: seq<string>)
    requires tag.Some? ==> tag.value != ""
    decreases |lines|
  {
    lines == [] || (Tame(tag, lines[0]) && AllTame(Quote(tag, lines[0]), lines[1..]))
  }

  lemma {:induction false} TaggedStatementsClose(buf: seq<string>, lines: seq<string>)
    requires OpenTag(buf) == QuoteOf(buf) && AllTame(QuoteOf(buf), lines)
    ensures NoneOpen(Cut(buf, lines, TagStates(OpenTag(buf), lines)).cut)
    decreases |lines|
  {
    if lines != [] {
      var taken := buf + [lines[0]];
      OpenTagStep(buf, lines[0]);
      QuoteOneMore(buf, lines[0]);
      TaggedReadsTameLines(OpenTag(buf), lines[0]);
      if TaggedComplete(taken) {
        TaggedStatementsClose([], lines[1..]);
      } else {
        TaggedStatementsClose(taken, lines[1..]);
      }
    }
  }

  predicate NoneNamed(lines: seq<string>) { forall i | 0 <= i < |lines| :: NoNamedTag(lines[i]) }

  lemma {:induction false} BaselineStatementsClose(buf: seq<string>, lines: seq<string>)
    requires DollarTag(Odd(DollarsIn(buf))) == QuoteOf(buf)
    requires NoneNamed(lines)
    ensures NoneOpen(Cut(buf, lines, Flips(Odd(DollarsIn(buf)), lines)).cut)
    decreases |lines|
  {
    if lines != [] {
      var taken := buf + [lines[0]];
      DollarsStep(buf, lines[0]);
      QuoteOneMore(buf, lines[0]);
      BaselineReadsUnnamedLines(Odd(DollarsIn(buf)), lines[0]);
      if BaselineComplete(taken) {
        BaselineStatementsClose([], lines[1..]);
      } else {
        BaselineStatementsClose(taken, lines[1..]);
      }
    }
  }

  /** On tame lines, no statement the tagged splitter cuts ends inside a dollar quote. */
  lemma TaggedNeverCutsAQuote(text: string)
    requires AllTame(None, Split(text, '\n'))
    ensures NoneOpen(TaggedChunks(text).cut)
  {
    TaggedStatementsClose([], Split(text, '\n'));
  }

  /** Nor does any the baseline cuts, where no tag is named. */
  lemma BaselineNeverCutsAQuote(text: string)
    requires NoneNamed(Split(text, '\n'))
    ensures NoneOpen(BaselineChunks(text).cut)
  {
    BaselineStatementsClose([], Split(text, '\n'));
  }

  // ----- Where the tagged splitter is wrong -----

  /** After these lines the splitter holds open what reading them leaves open. */
  predicate ReadsRight(lines: seq<string>) { OpenTag(lines) == QuoteOf(lines) }

  lemma ReadsOneMore(buf: seq<string>, line: string)
    requires ReadsRight(buf)
    ensures ReadsRight(buf + [line]) <==> Tame(QuoteOf(buf), line)
  {
    OpenTagStep(buf, line);
    QuoteOneMore(buf, line);
    TaggedReadsTameLines(OpenTag(buf), line);
  }

  lemma {:induction false} RightFrom(buf: seq<string>, lines: seq<string>)
    requires ReadsRight(buf)
    ensures AllTame(QuoteOf(buf), lines) <==> forall k | 0 <= k <= |lines| :: ReadsRight(buf + lines[..k])
    decreases |lines|
  {
    if lines == [] {
      assert buf + lines[..0] == buf;
    } else {
      var taken := buf + [lines[0]];
      ReadsOneMore(buf, lines[0]);
      QuoteOneMore(buf, lines[0]);
      assert buf + lines[..1] == taken;
      if ReadsRight(taken) {
        RightFrom(taken, lines[1..]);
        Shifted(buf, lines);
      }
    }
  }

  /** The prefixes of `lines` past the first line, after `buf`, are those of the rest after both. */
  lemma Shifted(buf: seq<string>, lines: seq<string>)
    requires lines != [] && ReadsRight(buf)
    ensures (forall k | 0 <= k <= |lines| :: ReadsRight(buf + lines[..k]))
            <==> forall k | 0 <= k <= |lines[1..]| :: ReadsRight(buf + [lines[0]] + lines[1..][..k])
  {
    forall k | 0 <= k <= |lines[1..]|
      ensures buf + [lines[0]] + lines[1..][..k] == buf + lines[..k + 1]
    {}
    assert buf + lines[..0] == buf;
    if forall k | 0 <= k <= |lines| :: ReadsRight(buf + lines[..k]) {
      forall k | 0 <= k <= |lines[1..]|
        ensures ReadsRight(buf + [lines[0]] + lines[1..][..k])
      {
        assert ReadsRight(buf + lines[..k + 1]);
      }
    }
    if forall k | 0 <= k <= |lines[1..]| :: ReadsRight(buf + [lines[0]] + lines[1..][..k]) {
      forall k | 0 < k <= |lines|
        ensures ReadsRight(buf + lines[..k])
      {
        assert ReadsRight(buf + [lines[0]] + lines[1..][..k - 1]);
      }
    }
  }

  /** The splitter is right about what is open after every line of a text exactly when all its
      lines are tame. */
  lemma TaggedReadsTameTexts(text: string)
    ensures var lines := Split(text, '\n');
            AllTame(None, lines) <==> forall k | 0 <= k <= |lines| :: ReadsRight(lines[..k])
  {
    var lines := Split(text, '\n');
    RightFrom([], lines);
    forall k | 0 <= k <= |lines|
      ensures [] + lines[..k] == lines[..k]
    {}
  }

  /** The first line that is not tame, if there is one, ends in a semicolon. */
  predicate FirstWildEnds(tag: Option<string>, lines: seq<string>)
    requires tag.Some? ==> tag.value != ""
    decreases |lines|
  {
    lines != [] ==>
      if Tame(tag, lines[0]) then FirstWildEnds(Quote(tag, lines[0]), lines[1..]) else EndsStatement(lines[0])
  }

  /** A line that is not tame leaves the splitter with nothing open. */
  lemma WildLinesLookClosed(tag: Option<string>, line: string)
    requires tag.Some? ==> tag.value != ""
    requires !Tame(tag, line)
    ensures TagAfter(tag, line).None?
  {
    if tag.None? {
      var t := FirstTag(line).value;
      CountPast(line, t);
      CountsWhatItContains(Past(line, t), t);
    }
  }

  lemma {:induction false} WildStatementStaysOpen(buf: seq<string>, lines: seq<string>)
    requires ReadsRight(buf) && !AllTame(QuoteOf(buf), lines) && FirstWildEnds(QuoteOf(buf), lines)
    ensures !NoneOpen(Cut(buf, lines, TagStates(OpenTag(buf), lines)).cut)
    decreases |lines|
  {
    var taken := buf + [lines[0]];
    OpenTagStep(buf, lines[0]);
    QuoteOneMore(buf, lines[0]);
    ReadsOneMore(buf, lines[0]);
    if Tame(QuoteOf(buf), lines[0]) {
      if TaggedComplete(taken) {
        WildStatementStaysOpen([], lines[1..]);
        LaterOpen(taken, Cut([], lines[1..], TagStates(None, lines[1..])).cut);
      } else {
        WildStatementStaysOpen(taken, lines[1..]);
      }
    } else {
      WildLinesLookClosed(OpenTag(buf), lines[0]);
      var later := Cut([], lines[1..], TagStates(None, lines[1..])).cut;
      assert ([taken] + later)[0] == taken;
    }
  }

  lemma LaterOpen(first: seq<string>, later: seq<seq<string>>)
    requires !NoneOpen(later)
    ensures !NoneOpen([first] + later)
  {
    var i :| 0 <= i < |later| && QuoteOf(later[i]).Some?;
    assert ([first] + later)[i + 1] == later[i];
  }

  /** When the first line that is not tame ends in a semicolon, the splitter cuts there, inside a
      quote: so on such texts no statement ends inside a quote exactly when every line is tame. */
  lemma FirstWildLineIsCutInside(text: string)
    requires FirstWildEnds(None, Split(text, '\n'))
    ensures NoneOpen(TaggedChunks(text).cut) <==> AllTame(None, Split(text, '\n'))
  {
    if AllTame(None, Split(text, '\n')) {
      TaggedNeverCutsAQuote(text);
    } else {
      WildStatementStaysOpen([], Split(text, '\n'));
    }
  }

  /** A quote opened, closed and opened again on one line. */
  const Reopened := "$$a$$b$$;"

  lemma ReopenedLeavesAQuote()
    ensures FirstTag(Reopened) == Some(Dollars) && AfterClose(None, Reopened) == Some("b$$;")
    ensures Quote(None, "b$$;") == Some(Dollars)
  {
    var first, second, last := "a$$b$$;", "b$$;", "$$;";
    DollarsAreATag(Reopened);
    assert Reopened[2..] == first;
    assert !(Dollars <= first) && first[1..] == "$$b$$;";
    assert "$$b$$;"[2..] == second;
    assert Contains(first, Dollars) && Past(first, Dollars) == second;
    DollarsAreATag(last);
    assert TagAt(second).None? && second[1..] == last;
    assert last[2..] == ";" && !(Dollars <= ";") && ";"[1..] == "";
    assert Quote(Some(Dollars), ";") == Some(Dollars);
  }

  lemma ReopenedIsWild()
    ensures !Tame(None, Reopened) && EndsStatement(Reopened) && '\n' !in Reopened
  {
    ReopenedLeavesAQuote();
    assert Ending(Reopened) == |Reopened|;
  }

  /** The splitter cuts there, though a quote is open. */
  lemma TaggedMayCutAQuote()
    ensures !NoneOpen(TaggedChunks(Reopened).cut)
  {
    ReopenedIsWild();
    SplitWithout(Reopened, '\n');
    FirstWildLineIsCutInside(Reopened);
  }
}
