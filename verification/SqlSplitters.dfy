/** Three ways the migrations split a file of SQL into single statements, line by line. */
module SqlSplitters {
  import opened Options
  import opened PyText
  import opened Splitting

  // ----- What a splitter sees of a line -----

  /** `rstrip().endswith(";")` */
  predicate EndsStatement(line: string) { Ending(line) > 0 && line[Ending(line) - 1] == ';' }

  /** `count`, which does not let two occurrences overlap. */
  function Count(s: string, mark: string): nat
    requires mark != ""
  {
    if |s| < |mark| then 0
    else if mark <= s then 1 + Count(s[|mark|..], mark)
    else Count(s[1..], mark)
  }

  predicate Contains(s: string, mark: string) {
    mark <= s || (s != "" && Contains(s[1..], mark))
  }

  predicate IsTagChar(c: char) { 'A' <= c <= 'Z' || 'a' <= c <= 'z' || c == '_' }

  function TagChars(s: string): (n: nat)
    ensures n <= |s|
  {
    if s != "" && IsTagChar(s[0]) then 1 + TagChars(s[1..]) else 0
  }

  /** The tag that starts where `s` starts: a dollar, letters or underscores, a dollar. */
  function TagAt(s: string): (tag: Option<string>)
    ensures tag.Some? ==> tag.value <= s && |tag.value| >= 2
  {
    if s == "" || s[0] != '$' then None
    else
      var n := TagChars(s[1..]);
      if n + 1 < |s| && s[n + 1] == '$' then Some(s[..n + 2]) else None
  }

  function FirstTag(s: string): (tag: Option<string>)
    ensures tag.Some? ==> |tag.value| >= 2
  {
    if s == "" then None else if TagAt(s).Some? then TagAt(s) else FirstTag(s[1..])
  }

  const Dollars := "$$"

  lemma {:induction false} CountsWhatItContains(s: string, mark: string)
    requires mark != ""
    ensures Count(s, mark) > 0 <==> Contains(s, mark)
    decreases |s|
  {
    if s != "" && !(mark <= s) {
      CountsWhatItContains(s[1..], mark);
    }
  }

  lemma {:induction false} FirstTagIsThere(s: string)
    ensures FirstTag(s).Some? ==> Contains(s, FirstTag(s).value)
    ensures Contains(s, Dollars) ==> FirstTag(s).Some?
    decreases |s|
  {
    if s != "" {
      FirstTagIsThere(s[1..]);
      if Dollars <= s {
        assert s[0] == '$' && s[1] == '$';
        assert TagChars(s[1..]) == 0;
      }
    }
  }

  // ----- Inside a body or not -----

  predicate Odd(n: nat) { n % 2 == 1 }

  lemma OddSum(a: nat, b: nat)
    ensures Odd(a + b) <==> Odd(a) != Odd(b)
  {}

  /** The baseline's: inside flips at a line with an odd number of double dollars. */
  function Flip(inside: bool, line: string): bool {
    if Odd(Count(line, Dollars)) then !inside else inside
  }

  /** The tagged: the first tag opens a body unless it comes again, and only it closes one. */
  function TagAfter(tag: Option<string>, line: string): (after: Option<string>)
    ensures after.Some? ==> after == tag || after == FirstTag(line)
  {
    if tag.None? then
      var found := FirstTag(line);
      if found.Some? && Count(line, found.value) == 1 then found else None
    else if Contains(line, tag.value) then None
    else tag
  }

  function Flips(inside: bool, lines: seq<string>): (open: seq<bool>)
    ensures |open| == |lines|
    decreases |lines|
  {
    if lines == [] then [] else [Flip(inside, lines[0])] + Flips(Flip(inside, lines[0]), lines[1..])
  }

  function TagStates(tag: Option<string>, lines: seq<string>): (open: seq<bool>)
    ensures |open| == |lines|
    decreases |lines|
  {
    if lines == [] then [] else [TagAfter(tag, lines[0]).Some?] + TagStates(TagAfter(tag, lines[0]), lines[1..])
  }

  function Closed(lines: seq<string>): (open: seq<bool>)
    ensures |open| == |lines|
  {
    if lines == [] then [] else [false] + Closed(lines[1..])
  }

  // ----- Cutting -----

  /** The lines cut into statements, and the lines after the last cut. */
  datatype Chunks = Chunks(cut: seq<seq<string>>, rest: seq<string>)

  /** A statement ends at a line that ends in a semicolon with no body open. */
  predicate Cuts(line: string, open: bool) { !open && EndsStatement(line) }

  function Cut(buf: seq<string>, lines: seq<string>, open: seq<bool>): Chunks
    requires |open| == |lines|
    decreases |lines|
  {
    if lines == [] then Chunks([], buf)
    else
      var taken := buf + [lines[0]];
      if Cuts(lines[0], open[0]) then
        var later := Cut([], lines[1..], open[1..]);
        Chunks([taken] + later.cut, later.rest)
      else Cut(taken, lines[1..], open[1..])
  }

  function Text(chunk: seq<string>): string { Strip(Join(chunk, "\n")) }

  function Texts(chunks: seq<seq<string>>): seq<string> {
    if chunks == [] then [] else [Text(chunks[0])] + Texts(chunks[1..])
  }

  function NotBlank(texts: seq<string>): seq<string> {
    if texts == [] then [] else (if texts[0] != "" then [texts[0]] else []) + NotBlank(texts[1..])
  }

  // ----- The three splitters -----

  function BaselineChunks(text: string): Chunks {
    var lines := Split(text, '\n');
    Cut([], lines, Flips(false, lines))
  }

  function TaggedChunks(text: string): Chunks {
    var lines := Split(text, '\n');
    Cut([], lines, TagStates(None, lines))
  }

  function PlainChunks(text: string): Chunks {
    var lines := Split(text, '\n');
    Cut([], lines, Closed(lines))
  }

  function Baseline(text: string): seq<string> {
    var chunks := BaselineChunks(text);
    NotBlank(Texts(chunks.cut) + [Text(chunks.rest)])
  }

  datatype Outcome = Statements(statements: seq<string>) | Unterminated(leftover: string)

  function Tagged(text: string): Outcome {
    var chunks := TaggedChunks(text);
    var leftover := Text(chunks.rest);
    if leftover != "" then Unterminated(if |leftover| > 120 then leftover[..120] else leftover)
    else Statements(NotBlank(Texts(chunks.cut)))
  }

  predicate IsCommand(line: string) {
    Strip(line) != "" && !(['-', '-'] <= line[Leading(line)..])
  }

  /** Some line is neither blank nor a comment. */
  predicate HasCommand(chunk: string) {
    exists line | line in Split(chunk, '\n') :: IsCommand(line)
  }

  function Commands(texts: seq<string>): seq<string> {
    if texts == [] then [] else (if HasCommand(texts[0]) then [texts[0]] else []) + Commands(texts[1..])
  }

  function Plain(text: string): seq<string> {
    var chunks := PlainChunks(text);
    Commands(Texts(chunks.cut) + [Text(chunks.rest)])
  }

  // ----- Their loops -----

  datatype Gathered = Gathered(out: seq<string>, rest: seq<string>)

  function Add(out: seq<string>, text: string, blanks: bool): seq<string> {
    if blanks || text != "" then out + [text] else out
  }

  /** What the loop gathers: the texts of the chunks, blank ones only if `blanks`. */
  function Gather(out: seq<string>, buf: seq<string>, lines: seq<string>, open: seq<bool>, blanks: bool): Gathered
    requires |open| == |lines|
    decreases |lines|
  {
    if lines == [] then Gathered(out, buf)
    else
      var taken := buf + [lines[0]];
      if Cuts(lines[0], open[0]) then Gather(Add(out, Text(taken), blanks), [], lines[1..], open[1..], blanks)
      else Gather(out, taken, lines[1..], open[1..], blanks)
  }

  lemma TextsStep(chunk: seq<string>, chunks: seq<seq<string>>)
    ensures Texts([chunk] + chunks) == [Text(chunk)] + Texts(chunks)
  {
    assert ([chunk] + chunks)[1..] == chunks;
  }

  lemma NotBlankStep(text: string, texts: seq<string>)
    ensures NotBlank([text] + texts) == (if text != "" then [text] else []) + NotBlank(texts)
  {
    assert ([text] + texts)[1..] == texts;
  }

  function Picked(texts: seq<string>, blanks: bool): seq<string> { if blanks then texts else NotBlank(texts) }

  lemma AddPicked(out: seq<string>, text: string, texts: seq<string>, blanks: bool)
    ensures Add(out, text, blanks) + Picked(texts, blanks) == out + Picked([text] + texts, blanks)
  {
    NotBlankStep(text, texts);
    var picked := Picked(texts, blanks);
    if blanks || text != "" {
      assert Picked([text] + texts, blanks) == [text] + picked;
      assert (out + [text]) + picked == out + ([text] + picked);
    } else {
      assert [] + picked == picked;
    }
  }

  lemma PickedStep(out: seq<string>, chunk: seq<string>, chunks: seq<seq<string>>, blanks: bool)
    ensures Add(out, Text(chunk), blanks) + Picked(Texts(chunks), blanks)
            == out + Picked(Texts([chunk] + chunks), blanks)
  {
    TextsStep(chunk, chunks);
    AddPicked(out, Text(chunk), Texts(chunks), blanks);
  }

  lemma {:induction false} GatherIsCut(out: seq<string>, buf: seq<string>, lines: seq<string>, open: seq<bool>,
        blanks: bool)
    requires |open| == |lines|
    ensures var c, g := Cut(buf, lines, open), Gather(out, buf, lines, open, blanks);
            g.rest == c.rest && g.out == out + Picked(Texts(c.cut), blanks)
    decreases |lines|
  {
    if lines != [] {
      var taken := buf + [lines[0]];
      if Cuts(lines[0], open[0]) {
        GatherIsCut(Add(out, Text(taken), blanks), [], lines[1..], open[1..], blanks);
        PickedStep(out, taken, Cut([], lines[1..], open[1..]).cut, blanks);
      } else {
        GatherIsCut(out, taken, lines[1..], open[1..], blanks);
      }
    }
  }

  lemma {:induction false} NotBlankAppend(texts: seq<string>, text: string)
    ensures NotBlank(texts + [text]) == NotBlank(texts) + if text != "" then [text] else []
    decreases |texts|
  {
    if texts == [] {
      assert texts + [text] == [text];
      NotBlankStep(text, []);
      assert [text] + [] == [text];
    } else {
      assert (texts + [text])[1..] == texts[1..] + [text];
      NotBlankAppend(texts[1..], text);
    }
  }

  method BaselineStatements(text: string) returns (out: seq<string>)
    ensures out == Baseline(text)
  {
    out := [];
    var buf: seq<string> := [];
    var inBody := false;
    var lines := Split(text, '\n');
    var i := 0;
    assert lines[0..] == lines;
    while i < |lines|
      invariant 0 <= i <= |lines|
      invariant Gather(out, buf, lines[i..], Flips(inBody, lines[i..]), false)
              == Gather([], [], lines, Flips(false, lines), false)
    {
      var line := lines[i];
      assert lines[i..][1..] == lines[i + 1..];
      if Count(line, Dollars) % 2 == 1 {
        inBody := !inBody;
      }
      buf := buf + [line];
      if !inBody && EndsStatement(line) {
        var statement := Text(buf);
        if statement != "" {
          out := out + [statement];
        }
        buf := [];
      }
      i := i + 1;
    }
    GatherIsCut([], [], lines, Flips(false, lines), false);
    NotBlankAppend(Texts(BaselineChunks(text).cut), Text(buf));
    var tail := Text(buf);
    if tail != "" {
      out := out + [tail];
    }
  }

  method TaggedStatements(text: string) returns (outcome: Outcome)
    ensures outcome == Tagged(text)
  {
    var out: seq<string> := [];
    var buf: seq<string> := [];
    var tag: Option<string> := None;
    var lines := Split(text, '\n');
    var i := 0;
    assert lines[0..] == lines;
    while i < |lines|
      invariant 0 <= i <= |lines|
      invariant Gather(out, buf, lines[i..], TagStates(tag, lines[i..]), false)
              == Gather([], [], lines, TagStates(None, lines), false)
    {
      var line := lines[i];
      assert lines[i..][1..] == lines[i + 1..];
      if tag.None? {
        var found := FirstTag(line);
        if found.Some? && Count(line, found.value) == 1 {
          tag := found;
        }
      } else if Contains(line, tag.value) {
        tag := None;
      }
      buf := buf + [line];
      if tag.None? && EndsStatement(line) {
        var statement := Text(buf);
        if statement != "" {
          out := out + [statement];
        }
        buf := [];
      }
      i := i + 1;
    }
    GatherIsCut([], [], lines, TagStates(None, lines), false);
    var leftover := Text(buf);
    if leftover != "" {
      return Unterminated(if |leftover| > 120 then leftover[..120] else leftover);
    }
    return Statements(out);
  }

  method PlainStatements(text: string) returns (statements: seq<string>)
    ensures statements == Plain(text)
  {
    var found: seq<string> := [];
    var buffer: seq<string> := [];
    var lines := Split(text, '\n');
    var i := 0;
    assert lines[0..] == lines;
    while i < |lines|
      invariant 0 <= i <= |lines|
      invariant Gather(found, buffer, lines[i..], Closed(lines[i..]), true)
              == Gather([], [], lines, Closed(lines), true)
    {
      var line := lines[i];
      assert lines[i..][1..] == lines[i + 1..];
      buffer := buffer + [line];
      if EndsStatement(line) {
        found := found + [Text(buffer)];
        buffer := [];
      }
      i := i + 1;
    }
    GatherIsCut([], [], lines, Closed(lines), true);
    assert found == Texts(PlainChunks(text).cut);
    found := found + [Text(buffer)];
    statements := Commands(found);
  }

  // ----- Nothing is lost -----

  function Flatten(chunks: seq<seq<string>>): seq<string> {
    if chunks == [] then [] else chunks[0] + Flatten(chunks[1..])
  }

  lemma FlattenStep(chunk: seq<string>, chunks: seq<seq<string>>)
    ensures Flatten([chunk] + chunks) == chunk + Flatten(chunks)
  {
    assert ([chunk] + chunks)[1..] == chunks;
  }

  lemma {:induction false} CutCovers(buf: seq<string>, lines: seq<string>, open: seq<bool>)
    requires |open| == |lines|
    ensures var c := Cut(buf, lines, open); Flatten(c.cut) + c.rest == buf + lines
    decreases |lines|
  {
    if lines != [] {
      var taken := buf + [lines[0]];
      assert buf + lines == taken + lines[1..];
      if Cuts(lines[0], open[0]) {
        var later := Cut([], lines[1..], open[1..]);
        CutCovers([], lines[1..], open[1..]);
        FlattenStep(taken, later.cut);
        assert (taken + Flatten(later.cut)) + later.rest == taken + (Flatten(later.cut) + later.rest);
        assert [] + lines[1..] == lines[1..];
      } else {
        CutCovers(taken, lines[1..], open[1..]);
      }
    }
  }

  lemma JoinPrepend(first: string, parts: seq<string>, sep: string)
    requires parts != []
    ensures Join([first] + parts, sep) == first + sep + Join(parts, sep)
  {
    assert ([first] + parts)[1..] == parts;
  }

  lemma JoinLonger(c: char, parts: seq<string>, sep: string)
    requires parts != []
    ensures Join([[c] + parts[0]] + parts[1..], sep) == [c] + Join(parts, sep)
  {
    var longer := [[c] + parts[0]] + parts[1..];
    assert longer[1..] == parts[1..];
    if |parts| > 1 {
      assert [c] + parts[0] + sep + Join(parts[1..], sep) == [c] + (parts[0] + sep + Join(parts[1..], sep));
    }
  }

  lemma {:induction false} JoinOfSplit(s: string, sep: char)
    ensures Join(Split(s, sep), [sep]) == s
    decreases |s|
  {
    if s != "" {
      JoinOfSplit(s[1..], sep);
      assert s == [s[0]] + s[1..];
      var parts := Split(s[1..], sep);
      if s[0] == sep {
        JoinPrepend("", parts, [sep]);
      } else {
        JoinLonger(s[0], parts, [sep]);
      }
    }
  }

  /** The chunks a splitter cut and what it had left are the text, line for line; a statement is its
      chunk with the whitespace around it taken off. */
  lemma NothingIsLost(text: string)
    ensures var b, t, p := BaselineChunks(text), TaggedChunks(text), PlainChunks(text);
            && Join(Flatten(b.cut) + b.rest, "\n") == text
            && Join(Flatten(t.cut) + t.rest, "\n") == text
            && Join(Flatten(p.cut) + p.rest, "\n") == text
  {
    var lines := Split(text, '\n');
    JoinOfSplit(text, '\n');
    CutCovers([], lines, Flips(false, lines));
    CutCovers([], lines, TagStates(None, lines));
    CutCovers([], lines, Closed(lines));
    assert [] + lines == lines;
  }

  /** A text without its whitespace. */
  function Squeezed(s: string): string {
    if s == "" then "" else (if IsSpace(s[0]) then "" else [s[0]]) + Squeezed(s[1..])
  }

  function SqueezedAll(texts: seq<string>): string {
    if texts == [] then "" else Squeezed(texts[0]) + SqueezedAll(texts[1..])
  }

  lemma {:induction false} SqueezeAppend(a: string, b: string)
    ensures Squeezed(a + b) == Squeezed(a) + Squeezed(b)
    decreases |a|
  {
    if a == "" {
      assert a + b == b;
    } else {
      assert (a + b)[1..] == a[1..] + b;
      SqueezeAppend(a[1..], b);
    }
  }

  lemma {:induction false} SpacesSqueeze(s: string)
    requires AllSpaces(s)
    ensures Squeezed(s) == ""
    decreases |s|
  {
    if s != "" {
      SpacesSqueeze(s[1..]);
    }
  }

  lemma StripSqueezes(s: string)
    ensures Squeezed(Strip(s)) == Squeezed(s)
  {
    StripParts(s);
    SqueezeAppend(Before(s), Strip(s) + After(s));
    SqueezeAppend(Strip(s), After(s));
    SpacesSqueeze(Before(s));
    SpacesSqueeze(After(s));
  }

  lemma {:induction false} JoinSqueezes(lines: seq<string>)
    ensures Squeezed(Join(lines, "\n")) == SqueezedAll(lines)
    decreases |lines|
  {
    if |lines| == 1 {
      assert SqueezedAll(lines[1..]) == "";
    } else if lines != [] {
      var rest := Join(lines[1..], "\n");
      JoinSqueezes(lines[1..]);
      SqueezeAppend(lines[0] + "\n", rest);
      SqueezeAppend(lines[0], "\n");
      SpacesSqueeze("\n");
    }
  }

  lemma {:induction false} SqueezedAllAppend(a: seq<string>, b: seq<string>)
    ensures SqueezedAll(a + b) == SqueezedAll(a) + SqueezedAll(b)
    decreases |a|
  {
    if a == [] {
      assert a + b == b;
    } else {
      assert (a + b)[1..] == a[1..] + b;
      SqueezedAllAppend(a[1..], b);
    }
  }

  lemma TextSqueezes(chunk: seq<string>)
    ensures Squeezed(Text(chunk)) == SqueezedAll(chunk)
  {
    StripSqueezes(Join(chunk, "\n"));
    JoinSqueezes(chunk);
  }

  lemma {:induction false} TextsSqueeze(chunks: seq<seq<string>>)
    ensures SqueezedAll(Texts(chunks)) == SqueezedAll(Flatten(chunks))
    decreases |chunks|
  {
    if chunks != [] {
      TextSqueezes(chunks[0]);
      TextsSqueeze(chunks[1..]);
      SqueezedAllAppend(chunks[0], Flatten(chunks[1..]));
      assert Texts(chunks)[1..] == Texts(chunks[1..]);
    }
  }

  lemma {:induction false} NotBlankSqueezes(texts: seq<string>)
    ensures SqueezedAll(NotBlank(texts)) == SqueezedAll(texts)
    decreases |texts|
  {
    if texts != [] {
      NotBlankSqueezes(texts[1..]);
      var rest := NotBlank(texts[1..]);
      if texts[0] != "" {
        assert ([texts[0]] + rest)[1..] == rest;
      } else {
        assert [] + rest == rest;
      }
    }
  }

  lemma ChunksSqueeze(chunks: Chunks, text: string)
    requires Join(Flatten(chunks.cut) + chunks.rest, "\n") == text
    ensures SqueezedAll(NotBlank(Texts(chunks.cut))) + Squeezed(Text(chunks.rest)) == Squeezed(text)
  {
    JoinSqueezes(Flatten(chunks.cut) + chunks.rest);
    SqueezedAllAppend(Flatten(chunks.cut), chunks.rest);
    TextsSqueeze(chunks.cut);
    TextSqueezes(chunks.rest);
    NotBlankSqueezes(Texts(chunks.cut));
  }

  lemma TailSqueezes(texts: seq<string>, tail: string)
    ensures SqueezedAll(NotBlank(texts + [tail])) == SqueezedAll(NotBlank(texts)) + Squeezed(tail)
  {
    NotBlankAppend(texts, tail);
    SqueezedAllAppend(NotBlank(texts), if tail != "" then [tail] else []);
    assert tail != "" ==> [tail][1..] == [];
    assert Squeezed("") == "";
  }

  /** What the statements hold, in order, is the text but for whitespace: all of it for the
      baseline, and for the tagged whenever it accepts. */
  lemma StatementsAreTheText(text: string)
    ensures SqueezedAll(Baseline(text)) == Squeezed(text)
    ensures Tagged(text).Statements? ==> SqueezedAll(Tagged(text).statements) == Squeezed(text)
  {
    NothingIsLost(text);
    var b, t := BaselineChunks(text), TaggedChunks(text);
    ChunksSqueeze(b, text);
    ChunksSqueeze(t, text);
    TailSqueezes(Texts(b.cut), Text(b.rest));
  }

  // ----- Where they cut -----

  /** The tag open after `lines`, none open before them. */
  function OpenTag(lines: seq<string>): Option<string> {
    if lines == [] then None else TagAfter(OpenTag(lines[..|lines| - 1]), lines[|lines| - 1])
  }

  /** How many double dollars there are. */
  function DollarsIn(lines: seq<string>): nat {
    if lines == [] then 0 else DollarsIn(lines[..|lines| - 1]) + Count(lines[|lines| - 1], Dollars)
  }

  predicate TaggedComplete(lines: seq<string>) {
    lines != [] && OpenTag(lines).None? && EndsStatement(lines[|lines| - 1])
  }

  predicate BaselineComplete(lines: seq<string>) {
    lines != [] && !Odd(DollarsIn(lines)) && EndsStatement(lines[|lines| - 1])
  }

  /** No statement is complete before the end of `lines`, nor there. */
  ghost predicate Pending(lines: seq<string>, complete: seq<string> -> bool) {
    forall k | 0 < k <= |lines| :: !complete(lines[..k])
  }

  /** A statement is complete at the end of `lines`, for the first time. */
  ghost predicate IsOne(lines: seq<string>, complete: seq<string> -> bool) {
    complete(lines) && forall k | 0 < k < |lines| :: !complete(lines[..k])
  }

  lemma PendingStep(buf: seq<string>, line: string, complete: seq<string> -> bool)
    requires Pending(buf, complete)
    ensures if complete(buf + [line]) then IsOne(buf + [line], complete) else Pending(buf + [line], complete)
  {
    var taken := buf + [line];
    forall k | 0 < k < |taken|
      ensures !complete(taken[..k])
    {
      assert taken[..k] == buf[..k];
    }
    assert taken[..|taken|] == taken;
  }

  lemma OpenTagStep(buf: seq<string>, line: string)
    ensures OpenTag(buf + [line]) == TagAfter(OpenTag(buf), line)
    ensures TaggedComplete(buf + [line]) <==> Cuts(line, TagAfter(OpenTag(buf), line).Some?)
  {
    assert (buf + [line])[..|buf|] == buf;
  }

  lemma DollarsAdd(buf: seq<string>, line: string)
    ensures DollarsIn(buf + [line]) == DollarsIn(buf) + Count(line, Dollars)
  {
    assert (buf + [line])[..|buf|] == buf;
  }

  lemma ParityFlips(buf: seq<string>, line: string)
    ensures Odd(DollarsIn(buf + [line])) == Flip(Odd(DollarsIn(buf)), line)
  {
    DollarsAdd(buf, line);
    OddSum(DollarsIn(buf), Count(line, Dollars));
  }

  lemma DollarsStep(buf: seq<string>, line: string)
    ensures Odd(DollarsIn(buf + [line])) == Flip(Odd(DollarsIn(buf)), line)
    ensures BaselineComplete(buf + [line]) <==> Cuts(line, Flip(Odd(DollarsIn(buf)), line))
  {
    ParityFlips(buf, line);
    var taken := buf + [line];
    assert taken != [] && taken[|taken| - 1] == line;
  }

  ghost predicate AllOnes(chunks: seq<seq<string>>, complete: seq<string> -> bool) {
    forall i | 0 <= i < |chunks| :: IsOne(chunks[i], complete)
  }

  lemma {:induction false} TaggedFrom(buf: seq<string>, lines: seq<string>)
    requires Pending(buf, TaggedComplete)
    ensures var c := Cut(buf, lines, TagStates(OpenTag(buf), lines));
            AllOnes(c.cut, TaggedComplete) && Pending(c.rest, TaggedComplete)
    decreases |lines|
  {
    if lines != [] {
      var taken := buf + [lines[0]];
      OpenTagStep(buf, lines[0]);
      PendingStep(buf, lines[0], TaggedComplete);
      if TaggedComplete(taken) {
        TaggedFrom([], lines[1..]);
      } else {
        TaggedFrom(taken, lines[1..]);
      }
    }
  }

  lemma {:induction false} BaselineFrom(buf: seq<string>, lines: seq<string>)
    requires Pending(buf, BaselineComplete)
    ensures var c := Cut(buf, lines, Flips(Odd(DollarsIn(buf)), lines));
            AllOnes(c.cut, BaselineComplete) && Pending(c.rest, BaselineComplete)
    decreases |lines|
  {
    if lines != [] {
      var taken := buf + [lines[0]];
      DollarsStep(buf, lines[0]);
      PendingStep(buf, lines[0], BaselineComplete);
      if BaselineComplete(taken) {
        BaselineFrom([], lines[1..]);
      } else {
        BaselineFrom(taken, lines[1..]);
      }
    }
  }

  /** A chunk ends the first time its own lines leave no tag open and end in a semicolon, so no cut
      falls inside an open dollar quote and none is missed. */
  lemma TaggedCutsOutside(text: string)
    ensures AllOnes(TaggedChunks(text).cut, TaggedComplete) && Pending(TaggedChunks(text).rest, TaggedComplete)
  {
    TaggedFrom([], Split(text, '\n'));
  }

  /** The same for the baseline, which counts: every chunk holds an even number of double dollars. */
  lemma BaselineCutsOutside(text: string)
    ensures AllOnes(BaselineChunks(text).cut, BaselineComplete) && Pending(BaselineChunks(text).rest, BaselineComplete)
  {
    BaselineFrom([], Split(text, '\n'));
  }

  // ----- Where they agree -----

  /** The only tag of the line is the empty one. */
  predicate OnlyDollars(line: string) { FirstTag(line).Some? ==> FirstTag(line).value == Dollars }

  /** Outside a body one double dollar opens it and an even number leaves it; inside, an odd number
      closes it. At most two outside and at most one inside always fit. */
  predicate Fits(inside: bool, line: string) {
    var n := Count(line, Dollars);
    if inside then n == 0 || n % 2 == 1 else n == 1 || n % 2 == 0
  }

  function DollarTag(inside: bool): Option<string> { if inside then Some(Dollars) else None }

  /** One line: the two agree on whether a body is open exactly when the line fits. */
  lemma AgreeOnLine(inside: bool, line: string)
    requires OnlyDollars(line)
    ensures TagAfter(DollarTag(inside), line) == DollarTag(Flip(inside, line)) <==> Fits(inside, line)
  {
    FirstTagIsThere(line);
    CountsWhatItContains(line, Dollars);
  }

  predicate AllFit(inside: bool, lines: seq<string>)
    decreases |lines|
  {
    lines == [] || (OnlyDollars(lines[0]) && Fits(inside, lines[0]) && AllFit(Flip(inside, lines[0]), lines[1..]))
  }

  lemma {:induction false} SameStates(inside: bool, lines: seq<string>)
    requires AllFit(inside, lines)
    ensures TagStates(DollarTag(inside), lines) == Flips(inside, lines)
    decreases |lines|
  {
    if lines != [] {
      AgreeOnLine(inside, lines[0]);
      SameStates(Flip(inside, lines[0]), lines[1..]);
    }
  }

  /** On text whose only tag is the empty one and whose lines all fit, the tagged splitter gives what
      the baseline gives, or refuses a last statement that the baseline lets stand unterminated. */
  lemma TaggedIsBaseline(text: string)
    requires AllFit(false, Split(text, '\n'))
    ensures TaggedChunks(text) == BaselineChunks(text)
    ensures if Text(BaselineChunks(text).rest) == "" then Tagged(text) == Statements(Baseline(text))
            else Tagged(text).Unterminated?
  {
    SameStates(false, Split(text, '\n'));
    NotBlankAppend(Texts(BaselineChunks(text).cut), Text(BaselineChunks(text).rest));
  }

  predicate NoneOdd(lines: seq<string>) { forall i | 0 <= i < |lines| :: !Odd(Count(lines[i], Dollars)) }

  lemma {:induction false} EvenLinesAreClosed(lines: seq<string>)
    requires NoneOdd(lines)
    ensures Flips(false, lines) == Closed(lines)
    decreases |lines|
  {
    if lines != [] {
      EvenLinesAreClosed(lines[1..]);
    }
  }

  lemma BlankHasNoCommand()
    ensures !HasCommand("")
  {
    assert Split("", '\n') == [""];
  }

  lemma CommandsStep(text: string, texts: seq<string>)
    ensures Commands([text] + texts) == (if HasCommand(text) then [text] else []) + Commands(texts)
  {
    assert ([text] + texts)[1..] == texts;
  }

  lemma {:induction false} CommandsSkipBlanks(texts: seq<string>)
    ensures Commands(NotBlank(texts)) == Commands(texts)
    decreases |texts|
  {
    if texts != [] {
      CommandsSkipBlanks(texts[1..]);
      assert texts == [texts[0]] + texts[1..];
      CommandsStep(texts[0], texts[1..]);
      if texts[0] != "" {
        CommandsStep(texts[0], NotBlank(texts[1..]));
      } else {
        BlankHasNoCommand();
        assert [] + NotBlank(texts[1..]) == NotBlank(texts[1..]);
      }
    }
  }

  /** Where no line has an odd number of double dollars, the comment-dropping splitter is the
      baseline with the commandless statements left out. */
  lemma PlainIsBaselineFiltered(text: string)
    requires NoneOdd(Split(text, '\n'))
    ensures Plain(text) == Commands(Baseline(text))
  {
    EvenLinesAreClosed(Split(text, '\n'));
    CommandsSkipBlanks(Texts(PlainChunks(text).cut) + [Text(PlainChunks(text).rest)]);
  }

  lemma {:induction false} FirstPart(s: string, sep: char)
    ensures Split(s, sep)[0] <= s
    decreases |s|
  {
    if s != "" {
      FirstPart(s[1..], sep);
    }
  }

  predicate NoneContains(lines: seq<string>) { forall i | 0 <= i < |lines| :: !Contains(lines[i], Dollars) }

  lemma NoneContainsNoneOdd(lines: seq<string>)
    requires NoneContains(lines)
    ensures NoneOdd(lines)
  {
    forall i | 0 <= i < |lines|
      ensures !Odd(Count(lines[i], Dollars))
    {
      CountsWhatItContains(lines[i], Dollars);
    }
  }

  lemma {:induction false} PartsContainNoMore(s: string)
    requires !Contains(s, Dollars)
    ensures NoneContains(Split(s, '\n'))
    decreases |s|
  {
    if s != "" {
      PartsContainNoMore(s[1..]);
      FirstPart(s[1..], '\n');
      var parts := Split(s[1..], '\n');
      if s[0] != '\n' {
        var first := [s[0]] + parts[0];
        assert first[1..] == parts[0];
        assert first <= s;
        assert !Contains(first, Dollars);
      } else {
        assert !Contains("", Dollars);
      }
    }
  }

  /** So it is on every text without a double dollar. */
  lemma PlainOnTextWithoutBodies(text: string)
    requires !Contains(text, Dollars)
    ensures Plain(text) == Commands(Baseline(text))
  {
    PartsContainNoMore(text);
    NoneContainsNoneOdd(Split(text, '\n'));
    PlainIsBaselineFiltered(text);
  }
}
