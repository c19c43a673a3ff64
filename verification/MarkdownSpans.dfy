/** The inline syntaxes as they are written, and what each of them shows. */
module MarkdownSpans {
  import opened Options
  import opened JsText
  import opened MarkdownInline

  // ----- How a span is written -----

  predicate Lacks(s: string, c: char) {
    s != "" && forall i | 0 <= i < |s| :: s[i] != c
  }

  predicate LacksSpace(s: string) {
    forall i | 0 <= i < |s| :: !IsSpace(s[i])
  }

  /** `source` is a span of this kind around `text`, or for a link around its name and target. */
  predicate IsSpan(source: string, mark: Mark, text: string, href: string) {
    match mark
    case CodeMark => source == "`" + text + "`" && Lacks(text, '`')
    case BoldMark => source == "**" + text + "**" && Lacks(text, '*')
    case StarMark => source == "*" + text + "*" && Lacks(text, '*') && Lacks(text, '\n')
    case UnderMark => source == "_" + text + "_" && Lacks(text, '_') && Lacks(text, '\n')
    case LinkMark =>
      source == "[" + text + "](" + href + ")" && Lacks(text, ']') && Lacks(href, ')') && LacksSpace(href)
  }

  lemma {:induction false} RunIs(s: string, n: nat, class_: Class)
    requires n <= |s| && (forall i | 0 <= i < n :: In(s[i], class_)) && (n < |s| ==> !In(s[n], class_))
    ensures Run(s, class_) == n
    decreases n
  {
    if n > 0 {
      RunIs(s[1..], n - 1, class_);
    }
  }

  predicate AllIn(text: string, class_: Class) {
    forall i | 0 <= i < |text| :: In(text[i], class_)
  }

  lemma DelimitedBy(s: string, open: string, class_: Class, close: string, text: string, rest: string)
    requires s == open + (text + (close + rest)) && text != "" && AllIn(text, class_)
    requires close != "" && !In(close[0], class_)
    ensures Delimited(s, open, class_, close) == |open| + |text| + |close|
  {
    var inside := text + (close + rest);
    assert s[|open|..] == inside && inside[|text|..] == close + rest;
    assert inside[|text|] == close[0];
    RunIs(inside, |text|, class_);
    assert s[|open| + |text|..] == close + rest;
  }

  lemma DelimitedText(s: string, open: string, class_: Class, close: string) returns (text: string)
    requires Delimited(s, open, class_, close) > 0
    ensures text != "" && AllIn(text, class_)
    ensures s[..Delimited(s, open, class_, close)] == open + text + close
  {
    var n := Delimited(s, open, class_, close);
    DelimitedIs(s, open, class_, close);
    RunMeans(s[|open|..], class_);
    text := s[|open|..n - |close|];
    assert forall i | 0 <= i < |text| :: text[i] == s[|open|..][i];
  }

  lemma Enclosed(s: string, n: nat, open: string, text: string, close: string)
    requires n <= |s| && s[..n] == open + text + close
    ensures s == open + (text + (close + s[n..]))
  {
    assert s == s[..n] + s[n..];
  }

  lemma LinkIsFound(s: string, n: nat, text: string, href: string)
    requires n <= |s| && IsSpan(s[..n], LinkMark, text, href)
    ensures LinkLength(s) == n
  {
    var target := "(" + (href + (")" + s[n..]));
    assert s[..n] == "[" + text + ("](" + href + ")");
    Enclosed(s, n, "[", text, "](" + href + ")");
    assert "](" + href + ")" + s[n..] == "]" + target;
    DelimitedBy(s, "[", NoBracket, "]", text, target);
    assert s[|text| + 2..] == target;
    DelimitedBy(target, "(", NoParenOrSpace, ")", href, s[n..]);
  }

  lemma SpanIsFound(s: string, n: nat, mark: Mark, text: string, href: string)
    requires n <= |s| && IsSpan(s[..n], mark, text, href)
    ensures LengthOf(s, mark) == n
  {
    match mark
    case CodeMark =>
      Enclosed(s, n, "`", text, "`");
      DelimitedBy(s, "`", NoTick, "`", text, s[n..]);
    case BoldMark =>
      Enclosed(s, n, "**", text, "**");
      DelimitedBy(s, "**", NoStar, "**", text, s[n..]);
    case StarMark =>
      Enclosed(s, n, "*", text, "*");
      DelimitedBy(s, "*", NoStarOrLine, "*", text, s[n..]);
    case UnderMark =>
      Enclosed(s, n, "_", text, "_");
      DelimitedBy(s, "_", NoUnderOrLine, "_", text, s[n..]);
    case LinkMark => LinkIsFound(s, n, text, href);
  }

  lemma FoundIsSpan(s: string, mark: Mark) returns (text: string, href: string)
    requires LengthOf(s, mark) > 0
    ensures IsSpan(s[..LengthOf(s, mark)], mark, text, href)
  {
    href := "";
    match mark
    case CodeMark => text := DelimitedText(s, "`", NoTick, "`");
    case BoldMark => text := DelimitedText(s, "**", NoStar, "**");
    case StarMark => text := DelimitedText(s, "*", NoStarOrLine, "*");
    case UnderMark => text := DelimitedText(s, "_", NoUnderOrLine, "_");
    case LinkMark =>
      var name := Delimited(s, "[", NoBracket, "]");
      text := DelimitedText(s, "[", NoBracket, "]");
      href := DelimitedText(s[name..], "(", NoParenOrSpace, ")");
      assert s[..LinkLength(s)] == s[..name] + s[name..][..LinkLength(s) - name];
      assert ("[" + text + "]") + ("(" + href + ")") == "[" + text + "](" + href + ")";
  }

  /** An alternative of the pattern matches the first `n` characters if and only if they are a span of its
      kind: the pattern's backtracking finds nothing longer, and nothing else. */
  lemma PatternMeans(s: string, mark: Mark, n: nat)
    requires 0 < n <= |s|
    ensures LengthOf(s, mark) == n <==> exists text, href :: IsSpan(s[..n], mark, text, href)
  {
    if LengthOf(s, mark) == n {
      var text, href := FoundIsSpan(s, mark);
      assert IsSpan(s[..n], mark, text, href);
    }
    if text, href :| IsSpan(s[..n], mark, text, href) {
      SpanIsFound(s, n, mark, text, href);
    }
  }

  // ----- Which links are live -----

  predicate IsEither(c: char, small: char, capital: char) { c == small || c == capital }

  /** The target starts with a slash, or with `http://` or `https://` in either case. */
  predicate LeadsSafely(href: string) {
    || (|href| > 0 && href[0] == '/')
    || (&& |href| > 4 && IsEither(href[0], 'h', 'H') && IsEither(href[1], 't', 'T')
        && IsEither(href[2], 't', 'T') && IsEither(href[3], 'p', 'P')
        && ("://" <= href[4..] || (IsEither(href[4], 's', 'S') && "://" <= href[5..])))
  }

  lemma LowerIs(c: char, small: char)
    requires 'a' <= small <= 'z'
    ensures Lower(c) == small <==> IsEither(c, small, small - 32 as char)
  {
  }

  lemma LettersAre()
    ensures 'h' - 32 as char == 'H' && 't' - 32 as char == 'T' && 'p' - 32 as char == 'P' && 's' - 32 as char == 'S'
  {
  }

  predicate OpensHttp(href: string) {
    && |href| > 4 && IsEither(href[0], 'h', 'H') && IsEither(href[1], 't', 'T')
    && IsEither(href[2], 't', 'T') && IsEither(href[3], 'p', 'P')
  }

  lemma SchemeMeans(href: string)
    requires |href| > 4
    ensures OpensWith(href, "http") <==> OpensHttp(href)
  {
    LettersAre();
    LowerIs(href[0], 'h');
    LowerIs(href[1], 't');
    LowerIs(href[2], 't');
    LowerIs(href[3], 'p');
    assert OpensWith(href, "http") ==>
        && Lower(href[0]) == "http"[0] && Lower(href[1]) == "http"[1]
        && Lower(href[2]) == "http"[2] && Lower(href[3]) == "http"[3];
  }

  lemma OpensThen(href: string, front: string, back: string)
    requires |front| <= |href|
    ensures OpensWith(href, front + back) <==> OpensWith(href, front) && OpensWith(href[|front|..], back)
  {
    var whole := front + back;
    if OpensWith(href, whole) {
      forall i | 0 <= i < |front|
        ensures Lower(href[i]) == front[i]
      {
        assert whole[i] == front[i];
      }
      forall i | 0 <= i < |back|
        ensures Lower(href[|front|..][i]) == back[i]
      {
        assert whole[|front| + i] == back[i];
      }
    }
    if OpensWith(href, front) && OpensWith(href[|front|..], back) {
      forall i | 0 <= i < |whole|
        ensures Lower(href[i]) == whole[i]
      {
        assert i >= |front| ==> href[i] == href[|front|..][i - |front|];
      }
    }
  }

  /** No letter: the case does not matter. */
  lemma SlashesAreThemselves(s: string)
    ensures OpensWith(s, "://") <==> "://" <= s
    ensures OpensWith(s, "/") <==> |s| > 0 && s[0] == '/'
  {
    if OpensWith(s, "://") {
      assert Lower(s[0]) == "://"[0] && Lower(s[1]) == "://"[1] && Lower(s[2]) == "://"[2];
      assert s[..3] == "://";
    }
    if "://" <= s {
      assert s[0] == "://"[0] && s[1] == "://"[1] && s[2] == "://"[2];
    }
    if OpensWith(s, "/") {
      assert Lower(s[0]) == "/"[0];
    }
  }

  lemma SafeLinkMeans(href: string)
    ensures SafeLink(href) <==> LeadsSafely(href)
  {
    SlashesAreThemselves(href);
    if |href| > 4 {
      assert "http://" == "http" + "://" && "https://" == "http" + "s://" && "s://" == "s" + "://";
      SchemeMeans(href);
      OpensThen(href, "http", "://");
      OpensThen(href, "http", "s://");
      SlashesAreThemselves(href[4..]);
      OpensThen(href[4..], "s", "://");
      SlashesAreThemselves(href[4..][1..]);
      assert href[4..][1..] == href[5..];
      LettersAre();
      LowerIs(href[4], 's');
      assert OpensWith(href[4..], "s") <==> Lower(href[4]) == 's';
    }
  }

  // ----- What is shown -----

  /** What a span shows: its text in its kind, or a link, live only with a safe target. */
  function ShownAs(mark: Mark, source: string, text: string, href: string): Piece {
    match mark
    case CodeMark => CodeSpan(text)
    case BoldMark => Strong(text)
    case StarMark => Emphasis(text)
    case UnderMark => Emphasis(text)
    case LinkMark => if LeadsSafely(href) then Anchor(text, href) else Text(source)
  }

  lemma SpanShows(source: string, mark: Mark, text: string, href: string)
    requires IsSpan(source, mark, text, href)
    ensures Show(Marked(mark, source)) == ShownAs(mark, source, text, href)
  {
    match mark
    case CodeMark => assert source[1..|source| - 1] == text;
    case BoldMark => assert source[2..|source| - 2] == text;
    case StarMark => assert source[1..|source| - 1] == text;
    case UnderMark => assert source[1..|source| - 1] == text;
    case LinkMark => LinkShows(source, text, href);
  }

  lemma LinkShows(source: string, text: string, href: string)
    requires IsSpan(source, LinkMark, text, href)
    ensures Show(Marked(LinkMark, source)) == ShownAs(LinkMark, source, text, href)
  {
    var rest := source[1..];
    assert rest == text + ("](" + href + ")");
    assert rest[|text|] == "](" [0];
    RunIs(rest, |text|, NoBracket);
    assert source[1..|text| + 1] == text && source[|text| + 3..|source| - 1] == href;
    SafeLinkMeans(href);
  }

  lemma {:induction false} TokenAt(s: string, k: nat) returns (rest: string)
    requires k < |Tokens(s)|
    ensures rest != "" && Tokens(s)[k] == FirstToken(rest) && |ShowAll(Tokens(s))| == |Tokens(s)|
    ensures ShowAll(Tokens(s))[k] == Show(FirstToken(rest))
    decreases |s|
  {
    var t := FirstToken(s);
    var tail := s[|t.source|..];
    assert Tokens(s)[0] == t && Tokens(s)[1..] == Tokens(tail);
    if k == 0 {
      rest := s;
      ShownLength(Tokens(s));
    } else {
      rest := TokenAt(tail, k - 1);
    }
  }

  lemma {:induction false} ShownLength(tokens: seq<Token>)
    ensures |ShowAll(tokens)| == |tokens|
  {
    if tokens != [] {
      ShownLength(tokens[1..]);
    }
  }

  /** Each stretch of the text shows what its kind of span shows, and only plain text and links without a
      safe target are shown as the characters they are. */
  lemma ShownByKind(s: string, k: nat)
    requires k < |Tokens(s)|
    ensures var t := Tokens(s)[k];
            && k < |ShowAll(Tokens(s))|
            && (t.Plain? ==> ShowAll(Tokens(s))[k] == Text(t.source))
            && (t.Marked? ==> exists text, href ::
                  && IsSpan(t.source, t.mark, text, href)
                  && ShowAll(Tokens(s))[k] == ShownAs(t.mark, t.source, text, href))
  {
    var rest := TokenAt(s, k);
    var t := FirstToken(rest);
    if t.Marked? {
      FirstTokenReads(rest);
      var text, href := FoundIsSpan(rest, t.mark);
      assert t.source == rest[..LengthOf(rest, t.mark)];
      SpanShows(t.source, t.mark, text, href);
    }
  }
}
