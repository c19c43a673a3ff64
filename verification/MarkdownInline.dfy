/** The inline half of the answer renderer: emphasis, code and links in a run of text. */
module MarkdownInline {
  import opened Options
  import opened JsText

  /** The inline syntaxes, in the order the pattern tries them. */
  datatype Mark = CodeMark | BoldMark | StarMark | UnderMark | LinkMark

  // ----- The pattern -----

  /** The character classes of the pattern. */
  datatype Class = NoTick | NoStar | NoStarOrLine | NoUnderOrLine | NoBracket | NoParenOrSpace

  predicate In(c: char, class_: Class) {
    match class_
    case NoTick => c != '`'
    case NoStar => c != '*'
    case NoStarOrLine => c != '*' && c != '\n'
    case NoUnderOrLine => c != '_' && c != '\n'
    case NoBracket => c != ']'
    case NoParenOrSpace => c != ')' && !IsSpace(c)
  }

  /** How many characters of the class `s` opens with. */
  function Run(s: string, class_: Class): (n: nat)
    ensures n <= |s|
  {
    if s != "" && In(s[0], class_) then 1 + Run(s[1..], class_) else 0
  }

  lemma {:induction false} RunMeans(s: string, class_: Class)
    ensures forall i | 0 <= i < Run(s, class_) :: In(s[i], class_)
    ensures Run(s, class_) < |s| ==> !In(s[Run(s, class_)], class_)
  {
    if s != "" && In(s[0], class_) {
      RunMeans(s[1..], class_);
    }
  }

  /** `open`, one or more of the class, `close`: the length of that at the front of `s`, or
      none. No class holds the first character of its `close`, so the longest run is the only
      one that can match. */
  function Delimited(s: string, open: string, class_: Class, close: string): (n: nat)
    ensures n <= |s| && (n > 0 ==> n > |open| + |close|)
  {
    if open <= s then
      var run := Run(s[|open|..], class_);
      if run > 0 && close <= s[|open| + run..] then |open| + run + |close| else 0
    else 0
  }

  /** The length of the link at the front of `s`, or none. */
  function LinkLength(s: string): (n: nat)
    ensures n <= |s| && (n > 0 ==> n > 4)
  {
    var name := Delimited(s, "[", NoBracket, "]");
    if name == 0 then 0
    else
      var href := Delimited(s[name..], "(", NoParenOrSpace, ")");
      if href == 0 then 0 else name + href
  }

  function LengthOf(s: string, mark: Mark): (n: nat)
    ensures n <= |s|
  {
    match mark
    case CodeMark => Delimited(s, "`", NoTick, "`")
    case BoldMark => Delimited(s, "**", NoStar, "**")
    case StarMark => Delimited(s, "*", NoStarOrLine, "*")
    case UnderMark => Delimited(s, "_", NoUnderOrLine, "_")
    case LinkMark => LinkLength(s)
  }

  /** The first alternative that matches at the front of `s`. */
  function MarkAt(s: string): (mark: Option<Mark>)
    ensures mark.Some? ==> LengthOf(s, mark.value) > 0
    ensures mark.None? ==> forall m: Mark :: LengthOf(s, m) == 0
  {
    if LengthOf(s, CodeMark) > 0 then Some(CodeMark)
    else if LengthOf(s, BoldMark) > 0 then Some(BoldMark)
    else if LengthOf(s, StarMark) > 0 then Some(StarMark)
    else if LengthOf(s, UnderMark) > 0 then Some(UnderMark)
    else if LengthOf(s, LinkMark) > 0 then Some(LinkMark)
    else None
  }

  /** Where `exec` finds its match, or the end when there is none. */
  function FirstMark(s: string): (i: nat)
    ensures i <= |s|
  {
    if s == "" || MarkAt(s).Some? then 0 else 1 + FirstMark(s[1..])
  }

  lemma {:induction false} FirstMarkMeans(s: string)
    ensures forall i | 0 <= i < FirstMark(s) :: MarkAt(s[i..]).None?
    ensures FirstMark(s) < |s| ==> MarkAt(s[FirstMark(s)..]).Some?
  {
    if s != "" && MarkAt(s).None? {
      FirstMarkMeans(s[1..]);
      forall i | 0 <= i < FirstMark(s)
        ensures MarkAt(s[i..]).None?
      {
        if i > 0 {
          assert s[1..][i - 1..] == s[i..];
        } else {
          assert s[0..] == s;
        }
      }
      assert s[1..][FirstMark(s) - 1..] == s[FirstMark(s)..];
    } else {
      assert s[0..] == s;
    }
  }

  // ----- Reading a text -----

  /** A stretch of the text, plain or matched by the pattern. */
  datatype Token = Plain(source: string) | Marked(mark: Mark, source: string)

  /** The text up to the first match or, at a match, the match. */
  function FirstToken(s: string): (t: Token)
    requires s != ""
    ensures t.source != "" && t.source <= s
  {
    var at := FirstMark(s);
    if at > 0 then Plain(s[..at])
    else
      FirstMarkMeans(s);
      assert s[0..] == s;
      Marked(MarkAt(s).value, s[..LengthOf(s, MarkAt(s).value)])
  }

  function Tokens(s: string): seq<Token>
    decreases |s|
  {
    if s == "" then [] else [FirstToken(s)] + Tokens(s[|FirstToken(s).source|..])
  }

  function Sources(tokens: seq<Token>): string {
    if tokens == [] then "" else tokens[0].source + Sources(tokens[1..])
  }

  /** A token that may stand at the front of `s`: what the pattern matches there, or plain text
      inside which it matches nowhere. */
  ghost predicate ReadsFirst(s: string, t: Token) {
    && t.source != "" && t.source <= s
    && (t.Marked? ==> MarkAt(s) == Some(t.mark) && |t.source| == LengthOf(s, t.mark))
    && (t.Plain? ==> forall i | 0 <= i < |t.source| :: MarkAt(s[i..]).None?)
  }

  /** `tokens` read `s`: they tile it, each may stand where it does, and plain ones do not
      touch. */
  ghost predicate Reads(s: string, tokens: seq<Token>) {
    if tokens == [] then s == ""
    else
      && ReadsFirst(s, tokens[0])
      && (tokens[0].Plain? && |tokens| > 1 ==> tokens[1].Marked?)
      && Reads(s[|tokens[0].source|..], tokens[1..])
  }

  lemma FirstTokenReads(s: string)
    requires s != ""
    ensures ReadsFirst(s, FirstToken(s))
    ensures FirstToken(s).Plain? && FirstToken(s).source != s ==>
              MarkAt(s[|FirstToken(s).source|..]).Some? && FirstToken(s[|FirstToken(s).source|..]).Marked?
  {
    FirstMarkMeans(s);
    assert s[0..] == s;
    var rest := s[FirstMark(s)..];
    assert rest != "" ==> FirstMark(rest) == 0 || FirstMark(s) == 0;
  }

  lemma {:induction false} TokensRead(s: string)
    ensures Reads(s, Tokens(s))
    decreases |s|
  {
    if s != "" {
      var t := FirstToken(s);
      var rest := s[|t.source|..];
      FirstTokenReads(s);
      TokensRead(rest);
      assert Tokens(s)[0] == t && Tokens(s)[1..] == Tokens(rest);
      if |Tokens(s)| > 1 {
        assert Tokens(s)[1] == FirstToken(rest);
      }
    }
  }

  lemma {:induction false} FirstMarkIs(s: string, n: nat)
    requires n <= |s| && forall i | 0 <= i < n :: MarkAt(s[i..]).None?
    requires n == |s| || MarkAt(s[n..]).Some?
    ensures FirstMark(s) == n
    decreases n
  {
    assert s[0..] == s;
    if n > 0 {
      forall i | 0 <= i < n - 1
        ensures MarkAt(s[1..][i..]).None?
      {
        assert s[1..][i..] == s[i + 1..];
      }
      assert s[1..][n - 1..] == s[n..];
      FirstMarkIs(s[1..], n - 1);
    }
  }

  /** The token at the front of `s` is settled by what may stand there, and by what follows. */
  lemma OnlyFirstToken(s: string, t: Token)
    requires s != "" && ReadsFirst(s, t)
    requires t.Plain? ==> |t.source| == |s| || MarkAt(s[|t.source|..]).Some?
    ensures t == FirstToken(s)
  {
    if t.Plain? {
      FirstMarkIs(s, |t.source|);
    } else {
      assert s[0..] == s;
      FirstMarkIs(s, 0);
    }
  }

  lemma {:induction false} ReadingIsUnique(s: string, tokens: seq<Token>)
    requires Reads(s, tokens)
    ensures tokens == Tokens(s)
    decreases |tokens|
  {
    if tokens != [] {
      var t := tokens[0];
      OnlyFirstToken(s, t);
      ReadingIsUnique(s[|t.source|..], tokens[1..]);
      assert tokens == [t] + tokens[1..];
    }
  }

  /** The renderer's reading is the leftmost one, and there is no other: tokens read a text
      exactly when they are the ones it finds. */
  lemma TheOnlyReading(s: string, tokens: seq<Token>)
    ensures Reads(s, tokens) <==> tokens == Tokens(s)
  {
    TokensRead(s);
    if Reads(s, tokens) {
      ReadingIsUnique(s, tokens);
    }
  }

  /** Nothing is dropped, repeated or moved. */
  lemma {:induction false} SourcesAreTheText(s: string)
    ensures Sources(Tokens(s)) == s
    decreases |s|
  {
    if s != "" {
      var n := |FirstToken(s).source|;
      SourcesAreTheText(s[n..]);
      assert s == s[..n] + s[n..];
    }
  }

  // ----- What is shown -----

  datatype Piece =
    | Text(text: string)
    | CodeSpan(text: string)
    | Strong(text: string)
    | Emphasis(text: string)
    | Anchor(name: string, href: string)

  function Lower(c: char): char { if 'A' <= c <= 'Z' then c + 32 as char else c }

  predicate OpensWith(s: string, lower: string) {
    |lower| <= |s| && forall i | 0 <= i < |lower| :: Lower(s[i]) == lower[i]
  }

  /** `/^(https?:\/\/|\/)/i` */
  predicate SafeLink(href: string) {
    OpensWith(href, "http://") || OpensWith(href, "https://") || OpensWith(href, "/")
  }

  /** An anchor only for a safe link; any other is shown as the characters it is. */
  function Show(token: Token): Piece {
    var s := token.source;
    if token.Plain? || |s| < 2 then Text(s)
    else
      match token.mark
      case CodeMark => CodeSpan(s[1..|s| - 1])
      case BoldMark => if |s| < 4 then Text(s) else Strong(s[2..|s| - 2])
      case StarMark => Emphasis(s[1..|s| - 1])
      case UnderMark => Emphasis(s[1..|s| - 1])
      case LinkMark =>
        var name := Run(s[1..], NoBracket);
        if name + 4 > |s| then Text(s)
        else
          var href := s[name + 3..|s| - 1];
          if SafeLink(href) then Anchor(s[1..name + 1], href) else Text(s)
  }

  function ShowAll(tokens: seq<Token>): seq<Piece> {
    if tokens == [] then [] else [Show(tokens[0])] + ShowAll(tokens[1..])
  }

  /** What a piece would have been written as. */
  ghost predicate WrittenAs(piece: Piece, source: string) {
    match piece
    case Text(t) => source == t
    case CodeSpan(t) => source == "`" + t + "`"
    case Strong(t) => source == "**" + t + "**"
    case Emphasis(t) => source == "*" + t + "*" || source == "_" + t + "_"
    case Anchor(name, href) => source == "[" + name + "](" + href + ")" && SafeLink(href)
  }

  lemma DelimitedIs(s: string, open: string, class_: Class, close: string)
    requires Delimited(s, open, class_, close) > 0
    ensures var n := Delimited(s, open, class_, close);
            && s[..n] == open + s[|open|..n - |close|] + close
            && n - |close| - |open| == Run(s[|open|..], class_)
  {
    var n := Delimited(s, open, class_, close);
    var run := Run(s[|open|..], class_);
    assert s[..n][..|open|] == open;
    assert s[|open| + run..][..|close|] == close;
    assert s[..n] == s[..|open|] + s[|open|..n - |close|] + s[n - |close|..n];
    assert s[n - |close|..n] == close;
  }

  /** The run is the same in any text it does not fill. */
  lemma {:induction false} RunWithin(s: string, n: nat, class_: Class)
    requires Run(s, class_) < n <= |s|
    ensures Run(s[..n], class_) == Run(s, class_)
    decreases n
  {
    if In(s[0], class_) {
      assert s[..n][1..] == s[1..][..n - 1];
      RunWithin(s[1..], n - 1, class_);
    }
  }

  lemma Joined(name: string, href: string)
    ensures ("[" + name + "]") + ("(" + href + ")") == "[" + name + "](" + href + ")"
  {
  }

  lemma LinkIs(s: string)
    requires LinkLength(s) > 0
    ensures var n, name := LinkLength(s), Run(s[1..], NoBracket);
            && name + 4 <= n && Run(s[..n][1..], NoBracket) == name
            && s[..n] == "[" + s[1..name + 1] + "](" + s[name + 3..n - 1] + ")"
  {
    var n, name := LinkLength(s), Run(s[1..], NoBracket);
    var rest := s[name + 2..];
    DelimitedIs(s, "[", NoBracket, "]");
    DelimitedIs(rest, "(", NoParenOrSpace, ")");
    RunWithin(s[1..], n - 1, NoBracket);
    assert s[..n][1..] == s[1..][..n - 1];
    assert rest[1..n - name - 3] == s[name + 3..n - 1];
    assert s[..n] == s[..name + 2] + rest[..n - name - 2];
    Joined(s[1..name + 1], s[name + 3..n - 1]);
  }

  lemma SpanShown(s: string, mark: Mark)
    requires LengthOf(s, mark) > 0 && !mark.LinkMark?
    ensures WrittenAs(Show(Marked(mark, s[..LengthOf(s, mark)])), s[..LengthOf(s, mark)])
  {
    match mark {
      case CodeMark => DelimitedIs(s, "`", NoTick, "`");
      case BoldMark => DelimitedIs(s, "**", NoStar, "**");
      case StarMark => DelimitedIs(s, "*", NoStarOrLine, "*");
      case UnderMark => DelimitedIs(s, "_", NoUnderOrLine, "_");
    }
  }

  lemma LinkShown(s: string)
    requires LinkLength(s) > 0
    ensures WrittenAs(Show(Marked(LinkMark, s[..LinkLength(s)])), s[..LinkLength(s)])
  {
    LinkIs(s);
  }

  lemma ShownAsWritten(s: string, mark: Mark)
    requires LengthOf(s, mark) > 0
    ensures WrittenAs(Show(Marked(mark, s[..LengthOf(s, mark)])), s[..LengthOf(s, mark)])
  {
    match mark {
      case LinkMark => LinkShown(s);
      case _ => SpanShown(s, mark);
    }
  }

  lemma FirstShownAsWritten(s: string)
    requires s != ""
    ensures WrittenAs(Show(FirstToken(s)), FirstToken(s).source)
  {
    if FirstMark(s) == 0 {
      FirstMarkMeans(s);
      assert s[0..] == s;
      ShownAsWritten(s, MarkAt(s).value);
    }
  }

  /** What is shown is what was written with the markers taken off, and a link is live only
      with a safe target. */
  lemma {:induction false} EverythingShownWasWritten(s: string, k: nat)
    requires k < |Tokens(s)|
    ensures k < |ShowAll(Tokens(s))| && WrittenAs(ShowAll(Tokens(s))[k], Tokens(s)[k].source)
    decreases |s|
  {
    var t := FirstToken(s);
    assert Tokens(s)[0] == t && Tokens(s)[1..] == Tokens(s[|t.source|..]);
    if k > 0 {
      EverythingShownWasWritten(s[|t.source|..], k - 1);
    } else {
      FirstShownAsWritten(s);
    }
  }

  lemma {:induction false} ShowAppends(a: seq<Token>, t: Token)
    ensures ShowAll(a + [t]) == ShowAll(a) + [Show(t)]
    decreases |a|
  {
    if a == [] {
      assert a + [t] == [t] && [t][1..] == [];
    } else {
      assert (a + [t])[0] == a[0] && (a + [t])[1..] == a[1..] + [t];
      ShowAppends(a[1..], t);
    }
  }

  lemma NextToken(done: seq<Token>, rest: string)
    requires rest != ""
    ensures done + [FirstToken(rest)] + Tokens(rest[|FirstToken(rest).source|..]) == done + Tokens(rest)
  {
  }

  /** The loop: what precedes the match as it is, then the match, then the rest. */
  method RenderInline(text: string) returns (out: seq<Piece>)
    ensures out == ShowAll(Tokens(text))
  {
    out := [];
    var rest := text;
    ghost var done: seq<Token> := [];
    while rest != ""
      invariant done + Tokens(rest) == Tokens(text)
      invariant out == ShowAll(done)
      decreases |rest|
    {
      var at := FirstMark(rest);
      ghost var token := FirstToken(rest);
      NextToken(done, rest);
      ShowAppends(done, token);
      if at > 0 {
        out := out + [Text(rest[..at])];
        rest := rest[at..];
      } else {
        FirstMarkMeans(rest);
        assert rest[0..] == rest;
        var mark := MarkAt(rest).value;
        var n := LengthOf(rest, mark);
        out := out + [Show(Marked(mark, rest[..n]))];
        rest := rest[n..];
      }
      done := done + [token];
    }
    assert done == Tokens(text);
  }
}
