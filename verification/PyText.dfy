/** The string operations of Python that the scripts and the API are written in. */
module PyText {
  import opened Splitting

  /** What `strip` removes. */
  predicate IsSpace(c: char) {
    || '\t' <= c <= '\r' || '\U{001C}' <= c <= ' ' || c == '\U{0085}' || c == '\U{00A0}' || c == '\U{1680}'
    || '\U{2000}' <= c <= '\U{200A}' || c == '\U{2028}' || c == '\U{2029}' || c == '\U{202F}'
    || c == '\U{205F}' || c == '\U{3000}'
  }

  /** Where `splitlines` breaks. */
  predicate EndsLine(c: char) {
    || '\n' <= c <= '\r' || '\U{001C}' <= c <= '\U{001E}' || c == '\U{0085}' || c == '\U{2028}' || c == '\U{2029}'
  }

  /** How many whitespace characters `s` opens with. */
  function Leading(s: string): (n: nat)
    ensures n <= |s| && (n < |s| ==> !IsSpace(s[n]))
    ensures forall i | 0 <= i < n :: IsSpace(s[i])
  {
    if s != "" && IsSpace(s[0]) then 1 + Leading(s[1..]) else 0
  }

  /** Where the whitespace that `s` closes with begins. */
  function Ending(s: string): (n: nat)
    ensures n <= |s| && (n > 0 ==> !IsSpace(s[n - 1]))
    ensures forall i | n <= i < |s| :: IsSpace(s[i])
  {
    if s != "" && IsSpace(s[|s| - 1]) then Ending(s[..|s| - 1]) else |s|
  }

  function Strip(s: string): string {
    if Leading(s) < Ending(s) then s[Leading(s)..Ending(s)] else ""
  }

  predicate AllSpaces(s: string) { forall i | 0 <= i < |s| :: IsSpace(s[i]) }

  /** Neither end is whitespace. */
  predicate IsStripped(s: string) {
    s == "" || (!IsSpace(s[0]) && !IsSpace(s[|s| - 1]))
  }

  lemma StripLeavesStripped(s: string)
    ensures IsStripped(Strip(s))
  {}

  lemma InThree(s: string, a: nat, b: nat)
    requires a <= b <= |s|
    ensures s == s[..a] + (s[a..b] + s[b..])
  {}

  lemma OnlySpaces(s: string)
    requires Ending(s) <= Leading(s)
    ensures AllSpaces(s)
  {
    forall i | 0 <= i < |s|
      ensures IsSpace(s[i])
    {
      assert i < Leading(s) || Ending(s) <= i;
    }
  }

  function Before(s: string): string { if Leading(s) < Ending(s) then s[..Leading(s)] else s }

  function After(s: string): string { if Leading(s) < Ending(s) then s[Ending(s)..] else "" }

  /** Stripping takes whitespace off both ends and nothing else. */
  lemma StripParts(s: string)
    ensures AllSpaces(Before(s)) && AllSpaces(After(s))
    ensures s == Before(s) + (Strip(s) + After(s))
  {
    var a, b := Leading(s), Ending(s);
    if a < b {
      InThree(s, a, b);
    } else {
      OnlySpaces(s);
    }
  }

  lemma StrippedStays(s: string)
    requires IsStripped(s)
    ensures Strip(s) == s
  {}

  lemma StripOf(before: string, s: string, after: string)
    requires AllSpaces(before) && AllSpaces(after) && s != "" && IsStripped(s)
    ensures Strip(before + (s + after)) == s
  {
    var t := before + (s + after);
    assert t[|before|] == s[0] && t[|before| + |s| - 1] == s[|s| - 1];
    assert forall i | 0 <= i < |before| :: t[i] == before[i];
    assert forall i | |before| + |s| <= i < |t| :: t[i] == after[i - |before| - |s|];
    assert Leading(t) == |before| && Ending(t) == |before| + |s|;
  }

  // ----- Lines -----

  /** How far the first line goes, its break not included. */
  function LineLength(s: string): (n: nat)
    ensures n <= |s| && (n < |s| ==> EndsLine(s[n]))
    ensures forall i | 0 <= i < n :: !EndsLine(s[i])
  {
    if s == "" || EndsLine(s[0]) then 0 else 1 + LineLength(s[1..])
  }

  /** `splitlines`: no last empty line, and a carriage return with its line feed is one break. */
  function SplitLines(s: string): seq<string> {
    if s == "" then []
    else
      var n := LineLength(s);
      var next := if n == |s| then n else if s[n] == '\r' && n + 1 < |s| && s[n + 1] == '\n' then n + 2 else n + 1;
      [s[..n]] + SplitLines(s[next..])
  }

  predicate IsLine(s: string) { forall i | 0 <= i < |s| :: !EndsLine(s[i]) }

  predicate AreLines(lines: seq<string>) { forall i | 0 <= i < |lines| :: IsLine(lines[i]) }

  lemma {:induction false} SplitGivesLines(s: string)
    ensures AreLines(SplitLines(s))
    decreases |s|
  {
    if s != "" {
      var n := LineLength(s);
      var next := if n == |s| then n else if s[n] == '\r' && n + 1 < |s| && s[n + 1] == '\n' then n + 2 else n + 1;
      SplitGivesLines(s[next..]);
    }
  }

  lemma {:induction false} LineLengthIs(line: string, rest: string)
    requires IsLine(line) && (rest == "" || EndsLine(rest[0]))
    ensures LineLength(line + rest) == |line|
    decreases |line|
  {
    if line == "" {
      assert line + rest == rest;
    } else {
      assert (line + rest)[1..] == line[1..] + rest;
      LineLengthIs(line[1..], rest);
    }
  }

  lemma FirstLine(line: string, rest: string)
    requires IsLine(line)
    ensures SplitLines(line + ("\n" + rest)) == [line] + SplitLines(rest)
  {
    var text := line + ("\n" + rest);
    LineLengthIs(line, "\n" + rest);
    assert text[|line|] == '\n' && text[..|line|] == line && text[|line| + 1..] == rest;
  }

  /** One character that ends a line, or a carriage return with its line feed. */
  predicate IsBreak(s: string) {
    (|s| == 1 && EndsLine(s[0])) || s == "\r\n"
  }

  /** A line ends at its first break, whichever it is; a line feed right after a carriage return belongs to
      it. A last line needs none. */
  lemma LineThenRest(line: string, ending: string, rest: string)
    requires IsLine(line) && IsBreak(ending) && (ending == "\r" && rest != "" ==> rest[0] != '\n')
    ensures SplitLines(line + (ending + rest)) == [line] + SplitLines(rest)
    ensures line != "" ==> SplitLines(line) == [line]
  {
    var more := ending + rest;
    var text := line + more;
    LineLengthIs(line, more);
    assert text[..|line|] == line && text[|line|] == ending[0] && text[|line| + |ending|..] == rest;
    assert |more| > 1 ==> text[|line| + 1] == more[1];
    LineLengthIs(line, "");
    assert line + "" == line && line[..|line|] == line && line[|line|..] == "";
  }

  lemma JoinedStart(lines: seq<string>) returns (rest: string)
    requires lines != []
    ensures Join(lines, "\n") + "\n" == lines[0] + ("\n" + rest)
    ensures rest == if |lines| == 1 then "" else Join(lines[1..], "\n") + "\n"
  {
    rest := if |lines| == 1 then "" else Join(lines[1..], "\n") + "\n";
  }

  /** Lines joined and ended with line feeds split into the same lines. */
  lemma {:induction false} JoinedLines(lines: seq<string>)
    requires AreLines(lines) && lines != []
    ensures SplitLines(Join(lines, "\n") + "\n") == lines
    decreases |lines|
  {
    var rest := JoinedStart(lines);
    FirstLine(lines[0], rest);
    if |lines| > 1 {
      JoinedLines(lines[1..]);
      assert lines == [lines[0]] + lines[1..];
    }
  }
}
