/** Merging a server's `.env` template onto a working local one. */
module EnvMerge {
  import opened Options
  import opened PyText
  import opened Splitting

  // ----- Parsing -----

  datatype Assignment = Assignment(key: string, value: string)

  /** Where `c` first stands. */
  function Find(s: string, c: char): (n: nat)
    ensures n <= |s| && (n < |s| ==> s[n] == c)
    ensures forall i | 0 <= i < n :: s[i] != c
  {
    if s == "" || s[0] == c then 0 else 1 + Find(s[1..], c)
  }

  /** What a line assigns, if it is not blank, a comment or without an equals sign. */
  function Assigned(line: string): Option<Assignment> {
    var stripped := Strip(line);
    var at := Find(stripped, '=');
    if stripped == "" || stripped[0] == '#' || at == |stripped| then None
    else Some(Assignment(Strip(stripped[..at]), stripped[at + 1..]))
  }

  type Env = map<string, string>

  function Lookup(env: Env, key: string): Option<string> {
    if key in env then Some(env[key]) else None
  }

  function Noted(env: Env, line: string): Env {
    var a := Assigned(line);
    if a.None? then env else env[a.value.key := a.value.value]
  }

  function ParseFrom(env: Env, lines: seq<string>): Env
    decreases |lines|
  {
    if lines == [] then env else ParseFrom(Noted(env, lines[0]), lines[1..])
  }

  function Parse(text: string): Env { ParseFrom(map[], SplitLines(text)) }

  method ParseEnv(text: string) returns (values: Env)
    ensures values == Parse(text)
  {
    values := map[];
    var lines := SplitLines(text);
    var i := 0;
    while i < |lines|
      invariant 0 <= i <= |lines|
      invariant ParseFrom(values, lines[i..]) == Parse(text)
    {
      var a := Assigned(lines[i]);
      if a.Some? {
        values := values[a.value.key := a.value.value];
      }
      assert lines[i..][1..] == lines[i + 1..];
      i := i + 1;
    }
  }

  // ----- The last assignment wins -----

  function Own(line: string, key: string): Option<string> {
    var a := Assigned(line);
    if a.Some? && a.value.key == key then Some(a.value.value) else None
  }

  function Or(first: Option<string>, second: Option<string>): Option<string> {
    if first.Some? then first else second
  }

  /** The value of the last line that assigns `key`. */
  function LastOf(lines: seq<string>, key: string): Option<string> {
    if lines == [] then None else Or(LastOf(lines[1..], key), Own(lines[0], key))
  }

  lemma {:induction false} LastWins(env: Env, lines: seq<string>, key: string)
    ensures Lookup(ParseFrom(env, lines), key) == Or(LastOf(lines, key), Lookup(env, key))
    decreases |lines|
  {
    if lines != [] {
      LastWins(Noted(env, lines[0]), lines[1..], key);
    }
  }

  lemma {:induction false} LastOfAppend(a: seq<string>, b: seq<string>, key: string)
    ensures LastOf(a + b, key) == Or(LastOf(b, key), LastOf(a, key))
    decreases |a|
  {
    if a == [] {
      assert a + b == b;
    } else {
      assert (a + b)[1..] == a[1..] + b;
      LastOfAppend(a[1..], b, key);
    }
  }

  // ----- Names and values -----

  /** A key that is written the way it is read, as every preserved key is. */
  predicate IsName(key: string) {
    key != "" && IsStripped(key) && key[0] != '#' && '=' !in key && IsLine(key)
  }

  predicate AreNames(keys: seq<string>) { forall i | 0 <= i < |keys| :: IsName(keys[i]) }

  /** A value a line can give: whitespace may lead it but not end it. */
  predicate IsValue(value: string) {
    IsLine(value) && (value != "" ==> !IsSpace(value[|value| - 1]))
  }

  predicate IsEnv(env: Env) { forall key | key in env :: IsValue(env[key]) }

  function Written(key: string, value: string): string { key + "=" + value }

  lemma FindIs(s: string, c: char, at: nat)
    requires at < |s| && s[at] == c && forall i | 0 <= i < at :: s[i] != c
    ensures Find(s, c) == at
  {}

  lemma AssignedAt(line: string, at: nat)
    requires IsStripped(line) && at < |line| && line[0] != '#'
    requires line[at] == '=' && forall i | 0 <= i < at :: line[i] != '='
    ensures Assigned(line) == Some(Assignment(Strip(line[..at]), line[at + 1..]))
  {
    StrippedStays(line);
    FindIs(line, '=', at);
  }

  lemma WrittenIsStripped(key: string, value: string)
    requires IsName(key) && IsValue(value)
    ensures IsStripped(Written(key, value)) && IsLine(Written(key, value))
  {
    var line := Written(key, value);
    assert line[0] == key[0];
    assert line[|line| - 1] == if value == "" then '=' else value[|value| - 1];
  }

  lemma WrittenIsAssigned(key: string, value: string)
    requires IsName(key) && IsValue(value)
    ensures Assigned(Written(key, value)) == Some(Assignment(key, value)) && IsLine(Written(key, value))
  {
    WrittenIsStripped(key, value);
    var line := Written(key, value);
    assert line[..|key|] == key && line[|key| + 1..] == value;
    assert forall i | 0 <= i < |key| :: line[i] == key[i];
    AssignedAt(line, |key|);
    StrippedStays(key);
  }

  lemma WrittenOwn(key: string, value: string, k: string)
    requires IsName(key) && IsValue(value)
    ensures Own(Written(key, value), k) == if k == key then Some(value) else None
  {
    WrittenIsAssigned(key, value);
  }

  lemma StripIsLine(line: string)
    requires IsLine(line)
    ensures IsLine(Strip(line))
  {}

  lemma AssignedIsValue(line: string)
    requires IsLine(line) && Assigned(line).Some?
    ensures IsValue(Assigned(line).value.value)
  {
    StripLeavesStripped(line);
    StripIsLine(line);
    var stripped := Strip(line);
    var at := Find(stripped, '=');
    var value := stripped[at + 1..];
    assert value != "" ==> value[|value| - 1] == stripped[|stripped| - 1];
  }

  lemma {:induction false} ParsedIsEnv(env: Env, lines: seq<string>)
    requires IsEnv(env) && AreLines(lines)
    ensures IsEnv(ParseFrom(env, lines))
    decreases |lines|
  {
    if lines != [] {
      if Assigned(lines[0]).Some? {
        AssignedIsValue(lines[0]);
      }
      ParsedIsEnv(Noted(env, lines[0]), lines[1..]);
    }
  }

  // ----- Merging -----

  const Marker := "# --- Giu tu .env local (khong co trong template) ---"

  predicate Keeps(preserve: seq<string>, local: Env, key: string) { key in preserve && key in local }

  function MergedLine(preserve: seq<string>, local: Env, line: string): string {
    var a := Assigned(line);
    if a.Some? && Keeps(preserve, local, a.value.key) then Written(a.value.key, local[a.value.key]) else line
  }

  function MergedLines(preserve: seq<string>, local: Env, lines: seq<string>): (merged: seq<string>)
    ensures |merged| == |lines|
  {
    if lines == [] then [] else [MergedLine(preserve, local, lines[0])] + MergedLines(preserve, local, lines[1..])
  }

  /** `preserve` is in sorted order, so what is picked from it is too. */
  function Orphans(preserve: seq<string>, local: Env, template: Env): seq<string> {
    if preserve == [] then []
    else
      var first := if preserve[0] in local && preserve[0] !in template then [preserve[0]] else [];
      first + Orphans(preserve[1..], local, template)
  }

  function WrittenAll(keys: seq<string>, local: Env): (lines: seq<string>)
    requires forall i | 0 <= i < |keys| :: keys[i] in local
    ensures |lines| == |keys|
  {
    if keys == [] then [] else [Written(keys[0], local[keys[0]])] + WrittenAll(keys[1..], local)
  }

  lemma {:induction false} OrphansAre(preserve: seq<string>, local: Env, template: Env)
    ensures forall key :: key in Orphans(preserve, local, template)
                          <==> key in preserve && key in local && key !in template
    decreases |preserve|
  {
    if preserve != [] {
      OrphansAre(preserve[1..], local, template);
      assert preserve == [preserve[0]] + preserve[1..];
    }
  }

  function OrphanLines(preserve: seq<string>, local: Env, template: Env): seq<string> {
    var orphans := Orphans(preserve, local, template);
    OrphansAre(preserve, local, template);
    if orphans == [] then [] else ["", Marker] + WrittenAll(orphans, local)
  }

  function AllLines(preserve: seq<string>, local: Env, template: string): seq<string> {
    MergedLines(preserve, local, SplitLines(template)) + OrphanLines(preserve, local, Parse(template))
  }

  function Merged(preserve: seq<string>, local: Env, template: string): string {
    Join(AllLines(preserve, local, template), "\n") + "\n"
  }

  /** The preserved keys substituted in place, in the order the template first has them. */
  function Kept(preserve: seq<string>, local: Env, lines: seq<string>, kept: seq<string>): seq<string>
    decreases |lines|
  {
    if lines == [] then kept
    else
      var a := Assigned(lines[0]);
      var more := a.Some? && Keeps(preserve, local, a.value.key) && a.value.key !in kept;
      Kept(preserve, local, lines[1..], if more then kept + [a.value.key] else kept)
  }

  lemma MergedLinesStep(preserve: seq<string>, local: Env, lines: seq<string>, i: nat, done: seq<string>)
    requires i < |lines|
    ensures done + MergedLines(preserve, local, lines[i..])
         == done + [MergedLine(preserve, local, lines[i])] + MergedLines(preserve, local, lines[i + 1..])
  {
    assert lines[i..][1..] == lines[i + 1..];
  }

  lemma WrittenAllStep(keys: seq<string>, local: Env, i: nat, done: seq<string>)
    requires i < |keys| && forall j | 0 <= j < |keys| :: keys[j] in local
    ensures done + WrittenAll(keys[i..], local) == done + [Written(keys[i],
            local[keys[i]])] + WrittenAll(keys[i + 1..], local)
  {
    assert keys[i..][1..] == keys[i + 1..];
  }

  lemma KeptStep(preserve: seq<string>, local: Env, lines: seq<string>, i: nat, kept: seq<string>)
    requires i < |lines|
    ensures var a := Assigned(lines[i]);
            var more := a.Some? && Keeps(preserve, local, a.value.key) && a.value.key !in kept;
            Kept(preserve, local, lines[i..], kept)
            == Kept(preserve, local, lines[i + 1..], if more then kept + [a.value.key] else kept)
  {
    assert lines[i..][1..] == lines[i + 1..];
  }

  /** The first pass: substitute in place. */
  method Substitute(preserve: seq<string>, template: string, local: Env) returns (lines: seq<string>, kept: seq<string>)
    ensures lines == MergedLines(preserve, local, SplitLines(template))
    ensures kept == Kept(preserve, local, SplitLines(template), [])
  {
    kept, lines := [], [];
    var source := SplitLines(template);
    var i := 0;
    while i < |source|
      invariant 0 <= i <= |source|
      invariant lines + MergedLines(preserve, local, source[i..]) == MergedLines(preserve, local, source)
      invariant Kept(preserve, local, source[i..], kept) == Kept(preserve, local, source, [])
    {
      KeptStep(preserve, local, source, i, kept);
      MergedLinesStep(preserve, local, source, i, lines);
      var a := Assigned(source[i]);
      if a.Some? && a.value.key in preserve && a.value.key in local {
        lines := lines + [Written(a.value.key, local[a.value.key])];
        if a.value.key !in kept {
          kept := kept + [a.value.key];
        }
      } else {
        lines := lines + [source[i]];
      }
      i := i + 1;
    }
  }

  lemma OrphansStep(preserve: seq<string>, local: Env, template: Env, i: nat, done: seq<string>)
    requires i < |preserve|
    ensures var more := preserve[i] in local && preserve[i] !in template;
            done + Orphans(preserve[i..], local, template)
            == (if more then done + [preserve[i]] else done) + Orphans(preserve[i + 1..], local, template)
  {
    assert preserve[i..][1..] == preserve[i + 1..];
  }

  /** The second: what the template has no line for. */
  method CollectOrphans(preserve: seq<string>, local: Env, template: Env) returns (orphans: seq<string>)
    ensures orphans == Orphans(preserve, local, template)
  {
    orphans := [];
    var i := 0;
    while i < |preserve|
      invariant 0 <= i <= |preserve|
      invariant orphans + Orphans(preserve[i..], local, template) == Orphans(preserve, local, template)
    {
      OrphansStep(preserve, local, template, i, orphans);
      if preserve[i] in local && preserve[i] !in template {
        orphans := orphans + [preserve[i]];
      }
      i := i + 1;
    }
  }

  method Merge(preserve: seq<string>, template: string, local: Env)
    returns (merged: string, kept: seq<string>, orphans: seq<string>)
    ensures merged == Merged(preserve, local, template)
    ensures kept == Kept(preserve, local, SplitLines(template), [])
    ensures orphans == Orphans(preserve, local, Parse(template))
  {
    var lines;
    lines, kept := Substitute(preserve, template, local);
    var templateValues := ParseEnv(template);
    orphans := CollectOrphans(preserve, local, templateValues);
    OrphansAre(preserve, local, templateValues);
    var tail := AppendOrphans(orphans, local);
    merged := Join(lines + tail, "\n") + "\n";
  }

  /** The heading and the lines of what the template lacks. */
  method AppendOrphans(orphans: seq<string>, local: Env) returns (lines: seq<string>)
    requires forall i | 0 <= i < |orphans| :: orphans[i] in local
    ensures lines == if orphans == [] then [] else ["", Marker] + WrittenAll(orphans, local)
  {
    lines := [];
    if orphans != [] {
      lines := ["", Marker];
      var i := 0;
      while i < |orphans|
        invariant 0 <= i <= |orphans|
        invariant lines + WrittenAll(orphans[i..], local) == ["", Marker] + WrittenAll(orphans, local)
      {
        WrittenAllStep(orphans, local, i, lines);
        lines := lines + [Written(orphans[i], local[orphans[i]])];
        i := i + 1;
      }
    }
  }

  // ----- What the merged file says -----

  /** A substituted line assigns the key it assigned, and the local value. */
  lemma MergedLineOwn(preserve: seq<string>, local: Env, line: string, key: string)
    requires AreNames(preserve) && IsEnv(local)
    ensures Own(MergedLine(preserve, local, line), key)
         == if Own(line, key).Some? && Keeps(preserve, local, key) then Some(local[key]) else Own(line, key)
  {
    var a := Assigned(line);
    if a.Some? && Keeps(preserve, local, a.value.key) {
      WrittenIsAssigned(a.value.key, local[a.value.key]);
    }
  }

  lemma {:induction false} MergedLinesLast(preserve: seq<string>, local: Env, lines: seq<string>, key: string)
    requires AreNames(preserve) && IsEnv(local)
    ensures LastOf(MergedLines(preserve, local, lines), key)
         == if LastOf(lines, key).Some? && Keeps(preserve, local, key) then Some(local[key]) else LastOf(lines, key)
    decreases |lines|
  {
    if lines != [] {
      MergedLineOwn(preserve, local, lines[0], key);
      MergedLinesLast(preserve, local, lines[1..], key);
      assert MergedLines(preserve, local, lines)[1..] == MergedLines(preserve, local, lines[1..]);
    }
  }

  lemma LastStep(line: string, rest: seq<string>, key: string)
    ensures LastOf([line] + rest, key) == Or(LastOf(rest, key), Own(line, key))
  {
    assert ([line] + rest)[1..] == rest;
  }

  lemma {:induction false} WrittenAllLast(keys: seq<string>, local: Env, key: string)
    requires AreNames(keys) && IsEnv(local) && forall i | 0 <= i < |keys| :: keys[i] in local
    ensures LastOf(WrittenAll(keys, local), key) == if key in keys then Some(local[key]) else None
    decreases |keys|
  {
    if keys != [] {
      WrittenOwn(keys[0], local[keys[0]], key);
      WrittenAllLast(keys[1..], local, key);
      LastStep(Written(keys[0], local[keys[0]]), WrittenAll(keys[1..], local), key);
      assert keys == [keys[0]] + keys[1..];
    }
  }

  lemma LinesJoin(a: string, b: string)
    requires IsLine(a) && IsLine(b)
    ensures IsLine(a + b)
  {}

  lemma MarkerParts()
    ensures Marker == "# --- Giu tu .env " + "local (khong co " + "trong template) ---"
  {}

  lemma MarkerIsLine()
    ensures IsLine(Marker)
  {
    MarkerParts();
    assert IsLine("# --- Giu tu .env ");
    assert IsLine("local (khong co ");
    assert IsLine("trong template) ---");
    LinesJoin("# --- Giu tu .env ", "local (khong co ");
    LinesJoin("# --- Giu tu .env " + "local (khong co ", "trong template) ---");
  }

  lemma MarkerIsComment()
    ensures Marker != "" && Marker[0] == '#' && IsStripped(Marker)
  {
    var a, b, c := "# --- Giu tu .env ", "local (khong co ", "trong template) ---";
    MarkerParts();
    assert a[0] == '#' && c[|c| - 1] == '-';
    assert Marker == a + b + c;
    assert Marker[0] == a[0] && Marker[|Marker| - 1] == c[|c| - 1];
  }

  lemma CommentAssignsNothing(line: string)
    requires IsStripped(line) && line != "" && line[0] == '#'
    ensures Assigned(line) == None
  {
    StrippedStays(line);
  }

  lemma HeadingAssignsNothing(key: string)
    ensures LastOf(["", Marker], key) == None && AreLines(["", Marker])
  {
    MarkerIsLine();
    MarkerIsComment();
    CommentAssignsNothing(Marker);
    var heading := ["", Marker];
    assert heading[1..] == [Marker] && [Marker][1..] == [];
    assert LastOf([Marker], key) == Or(LastOf([], key), Own(Marker, key));
  }

  lemma OrphanLinesLast(preserve: seq<string>, local: Env, template: Env, key: string)
    requires AreNames(preserve) && IsEnv(local)
    ensures LastOf(OrphanLines(preserve, local, template), key)
         == if Keeps(preserve, local, key) && key !in template then Some(local[key]) else None
  {
    OrphansAre(preserve, local, template);
    var orphans := Orphans(preserve, local, template);
    forall i | 0 <= i < |orphans|
      ensures IsName(orphans[i]) && orphans[i] in local
    {
      assert orphans[i] in orphans;
      assert orphans[i] in preserve;
    }
    WrittenAllLast(orphans, local, key);
    HeadingAssignsNothing(key);
    if orphans != [] {
      LastOfAppend(["", Marker], WrittenAll(orphans, local), key);
    }
  }

  lemma {:induction false} MergedLinesAreLines(preserve: seq<string>, local: Env, lines: seq<string>)
    requires AreNames(preserve) && IsEnv(local) && AreLines(lines)
    ensures AreLines(MergedLines(preserve, local, lines))
    decreases |lines|
  {
    if lines != [] {
      MergedLineIsLine(preserve, local, lines[0]);
      MergedLinesAreLines(preserve, local, lines[1..]);
      OneMoreLine(MergedLine(preserve, local, lines[0]), MergedLines(preserve, local, lines[1..]));
    }
  }

  lemma MergedLineIsLine(preserve: seq<string>, local: Env, line: string)
    requires AreNames(preserve) && IsEnv(local) && IsLine(line)
    ensures IsLine(MergedLine(preserve, local, line))
  {
    var a := Assigned(line);
    if a.Some? && Keeps(preserve, local, a.value.key) {
      WrittenIsAssigned(a.value.key, local[a.value.key]);
    }
  }

  lemma OneMoreLine(line: string, lines: seq<string>)
    requires IsLine(line) && AreLines(lines)
    ensures AreLines([line] + lines)
  {}

  lemma {:induction false} WrittenAllAreLines(keys: seq<string>, local: Env)
    requires AreNames(keys) && IsEnv(local) && forall i | 0 <= i < |keys| :: keys[i] in local
    ensures AreLines(WrittenAll(keys, local))
    decreases |keys|
  {
    if keys != [] {
      WrittenIsAssigned(keys[0], local[keys[0]]);
      WrittenAllAreLines(keys[1..], local);
    }
  }

  lemma AllLinesAreLines(preserve: seq<string>, local: Env, template: string)
    requires AreNames(preserve) && IsEnv(local)
    ensures AreLines(AllLines(preserve, local, template))
  {
    SplitGivesLines(template);
    MergedLinesAreLines(preserve, local, SplitLines(template));
    OrphansAre(preserve, local, Parse(template));
    var orphans := Orphans(preserve, local, Parse(template));
    forall i | 0 <= i < |orphans|
      ensures IsName(orphans[i]) && orphans[i] in local
    {
      assert orphans[i] in orphans;
      assert orphans[i] in preserve;
    }
    WrittenAllAreLines(orphans, local);
    HeadingAssignsNothing("");
  }

  /** The lines of the merged file are the lines it was joined from; a file of none is one blank. */
  lemma MergedSplits(preserve: seq<string>, local: Env, template: string)
    requires AreNames(preserve) && IsEnv(local)
    ensures var lines := AllLines(preserve, local, template);
            SplitLines(Merged(preserve, local, template)) == if lines == [] then [""] else lines
  {
    AllLinesAreLines(preserve, local, template);
    var lines := AllLines(preserve, local, template);
    if lines == [] {
      assert Join([""], "\n") == Join([], "\n");
      JoinedLines([""]);
    } else {
      JoinedLines(lines);
    }
  }

  lemma BlankAssignsNothing(key: string)
    ensures LastOf([""], key) == LastOf([], key) == None
  {
    assert [""][1..] == [];
  }

  /** A parsed merge holds the local value of every preserved key the local file has, the
      template's last value of everything else, and no other key. */
  lemma MergedParses(preserve: seq<string>, local: Env, template: string, key: string)
    requires AreNames(preserve) && IsEnv(local)
    ensures Lookup(Parse(Merged(preserve, local, template)), key)
         == if Keeps(preserve, local, key) then Some(local[key]) else LastOf(SplitLines(template), key)
  {
    var lines := SplitLines(template);
    MergedSplits(preserve, local, template);
    BlankAssignsNothing(key);
    var all := AllLines(preserve, local, template);
    LastWins(map[], SplitLines(Merged(preserve, local, template)), key);
    LastWins(map[], lines, key);
    LastOfAppend(MergedLines(preserve, local, lines), OrphanLines(preserve, local, Parse(template)), key);
    MergedLinesLast(preserve, local, lines, key);
    OrphanLinesLast(preserve, local, Parse(template), key);
  }

  lemma ParseIsEnv(text: string)
    ensures IsEnv(Parse(text))
  {
    SplitGivesLines(text);
    ParsedIsEnv(map[], SplitLines(text));
  }

  lemma ParseIsLast(text: string, key: string)
    ensures Lookup(Parse(text), key) == LastOf(SplitLines(text), key)
  {
    LastWins(map[], SplitLines(text), key);
  }

  // ----- What is reported -----

  lemma {:induction false} KeptAre(preserve: seq<string>, local: Env, lines: seq<string>, kept: seq<string>,
      key: string)
    ensures key in Kept(preserve, local, lines, kept)
            <==> key in kept || (Keeps(preserve, local, key) && LastOf(lines, key).Some?)
    decreases |lines|
  {
    if lines != [] {
      var a := Assigned(lines[0]);
      var more := a.Some? && Keeps(preserve, local, a.value.key) && a.value.key !in kept;
      KeptAre(preserve, local, lines[1..], if more then kept + [a.value.key] else kept, key);
    }
  }

  /** Every preserved key of the local file is reported once: kept in place, or added at the end. */
  lemma ReportPartitions(preserve: seq<string>, local: Env, template: string, key: string)
    ensures var kept := Kept(preserve, local, SplitLines(template), []);
            var orphans := Orphans(preserve, local, Parse(template));
            && (key in kept || key in orphans <==> Keeps(preserve, local, key))
            && !(key in kept && key in orphans)
            && (key in kept <==> Keeps(preserve, local, key) && key in Parse(template))
  {
    KeptAre(preserve, local, SplitLines(template), [], key);
    OrphansAre(preserve, local, Parse(template));
    ParseIsLast(template, key);
  }

  // ----- Merging again -----

  /** The local file after one merge. */
  function Remerged(preserve: seq<string>, local: Env, template: string): Env {
    Parse(Merged(preserve, local, template))
  }

  /** Merging again changes no value. */
  lemma SecondMergeParsesTheSame(preserve: seq<string>, local: Env, template: string)
    requires AreNames(preserve) && IsEnv(local)
    ensures var once := Remerged(preserve, local, template);
            IsEnv(once) && Remerged(preserve, once, template) == once
  {
    var once := Remerged(preserve, local, template);
    ParseIsEnv(Merged(preserve, local, template));
    var twice := Remerged(preserve, once, template);
    forall key
      ensures Lookup(twice, key) == Lookup(once, key)
    {
      MergedParses(preserve, local, template, key);
      MergedParses(preserve, once, template, key);
    }
    SameLookups(twice, once);
  }

  lemma SameLookups(a: Env, b: Env)
    requires forall key :: Lookup(a, key) == Lookup(b, key)
    ensures a == b
  {
    forall key
      ensures key in a <==> key in b
      ensures key in a ==> a[key] == b[key]
    {
      assert Lookup(a, key) == Lookup(b, key);
    }
  }

  /** And from the second on, it does not change the text either. */
  lemma ThirdMergeIsTheSecond(preserve: seq<string>, local: Env, template: string)
    requires AreNames(preserve) && IsEnv(local)
    ensures var once := Remerged(preserve, local, template);
            var twice := Remerged(preserve, once, template);
            Merged(preserve, twice, template) == Merged(preserve, once, template)
  {
    SecondMergeParsesTheSame(preserve, local, template);
  }

  /** If the line assigns a preserved key that the local file lacks, it says what the template's
      last line for that key says, in the form a merge writes. */
  predicate Settled(preserve: seq<string>, local: Env, lines: seq<string>, line: string) {
    var a := Assigned(line);
    a.Some? && a.value.key in preserve && a.value.key !in local ==>
      var last := LastOf(lines, a.value.key);
      last.Some? && line == Written(a.value.key, last.value)
  }

  lemma {:induction false} OwnIsFound(lines: seq<string>, i: nat, key: string)
    requires i < |lines| && Own(lines[i], key).Some?
    ensures LastOf(lines, key).Some?
    decreases |lines|
  {
    if i > 0 {
      OwnIsFound(lines[1..], i - 1, key);
    }
  }

  lemma LineSettled(preserve: seq<string>, local: Env, template: string, i: nat)
    requires AreNames(preserve) && IsEnv(local) && i < |SplitLines(template)|
    ensures var lines := SplitLines(template);
            MergedLine(preserve, Remerged(preserve, local, template), lines[i]) == MergedLine(preserve, local, lines[i])
            <==> Settled(preserve, local, lines, lines[i])
  {
    var lines := SplitLines(template);
    var a := Assigned(lines[i]);
    if a.Some? {
      var key := a.value.key;
      assert Own(lines[i], key).Some?;
      OwnIsFound(lines, i, key);
      MergedParses(preserve, local, template, key);
    }
  }

  lemma {:induction false} MergedLinesAt(preserve: seq<string>, local: Env, lines: seq<string>, i: nat)
    requires i < |lines|
    ensures MergedLines(preserve, local, lines)[i] == MergedLine(preserve, local, lines[i])
    decreases |lines|
  {
    var merged, rest := MergedLines(preserve, local, lines), MergedLines(preserve, local, lines[1..]);
    assert merged == [MergedLine(preserve, local, lines[0])] + rest;
    if i > 0 {
      MergedLinesAt(preserve, local, lines[1..], i - 1);
      assert merged[i] == rest[i - 1];
    }
  }

  lemma {:induction false} SameOrphans(preserve: seq<string>, a: Env, b: Env, template: Env)
    requires forall key | key in preserve && key !in template :: Lookup(a, key) == Lookup(b, key)
    ensures Orphans(preserve, a, template) == Orphans(preserve, b, template)
    decreases |preserve|
  {
    if preserve != [] {
      assert preserve[0] in preserve && forall key | key in preserve[1..] :: key in preserve;
      assert preserve[0] !in template ==> Lookup(a, preserve[0]) == Lookup(b, preserve[0]);
      SameOrphans(preserve[1..], a, b, template);
    }
  }

  lemma {:induction false} SameWrittenAll(keys: seq<string>, a: Env, b: Env)
    requires forall i | 0 <= i < |keys| :: keys[i] in a && Lookup(a, keys[i]) == Lookup(b, keys[i])
    ensures forall i | 0 <= i < |keys| :: keys[i] in b
    ensures WrittenAll(keys, a) == WrittenAll(keys, b)
    decreases |keys|
  {
    forall i | 0 <= i < |keys|
      ensures keys[i] in b
    {
      assert Lookup(a, keys[i]) == Lookup(b, keys[i]);
    }
    if keys != [] {
      assert Lookup(a, keys[0]) == Lookup(b, keys[0]);
      SameWrittenAll(keys[1..], a, b);
    }
  }

  lemma SameOrphanLines(preserve: seq<string>, local: Env, template: string)
    requires AreNames(preserve) && IsEnv(local)
    ensures OrphanLines(preserve, Remerged(preserve, local, template), Parse(template))
         == OrphanLines(preserve, local, Parse(template))
  {
    var once, t := Remerged(preserve, local, template), Parse(template);
    forall key | key in preserve && key !in t
      ensures Lookup(local, key) == Lookup(once, key)
    {
      MergedParses(preserve, local, template, key);
      ParseIsLast(template, key);
    }
    SameOrphans(preserve, local, once, t);
    OrphansAre(preserve, local, t);
    var orphans := Orphans(preserve, local, t);
    forall i | 0 <= i < |orphans|
      ensures orphans[i] in local && Lookup(local, orphans[i]) == Lookup(once, orphans[i])
    {
      assert orphans[i] in orphans;
    }
    SameWrittenAll(orphans, local, once);
  }

  lemma LinesAgree(preserve: seq<string>, local: Env, template: string)
    requires AreNames(preserve) && IsEnv(local)
    ensures var lines := SplitLines(template);
            MergedLines(preserve, Remerged(preserve, local, template), lines) == MergedLines(preserve, local, lines)
            <==> forall i | 0 <= i < |lines| :: Settled(preserve, local, lines, lines[i])
  {
    var lines, once := SplitLines(template), Remerged(preserve, local, template);
    var first, second := MergedLines(preserve, local, lines), MergedLines(preserve, once, lines);
    forall i | 0 <= i < |lines|
      ensures second[i] == first[i] <==> Settled(preserve, local, lines, lines[i])
    {
      MergedLinesAt(preserve, local, lines, i);
      MergedLinesAt(preserve, once, lines, i);
      LineSettled(preserve, local, template, i);
    }
    if second == first {
      forall i | 0 <= i < |lines|
        ensures Settled(preserve, local, lines, lines[i])
      {
        assert second[i] == first[i];
      }
    }
  }

  lemma SameHeads(a: seq<string>, b: seq<string>, tail: seq<string>)
    requires |a| == |b| && a + tail == b + tail
    ensures a == b
  {
    assert (a + tail)[..|a|] == a && (b + tail)[..|b|] == b;
  }

  /** Equal texts come from equal lines. */
  lemma SameTexts(preserve: seq<string>, a: Env, b: Env, template: string)
    requires AreNames(preserve) && IsEnv(a) && IsEnv(b)
    requires |AllLines(preserve, a, template)| == |AllLines(preserve, b, template)|
    ensures Merged(preserve, a, template) == Merged(preserve, b, template)
            <==> AllLines(preserve, a, template) == AllLines(preserve, b, template)
  {
    MergedSplits(preserve, a, template);
    MergedSplits(preserve, b, template);
  }

  /** Merging twice writes what merging once wrote exactly when every template line for a preserved
      key the local file lacks is already settled. */
  lemma SecondMergeIsTheFirst(preserve: seq<string>, local: Env, template: string)
    requires AreNames(preserve) && IsEnv(local)
    ensures var lines := SplitLines(template);
            Merged(preserve, Remerged(preserve, local, template), template) == Merged(preserve, local, template)
            <==> forall i | 0 <= i < |lines| :: Settled(preserve, local, lines, lines[i])
  {
    var lines, once := SplitLines(template), Remerged(preserve, local, template);
    var first, second := MergedLines(preserve, local, lines), MergedLines(preserve, once, lines);
    SameOrphanLines(preserve, local, template);
    ParseIsEnv(Merged(preserve, local, template));
    SameTexts(preserve, once, local, template);
    LinesAgree(preserve, local, template);
    if AllLines(preserve, once, template) == AllLines(preserve, local, template) {
      SameHeads(second, first, OrphanLines(preserve, local, Parse(template)));
    }
  }

  const Padded := "A =1"

  lemma PaddedIsOneLine()
    ensures SplitLines(Padded) == [Padded]
  {
    assert LineLength(Padded) == 4 && Padded[..4] == Padded && Padded[4..] == "";
  }

  lemma PaddedAssigns()
    ensures Assigned(Padded) == Some(Assignment("A", "1"))
  {
    AssignedAt(Padded, 2);
    assert Padded[..2] == "" + ("A" + " ") && Padded[3..] == "1";
    StripOf("", "A", " ");
  }

  lemma UnsettledIsRewritten(template: string, key: string, value: string)
    requires IsName(key) && SplitLines(template) == [template]
    requires Assigned(template) == Some(Assignment(key, value)) && template != Written(key, value)
    ensures Merged([key], Remerged([key], map[], template), template) != Merged([key], map[], template)
  {
    LastStep(template, [], key);
    assert [template] + [] == [template];
    SecondMergeIsTheFirst([key], map[], template);
    assert !Settled([key], map[], [template], [template][0]);
  }

  /** A template that pads a preserved key is rewritten by the second merge, not by the first. */
  lemma SecondMergeMayRewrite()
    ensures Merged(["A"], Remerged(["A"], map[], Padded), Padded) != Merged(["A"], map[], Padded)
  {
    PaddedIsOneLine();
    PaddedAssigns();
    assert |Written("A", "1")| == 3;
    UnsettledIsRewritten(Padded, "A", "1");
  }
}
