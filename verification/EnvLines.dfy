/** The merged file line by line: what a line assigns, which lines stay as the template has them, and in
    which order the rest is added and reported. */
module EnvLines {
  import opened Options
  import opened PyText
  import opened EnvMerge

  // ----- What a line assigns -----

  /** `key`, with whitespace around it, then an equals sign and `value`; whitespace around the whole is
      not part of it. A comment opens with `#`. */
  predicate IsAssignment(line: string, before: string, key: string, trail: string, value: string, after: string) {
    && line == before + (key + trail + "=" + value + after)
    && AllSpaces(before) && AllSpaces(trail) && AllSpaces(after)
    && IsStripped(key) && '=' !in key && (key == "" ==> trail == "") && (key != "" ==> key[0] != '#')
    && (value != "" ==> !IsSpace(value[|value| - 1]))
  }

  ghost predicate Assigns(line: string, key: string, value: string) {
    exists before, trail, after :: IsAssignment(line, before, key, trail, value, after)
  }

  function Bare(key: string, trail: string, value: string): string { key + trail + "=" + value }

  lemma BareIsRead(key: string, trail: string, value: string)
    requires IsAssignment(Bare(key, trail, value), "", key, trail, value, "")
    ensures var body := Bare(key, trail, value);
            body != "" && IsStripped(body) && Assigned(body) == Some(Assignment(key, value))
  {
    var left, body := key + trail, Bare(key, trail, value);
    assert body[0] == if key == "" then '=' else key[0];
    assert body[|body| - 1] == if value == "" then '=' else value[|value| - 1];
    forall i | 0 <= i < |left|
      ensures body[i] != '='
    {
      assert body[i] == if i < |key| then key[i] else trail[i - |key|];
    }
    assert body[..|left|] == left && body[|left| + 1..] == value;
    AssignedAt(body, |left|);
    KeyIsStripped(key, trail);
  }

  lemma StripDecides(line: string, body: string)
    requires Strip(line) == body && IsStripped(body)
    ensures Assigned(line) == Assigned(body)
  {
    StrippedStays(body);
  }

  lemma Unpadded(line: string, before: string, key: string, trail: string, value: string, after: string)
    ensures line == before + (key + trail + "=" + value + after) <==> line == before + (Bare(key, trail, value) + after)
    ensures Bare(key, trail, value) == "" + (key + trail + "=" + value + "")
  {
  }

  lemma AssignmentIsRead(line: string, before: string, key: string, trail: string, value: string, after: string)
    requires IsAssignment(line, before, key, trail, value, after)
    ensures Assigned(line) == Some(Assignment(key, value))
  {
    Unpadded(line, before, key, trail, value, after);
    BareIsRead(key, trail, value);
    StripOf(before, Bare(key, trail, value), after);
    StripDecides(line, Bare(key, trail, value));
  }

  lemma KeyIsStripped(key: string, trail: string)
    requires IsStripped(key) && AllSpaces(trail) && (key == "" ==> trail == "")
    ensures Strip(key + trail) == key
  {
    if key == "" {
      assert key + trail == "";
    } else {
      StripOf("", key, trail);
      assert "" + (key + trail) == key + trail;
    }
  }

  lemma StripStart(s: string)
    requires s != "" && !IsSpace(s[0])
    ensures Before(s) == "" && Strip(s) != "" && s == Strip(s) + After(s)
  {
    StripParts(s);
  }

  lemma LeftOf(left: string) returns (trail: string)
    requires left != "" ==> !IsSpace(left[0])
    ensures left == Strip(left) + trail && AllSpaces(trail) && IsStripped(Strip(left))
    ensures Strip(left) == "" ==> trail == ""
    ensures Strip(left) != "" ==> Strip(left)[0] == left[0]
  {
    StripParts(left);
    StripLeavesStripped(left);
    trail := "";
    if left != "" {
      StripStart(left);
      trail := After(left);
    }
  }

  /** What stands on either side of the first equals sign. */
  lemma SidesOf(body: string, key: string, value: string) returns (left: string)
    requires IsStripped(body) && Assigned(body) == Some(Assignment(key, value))
    ensures body == left + "=" + value && '=' !in left && key == Strip(left)
    ensures body[0] != '#' && !IsSpace(body[0]) && (value != "" ==> !IsSpace(value[|value| - 1]))
  {
    StrippedStays(body);
    left := body[..Find(body, '=')];
    assert value != "" ==> value[|value| - 1] == body[|body| - 1];
  }

  lemma BareIsAssignment(body: string, key: string, value: string) returns (trail: string)
    requires IsStripped(body) && Assigned(body) == Some(Assignment(key, value))
    ensures body == Bare(key, trail, value) && IsAssignment(body, "", key, trail, value, "")
  {
    var left := SidesOf(body, key, value);
    assert left != "" ==> left[0] == body[0];
    trail := LeftOf(left);
    forall i | 0 <= i < |key|
      ensures key[i] != '='
    {
      assert key[i] == left[i] && left[i] in left;
    }
    Unpadded(body, "", key, trail, value, "");
  }

  lemma ReadIsAssignment(line: string, key: string, value: string)
    requires Assigned(line) == Some(Assignment(key, value))
    ensures Assigns(line, key, value)
  {
    StripParts(line);
    StripLeavesStripped(line);
    StripDecides(line, Strip(line));
    var trail := BareIsAssignment(Strip(line), key, value);
    assert Strip(line) + After(line) == key + trail + "=" + value + After(line);
    assert IsAssignment(line, Before(line), key, trail, value, After(line));
  }

  /** A line assigns a value to a key if and only if it is written so. */
  lemma AssignedMeansAssigns(line: string, key: string, value: string)
    ensures Assigned(line) == Some(Assignment(key, value)) <==> Assigns(line, key, value)
  {
    if Assigned(line) == Some(Assignment(key, value)) {
      ReadIsAssignment(line, key, value);
    }
    if before, trail, after :| IsAssignment(line, before, key, trail, value, after) {
      AssignmentIsRead(line, before, key, trail, value, after);
    }
  }

  // ----- What the merged file holds -----

  lemma {:induction false} WrittenAllAt(keys: seq<string>, local: Env, i: nat)
    requires i < |keys| && forall j | 0 <= j < |keys| :: keys[j] in local
    ensures WrittenAll(keys, local)[i] == Written(keys[i], local[keys[i]])
    decreases |keys|
  {
    if i > 0 {
      WrittenAllAt(keys[1..], local, i - 1);
    }
  }

  /** The merged file has the template's lines, each where it was. A line that assigns no preserved key of
      the local file (a comment, a blank, anything else) is as it was; one that does gives the local value. */
  lemma TemplateLinesStay(preserve: seq<string>, local: Env, template: string, i: nat)
    requires AreNames(preserve) && IsEnv(local) && i < |SplitLines(template)|
    ensures var line, merged := SplitLines(template)[i], SplitLines(Merged(preserve, local, template));
            && i < |merged|
            && ((forall key, value | Assigns(line, key, value) :: !(key in preserve && key in local)) ==>
                  merged[i] == line)
            && (forall key, value | Assigns(line, key, value) && key in preserve && key in local ::
                  merged[i] == key + "=" + local[key])
  {
    MergedSplits(preserve, local, template);
    MergedLinesAt(preserve, local, SplitLines(template), i);
    LineMerged(preserve, local, SplitLines(template)[i]);
  }

  lemma OrphanLinesAre(preserve: seq<string>, local: Env, template: Env)
    ensures var orphans, lines := Orphans(preserve, local, template), OrphanLines(preserve, local, template);
            && |lines| == (if orphans == [] then 0 else 2 + |orphans|)
            && (orphans != [] ==> lines[0] == "" && lines[1] == Marker)
            && forall i | 0 <= i < |orphans| ::
                 orphans[i] in local && lines[2 + i] == Written(orphans[i], local[orphans[i]])
  {
    var orphans := Orphans(preserve, local, template);
    OrphansAre(preserve, local, template);
    var lines := OrphanLines(preserve, local, template);
    forall i | 0 <= i < |orphans|
      ensures orphans[i] in local && lines[2 + i] == Written(orphans[i], local[orphans[i]])
    {
      assert orphans[i] in orphans;
      WrittenAllAt(orphans, local, i);
    }
  }

  /** After the template's lines come the preserved keys it lacks, if there are any, each with its local
      value, under a blank line and the heading, and nothing else. */
  lemma OrphansFollow(preserve: seq<string>, local: Env, template: string)
    requires AreNames(preserve) && IsEnv(local) && SplitLines(template) != []
    ensures var n, merged := |SplitLines(template)|, SplitLines(Merged(preserve, local, template));
            var orphans := Orphans(preserve, local, Parse(template));
            && |merged| == n + (if orphans == [] then 0 else 2 + |orphans|)
            && (orphans != [] ==> merged[n] == "" && merged[n + 1] == Marker)
            && forall i | 0 <= i < |orphans| ::
                 orphans[i] in local && merged[n + 2 + i] == orphans[i] + "=" + local[orphans[i]]
  {
    MergedSplits(preserve, local, template);
    OrphanLinesAre(preserve, local, Parse(template));
    var first := MergedLines(preserve, local, SplitLines(template));
    var last := OrphanLines(preserve, local, Parse(template));
    forall i | 0 <= i < |last|
      ensures (first + last)[|first| + i] == last[i]
    {
    }
    var orphans := Orphans(preserve, local, Parse(template));
    forall i | 0 <= i < |orphans|
      ensures (first + last)[|first| + 2 + i] == orphans[i] + "=" + local[orphans[i]]
    {
      assert (first + last)[|first| + (2 + i)] == last[2 + i];
    }
  }

  lemma LineMerged(preserve: seq<string>, local: Env, line: string)
    ensures (forall key, value | Assigns(line, key, value) :: !(key in preserve && key in local)) ==>
              MergedLine(preserve, local, line) == line
    ensures forall key, value | Assigns(line, key, value) && key in preserve && key in local ::
              MergedLine(preserve, local, line) == key + "=" + local[key]
  {
    var a := Assigned(line);
    if a.Some? {
      AssignedMeansAssigns(line, a.value.key, a.value.value);
    }
    forall key, value | Assigns(line, key, value)
      ensures a == Some(Assignment(key, value))
    {
      AssignedMeansAssigns(line, key, value);
    }
  }

  // ----- In which order -----

  /** What is added keeps the order of the preserved keys: each is added or not by itself. */
  lemma {:induction false} OrphansInOrder(front: seq<string>, key: string, back: seq<string>, local: Env, template: Env)
    ensures Orphans(front + [key] + back, local, template)
            == Orphans(front, local, template) + (if key in local && key !in template then [key] else [])
               + Orphans(back, local, template)
    decreases |front|
  {
    var all := front + [key] + back;
    if front == [] {
      assert all[0] == key && all[1..] == back;
    } else {
      assert all[0] == front[0] && all[1..] == front[1..] + [key] + back;
      OrphansInOrder(front[1..], key, back, local, template);
    }
  }

  /** The `i`th line is the first to assign `key`. */
  predicate FirstAssigns(lines: seq<string>, key: string, i: nat) {
    i < |lines| && Own(lines[i], key).Some? && forall j | 0 <= j < i :: Own(lines[j], key).None?
  }

  lemma {:induction false} AssignedSomewhere(lines: seq<string>, key: string)
    ensures LastOf(lines, key).Some? <==> exists i :: FirstAssigns(lines, key, i)
    decreases |lines|
  {
    if lines != [] {
      var rest := lines[1..];
      AssignedSomewhere(rest, key);
      if Own(lines[0], key).Some? {
        assert FirstAssigns(lines, key, 0);
      } else if i: nat :| FirstAssigns(rest, key, i) {
        assert forall j | 0 < j < |lines| :: lines[j] == rest[j - 1];
        assert FirstAssigns(lines, key, i + 1);
      }
      if i: nat :| FirstAssigns(lines, key, i) {
        OwnIsFound(lines, i, key);
      }
    }
  }

  lemma {:induction false} KeptAppend(preserve: seq<string>, local: Env, lines: seq<string>, last: string,
                                      kept: seq<string>)
    ensures var before, a := Kept(preserve, local, lines, kept), Assigned(last);
            var more := a.Some? && Keeps(preserve, local, a.value.key) && a.value.key !in before;
            Kept(preserve, local, lines + [last], kept) == if more then before + [a.value.key] else before
    decreases |lines|
  {
    var all := lines + [last];
    if lines == [] {
      assert all == [last] && all[1..] == [];
    } else {
      assert all[0] == lines[0] && all[1..] == lines[1..] + [last];
      var a := Assigned(lines[0]);
      var more := a.Some? && Keeps(preserve, local, a.value.key) && a.value.key !in kept;
      KeptAppend(preserve, local, lines[1..], last, if more then kept + [a.value.key] else kept);
    }
  }

  /** The template assigns `first` before it ever assigns `second`. */
  ghost predicate AssignedBefore(lines: seq<string>, first: string, second: string) {
    exists a, b :: a < b && FirstAssigns(lines, first, a) && FirstAssigns(lines, second, b)
  }

  lemma StillFirst(lines: seq<string>, last: string, key: string, i: nat)
    requires FirstAssigns(lines, key, i)
    ensures FirstAssigns(lines + [last], key, i)
  {
    assert forall j | 0 <= j <= i :: (lines + [last])[j] == lines[j];
  }

  lemma StillBefore(lines: seq<string>, last: string, first: string, second: string)
    requires AssignedBefore(lines, first, second)
    ensures AssignedBefore(lines + [last], first, second)
  {
    var a: nat, b: nat :| a < b && FirstAssigns(lines, first, a) && FirstAssigns(lines, second, b);
    StillFirst(lines, last, first, a);
    StillFirst(lines, last, second, b);
  }

  lemma NowAssigned(lines: seq<string>, last: string, first: string, second: string)
    requires LastOf(lines, first).Some? && LastOf(lines, second).None? && Own(last, second).Some?
    ensures AssignedBefore(lines + [last], first, second)
  {
    AssignedSomewhere(lines, first);
    var a: nat :| FirstAssigns(lines, first, a);
    StillFirst(lines, last, first, a);
    NeverAssigned(lines, second);
    var all := lines + [last];
    assert all[|lines|] == last && forall j | 0 <= j < |lines| :: all[j] == lines[j];
    assert FirstAssigns(all, second, |lines|);
  }

  /** What was kept is reported in the order in which the template first assigns it, each key once. */
  lemma {:induction false} KeptInOrder(preserve: seq<string>, local: Env, lines: seq<string>, j: nat, k: nat)
    requires j < k < |Kept(preserve, local, lines, [])|
    ensures AssignedBefore(lines, Kept(preserve, local, lines, [])[j], Kept(preserve, local, lines, [])[k])
    decreases |lines|
  {
    var front, last := lines[..|lines| - 1], lines[|lines| - 1];
    var kept, before := Kept(preserve, local, lines, []), Kept(preserve, local, front, []);
    assert lines == front + [last];
    KeptAppend(preserve, local, front, last, []);
    if k < |before| {
      KeptInOrder(preserve, local, front, j, k);
      StillBefore(front, last, before[j], before[k]);
    } else {
      assert kept[j] == before[j] && before[j] in before;
      KeptAre(preserve, local, front, [], kept[j]);
      KeptAre(preserve, local, front, [], kept[k]);
      NowAssigned(front, last, kept[j], kept[k]);
    }
  }

  lemma NeverAssigned(lines: seq<string>, key: string)
    requires LastOf(lines, key).None?
    ensures forall i | 0 <= i < |lines| :: Own(lines[i], key).None?
  {
    forall i | 0 <= i < |lines|
      ensures Own(lines[i], key).None?
    {
      if Own(lines[i], key).Some? {
        OwnIsFound(lines, i, key);
      }
    }
  }
}
