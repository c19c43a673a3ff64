/** An amount of money as text, and text as an amount: whole dong, grouped in threes. */
module MoneyText {
  import opened Options
  import opened Decimal
  import opened JsText

  /** `Number.MAX_SAFE_INTEGER`; every whole number up to it is exact, and no greater one is
      rounded down to it. */
  const MaxSafe := 9007199254740991

  predicate IsSafe(n: int) { -MaxSafe <= n <= MaxSafe }

  function Abs(n: int): nat { if n < 0 then -n else n }

  // ----- Grouping -----

  /** `replace(/\B(?=(\d{3})+(?!\d))/g, sep)`: a separator wherever a multiple of three digits
      is left. */
  function Group(digits: string, sep: char): string {
    if |digits| <= 1 then digits
    else
      var rest := Group(digits[1..], sep);
      [digits[0]] + if (|digits| - 1) % 3 == 0 then [sep] + rest else rest
  }

  function Grouped(n: int): string {
    var text := Group(Digits(Abs(n)), '.');
    if n < 0 then "-" + text else text
  }

  const Nbsp := '\U{00A0}'
  const Dong := '\U{0111}'

  /** Of an amount below `10^21`, whose digits JavaScript prints in full. */
  function FormatMoney(n: int): string { Grouped(n) + [Nbsp, Dong] }

  function FormatMoneyNumber(n: int): string { Grouped(n) }

  // ----- Parsing -----

  datatype Reason = NotWhole | OverLimit

  datatype Parsed = Empty | Amount(value: int) | Invalid(reason: Reason)

  function WithoutSpaces(s: string): string {
    if s == "" then "" else if IsSpace(s[0]) then WithoutSpaces(s[1..]) else [s[0]] + WithoutSpaces(s[1..])
  }

  /** A small or capital d with stroke, or the dong sign. */
  predicate IsCurrency(c: char) { c == Dong || c == '\U{0110}' || c == '\U{20AB}' }

  function Bare(text: string): string {
    var s := WithoutSpaces(text);
    if s != "" && IsCurrency(s[|s| - 1]) then s[..|s| - 1] else s
  }

  predicate IsNegative(s: string) { s != "" && s[0] == '-' }

  function Unsigned(s: string): string { if IsNegative(s) then s[1..] else s }

  /** `\d+` */
  predicate IsWhole(s: string) { s != "" && AllDigits(s) }

  /** `(<sep>\d{3})*` to the end. */
  predicate Threes(s: string, sep: char) {
    s == "" || (|s| >= 4 && s[0] == sep && AllDigits(s[1..4]) && Threes(s[4..], sep))
  }

  /** `\d{1,3}(<sep>\d{3})+` */
  predicate IsGrouped(s: string, sep: char) {
    exists k :: 1 <= k <= 3 && k < |s| && AllDigits(s[..k]) && Threes(s[k..], sep)
  }

  /** `replace(/[.,]/g, "")` */
  function WithoutMarks(s: string): string {
    if s == "" then ""
    else if s[0] == '.' || s[0] == ',' then WithoutMarks(s[1..])
    else [s[0]] + WithoutMarks(s[1..])
  }

  predicate IsReadable(s: string) { IsWhole(s) || IsGrouped(s, '.') || IsGrouped(s, ',') }

  function Signed(negative: bool, magnitude: int): int { if negative then -magnitude else magnitude }

  /** `Number` of a text that is digits with an optional sign. */
  function SignedValue(s: string): int
    requires AllDigits(Unsigned(s))
  {
    Signed(IsNegative(s), Value(Unsigned(s)))
  }

  function ParseMoney(text: string): Parsed {
    var bare := Bare(text);
    if bare == "" then Empty
    else if !IsReadable(Unsigned(bare)) then Invalid(NotWhole)
    else
      ReadableIsDigits(Unsigned(bare));
      var value := SignedValue(if IsNegative(bare) then "-" + WithoutMarks(bare[1..]) else WithoutMarks(bare));
      if IsSafe(value) then Amount(value) else Invalid(OverLimit)
  }

  // ----- Grouping and ungrouping are inverse -----

  predicate IsMark(c: char) { c == '.' || c == ',' }

  lemma {:induction false} UngroupGroup(digits: string, sep: char)
    requires AllDigits(digits) && IsMark(sep)
    ensures WithoutMarks(Group(digits, sep)) == digits
    ensures digits != "" ==> Group(digits, sep) != "" && Group(digits, sep)[0] == digits[0]
    ensures forall c | c in Group(digits, sep) :: c == sep || IsDigit(c)
    decreases |digits|
  {
    if digits != "" {
      UngroupGroup(digits[1..], sep);
      assert digits == [digits[0]] + digits[1..];
      var rest := Group(digits[1..], sep);
      assert |digits| > 1 ==> ([sep] + rest)[1..] == rest;
      assert |digits| == 1 ==> digits[1..] == "";
      var g := Group(digits, sep);
      assert g[1..] == if |digits| > 1 && (|digits| - 1) % 3 == 0 then [sep] + rest else rest;
    }
  }

  /** One unfolding of `Group`. */
  lemma GroupStep(digits: string, sep: char)
    requires |digits| > 1
    ensures var rest := Group(digits[1..], sep);
            Group(digits, sep) == [digits[0]] + if (|digits| - 1) % 3 == 0 then [sep] + rest else rest
  {}

  lemma {:induction false} PeelGroup(digits: string, sep: char, k: nat)
    requires 1 <= k <= 3 && k < |digits| && (|digits| - k) % 3 == 0
    ensures Group(digits, sep) == digits[..k] + ([sep] + Group(digits[k..], sep))
    decreases k
  {
    GroupStep(digits, sep);
    if k == 1 {
      assert digits[..1] == [digits[0]];
    } else {
      var tail := digits[1..];
      NotAtBoundary(|digits|, k);
      PeelGroup(tail, sep, k - 1);
      PeelOne(digits, k, [sep] + Group(digits[k..], sep));
      assert tail[k - 1..] == digits[k..];
    }
  }

  lemma NotAtBoundary(length: nat, k: nat)
    requires 2 <= k <= 3 && k < length && (length - k) % 3 == 0
    ensures (length - 1) % 3 != 0
  {}

  lemma PeelOne(digits: string, k: nat, rest: string)
    requires 1 < k <= |digits|
    ensures [digits[0]] + (digits[1..][..k - 1] + rest) == digits[..k] + rest
  {
    assert [digits[0]] + digits[1..][..k - 1] == digits[..k];
  }

  lemma ShortGroup(digits: string, sep: char)
    requires |digits| <= 3
    ensures Group(digits, sep) == digits
  {
    if |digits| > 1 {
      assert digits == [digits[0]] + digits[1..];
      if |digits| == 3 {
        assert digits[1..] == [digits[1]] + digits[2..];
      }
    }
  }

  lemma {:induction false} GroupIsThrees(digits: string, sep: char)
    requires AllDigits(digits) && |digits| % 3 == 0 && digits != ""
    ensures Threes([sep] + Group(digits, sep), sep)
    decreases |digits|
  {
    var s := [sep] + Group(digits, sep);
    if |digits| == 3 {
      ShortGroup(digits, sep);
      assert s[1..4] == digits && s[4..] == "";
    } else {
      PeelGroup(digits, sep, 3);
      GroupIsThrees(digits[3..], sep);
      assert s[1..4] == digits[..3] && s[4..] == [sep] + Group(digits[3..], sep);
    }
  }

  function Head(length: nat): (k: nat)
    requires length > 3
    ensures 1 <= k <= 3 && (length - k) % 3 == 0
  {
    if length % 3 == 0 then 3 else length % 3
  }

  /** What grouping writes, the pattern accepts. */
  lemma GroupIsGrouped(digits: string, sep: char)
    requires AllDigits(digits) && |digits| > 3
    ensures IsGrouped(Group(digits, sep), sep)
  {
    var k := Head(|digits|);
    PeelGroup(digits, sep, k);
    GroupIsThrees(digits[k..], sep);
    var s := Group(digits, sep);
    assert s[..k] == digits[..k] && s[k..] == [sep] + Group(digits[k..], sep);
  }

  lemma {:induction false} ThreesAreGroup(s: string, sep: char)
    requires Threes(s, sep) && s != "" && IsMark(sep)
    ensures AllDigits(WithoutMarks(s)) && |WithoutMarks(s)| % 3 == 0 && WithoutMarks(s) != ""
    ensures s == [sep] + Group(WithoutMarks(s), sep)
    decreases |s|
  {
    var three, rest := s[1..4], s[4..];
    assert s == [sep] + three + rest;
    MarksOff(three, rest);
    assert s[1..] == three + rest;
    assert WithoutMarks(s) == three + WithoutMarks(rest);
    if rest == "" {
      ShortGroup(three, sep);
      assert three + "" == three;
    } else {
      ThreesAreGroup(rest, sep);
      var digits := three + WithoutMarks(rest);
      PeelGroup(digits, sep, 3);
      assert digits[..3] == three && digits[3..] == WithoutMarks(rest);
    }
  }

  lemma {:induction false} MarksOff(digits: string, rest: string)
    requires AllDigits(digits)
    ensures WithoutMarks(digits + rest) == digits + WithoutMarks(rest)
    decreases |digits|
  {
    if digits == "" {
      assert digits + rest == rest;
    } else {
      assert (digits + rest)[1..] == digits[1..] + rest;
      MarksOff(digits[1..], rest);
      assert digits == [digits[0]] + digits[1..];
    }
  }

  lemma HeadThenThrees(head: string, tail: string, sep: char)
    requires 1 <= |head| <= 3 && AllDigits(head) && tail != "" && Threes(tail, sep) && IsMark(sep)
    ensures var digits := WithoutMarks(head + tail);
            AllDigits(digits) && |digits| > 3 && head + tail == Group(digits, sep)
  {
    MarksOff(head, tail);
    ThreesAreGroup(tail, sep);
    var digits := head + WithoutMarks(tail);
    assert digits[..|head|] == head && digits[|head|..] == WithoutMarks(tail);
    PeelGroup(digits, sep, |head|);
  }

  /** What the pattern accepts, grouping writes. */
  lemma GroupedIsGroup(s: string, sep: char)
    requires IsGrouped(s, sep) && IsMark(sep)
    ensures AllDigits(WithoutMarks(s)) && |WithoutMarks(s)| > 3
    ensures s == Group(WithoutMarks(s), sep)
  {
    var k :| 1 <= k <= 3 && k < |s| && AllDigits(s[..k]) && Threes(s[k..], sep);
    assert s == s[..k] + s[k..];
    HeadThenThrees(s[..k], s[k..], sep);
  }

  /** The pattern accepts exactly the groupings of more than three digits. */
  lemma GroupedMeansUniform(s: string, sep: char)
    requires IsMark(sep)
    ensures IsGrouped(s, sep) <==> exists digits :: AllDigits(digits) && |digits| > 3 && s == Group(digits, sep)
  {
    if IsGrouped(s, sep) {
      GroupedIsGroup(s, sep);
    }
    if digits :| AllDigits(digits) && |digits| > 3 && s == Group(digits, sep) {
      GroupIsGrouped(digits, sep);
    }
  }

  lemma WholeHasNoMarks(s: string)
    requires AllDigits(s)
    ensures WithoutMarks(s) == s
  {
    MarksOff(s, "");
    assert s + "" == s;
  }

  lemma ReadableIsDigits(s: string)
    requires IsReadable(s)
    ensures AllDigits(WithoutMarks(s)) && WithoutMarks(s) != "" && !IsNegative(s) && !IsNegative(WithoutMarks(s))
    ensures Unsigned("-" + WithoutMarks(s)) == WithoutMarks(s) && Unsigned(WithoutMarks(s)) == WithoutMarks(s)
  {
    if IsWhole(s) {
      WholeHasNoMarks(s);
      assert IsDigit(s[0]);
    } else {
      var sep := if IsGrouped(s, '.') then '.' else ',';
      GroupedIsGroup(s, sep);
      UngroupGroup(WithoutMarks(s), sep);
      assert IsDigit(WithoutMarks(s)[0]);
    }
  }

  // ----- What a successful parse means -----

  /** `s` is `digits` plain, or uniformly grouped with dots or with commas. */
  ghost predicate Spells(s: string, digits: string) {
    && digits != "" && AllDigits(digits)
    && (s == digits || s == Group(digits, '.') || s == Group(digits, ','))
  }

  lemma ReadableSpells(s: string)
    ensures IsReadable(s) <==> exists digits :: Spells(s, digits)
    ensures IsReadable(s) ==> Spells(s, WithoutMarks(s))
    ensures forall digits | Spells(s, digits) :: IsReadable(s) && digits == WithoutMarks(s)
  {
    if IsReadable(s) {
      ReadableIsDigits(s);
      if IsWhole(s) {
        WholeHasNoMarks(s);
      } else {
        GroupedIsGroup(s, if IsGrouped(s, '.') then '.' else ',');
      }
      assert Spells(s, WithoutMarks(s));
    }
    forall digits | Spells(s, digits)
      ensures IsReadable(s) && digits == WithoutMarks(s)
    {
      WholeHasNoMarks(digits);
      if s != digits {
        var sep := if s == Group(digits, '.') then '.' else ',';
        UngroupGroup(digits, sep);
        if |digits| > 3 {
          GroupIsGrouped(digits, sep);
        } else {
          ShortGroup(digits, sep);
        }
      }
    }
  }

  /** `text`, bare, is an optional minus and then `digits`, plain or uniformly grouped. */
  ghost predicate Writes(text: string, negative: bool, digits: string) {
    IsNegative(Bare(text)) == negative && Spells(Unsigned(Bare(text)), digits)
  }

  /** A text reads as `v` exactly when what it writes is `v`, and `v` is safe. */
  lemma ParsedMeansWritten(text: string, v: int)
    ensures ParseMoney(text) == Amount(v) <==>
              && IsSafe(v)
              && exists negative, digits :: Writes(text, negative, digits) && v == Signed(negative, Value(digits))
  {
    var bare := Bare(text);
    ReadableSpells(Unsigned(bare));
    if bare != "" && IsReadable(Unsigned(bare)) {
      ReadableIsDigits(Unsigned(bare));
      assert Writes(text, IsNegative(bare), WithoutMarks(Unsigned(bare)));
    }
  }

  /** What is not an amount is blank, or written but past the limit, or not written at all. */
  lemma RefusedMeansUnwritten(text: string)
    ensures ParseMoney(text) == Empty <==> Bare(text) == ""
    ensures ParseMoney(text) == Invalid(OverLimit) <==>
              exists negative, digits :: Writes(text, negative, digits) && !IsSafe(Signed(negative, Value(digits)))
    ensures ParseMoney(text) == Invalid(NotWhole) <==>
              Bare(text) != "" && !exists negative, digits :: Writes(text, negative, digits)
  {
    var bare := Bare(text);
    ReadableSpells(Unsigned(bare));
    if IsReadable(Unsigned(bare)) {
      ReadableIsDigits(Unsigned(bare));
      assert Writes(text, IsNegative(bare), WithoutMarks(Unsigned(bare)));
    }
  }

  // ----- Round trips -----

  lemma {:induction false} NoSpacesToLose(s: string)
    requires forall c | c in s :: !IsSpace(c)
    ensures WithoutSpaces(s) == s
  {
    if s != "" {
      NoSpacesToLose(s[1..]);
      assert s == [s[0]] + s[1..];
    }
  }

  lemma {:induction false} SpacesOffEnd(s: string, t: string)
    requires forall c | c in s :: !IsSpace(c)
    ensures WithoutSpaces(s + t) == s + WithoutSpaces(t)
    decreases |s|
  {
    if s == "" {
      assert s + t == t;
    } else {
      assert (s + t)[1..] == s[1..] + t;
      SpacesOffEnd(s[1..], t);
      assert s == [s[0]] + s[1..];
    }
  }

  lemma GroupedIsPlain(n: int)
    ensures Grouped(n) != "" && forall c | c in Grouped(n) :: c == '-' || c == '.' || IsDigit(c)
    ensures IsNegative(Grouped(n)) == (n < 0)
    ensures Unsigned(Grouped(n)) == Group(Digits(Abs(n)), '.')
  {
    UngroupGroup(Digits(Abs(n)), '.');
    assert IsDigit(Digits(Abs(n))[0]);
  }

  lemma TailIsDong()
    ensures WithoutSpaces([Nbsp, Dong]) == [Dong]
  {
    assert [Nbsp, Dong][1..] == [Dong];
    assert [Dong][1..] == "";
    assert IsSpace(Nbsp) && !IsSpace(Dong);
    assert WithoutSpaces([Dong]) == [Dong] + WithoutSpaces("");
  }

  lemma BareOfFormatted(n: int)
    ensures Bare(Grouped(n)) == Grouped(n) && Bare(FormatMoney(n)) == Grouped(n)
  {
    GroupedIsPlain(n);
    var g := Grouped(n);
    assert g[|g| - 1] in g;
    assert g + [Nbsp, Dong] == FormatMoney(n);
    BareOfPlain(g);
  }

  lemma BareOfPlain(g: string)
    requires g != "" && forall c | c in g :: !IsSpace(c)
    requires !IsCurrency(g[|g| - 1])
    ensures Bare(g) == g && Bare(g + [Nbsp, Dong]) == g
  {
    NoSpacesToLose(g);
    SpacesOffEnd(g, [Nbsp, Dong]);
    TailIsDong();
    assert (g + [Dong])[..|g|] == g;
  }

  /** Formatting and parsing back is the identity on the safe integers, with the currency and
      without; past them the parse says so. */
  lemma ParseFormatted(n: int)
    ensures ParseMoney(FormatMoney(n)) == if IsSafe(n) then Amount(n) else Invalid(OverLimit)
    ensures ParseMoney(FormatMoneyNumber(n)) == if IsSafe(n) then Amount(n) else Invalid(OverLimit)
  {
    BareOfFormatted(n);
    GroupedIsPlain(n);
    var digits := Digits(Abs(n));
    ValueOfDigits(Abs(n));
    assert Spells(Unsigned(Grouped(n)), digits);
    ReadableSpells(Unsigned(Grouped(n)));
    ReadableIsDigits(Unsigned(Grouped(n)));
  }

  lemma {:induction false} SpacesOffKeeps(s: string, c: char)
    requires c in s && !IsSpace(c)
    ensures c in WithoutSpaces(s)
    decreases |s|
  {
    assert s == [s[0]] + s[1..];
    if c != s[0] {
      SpacesOffKeeps(s[1..], c);
    }
  }

  lemma {:induction false} MarksOffKeeps(s: string, c: char)
    requires c in s && !IsMark(c)
    ensures c in WithoutMarks(s)
    decreases |s|
  {
    assert s == [s[0]] + s[1..];
    if c != s[0] {
      MarksOffKeeps(s[1..], c);
    }
  }

  lemma BareKeeps(text: string, c: char)
    requires c in text && !IsSpace(c) && !IsCurrency(c) && c != '-'
    ensures c in Unsigned(Bare(text))
  {
    SpacesOffKeeps(text, c);
    var s := WithoutSpaces(text);
    assert s == s[..|s| - 1] + [s[|s| - 1]];
    var bare := Bare(text);
    assert c in bare && bare == [bare[0]] + bare[1..];
  }

  /** From `10^21` on the digits are printed with an exponent, grouped or not; a text with an `e` in
      it is read as not whole, not as past the limit. */
  lemma ExponentIsNotWhole(text: string)
    requires 'e' in text
    ensures ParseMoney(text) == Invalid(NotWhole)
  {
    BareKeeps(text, 'e');
    var s := Unsigned(Bare(text));
    if IsReadable(s) {
      ReadableIsDigits(s);
      MarksOffKeeps(s, 'e');
    }
  }

  // ----- The number field -----

  /** A field's value as text; a number is its own decimal text. */
  function MoneyInputFormatter(value: Option<string>): string {
    if value.None? || value.value == "" then ""
    else
      var parsed := ParseMoney(value.value);
      if parsed.Amount? then FormatMoneyNumber(parsed.value) else value.value
  }

  /** No value stands for NaN. */
  function MoneyInputParser(text: Option<string>): Option<int> {
    var parsed := ParseMoney(if text.Some? then text.value else "");
    if parsed.Amount? then Some(parsed.value) else None
  }

  /** Formatting a field twice is formatting it once, and never changes what it reads as. */
  lemma FieldIsStable(value: Option<string>)
    ensures var shown := MoneyInputFormatter(value);
            && MoneyInputFormatter(Some(shown)) == shown
            && MoneyInputParser(Some(shown)) == MoneyInputParser(value)
  {
    assert ParseMoney("") == Empty;
    if value.Some? && ParseMoney(value.value).Amount? {
      ParseFormatted(ParseMoney(value.value).value);
    }
  }

  // ----- What is shown -----

  /** Counted from the right, every fourth character is the mark and no other is. */
  predicate MarkedFromTheRight(s: string, sep: char) {
    forall i | 0 <= i < |s| :: s[i] == sep <==> (|s| - i) % 4 == 0
  }

  lemma {:induction false} GroupLength(digits: string, sep: char)
    requires digits != ""
    ensures |Group(digits, sep)| == |digits| + (|digits| - 1) / 3
  {
    if |digits| > 1 {
      GroupLength(digits[1..], sep);
      GroupStep(digits, sep);
    }
  }

  lemma MarksFall(length: nat)
    requires length > 1
    ensures var rest := length - 1 + (length - 2) / 3;
            if (length - 1) % 3 == 0 then (rest + 1) % 4 == 0 else (rest + 1) % 4 != 0
  {
  }

  lemma {:induction false} GroupIsMarked(digits: string, sep: char)
    requires AllDigits(digits) && IsMark(sep)
    ensures MarkedFromTheRight(Group(digits, sep), sep)
  {
    if digits != "" {
      assert IsDigit(digits[0]);
    }
    if |digits| > 1 {
      var rest := Group(digits[1..], sep);
      GroupIsMarked(digits[1..], sep);
      GroupLength(digits[1..], sep);
      MarksFall(|digits|);
      GroupStep(digits, sep);
      GrownMarked(digits[0], rest, sep, (|digits| - 1) % 3 == 0);
    }
  }

  lemma GrownMarked(first: char, rest: string, sep: char, boundary: bool)
    requires MarkedFromTheRight(rest, sep) && first != sep && (boundary <==> (|rest| + 1) % 4 == 0)
    ensures MarkedFromTheRight([first] + if boundary then [sep] + rest else rest, sep)
  {
    if boundary {
      OneMoreMarked([sep] + rest, sep, rest, sep);
      OneMoreMarked([first] + ([sep] + rest), first, [sep] + rest, sep);
    } else {
      OneMoreMarked([first] + rest, first, rest, sep);
    }
  }

  lemma OneMoreMarked(s: string, first: char, rest: string, sep: char)
    requires s == [first] + rest && MarkedFromTheRight(rest, sep) && (first == sep <==> |s| % 4 == 0)
    ensures MarkedFromTheRight(s, sep)
  {
    forall i | 0 <= i < |s|
      ensures s[i] == sep <==> (|s| - i) % 4 == 0
    {
      if i > 0 {
        assert s[i] == rest[i - 1] && |s| - i == |rest| - (i - 1);
      }
    }
  }

  /** An amount is shown as its sign if it is negative, its digits with a dot before every three from the
      right, and `đ` after a no-break space: never a space, a comma or the dong sign. */
  lemma MoneyShows(n: int)
    ensures FormatMoney(n) == FormatMoneyNumber(n) + "\U{00A0}\U{0111}"
    ensures IsNegative(FormatMoneyNumber(n)) <==> n < 0
    ensures MarkedFromTheRight(Unsigned(FormatMoneyNumber(n)), '.')
    ensures WithoutMarks(Unsigned(FormatMoneyNumber(n))) == Digits(Abs(n))
    ensures forall c | c in Unsigned(FormatMoneyNumber(n)) :: c == '.' || IsDigit(c)
  {
    GroupedIsPlain(n);
    GroupIsMarked(Digits(Abs(n)), '.');
    UngroupGroup(Digits(Abs(n)), '.');
    assert "\U{00A0}\U{0111}" == [Nbsp, Dong];
  }
}
