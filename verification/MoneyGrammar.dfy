/** How an amount must be worded, as rules on the words alone, and that the reading of a number is
    the one sequence of words that keeps the rules and is heard as that number. */
module MoneyGrammar {
  import opened Options
  import opened MoneyText
  import opened MoneyWords
  import opened Splitting

  // ----- The rules -----

  /** The units after a round of tens: "lăm" for five, "mốt" for one but not after "mười", any other
      figure as it is, and nothing for none. */
  predicate IsUnitsAfter(ws: seq<Word>, one: Word) {
    || ws == [] || ws == [Five] || ws == [one]
    || (|ws| == 1 && ws[0].Digit? && ws[0].d != 0 && ws[0].d != 1 && ws[0].d != 5)
  }

  /** What follows the hundreds, or stands without them: "mười" or a counted "mươi" and its units, or a
      figure alone, which takes "linh" before it exactly where hundreds have been said. */
  predicate IsBelowHundred(ws: seq<Word>, afterHundreds: bool) {
    || (ws != [] && ws[0] == Ten && IsUnitsAfter(ws[1..], Digit(1)))
    || (|ws| >= 2 && ws[0].Digit? && ws[0].d >= 2 && ws[1] == Tens && IsUnitsAfter(ws[2..], One))
    || (afterHundreds && |ws| == 2 && ws[0] == Odd && ws[1].Digit? && ws[1].d != 0)
    || (!afterHundreds && |ws| == 1 && ws[0].Digit? && ws[0].d != 0)
    || (afterHundreds && ws == [])
  }

  /** A group of three figures, not all nothing. Below a larger part (`full`) it opens with its hundreds,
      said even where there are none; at the front it says them only where there are some. */
  predicate IsGroup(ws: seq<Word>, full: bool) {
    if |ws| >= 2 && ws[0].Digit? && ws[1] == Hundred
    then IsBelowHundred(ws[2..], true) && (ws[0].d > 0 || (full && |ws| > 2))
    else !full && IsBelowHundred(ws, false)
  }

  /** Nothing, or a group under the name of its scale. */
  predicate IsScaled(ws: seq<Word>, scale: Word, full: bool) {
    ws == [] || (ws[|ws| - 1] == scale && IsGroup(ws[..|ws| - 1], full))
  }

  predicate IsUnscaled(ws: seq<Word>, full: bool) { ws == [] || IsGroup(ws, full) }

  /** Millions up to `a`, thousands up to `b`, and the rest; all but the first of those said are full. */
  predicate IsSegmentAt(ws: seq<Word>, full: bool, a: nat, b: nat) {
    && a <= b <= |ws|
    && IsScaled(ws[..a], Million, full)
    && IsScaled(ws[a..b], Thousand, full || a > 0)
    && IsUnscaled(ws[b..], full || b > 0)
  }

  /** A part below a billion, perhaps nothing. */
  ghost predicate IsSegment(ws: seq<Word>, full: bool) {
    exists a, b :: IsSegmentAt(ws, full, a, b)
  }

  /** A number: something below a billion, or a number of billions and what is left, said in full. */
  ghost predicate IsNumber(ws: seq<Word>)
    decreases |ws|, 1
  {
    (ws != [] && IsSegment(ws, false)) || exists k :: CountsBillionsTo(ws, k)
  }

  ghost predicate CountsBillionsTo(ws: seq<Word>, k: nat)
    decreases |ws|, 0
  {
    k < |ws| && ws[k] == Billion && IsSegment(ws[k + 1..], true) && IsNumber(ws[..k])
  }

  // ----- What a reading is keeps the rules -----

  lemma {:induction false} TripleIsGroup(n: nat, full: bool)
    requires 0 < n < 1000
    ensures IsGroup(TripleWords(n, full), full)
  {
    var hundreds: Figure, tens: Figure, units: Figure := n / 100, n % 100 / 10, n % 10;
    var begun := HundredsWords(hundreds, full);
    var rest := TensWords(tens, units, begun != []) + UnitsWords(tens, units);
    BelowHundredKept(tens, units, begun != []);
    var ws := TripleWords(n, full);
    assert ws == begun + rest;
    if begun != [] {
      assert ws[2..] == rest;
    } else {
      assert ws == rest;
    }
  }

  lemma BelowHundredKept(tens: Figure, units: Figure, begun: bool)
    requires begun || tens > 0 || units > 0
    ensures var rest := TensWords(tens, units, begun) + UnitsWords(tens, units);
            && IsBelowHundred(rest, begun)
            && (rest == [] <==> tens == 0 && units == 0)
            && (!begun ==> !(|rest| >= 2 && rest[1] == Hundred))
  {
    var first, second := TensWords(tens, units, begun), UnitsWords(tens, units);
    var rest := first + second;
    assert rest[|first|..] == second;
  }

  /** The words of one group with its scale, none for an empty one. */
  function PartWords(group: nat, full: bool, at: nat): seq<Word>
    requires group < 1000 && at < 3
  {
    if group == 0 then [] else TripleWords(group, full) + Scale(at)
  }

  lemma PartSaid(n: nat, full: bool, at: nat)
    requires n < 1000000000 && at < 3
    ensures var left := GroupWords(n, full, at + 1);
            GroupWords(n, full, at) == left + PartWords(Triple(n, at), full || left != [], at)
  {
    var left := GroupWords(n, full, at + 1);
    var group := TripleWords(Triple(n, at), full || left != []);
    assert left + group + Scale(at) == left + (group + Scale(at));
    assert left + [] == left;
  }

  lemma PartsSaid(n: nat, full: bool)
    requires n < 1000000000
    ensures var millions := PartWords(Triple(n, 2), full, 2);
            var thousands := PartWords(Triple(n, 1), full || millions != [], 1);
            var ones := PartWords(Triple(n, 0), full || millions + thousands != [], 0);
            UnderBillionWords(n, full) == millions + thousands + ones
  {
    PartSaid(n, full, 2);
    PartSaid(n, full, 1);
    PartSaid(n, full, 0);
    assert GroupWords(n, full, 3) == [];
    assert [] + PartWords(Triple(n, 2), full, 2) == PartWords(Triple(n, 2), full, 2);
  }

  lemma PartKept(group: nat, full: bool, at: nat)
    requires group < 1000 && at < 3
    ensures var ws := PartWords(group, full, at);
            && (if at == 0 then IsUnscaled(ws, full) else IsScaled(ws, Scale(at)[0], full))
            && (group > 0 ==> ws != [])
  {
    if group > 0 {
      var said := TripleWords(group, full);
      TripleIsGroup(group, full);
      if at == 0 {
        assert said + Scale(at) == said;
      } else {
        assert (said + Scale(at))[..|said|] == said;
      }
    }
  }

  lemma SegmentOf(millions: seq<Word>, thousands: seq<Word>, ones: seq<Word>, full: bool)
    requires IsScaled(millions, Million, full)
    requires IsScaled(thousands, Thousand, full || millions != [])
    requires IsUnscaled(ones, full || millions + thousands != [])
    ensures IsSegment(millions + thousands + ones, full)
  {
    var ws, a, b := millions + thousands + ones, |millions|, |millions + thousands|;
    assert ws[..a] == millions && ws[a..b] == thousands && ws[b..] == ones;
    assert IsSegmentAt(ws, full, a, b);
  }

  lemma SegmentKept(n: nat, full: bool)
    requires n < 1000000000
    ensures IsSegment(UnderBillionWords(n, full), full)
    ensures n > 0 ==> UnderBillionWords(n, full) != []
  {
    var millions := PartWords(Triple(n, 2), full, 2);
    var thousands := PartWords(Triple(n, 1), full || millions != [], 1);
    PartsSaid(n, full);
    PartKept(Triple(n, 2), full, 2);
    PartKept(Triple(n, 1), full || millions != [], 1);
    PartKept(Triple(n, 0), full || millions + thousands != [], 0);
    SegmentOf(millions, thousands, PartWords(Triple(n, 0), full || millions + thousands != [], 0), full);
    assert n > 0 ==> Triple(n, 0) > 0 || Triple(n, 1) > 0 || Triple(n, 2) > 0;
  }

  lemma BillionsSaid(n: nat, billions: nat, rest: nat)
    requires n >= 1000000000 && billions == n / 1000000000 && rest == n % 1000000000
    ensures NumberWords(n, false) == NumberWords(billions, false) + [Billion] + UnderBillionWords(rest, true)
  {
    var head := NumberWords(billions, false) + [Billion];
    if rest == 0 {
      NothingUnderBillion();
      assert head + [] == head;
    }
  }

  lemma NumberOf(head: seq<Word>, tail: seq<Word>)
    requires IsNumber(head) && IsSegment(tail, true)
    ensures IsNumber(head + [Billion] + tail)
  {
    var ws, k := head + [Billion] + tail, |head|;
    assert ws[..k] == head && ws[k] == Billion && ws[k + 1..] == tail;
    assert CountsBillionsTo(ws, k);
  }

  /** Every reading keeps the rules. */
  lemma {:induction false} ReadingKeepsTheRules(n: nat)
    requires n > 0
    ensures IsNumber(NumberWords(n, false))
    decreases n
  {
    if n < 1000000000 {
      SegmentKept(n, false);
    } else {
      var billions, rest := n / 1000000000, n % 1000000000;
      ReadingKeepsTheRules(billions);
      SegmentKept(rest, true);
      BillionsSaid(n, billions, rest);
      NumberOf(NumberWords(billions, false), UnderBillionWords(rest, true));
    }
  }

  lemma NothingUnderBillion()
    ensures UnderBillionWords(0, true) == []
  {
    PartsSaid(0, true);
  }

  // ----- And whatever keeps them is a reading -----

  lemma UnitsAfterAreUnits(ws: seq<Word>, tens: Figure) returns (units: Figure)
    requires tens >= 1 && IsUnitsAfter(ws, if tens == 1 then Digit(1) else One)
    ensures ws == UnitsWords(tens, units)
  {
    units := if ws == [] then 0 else if ws[0] == Five then 5 else if ws[0] == One then 1 else ws[0].d;
  }

  lemma BelowHundredIsRead(ws: seq<Word>, begun: bool) returns (tens: Figure, units: Figure)
    requires IsBelowHundred(ws, begun)
    ensures ws == TensWords(tens, units, begun) + UnitsWords(tens, units)
    ensures ws != [] ==> tens > 0 || units > 0
  {
    if ws != [] && ws[0] == Ten && IsUnitsAfter(ws[1..], Digit(1)) {
      tens := 1;
      units := UnitsAfterAreUnits(ws[1..], 1);
      assert ws == [Ten] + ws[1..];
    } else if |ws| >= 2 && ws[0].Digit? && ws[0].d >= 2 && ws[1] == Tens && IsUnitsAfter(ws[2..], One) {
      tens := ws[0].d;
      units := UnitsAfterAreUnits(ws[2..], tens);
      assert ws == [Digit(tens), Tens] + ws[2..];
    } else if ws == [] {
      tens, units := 0, 0;
    } else {
      tens, units := 0, ws[|ws| - 1].d;
      assert UnitsWords(0, units) == [Digit(units)];
    }
  }

  /** The number with these three figures. */
  function FiguresOf(hundreds: int, tens: int, units: int): (n: nat)
    requires 0 <= hundreds < 10 && 0 <= tens < 10 && 0 <= units < 10
    ensures n < 1000 && n / 100 == hundreds && n % 100 / 10 == tens && n % 10 == units
  {
    100 * hundreds + 10 * tens + units
  }

  lemma GroupIsTriple(ws: seq<Word>, full: bool) returns (n: nat)
    requires IsGroup(ws, full)
    ensures 0 < n < 1000 && ws == TripleWords(n, full)
  {
    var opens := |ws| >= 2 && ws[0].Digit? && ws[1] == Hundred;
    var hundreds: int := if opens then ws[0].d else 0;
    var rest := if opens then ws[2..] else ws;
    var tens, units := BelowHundredIsRead(rest, opens);
    n := FiguresOf(hundreds, tens, units);
    assert ws == HundredsWords(hundreds, full) + rest;
    FiguresSaid(n, hundreds, tens, units, full);
  }

  lemma FiguresSaid(n: nat, hundreds: Figure, tens: Figure, units: Figure, full: bool)
    requires n < 1000 && n / 100 == hundreds && n % 100 / 10 == tens && n % 10 == units
    ensures var begun := HundredsWords(hundreds, full);
            TripleWords(n, full) == begun + (TensWords(tens, units, begun != []) + UnitsWords(tens, units))
  {
  }

  lemma PartIsRead(ws: seq<Word>, full: bool, at: nat) returns (group: nat)
    requires at < 3 && if at == 0 then IsUnscaled(ws, full) else IsScaled(ws, Scale(at)[0], full)
    ensures group < 1000 && ws == PartWords(group, full, at)
  {
    if ws == [] {
      group := 0;
    } else if at == 0 {
      group := GroupIsTriple(ws, full);
      assert ws == ws + Scale(0);
    } else {
      group := GroupIsTriple(ws[..|ws| - 1], full);
      assert ws == ws[..|ws| - 1] + Scale(at);
    }
  }

  lemma ThousandsAndOnes(thousands: nat, ones: nat)
    requires ones < 1000
    ensures (1000 * thousands + ones) / 1000 == thousands && (1000 * thousands + ones) % 1000 == ones
  {
  }

  lemma MillionsAndOnes(millions: nat, ones: nat)
    requires ones < 1000000
    ensures (1000000 * millions + ones) / 1000000 == millions
  {
  }

  lemma BillionsAndOnes(billions: nat, ones: nat)
    requires ones < 1000000000
    ensures (1000000000 * billions + ones) / 1000000000 == billions
    ensures (1000000000 * billions + ones) % 1000000000 == ones
  {
  }

  /** The number with these three groups. */
  lemma GroupsOf(millions: nat, thousands: nat, ones: nat) returns (n: nat)
    requires millions < 1000 && thousands < 1000 && ones < 1000
    ensures n < 1000000000 && Triple(n, 2) == millions && Triple(n, 1) == thousands && Triple(n, 0) == ones
  {
    ThousandsAndOnes(millions, thousands);
    ThousandsAndOnes(1000 * millions + thousands, ones);
    MillionsAndOnes(millions, 1000 * thousands + ones);
    n := 1000000 * millions + 1000 * thousands + ones;
    assert n == 1000 * (1000 * millions + thousands) + ones;
    assert n == 1000000 * millions + (1000 * thousands + ones);
  }

  lemma SegmentIsRead(ws: seq<Word>, full: bool) returns (n: nat)
    requires IsSegment(ws, full)
    ensures n < 1000000000 && ws == UnderBillionWords(n, full)
  {
    var a: nat, b: nat :| IsSegmentAt(ws, full, a, b);
    var millions := PartIsRead(ws[..a], full, 2);
    var thousands := PartIsRead(ws[a..b], full || a > 0, 1);
    var ones := PartIsRead(ws[b..], full || b > 0, 0);
    n := GroupsOf(millions, thousands, ones);
    PartsAre(ws, full, n, a, b);
  }

  lemma PartsAre(ws: seq<Word>, full: bool, n: nat, a: nat, b: nat)
    requires n < 1000000000 && a <= b <= |ws|
    requires ws[..a] == PartWords(Triple(n, 2), full, 2)
    requires ws[a..b] == PartWords(Triple(n, 1), full || a > 0, 1)
    requires ws[b..] == PartWords(Triple(n, 0), full || b > 0, 0)
    ensures ws == UnderBillionWords(n, full)
  {
    InThree(ws, a, b);
    PartsSaid(n, full);
  }

  lemma InThree(ws: seq<Word>, a: nat, b: nat)
    requires a <= b <= |ws|
    ensures ws == ws[..a] + ws[a..b] + ws[b..]
    ensures ws[..a] != [] <==> a > 0
    ensures ws[..a] + ws[a..b] != [] <==> b > 0
  {
  }

  lemma NothingSaid(n: nat)
    requires n < 1000000000 && UnderBillionWords(n, false) != []
    ensures n > 0
  {
    PartsSaid(n, false);
  }

  lemma LastBillion(ws: seq<Word>) returns (k: nat)
    requires IsNumber(ws) && (ws == [] || !IsSegment(ws, false))
    ensures CountsBillionsTo(ws, k)
  {
    k :| CountsBillionsTo(ws, k);
  }

  lemma Opened(ws: seq<Word>, k: nat) returns (head: seq<Word>, tail: seq<Word>)
    requires CountsBillionsTo(ws, k)
    ensures ws == head + [Billion] + tail && IsNumber(head) && IsSegment(tail, true)
  {
    head, tail := ws[..k], ws[k + 1..];
  }

  lemma OneBillionOrMore(billions: nat, rest: nat) returns (n: nat)
    requires billions > 0 && rest < 1000000000
    ensures n >= 1000000000 && billions == n / 1000000000 && rest == n % 1000000000
  {
    n := 1000000000 * billions + rest;
    BillionsAndOnes(billions, rest);
  }

  lemma BillionsRead(head: seq<Word>, tail: seq<Word>, billions: nat, rest: nat) returns (n: nat)
    requires billions > 0 && rest < 1000000000
    requires head == NumberWords(billions, false) && tail == UnderBillionWords(rest, true)
    ensures n > 0 && NumberWords(n, false) == head + [Billion] + tail
  {
    n := OneBillionOrMore(billions, rest);
    BillionsSaid(n, billions, rest);
  }

  lemma {:induction false} NumberIsRead(ws: seq<Word>) returns (n: nat)
    requires IsNumber(ws)
    ensures n > 0 && ws == NumberWords(n, false)
    decreases |ws|
  {
    if ws != [] && IsSegment(ws, false) {
      n := SegmentIsRead(ws, false);
      NothingSaid(n);
    } else {
      var k := LastBillion(ws);
      var head, tail := Opened(ws, k);
      var billions := NumberIsRead(head);
      var rest := SegmentIsRead(tail, true);
      n := BillionsRead(head, tail, billions, rest);
    }
  }

  /** The reading of a number is the only sequence of words that keeps the rules and is heard as it. */
  lemma TheOnlyWording(n: nat, ws: seq<Word>)
    requires n > 0
    ensures ws == NumberWords(n, false) <==> IsNumber(ws) && Silence.HearAll(ws).Total() == n
  {
    ReadingKeepsTheRules(n);
    NumberHeard(n, false);
    if IsNumber(ws) {
      var m := NumberIsRead(ws);
      NumberHeard(m, false);
    }
  }

  // ----- The written amount -----

  predicate IsCapital(c: char) { 'A' <= c <= 'Z' || c == 'Â' }

  lemma SpellingOpensSmall(w: Word)
    ensures Spelled(w) != "" && (w.Digit? || w == Ten ==> IsCapital(Capital(Spelled(w)[0])))
  {
  }

  lemma {:induction false} ReadingOpensWithAFigure(n: nat)
    requires n > 0
    ensures NumberWords(n, false) != [] && (NumberWords(n, false)[0].Digit? || NumberWords(n, false)[0] == Ten)
    decreases n
  {
    if n < 1000000000 {
      SegmentKept(n, false);
      SegmentOpensWithAFigure(NumberWords(n, false));
    } else {
      ReadingOpensWithAFigure(n / 1000000000);
      BillionsSaid(n, n / 1000000000, n % 1000000000);
    }
  }

  lemma SegmentOpensWithAFigure(ws: seq<Word>)
    requires ws != [] && IsSegment(ws, false)
    ensures ws[0].Digit? || ws[0] == Ten
  {
    var a: nat, b: nat :| IsSegmentAt(ws, false, a, b);
    if a > 0 {
      assert IsGroup(ws[..a][..a - 1], false) && ws[..a][..a - 1][0] == ws[0];
    } else if b > 0 {
      assert IsGroup(ws[a..b][..b - 1], false) && ws[a..b][..b - 1][0] == ws[0];
    } else {
      assert IsGroup(ws[b..], false) && ws[b..][0] == ws[0];
    }
  }

  /** A written amount opens with a capital, and that is all that sets it off from its words: a minus
      word, the number's, and the currency's, with single spaces between. */
  lemma WordingIsTheWords(amount: int)
    requires amount != 0
    ensures Wording(amount) != "" && IsCapital(Wording(amount)[0])
    ensures Wording(amount)[1..] == Join(ReadingParts(amount < 0, NumberWords(Abs(amount), false)), " ")[1..]
    ensures Small(Wording(amount)[0]) == Join(ReadingParts(amount < 0, NumberWords(Abs(amount), false)), " ")[0]
  {
    var words := NumberWords(Abs(amount), false);
    ReadingOpensWithAFigure(Abs(amount));
    PartsJoined(amount < 0, words);
    PartsAreRead(amount < 0, words);
    SpellingOpensSmall(words[0]);
    var parts := ReadingParts(amount < 0, words);
    var text := Join(parts, " ");
    assert text[0] == parts[0][0];
    assert parts[0] == if amount < 0 then "âm" else Spelled(words[0]);
  }

  /** The figures' names, from nothing to nine. */
  const FIGURES := ["không", "một", "hai", "ba", "bốn", "năm", "sáu", "bảy", "tám", "chín"]

  lemma FiguresAreNamed(d: Figure)
    ensures Spelled(Digit(d)) == FIGURES[d]
    ensures Spelled(One) == "mốt" && Spelled(Five) == "lăm" && Spelled(Odd) == "linh"
    ensures Spelled(Ten) == "mười" && Spelled(Tens) == "mươi" && Spelled(Hundred) == "trăm"
    ensures Spelled(Thousand) == "nghìn" && Spelled(Million) == "triệu" && Spelled(Billion) == "tỷ"
  {
  }
}
