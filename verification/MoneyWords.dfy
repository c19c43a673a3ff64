/** A whole number of dong in Vietnamese words, and a listener that hears the number back. */
module MoneyWords {
  import opened Options
  import opened MoneyText
  import opened Splitting

  // ----- Words -----

  type Figure = d: int | 0 <= d < 10

  /** `Ten` is ten itself; `Tens` follows the figure that counts them. `One` and `Five` are the
      forms one and five take after tens. `Odd` fills in for missing tens. */
  datatype Word =
    | Digit(d: Figure) | Hundred | Odd | Ten | Tens | One | Five
    | Thousand | Million | Billion

  function Spelled(w: Word): string {
    match w
    case Digit(d) =>
      if d == 0 then "không" else if d == 1 then "một" else if d == 2 then "hai" else if d == 3 then "ba"
      else if d == 4 then "bốn" else if d == 5 then "năm" else if d == 6 then "sáu" else if d == 7 then "bảy"
      else if d == 8 then "tám" else "chín"
    case Hundred => "trăm"
    case Odd => "linh"
    case Ten => "mười"
    case Tens => "mươi"
    case One => "mốt"
    case Five => "lăm"
    case Thousand => "nghìn"
    case Million => "triệu"
    case Billion => "tỷ"
  }

  function Spellings(words: seq<Word>): (texts: seq<string>)
    ensures |texts| == |words|
    ensures forall i | 0 <= i < |words| :: texts[i] == Spelled(words[i])
  {
    if words == [] then [] else [Spelled(words[0])] + Spellings(words[1..])
  }

  function Phrase(words: seq<Word>): string { Join(Spellings(words), " ") }

  // ----- Reading a number out -----

  function HundredsWords(hundreds: Figure, full: bool): seq<Word> {
    if full || hundreds > 0 then [Digit(hundreds), Hundred] else []
  }

  /** `begun` when the group already has its hundreds. */
  function TensWords(tens: Figure, units: Figure, begun: bool): seq<Word> {
    if tens == 0 then if units > 0 && begun then [Odd] else []
    else if tens == 1 then [Ten]
    else [Digit(tens), Tens]
  }

  function UnitsWords(tens: Figure, units: Figure): seq<Word> {
    if units == 0 then []
    else if units == 1 && tens >= 2 then [One]
    else if units == 5 && tens >= 1 then [Five]
    else [Digit(units)]
  }

  /** The words of a number below a thousand; `full` says its hundreds even when there are none. */
  function TripleWords(n: nat, full: bool): (words: seq<Word>)
    requires n < 1000
    ensures n > 0 ==> words != []
  {
    var hundreds: Figure, tens: Figure, units: Figure := n / 100, n % 100 / 10, n % 10;
    var begun := HundredsWords(hundreds, full);
    begun + TensWords(tens, units, begun != []) + UnitsWords(tens, units)
  }

  /** The `at`th group of three digits, counted from the right. */
  function Triple(n: nat, at: nat): (g: nat)
    requires n < 1000000000 && at < 3
    ensures g < 1000
  {
    if at == 0 then n % 1000 else if at == 1 then n / 1000 % 1000 else n / 1000000
  }

  function Scale(at: nat): seq<Word>
    requires at < 3
  {
    if at == 0 then [] else if at == 1 then [Thousand] else [Million]
  }

  /** The groups from the leftmost down to `at`. */
  function GroupWords(n: nat, full: bool, at: nat): (words: seq<Word>)
    requires n < 1000000000 && at <= 3
    decreases 3 - at
  {
    if at == 3 then []
    else
      var left := GroupWords(n, full, at + 1);
      if Triple(n, at) == 0 then left
      else left + TripleWords(Triple(n, at), full || left != []) + Scale(at)
  }

  function UnderBillionWords(n: nat, full: bool): seq<Word>
    requires n < 1000000000
  {
    GroupWords(n, full, 0)
  }

  function NumberWords(n: nat, full: bool): seq<Word> {
    if n < 1000000000 then UnderBillionWords(n, full)
    else
      var head := NumberWords(n / 1000000000, full) + [Billion];
      var rest := n % 1000000000;
      if rest > 0 then head + UnderBillionWords(rest, true) else head
  }

  // ----- Hearing it back -----

  /** What has been heard: whole billions, the groups scaled below a billion, the group being
      said, and the last figure, which what follows may scale. */
  datatype Tally = Tally(above: nat, below: nat, triple: nat, last: nat) {
    function Total(): nat { above + below + triple + last }

    function Hear(w: Word): Tally {
      match w
      case Digit(d) => this.(last := d)
      case One => this.(last := 1)
      case Five => this.(last := 5)
      case Odd => this
      case Ten => this.(triple := triple + 10)
      case Hundred => this.(triple := triple + 100 * last, last := 0)
      case Tens => this.(triple := triple + 10 * last, last := 0)
      case Thousand => this.(below := below + 1000 * (triple + last), triple := 0, last := 0)
      case Million => this.(below := below + 1000000 * (triple + last), triple := 0, last := 0)
      case Billion => Tally(1000000000 * Total(), 0, 0, 0)
    }

    function HearAll(words: seq<Word>): Tally
      decreases |words|
    {
      if words == [] then this else Hear(words[0]).HearAll(words[1..])
    }
  }

  const Silence := Tally(0, 0, 0, 0)

  lemma {:induction false} HearAppend(t: Tally, a: seq<Word>, b: seq<Word>)
    ensures t.HearAll(a + b) == t.HearAll(a).HearAll(b)
    decreases |a|
  {
    if a == [] {
      assert a + b == b;
    } else {
      assert (a + b)[1..] == a[1..] + b;
      HearAppend(t.Hear(a[0]), a[1..], b);
    }
  }

  lemma HearOne(t: Tally, w: Word)
    ensures t.HearAll([w]) == t.Hear(w)
  {}

  lemma HearTwo(t: Tally, v: Word, w: Word)
    ensures t.HearAll([v, w]) == t.Hear(v).Hear(w)
  {
    assert [v, w][1..] == [w];
    HearOne(t.Hear(v), w);
  }

  lemma HundredsHeard(t: Tally, hundreds: Figure, full: bool)
    requires t.triple == 0 && t.last == 0
    ensures t.HearAll(HundredsWords(hundreds, full)) == t.(triple := 100 * hundreds)
  {
    HearTwo(t, Digit(hundreds), Hundred);
  }

  lemma TensHeard(t: Tally, tens: Figure, units: Figure, begun: bool)
    requires t.last == 0
    ensures t.HearAll(TensWords(tens, units, begun)) == t.(triple := t.triple + 10 * tens)
  {
    HearTwo(t, Digit(tens), Tens);
    HearOne(t, Ten);
    HearOne(t, Odd);
  }

  lemma UnitsHeard(t: Tally, tens: Figure, units: Figure)
    requires t.last == 0
    ensures t.HearAll(UnitsWords(tens, units)) == t.(last := units)
  {
    HearOne(t, One);
    HearOne(t, Five);
    HearOne(t, Digit(units));
  }

  lemma TripleHeard(t: Tally, n: nat, full: bool)
    requires n < 1000 && t.triple == 0 && t.last == 0
    ensures var s := t.HearAll(TripleWords(n, full));
            s.above == t.above && s.below == t.below && s.triple + s.last == n
  {
    var hundreds: Figure, tens: Figure, units: Figure := n / 100, n % 100 / 10, n % 10;
    var first := HundredsWords(hundreds, full);
    var second := TensWords(tens, units, first != []);
    HearAppend(t, first + second, UnitsWords(tens, units));
    HearAppend(t, first, second);
    HundredsHeard(t, hundreds, full);
    TensHeard(t.HearAll(first), tens, units, first != []);
    UnitsHeard(t.HearAll(first + second), tens, units);
  }

  /** The part of `n` in its groups from `at` on. */
  function Upper(n: nat, at: nat): nat
    requires n < 1000000000 && at <= 3
  {
    if at == 0 then n else if at == 1 then n / 1000 * 1000 else if at == 2 then n / 1000000 * 1000000 else 0
  }

  lemma UpperStep(n: nat, at: nat)
    requires n < 1000000000 && at < 3
    ensures var unit := if at == 0 then 1 else if at == 1 then 1000 else 1000000;
            Upper(n, at) == Upper(n, at + 1) + Triple(n, at) * unit
  {}

  lemma {:induction false} GroupsHeard(above: nat, n: nat, full: bool, at: nat)
    requires n < 1000000000 && at <= 3
    ensures var s := Tally(above, 0, 0, 0).HearAll(GroupWords(n, full, at));
            && s.above == above && s.below + s.triple + s.last == Upper(n, at)
            && (at > 0 ==> s.triple == s.last == 0)
    decreases 3 - at
  {
    if at < 3 {
      GroupsHeard(above, n, full, at + 1);
      UpperStep(n, at);
      var t := Tally(above, 0, 0, 0);
      var left := GroupWords(n, full, at + 1);
      if Triple(n, at) > 0 {
        var words := TripleWords(Triple(n, at), full || left != []);
        HearAppend(t, left + words, Scale(at));
        HearAppend(t, left, words);
        TripleHeard(t.HearAll(left), Triple(n, at), full || left != []);
        if at > 0 {
          HearOne(t.HearAll(left + words), Scale(at)[0]);
        }
      }
    }
  }

  /** Every number read out is heard as itself. */
  lemma {:induction false} NumberHeard(n: nat, full: bool)
    ensures Silence.HearAll(NumberWords(n, full)).Total() == n
    decreases n
  {
    if n < 1000000000 {
      GroupsHeard(0, n, full, 0);
    } else {
      var billions, rest := n / 1000000000, n % 1000000000;
      NumberHeard(billions, full);
      var words := NumberWords(billions, full);
      HearAppend(Silence, words, [Billion]);
      HearOne(Silence.HearAll(words), Billion);
      if rest > 0 {
        HearAppend(Silence, words + [Billion], UnderBillionWords(rest, true));
        GroupsHeard(1000000000 * billions, rest, true, 0);
      }
    }
  }

  // ----- The written amount -----

  /** `toUpperCase` of a letter a reading opens with. */
  function Capital(c: char): char {
    if 'a' <= c <= 'z' then c - 'a' + 'A' else if c == 'â' then 'Â' else c
  }

  function Small(c: char): char {
    if 'A' <= c <= 'Z' then c - 'A' + 'a' else if c == 'Â' then 'â' else c
  }

  function Capitalised(text: string): string {
    if text == "" then "" else [Capital(text[0])] + text[1..]
  }

  function Uncapitalised(text: string): string {
    if text == "" then "" else [Small(text[0])] + text[1..]
  }

  /** The reading before its capital. */
  function Statement(negative: bool, n: nat): string {
    (if negative then "âm " else "") + Phrase(NumberWords(n, false)) + " đồng"
  }

  function Wording(amount: int): string {
    if amount == 0 then "Không đồng" else Capitalised(Statement(amount < 0, Abs(amount)))
  }

  /** The word a text spells. */
  function Understood(text: string): Option<Word> {
    if text == "không" then Some(Digit(0))
    else if text == "một" then Some(Digit(1))
    else if text == "hai" then Some(Digit(2))
    else if text == "ba" then Some(Digit(3))
    else if text == "bốn" then Some(Digit(4))
    else if text == "năm" then Some(Digit(5))
    else if text == "sáu" then Some(Digit(6))
    else if text == "bảy" then Some(Digit(7))
    else if text == "tám" then Some(Digit(8))
    else if text == "chín" then Some(Digit(9))
    else if text == "trăm" then Some(Hundred)
    else if text == "linh" then Some(Odd)
    else if text == "mười" then Some(Ten)
    else if text == "mươi" then Some(Tens)
    else if text == "mốt" then Some(One)
    else if text == "lăm" then Some(Five)
    else if text == "nghìn" then Some(Thousand)
    else if text == "triệu" then Some(Million)
    else if text == "tỷ" then Some(Billion)
    else None
  }

  function UnderstoodAll(texts: seq<string>): Option<seq<Word>> {
    if texts == [] then Some([])
    else
      var first, rest := Understood(texts[0]), UnderstoodAll(texts[1..]);
      if first.Some? && rest.Some? then Some([first.value] + rest.value) else None
  }

  /** The amount a reading states: an optional minus word, the number, the currency. */
  function ReadBack(text: string): Option<int> {
    var texts := Split(Uncapitalised(text), ' ');
    if texts[|texts| - 1] != "đồng" then None
    else
      var negative := texts[0] == "âm";
      var from := if negative then 1 else 0;
      if from >= |texts| then None
      else
        var words := UnderstoodAll(texts[from..|texts| - 1]);
        if words.None? then None else Some(Signed(negative, Silence.HearAll(words.value).Total()))
  }

  lemma SpellingIsUnderstood(w: Word)
    ensures Understood(Spelled(w)) == Some(w)
  {
    match w
    case Digit(d) =>
    case Hundred =>
    case Odd =>
    case Ten =>
    case Tens =>
    case One =>
    case Five =>
    case Thousand =>
    case Million =>
    case Billion =>
  }

  lemma {:induction false} SpellingsAreUnderstood(words: seq<Word>)
    ensures UnderstoodAll(Spellings(words)) == Some(words)
  {
    if words != [] {
      SpellingIsUnderstood(words[0]);
      SpellingsAreUnderstood(words[1..]);
      assert Spellings(words)[1..] == Spellings(words[1..]);
      assert words == [words[0]] + words[1..];
    }
  }

  /** A word as it is written: no space in it, and no capital to open it. */
  predicate IsOneWord(text: string) {
    text != "" && ' ' !in text && Small(Capital(text[0])) == text[0]
  }

  lemma SpellingIsOneWord(w: Word)
    ensures IsOneWord(Spelled(w)) && Spelled(w) != "âm"
  {}

  lemma {:induction false} JoinAppend(a: seq<string>, b: seq<string>)
    requires a != [] && b != []
    ensures Join(a + b, " ") == Join(a, " ") + " " + Join(b, " ")
    decreases |a|
  {
    assert (a + b)[1..] == a[1..] + b;
    if |a| == 1 {
      assert a[1..] + b == b;
    } else {
      JoinAppend(a[1..], b);
    }
  }

  lemma PhraseAppend(a: seq<Word>, b: seq<Word>)
    requires a != [] && b != []
    ensures Phrase(a + b) == Phrase(a) + " " + Phrase(b)
  {
    assert Spellings(a + b) == Spellings(a) + Spellings(b);
    JoinAppend(Spellings(a), Spellings(b));
  }

  lemma {:induction false} NumberIsWorded(n: nat, full: bool)
    requires n > 0
    ensures NumberWords(n, full) != []
    decreases n
  {
    if n < 1000000000 {
      assert Triple(n, 0) > 0 || Triple(n, 1) > 0 || Triple(n, 2) > 0;
      assert GroupWords(n, full, 2) != [] || Triple(n, 2) == 0;
      assert GroupWords(n, full, 1) != [] || (Triple(n, 1) == 0 && Triple(n, 2) == 0);
    } else {
      NumberIsWorded(n / 1000000000, full);
    }
  }

  /** The parts of a reading, before they are joined. */
  function ReadingParts(negative: bool, words: seq<Word>): seq<string> {
    (if negative then ["âm"] else []) + Spellings(words) + ["đồng"]
  }

  lemma JoinEnd(texts: seq<string>, last: string)
    requires texts != []
    ensures Join(texts + [last], " ") == Join(texts, " ") + (" " + last)
  {
    JoinAppend(texts, [last]);
  }

  lemma JoinStart(first: string, texts: seq<string>)
    requires texts != []
    ensures Join([first] + texts, " ") == (first + " ") + Join(texts, " ")
  {
    JoinAppend([first], texts);
  }

  lemma JoinBoth(first: string, texts: seq<string>, last: string)
    requires texts != []
    ensures Join([first] + texts + [last], " ") == first + " " + Join(texts, " ") + " " + last
  {
    var ended := texts + [last];
    JoinEnd(texts, last);
    JoinStart(first, ended);
    assert [first] + texts + [last] == [first] + ended;
  }

  lemma PartsJoined(negative: bool, words: seq<Word>)
    requires words != []
    ensures Join(ReadingParts(negative, words), " ") == (if negative then "âm " else "") + Phrase(words) + " đồng"
  {
    var said := Spellings(words);
    assert " " + "đồng" == " đồng";
    if negative {
      JoinBoth("âm", said, "đồng");
      assert "âm" + " " == "âm ";
      assert ("âm " + Phrase(words)) + " " + "đồng" == ("âm " + Phrase(words)) + (" " + "đồng");
    } else {
      JoinEnd(said, "đồng");
      assert [] + said + ["đồng"] == said + ["đồng"];
    }
  }

  lemma SignAndCurrencyAreWords()
    ensures IsOneWord("âm") && IsOneWord("đồng")
  {}

  predicate AreWords(texts: seq<string>) { forall i | 0 <= i < |texts| :: IsOneWord(texts[i]) }

  lemma AllWords(a: seq<string>, b: seq<string>)
    requires AreWords(a) && AreWords(b)
    ensures AreWords(a + b)
  {}

  lemma SpellingsAreWords(words: seq<Word>)
    ensures AreWords(Spellings(words))
  {
    forall i | 0 <= i < |words|
      ensures IsOneWord(Spellings(words)[i])
    {
      SpellingIsOneWord(words[i]);
    }
  }

  lemma PartIsOneWord(negative: bool, words: seq<Word>, i: nat)
    requires i < |ReadingParts(negative, words)|
    ensures IsOneWord(ReadingParts(negative, words)[i])
  {
    SignAndCurrencyAreWords();
    SpellingsAreWords(words);
    var said := Spellings(words);
    AllWords(["âm"], said);
    AllWords(["âm"] + said, ["đồng"]);
    AllWords([], said);
    AllWords([] + said, ["đồng"]);
  }

  lemma PartsAreRead(negative: bool, words: seq<Word>)
    requires words != []
    ensures var text := Join(ReadingParts(negative, words), " ");
            && Uncapitalised(Capitalised(text)) == text
            && Split(text, ' ') == ReadingParts(negative, words)
  {
    var parts := ReadingParts(negative, words);
    forall i | 0 <= i < |parts|
      ensures IsOneWord(parts[i])
    {
      PartIsOneWord(negative, words, i);
    }
    SplitJoin(parts, ' ');
    var text := Join(parts, " ");
    assert text[0] == parts[0][0];
  }

  lemma PartsAreHeard(negative: bool, words: seq<Word>)
    requires words != []
    ensures ReadBack(Capitalised(Join(ReadingParts(negative, words), " ")))
            == Some(Signed(negative, Silence.HearAll(words).Total()))
  {
    PartsAreRead(negative, words);
    var parts := ReadingParts(negative, words);
    SpellingIsOneWord(words[0]);
    var from := if negative then 1 else 0;
    assert parts[from] == Spelled(words[0]);
    assert parts[from..|parts| - 1] == Spellings(words);
    SpellingsAreUnderstood(words);
  }

  lemma NothingIsWorded()
    ensures Wording(0) == Capitalised(Join(ReadingParts(false, [Digit(0)]), " "))
  {
    PartsJoined(false, [Digit(0)]);
    assert Phrase([Digit(0)]) == "không";
    assert "" + "không" + " đồng" == "không đồng";
    assert "không đồng"[1..] == "hông đồng";
    assert ['K'] + "hông đồng" == "Không đồng";
  }

  lemma StatementIsReadBack(negative: bool, n: nat)
    requires n > 0
    ensures ReadBack(Capitalised(Statement(negative, n))) == Some(Signed(negative, n))
  {
    var words := NumberWords(n, false);
    NumberIsWorded(n, false);
    PartsJoined(negative, words);
    assert Statement(negative, n) == Join(ReadingParts(negative, words), " ");
    PartsAreHeard(negative, words);
    NumberHeard(n, false);
  }

  lemma NothingIsReadBack()
    ensures ReadBack(Wording(0)) == Some(0)
  {
    NothingIsWorded();
    PartsAreHeard(false, [Digit(0)]);
    HearOne(Silence, Digit(0));
    assert Silence.Hear(Digit(0)).Total() == 0;
  }

  lemma SomethingIsReadBack(amount: int)
    requires amount != 0
    ensures ReadBack(Wording(amount)) == Some(amount)
  {
    StatementIsReadBack(amount < 0, Abs(amount));
    assert Wording(amount) == Capitalised(Statement(amount < 0, Abs(amount)));
    assert Signed(amount < 0, Abs(amount)) == amount;
  }

  /** Every amount written in words reads back as itself. */
  lemma WordingIsReadBack(amount: int)
    ensures ReadBack(Wording(amount)) == Some(amount)
  {
    if amount == 0 {
      NothingIsReadBack();
    } else {
      SomethingIsReadBack(amount);
    }
  }

  /** No two amounts share a wording. */
  lemma WordingIsInjective(a: int, b: int)
    requires Wording(a) == Wording(b)
    ensures a == b
  {
    WordingIsReadBack(a);
    WordingIsReadBack(b);
  }

  // ----- The code -----

  lemma SpellingsAppend(a: seq<Word>, b: seq<Word>)
    ensures Spellings(a + b) == Spellings(a) + Spellings(b)
  {}

  lemma SpellingsOfFew(v: Word, w: Word)
    ensures Spellings([v]) == [Spelled(v)] && Spellings([v, w]) == [Spelled(v), Spelled(w)]
  {}

  method ReadTriple(n: nat, full: bool) returns (text: string)
    requires n < 1000
    ensures text == Phrase(TripleWords(n, full))
  {
    var hundreds: Figure, tens: Figure, units: Figure := n / 100, n % 100 / 10, n % 10;
    ghost var first := HundredsWords(hundreds, full);
    ghost var second := TensWords(tens, units, first != []);
    var words: seq<string> := [];
    if full || hundreds > 0 {
      words := words + [Spelled(Digit(hundreds)), "trăm"];
    }
    SpellingsOfFew(Digit(hundreds), Hundred);
    assert words == Spellings(first);
    if tens == 0 {
      if units > 0 && |words| > 0 {
        words := words + ["linh"];
      }
    } else if tens == 1 {
      words := words + ["mười"];
    } else {
      words := words + [Spelled(Digit(tens)), "mươi"];
    }
    SpellingsOfFew(Digit(tens), Tens);
    SpellingsOfFew(Ten, Odd);
    SpellingsOfFew(Odd, Ten);
    SpellingsAppend(first, second);
    assert words == Spellings(first + second);
    if units > 0 {
      if units == 1 && tens >= 2 {
        words := words + ["mốt"];
      } else if units == 5 && tens >= 1 {
        words := words + ["lăm"];
      } else {
        words := words + [Spelled(Digit(units))];
      }
    }
    SpellingsOfFew(One, Five);
    SpellingsOfFew(Five, One);
    SpellingsOfFew(Digit(units), One);
    ghost var third := UnitsWords(tens, units);
    SpellingsAppend(first + second, third);
    assert words == Spellings(first + second) + Spellings(third);
    assert first + second + third == TripleWords(n, full);
    text := Join(words, " ");
  }

  lemma PartAppended(parts: seq<string>, left: seq<Word>, part: string, said: seq<Word>)
    requires Join(parts, " ") == Phrase(left) && (parts == [] <==> left == [])
    requires said != [] && part == Phrase(said)
    ensures Join(parts + [part], " ") == Phrase(left + said)
  {
    if parts == [] {
      assert parts + [part] == [part] && left + said == said;
    } else {
      JoinAppend(parts, [part]);
      PhraseAppend(left, said);
    }
  }

  /** A group's text with the name of its scale, if it has one. */
  function WithScale(triple: string, at: nat): string {
    if at == 0 then triple else triple + " " + if at == 1 then "nghìn" else "triệu"
  }

  lemma ScaleSpoken(words: seq<Word>, at: nat)
    requires words != [] && at < 3
    ensures Phrase(words + Scale(at)) == WithScale(Phrase(words), at)
  {
    if at == 0 {
      assert words + Scale(at) == words;
    } else {
      PhraseAppend(words, Scale(at));
    }
  }

  lemma GroupSpoken(n: nat, full: bool, at: nat, parts: seq<string>, part: string)
    requires n < 1000000000 && at < 3 && Triple(n, at) != 0
    requires var left := GroupWords(n, full, at + 1);
             && Join(parts, " ") == Phrase(left) && (parts == [] <==> left == [])
             && part == WithScale(Phrase(TripleWords(Triple(n, at), full || left != [])), at)
    ensures Join(parts + [part], " ") == Phrase(GroupWords(n, full, at)) && GroupWords(n, full, at) != []
  {
    var left := GroupWords(n, full, at + 1);
    var words := TripleWords(Triple(n, at), full || left != []);
    ScaleSpoken(words, at);
    PartAppended(parts, left, part, words + Scale(at));
    assert left + words + Scale(at) == left + (words + Scale(at));
  }

  method ReadUnderBillion(n: nat, full: bool) returns (text: string)
    requires n < 1000000000
    ensures text == Phrase(UnderBillionWords(n, full))
  {
    var groups := [Triple(n, 0), Triple(n, 1), Triple(n, 2)];
    var parts: seq<string> := [];
    var at := 3;
    while at > 0
      invariant 0 <= at <= 3
      invariant Join(parts, " ") == Phrase(GroupWords(n, full, at))
      invariant parts == [] <==> GroupWords(n, full, at) == []
    {
      at := at - 1;
      var group := groups[at];
      if group != 0 {
        var triple := ReadTriple(group, full || |parts| > 0);
        var part := WithScale(triple, at);
        GroupSpoken(n, full, at, parts, part);
        parts := parts + [part];
      }
    }
    text := Join(parts, " ");
  }

  method ReadNumber(n: nat, full: bool) returns (text: string)
    requires n > 0
    ensures text == Phrase(NumberWords(n, full))
    decreases n
  {
    if n < 1000000000 {
      text := ReadUnderBillion(n, full);
      return;
    }
    var billions, rest := n / 1000000000, n % 1000000000;
    var head := ReadNumber(billions, full);
    ghost var words := NumberWords(billions, full);
    NumberIsWorded(billions, full);
    PhraseAppend(words, [Billion]);
    head := head + " " + "tỷ";
    assert head == Phrase(words + [Billion]);
    if rest > 0 {
      var tail := ReadUnderBillion(rest, true);
      NumberIsWorded(rest, true);
      PhraseAppend(words + [Billion], UnderBillionWords(rest, true));
      text := head + " " + tail;
    } else {
      text := head;
    }
  }

  /** `None` is the `RangeError`. Every other answer reads back as the amount. */
  method MoneyInWords(amount: int) returns (text: Option<string>)
    ensures text.Some? <==> IsSafe(amount)
    ensures text.Some? ==> text.value == Wording(amount) && ReadBack(text.value) == Some(amount)
  {
    if !IsSafe(amount) {
      return None;
    }
    WordingIsReadBack(amount);
    if amount == 0 {
      return Some("Không đồng");
    }
    var number := ReadNumber(Abs(amount), false);
    var reading := (if amount < 0 then "âm " else "") + number + " đồng";
    text := Some([Capital(reading[0])] + reading[1..]);
  }
}
