/** What the block parser promises of its input: every line is accounted for, pieces
    separated by a blank line parse apart, and re-parsing a growing answer leaves alone all
    but the end of what was shown before. */
module MarkdownStreaming {
  import opened Options
  import opened JsText
  import opened MarkdownLines
  import opened MarkdownBlocks
  import opened Splitting

  // ----- Every line is accounted for -----

  /** The lines `start` up to `end`. */
  datatype Span = Span(start: nat, end: nat)

  /** The lines each block was made of, the text starting at line `at`. */
  function Spans(lines: seq<Line>, at: nat): seq<Span>
    decreases |lines|
  {
    if lines == [] then []
    else if lines[0].blank then Spans(lines[1..], at + 1)
    else [Span(at, at + Length(lines))] + Spans(lines[Length(lines)..], at + Length(lines))
  }

  ghost predicate AllPlausible(lines: seq<Line>) {
    forall i | 0 <= i < |lines| :: Plausible(lines[i])
  }

  /** Only a code fence takes in blank lines. */
  lemma NoBlankInside(lines: seq<Line>, i: nat)
    requires lines != [] && !lines[0].blank && i < Length(lines) && ShapeOf(lines) != Fenced
    requires AllPlausible(lines)
    ensures !lines[i].blank
  {
    var shape := ShapeOf(lines);
    if i > 0 {
      match shape {
        case Tabular =>
          ExtentMeans(lines[2..], Piped);
          assert i > 1 ==> lines[i] == lines[2..][i - 2];
        case Listed(ordered) =>
          ExtentMeans(lines, Items(ordered));
        case Quoting =>
          ExtentMeans(lines, Quoted);
        case Plain =>
          ExtentMeans(lines[1..], Prose);
          assert lines[i] == lines[1..][i - 1];
        case _ =>
      }
    }
  }

  ghost predicate Within(span: Span, k: nat) { span.start <= k < span.end }

  ghost predicate Covered(spans: seq<Span>, k: nat) {
    exists b :: 0 <= b < |spans| && Within(spans[b], k)
  }

  /** The spans lie between lines `from` and `to`, in order and apart. */
  ghost predicate InOrder(spans: seq<Span>, from: nat, to: nat) {
    && (forall b | 0 <= b < |spans| :: from <= spans[b].start < spans[b].end <= to)
    && (forall a, b | 0 <= a < b < |spans| :: spans[a].end <= spans[b].start)
  }

  lemma {:induction false} SpansInOrder(lines: seq<Line>, at: nat)
    ensures |Spans(lines, at)| == |Chunks(lines)|
    ensures InOrder(Spans(lines, at), at, at + |lines|)
    decreases |lines|
  {
    if lines != [] {
      if lines[0].blank {
        SpansInOrder(lines[1..], at + 1);
      } else {
        SpansInOrder(lines[Length(lines)..], at + Length(lines));
      }
    }
  }

  lemma CoveredByMore(head: Span, rest: seq<Span>, k: nat)
    ensures Covered([head] + rest, k) <==> Within(head, k) || Covered(rest, k)
  {
    var all := [head] + rest;
    if b :| 0 <= b < |rest| && Within(rest[b], k) {
      assert all[b + 1] == rest[b];
    }
    assert all[0] == head;
    if b :| 0 <= b < |all| && Within(all[b], k) {
      assert b > 0 ==> all[b] == rest[b - 1];
    }
  }

  /** A line in no span is blank. */
  lemma {:induction false} UncoveredIsBlank(lines: seq<Line>, at: nat, k: nat)
    requires k < |lines| && !Covered(Spans(lines, at), at + k)
    ensures lines[k].blank
    decreases |lines|
  {
    if lines[0].blank {
      if k > 0 {
        UncoveredIsBlank(lines[1..], at + 1, k - 1);
      }
    } else {
      var n := Length(lines);
      var rest := Spans(lines[n..], at + n);
      CoveredByMore(Span(at, at + n), rest, at + k);
      assert !Within(Span(at, at + n), at + k);
      UncoveredIsBlank(lines[n..], at + n, k - n);
    }
  }

  lemma LaterSpan(lines: seq<Line>, at: nat, b: nat)
    requires lines != [] && !lines[0].blank && 0 < b < |Spans(lines, at)|
    ensures var n := Length(lines);
            && b - 1 < |Spans(lines[n..], at + n)| && Spans(lines, at)[b] == Spans(lines[n..], at + n)[b - 1]
  {
  }

  lemma SpanStarts(lines: seq<Line>, at: nat, b: nat)
    requires b < |Spans(lines, at)|
    ensures at <= Spans(lines, at)[b].start < Spans(lines, at)[b].end <= at + |lines|
  {
    SpansInOrder(lines, at);
  }

  lemma FirstCoveredBlankIsFenced(lines: seq<Line>, at: nat, k: nat)
    requires AllPlausible(lines) && lines != [] && !lines[0].blank
    requires k < |lines| && Within(Spans(lines, at)[0], at + k) && lines[k].blank
    ensures Chunks(lines)[0].shape == Fenced
  {
    if ShapeOf(lines) != Fenced {
      NoBlankInside(lines, k);
    }
  }

  /** What the blocks after the first cover, they cover without it. */
  lemma LaterCovered(lines: seq<Line>, at: nat, b: nat, k: nat)
    requires AllPlausible(lines) && lines != [] && !lines[0].blank && 0 < b < |Spans(lines, at)|
    requires k < |lines| && Within(Spans(lines, at)[b], at + k)
    ensures var n := Length(lines);
            && n <= k && lines[n..][k - n] == lines[k] && AllPlausible(lines[n..])
            && b - 1 < |Spans(lines[n..], at + n)| && Within(Spans(lines[n..], at + n)[b - 1], at + k)
  {
    var n := Length(lines);
    LaterSpan(lines, at, b);
    SpanStarts(lines[n..], at + n, b - 1);
  }

  lemma LaterChunk(lines: seq<Line>, b: nat)
    requires lines != [] && !lines[0].blank && b > 0 && b - 1 < |Chunks(lines[Length(lines)..])|
    ensures b < |Chunks(lines)| && Chunks(lines)[b] == Chunks(lines[Length(lines)..])[b - 1]
  {}

  /** A blank line in a span is in a code fence. */
  lemma {:induction false} CoveredBlankIsFenced(lines: seq<Line>, at: nat, b: nat, k: nat)
    requires AllPlausible(lines)
    requires b < |Spans(lines, at)| && k < |lines| && Within(Spans(lines, at)[b], at + k) && lines[k].blank
    ensures b < |Chunks(lines)| && Chunks(lines)[b].shape == Fenced
    decreases |lines|
  {
    if lines[0].blank {
      SpanStarts(lines[1..], at + 1, b);
      CoveredBlankIsFenced(lines[1..], at + 1, b, k - 1);
    } else if b == 0 {
      FirstCoveredBlankIsFenced(lines, at, k);
    } else {
      var n := Length(lines);
      LaterCovered(lines, at, b, k);
      CoveredBlankIsFenced(lines[n..], at + n, b - 1, k - n);
      LaterChunk(lines, b);
    }
  }

  lemma {:induction false} BlockAt(chunks: seq<Chunk>, b: nat)
    requires b < |chunks|
    ensures |BlocksOf(chunks)| == |chunks| && BlocksOf(chunks)[b] == BlockOf(chunks[b])
    decreases |chunks|
  {
    if b > 0 {
      BlockAt(chunks[1..], b - 1);
    } else if |chunks| > 1 {
      BlockAt(chunks[1..], 0);
    }
  }

  lemma {:induction false} FencedChunksHaveLines(lines: seq<Line>, b: nat)
    requires b < |Chunks(lines)|
    ensures Chunks(lines)[b].lines != []
    decreases |lines|
  {
    if lines[0].blank {
      FencedChunksHaveLines(lines[1..], b);
    } else if b > 0 {
      FencedChunksHaveLines(lines[Length(lines)..], b - 1);
    }
  }

  ghost predicate InCode(lines: seq<Line>, k: nat) {
    exists b :: 0 <= b < |Spans(lines, 0)| && b < |Parse(lines)| && Parse(lines)[b].Code?
        && Within(Spans(lines, 0)[b], k)
  }

  /** The blocks' lines are in order and disjoint, and a line is in none of them exactly when
      it is blank and outside every code block. */
  lemma EveryLineAccountedFor(texts: seq<string>, k: nat)
    requires k < |texts|
    ensures var lines := ReadAll(texts);
            && |Spans(lines, 0)| == |Parse(lines)|
            && InOrder(Spans(lines, 0), 0, |lines|)
            && (!Covered(Spans(lines, 0), k) <==> Trim(texts[k]) == "" && !InCode(lines, k))
  {
    ReadAllIsPlausible(texts);
    ReadAt(texts, k);
    LineAccountedFor(ReadAll(texts), k);
  }

  lemma LineAccountedFor(lines: seq<Line>, k: nat)
    requires k < |lines| && AllPlausible(lines)
    ensures |Spans(lines, 0)| == |Parse(lines)|
    ensures InOrder(Spans(lines, 0), 0, |lines|)
    ensures !Covered(Spans(lines, 0), k) <==> lines[k].blank && !InCode(lines, k)
  {
    var spans := Spans(lines, 0);
    SpansInOrder(lines, 0);
    if Chunks(lines) != [] {
      BlockAt(Chunks(lines), 0);
    }
    if Covered(spans, k) {
      if lines[k].blank {
        var b :| 0 <= b < |spans| && Within(spans[b], k);
        CoveredBlankIsFenced(lines, 0, b, k);
        FencedChunksHaveLines(lines, b);
        BlockAt(Chunks(lines), b);
        assert Parse(lines)[b].Code?;
      }
    } else {
      UncoveredIsBlank(lines, 0, k);
    }
  }

  // ----- Streaming -----

  ghost predicate AgreeUpTo(a: seq<Line>, b: seq<Line>, k: nat) {
    k <= |a| && k <= |b| && forall i | 0 <= i < k :: a[i] == b[i]
  }

  lemma AgreeFrom(a: seq<Line>, b: seq<Line>, k: nat, n: nat)
    requires AgreeUpTo(a, b, k) && n <= k
    ensures AgreeUpTo(a[n..], b[n..], k - n)
  {
  }

  lemma SameExtent(a: seq<Line>, b: seq<Line>, k: nat, kind: Kind)
    requires AgreeUpTo(a, b, k) && Extent(a, kind) < k
    ensures Extent(b, kind) == Extent(a, kind)
  {
    ExtentMeans(a, kind);
    ExtentIs(b, kind, Extent(a, kind));
  }

  /** A block that ends before the agreement does is the same block in both texts. */
  lemma SameChunk(a: seq<Line>, b: seq<Line>, k: nat)
    requires AgreeUpTo(a, b, k) && 0 < k && Length(a) < k
    ensures Length(b) == Length(a) && FirstChunk(b) == FirstChunk(a)
  {
    assert |a| > 1 && |b| > 1 && a[1] == b[1];
    var shape := ShapeOf(a);
    assert ShapeOf(b) == shape;
    AgreeFrom(a, b, k, 1);
    match shape {
      case Fenced => SameExtent(a[1..], b[1..], k - 1, InFence);
      case Ruled =>
      case Headed =>
      case Tabular =>
        AgreeFrom(a, b, k, 2);
        SameExtent(a[2..], b[2..], k - 2, Piped);
      case Listed(ordered) => SameExtent(a, b, k, Items(ordered));
      case Quoting => SameExtent(a, b, k, Quoted);
      case Plain => SameExtent(a[1..], b[1..], k - 1, Prose);
    }
    assert a[..Length(a)] == b[..Length(a)];
  }

  /** All but the last `n`. */
  function AllBut<T>(xs: seq<T>, n: nat): seq<T> {
    if |xs| <= n then [] else xs[..|xs| - n]
  }

  lemma PrefixUnderHead<T>(head: T, xs: seq<T>, ys: seq<T>, drop: nat)
    requires AllBut(xs, drop) <= ys && drop > 0
    ensures AllBut([head] + xs, drop) <= [head] + ys
  {
    if |xs| >= drop {
      assert AllBut([head] + xs, drop) == [head] + AllBut(xs, drop);
    }
  }

  /** `a` is the first `k` lines of `b` and at most one more line, which need not be `b`'s:
      the chunks of `a` but the last, or the last two if there is such a line, are how the
      chunks of `b` begin. */
  lemma {:induction false} StableUpTo(a: seq<Line>, b: seq<Line>, k: nat)
    requires AgreeUpTo(a, b, k) && |a| <= k + 1
    ensures AllBut(Chunks(a), if |a| == k then 1 else 2) <= Chunks(b)
    decreases |a|
  {
    if k == 0 || a == [] {
      AtMostOneChunk(a);
    } else if a[0].blank {
      AgreeFrom(a, b, k, 1);
      StableUpTo(a[1..], b[1..], k - 1);
    } else {
      var n := Length(a);
      if n < k {
        SameChunk(a, b, k);
        AgreeFrom(a, b, k, n);
        StableUpTo(a[n..], b[n..], k - n);
        PrefixUnderHead(FirstChunk(a), Chunks(a[n..]), Chunks(b[n..]), if |a| == k then 1 else 2);
      } else {
        AtMostOneChunk(a[n..]);
      }
    }
  }

  lemma AtMostOneChunk(lines: seq<Line>)
    requires |lines| <= 1
    ensures |Chunks(lines)| <= |lines|
  {
    if lines != [] {
      assert Chunks(lines[1..]) == [];
      assert lines[0].blank || lines[Length(lines)..] == [];
    }
  }

  lemma {:induction false} BlocksOfAppend(a: seq<Chunk>, b: seq<Chunk>)
    ensures BlocksOf(a + b) == BlocksOf(a) + BlocksOf(b)
    decreases |a|
  {
    if a == [] {
      assert a + b == b;
    } else {
      assert (a + b)[0] == a[0] && (a + b)[1..] == a[1..] + b;
      BlocksOfAppend(a[1..], b);
    }
  }

  lemma BlocksOfStart(a: seq<Chunk>, b: seq<Chunk>, drop: nat)
    requires AllBut(a, drop) <= b
    ensures AllBut(BlocksOf(a), drop) <= BlocksOf(b)
  {
    SameLength(a);
    if |a| > drop {
      var n := |a| - drop;
      BlocksOfTake(a, n);
      BlocksOfTake(b, n);
      assert a[..n] == b[..n];
    }
  }

  lemma BlocksOfTake(chunks: seq<Chunk>, n: nat)
    requires n <= |chunks|
    ensures n <= |BlocksOf(chunks)| && BlocksOf(chunks)[..n] == BlocksOf(chunks[..n])
  {
    assert chunks == chunks[..n] + chunks[n..];
    BlocksOfAppend(chunks[..n], chunks[n..]);
    SameLength(chunks[..n]);
  }

  lemma {:induction false} SameLength(chunks: seq<Chunk>)
    ensures |BlocksOf(chunks)| == |chunks|
    decreases |chunks|
  {
    if chunks != [] {
      SameLength(chunks[1..]);
    }
  }

  /** Whole lines arriving: every block but the last stays as it was. */
  lemma StableByLines(lines: seq<Line>, more: seq<Line>)
    ensures AllBut(Parse(lines), 1) <= Parse(lines + more)
  {
    StableUpTo(lines, lines + more, |lines|);
    BlocksOfStart(Chunks(lines), Chunks(lines + more), 1);
  }

  lemma {:induction false} NormalizedPrefix(p: string, s: string)
    requires p <= s
    ensures Normalized(p) <= Normalized(s)
    decreases |p|
  {
    if p != "" {
      assert p[0] == s[0];
      if p[0] == '\r' && |p| > 1 && p[1] == '\n' {
        assert p[2..] <= s[2..];
        NormalizedPrefix(p[2..], s[2..]);
      } else if |p| > 1 || p[0] != '\r' {
        assert p[1..] <= s[1..];
        NormalizedPrefix(p[1..], s[1..]);
      } else {
        assert Normalized(p) == "\n" + Normalized("");
      }
    }
  }

  /** Characters arriving, a line half-written or a `\r` parted from its `\n` included: every
      block but the last two stays as it was. */
  lemma StableByCharacters(shown: string, answer: string)
    requires shown <= answer
    ensures AllBut(Parse(Lines(shown)), 2) <= Parse(Lines(answer))
  {
    NormalizedPrefix(shown, answer);
    var ta, tb := Split(Normalized(shown), '\n'), Split(Normalized(answer), '\n');
    SplitOfPrefix(Normalized(shown), Normalized(answer), '\n');
    ReadAgrees(ta, tb, |ta| - 1);
    StableUpTo(ReadAll(ta), ReadAll(tb), |ta| - 1);
    BlocksOfStart(Chunks(ReadAll(ta)), Chunks(ReadAll(tb)), 2);
  }

  lemma ReadAgrees(ta: seq<string>, tb: seq<string>, k: nat)
    requires k <= |ta| && k <= |tb| && ta[..k] == tb[..k]
    ensures AgreeUpTo(ReadAll(ta), ReadAll(tb), k)
  {
    forall i | 0 <= i < k
      ensures ReadAll(ta)[i] == ReadAll(tb)[i]
    {
      assert ta[..k][i] == tb[..k][i];
    }
  }

  /** A line that is at most a bullet. */
  ghost predicate Opens(l: Line, bullet: Option<string>) {
    !l.blank && !l.fence && !l.rule && l.heading.None? && !l.pipe && l.numbered.None? && l.bullet == bullet
  }

  /** `- ` and one more character. */
  function ItemLine(c: char): string { ['-', ' ', c] }

  lemma ItemLineTrimmed(c: char)
    requires !IsSpace(c)
    ensures Trim(ItemLine(c)) == ItemLine(c)
  {
  }

  lemma ItemLineIsBullet(c: char)
    requires 'a' <= c <= 'z'
    ensures Opens(Read(ItemLine(c)), Some([c]))
  {
    ItemLineTrimmed(c);
    var t := ItemLine(c);
    assert t[1..] == [' ', c];
    assert [' ', c][1..] == [c];
    assert Leading([' ', c]) == 1;
    assert t[2..] == [c];
    assert BulletText(t) == Some([c]);
    assert Hashes(t) == 0 && NumberLength(t) == 0;
    assert c in t;
    assert !IsRule(t);
    assert t[0] == '-';
  }
  lemma DashIsProse()
    ensures var l := Read("-"); Opens(l, None) && !l.quote && l.trimmed == "-"
  {
    assert Trim("-") == "-";
  }

  lemma {:induction false} NoReturns(s: string)
    requires '\r' !in s
    ensures Normalized(s) == s
  {
    if s != "" {
      NoReturns(s[1..]);
    }
  }

  lemma ParseTwo(i: Line, d: Line, j: Line, a: string, c: string)
    requires Opens(i, Some(a))
    requires Opens(j, Some(c))
    requires Opens(d, None) && !d.quote
    ensures Parse([i, d]) == [List(false, [a]), Paragraph(d.trimmed)]
    ensures Parse([i, j]) == [List(false, [a, c])]
  {
    var x, y := [i, d], [i, j];
    ExtentIs(x, Items(false), 1);
    ExtentIs(y, Items(false), 2);
    OneBlock(x);
    OneBlock(y);
    assert x[..1] == [i] && x[1..] == [d] && y[..2] == y && y[2..] == [] && y[1..] == [j] && [i][1..] == []
        && [j][1..] == [];
    assert Parse([]) == [];
    assert [d][1..] == [];
    ExtentIs([], Prose, 0);
    OneBlock([d]);
    assert Pieces(Items(false), [i]) == [a];
    assert Pieces(Items(false), [j]) == [c];
    assert Pieces(Items(false), y) == [a, c];
  }

  lemma SplitTwo(first: string, second: string)
    requires '\r' !in first && '\n' !in first && '\r' !in second && '\n' !in second
    ensures Split(Normalized(first + "\n" + second), '\n') == [first, second]
  {
    var source := first + "\n" + second;
    NoReturns(source);
    assert source == first + ['\n'] + second;
    SplitAtSeparator(first, '\n', second);
    SplitWithout(second, '\n');
  }

  lemma ReadAt(texts: seq<string>, i: nat)
    requires i < |texts|
    ensures ReadAll(texts)[i] == Read(texts[i])
  {}

  lemma Both(lines: seq<Line>)
    requires |lines| == 2
    ensures lines == [lines[0], lines[1]]
  {}

  lemma ReadTwo(first: string, second: string)
    ensures ReadAll([first, second]) == [Read(first), Read(second)]
  {
    ReadAt([first, second], 0);
    ReadAt([first, second], 1);
    Both(ReadAll([first, second]));
  }

  lemma LinesOfTwo(first: string, second: string)
    requires '\r' !in first && '\n' !in first && '\r' !in second && '\n' !in second
    ensures Lines(first + "\n" + second) == [Read(first), Read(second)]
  {
    SplitTwo(first, second);
    ReadTwo(first, second);
  }

  lemma ShownParses(a: char)
    requires 'a' <= a <= 'z'
    ensures Parse(Lines(ItemLine(a) + "\n" + "-")) == [List(false, [[a]]), Paragraph("-")]
  {
    LinesOfTwo(ItemLine(a), "-");
    ItemLineIsBullet(a);
    DashIsProse();
    ParseTwo(Read(ItemLine(a)), Read("-"), Read(ItemLine(a)), [a], [a]);
  }

  lemma AnswerParses(a: char, c: char)
    requires 'a' <= a <= 'z' && 'a' <= c <= 'z'
    ensures Parse(Lines(ItemLine(a) + "\n" + ItemLine(c))) == [List(false, [[a], [c]])]
  {
    LinesOfTwo(ItemLine(a), ItemLine(c));
    ItemLineIsBullet(a);
    ItemLineIsBullet(c);
    DashIsProse();
    ParseTwo(Read(ItemLine(a)), Read("-"), Read(ItemLine(c)), [a], [c]);
  }

  /** Two is the least that will do: here the half-written third character decides whether the
      second line is a paragraph of its own or one more item of the list before it. */
  lemma TheLastButOneMayChange(a: char, c: char)
    requires 'a' <= a <= 'z' && 'a' <= c <= 'z'
    ensures ItemLine(a) + "\n" + "-" <= ItemLine(a) + "\n" + ItemLine(c)
    ensures Parse(Lines(ItemLine(a) + "\n" + "-")) == [List(false, [[a]]), Paragraph("-")]
    ensures Parse(Lines(ItemLine(a) + "\n" + ItemLine(c))) == [List(false, [[a], [c]])]
  {
    ShownParses(a);
    AnswerParses(a, c);
  }

  // ----- Parts kept apart by a blank line -----

  /** A line with nothing on it. */
  ghost predicate Gap(line: Line) { line.blank && Plausible(line) }

  lemma ExtentToGap(a: seq<Line>, gap: Line, b: seq<Line>, kind: Kind)
    requires Gap(gap) && (kind != InFence || Extent(a, kind) < |a|)
    ensures Extent(a + [gap] + b, kind) == Extent(a, kind)
  {
    var c := a + [gap] + b;
    ExtentMeans(a, kind);
    assert forall i | 0 <= i < |a| :: c[i] == a[i];
    assert c[|a|] == gap;
    ExtentIs(c, kind, Extent(a, kind));
  }

  /** The first block of `lines` is a code fence that nothing closes. */
  predicate OpensEndlessFence(lines: seq<Line>)
    requires lines != []
  {
    ShapeOf(lines) == Fenced && Extent(lines[1..], InFence) == |lines| - 1
  }

  lemma ChunkBeforeGap(a: seq<Line>, gap: Line, b: seq<Line>)
    requires Gap(gap) && a != [] && !OpensEndlessFence(a)
    ensures Length(a + [gap] + b) == Length(a) && FirstChunk(a + [gap] + b) == FirstChunk(a)
  {
    var c, shape := a + [gap] + b, ShapeOf(a);
    assert c[0] == a[0] && (|a| > 1 ==> c[1] == a[1]) && (|a| == 1 ==> c[1] == gap);
    assert ShapeOf(c) == shape;
    assert c[1..] == a[1..] + [gap] + b;
    match shape {
      case Fenced => ExtentToGap(a[1..], gap, b, InFence);
      case Ruled =>
      case Headed =>
      case Tabular =>
        assert c[2..] == a[2..] + [gap] + b;
        ExtentToGap(a[2..], gap, b, Piped);
      case Listed(ordered) => ExtentToGap(a, gap, b, Items(ordered));
      case Quoting => ExtentToGap(a, gap, b, Quoted);
      case Plain => ExtentToGap(a[1..], gap, b, Prose);
    }
    assert c[..Length(a)] == a[..Length(a)];
  }

  /** The text ends inside a code fence that nothing closes. */
  predicate EndsInFence(lines: seq<Line>)
    decreases |lines|
  {
    lines != []
    && if lines[0].blank then EndsInFence(lines[1..])
       else OpensEndlessFence(lines) || EndsInFence(lines[Length(lines)..])
  }

  lemma DropFront(a: seq<Line>, gap: Line, b: seq<Line>, n: nat)
    requires n <= |a| && a != []
    ensures (a + [gap] + b)[0] == a[0] && (a + [gap] + b)[n..] == a[n..] + [gap] + b
  {}

  lemma {:induction false} ChunksSeparate(a: seq<Line>, gap: Line, b: seq<Line>)
    requires Gap(gap) && !EndsInFence(a)
    ensures Chunks(a + [gap] + b) == Chunks(a) + Chunks(b)
    decreases |a|
  {
    var c := a + [gap] + b;
    if a == [] {
      assert c[0] == gap && c[1..] == b;
    } else {
      var n := if a[0].blank then 1 else Length(a);
      assert n <= |a|;
      DropFront(a, gap, b, n);
      if !a[0].blank {
        ChunkBeforeGap(a, gap, b);
      }
      ChunksSeparate(a[n..], gap, b);
    }
  }

  /** Two texts with a blank line between them parse as each would alone, if the first does
      not end inside a code fence. */
  lemma BlankLineSeparates(a: seq<Line>, gap: Line, b: seq<Line>)
    requires Gap(gap) && !EndsInFence(a)
    ensures Parse(a + [gap] + b) == Parse(a) + Parse(b)
  {
    ChunksSeparate(a, gap, b);
    BlocksOfAppend(Chunks(a), Chunks(b));
  }

  /** The text ends inside an open code fence that already holds a line. */
  predicate EndsInsideFence(lines: seq<Line>)
    decreases |lines|
  {
    lines != []
    && if lines[0].blank then EndsInsideFence(lines[1..])
       else if OpensEndlessFence(lines) then |lines| > 1
       else EndsInsideFence(lines[Length(lines)..])
  }

  lemma {:induction false} JoinLength(parts: seq<string>, more: seq<string>, sep: string)
    requires parts != [] && more != []
    ensures |Join(parts + more, sep)| == |Join(parts, sep)| + |sep| + |Join(more, sep)|
    decreases |parts|
  {
    var all := parts + more;
    assert all[0] == parts[0] && all[1..] == parts[1..] + more;
    if |parts| == 1 {
      assert all[1..] == more;
    } else {
      JoinLength(parts[1..], more, sep);
    }
  }

  lemma LongerExtent(body: seq<Line>, rest: seq<Line>)
    requires Extent(body, InFence) == |body|
    ensures Extent(body + rest, InFence) == |body| + Extent(rest, InFence)
  {
    var all, n := body + rest, |body| + Extent(rest, InFence);
    ExtentMeans(body, InFence);
    ExtentMeans(rest, InFence);
    forall i | 0 <= i < n
      ensures Continues(InFence, all[i])
    {
      assert all[i] == if i < |body| then body[i] else rest[i - |body|];
    }
    assert n < |all| ==> all[n] == rest[n - |body|];
    ExtentIs(all, InFence, n);
  }

  lemma LongerBody(body: seq<Line>, rest: seq<Line>)
    requires Extent(body, InFence) == |body|
    ensures Body(body + rest, InFence) == Pieces(InFence, body) + Body(rest, InFence)
  {
    var n := Extent(rest, InFence);
    LongerExtent(body, rest);
    TakeLonger(body, rest, n);
    PiecesAppend(InFence, body, rest[..n]);
    BodyIs(body + rest, InFence, |body| + n, body + rest[..n]);
  }

  lemma BodyIs(lines: seq<Line>, kind: Kind, n: nat, taken: seq<Line>)
    requires Extent(lines, kind) == n && lines[..n] == taken
    ensures Body(lines, kind) == Pieces(kind, taken)
  {
  }

  lemma TakeLonger(a: seq<Line>, b: seq<Line>, n: nat)
    requires n <= |b|
    ensures (a + b)[..|a| + n] == a + b[..n]
  {
  }

  /** A fence left open takes in the blank line and grows by it. */
  lemma FenceGrows(body: seq<Line>, rest: seq<Line>)
    requires body != [] && Extent(body, InFence) == |body|
    requires rest != [] && !rest[0].fence
    ensures Join(Body(body + rest, InFence), "\n") != Join(Body(body, InFence), "\n")
  {
    LongerBody(body, rest);
    assert body[..|body|] == body;
    assert rest[..Extent(rest, InFence)] != [];
    JoinLength(Pieces(InFence, body), Body(rest, InFence), "\n");
  }

  lemma EndlessFenceSwallows(a: seq<Line>, gap: Line, b: seq<Line>)
    requires Gap(gap) && |a| > 1 && !a[0].blank && OpensEndlessFence(a)
    ensures Parse(a + [gap] + b) != Parse(a) + Parse(b)
  {
    var c := a + [gap] + b;
    assert c[0] == a[0] && c[1..] == a[1..] + ([gap] + b);
    FenceGrows(a[1..], [gap] + b);
    assert ShapeOf(c) == Fenced;
    OneBlock(a);
    OneBlock(c);
    assert Parse(c)[0] == Render(Fenced, c) && (Parse(a) + Parse(b))[0] == Render(Fenced, a);
  }

  /** Inside an open fence that holds something already, the blank line is code: then the two
      texts never parse as each would alone. */
  lemma {:induction false} OpenFenceSwallows(a: seq<Line>, gap: Line, b: seq<Line>)
    requires Gap(gap) && EndsInsideFence(a)
    ensures Parse(a + [gap] + b) != Parse(a) + Parse(b)
    decreases |a|
  {
    var c := a + [gap] + b;
    var n := if a[0].blank then 1 else Length(a);
    assert c[0] == a[0] && c[n..] == a[n..] + [gap] + b;
    if a[0].blank {
      OpenFenceSwallows(a[1..], gap, b);
    } else if OpensEndlessFence(a) {
      EndlessFenceSwallows(a, gap, b);
    } else {
      ChunkBeforeGap(a, gap, b);
      OpenFenceSwallows(a[n..], gap, b);
      SameHead(BlockOf(FirstChunk(a)), Parse(c[n..]), Parse(a[n..]), Parse(b));
      FirstThenRest(a);
      FirstThenRest(c);
    }
  }

  lemma FirstThenRest(lines: seq<Line>)
    requires lines != [] && !lines[0].blank
    ensures Parse(lines) == [BlockOf(FirstChunk(lines))] + Parse(lines[Length(lines)..])
  {
    assert Chunks(lines)[1..] == Chunks(lines[Length(lines)..]);
  }

  lemma SameHead(head: Block, x: seq<Block>, y: seq<Block>, z: seq<Block>)
    requires x != y + z
    ensures [head] + x != [head] + y + z
  {
    assert ([head] + x)[1..] == x && ([head] + y + z)[1..] == y + z;
  }
}
