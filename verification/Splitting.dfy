/** `split` and `join`, which JavaScript and Python agree on for a one-character separator. */
module Splitting {
  /** `split` on one character: one more part than there are separators. */
  function Split(s: string, sep: char): (parts: seq<string>)
    ensures parts != []
  {
    if s == "" then [""]
    else if s[0] == sep then [""] + Split(s[1..], sep)
    else
      var parts := Split(s[1..], sep);
      [[s[0]] + parts[0]] + parts[1..]
  }

  function Join(parts: seq<string>, sep: string): string {
    if parts == [] then ""
    else if |parts| == 1 then parts[0]
    else parts[0] + sep + Join(parts[1..], sep)
  }

  lemma {:induction false} SplitWithout(s: string, sep: char)
    requires sep !in s
    ensures Split(s, sep) == [s]
    decreases |s|
  {
    if s != "" {
      SplitWithout(s[1..], sep);
      assert [s[0]] + s[1..] == s;
    }
  }

  lemma {:induction false} SplitAtSeparator(s: string, sep: char, t: string)
    requires sep !in s
    ensures Split(s + [sep] + t, sep) == [s] + Split(t, sep)
    decreases |s|
  {
    var whole := s + [sep] + t;
    if s == "" {
      assert whole[1..] == t;
    } else {
      assert whole[1..] == s[1..] + [sep] + t;
      SplitAtSeparator(s[1..], sep, t);
      assert [s[0]] + s[1..] == s;
    }
  }

  /** Splitting what was joined gives the parts back, when no part holds the separator. */
  lemma {:induction false} SplitJoin(parts: seq<string>, sep: char)
    requires parts != [] && forall i | 0 <= i < |parts| :: sep !in parts[i]
    ensures Split(Join(parts, [sep]), sep) == parts
    decreases |parts|
  {
    if |parts| == 1 {
      SplitWithout(parts[0], sep);
    } else {
      SplitAtSeparator(parts[0], sep, Join(parts[1..], [sep]));
      SplitJoin(parts[1..], sep);
    }
  }

  /** Extending a text changes at most the last of its parts. */
  lemma {:induction false} SplitOfPrefix(a: string, b: string, sep: char)
    requires a <= b
    ensures |Split(a, sep)| <= |Split(b, sep)|
    ensures Split(a, sep)[..|Split(a, sep)| - 1] == Split(b, sep)[..|Split(a, sep)| - 1]
    decreases |a|
  {
    if a != "" {
      assert a[0] == b[0] && a[1..] <= b[1..];
      SplitOfPrefix(a[1..], b[1..], sep);
      var pa, pb := Split(a[1..], sep), Split(b[1..], sep);
      if a[0] == sep {
        assert Split(a, sep)[..|Split(a, sep)| - 1] == [""] + pa[..|pa| - 1];
        assert Split(b, sep)[..|Split(a, sep)| - 1] == [""] + pb[..|pa| - 1];
      } else if |pa| > 1 {
        assert pa[..|pa| - 1][0] == pb[..|pa| - 1][0];
        assert pa[..|pa| - 1][1..] == pb[..|pa| - 1][1..];
        assert Split(a, sep)[..|pa| - 1] == [[a[0]] + pa[0]] + pa[..|pa| - 1][1..];
        assert Split(b, sep)[..|pa| - 1] == [[b[0]] + pb[0]] + pb[..|pa| - 1][1..];
      }
    }
  }
}
