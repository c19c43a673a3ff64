/** Every verdict of the limiter, said from the requests alone: no table, no pruning, no counter. */
module RateVerdicts {
  import opened RateLimit
  import opened Options

  /** The limiter looks at neither of these, nor at anything when it is switched off. */
  predicate Exempt(limit: int, r: Request) {
    limit <= 0 || r.path == "/api/v1/health" || r.path == "/api/v1/ready"
  }

  /** When one caller's requests that are not exempt came. */
  function OwnTimes(limit: int, caller: string, rs: seq<Request>): seq<real> {
    if rs == [] then []
    else
      var last := rs[|rs| - 1];
      OwnTimes(limit, caller, rs[..|rs| - 1]) + if !Exempt(limit, last) && last.caller == caller then [last.now] else []
  }

  /** Which of the requests opened the minute that the `k`th falls in: itself, if a minute has passed since
      the one before it opened, and otherwise that same one. */
  function OpenedBy(times: seq<real>, k: nat): (o: nat)
    requires k < |times|
    ensures o <= k
  {
    if k == 0 then 0
    else
      var o := OpenedBy(times, k - 1);
      if times[k] - times[o] >= 60.0 then k else o
  }

  // ----- The table behind a verdict -----

  function TableAfter(limit: int, rs: seq<Request>): Counters {
    if rs == [] then map[] else Next(limit, TableAfter(limit, rs[..|rs| - 1]), rs[|rs| - 1], false)
  }

  lemma {:induction false} VerdictsAppend(limit: int, counters: Counters, a: seq<Request>, r: Request, b: seq<Request>,
                                          at: Counters)
    requires at == Passed(limit, counters, a)
    ensures Verdicts(limit, counters, a + [r] + b, false)[|a|] == Decide(limit, at, r)
    decreases |a|
  {
    var all := a + [r] + b;
    if a == [] {
      assert all[0] == r;
    } else {
      assert all[0] == a[0] && all[1..] == a[1..] + [r] + b;
      VerdictsAppend(limit, Next(limit, counters, a[0], false), a[1..], r, b, at);
    }
  }

  function Passed(limit: int, counters: Counters, rs: seq<Request>): Counters
    decreases |rs|
  {
    if rs == [] then counters else Passed(limit, Next(limit, counters, rs[0], false), rs[1..])
  }

  lemma {:induction false} PassedAppend(limit: int, counters: Counters, rs: seq<Request>, r: Request)
    ensures Passed(limit, counters, rs + [r]) == Next(limit, Passed(limit, counters, rs), r, false)
    decreases |rs|
  {
    if rs == [] {
      assert ([r])[1..] == [] && rs + [r] == [r];
    } else {
      assert (rs + [r])[0] == rs[0] && (rs + [r])[1..] == rs[1..] + [r];
      PassedAppend(limit, Next(limit, counters, rs[0], false), rs[1..], r);
    }
  }

  lemma {:induction false} PassedIsTable(limit: int, rs: seq<Request>)
    ensures Passed(limit, map[], rs) == TableAfter(limit, rs)
    decreases |rs|
  {
    if rs != [] {
      var front, last := rs[..|rs| - 1], rs[|rs| - 1];
      assert rs == front + [last];
      PassedIsTable(limit, front);
      PassedAppend(limit, map[], front, last);
    }
  }

  /** The window a caller is in after these times. */
  function WindowAfter(times: seq<real>): Option<Window> {
    if times == [] then None else Some(Count(WindowAfter(times[..|times| - 1]), times[|times| - 1]))
  }

  lemma ExemptIsUncounted(limit: int, r: Request)
    ensures Counted(limit, r) <==> !Exempt(limit, r)
  {
    assert r.path in ExemptPaths <==> r.path == ExemptPaths[0] || r.path == ExemptPaths[1];
  }

  lemma {:induction false} TableHoldsWindow(limit: int, rs: seq<Request>, caller: string)
    ensures Lookup(TableAfter(limit, rs), caller) == WindowAfter(OwnTimes(limit, caller, rs))
    decreases |rs|
  {
    if rs != [] {
      var front, last := rs[..|rs| - 1], rs[|rs| - 1];
      TableHoldsWindow(limit, front, caller);
      ExemptIsUncounted(limit, last);
      var before := OwnTimes(limit, caller, front);
      assert (before + [last.now])[..|before|] == before;
      assert before + [] == before;
    }
  }

  lemma {:induction false} OpenedByPrefix(times: seq<real>, more: seq<real>, k: nat)
    requires k < |times|
    ensures OpenedBy(times + more, k) == OpenedBy(times, k)
  {
    if k > 0 {
      OpenedByPrefix(times, more, k - 1);
    }
  }

  lemma {:induction false} WindowIs(times: seq<real>)
    requires times != []
    ensures var o := OpenedBy(times, |times| - 1); WindowAfter(times) == Some(Window(times[o], |times| - o))
    decreases |times|
  {
    var n := |times| - 1;
    if n > 0 {
      var front := times[..n];
      WindowIs(front);
      assert times == front + times[n..];
      OpenedByPrefix(front, times[n..], n - 1);
    } else {
      assert times[..n] == [];
    }
  }

  // ----- The verdicts -----

  /** The verdict on the last of one caller's requests at these times. */
  function VerdictOn(limit: int, times: seq<real>): Verdict
    requires times != []
  {
    var k := |times| - 1;
    var o := OpenedBy(times, k);
    if k - o < limit then Admit
    else
      var left := (60.0 - (times[k] - times[o])).Floor;
      Reject(if left < 1 then 1 else left)
  }

  lemma LastIsJudged(limit: int, front: seq<real>, now: real)
    ensures Judge(limit, Count(WindowAfter(front), now), now) == VerdictOn(limit, front + [now])
  {
    var times := front + [now];
    assert times[..|front|] == front;
    WindowIs(times);
  }

  lemma LastIsOwn(limit: int, rs: seq<Request>, r: Request)
    requires !Exempt(limit, r)
    ensures OwnTimes(limit, r.caller, rs + [r]) == OwnTimes(limit, r.caller, rs) + [r.now]
  {
    assert (rs + [r])[..|rs|] == rs;
  }

  /** A request that is exempt is admitted. Any other is refused if and only if its caller has already made
      `limit` requests, the exempt ones not counted, since the one that opened the minute it falls in; and it
      is told to wait for the whole seconds left of that minute, one at least. */
  lemma EveryVerdict(limit: int, rs: seq<Request>, i: nat)
    requires Ordered(rs) && i < |rs|
    ensures Verdicts(limit, map[], rs, true)[i] ==
            if Exempt(limit, rs[i]) then Admit else VerdictOn(limit, OwnTimes(limit, rs[i].caller, rs[..i + 1]))
  {
    var front, r := rs[..i], rs[i];
    PruningIsInvisible(limit, rs);
    assert rs == front + [r] + rs[i + 1..];
    PassedIsTable(limit, front);
    VerdictsAppend(limit, map[], front, r, rs[i + 1..], TableAfter(limit, front));
    ExemptIsUncounted(limit, r);
    if !Exempt(limit, r) {
      TableHoldsWindow(limit, front, r.caller);
      LastIsOwn(limit, front, r);
      LastIsJudged(limit, OwnTimes(limit, r.caller, front), r.now);
      assert rs[..i + 1] == front + [r];
    }
  }

  /** Once more than ten thousand callers are remembered, a request that counts leaves those whose minute
      opened in the last sixty seconds, and no others; until then all are kept. */
  lemma RememberedExactly(limit: int, counters: Counters, r: Request, caller: string)
    requires !Exempt(limit, r)
    ensures var noted := counters[r.caller := Count(Lookup(counters, r.caller), r.now)];
            caller in Next(limit, counters, r, true) <==>
              caller in noted && (|noted| > 10000 ==> noted[caller].start >= r.now - 60.0)
  {
    ExemptIsUncounted(limit, r);
  }
}
