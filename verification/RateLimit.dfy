/** The per-caller request limit: a fixed sixty-second window in a table that is pruned. */
module RateLimit {
  import opened Options

  const WindowSeconds := 60.0
  const PruneAbove := 10000
  const ExemptPaths := ["/api/v1/health", "/api/v1/ready"]

  datatype Window = Window(start: real, count: nat)

  type Counters = map<string, Window>

  datatype Request = Request(path: string, caller: string, now: real)

  datatype Verdict = Admit | Reject(retryAfter: int)

  predicate Counted(limit: int, r: Request) { limit > 0 && r.path !in ExemptPaths }

  // ----- One caller -----

  /** The caller's window once a request at `now` is counted. */
  function Count(w: Option<Window>, now: real): (v: Window)
    ensures v.count >= 1
  {
    if w.None? || now - w.value.start >= WindowSeconds then Window(now, 1)
    else Window(w.value.start, w.value.count + 1)
  }

  function Judge(limit: int, w: Window, now: real): Verdict {
    if w.count > limit then
      var left := (WindowSeconds - (now - w.start)).Floor;
      Reject(if left > 1 then left else 1)
    else Admit
  }

  /** The verdicts of one caller alone, from that caller's times alone. */
  function OwnVerdicts(limit: int, w: Option<Window>, times: seq<real>): (verdicts: seq<Verdict>)
    ensures |verdicts| == |times|
    decreases |times|
  {
    if times == [] then []
    else
      var v := Count(w, times[0]);
      [Judge(limit, v, times[0])] + OwnVerdicts(limit, Some(v), times[1..])
  }

  // ----- The table -----

  function Lookup(counters: Counters, caller: string): Option<Window> {
    if caller in counters then Some(counters[caller]) else None
  }

  function Noted(counters: Counters, r: Request): Counters {
    counters[r.caller := Count(Lookup(counters, r.caller), r.now)]
  }

  function Pruned(counters: Counters, now: real): Counters {
    if |counters| > PruneAbove then
      map k | k in counters && counters[k].start >= now - WindowSeconds :: counters[k]
    else counters
  }

  function Next(limit: int, counters: Counters, r: Request, prune: bool): Counters {
    if !Counted(limit, r) then counters
    else if prune then Pruned(Noted(counters, r), r.now)
    else Noted(counters, r)
  }

  function Decide(limit: int, counters: Counters, r: Request): Verdict {
    if !Counted(limit, r) then Admit else Judge(limit, Count(Lookup(counters, r.caller), r.now), r.now)
  }

  function Verdicts(limit: int, counters: Counters, rs: seq<Request>, prune: bool): (verdicts: seq<Verdict>)
    ensures |verdicts| == |rs|
    decreases |rs|
  {
    if rs == [] then []
    else [Decide(limit, counters, rs[0])] + Verdicts(limit, Next(limit, counters, rs[0], prune), rs[1..], prune)
  }

  /** The middleware: a table read, overwritten and now and then rebuilt. */
  class RateLimiter {
    const limit: int
    var counters: Counters

    constructor (requestsPerMinute: int)
      ensures limit == requestsPerMinute && counters == map[]
    {
      limit := requestsPerMinute;
      counters := map[];
    }

    method Dispatch(r: Request) returns (verdict: Verdict)
      modifies this
      ensures verdict == Decide(limit, old(counters), r)
      ensures counters == Next(limit, old(counters), r, true)
    {
      if limit <= 0 || r.path in ExemptPaths {
        return Admit;
      }
      var windowStart, count := r.now, 0;
      if r.caller in counters {
        windowStart, count := counters[r.caller].start, counters[r.caller].count;
      }
      if r.now - windowStart >= WindowSeconds {
        windowStart, count := r.now, 0;
      }
      count := count + 1;
      counters := counters[r.caller := Window(windowStart, count)];
      if |counters| > PruneAbove {
        var cutoff := r.now - WindowSeconds;
        counters := map k | k in counters && counters[k].start >= cutoff :: counters[k];
      }
      if count > limit {
        var left := (WindowSeconds - (r.now - windowStart)).Floor;
        return Reject(if left > 1 then left else 1);
      }
      return Admit;
    }
  }

  // ----- Pruning is invisible -----

  /** The clock never goes back. */
  predicate Ordered(rs: seq<Request>) {
    forall i, j | 0 <= i < j < |rs| :: rs[i].now <= rs[j].now
  }

  /** What pruning may have lost is only windows that have expired by `now`. */
  ghost predicate SameBut(pruned: Counters, full: Counters, now: real) {
    && (forall k | k in pruned :: k in full && full[k] == pruned[k])
    && (forall k | k in full && k !in pruned :: now - full[k].start >= WindowSeconds)
  }

  lemma SameNext(limit: int, pruned: Counters, full: Counters, r: Request)
    requires SameBut(pruned, full, r.now)
    ensures Decide(limit, pruned, r) == Decide(limit, full, r)
    ensures SameBut(Next(limit, pruned, r, true), Next(limit, full, r, false), r.now)
  {
    assert Count(Lookup(pruned, r.caller), r.now) == Count(Lookup(full, r.caller), r.now);
  }

  lemma {:induction false} SameVerdicts(limit: int, pruned: Counters, full: Counters, rs: seq<Request>)
    requires Ordered(rs) && (rs != [] ==> SameBut(pruned, full, rs[0].now))
    ensures Verdicts(limit, pruned, rs, true) == Verdicts(limit, full, rs, false)
    decreases |rs|
  {
    if rs != [] {
      SameNext(limit, pruned, full, rs[0]);
      SameVerdicts(limit, Next(limit, pruned, rs[0], true), Next(limit, full, rs[0], false), rs[1..]);
    }
  }

  /** No request sequence can tell the pruned table from one that is never pruned. */
  lemma PruningIsInvisible(limit: int, rs: seq<Request>)
    requires Ordered(rs)
    ensures Verdicts(limit, map[], rs, true) == Verdicts(limit, map[], rs, false)
  {
    SameVerdicts(limit, map[], map[], rs);
  }

  // ----- A caller's verdicts are that caller's own -----

  predicate Mine(limit: int, r: Request, caller: string) { Counted(limit, r) && r.caller == caller }

  function TimesOf(limit: int, caller: string, rs: seq<Request>): seq<real> {
    if rs == [] then []
    else (if Mine(limit, rs[0], caller) then [rs[0].now] else []) + TimesOf(limit, caller, rs[1..])
  }

  function VerdictsOf(limit: int, caller: string, rs: seq<Request>, verdicts: seq<Verdict>): seq<Verdict>
    requires |rs| == |verdicts|
  {
    if rs == [] then []
    else (if Mine(limit, rs[0], caller) then [verdicts[0]] else []) + VerdictsOf(limit, caller, rs[1..], verdicts[1..])
  }

  lemma {:induction false} UnprunedIsOwn(limit: int, counters: Counters, rs: seq<Request>, caller: string)
    ensures VerdictsOf(limit, caller, rs, Verdicts(limit, counters, rs, false))
         == OwnVerdicts(limit, Lookup(counters, caller), TimesOf(limit, caller, rs))
    decreases |rs|
  {
    if rs != [] {
      var next := Next(limit, counters, rs[0], false);
      UnprunedIsOwn(limit, next, rs[1..], caller);
      assert Verdicts(limit, counters, rs, false)[1..] == Verdicts(limit, next, rs[1..], false);
      var later := TimesOf(limit, caller, rs[1..]);
      if Mine(limit, rs[0], caller) {
        assert ([rs[0].now] + later)[1..] == later;
        assert Lookup(next, caller) == Some(Count(Lookup(counters, caller), rs[0].now));
      } else {
        assert [] + later == later;
        assert Lookup(next, caller) == Lookup(counters, caller);
      }
    }
  }

  /** The limiter's verdicts on one caller are a function of that caller's own request times,
      whatever everyone else sends and whenever the table is pruned. */
  lemma VerdictsAreOwn(limit: int, rs: seq<Request>, caller: string)
    requires Ordered(rs)
    ensures VerdictsOf(limit, caller, rs, Verdicts(limit, map[], rs, true))
         == OwnVerdicts(limit, None, TimesOf(limit, caller, rs))
  {
    PruningIsInvisible(limit, rs);
    UnprunedIsOwn(limit, map[], rs, caller);
  }

  // ----- How many are admitted -----

  predicate OrderedTimes(times: seq<real>) {
    forall i, j | 0 <= i < j < |times| :: times[i] <= times[j]
  }

  /** How many of the requests in `[lo, hi)` were admitted. */
  function AdmittedIn(times: seq<real>, verdicts: seq<Verdict>, lo: real, hi: real): nat
    requires |times| == |verdicts|
  {
    if times == [] then 0
    else (if lo <= times[0] < hi && verdicts[0].Admit? then 1 else 0) + AdmittedIn(times[1..], verdicts[1..], lo, hi)
  }

  /** The same, counted along the run. */
  function Admitted(limit: int, w: Option<Window>, times: seq<real>, lo: real, hi: real): nat
    decreases |times|
  {
    if times == [] then 0
    else
      var v := Count(w, times[0]);
      (if lo <= times[0] < hi && v.count <= limit then 1 else 0) + Admitted(limit, Some(v), times[1..], lo, hi)
  }

  lemma {:induction false} AdmittedAlongTheRun(limit: int, w: Option<Window>, times: seq<real>, lo: real, hi: real)
    ensures AdmittedIn(times, OwnVerdicts(limit, w, times), lo, hi) == Admitted(limit, w, times, lo, hi)
    decreases |times|
  {
    if times != [] {
      var v := Count(w, times[0]);
      AdmittedAlongTheRun(limit, Some(v), times[1..], lo, hi);
      assert OwnVerdicts(limit, w, times)[1..] == OwnVerdicts(limit, Some(v), times[1..]);
    }
  }

  function Left(limit: int, w: Window): nat { if w.count < limit then limit - w.count else 0 }

  lemma {:induction false} NoneAfter(limit: int, w: Option<Window>, times: seq<real>, lo: real, hi: real)
    requires forall t | t in times :: t >= hi
    ensures Admitted(limit, w, times, lo, hi) == 0
    decreases |times|
  {
    if times != [] {
      assert times[0] in times && forall t | t in times[1..] :: t in times;
      NoneAfter(limit, Some(Count(w, times[0])), times[1..], lo, hi);
    }
  }

  /** A window that opened inside the interval outlasts it. */
  lemma {:induction false} WindowOpenedInside(limit: int, w: Window, times: seq<real>, lo: real)
    requires OrderedTimes(times) && w.start >= lo
    ensures Admitted(limit, Some(w), times, lo, lo + WindowSeconds) <= Left(limit, w)
    decreases |times|
  {
    if times != [] {
      if times[0] - w.start >= WindowSeconds {
        NoneAfter(limit, Some(w), times, lo, lo + WindowSeconds);
      } else {
        WindowOpenedInside(limit, Count(Some(w), times[0]), times[1..], lo);
      }
    }
  }

  /** Once inside the interval, a window opened before it gives what it has left, and one more
      window may open. */
  lemma {:induction false} WindowOpenedBefore(limit: int, w: Window, times: seq<real>, lo: real)
    requires OrderedTimes(times) && limit > 0 && forall t | t in times :: t >= lo
    ensures Admitted(limit, Some(w), times, lo, lo + WindowSeconds) <= Left(limit, w) + limit
    decreases |times|
  {
    if times != [] {
      assert times[0] in times;
      var v := Count(Some(w), times[0]);
      if times[0] - w.start >= WindowSeconds {
        WindowOpenedInside(limit, v, times[1..], lo);
      } else {
        WindowOpenedBefore(limit, v, times[1..], lo);
      }
    }
  }

  lemma {:induction false} AtMostTwiceLessOne(limit: int, w: Option<Window>, times: seq<real>, lo: real)
    requires OrderedTimes(times) && limit > 0 && (w.Some? ==> w.value.count >= 1 && w.value.start < lo)
    ensures Admitted(limit, w, times, lo, lo + WindowSeconds) <= 2 * limit - 1
    decreases |times|
  {
    if times != [] {
      var v := Count(w, times[0]);
      if times[0] < lo {
        AtMostTwiceLessOne(limit, Some(v), times[1..], lo);
      } else if w.None? {
        WindowOpenedInside(limit, v, times[1..], lo);
      } else {
        WindowOpenedBefore(limit, w.value, times, lo);
      }
    }
  }

  lemma {:induction false} TimesFrom(limit: int, caller: string, rs: seq<Request>, now: real)
    requires forall i | 0 <= i < |rs| :: now <= rs[i].now
    ensures forall i | 0 <= i < |TimesOf(limit, caller, rs)| :: now <= TimesOf(limit, caller, rs)[i]
    decreases |rs|
  {
    if rs != [] {
      TimesFrom(limit, caller, rs[1..], now);
    }
  }

  lemma {:induction false} TimesAreOrdered(limit: int, caller: string, rs: seq<Request>)
    requires Ordered(rs)
    ensures OrderedTimes(TimesOf(limit, caller, rs))
    decreases |rs|
  {
    if rs != [] {
      TimesAreOrdered(limit, caller, rs[1..]);
      TimesFrom(limit, caller, rs[1..], rs[0].now);
    }
  }

  /** In any sixty seconds, one caller is admitted at most `2 * limit - 1` times. */
  lemma SlidingBound(limit: int, rs: seq<Request>, caller: string, lo: real)
    requires Ordered(rs) && limit > 0
    ensures var times := TimesOf(limit, caller, rs);
            var verdicts := VerdictsOf(limit, caller, rs, Verdicts(limit, map[], rs, true));
            |times| == |verdicts| && AdmittedIn(times, verdicts, lo, lo + WindowSeconds) <= 2 * limit - 1
  {
    VerdictsAreOwn(limit, rs, caller);
    TimesAreOrdered(limit, caller, rs);
    var times := TimesOf(limit, caller, rs);
    AdmittedAlongTheRun(limit, None, times, lo, lo + WindowSeconds);
    AtMostTwiceLessOne(limit, None, times, lo);
  }

  // ----- The bound is met -----

  function Times(n: nat, t: real): seq<real> { if n == 0 then [] else [t] + Times(n - 1, t) }

  /** One request, the rest of the window's at its very end, and a full window after it. */
  function Burst(limit: nat): seq<real>
    requires limit > 0
  {
    [0.0] + Times(limit - 1, 59.0) + Times(limit, 60.0)
  }

  lemma {:induction false} AllOfThem(limit: int, w: Window, n: nat, t: real, rest: seq<real>, lo: real, hi: real)
    requires w.count + n <= limit && w.start <= t < w.start + WindowSeconds && lo <= t < hi
    ensures Admitted(limit, Some(w), Times(n, t) + rest, lo, hi)
         == n + Admitted(limit, Some(Window(w.start, w.count + n)), rest, lo, hi)
    decreases n
  {
    if n == 0 {
      assert Times(0, t) + rest == rest;
    } else {
      var v := Window(w.start, w.count + 1);
      assert (Times(n, t) + rest)[1..] == Times(n - 1, t) + rest;
      AllOfThem(limit, v, n - 1, t, rest, lo, hi);
    }
  }

  lemma BurstIsOrdered(limit: nat)
    requires limit > 0
    ensures OrderedTimes(Burst(limit))
  {
    SameTimes(limit - 1, 59.0);
    SameTimes(limit, 60.0);
  }

  lemma FullWindow(limit: nat)
    requires limit > 0
    ensures Admitted(limit, Some(Window(0.0, limit)), Times(limit, 60.0), 59.0, 119.0) == limit
  {
    var more := Times(limit - 1, 60.0);
    var all := Times(limit, 60.0);
    assert all == [60.0] + more && all[1..] == more;
    assert Count(Some(Window(0.0, limit)), 60.0) == Window(60.0, 1);
    AllOfThem(limit, Window(60.0, 1), limit - 1, 60.0, [], 59.0, 119.0);
    assert more + [] == more;
  }

  lemma BurstIsAdmitted(limit: nat)
    requires limit > 0
    ensures Admitted(limit, None, Burst(limit), 59.0, 59.0 + WindowSeconds) == 2 * limit - 1
  {
    var end := Times(limit, 60.0);
    var tail := Times(limit - 1, 59.0) + end;
    assert Burst(limit) == [0.0] + tail && Burst(limit)[1..] == tail;
    AllOfThem(limit, Window(0.0, 1), limit - 1, 59.0, end, 59.0, 119.0);
    FullWindow(limit);
  }

  /** One caller's requests at these times, to a path that is not exempt. */
  function Requests(caller: string, times: seq<real>): (rs: seq<Request>)
    ensures |rs| == |times|
    ensures forall i | 0 <= i < |times| :: rs[i].now == times[i]
  {
    if times == [] then [] else [Request("", caller, times[0])] + Requests(caller, times[1..])
  }

  lemma {:induction false} TimesOfRequests(limit: nat, caller: string, times: seq<real>)
    requires limit > 0
    ensures TimesOf(limit, caller, Requests(caller, times)) == times
    decreases |times|
  {
    if times != [] {
      TimesOfRequests(limit, caller, times[1..]);
      assert "" !in ExemptPaths;
      assert Requests(caller, times)[1..] == Requests(caller, times[1..]);
    }
  }

  /** No smaller bound holds: whatever the limit, some sequence of requests to the pruned table has
      `2 * limit - 1` of one caller's admitted within sixty seconds. */
  lemma BoundIsMet(limit: nat, caller: string)
    requires limit > 0
    ensures var rs := Requests(caller, Burst(limit));
            var times := TimesOf(limit, caller, rs);
            var verdicts := VerdictsOf(limit, caller, rs, Verdicts(limit, map[], rs, true));
            && Ordered(rs) && |times| == |verdicts|
            && AdmittedIn(times, verdicts, 59.0, 59.0 + WindowSeconds) == 2 * limit - 1
  {
    var rs := Requests(caller, Burst(limit));
    BurstIsOrdered(limit);
    TimesOfRequests(limit, caller, Burst(limit));
    VerdictsAreOwn(limit, rs, caller);
    AdmittedAlongTheRun(limit, None, Burst(limit), 59.0, 59.0 + WindowSeconds);
    BurstIsAdmitted(limit);
  }

  lemma {:induction false} SameTimes(n: nat, t: real)
    ensures |Times(n, t)| == n && forall i | 0 <= i < n :: Times(n, t)[i] == t
  {
    if n > 0 {
      SameTimes(n - 1, t);
    }
  }

  // ----- Windows -----

  /** The window each request was counted in. */
  function Windows(w: Option<Window>, times: seq<real>): (windows: seq<Window>)
    ensures |windows| == |times|
    decreases |times|
  {
    if times == [] then []
    else
      var v := Count(w, times[0]);
      [v] + Windows(Some(v), times[1..])
  }

  /** How many requests were admitted in the window that opened at `start`. */
  function AdmittedInWindow(windows: seq<Window>, verdicts: seq<Verdict>, start: real): nat
    requires |windows| == |verdicts|
  {
    if windows == [] then 0
    else
      (if windows[0].start == start && verdicts[0].Admit? then 1 else 0)
      + AdmittedInWindow(windows[1..], verdicts[1..], start)
  }

  lemma {:induction false} WindowBoundFrom(limit: int, w: Option<Window>, times: seq<real>, start: real)
    requires OrderedTimes(times) && limit > 0
    requires w.Some? ==> forall t | t in times :: w.value.start <= t
    ensures AdmittedInWindow(Windows(w, times), OwnVerdicts(limit, w, times), start)
         <= if w.None? || w.value.start < start then limit
            else if w.value.start == start then Left(limit, w.value)
            else 0
    decreases |times|
  {
    if times != [] {
      assert times[0] in times;
      var v := Count(w, times[0]);
      assert Windows(w, times)[1..] == Windows(Some(v), times[1..]);
      assert OwnVerdicts(limit, w, times)[1..] == OwnVerdicts(limit, Some(v), times[1..]);
      WindowBoundFrom(limit, Some(v), times[1..], start);
    }
  }

  /** One window admits one caller at most `limit` times. */
  lemma WindowBound(limit: int, rs: seq<Request>, caller: string, start: real)
    requires Ordered(rs) && limit > 0
    ensures var windows := Windows(None, TimesOf(limit, caller, rs));
            var verdicts := VerdictsOf(limit, caller, rs, Verdicts(limit, map[], rs, true));
            |windows| == |verdicts| && AdmittedInWindow(windows, verdicts, start) <= limit
  {
    VerdictsAreOwn(limit, rs, caller);
    TimesAreOrdered(limit, caller, rs);
    WindowBoundFrom(limit, None, TimesOf(limit, caller, rs), start);
  }

  /** A refusal asks for at least one second and at most sixty. */
  lemma {:induction false} RetryAfterWithinAMinute(limit: int, counters: Counters, rs: seq<Request>)
    requires Ordered(rs) && (rs != [] ==> forall k | k in counters :: counters[k].start <= rs[0].now)
    ensures forall v | v in Verdicts(limit, counters, rs, true) && v.Reject? :: 1 <= v.retryAfter <= 60
    decreases |rs|
  {
    if rs != [] {
      RetryAfterWithinAMinute(limit, Next(limit, counters, rs[0], true), rs[1..]);
    }
  }
}
