/** The fixed-window rate limiter of provider admission, over whole runs. */
module RateLimit {
  import opened Text
  import opened Numbers

  datatype Limit = Limit(maxRequests: U32, windowMs: nat)
  datatype Window = Window(started: nat, count: U32)
  datatype Decision = Admitted | Refused(retryAfterMs: nat)

  /** The window a call at `now` counts in: the adapter's, a new one, or the old one started over. */
  function Current(windows: map<string, Window>, adapter: string, limit: Limit, now: nat): Window {
    var w := if adapter in windows then windows[adapter] else Window(now, 0);
    if Elapsed(now, w.started) >= limit.windowMs then Window(now, 0) else w
  }

  /** `admit_rate_limit` */
  function Admit(
    windows: map<string, Window>, adapter: string, limit: Option<Limit>, now: nat): (map<string, Window>, Decision) {
    if limit.None? then (windows, Admitted)
    else
      var w := Current(windows, adapter, limit.value, now);
      if w.count >= limit.value.maxRequests then
        (windows[adapter := w], Refused(Elapsed(limit.value.windowMs, Elapsed(now, w.started))))
      else
        // the saturating increment never saturates: the count is below a limit of the same width
        (windows[adapter := w.(count := w.count + 1)], Admitted)
  }

  class RateLimiter {
    var windows: map<string, Window>

    constructor ()
      ensures windows == map[]
    {
      windows := map[];
    }

    method AdmitRateLimit(adapter: string, limit: Option<Limit>, now: nat) returns (d: Decision)
      modifies this
      ensures (windows, d) == Admit(old(windows), adapter, limit, now)
    {
      if limit.None? { return Admitted; }
      var w := if adapter in windows then windows[adapter] else Window(now, 0);
      if Elapsed(now, w.started) >= limit.value.windowMs { w := Window(now, 0); }
      windows := windows[adapter := w];
      if w.count >= limit.value.maxRequests {
        return Refused(Elapsed(limit.value.windowMs, Elapsed(now, w.started)));
      }
      var counted := w.(count := w.count + 1);
      assert windows[adapter := counted] == old(windows)[adapter := counted];
      windows := windows[adapter := counted];
      return Admitted;
    }
  }

  // ---------------------------------------------------------------- runs

  datatype Call = Call(adapter: string, now: nat)
  datatype Admission = Admission(time: nat, window: nat)

  /** The windows of all adapters, and for one of them when its windows started and what was admitted in each. */
  datatype History = History(windows: map<string, Window>, starts: seq<nat>, admitted: seq<Admission>)

  /** One call in a run where each adapter has a fixed limit. */
  function Extend(h: History, call: Call, limits: string -> Limit, a: string): History {
    var limit := limits(call.adapter);
    var (windows, d) := Admit(h.windows, call.adapter, Some(limit), call.now);
    if call.adapter != a then h.(windows := windows)
    else
      var anew := a !in h.windows || Elapsed(call.now, h.windows[a].started) >= limit.windowMs;
      var starts := if anew then h.starts + [call.now] else h.starts;
      var here := if |starts| == 0 then 0 else |starts| - 1;
      History(windows, starts, if d.Admitted? then h.admitted + [Admission(call.now, here)] else h.admitted)
  }

  function Run(calls: seq<Call>, limits: string -> Limit, a: string): History {
    if calls == [] then History(map[], [], [])
    else Extend(Run(calls[..|calls| - 1], limits, a), calls[|calls| - 1], limits, a)
  }

  predicate Ordered(calls: seq<Call>) { forall i, j :: 0 <= i < j < |calls| ==> calls[i].now <= calls[j].now }

  // ---------------------------------------------------------------- counting

  /** Admissions in window `w`, at or after `lo`. */
  function InWindow(ads: seq<Admission>, w: nat, lo: nat): nat {
    if ads == [] then 0
    else InWindow(ads[..|ads| - 1], w, lo) + if ads[|ads| - 1].window == w && ads[|ads| - 1].time >= lo then 1 else 0
  }

  /** Admissions in an interval of time. */
  function Within(ads: seq<Admission>, lo: nat, hi: nat): nat {
    if ads == [] then 0
    else Within(ads[..|ads| - 1], lo, hi) + if lo <= ads[|ads| - 1].time < hi then 1 else 0
  }

  lemma InWindowPush(ads: seq<Admission>, x: Admission, w: nat, lo: nat)
    ensures InWindow(ads + [x], w, lo) == InWindow(ads, w, lo) + if x.window == w && x.time >= lo then 1 else 0
  {
    assert (ads + [x])[..|ads|] == ads;
  }

  /** An interval whose admissions lie in two windows holds at most their admissions. */
  lemma {:induction false} WithinTwo(ads: seq<Admission>, lo: nat, hi: nat, v: nat, w: nat)
    requires forall x :: x in ads && lo <= x.time < hi ==> x.window == v || x.window == w
    ensures Within(ads, lo, hi) <= InWindow(ads, v, lo) + InWindow(ads, w, 0)
  {
    if ads != [] { WithinTwo(ads[..|ads| - 1], lo, hi, v, w); }
  }

  lemma {:induction false} WithinOne(ads: seq<Admission>, lo: nat, hi: nat, w: nat)
    requires forall x :: x in ads && lo <= x.time < hi ==> x.window == w
    ensures Within(ads, lo, hi) <= InWindow(ads, w, 0)
  {
    if ads != [] { WithinOne(ads[..|ads| - 1], lo, hi, w); }
  }

  lemma {:induction false} WithinNone(ads: seq<Admission>, lo: nat, hi: nat)
    requires forall x :: x in ads ==> !(lo <= x.time < hi)
    ensures Within(ads, lo, hi) == 0
  {
    if ads != [] { WithinNone(ads[..|ads| - 1], lo, hi); }
  }

  lemma {:induction false} InWindowLater(ads: seq<Admission>, w: nat, lo: nat, hi: nat)
    requires lo <= hi
    ensures InWindow(ads, w, hi) <= InWindow(ads, w, lo)
  {
    if ads != [] { InWindowLater(ads[..|ads| - 1], w, lo, hi); }
  }

  // ---------------------------------------------------------------- the invariant

  predicate Spaced(starts: seq<nat>, ms: nat) { forall i, j :: 0 <= i < j < |starts| ==> starts[i] + ms <= starts[j] }

  /** An admission lies in its window: from its start, for less than its length. */
  predicate Fits(x: Admission, starts: seq<nat>, ms: nat) {
    x.window < |starts| && starts[x.window] <= x.time && (x.time < starts[x.window] + ms || x.time == starts[x.window])
  }

  /** A window admits at most the limit; its first admission comes when it starts. */
  predicate Bounded(ads: seq<Admission>, starts: seq<nat>, w: nat, m: nat)
    requires w < |starts|
  {
    InWindow(ads, w, 0) <= m && (m > 0 ==> InWindow(ads, w, starts[w] + 1) + 1 <= InWindow(ads, w, 0))
  }

  predicate Inv(h: History, limit: Limit, a: string, now: nat) {
    && (a in h.windows <==> h.starts != [])
    && Spaced(h.starts, limit.windowMs)
    && (forall i :: 0 <= i < |h.starts| ==> h.starts[i] <= now)
    && (forall x :: x in h.admitted ==> Fits(x, h.starts, limit.windowMs))
    && (forall w :: 0 <= w < |h.starts| ==> Bounded(h.admitted, h.starts, w, limit.maxRequests))
    && (h.starts != [] ==>
          var last := |h.starts| - 1;
          h.windows[a] == Window(h.starts[last], h.windows[a].count)
              && h.windows[a].count == InWindow(h.admitted, last, 0))
  }

  lemma {:induction false} NoneInNewWindow(ads: seq<Admission>, w: nat, lo: nat)
    requires forall x :: x in ads ==> x.window < w
    ensures InWindow(ads, w, lo) == 0
  {
    if ads != [] { NoneInNewWindow(ads[..|ads| - 1], w, lo); }
  }

  lemma OtherAdapter(h: History, call: Call, limits: string -> Limit, a: string, before: nat)
    requires Inv(h, limits(a), a, before) && call.adapter != a && before <= call.now
    ensures Inv(Extend(h, call, limits, a), limits(a), a, call.now)
  {
    hide InWindow;
  }

  /** A call in the window that is open. */
  lemma SameWindow(h: History, now: nat, limits: string -> Limit, a: string, before: nat)
    requires Inv(h, limits(a), a, before) && before <= now && a in h.windows
    requires Elapsed(now, h.windows[a].started) < limits(a).windowMs
    ensures Inv(Extend(h, Call(a, now), limits, a), limits(a), a, now)
  {
    hide InWindow;
    var last, x := |h.starts| - 1, Admission(now, |h.starts| - 1);
    var m := limits(a).maxRequests;
    var r := Extend(h, Call(a, now), limits, a);
    forall w | 0 <= w < |h.starts| ensures Bounded(r.admitted, h.starts, w, m) {
      assert Bounded(h.admitted, h.starts, w, m);
      InWindowPush(h.admitted, x, w, 0);
      InWindowPush(h.admitted, x, w, h.starts[w] + 1);
    }
    InWindowPush(h.admitted, x, last, 0);
  }

  /** A call that starts a window. */
  lemma NewWindow(h: History, now: nat, limits: string -> Limit, a: string, before: nat)
    requires Inv(h, limits(a), a, before) && before <= now
    requires a !in h.windows || Elapsed(now, h.windows[a].started) >= limits(a).windowMs
    ensures Inv(Extend(h, Call(a, now), limits, a), limits(a), a, now)
  {
    hide InWindow, Bounded, Fits, Spaced;
    var n := |h.starts|;
    var x := Admission(now, n);
    var r := Extend(h, Call(a, now), limits, a);
    NoneInNewWindow(h.admitted, n, 0) by { NewWindowIsEmpty(h, limits(a), a, before); }
    InWindowPush(h.admitted, x, n, 0);
    NewWindowSpaced(h, now, limits(a), a, before);
    forall w | 0 <= w < |r.starts| ensures Bounded(r.admitted, r.starts, w, limits(a).maxRequests) {
      NewWindowBounded(h, now, limits(a), a, before, w);
    }
    forall y | y in r.admitted ensures Fits(y, r.starts, limits(a).windowMs) {
      NewWindowFits(h, now, limits(a), a, before, y);
    }
  }

  lemma NewWindowIsEmpty(h: History, limit: Limit, a: string, before: nat)
    requires Inv(h, limit, a, before)
    ensures forall x :: x in h.admitted ==> x.window < |h.starts|
  {
    hide InWindow, Bounded;
  }

  lemma NewWindowFits(h: History, now: nat, limit: Limit, a: string, before: nat, y: Admission)
    requires Inv(h, limit, a, before) && (y in h.admitted || y == Admission(now, |h.starts|))
    ensures Fits(y, h.starts + [now], limit.windowMs)
  {
    hide InWindow, Bounded;
    assert y in h.admitted ==> Fits(y, h.starts, limit.windowMs);
  }

  lemma NewWindowBounded(h: History, now: nat, limit: Limit, a: string, before: nat, w: nat)
    requires Inv(h, limit, a, before) && w <= |h.starts|
    ensures var ads := if limit.maxRequests > 0 then h.admitted + [Admission(now, |h.starts|)] else h.admitted;
            Bounded(ads, h.starts + [now], w, limit.maxRequests)
  {
    hide InWindow, Fits, Spaced;
    var n := |h.starts|;
    var x := Admission(now, n);
    NewWindowIsEmpty(h, limit, a, before);
    NoneInNewWindow(h.admitted, n, 0);
    NoneInNewWindow(h.admitted, n, now + 1);
    assert w < n ==> Bounded(h.admitted, h.starts, w, limit.maxRequests);
    InWindowPush(h.admitted, x, w, 0);
    InWindowPush(h.admitted, x, w, (h.starts + [now])[w] + 1);
  }

  lemma NewWindowSpaced(h: History, now: nat, limit: Limit, a: string, before: nat)
    requires Inv(h, limit, a, before) && before <= now
    requires a !in h.windows || Elapsed(now, h.windows[a].started) >= limit.windowMs
    ensures Spaced(h.starts + [now], limit.windowMs)
  {
    hide InWindow, Bounded, Fits;
  }

  lemma {:induction false} RunInv(calls: seq<Call>, limits: string -> Limit, a: string, now: nat)
    requires Ordered(calls) && forall c :: c in calls ==> c.now <= now
    ensures Inv(Run(calls, limits, a), limits(a), a, now)
  {
    if calls != [] {
      hide InWindow, Extend, Bounded, Fits;
      var front, c := calls[..|calls| - 1], calls[|calls| - 1];
      RunInv(front, limits, a, c.now);
      var h := Run(front, limits, a);
      if c.adapter != a {
        OtherAdapter(h, c, limits, a, c.now);
      } else if a in h.windows && Elapsed(c.now, h.windows[a].started) < limits(a).windowMs {
        SameWindow(h, c.now, limits, a, c.now);
      } else {
        NewWindow(h, c.now, limits, a, c.now);
      }
      InvLater(Run(calls, limits, a), limits(a), a, c.now, now);
    }
  }

  lemma InvLater(h: History, limit: Limit, a: string, now: nat, later: nat)
    requires Inv(h, limit, a, now) && now <= later
    ensures Inv(h, limit, a, later)
  {
  }

  // ---------------------------------------------------------------- main results

  function LastTime(calls: seq<Call>): nat { if calls == [] then 0 else calls[|calls| - 1].now }

  /** Every window admits at most the limit. */
  lemma WindowLimit(calls: seq<Call>, limits: string -> Limit, a: string, w: nat)
    requires Ordered(calls) && w < |Run(calls, limits, a).starts|
    ensures InWindow(Run(calls, limits, a).admitted, w, 0) <= limits(a).maxRequests
  {
    hide Run, InWindow;
    RunInv(calls, limits, a, LastTime(calls));
    var h := Run(calls, limits, a);
    assert Bounded(h.admitted, h.starts, w, limits(a).maxRequests);
  }

  /**
   * After any run, a call is admitted if and only if the limit is not zero and it opens a window, or the window it
   * falls into still has room. Other adapters do not matter, and without a limit every call is admitted and nothing
   * counted.
   */
  lemma AdmittedExactly(calls: seq<Call>, limits: string -> Limit, a: string, now: nat)
    requires Ordered(calls) && forall c :: c in calls ==> c.now <= now
    ensures var h := Run(calls, limits, a);
            var last := |h.starts| - 1;
            Admit(h.windows, a, Some(limits(a)), now).1.Admitted? <==>
              && limits(a).maxRequests > 0
              && (|| h.starts == [] || now >= h.starts[last] + limits(a).windowMs
                  || InWindow(h.admitted, last, 0) < limits(a).maxRequests)
    ensures var h := Run(calls, limits, a); Admit(h.windows, a, None, now) == (h.windows, Admitted)
  {
    hide Run, InWindow, Bounded, Fits, Spaced;
    RunInv(calls, limits, a, now);
  }

  /** The last window that starts before `hi`, or -1. */
  function LastBefore(starts: seq<nat>, hi: nat): (i: int)
    ensures -1 <= i < |starts|
    ensures i >= 0 ==> starts[i] < hi
    ensures forall j :: i < j < |starts| ==> starts[j] >= hi
  {
    if starts == [] then -1
    else if starts[|starts| - 1] < hi then |starts| - 1
    else LastBefore(starts[..|starts| - 1], hi)
  }

  /** Admissions of an interval as long as a window lie in the last window before its end and the one before that. */
  lemma TwoWindows(h: History, limit: Limit, a: string, now: nat, lo: nat, x: Admission)
    requires Inv(h, limit, a, now) && x in h.admitted && lo <= x.time < lo + limit.windowMs
    ensures var w := LastBefore(h.starts, lo + limit.windowMs); 0 <= w && w - 1 <= x.window <= w
  {
    hide InWindow, Bounded;
    var w, ms := LastBefore(h.starts, lo + limit.windowMs), limit.windowMs;
    assert Fits(x, h.starts, ms);
    assert w >= 1 ==> h.starts[w - 1] + ms <= h.starts[w];
    forall i | 0 <= i < w - 1 ensures h.starts[i] + ms <= h.starts[w - 1] {}
  }

  /**
   * Over any run, any interval as long as the window holds at most twice the limit less one: the two windows it can
   * meet are not both met from their start.
   */
  lemma IntervalLimit(calls: seq<Call>, limits: string -> Limit, a: string, lo: nat)
    requires Ordered(calls)
    ensures var m, n := limits(a).maxRequests, Within(Run(calls, limits, a).admitted, lo, lo + limits(a).windowMs);
            n <= if m == 0 then 0 else 2 * m - 1
  {
    hide Run, InWindow, Within;
    RunInv(calls, limits, a, LastTime(calls));
    IntervalBound(Run(calls, limits, a), limits(a), a, LastTime(calls), lo);
  }

  lemma IntervalBound(h: History, limit: Limit, a: string, now: nat, lo: nat)
    requires Inv(h, limit, a, now)
    ensures var m := limit.maxRequests; Within(h.admitted, lo, lo + limit.windowMs) <= if m == 0 then 0 else 2 * m - 1
  {
    hide InWindow, Within;
    var m, hi := limit.maxRequests, lo + limit.windowMs;
    var w := LastBefore(h.starts, hi);
    forall x | x in h.admitted && lo <= x.time < hi ensures 0 <= w && w - 1 <= x.window <= w {
      TwoWindows(h, limit, a, now, lo, x);
    }
    if w < 0 {
      WithinNone(h.admitted, lo, hi);
    } else if w == 0 {
      assert Bounded(h.admitted, h.starts, 0, m);
      WithinOne(h.admitted, lo, hi, 0);
    } else {
      assert Bounded(h.admitted, h.starts, w, m) && Bounded(h.admitted, h.starts, w - 1, m);
      WithinTwo(h.admitted, lo, hi, w - 1, w);
      assert h.starts[w - 1] + limit.windowMs <= h.starts[w];
      InWindowLater(h.admitted, w - 1, h.starts[w - 1] + 1, lo);
      InWindowLater(h.admitted, w - 1, 0, lo);
    }
  }

  // ---------------------------------------------------------------- the sliding bound

  /** What a run admits of an adapter in the interval of one window that starts at `lo`. */
  function Load(calls: seq<Call>, limits: string -> Limit, a: string, lo: nat): nat {
    Within(Run(calls, limits, a).admitted, lo, lo + limits(a).windowMs)
  }

  /**
   * No ordered run, whatever the limits of other adapters, admits more than the limit in any interval of one window.
   */
  ghost predicate SlidingBound(a: string, limit: Limit) {
    forall calls, limits: string -> Limit, lo :: Ordered(calls) && limits(a) == limit ==>
        Load(calls, limits, a, lo) <= limit.maxRequests
  }

  /** In a window of at most one millisecond all admissions of an interval belong to one window. */
  lemma ShortWindow(calls: seq<Call>, limits: string -> Limit, a: string, lo: nat)
    requires Ordered(calls) && limits(a).windowMs <= 1
    ensures Load(calls, limits, a, lo) <= limits(a).maxRequests
  {
    hide Run, InWindow, Within;
    RunInv(calls, limits, a, LastTime(calls));
    var h, hi := Run(calls, limits, a), lo + limits(a).windowMs;
    var w := LastBefore(h.starts, hi);
    forall x | x in h.admitted && lo <= x.time < hi ensures 0 <= w && x.window == w {
      TwoWindows(h, limits(a), a, LastTime(calls), lo, x);
      assert Fits(x, h.starts, limits(a).windowMs);
    }
    if w < 0 {
      WithinNone(h.admitted, lo, hi);
    } else {
      assert Bounded(h.admitted, h.starts, w, limits(a).maxRequests);
      WithinOne(h.admitted, lo, hi, w);
    }
  }

  function Repeat(c: Call, n: nat): (cs: seq<Call>)
    ensures |cs| == n && forall i :: 0 <= i < n ==> cs[i] == c
  {
    if n == 0 then [] else Repeat(c, n - 1) + [c]
  }

  /** One call when a window starts, the rest of the limit at its last moment, and a whole limit at the next. */
  function Burst(a: string, limit: Limit): seq<Call>
    requires limit.maxRequests >= 1 && limit.windowMs >= 1
  {
    [Call(a, 0)] + Repeat(Call(a, limit.windowMs - 1), limit.maxRequests - 1)
    + Repeat(Call(a, limit.windowMs), limit.maxRequests)
  }

  lemma BurstOrdered(a: string, limit: Limit)
    requires limit.maxRequests >= 1 && limit.windowMs >= 1
    ensures Ordered(Burst(a, limit))
  {
  }

  lemma WithinPush(ads: seq<Admission>, x: Admission, lo: nat, hi: nat)
    ensures Within(ads + [x], lo, hi) == Within(ads, lo, hi) + if lo <= x.time < hi then 1 else 0
  {
    assert (ads + [x])[..|ads|] == ads;
  }

  lemma RunPush(calls: seq<Call>, c: Call, limits: string -> Limit, a: string)
    ensures Run(calls + [c], limits, a) == Extend(Run(calls, limits, a), c, limits, a)
  {
    assert (calls + [c])[..|calls|] == calls;
  }

  /** The adapter's window, and what the run has admitted in an interval. */
  predicate Stands(calls: seq<Call>, limits: string -> Limit, a: string, w: Window, lo: nat, hi: nat, n: nat) {
    var h := Run(calls, limits, a);
    a in h.windows && h.windows[a] == w && Within(h.admitted, lo, hi) == n
  }

  /** A call with room in the open window is admitted there. */
  lemma OneMore(calls: seq<Call>, c: Call, limits: string -> Limit, w: Window, lo: nat, hi: nat, n: nat)
    requires Stands(calls, limits, c.adapter, w, lo, hi, n) && lo <= c.now < hi
    requires Elapsed(c.now, w.started) < limits(c.adapter).windowMs && w.count < limits(c.adapter).maxRequests
    ensures Stands(calls + [c], limits, c.adapter, Window(w.started, w.count + 1), lo, hi, n + 1)
  {
    hide Run, Within;
    RunPush(calls, c, limits, c.adapter);
    var h := Run(calls, limits, c.adapter);
    var here := if |h.starts| == 0 then 0 else |h.starts| - 1;
    WithinPush(h.admitted, Admission(c.now, here), lo, hi);
  }

  /** A call after the window starts a new one. */
  lemma FirstOfNext(calls: seq<Call>, c: Call, limits: string -> Limit, w: Window, lo: nat, hi: nat, n: nat)
    requires Stands(calls, limits, c.adapter, w, lo, hi, n) && lo <= c.now < hi
    requires Elapsed(c.now, w.started) >= limits(c.adapter).windowMs && limits(c.adapter).maxRequests >= 1
    ensures Stands(calls + [c], limits, c.adapter, Window(c.now, 1), lo, hi, n + 1)
  {
    hide Run, Within;
    RunPush(calls, c, limits, c.adapter);
    var h := Run(calls, limits, c.adapter);
    WithinPush(h.admitted, Admission(c.now, |h.starts|), lo, hi);
  }

  lemma {:induction false} ManyMore(
    calls: seq<Call>, c: Call, k: nat, limits: string -> Limit, w: Window, lo: nat, hi: nat, n: nat)
    requires Stands(calls, limits, c.adapter, w, lo, hi, n) && lo <= c.now < hi
    requires Elapsed(c.now, w.started) < limits(c.adapter).windowMs && w.count + k <= limits(c.adapter).maxRequests
    ensures Stands(calls + Repeat(c, k), limits, c.adapter, Window(w.started, w.count + k), lo, hi, n + k)
  {
    hide Stands;
    if k == 0 {
      assert calls + Repeat(c, 0) == calls;
    } else {
      ManyMore(calls, c, k - 1, limits, w, lo, hi, n);
      OneMore(calls + Repeat(c, k - 1), c, limits, Window(w.started, w.count + (k - 1)), lo, hi, n + (k - 1));
      assert calls + Repeat(c, k) == calls + Repeat(c, k - 1) + [c];
    }
  }

  /**
   * Twice the limit less one is admitted within one window's length, for every limit and every window of two or more.
   */
  lemma IntervalLimitIsReached(limits: string -> Limit, a: string)
    requires limits(a).maxRequests >= 1 && limits(a).windowMs >= 2
    ensures Ordered(Burst(a, limits(a))) && Load(Burst(a, limits(a)), limits, a, 1) == 2 * limits(a).maxRequests - 1
  {
    hide Run, Within, Stands;
    var m: nat, ms: nat := limits(a).maxRequests, limits(a).windowMs;
    var first, late, next := [Call(a, 0)], Call(a, ms - 1), Call(a, ms);
    BurstOrdered(a, limits(a));
    StartsBurst(limits, a);
    ManyMore(first, late, m - 1, limits, Window(0, 1), 1, ms + 1, 0);
    var head := first + Repeat(late, m - 1);
    FirstOfNext(head, next, limits, Window(0, m), 1, ms + 1, m - 1);
    ManyMore(head + [next], next, m - 1, limits, Window(ms, 1), 1, ms + 1, m);
    assert head + [next] + Repeat(next, m - 1) == Burst(a, limits(a));
    StandsLoad(Burst(a, limits(a)), limits, a, Window(ms, m), 2 * m - 1);
  }

  lemma StartsBurst(limits: string -> Limit, a: string)
    requires limits(a).maxRequests >= 1 && limits(a).windowMs >= 2
    ensures Stands([Call(a, 0)], limits, a, Window(0, 1), 1, limits(a).windowMs + 1, 0)
  {
    assert [] + [Call(a, 0)] == [Call(a, 0)];
    RunPush([], Call(a, 0), limits, a);
    WithinPush([], Admission(0, 0), 1, limits(a).windowMs + 1);
  }

  lemma StandsLoad(calls: seq<Call>, limits: string -> Limit, a: string, w: Window, n: nat)
    requires Stands(calls, limits, a, w, 1, limits(a).windowMs + 1, n)
    ensures Load(calls, limits, a, 1) == n
  {
  }

  /**
   * The limit bounds every interval of one window's length if and only if it is at most one or the window is at most
   * one millisecond long.
   */
  lemma SlidingBoundExactly(a: string, limit: Limit)
    ensures SlidingBound(a, limit) <==> limit.maxRequests <= 1 || limit.windowMs <= 1
  {
    hide Run, Within, Load;
    if limit.maxRequests <= 1 || limit.windowMs <= 1 {
      forall calls, limits: string -> Limit, lo | Ordered(calls) && limits(a) == limit
        ensures Load(calls, limits, a, lo) <= limit.maxRequests
      {
        if limit.windowMs <= 1 { ShortWindow(calls, limits, a, lo); } else { LoadLimit(calls, limits, a, lo); }
      }
    } else {
      var limits := (_: string) => limit;
      IntervalLimitIsReached(limits, a);
      assert Load(Burst(a, limit), limits, a, 1) > limit.maxRequests;
    }
  }

  lemma LoadLimit(calls: seq<Call>, limits: string -> Limit, a: string, lo: nat)
    requires Ordered(calls)
    ensures var m := limits(a).maxRequests; Load(calls, limits, a, lo) <= if m == 0 then 0 else 2 * m - 1
  {
    hide Run, Within;
    IntervalLimit(calls, limits, a, lo);
  }

  /** A refused call leaves the count as it is, as long as the count is within the limit. */
  lemma RefusalCountsNothing(windows: map<string, Window>, adapter: string, limit: Limit, now: nat)
    requires adapter in windows && windows[adapter].count <= limit.maxRequests
    requires Admit(windows, adapter, Some(limit), now).1.Refused?
    ensures var after := Admit(windows, adapter, Some(limit), now).0;
            after[adapter].count == windows[adapter].count && after - {adapter} == windows - {adapter}
  {
  }

  /** Coming back after the announced delay is enough, and not coming back sooner is needed. */
  lemma RetryAfterIsExact(windows: map<string, Window>, adapter: string, limit: Limit, now: nat, later: nat)
    requires limit.maxRequests > 0 && now <= later && (adapter in windows ==> windows[adapter].started <= now)
    requires Admit(windows, adapter, Some(limit), now).1.Refused?
    ensures var (after, d) := Admit(windows, adapter, Some(limit), now);
            Admit(after, adapter, Some(limit), later).1.Admitted? <==> later >= now + d.retryAfterMs
  {
  }
}
