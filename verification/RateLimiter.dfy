/**
 The in-memory fixed-window rate limiter (MemoryRateLimiter in
 apps/api/src/ratelimit/rate-limiter.ts).  The clock reading of each call is a parameter.
 */
module RateLimiter {

  const SWEEP_MS := 60000

  datatype Window = Window(count: int, resetAt: int)

  datatype Decision = Decision(allowed: bool, retryAfterSec: int)

  datatype Call = Call(key: string, limit: int, windowSec: int, now: int)

  type Windows = map<string, Window>

  // ---------- the limiter that never evicts ----------

  predicate Live(windows: Windows, key: string, now: int) {
    key in windows && windows[key].resetAt > now
  }

  /** The key's window with this call counted. */
  function Counted(windows: Windows, c: Call): Window {
    if Live(windows, c.key, c.now) then windows[c.key].(count := windows[c.key].count + 1)
    else Window(1, c.now + c.windowSec * 1000)
  }

  /** `Math.ceil(ms / 1000)` */
  function CeilSeconds(ms: int): int {
    (ms + 999) / 1000
  }

  function Answer(w: Window, c: Call): Decision {
    if w.count > c.limit
      then Decision(false, if CeilSeconds(w.resetAt - c.now) > 1 then CeilSeconds(w.resetAt - c.now) else 1)
    else Decision(true, 0)
  }

  function Decide(windows: Windows, c: Call): Decision {
    Answer(Counted(windows, c), c)
  }

  function Count(windows: Windows, c: Call): Windows {
    windows[c.key := Counted(windows, c)]
  }

  // ---------- the limiter of the code ----------

  function Swept(windows: Windows, now: int): Windows {
    map k | k in windows && windows[k].resetAt > now :: windows[k]
  }

  /** The windows a call works on: swept when the sweep is due. */
  function Found(windows: Windows, sweepAt: int, now: int): Windows {
    if now >= sweepAt then Swept(windows, now) else windows
  }

  class MemoryRateLimiter {
    var windows: Windows
    var sweepAt: int

    constructor ()
      ensures windows == map[] && sweepAt == 0
    {
      windows, sweepAt := map[], 0;
    }

    method Consume(key: string, limit: int, windowSec: int, now: int) returns (d: Decision)
      modifies this
      ensures d == Decide(Found(old(windows), old(sweepAt), now), Call(key, limit, windowSec, now))
      ensures windows == Count(Found(old(windows), old(sweepAt), now), Call(key, limit, windowSec, now))
      ensures sweepAt == if now >= old(sweepAt) then now + 60000 else old(sweepAt)
      ensures key in windows
              && windows[key] == if key in old(windows) && old(windows)[key].resetAt > now
                                 then old(windows)[key].(count := old(windows)[key].count + 1)
                                 else Window(1, now + windowSec * 1000)
      ensures d.allowed <==> windows[key].count <= limit
      ensures if d.allowed then d.retryAfterSec == 0
              else var left := windows[key].resetAt - now;
                d.retryAfterSec >= 1 && left <= d.retryAfterSec * 1000
                && (d.retryAfterSec > 1 ==> left > (d.retryAfterSec - 1) * 1000)
      ensures forall k :: k != key ==>
                (k in windows <==> k in old(windows) && (now >= old(sweepAt) ==> old(windows)[k].resetAt > now))
                && (k in windows ==> windows[k] == old(windows)[k])
    {
      if now >= sweepAt {
        sweepAt := now + SWEEP_MS;
        Sweep(now);
      }
      ghost var found := windows;
      if key !in windows || windows[key].resetAt <= now {
        windows := windows[key := Window(0, now + windowSec * 1000)];
      }
      windows := windows[key := windows[key].(count := windows[key].count + 1)];
      assert windows == Count(found, Call(key, limit, windowSec, now));
      var w := windows[key];
      if w.count > limit {
        var wait := CeilSeconds(w.resetAt - now);
        return Decision(false, if wait > 1 then wait else 1);
      }
      return Decision(true, 0);
    }

    method Sweep(now: int)
      modifies this`windows
      ensures windows == Swept(old(windows), now)
    {
      ghost var before := windows;
      var todo := windows.Keys;
      while todo != {}
        invariant todo <= before.Keys
        invariant windows == map k | k in before && (k in todo || before[k].resetAt > now) :: before[k]
        decreases todo
      {
        var k :| k in todo;
        if windows[k].resetAt <= now { windows := windows - {k}; }
        todo := todo - {k};
      }
    }
  }

  // ---------- the sweep is invisible ----------

  /** One limiter evicts, the other never does. */
  function Decisions(windows: Windows, calls: seq<Call>): seq<Decision>
    decreases |calls|
  {
    if calls == [] then [] else [Decide(windows, calls[0])] + Decisions(Count(windows, calls[0]), calls[1..])
  }

  function EvictingDecisions(windows: Windows, sweepAt: int, calls: seq<Call>): seq<Decision>
    decreases |calls|
  {
    if calls == [] then []
    else
      var c := calls[0];
      var found := Found(windows, sweepAt, c.now);
      var next := if c.now >= sweepAt then c.now + SWEEP_MS else sweepAt;
      [Decide(found, c)] + EvictingDecisions(Count(found, c), next, calls[1..])
  }

  predicate ClockFrom(t: int, calls: seq<Call>)
    decreases |calls|
  {
    calls != [] ==> t <= calls[0].now && ClockFrom(calls[0].now, calls[1..])
  }

  /** The same windows are live from `t` on. */
  ghost predicate SameLive(a: Windows, b: Windows, t: int) {
    forall k :: (Live(a, k, t) <==> Live(b, k, t)) && (Live(a, k, t) ==> a[k] == b[k])
  }

  lemma SweptSameLive(a: Windows, b: Windows, sweepAt: int, t: int, now: int)
    requires SameLive(a, b, t) && t <= now
    ensures SameLive(Found(a, sweepAt, now), b, now)
  {
    forall k
      ensures Live(Found(a, sweepAt, now), k, now) <==> Live(b, k, now)
      ensures Live(b, k, now) ==> Found(a, sweepAt, now)[k] == b[k]
    {
      assert Live(a, k, now) ==> Live(a, k, t);
      assert Live(b, k, now) ==> Live(b, k, t);
    }
  }

  lemma CountSameLive(a: Windows, b: Windows, c: Call)
    requires SameLive(a, b, c.now)
    ensures Decide(a, c) == Decide(b, c) && SameLive(Count(a, c), Count(b, c), c.now)
  {
    assert Live(a, c.key, c.now) <==> Live(b, c.key, c.now);
    assert Counted(a, c) == Counted(b, c);
  }

  /** With a clock that never goes back, evicting never changes a decision. */
  lemma {:induction false} SweepInvisible(windows: Windows, sweepAt: int, all: Windows, t: int, calls: seq<Call>)
    requires ClockFrom(t, calls) && SameLive(windows, all, t)
    ensures EvictingDecisions(windows, sweepAt, calls) == Decisions(all, calls)
    decreases |calls|
  {
    hide SameLive, Decide, Count, Found;
    if calls != [] {
      var c := calls[0];
      var found := Found(windows, sweepAt, c.now);
      SweptSameLive(windows, all, sweepAt, t, c.now);
      CountSameLive(found, all, c);
      var next := if c.now >= sweepAt then c.now + SWEEP_MS else sweepAt;
      SweepInvisible(Count(found, c), next, Count(all, c), c.now, calls[1..]);
    }
  }

  // ---------- how much a key gets ----------

  /** The calls of `key` allowed when `calls` run from `windows`. */
  function Admitted(windows: Windows, calls: seq<Call>, key: string): nat
    decreases |calls|
  {
    if calls == [] then 0
    else
      var one := if calls[0].key == key && Decide(windows, calls[0]).allowed then 1 else 0;
      one + Admitted(Count(windows, calls[0]), calls[1..], key)
  }

  function Run(windows: Windows, calls: seq<Call>): Windows
    decreases |calls|
  {
    if calls == [] then windows else Run(Count(windows, calls[0]), calls[1..])
  }

  /** One limit and window length for the key, whatever the callers do with others. */
  predicate Uniform(calls: seq<Call>, key: string, limit: int, windowSec: int) {
    forall c :: c in calls && c.key == key ==> c.limit == limit && c.windowSec == windowSec
  }

  predicate Within(calls: seq<Call>, key: string, from: int, to: int) {
    forall c :: c in calls && c.key == key ==> from <= c.now < to
  }

  function Max0(x: int): nat {
    if x > 0 then x else 0
  }

  /** While a window lives, the key gets what is left of its limit and no more. */
  lemma {:induction false} WindowBound(windows: Windows, calls: seq<Call>, key: string, limit: int, windowSec: int,
                                       from: int)
    requires key in windows && Within(calls, key, from, windows[key].resetAt) && Uniform(calls, key, limit, windowSec)
    ensures Admitted(windows, calls, key) <= Max0(limit - windows[key].count)
    decreases |calls|
  {
    if calls != [] {
      assert calls[0] in calls;
      assert forall c :: c in calls[1..] ==> c in calls;
      WindowBound(Count(windows, calls[0]), calls[1..], key, limit, windowSec, from);
    }
  }

  /** Every stored window has counted the call that opened it. */
  predicate Opened(windows: Windows) {
    forall k :: k in windows ==> windows[k].count >= 1
  }

  lemma {:induction false} OpenedRun(windows: Windows, calls: seq<Call>)
    requires Opened(windows)
    ensures Opened(Run(windows, calls))
    decreases |calls|
  {
    if calls != [] { OpenedRun(Count(windows, calls[0]), calls[1..]); }
  }

  /** Per window: from a moment without a live window, one window length admits at most the limit. */
  lemma {:induction false} FreshBound(windows: Windows, calls: seq<Call>, key: string, limit: int, windowSec: int,
                                      from: int)
    requires Within(calls, key, from, from + windowSec * 1000) && Uniform(calls, key, limit, windowSec)
    requires key !in windows || windows[key].resetAt <= from
    ensures Admitted(windows, calls, key) <= Max0(limit)
    decreases |calls|
  {
    if calls != [] {
      var c := calls[0];
      assert c in calls;
      assert forall x :: x in calls[1..] ==> x in calls;
      if c.key == key {
        WindowBound(Count(windows, c), calls[1..], key, limit, windowSec, from);
      } else {
        FreshBound(Count(windows, c), calls[1..], key, limit, windowSec, from);
      }
    }
  }

  /**
   In any half-open interval of one window length a key gets less than twice its limit: the
   live window it starts in has at most limit - 1 left, and the next one covers the rest.
   */
  lemma IntervalBound(windows: Windows, calls: seq<Call>, key: string, limit: int, windowSec: int, from: int)
    requires Within(calls, key, from, from + windowSec * 1000) && Uniform(calls, key, limit, windowSec)
    requires Opened(windows) && ClockFrom(from, calls)
    ensures limit >= 1 ==> Admitted(windows, calls, key) <= 2 * limit - 1
    ensures limit <= 0 ==> Admitted(windows, calls, key) == 0
    decreases |calls|
  {
    IntervalSplit(windows, calls, key, limit, windowSec, from, from);
  }

  lemma {:induction false} IntervalSplit(windows: Windows, calls: seq<Call>, key: string, limit: int, windowSec: int,
                                         from: int, t: int)
    requires from <= t && Within(calls, key, from, from + windowSec * 1000) && Uniform(calls, key, limit, windowSec)
    requires Opened(windows) && ClockFrom(t, calls)
    ensures Admitted(windows, calls, key)
            <= Max0(limit) + if Live(windows, key, t) then Max0(limit - windows[key].count) else 0
    decreases |calls|
  {
    if calls != [] {
      var c := calls[0];
      assert c in calls;
      assert forall x :: x in calls[1..] ==> x in calls;
      if c.key == key && !Live(windows, key, c.now) {
        WindowBound(Count(windows, c), calls[1..], key, limit, windowSec, from);
      } else {
        IntervalSplit(Count(windows, c), calls[1..], key, limit, windowSec, from, c.now);
      }
    }
  }

  /** The same from the start of the process: after any calls at all, then any one window length. */
  lemma NeverTwiceTheLimit(before: seq<Call>, calls: seq<Call>, key: string, limit: int, windowSec: int, from: int)
    requires Within(calls, key, from, from + windowSec * 1000) && Uniform(calls, key, limit, windowSec)
             && ClockFrom(from, calls)
    ensures limit >= 1 ==> Admitted(Run(map[], before), calls, key) <= 2 * limit - 1
    ensures limit <= 0 ==> Admitted(Run(map[], before), calls, key) == 0
  {
    OpenedRun(map[], before);
    IntervalBound(Run(map[], before), calls, key, limit, windowSec, from);
  }

  // ---------- the bound is reached ----------

  function Repeat(c: Call, n: nat): seq<Call> {
    if n == 0 then [] else [c] + Repeat(c, n - 1)
  }

  lemma {:induction false} RepeatAll(c: Call, n: nat)
    ensures |Repeat(c, n)| == n && forall x :: x in Repeat(c, n) ==> x == c
  {
    if n > 0 { RepeatAll(c, n - 1); }
  }

  /** Calls in a live window are all admitted while they fit. */
  lemma {:induction false} RepeatAdmitted(windows: Windows, c: Call, n: nat)
    requires Live(windows, c.key, c.now) && windows[c.key].count + n <= c.limit
    ensures Admitted(windows, Repeat(c, n), c.key) == n
    ensures var after := Run(windows, Repeat(c, n));
            c.key in after && after[c.key] == windows[c.key].(count := windows[c.key].count + n)
  {
    if n > 0 {
      assert Repeat(c, n)[1..] == Repeat(c, n - 1);
      RepeatAdmitted(Count(windows, c), c, n - 1);
    }
  }

  lemma {:induction false} AdmittedConcat(windows: Windows, a: seq<Call>, b: seq<Call>, key: string)
    ensures Admitted(windows, a + b, key) == Admitted(windows, a, key) + Admitted(Run(windows, a), b, key)
    decreases |a|
  {
    hide Decide, Count;
    if a == [] {
      assert a + b == b;
    } else {
      assert (a + b)[1..] == a[1..] + b;
      AdmittedConcat(Count(windows, a[0]), a[1..], b, key);
    }
  }

  /** A window opened at time 0, filled up just before it ends, and the next one filled at once. */
  lemma BoundIsReached(key: string, limit: int, windowSec: int)
    requires limit >= 1 && windowSec >= 1
    ensures var w := windowSec * 1000;
            var late, next := Call(key, limit, windowSec, w - 1), Call(key, limit, windowSec, w);
            var calls := Repeat(late, limit - 1) + ([next] + Repeat(next, limit - 1));
            && Within(calls, key, w - 1, 2 * w - 1)
            && Admitted(Run(map[], [Call(key, limit, windowSec, 0)]), calls, key) == 2 * limit - 1
  {
    hide Within;
    var w := windowSec * 1000;
    var first, late, next :=
      Call(key, limit, windowSec, 0), Call(key, limit, windowSec, w - 1), Call(key, limit, windowSec, w);
    var open := Run(map[], [first]);
    assert [first][1..] == [] && open == Count(map[], first) && open[key] == Window(1, w);
    RepeatAdmitted(open, late, limit - 1);
    var filled := Run(open, Repeat(late, limit - 1));
    NextWindow(filled, next, limit);
    AdmittedConcat(open, Repeat(late, limit - 1), [next] + Repeat(next, limit - 1), key);
    ReachedWithin(key, late, next, limit, w);
  }

  lemma NextWindow(windows: Windows, next: Call, limit: int)
    requires !Live(windows, next.key, next.now) && next.limit == limit >= 1 && next.windowSec >= 1
    ensures Admitted(windows, [next] + Repeat(next, limit - 1), next.key) == limit
  {
    RepeatAdmitted(Count(windows, next), next, limit - 1);
    assert ([next] + Repeat(next, limit - 1))[1..] == Repeat(next, limit - 1);
  }

  lemma ReachedWithin(key: string, late: Call, next: Call, limit: int, w: int)
    requires limit >= 1 && w >= 2 && late.now == w - 1 && next.now == w
    ensures Within(Repeat(late, limit - 1) + ([next] + Repeat(next, limit - 1)), key, w - 1, 2 * w - 1)
  {
    RepeatAll(late, limit - 1);
    RepeatAll(next, limit - 1);
  }

  // ---------- waiting ----------

  lemma {:induction false} WindowStays(windows: Windows, calls: seq<Call>, key: string, from: int)
    requires key in windows && Within(calls, key, from, windows[key].resetAt)
    ensures key in Run(windows, calls) && Run(windows, calls)[key].resetAt == windows[key].resetAt
    decreases |calls|
  {
    if calls != [] {
      assert calls[0] in calls;
      assert forall c :: c in calls[1..] ==> c in calls;
      WindowStays(Count(windows, calls[0]), calls[1..], key, from);
    }
  }

  lemma CeilSecondsBounds(ms: int)
    ensures 1000 * CeilSeconds(ms) >= ms > 1000 * (CeilSeconds(ms) - 1)
  {
  }

  /**
   After waiting `retryAfterSec` the window that refused has expired: whatever was called in it
   meanwhile, the next call of the key is admitted.  No shorter whole number of seconds from 1
   up would do.
   */
  lemma WaitingIsEnough(windows: Windows, c: Call, meanwhile: seq<Call>, next: Call)
    requires !Decide(windows, c).allowed && next.key == c.key && next.limit >= 1
    requires Within(meanwhile, c.key, c.now, Counted(windows, c).resetAt)
    requires next.now >= c.now + 1000 * Decide(windows, c).retryAfterSec
    ensures Decide(Run(Count(windows, c), meanwhile), next) == Decision(true, 0)
    ensures Decide(windows, c).retryAfterSec == 1
            || c.now + 1000 * (Decide(windows, c).retryAfterSec - 1) < Counted(windows, c).resetAt
  {
    hide CeilSeconds;
    WindowStays(Count(windows, c), meanwhile, c.key, c.now);
    CeilSecondsBounds(Counted(windows, c).resetAt - c.now);
  }

  // ---------- the same for the limiter that evicts ----------

  /** The calls of `key` that these answers allow. */
  function Granted(answers: seq<Decision>, calls: seq<Call>, key: string): nat
    requires |answers| == |calls|
  {
    if calls == [] then 0
    else (if calls[0].key == key && answers[0].allowed then 1 else 0) + Granted(answers[1..], calls[1..], key)
  }

  lemma {:induction false} DecisionsSplit(windows: Windows, a: seq<Call>, b: seq<Call>)
    ensures Decisions(windows, a + b) == Decisions(windows, a) + Decisions(Run(windows, a), b)
    ensures |Decisions(windows, a)| == |a|
    decreases |a|
  {
    hide Decide, Count;
    if a == [] {
      assert a + b == b;
    } else {
      assert (a + b)[1..] == a[1..] + b;
      DecisionsSplit(Count(windows, a[0]), a[1..], b);
    }
  }

  lemma {:induction false} GrantedIsAdmitted(windows: Windows, calls: seq<Call>, key: string)
    ensures |Decisions(windows, calls)| == |calls|
    ensures Granted(Decisions(windows, calls), calls, key) == Admitted(windows, calls, key)
    decreases |calls|
  {
    hide Decide, Count;
    if calls != [] {
      var rest := Decisions(Count(windows, calls[0]), calls[1..]);
      assert Decisions(windows, calls)[1..] == rest;
      GrantedIsAdmitted(Count(windows, calls[0]), calls[1..], key);
    }
  }

  /** What a new limiter answers to `calls`, after it has served `before`. */
  function Answers(before: seq<Call>, calls: seq<Call>): seq<Decision> {
    var all := EvictingDecisions(map[], 0, before + calls);
    if |before| <= |all| then all[|before|..] else []
  }

  /** Evicting or not, the answers are those of a limiter that still has every window. */
  lemma AnswersExact(before: seq<Call>, calls: seq<Call>, t: int)
    requires ClockFrom(t, before + calls)
    ensures Answers(before, calls) == Decisions(Run(map[], before), calls) && |Answers(before, calls)| == |calls|
  {
    hide Decide, Count, Found;
    SweepInvisible(map[], 0, map[], t, before + calls);
    DecisionsSplit(map[], before, calls);
    DecisionsSplit(Run(map[], before), calls, []);
  }

  /**
   The limiter of the code, whatever it has served before and whenever it sweeps: in any
   half-open interval of one window length a key is allowed less than twice its limit.
   */
  lemma EvictingNeverTwice(before: seq<Call>, calls: seq<Call>, key: string, limit: int, windowSec: int, t: int,
                           from: int)
    requires ClockFrom(t, before + calls) && ClockFrom(from, calls)
    requires Within(calls, key, from, from + windowSec * 1000) && Uniform(calls, key, limit, windowSec)
    ensures |Answers(before, calls)| == |calls|
    ensures limit >= 1 ==> Granted(Answers(before, calls), calls, key) <= 2 * limit - 1
    ensures limit <= 0 ==> Granted(Answers(before, calls), calls, key) == 0
  {
    hide Decisions, Admitted, Run, Answers, Granted;
    AnswersExact(before, calls, t);
    GrantedIsAdmitted(Run(map[], before), calls, key);
    NeverTwiceTheLimit(before, calls, key, limit, windowSec, from);
  }

  /** From a moment at which the key has no live window, one window length allows at most the limit. */
  lemma EvictingFreshBound(before: seq<Call>, calls: seq<Call>, key: string, limit: int, windowSec: int, t: int,
                           from: int)
    requires ClockFrom(t, before + calls) && !Live(Run(map[], before), key, from)
    requires Within(calls, key, from, from + windowSec * 1000) && Uniform(calls, key, limit, windowSec)
    ensures |Answers(before, calls)| == |calls|
    ensures Granted(Answers(before, calls), calls, key) <= Max0(limit)
  {
    hide Decisions, Admitted, Run, Answers, Granted;
    AnswersExact(before, calls, t);
    GrantedIsAdmitted(Run(map[], before), calls, key);
    FreshBound(Run(map[], before), calls, key, limit, windowSec, from);
  }

  /** A refused caller who waits the announced time is let in, whatever the limiter sweeps meanwhile. */
  lemma EvictingWaitIsEnough(before: seq<Call>, c: Call, meanwhile: seq<Call>, next: Call, t: int)
    requires ClockFrom(t, before + ([c] + meanwhile + [next]))
    requires var answers := Answers(before, [c] + meanwhile + [next]);
             answers != [] && !answers[0].allowed && next.now >= c.now + 1000 * answers[0].retryAfterSec
    requires next.key == c.key && next.limit >= 1
    requires Within(meanwhile, c.key, c.now, Counted(Run(map[], before), c).resetAt)
    ensures var answers := Answers(before, [c] + meanwhile + [next]);
            |answers| == |meanwhile| + 2 && answers[|meanwhile| + 1] == Decision(true, 0)
  {
    hide Decide, Count, Answers, Counted, Within, ClockFrom;
    var windows := Run(map[], before);
    AnswersExact(before, [c] + meanwhile + [next], t);
    DecisionsSplit(windows, [c] + meanwhile, [next]);
    assert ([c] + meanwhile)[1..] == meanwhile;
    assert ([c] + meanwhile + [next])[0] == c;
    assert Run(windows, [c] + meanwhile) == Run(Count(windows, c), meanwhile);
    WaitingIsEnough(windows, c, meanwhile, next);
  }
}
