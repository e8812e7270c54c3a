/** The fixed-window rate limiter: 100 reads and 30 writes per client and window of 60 seconds. */
module RateLimit {
  import opened Results

  datatype LimitClass = Read | Write

  datatype Window = Window(start: int, count: nat)

  /** A client id and the name of a limit class. */
  type Key = (string, string)

  const WINDOW_SECONDS: int := 60

  function Limit(class_: LimitClass): nat {
    match class_ case Read => 100 case Write => 30
  }

  function Name(class_: LimitClass): string {
    match class_ case Read => "read" case Write => "write"
  }

  function KeyOf(clientId: string, class_: LimitClass): Key {
    (clientId, Name(class_))
  }

  // ---------- one window ----------

  /** The window a call at `now` is counted in: the one on record, or a new one when that is missing or over. */
  function Current(window: Option<Window>, now: int): Window {
    if window.None? || now - window.value.start >= WINDOW_SECONDS then Window(now, 0) else window.value
  }

  /** Whether a call is admitted, or after how many seconds to retry, and the window it leaves. */
  function Judge(window: Option<Window>, limit: nat, now: int): (Result<(), nat>, Window) {
    var w := Current(window, now);
    if w.count >= limit then
      (Err(if WINDOW_SECONDS - (now - w.start) > 1 then WINDOW_SECONDS - (now - w.start) else 1), w)
    else (Ok(()), w.(count := w.count + 1))
  }

  function WindowAt(windows: map<Key, Window>, key: Key): Option<Window> {
    if key in windows then Some(windows[key]) else None
  }

  class RateLimiter {
    var windows: map<Key, Window>

    constructor ()
      ensures windows == map[]
    {
      windows := map[];
    }

    method Check(clientId: string, class_: LimitClass, now: int) returns (r: Result<(), nat>)
      modifies this
      ensures var key := KeyOf(clientId, class_);
              var (verdict, window) := Judge(WindowAt(old(windows), key), Limit(class_), now);
              r == verdict && windows == old(windows)[key := window]
    {
      var key := KeyOf(clientId, class_);
      var limit := Limit(class_);
      if key !in windows {
        windows := windows[key := Window(now, 0)];
      }
      if now - windows[key].start >= WINDOW_SECONDS {
        windows := windows[key := Window(now, 0)];
      }
      if windows[key].count >= limit {
        var left := WINDOW_SECONDS - (now - windows[key].start);
        return Err(if left > 1 then left else 1);
      }
      windows := windows[key := windows[key].(count := windows[key].count + 1)];
      return Ok(());
    }
  }

  // ---------- runs ----------

  datatype Call = Call(clientId: string, class_: LimitClass, now: int)

  function CallKey(call: Call): Key {
    KeyOf(call.clientId, call.class_)
  }

  function Outcome(windows: map<Key, Window>, call: Call): (Result<(), nat>, Window) {
    Judge(WindowAt(windows, CallKey(call)), Limit(call.class_), call.now)
  }

  function After(windows: map<Key, Window>, call: Call): map<Key, Window> {
    windows[CallKey(call) := Outcome(windows, call).1]
  }

  predicate IsBy(call: Call, clientId: string, class_: LimitClass) {
    call.clientId == clientId && call.class_ == class_
  }

  /** The verdicts that one client gets for one class in a run of calls by everybody. */
  function VerdictsFor(windows: map<Key, Window>, calls: seq<Call>, clientId: string, class_: LimitClass): seq<Result<(), nat>>
    decreases calls
  {
    if calls == [] then []
    else
      (if IsBy(calls[0], clientId, class_) then [Outcome(windows, calls[0]).0] else [])
      + VerdictsFor(After(windows, calls[0]), calls[1..], clientId, class_)
  }

  /** The times at which one client calls for one class. */
  function TimesOf(calls: seq<Call>, clientId: string, class_: LimitClass): seq<int> {
    if calls == [] then []
    else (if IsBy(calls[0], clientId, class_) then [calls[0].now] else []) + TimesOf(calls[1..], clientId, class_)
  }

  /** The verdicts of a limiter that only ever serves one client and class. */
  function Alone(window: Option<Window>, limit: nat, times: seq<int>): (r: seq<Result<(), nat>>)
    ensures |r| == |times|
    decreases times
  {
    if times == [] then []
    else
      var (verdict, next) := Judge(window, limit, times[0]);
      [verdict] + Alone(Some(next), limit, times[1..])
  }

  lemma KeysDiffer(call: Call, clientId: string, class_: LimitClass)
    requires !IsBy(call, clientId, class_)
    ensures CallKey(call) != KeyOf(clientId, class_)
  {
    assert Name(Read)[0] != Name(Write)[0];
  }

  /** Calls of other clients and classes never matter: a client fares exactly as if it were served alone. */
  lemma {:induction false} OtherKeysNeverMatter(windows: map<Key, Window>, calls: seq<Call>, clientId: string, class_: LimitClass)
    ensures VerdictsFor(windows, calls, clientId, class_)
            == Alone(WindowAt(windows, KeyOf(clientId, class_)), Limit(class_), TimesOf(calls, clientId, class_))
    decreases calls
  {
    if calls != [] {
      if IsBy(calls[0], clientId, class_) {
        var times := TimesOf(calls, clientId, class_);
        assert times[0] == calls[0].now && times[1..] == TimesOf(calls[1..], clientId, class_);
        assert WindowAt(After(windows, calls[0]), KeyOf(clientId, class_)) == Some(Outcome(windows, calls[0]).1);
      } else {
        KeysDiffer(calls[0], clientId, class_);
        assert TimesOf(calls, clientId, class_) == TimesOf(calls[1..], clientId, class_);
      }
      OtherKeysNeverMatter(After(windows, calls[0]), calls[1..], clientId, class_);
    }
  }

  /** The clock never runs back. */
  ghost predicate Monotone(times: seq<int>) {
    forall i, j | 0 <= i < j < |times| :: times[i] <= times[j]
  }

  // ---------- how many calls are admitted ----------

  /** The calls admitted at times from `a` to `b`. */
  function Admitted(window: Option<Window>, limit: nat, times: seq<int>, a: int, b: int): nat
    decreases times
  {
    if times == [] then 0
    else
      var (verdict, next) := Judge(window, limit, times[0]);
      (if verdict.Ok? && a <= times[0] <= b then 1 else 0) + Admitted(Some(next), limit, times[1..], a, b)
  }

  /** A window that some calls left: it has admitted its first call, at its start, and at most the limit. */
  ghost predicate Live(w: Window, limit: nat, times: seq<int>) {
    1 <= w.count <= limit && forall i | 0 <= i < |times| :: w.start <= times[i]
  }

  lemma JudgeKeepsLive(w: Window, limit: nat, times: seq<int>)
    requires times != [] && Monotone(times) && Live(w, limit, times)
    ensures Live(Judge(Some(w), limit, times[0]).1, limit, times[1..]) && Monotone(times[1..])
  {
  }

  /** A window that starts inside a minute is the only one to admit calls in it. */
  lemma {:induction false} StartedInside(w: Window, limit: nat, times: seq<int>, a: int)
    requires Monotone(times) && Live(w, limit, times) && a <= w.start
    ensures Admitted(Some(w), limit, times, a, a + 59) <= limit - w.count
    decreases times
  {
    if times != [] {
      JudgeKeepsLive(w, limit, times);
      var next := Judge(Some(w), limit, times[0]).1;
      if next.start == w.start {
        StartedInside(next, limit, times[1..], a);
      } else {
        NothingAfter(next, limit, times[1..], a, a + 59);
      }
    }
  }

  lemma {:induction false} NothingAfter(w: Window, limit: nat, times: seq<int>, a: int, b: int)
    requires Monotone(times) && Live(w, limit, times) && b < w.start
    ensures Admitted(Some(w), limit, times, a, b) == 0
    decreases times
  {
    if times != [] {
      JudgeKeepsLive(w, limit, times);
      NothingAfter(Judge(Some(w), limit, times[0]).1, limit, times[1..], a, b);
    }
  }

  /** A window that started before a minute and reaches into it, and the one that may follow it there. */
  lemma {:induction false} ReachesInto(w: Window, limit: nat, times: seq<int>, a: int)
    requires Monotone(times) && Live(w, limit, times) && w.start < a
    requires forall i | 0 <= i < |times| :: a <= times[i]
    ensures Admitted(Some(w), limit, times, a, a + 59) <= 2 * limit - w.count
    decreases times
  {
    if times != [] {
      JudgeKeepsLive(w, limit, times);
      var next := Judge(Some(w), limit, times[0]).1;
      if next.start < a {
        ReachesInto(next, limit, times[1..], a);
      } else {
        StartedInside(next, limit, times[1..], a);
      }
    }
  }

  /** Calls before the minute do not count; from its first call on at most two windows admit in it. */
  lemma {:induction false} StartedBefore(w: Window, limit: nat, times: seq<int>, a: int)
    requires Monotone(times) && Live(w, limit, times) && w.start < a
    ensures Admitted(Some(w), limit, times, a, a + 59) <= 2 * limit - 1
    decreases times
  {
    if times != [] {
      if times[0] < a {
        JudgeKeepsLive(w, limit, times);
        StartedBefore(Judge(Some(w), limit, times[0]).1, limit, times[1..], a);
      } else {
        ReachesInto(w, limit, times, a);
      }
    }
  }

  /** In any 60 consecutive seconds at most twice the limit, less one, is admitted. */
  lemma MinuteBound(limit: nat, times: seq<int>, a: int)
    requires limit >= 1 && Monotone(times)
    ensures Admitted(None, limit, times, a, a + 59) <= 2 * limit - 1
  {
    if times != [] {
      var first := Judge(None, limit, times[0]).1;
      assert first == Window(times[0], 1);
      if times[0] < a {
        StartedBefore(first, limit, times[1..], a);
      } else {
        StartedInside(first, limit, times[1..], a);
      }
    }
  }

  /** With `seconds` left until the end, a live window and its successors admit one limit per started minute. */
  lemma {:induction false} RemainingBound(w: Window, limit: nat, times: seq<int>, a: int, seconds: nat)
    requires Monotone(times) && Live(w, limit, times)
    ensures Admitted(Some(w), limit, times, a, w.start + seconds) <= limit * (seconds / 60 + 1) - w.count
    decreases times
  {
    if times != [] {
      JudgeKeepsLive(w, limit, times);
      var next := Judge(Some(w), limit, times[0]).1;
      var gone := next.start - w.start;
      if gone == 0 {
        RemainingBound(next, limit, times[1..], a, seconds);
      } else if gone <= seconds {
        RemainingBound(next, limit, times[1..], a, seconds - gone);
        OneMinuteLess(limit, seconds, gone);
      } else {
        NothingAfter(next, limit, times[1..], a, w.start + seconds);
        MultipleIsMore(limit, seconds / 60);
      }
    } else {
      MultipleIsMore(limit, seconds / 60);
    }
  }

  lemma MultipleIsMore(limit: nat, n: nat)
    ensures limit * (n + 1) >= limit
  {
  }

  lemma OneMinuteLess(limit: nat, seconds: nat, gone: nat)
    requires 60 <= gone <= seconds
    ensures limit * ((seconds - gone) / 60 + 1) + limit <= limit * (seconds / 60 + 1)
  {
    var fewer, more := (seconds - gone) / 60 + 2, seconds / 60 + 1;
    assert fewer <= more;
    assert limit * fewer <= limit * more;
  }

  /** The first `seconds` seconds of a client's calls admit at most the limit for each started minute. */
  lemma FirstSecondsBound(limit: nat, times: seq<int>, seconds: nat)
    requires limit >= 1 && Monotone(times) && times != []
    ensures Admitted(None, limit, times, times[0], times[0] + seconds) <= limit * (seconds / 60 + 1)
  {
    RemainingBound(Window(times[0], 1), limit, times[1..], times[0], seconds);
  }

  // ---------- when a refused caller gets in again ----------

  /** Until the announced time is over a full window stays full; the first call after it opens a new one. */
  lemma {:induction false} FullUntil(w: Window, limit: nat, times: seq<int>, j: nat)
    requires limit >= 1 && w.count >= limit && j < |times|
    requires times[j] >= w.start + 60 && forall k | 0 <= k < j :: times[k] < w.start + 60
    ensures Alone(Some(w), limit, times)[j] == Ok(())
    ensures forall k | 0 <= k < j :: Alone(Some(w), limit, times)[k].Err?
    decreases times
  {
    if j > 0 {
      FullUntil(w, limit, times[1..], j - 1);
    }
  }

  /**
   A refused caller is told the truth: its first call that comes at least the returned number of seconds later is
   admitted, and none is before.
   */
  lemma {:induction false} RetryIsHonoured(window: Option<Window>, limit: nat, times: seq<int>, i: nat, j: nat)
    requires limit >= 1 && Monotone(times) && i < j < |times|
    requires window.None? || Live(window.value, limit, times)
    requires Alone(window, limit, times)[i].Err?
    requires var ready := times[i] + Alone(window, limit, times)[i].error;
             times[j] >= ready && forall k | i < k < j :: times[k] < ready
    ensures Alone(window, limit, times)[j] == Ok(())
    ensures forall k | i < k < j :: Alone(window, limit, times)[k].Err?
    decreases times
  {
    var next := Judge(window, limit, times[0]).1;
    if window.Some? {
      JudgeKeepsLive(window.value, limit, times);
    }
    if i == 0 {
      FullUntil(next, limit, times[1..], j - 1);
    } else {
      RetryIsHonoured(Some(next), limit, times[1..], i - 1, j - 1);
    }
  }

  // ---------- the bounds for the limiter as a whole ----------

  /**
   For every run of calls by everybody under a clock that never runs back, and every client and class: the verdicts are
   those of the client alone, any 60 seconds admit fewer than twice the limit, and the first T seconds admit at most
   the limit for each started minute.
   */
  lemma LimitsHold(calls: seq<Call>, clientId: string, class_: LimitClass, a: int, seconds: nat)
    requires Monotone(TimesOf(calls, clientId, class_))
    ensures var times := TimesOf(calls, clientId, class_);
            && VerdictsFor(map[], calls, clientId, class_) == Alone(None, Limit(class_), times)
            && Admitted(None, Limit(class_), times, a, a + 59) < 2 * Limit(class_)
            && (times != [] ==>
                  Admitted(None, Limit(class_), times, times[0], times[0] + seconds) <= Limit(class_) * (seconds / 60 + 1))
  {
    OtherKeysNeverMatter(map[], calls, clientId, class_);
    MinuteBound(Limit(class_), TimesOf(calls, clientId, class_), a);
    if TimesOf(calls, clientId, class_) != [] {
      FirstSecondsBound(Limit(class_), TimesOf(calls, clientId, class_), seconds);
    }
  }

  // ---------- the bound is met ----------

  function Repeat(t: int, n: nat): (times: seq<int>)
    ensures |times| == n && forall i | 0 <= i < n :: times[i] == t
  {
    if n == 0 then [] else [t] + Repeat(t, n - 1)
  }

  /** Calls at one moment before the end of a window are admitted as long as there is room. */
  lemma {:induction false} BurstAdmitted(w: Window, limit: nat, t: int, n: nat, rest: seq<int>, a: int, b: int)
    requires t < w.start + 60 && w.count + n <= limit && a <= t <= b
    ensures Admitted(Some(w), limit, Repeat(t, n) + rest, a, b)
            == n + Admitted(Some(Window(w.start, w.count + n)), limit, rest, a, b)
    decreases n
  {
    if n == 0 {
      assert Repeat(t, n) + rest == rest;
    } else {
      var times := Repeat(t, n) + rest;
      assert times[1..] == Repeat(t, n - 1) + rest && times[0] == t;
      BurstAdmitted(Window(w.start, w.count + 1), limit, t, n - 1, rest, a, b);
    }
  }

  /** One call at second 0, the rest of the limit at 59 and a full limit at 60: the minute from 1 to 60 admits 2n - 1. */
  lemma MinuteBoundIsMet(limit: nat)
    requires limit >= 1
    ensures Admitted(None, limit, [0] + Repeat(59, limit - 1) + Repeat(60, limit), 1, 60) == 2 * limit - 1
  {
    var late := Repeat(60, limit);
    var times := [0] + Repeat(59, limit - 1) + late;
    assert times[1..] == Repeat(59, limit - 1) + late;
    BurstAdmitted(Window(0, 1), limit, 59, limit - 1, late, 1, 60);
    assert late == [60] + Repeat(60, limit - 1) && late[1..] == Repeat(60, limit - 1) + [];
    BurstAdmitted(Window(60, 1), limit, 60, limit - 1, [], 1, 60);
    assert Judge(Some(Window(0, limit)), limit, 60).1 == Window(60, 1);
  }

  // ---------- clocks that run back ----------

  /** A later reading of the clock never falls more than `d` below an earlier one. */
  ghost predicate FallsAtMost(times: seq<int>, d: nat) {
    forall i, j | 0 <= i < j < |times| :: times[j] >= times[i] - d
  }

  /** A window that some calls left, where no call to come reads a time more than `d` before its start. */
  ghost predicate LiveUpTo(w: Window, limit: nat, times: seq<int>, d: nat) {
    1 <= w.count <= limit && forall i | 0 <= i < |times| :: times[i] >= w.start - d
  }

  lemma JudgeKeepsLiveUpTo(w: Window, limit: nat, times: seq<int>, d: nat)
    requires times != [] && FallsAtMost(times, d) && LiveUpTo(w, limit, times, d)
    ensures LiveUpTo(Judge(Some(w), limit, times[0]).1, limit, times[1..], d) && FallsAtMost(times[1..], d)
  {
  }

  /** How many windows can start from `start` on, 60 seconds apart, until `last`. */
  function Starts(start: int, last: int): nat {
    if start > last then 0 else (last - start) / 60 + 1
  }

  lemma {:induction false} NoneInRange(window: Option<Window>, limit: nat, times: seq<int>, a: int, b: int)
    requires forall i | 0 <= i < |times| :: times[i] > b
    ensures Admitted(window, limit, times, a, b) == 0
    decreases times
  {
    if times != [] {
      NoneInRange(Some(Judge(window, limit, times[0]).1), limit, times[1..], a, b);
    }
  }

  lemma OneStartLess(limit: nat, start: int, next: int, last: int)
    requires start + 60 <= next <= last
    ensures limit * Starts(next, last) + limit <= limit * Starts(start, last)
  {
    var fewer, more := Starts(next, last) + 1, Starts(start, last);
    assert fewer <= more;
    assert limit * fewer <= limit * more;
  }

  /** Only windows that start by `a + 59 + d` admit calls that read a time in the minute from `a`. */
  lemma {:induction false} FromWindow(w: Window, limit: nat, times: seq<int>, a: int, d: nat)
    requires FallsAtMost(times, d) && LiveUpTo(w, limit, times, d) && w.start <= a + 59 + d
    ensures Admitted(Some(w), limit, times, a, a + 59) <= limit * Starts(w.start, a + 59 + d) - w.count
    decreases times
  {
    var last := a + 59 + d;
    MultipleIsMore(limit, (last - w.start) / 60);
    if times != [] {
      JudgeKeepsLiveUpTo(w, limit, times, d);
      var next := Judge(Some(w), limit, times[0]).1;
      if next.start == w.start {
        FromWindow(next, limit, times[1..], a, d);
      } else if next.start <= last {
        FromWindow(next, limit, times[1..], a, d);
        OneStartLess(limit, w.start, next.start, last);
      } else {
        NoneInRange(Some(next), limit, times[1..], a, a + 59);
      }
    }
  }

  lemma MoreStarts(limit: nat, start: int, a: int, d: nat)
    requires a - 59 <= start <= a + 59 + d
    ensures limit * Starts(start, a + 59 + d) <= limit * ((118 + d) / 60 + 1)
  {
    assert Starts(start, a + 59 + d) <= (118 + d) / 60 + 1;
  }

  /** A window that ended before the minute admits nothing in it; those that follow start within 118 + d seconds. */
  lemma {:induction false} BeforeMinute(w: Window, limit: nat, times: seq<int>, a: int, d: nat)
    requires FallsAtMost(times, d) && LiveUpTo(w, limit, times, d) && w.start < a - 59
    ensures Admitted(Some(w), limit, times, a, a + 59) <= limit * ((118 + d) / 60 + 1)
    decreases times, 0
  {
    if times != [] {
      JudgeKeepsLiveUpTo(w, limit, times, d);
      AfterFirst(Judge(Some(w), limit, times[0]).1, limit, times[1..], a, d);
    }
  }

  /** What the calls after the first of a window, or after any call that is not counted, can add. */
  lemma {:induction false} AfterFirst(w: Window, limit: nat, times: seq<int>, a: int, d: nat)
    requires FallsAtMost(times, d) && LiveUpTo(w, limit, times, d)
    ensures Admitted(Some(w), limit, times, a, a + 59) + (if a - 59 <= w.start <= a + 59 + d then w.count else 0)
            <= limit * ((118 + d) / 60 + 1)
    decreases times, 1
  {
    if w.start < a - 59 {
      BeforeMinute(w, limit, times, a, d);
    } else if w.start <= a + 59 + d {
      FromWindow(w, limit, times, a, d);
      MoreStarts(limit, w.start, a, d);
    } else {
      NoneInRange(Some(w), limit, times, a, a + 59);
    }
  }

  /**
   With a clock that never falls back by more than `d` seconds, at most (118 + d) / 60 + 1 windows admit calls in any 60
   consecutive seconds of readings.
   */
  lemma MinuteBoundWithFalls(limit: nat, times: seq<int>, a: int, d: nat)
    requires limit >= 1 && FallsAtMost(times, d)
    ensures Admitted(None, limit, times, a, a + 59) <= limit * ((118 + d) / 60 + 1)
  {
    if times != [] {
      AfterFirst(Window(times[0], 1), limit, times[1..], a, d);
    }
  }

  /** One call at 60, 120, .. each, and after it the clock falls back to 0 for the rest of the limit. */
  function Rounds(limit: nat, k: nat, n: nat): seq<int>
    requires limit >= 1
    decreases n - k
  {
    if k >= n then [] else [60 * (k + 1)] + Repeat(0, limit - 1) + Rounds(limit, k + 1, n)
  }

  lemma {:induction false} RoundsRange(limit: nat, k: nat, n: nat)
    requires limit >= 1
    ensures forall t | t in Rounds(limit, k, n) :: 0 <= t <= 60 * n
    decreases n - k
  {
    if k < n {
      RoundsRange(limit, k + 1, n);
    }
  }

  lemma {:induction false} RoundsAdmitted(w: Window, limit: nat, k: nat, n: nat)
    requires limit >= 1 && k <= n && w.start == 60 * k
    ensures Admitted(Some(w), limit, Rounds(limit, k, n), 0, 59) == (n - k) * (limit - 1)
    decreases n - k
  {
    if k < n {
      var rest := Rounds(limit, k + 1, n);
      var times := Rounds(limit, k, n);
      assert times[0] == 60 * (k + 1) && times[1..] == Repeat(0, limit - 1) + rest;
      var next := Window(60 * (k + 1), 1);
      assert Judge(Some(w), limit, times[0]) == (Ok(()), next);
      BurstAdmitted(next, limit, 0, limit - 1, rest, 0, 59);
      RoundsAdmitted(Window(60 * (k + 1), limit), limit, k + 1, n);
      assert (n - k) * (limit - 1) == (n - (k + 1)) * (limit - 1) + (limit - 1);
    }
  }

  /** Without a bound on the falls there is none on the calls: n falls to the same second admit n times limit - 1 in it. */
  lemma UnboundedFalls(limit: nat, n: nat)
    requires limit >= 1
    ensures var times := [0] + Rounds(limit, 0, n);
            FallsAtMost(times, 60 * n) && Admitted(None, limit, times, 0, 59) == n * (limit - 1) + 1
  {
    var times := [0] + Rounds(limit, 0, n);
    RoundsRange(limit, 0, n);
    assert forall t | t in times :: 0 <= t <= 60 * n;
    assert forall i | 0 <= i < |times| :: times[i] in times;
    assert times[1..] == Rounds(limit, 0, n);
    RoundsAdmitted(Window(0, 1), limit, 0, n);
  }

  // ---------- the limits themselves ----------

  /** 100 reads and 30 writes, counted apart for each client. */
  lemma LimitsAre(clientId: string)
    ensures Limit(Read) == 100 && Limit(Write) == 30
    ensures KeyOf(clientId, Read) == (clientId, "read") && KeyOf(clientId, Write) == (clientId, "write")
  {
  }

  /** One call: a window that is missing or 60 seconds old is started anew, and a full one refuses. */
  lemma JudgeIs(window: Option<Window>, limit: nat, now: int)
    ensures var stale := window.None? || now - window.value.start >= 60;
            var w := if stale then Window(now, 0) else window.value;
            && (Judge(window, limit, now).0.Ok? <==> w.count < limit)
            && (w.count < limit ==> Judge(window, limit, now).1 == Window(w.start, w.count + 1))
            && (w.count >= limit ==> Judge(window, limit, now).1 == w)
            && (w.count >= limit && now - w.start < 60 ==> Judge(window, limit, now).0 == Err(60 - (now - w.start)))
  {
  }

  /** In numbers: no client gets more than 199 reads or 59 writes into any minute, and each fares as if it were alone. */
  lemma MinutesInNumbers(calls: seq<Call>, clientId: string, a: int)
    requires Monotone(TimesOf(calls, clientId, Read)) && Monotone(TimesOf(calls, clientId, Write))
    ensures Admitted(None, 100, TimesOf(calls, clientId, Read), a, a + 59) <= 199
    ensures Admitted(None, 30, TimesOf(calls, clientId, Write), a, a + 59) <= 59
    ensures VerdictsFor(map[], calls, clientId, Read) == Alone(None, 100, TimesOf(calls, clientId, Read))
    ensures VerdictsFor(map[], calls, clientId, Write) == Alone(None, 30, TimesOf(calls, clientId, Write))
  {
    LimitsHold(calls, clientId, Read, a, 0);
    LimitsHold(calls, clientId, Write, a, 0);
  }
}
