/** The fixed-window rate limiter in front of credentials and logins, and how many it can let through in a minute. */
module RateLimiter {
  import opened Options

  type Key(==, !new)

  const WINDOW_LENGTH: int := 60_000

  datatype Limits = Limits(global: nat, perKey: nat)

  datatype Limiter = Limiter(windowStartedAt: int, globalCount: nat, keyCounts: map<Key, nat>)

  function CountOf(l: Limiter, key: Key): nat {
    if key in l.keyCounts then l.keyCounts[key] else 0
  }

  function Rolled(l: Limiter, now: int): Limiter {
    if now - l.windowStartedAt >= WINDOW_LENGTH then Limiter(now, 0, map[]) else l
  }

  predicate Admits(l: Limiter, key: Key, now: int, limits: Limits) {
    var rolled := Rolled(l, now);
    rolled.globalCount < limits.global && CountOf(rolled, key) < limits.perKey
  }

  function Admit(l: Limiter, key: Key, now: int, limits: Limits): Limiter {
    var rolled := Rolled(l, now);
    if Admits(l, key, now, limits)
    then rolled.(globalCount := rolled.globalCount + 1, keyCounts := rolled.keyCounts[key := CountOf(rolled, key) + 1])
    else rolled
  }

  class FixedWindowRateLimiter {
    const limits: Limits
    var windowStartedAt: int
    var globalCount: nat
    var keyCounts: map<Key, nat>

    function Value(): Limiter
      reads this
    {
      Limiter(windowStartedAt, globalCount, keyCounts)
    }

    constructor (limits: Limits, now: int)
      ensures this.limits == limits && Value() == Limiter(now, 0, map[])
    {
      this.limits := limits;
      windowStartedAt, globalCount, keyCounts := now, 0, map[];
    }

    method AdmitKey(key: Key, now: int) returns (ok: bool)
      modifies this
      ensures ok == Admits(old(Value()), key, now, limits)
      ensures Value() == Admit(old(Value()), key, now, limits)
    {
      if now - windowStartedAt >= WINDOW_LENGTH {
        windowStartedAt, globalCount, keyCounts := now, 0, map[];
      }
      var keyCount := if key in keyCounts then keyCounts[key] else 0;
      if globalCount >= limits.global || keyCount >= limits.perKey {
        return false;
      }
      globalCount := globalCount + 1;
      keyCounts := keyCounts[key := keyCount + 1];
      return true;
    }
  }

  // -------------------------------------------------------------- whole runs

  /** An admission, with the number of the window it fell into. */
  datatype Admission = Admission(key: Key, time: int, window: nat)

  /** The limiter, every admission so far, and the start of every window so far. */
  datatype History = History(limiter: Limiter, log: seq<Admission>, starts: seq<int>)

  datatype Call = Call(key: Key, now: int)

  /** The window rolls over first, if its time has come. */
  function Roll(h: History, now: int): History {
    if now - h.limiter.windowStartedAt >= WINDOW_LENGTH
    then History(Rolled(h.limiter, now), h.log, h.starts + [now])
    else h
  }

  /** An admission counts in the current window. */
  function Enter(h: History, call: Call): History {
    History(h.limiter.(globalCount := h.limiter.globalCount + 1,
                       keyCounts := h.limiter.keyCounts[call.key := CountOf(h.limiter, call.key) + 1]),
            if h.starts == [] then h.log else h.log + [Admission(call.key, call.now, |h.starts| - 1)],
            h.starts)
  }

  function Ask(h: History, call: Call, limits: Limits): History {
    var rolled := Roll(h, call.now);
    if Admits(h.limiter, call.key, call.now, limits) then Enter(rolled, call) else rolled
  }

  /** The calls that the limiter lets through, one after the other. */
  function Admitted(l: Limiter, calls: seq<Call>, limits: Limits): seq<Call>
    decreases |calls|
  {
    if calls == [] then []
    else
      var rest := Admitted(Admit(l, calls[0].key, calls[0].now, limits), calls[1..], limits);
      if Admits(l, calls[0].key, calls[0].now, limits) then [calls[0]] + rest else rest
  }

  function CallsBetween(calls: seq<Call>, key: Option<Key>, from: int, to: int): nat {
    if calls == [] then 0
    else
      var last := calls[|calls| - 1];
      CallsBetween(calls[..|calls| - 1], key, from, to)
      + if (key.None? || key.value == last.key) && from <= last.now < to then 1 else 0
  }

  function AskAll(h: History, calls: seq<Call>, limits: Limits): History
    decreases |calls|
  {
    if calls == [] then h else AskAll(Ask(h, calls[0], limits), calls[1..], limits)
  }

  function Begin(now: int): History {
    History(Limiter(now, 0, map[]), [], [now])
  }

  /** All admissions, or those of one key. */
  predicate Selected(a: Admission, key: Option<Key>) {
    key.None? || key.value == a.key
  }

  function LimitOf(limits: Limits, key: Option<Key>): nat {
    if key.None? then limits.global else limits.perKey
  }

  function InWindow(log: seq<Admission>, key: Option<Key>, window: int): nat {
    if log == [] then 0
    else
      var last := log[|log| - 1];
      InWindow(log[..|log| - 1], key, window) + if Selected(last, key) && last.window == window then 1 else 0
  }

  function Between(log: seq<Admission>, key: Option<Key>, from: int, to: int): nat {
    if log == [] then 0
    else
      var last := log[|log| - 1];
      Between(log[..|log| - 1], key, from, to) + if Selected(last, key) && from <= last.time < to then 1 else 0
  }

  function Current(l: Limiter, key: Option<Key>): nat {
    if key.None? then l.globalCount else CountOf(l, key.value)
  }

  ghost predicate Apart(starts: seq<int>) {
    forall v, w | 0 <= v < w < |starts| :: starts[w] - starts[v] >= (w - v) * WINDOW_LENGTH
  }

  ghost predicate Placed(a: Admission, starts: seq<int>) {
    a.window < |starts| && starts[a.window] <= a.time < starts[a.window] + WINDOW_LENGTH
  }

  ghost predicate Spaced(h: History) {
    && h.starts != [] && h.starts[|h.starts| - 1] == h.limiter.windowStartedAt
    && Apart(h.starts)
    && (forall i | 0 <= i < |h.log| :: Placed(h.log[i], h.starts))
  }

  ghost predicate Bounded(h: History, limits: Limits) {
    && (forall key: Option<Key> :: InWindow(h.log, key, |h.starts| - 1) == Current(h.limiter, key))
    && (forall key: Option<Key>, w: int :: InWindow(h.log, key, w) <= LimitOf(limits, key))
    && (forall key: Option<Key>, w: int | w >= |h.starts| :: InWindow(h.log, key, w) == 0)
  }

  lemma InWindowAppend(log: seq<Admission>, a: Admission, key: Option<Key>, w: int)
    ensures InWindow(log + [a], key, w) == InWindow(log, key, w) + if Selected(a, key) && a.window == w then 1 else 0
  {
    assert (log + [a])[..|log|] == log;
  }

  lemma RollKeepsSpaced(h: History, now: int)
    requires Spaced(h) && now >= h.limiter.windowStartedAt
    ensures var next := Roll(h, now);
            Spaced(next) && next.limiter.windowStartedAt <= now < next.limiter.windowStartedAt + WINDOW_LENGTH
  {
    var next := Roll(h, now);
    if now - h.limiter.windowStartedAt >= WINDOW_LENGTH {
      ApartAppend(h.starts, now);
      forall i | 0 <= i < |h.log| ensures Placed(h.log[i], next.starts) {
        PlacedStays(h.log[i], h.starts, next.starts);
      }
    }
  }

  lemma EnterKeepsSpaced(h: History, call: Call)
    requires Spaced(h) && h.limiter.windowStartedAt <= call.now < h.limiter.windowStartedAt + WINDOW_LENGTH
    ensures Spaced(Enter(h, call))
  {
    var next := Enter(h, call);
    assert Placed(Admission(call.key, call.now, |h.starts| - 1), h.starts);
    forall i | 0 <= i < |next.log| ensures Placed(next.log[i], next.starts) {
      assert i < |h.log| ==> next.log[i] == h.log[i];
    }
  }

  lemma AskKeepsSpaced(h: History, call: Call, limits: Limits)
    requires Spaced(h) && call.now >= h.limiter.windowStartedAt
    ensures Spaced(Ask(h, call, limits))
  {
    RollKeepsSpaced(h, call.now);
    EnterKeepsSpaced(Roll(h, call.now), call);
  }

  lemma ApartAppend(starts: seq<int>, now: int)
    requires Apart(starts) && starts != [] && now - starts[|starts| - 1] >= WINDOW_LENGTH
    ensures Apart(starts + [now])
  {
    var next := starts + [now];
    var last := |starts| - 1;
    forall v, w | 0 <= v < w < |next| ensures next[w] - next[v] >= (w - v) * WINDOW_LENGTH {
      if w == |starts| && v < last {
        assert starts[last] - starts[v] >= (last - v) * WINDOW_LENGTH;
      }
    }
  }

  lemma PlacedStays(a: Admission, starts: seq<int>, next: seq<int>)
    requires Placed(a, starts) && starts <= next
    ensures Placed(a, next)
  {
  }

  lemma RollKeepsBounded(h: History, now: int, limits: Limits)
    requires Bounded(h, limits)
    ensures Bounded(Roll(h, now), limits)
  {
    var next := Roll(h, now);
    if now - h.limiter.windowStartedAt >= WINDOW_LENGTH {
      assert next.log == h.log && |next.starts| == |h.starts| + 1;
      assert forall key: Option<Key> :: InWindow(h.log, key, |h.starts|) == 0 == Current(next.limiter, key);
    }
  }

  lemma EnterCounts(h: History, call: Call, key: Option<Key>, w: int)
    requires h.starts != []
    ensures InWindow(Enter(h, call).log, key, w)
            == InWindow(h.log, key, w) + if (key.None? || key.value == call.key) && w == |h.starts| - 1 then 1 else 0
  {
    InWindowAppend(h.log, Admission(call.key, call.now, |h.starts| - 1), key, w);
  }

  lemma EnterCurrent(h: History, call: Call, key: Option<Key>)
    ensures Current(Enter(h, call).limiter, key)
            == Current(h.limiter, key) + if key.None? || key.value == call.key then 1 else 0
  {
  }

  lemma EnterKeepsBounded(h: History, call: Call, limits: Limits)
    requires Bounded(h, limits) && h.starts != []
    requires h.limiter.globalCount < limits.global && CountOf(h.limiter, call.key) < limits.perKey
    ensures Bounded(Enter(h, call), limits)
  {
    var next := Enter(h, call);
    var now := |h.starts| - 1;
    forall key: Option<Key>
      ensures InWindow(next.log, key, now) == Current(next.limiter, key) <= LimitOf(limits, key)
    {
      EnterCounts(h, call, key, now);
      EnterCurrent(h, call, key);
      assert InWindow(h.log, key, now) == Current(h.limiter, key);
      assert InWindow(h.log, key, now) <= LimitOf(limits, key);
    }
    forall key: Option<Key>, w: int | w != now ensures InWindow(next.log, key, w) == InWindow(h.log, key, w) {
      EnterCounts(h, call, key, w);
    }
  }

  lemma AskKeepsBounded(h: History, call: Call, limits: Limits)
    requires Spaced(h) && Bounded(h, limits)
    ensures Bounded(Ask(h, call, limits), limits)
  {
    RollKeepsBounded(h, call.now, limits);
    if Admits(h.limiter, call.key, call.now, limits) {
      EnterKeepsBounded(Roll(h, call.now), call, limits);
    }
  }

  ghost predicate ClockRises(h: History, calls: seq<Call>) {
    && (forall i | 0 <= i < |calls| :: h.limiter.windowStartedAt <= calls[i].now)
    && (forall i, j | 0 <= i < j < |calls| :: calls[i].now <= calls[j].now)
  }

  lemma {:induction false} EveryRunIsBounded(h: History, calls: seq<Call>, limits: Limits)
    requires Spaced(h) && Bounded(h, limits) && ClockRises(h, calls)
    ensures Spaced(AskAll(h, calls, limits)) && Bounded(AskAll(h, calls, limits), limits)
    decreases |calls|
  {
    if calls != [] {
      AskKeepsSpaced(h, calls[0], limits);
      AskKeepsBounded(h, calls[0], limits);
      EveryRunIsBounded(Ask(h, calls[0], limits), calls[1..], limits);
    }
  }

  // ------------------------------------------------------------- any minute

  lemma {:induction false} AtMostTwoWindows(log: seq<Admission>, key: Option<Key>, from: int, to: int, w: int)
    requires forall i | 0 <= i < |log| && from <= log[i].time < to :: log[i].window == w || log[i].window == w + 1
    ensures Between(log, key, from, to) <= InWindow(log, key, w) + InWindow(log, key, w + 1)
  {
    if log != [] {
      AtMostTwoWindows(log[..|log| - 1], key, from, to, w);
    }
  }

  lemma {:induction false} NothingBetween(log: seq<Admission>, key: Option<Key>, from: int, to: int)
    requires forall i | 0 <= i < |log| :: !(from <= log[i].time < to)
    ensures Between(log, key, from, to) == 0
  {
    if log != [] {
      NothingBetween(log[..|log| - 1], key, from, to);
    }
  }

  /** The smallest window number among the admissions of a span. */
  lemma {:induction false} FirstWindow(log: seq<Admission>, from: int, to: int) returns (w: nat)
    requires exists i | 0 <= i < |log| :: from <= log[i].time < to
    ensures exists i | 0 <= i < |log| :: from <= log[i].time < to && log[i].window == w
    ensures forall i | 0 <= i < |log| && from <= log[i].time < to :: w <= log[i].window
  {
    var last := |log| - 1;
    if exists i | 0 <= i < last :: from <= log[i].time < to {
      var rest := log[..last];
      assert exists i | 0 <= i < |rest| :: from <= rest[i].time < to by {
        var i :| 0 <= i < last && from <= log[i].time < to;
        assert rest[i] == log[i];
      }
      w := FirstWindow(rest, from, to);
      var k :| 0 <= k < |rest| && from <= rest[k].time < to && rest[k].window == w;
      assert log[k] == rest[k];
      assert forall i | 0 <= i < last :: rest[i] == log[i];
      if from <= log[last].time < to && log[last].window < w {
        w := log[last].window;
      }
    } else {
      w := log[last].window;
    }
  }

  /**
   No span of a minute, wherever it starts, sees more than twice the limit: a
   span can touch two windows, but never three.
   */
  lemma MinuteIsBounded(start: int, calls: seq<Call>, limits: Limits, key: Option<Key>, from: int)
    requires ClockRises(Begin(start), calls)
    ensures CallsBetween(Admitted(Limiter(start, 0, map[]), calls, limits), key, from, from + 60_000)
            <= 2 * LimitOf(limits, key)
  {
    var h := AskAll(Begin(start), calls, limits);
    EveryRunIsBounded(Begin(start), calls, limits);
    SpanIsBounded(h, limits, key, from, from + WINDOW_LENGTH);
    LogIsAdmitted(Begin(start), calls, limits);
    assert [] + Admitted(Begin(start).limiter, calls, limits) == Admitted(Begin(start).limiter, calls, limits);
    LogCounts(h.log, key, from, from + WINDOW_LENGTH);
  }

  function CallsOf(log: seq<Admission>): seq<Call> {
    seq(|log|, i requires 0 <= i < |log| => Call(log[i].key, log[i].time))
  }

  /** The history is the limiter's own: what it logs is what the limiter admits. */
  lemma AskIsAdmit(h: History, call: Call, limits: Limits)
    requires h.starts != []
    ensures var next := Ask(h, call, limits);
            && next.limiter == Admit(h.limiter, call.key, call.now, limits) && next.starts != []
            && CallsOf(next.log)
               == CallsOf(h.log) + if Admits(h.limiter, call.key, call.now, limits) then [call] else []
  {
  }

  lemma {:induction false} LogIsAdmitted(h: History, calls: seq<Call>, limits: Limits)
    requires h.starts != []
    ensures CallsOf(AskAll(h, calls, limits).log) == CallsOf(h.log) + Admitted(h.limiter, calls, limits)
    decreases |calls|
  {
    if calls != [] {
      AskIsAdmit(h, calls[0], limits);
      LogIsAdmitted(Ask(h, calls[0], limits), calls[1..], limits);
    }
  }

  lemma {:induction false} LogCounts(log: seq<Admission>, key: Option<Key>, from: int, to: int)
    ensures CallsBetween(CallsOf(log), key, from, to) == Between(log, key, from, to)
  {
    if log != [] {
      var calls := CallsOf(log);
      assert calls[..|calls| - 1] == CallsOf(log[..|log| - 1]);
      LogCounts(log[..|log| - 1], key, from, to);
    }
  }

  lemma SpanIsBounded(h: History, limits: Limits, key: Option<Key>, from: int, to: int)
    requires Spaced(h) && Bounded(h, limits) && to == from + WINDOW_LENGTH
    ensures Between(h.log, key, from, to) <= 2 * LimitOf(limits, key)
  {
    if exists i | 0 <= i < |h.log| :: from <= h.log[i].time < to {
      var w := FirstWindow(h.log, from, to);
      var k :| 0 <= k < |h.log| && from <= h.log[k].time < to && h.log[k].window == w;
      forall i | 0 <= i < |h.log| && from <= h.log[i].time < to
        ensures h.log[i].window == w || h.log[i].window == w + 1
      {
        NoThirdWindow(h.starts, h.log[k], h.log[i], from, to);
      }
      AtMostTwoWindows(h.log, key, from, to, w);
    } else {
      NothingBetween(h.log, key, from, to);
    }
  }

  lemma NoThirdWindow(starts: seq<int>, a: Admission, b: Admission, from: int, to: int)
    requires Apart(starts) && Placed(a, starts) && Placed(b, starts) && to == from + WINDOW_LENGTH
    requires from <= a.time < to && from <= b.time < to && a.window <= b.window
    ensures b.window == a.window || b.window == a.window + 1
  {
  }

  // -------------------------------------------------------- no refusal too early

  lemma {:induction false} AdmittedAreCalls(l: Limiter, calls: seq<Call>, limits: Limits)
    ensures forall a | a in Admitted(l, calls, limits) :: a in calls
    decreases |calls|
  {
    if calls != [] {
      AdmittedAreCalls(Admit(l, calls[0].key, calls[0].now, limits), calls[1..], limits);
      assert calls == [calls[0]] + calls[1..];
    }
  }

  lemma {:induction false} WindowIsBetween(log: seq<Admission>, key: Option<Key>, from: int, to: int, w: int)
    requires forall i | 0 <= i < |log| && log[i].window == w :: from <= log[i].time < to
    ensures InWindow(log, key, w) <= Between(log, key, from, to)
  {
    if log != [] {
      WindowIsBetween(log[..|log| - 1], key, from, to, w);
    }
  }

  lemma LoggedInTheLastMinute(h: History, limits: Limits, key: Option<Key>, now: int)
    requires Spaced(h) && Bounded(h, limits)
    requires h.limiter.windowStartedAt <= now < h.limiter.windowStartedAt + WINDOW_LENGTH
    requires forall i | 0 <= i < |h.log| :: h.log[i].time <= now
    ensures Current(h.limiter, key) <= Between(h.log, key, now - WINDOW_LENGTH + 1, now + 1)
  {
    var last := |h.starts| - 1;
    forall i | 0 <= i < |h.log| && h.log[i].window == last
      ensures now - WINDOW_LENGTH + 1 <= h.log[i].time < now + 1
    {
      assert Placed(h.log[i], h.starts);
    }
    WindowIsBetween(h.log, key, now - WINDOW_LENGTH + 1, now + 1, last);
    assert InWindow(h.log, key, last) == Current(h.limiter, key);
  }

  lemma LogIsPast(start: int, calls: seq<Call>, limits: Limits, now: int)
    requires forall i | 0 <= i < |calls| :: calls[i].now <= now
    ensures forall i | 0 <= i < |AskAll(Begin(start), calls, limits).log| ::
              AskAll(Begin(start), calls, limits).log[i].time <= now
  {
    var h := AskAll(Begin(start), calls, limits);
    LogIsAdmitted(Begin(start), calls, limits);
    AdmittedAreCalls(Begin(start).limiter, calls, limits);
    assert CallsOf([]) + Admitted(Begin(start).limiter, calls, limits) == Admitted(Begin(start).limiter, calls, limits);
    forall i | 0 <= i < |h.log| ensures h.log[i].time <= now {
      var a := CallsOf(h.log)[i];
      assert a in Admitted(Begin(start).limiter, calls, limits) && a in calls;
      var k :| 0 <= k < |calls| && calls[k] == a;
    }
  }

  lemma RolledHistory(start: int, calls: seq<Call>, limits: Limits, now: int)
    requires ClockRises(Begin(start), calls) && start <= now && forall i | 0 <= i < |calls| :: calls[i].now <= now
    ensures var rolled := Roll(AskAll(Begin(start), calls, limits), now);
            && Spaced(rolled) && Bounded(rolled, limits)
            && rolled.limiter.windowStartedAt <= now < rolled.limiter.windowStartedAt + WINDOW_LENGTH
            && rolled.limiter == Rolled(AskAll(Begin(start), calls, limits).limiter, now)
            && rolled.log == AskAll(Begin(start), calls, limits).log
  {
    EveryRunIsBounded(Begin(start), calls, limits);
    StartedBefore(Begin(start), calls, limits, now);
    RollKeepsSpaced(AskAll(Begin(start), calls, limits), now);
    RollKeepsBounded(AskAll(Begin(start), calls, limits), now, limits);
  }

  /** What the limiter counts now was admitted within the last sixty seconds. */
  lemma CountIsRecent(start: int, calls: seq<Call>, limits: Limits, now: int, key: Option<Key>)
    requires ClockRises(Begin(start), calls) && start <= now && forall i | 0 <= i < |calls| :: calls[i].now <= now
    ensures Current(Rolled(AskAll(Begin(start), calls, limits).limiter, now), key)
            <= CallsBetween(Admitted(Limiter(start, 0, map[]), calls, limits), key, now - WINDOW_LENGTH + 1, now + 1)
  {
    var h := AskAll(Begin(start), calls, limits);
    RolledHistory(start, calls, limits, now);
    LogIsPast(start, calls, limits, now);
    LoggedInTheLastMinute(Roll(h, now), limits, key, now);
    LogIsAdmitted(Begin(start), calls, limits);
    assert [] + Admitted(Begin(start).limiter, calls, limits) == Admitted(Begin(start).limiter, calls, limits);
    LogCounts(h.log, key, now - WINDOW_LENGTH + 1, now + 1);
  }

  /**
   A call is refused only when the limit is used up: as many calls as the limit
   allows, in total or for its key, were admitted within the last sixty seconds.
   */
  lemma {:induction false} RefusedOnlyAtTheLimit(start: int, calls: seq<Call>, limits: Limits, call: Call)
    requires ClockRises(Begin(start), calls) && start <= call.now
    requires forall i | 0 <= i < |calls| :: calls[i].now <= call.now
    requires !Admits(AskAll(Begin(start), calls, limits).limiter, call.key, call.now, limits)
    ensures var admitted := Admitted(Limiter(start, 0, map[]), calls, limits);
            var from := call.now - 60_000 + 1;
            || CallsBetween(admitted, None, from, call.now + 1) >= limits.global
            || CallsBetween(admitted, Some(call.key), from, call.now + 1) >= limits.perKey
  {
    RefusalIsCounted(AskAll(Begin(start), calls, limits).limiter, call, limits);
    CountIsRecent(start, calls, limits, call.now, None);
    CountIsRecent(start, calls, limits, call.now, Some(call.key));
  }

  lemma RefusalIsCounted(l: Limiter, call: Call, limits: Limits)
    requires !Admits(l, call.key, call.now, limits)
    ensures || Current(Rolled(l, call.now), None) >= limits.global
            || Current(Rolled(l, call.now), Some(call.key)) >= limits.perKey
  {
  }

  lemma {:induction false} StartedBefore(h: History, calls: seq<Call>, limits: Limits, now: int)
    requires h.limiter.windowStartedAt <= now && forall i | 0 <= i < |calls| :: calls[i].now <= now
    ensures AskAll(h, calls, limits).limiter.windowStartedAt <= now
    decreases |calls|
  {
    if calls != [] {
      StartedBefore(Ask(h, calls[0], limits), calls[1..], limits, now);
    }
  }
}
