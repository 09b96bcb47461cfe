/** The tunnel session's lifecycle: activation, streams, reconnection with generations, and three deadlines. */
module SessionState {
  import opened Options

  type AttemptId = int

  datatype Policy = Policy(maxTtl: int, idleTimeout: int, reconnectGrace: int)

  datatype CloseReason = UserRequest | MaxTtl | IdleTimeout | ReconnectTimeout

  datatype State =
    | Creating
    | Active(activatedAt: int, generation: int, activeStreamCount: nat, lastStreamClosedAt: int)
    | Reconnecting(
        activatedAt: int,
        generation: int,
        disconnectedAt: int,
        lastStreamClosedAt: int,
        candidateAttemptId: Option<AttemptId>,
        candidateGeneration: Option<int>,
        lastIssuedGeneration: Option<int>)
    | Expired(reason: CloseReason, closedAt: int)
    | Closed(reason: CloseReason, closedAt: int)

  datatype Event =
    | Activate(now: int)
    | StreamOpen(now: int)
    | StreamClosed(now: int)
    | CarrierLost(now: int)
    | StartResume(now: int, attemptId: AttemptId)
    | ResumeFailed(now: int, attemptId: AttemptId)
    | ResumeCommitted(now: int, attemptId: AttemptId)
    | Tick(now: int)
    | Close(now: int)

  datatype Refusal = InvalidTransition | ResumeInProgress | StaleResumeAttempt

  datatype Outcome = To(state: State) | Refused(refusal: Refusal)

  function Earlier(a: int, b: int): int {
    if a <= b then a else b
  }

  function Deadline(activatedAt: int, lastStreamClosedAt: int, activeStreamCount: nat, policy: Policy): int {
    var maxDeadline := activatedAt + policy.maxTtl;
    if activeStreamCount > 0 then maxDeadline else Earlier(maxDeadline, lastStreamClosedAt + policy.idleTimeout)
  }

  predicate ResumeAllowed(now: int, disconnectedAt: int, policy: Policy) {
    disconnectedAt <= now <= disconnectedAt + policy.reconnectGrace
  }

  function ExpireActive(s: State, now: int, policy: Policy): State
    requires s.Active?
  {
    if now >= s.activatedAt + policy.maxTtl then Expired(MaxTtl, now)
    else if now >= Deadline(s.activatedAt, s.lastStreamClosedAt, s.activeStreamCount, policy) then
      Expired(IdleTimeout, now)
    else s
  }

  function ExpireReconnect(s: State, now: int, policy: Policy): State
    requires s.Reconnecting?
  {
    if now >= s.activatedAt + policy.maxTtl then Expired(MaxTtl, now)
    else if ResumeAllowed(now, s.disconnectedAt, policy) then s
    else Expired(ReconnectTimeout, now)
  }

  function FromActive(s: State, e: Event): Outcome
    requires s.Active?
  {
    match e
    case StreamOpen(_) => To(s.(activeStreamCount := s.activeStreamCount + 1))
    case StreamClosed(now) =>
      if s.activeStreamCount == 0 then Refused(InvalidTransition)
      else To(s.(activeStreamCount := s.activeStreamCount - 1,
                 lastStreamClosedAt := if s.activeStreamCount == 1 then now else s.lastStreamClosedAt))
    case CarrierLost(now) => To(Reconnecting(s.activatedAt, s.generation, now, now, None, None, None))
    case Tick(_) => To(s)
    case _ => Refused(InvalidTransition)
  }

  function FromReconnecting(s: State, e: Event): Outcome
    requires s.Reconnecting?
  {
    match e
    case StartResume(_, attemptId) =>
      if s.candidateAttemptId.Some? then Refused(ResumeInProgress)
      else
        var generation := (if s.lastIssuedGeneration.Some? then s.lastIssuedGeneration.value else s.generation) + 1;
        To(s.(candidateAttemptId := Some(attemptId),
              candidateGeneration := Some(generation),
              lastIssuedGeneration := Some(generation)))
    case ResumeFailed(_, attemptId) =>
      if s.candidateAttemptId != Some(attemptId) then Refused(StaleResumeAttempt)
      else To(s.(candidateAttemptId := None, candidateGeneration := None))
    case ResumeCommitted(_, attemptId) =>
      if s.candidateAttemptId != Some(attemptId) then Refused(StaleResumeAttempt)
      else
        var generation := if s.candidateGeneration.Some? then s.candidateGeneration.value else s.generation + 1;
        To(Active(s.activatedAt, generation, 0, s.lastStreamClosedAt))
    case Tick(_) => To(s)
    case _ => Refused(InvalidTransition)
  }

  function Transition(s: State, e: Event, policy: Policy): Outcome {
    if s.Expired? || s.Closed? then Refused(InvalidTransition)
    else if s.Active? && ExpireActive(s, e.now, policy).Expired? then To(ExpireActive(s, e.now, policy))
    else if s.Reconnecting? && ExpireReconnect(s, e.now, policy).Expired? then To(ExpireReconnect(s, e.now, policy))
    else if e.Close? then To(Closed(UserRequest, e.now))
    else if s.Creating? then
      (if e.Activate? then To(Active(e.now, 1, 0, e.now)) else Refused(InvalidTransition))
    else if s.Active? then FromActive(s, e)
    else FromReconnecting(s, e)
  }

  predicate Live(s: State) {
    s.Active? || s.Reconnecting?
  }

  // ----------------------------------------------------------- a whole run

  datatype Attempt = Attempt(id: AttemptId, generation: int)

  /** A session with every resume attempt it ever accepted and the one it last committed. */
  datatype Trail = Trail(state: State, attempts: seq<Attempt>, committed: Option<Attempt>)

  function Start(): Trail {
    Trail(Creating, [], None)
  }

  function Advance(t: Trail, e: Event, policy: Policy): Trail {
    match Transition(t.state, e, policy)
    case Refused(_) => t
    case To(next) =>
      if e.StartResume? && next.Reconnecting? && next.candidateGeneration.Some? then
        Trail(next, t.attempts + [Attempt(e.attemptId, next.candidateGeneration.value)], t.committed)
      else if e.ResumeCommitted? && next.Active? then
        Trail(next, t.attempts, Some(Attempt(e.attemptId, next.generation)))
      else Trail(next, t.attempts, t.committed)
  }

  function Run(t: Trail, events: seq<Event>, policy: Policy): Trail
    decreases |events|
  {
    if events == [] then t else Run(Advance(t, events[0], policy), events[1..], policy)
  }

  /** The highest generation issued so far. */
  function Top(attempts: seq<Attempt>): int {
    if attempts == [] then 1 else attempts[|attempts| - 1].generation
  }

  ghost predicate Rising(attempts: seq<Attempt>) {
    && (forall i | 0 <= i < |attempts| :: attempts[i].generation > 1)
    && (forall i, j | 0 <= i < j < |attempts| :: attempts[i].generation < attempts[j].generation)
  }

  ghost predicate Lineage(t: Trail) {
    && Rising(t.attempts)
    && (t.state.Creating? ==> t.attempts == [])
    && (t.state.Active? ==> t.state.generation == Top(t.attempts))
    && (t.state.Reconnecting? ==>
          && t.state.lastStreamClosedAt == t.state.disconnectedAt
          && t.state.generation <= Top(t.attempts)
          && (t.state.lastIssuedGeneration.None? ==>
                t.state.generation == Top(t.attempts) && t.state.candidateAttemptId.None?)
          && (t.state.lastIssuedGeneration.Some? ==> t.state.lastIssuedGeneration.value == Top(t.attempts))
          && (t.state.candidateAttemptId.Some? <==> t.state.candidateGeneration.Some?)
          && (t.state.candidateAttemptId.Some? ==>
                && t.attempts != []
                && t.attempts[|t.attempts| - 1]
                   == Attempt(t.state.candidateAttemptId.value, t.state.candidateGeneration.value)))
    && (t.committed.Some? ==> t.committed.value in t.attempts)
  }

  lemma ActiveKeepsLineage(t: Trail, e: Event, policy: Policy)
    requires Lineage(t) && !t.state.Reconnecting?
    ensures Lineage(Advance(t, e, policy))
  {
  }

  lemma ReconnectingKeepsLineage(t: Trail, e: Event, policy: Policy)
    requires Lineage(t) && t.state.Reconnecting? && !e.StartResume?
    ensures Lineage(Advance(t, e, policy))
  {
  }

  lemma StartKeepsLineage(t: Trail, e: Event, policy: Policy)
    requires Lineage(t) && t.state.Reconnecting? && e.StartResume?
    ensures Lineage(Advance(t, e, policy))
  {
  }

  lemma AdvanceKeepsLineage(t: Trail, e: Event, policy: Policy)
    requires Lineage(t)
    ensures Lineage(Advance(t, e, policy))
  {
    if !t.state.Reconnecting? {
      ActiveKeepsLineage(t, e, policy);
    } else if e.StartResume? {
      StartKeepsLineage(t, e, policy);
    } else {
      ReconnectingKeepsLineage(t, e, policy);
    }
  }

  /** Generations only rise, over failed attempts too; the active one is the last issued. */
  lemma {:induction false} EveryRunHasLineage(t: Trail, events: seq<Event>, policy: Policy)
    requires Lineage(t)
    ensures Lineage(Run(t, events, policy))
    ensures t.attempts <= Run(t, events, policy).attempts
    decreases |events|
  {
    if events != [] {
      AdvanceKeepsLineage(t, events[0], policy);
      EveryRunHasLineage(Advance(t, events[0], policy), events[1..], policy);
    }
  }

  /** An accepted resume attempt gets a generation above every earlier one, the active one included. */
  lemma ResumeGetsFreshGeneration(events: seq<Event>, policy: Policy, now: int, attemptId: AttemptId)
    ensures var t := Run(Start(), events, policy);
            var next := Advance(t, StartResume(now, attemptId), policy);
            next.attempts != t.attempts ==>
              && next.attempts == t.attempts + [Attempt(attemptId, next.state.candidateGeneration.value)]
              && next.state.candidateGeneration.value > next.state.generation
              && forall i | 0 <= i < |t.attempts| :: t.attempts[i].generation < next.state.candidateGeneration.value
  {
    EveryRunHasLineage(Start(), events, policy);
    AdvanceKeepsLineage(Run(Start(), events, policy), StartResume(now, attemptId), policy);
  }

  /** Only the attempt started last can commit, and it commits the generation it was issued. */
  lemma OnlyCurrentAttemptCommits(events: seq<Event>, policy: Policy, now: int, attemptId: AttemptId)
    ensures var t := Run(Start(), events, policy);
            var outcome := Transition(t.state, ResumeCommitted(now, attemptId), policy);
            outcome.To? && outcome.state.Active? ==>
              && t.attempts != []
              && t.attempts[|t.attempts| - 1] == Attempt(attemptId, outcome.state.generation)
              && t.state.candidateAttemptId == Some(attemptId)
  {
    EveryRunHasLineage(Start(), events, policy);
  }

  // --------------------------------------------------------------- deadlines

  predicate Positive(policy: Policy) {
    policy.maxTtl > 0 && policy.idleTimeout > 0 && policy.reconnectGrace > 0
  }

  /**
   activatedAt is fixed at activation; a live session is ended for its age at or
   after it plus the maximum age, and no live state is produced then, and not before.
   */
  lemma LifetimeIsBounded(s: State, e: Event, policy: Policy)
    requires Positive(policy)
    ensures var outcome := Transition(s, e, policy);
            outcome.To? && Live(outcome.state) ==>
              && e.now < outcome.state.activatedAt + policy.maxTtl
              && outcome.state.activatedAt == if Live(s) then s.activatedAt else e.now
    ensures Live(s) ==>
              (e.now >= s.activatedAt + policy.maxTtl <==> Transition(s, e, policy) == To(Expired(MaxTtl, e.now)))
  {
  }

  /** While streams are open a session never expires for being idle, nor for anything else before its maximum age. */
  lemma OpenStreamsPreventIdleExpiry(s: State, e: Event, policy: Policy)
    requires s.Active? && s.activeStreamCount > 0
    ensures var outcome := Transition(s, e, policy);
            outcome.To? && outcome.state.Expired? ==>
              outcome.state.reason == MaxTtl && e.now >= s.activatedAt + policy.maxTtl
  {
  }

  /** The reason for which a live session has run out at a time, if it has; each deadline is written out. */
  ghost predicate RunsOut(s: State, now: int, policy: Policy, reason: CloseReason)
    requires Live(s)
  {
    var over := now >= s.activatedAt + policy.maxTtl;
    match reason
    case MaxTtl => over
    case IdleTimeout =>
      !over && s.Active? && s.activeStreamCount == 0 && now >= s.lastStreamClosedAt + policy.idleTimeout
    case ReconnectTimeout =>
      !over && s.Reconnecting? && (now < s.disconnectedAt || now > s.disconnectedAt + policy.reconnectGrace)
    case UserRequest => false
  }

  /** A live session expires for a reason if and only if it has run out for that reason, and at no other time. */
  lemma ExpiryIsExact(s: State, e: Event, policy: Policy, reason: CloseReason)
    requires Live(s)
    ensures Transition(s, e, policy) == To(Expired(reason, e.now)) <==> RunsOut(s, e.now, policy, reason)
    ensures Transition(s, e, policy).To? && Transition(s, e, policy).state.Expired? ==>
              exists why :: RunsOut(s, e.now, policy, why) && Transition(s, e, policy).state == Expired(why, e.now)
  {
    var outcome := Transition(s, e, policy);
    if outcome.To? && outcome.state.Expired? {
      assert RunsOut(s, e.now, policy, outcome.state.reason);
    }
  }

  /** What an active session that has not run out does with an event. */
  lemma ActiveAnswers(s: State, e: Event, policy: Policy)
    requires s.Active? && forall why :: !RunsOut(s, e.now, policy, why)
    ensures var o := Transition(s, e, policy);
            && (e.Close? ==> o == To(Closed(UserRequest, e.now)))
            && (e.Tick? ==> o == To(s))
            && (e.StreamOpen? ==>
                  o == To(Active(s.activatedAt, s.generation, s.activeStreamCount + 1, s.lastStreamClosedAt)))
            && (e.StreamClosed? && s.activeStreamCount > 1 ==>
                  o == To(Active(s.activatedAt, s.generation, s.activeStreamCount - 1, s.lastStreamClosedAt)))
            && (e.StreamClosed? && s.activeStreamCount == 1 ==>
                  o == To(Active(s.activatedAt, s.generation, 0, e.now)))
            && (e.CarrierLost? ==> o == To(Reconnecting(s.activatedAt, s.generation, e.now, e.now, None, None, None)))
            && (o.Refused? <==> || e.Activate? || e.StartResume? || e.ResumeFailed? || e.ResumeCommitted?
                                || (e.StreamClosed? && s.activeStreamCount == 0))
            && (o.Refused? ==> o.refusal == InvalidTransition)
  {
    assert !RunsOut(s, e.now, policy, MaxTtl) && !RunsOut(s, e.now, policy, IdleTimeout);
  }

  /** What a reconnecting session that has not run out does with an event. */
  lemma ReconnectingAnswers(s: State, e: Event, policy: Policy)
    requires s.Reconnecting? && forall why :: !RunsOut(s, e.now, policy, why)
    ensures var o := Transition(s, e, policy);
            var own := (e.ResumeFailed? || e.ResumeCommitted?) && s.candidateAttemptId == Some(e.attemptId);
            && (e.Close? ==> o == To(Closed(UserRequest, e.now)))
            && (e.Tick? ==> o == To(s))
            && (e.StartResume? ==>
                  if s.candidateAttemptId.Some? then o == Refused(Refusal.ResumeInProgress)
                  else
                    && o.To? && o.state.Reconnecting? && o.state.candidateAttemptId == Some(e.attemptId)
                    && o.state.candidateGeneration == o.state.lastIssuedGeneration
                    && (s.lastIssuedGeneration.Some? ==>
                          o.state.candidateGeneration == Some(s.lastIssuedGeneration.value + 1))
                    && (s.lastIssuedGeneration.None? ==> o.state.candidateGeneration == Some(s.generation + 1))
                    && o.state == s.(candidateAttemptId := o.state.candidateAttemptId,
                                     candidateGeneration := o.state.candidateGeneration,
                                     lastIssuedGeneration := o.state.lastIssuedGeneration))
            && (e.ResumeFailed? && own ==> o == To(s.(candidateAttemptId := None, candidateGeneration := None)))
            && (e.ResumeCommitted? && own ==>
                  && o.To? && o.state.Active? && o.state.activatedAt == s.activatedAt
                  && o.state.activeStreamCount == 0 && o.state.lastStreamClosedAt == s.lastStreamClosedAt
                  && (s.candidateGeneration.Some? ==> o.state.generation == s.candidateGeneration.value))
            && ((e.ResumeFailed? || e.ResumeCommitted?) && !own ==> o == Refused(StaleResumeAttempt))
            && (e.Activate? || e.StreamOpen? || e.StreamClosed? || e.CarrierLost? ==> o == Refused(InvalidTransition))
  {
    assert !RunsOut(s, e.now, policy, MaxTtl) && !RunsOut(s, e.now, policy, ReconnectTimeout);
  }

  /** Before activation only an activation or a close is heard; after the end nothing is. */
  lemma OtherAnswers(s: State, e: Event, policy: Policy)
    requires !Live(s)
    ensures var o := Transition(s, e, policy);
            && (s.Creating? && e.Activate? ==> o == To(Active(e.now, 1, 0, e.now)))
            && (s.Creating? && e.Close? ==> o == To(Closed(UserRequest, e.now)))
            && (o.To? ==> s.Creating? && (e.Activate? || e.Close?))
            && (o.Refused? ==> o.refusal == InvalidTransition)
  {
  }

  /** The k-th event of the run found a live session and ended it for a reason it had run out for. */
  ghost predicate EndedBy(events: seq<Event>, k: nat, policy: Policy, end: State)
    requires k < |events| && end.Expired?
  {
    var before := Run(Start(), events[..k], policy).state;
    Live(before) && RunsOut(before, events[k].now, policy, end.reason) && end.closedAt == events[k].now
  }

  lemma {:induction false} RunOfAppend(t: Trail, events: seq<Event>, e: Event, policy: Policy)
    ensures Run(t, events + [e], policy) == Advance(Run(t, events, policy), e, policy)
    decreases |events|
  {
    if events == [] {
      assert [e][1..] == [] && events + [e] == [e];
    } else {
      assert (events + [e])[1..] == events[1..] + [e];
      RunOfAppend(Advance(t, events[0], policy), events[1..], e, policy);
    }
  }

  lemma EventExpires(t: Trail, e: Event, policy: Policy)
    requires Advance(t, e, policy).state.Expired? && !t.state.Expired?
    ensures Live(t.state) && RunsOut(t.state, e.now, policy, Advance(t, e, policy).state.reason)
    ensures Advance(t, e, policy).state.closedAt == e.now
  {
    if Live(t.state) {
      ExpiryIsExact(t.state, e, policy, MaxTtl);
    }
  }

  /** No session is cut short: in every run an expired session was live until an event at which it had run out. */
  lemma {:induction false} EveryExpiryIsEarned(events: seq<Event>, policy: Policy) returns (k: nat)
    requires Run(Start(), events, policy).state.Expired?
    ensures k < |events| && EndedBy(events, k, policy, Run(Start(), events, policy).state)
    decreases |events|
  {
    if events != [] {
      k := |events| - 1;
      var earlier, e := events[..k], events[k];
      assert events == earlier + [e];
      RunOfAppend(Start(), earlier, e, policy);
      var t := Run(Start(), earlier, policy);
      if t.state.Expired? {
        OtherAnswers(t.state, e, policy);
        k := EveryExpiryIsEarned(earlier, policy);
        assert earlier[..k] == events[..k] && earlier[k] == events[k];
      } else {
        EventExpires(t, e, policy);
      }
    }
  }

  /** An active state that was already past its own deadline when it was produced. */
  ghost predicate BornExpired(s: State, now: int, policy: Policy) {
    s.Active? && now >= Deadline(s.activatedAt, s.lastStreamClosedAt, s.activeStreamCount, policy)
  }

  ghost predicate Ordered(events: seq<Event>) {
    forall i, j | 0 <= i < j < |events| :: events[i].now <= events[j].now
  }

  /** Live states remember only times that have passed. */
  ghost predicate Punctual(s: State, now: int) {
    && (s.Active? ==> s.activatedAt <= s.lastStreamClosedAt <= now)
    && (s.Reconnecting? ==> s.activatedAt <= s.lastStreamClosedAt == s.disconnectedAt <= now)
  }

  lemma {:induction false} EveryRunIsPunctual(t: Trail, events: seq<Event>, policy: Policy, now: int)
    requires Ordered(events) && Lineage(t) && Punctual(t.state, now)
    requires forall i | 0 <= i < |events| :: now <= events[i].now
    ensures forall last | now <= last && (forall i | 0 <= i < |events| :: events[i].now <= last) ::
              Punctual(Run(t, events, policy).state, last)
    decreases |events|
  {
    if events != [] {
      AdvanceKeepsLineage(t, events[0], policy);
      EveryRunIsPunctual(Advance(t, events[0], policy), events[1..], policy, events[0].now);
    }
  }

  /** A transition whose grace period is shorter than the idle timeout, or whose lifetime is, is never late. */
  lemma NeverBornExpired(t: Trail, e: Event, policy: Policy)
    requires Positive(policy) && Lineage(t)
    requires policy.reconnectGrace < policy.idleTimeout
             || (policy.maxTtl <= policy.idleTimeout && Punctual(t.state, e.now))
    ensures var outcome := Transition(t.state, e, policy);
            outcome.To? ==> !BornExpired(outcome.state, e.now, policy)
  {
  }

  /** A carrier lost at once and resumed just when the idle timeout has passed. */
  function LateResume(policy: Policy): seq<Event> {
    [Activate(0), CarrierLost(0), StartResume(0, 7)]
  }

  lemma LateResumeIsBornExpired(policy: Policy)
    requires Positive(policy) && policy.idleTimeout <= policy.reconnectGrace && policy.idleTimeout < policy.maxTtl
    ensures var t := Run(Start(), LateResume(policy), policy);
            var outcome := Transition(t.state, ResumeCommitted(policy.idleTimeout, 7), policy);
            outcome.To? && BornExpired(outcome.state, policy.idleTimeout, policy)
  {
    var events := LateResume(policy);
    var one := Advance(Start(), events[0], policy);
    assert one.state == Active(0, 1, 0, 0);
    var two := Advance(one, events[1], policy);
    assert two.state == Reconnecting(0, 1, 0, 0, None, None, None);
    var three := Advance(two, events[2], policy);
    assert three.state == Reconnecting(0, 1, 0, 0, Some(7), Some(2), Some(2));
    assert events[1..][0] == events[1] && events[1..][1..][0] == events[2] && events[1..][1..][1..] == [];
    assert Run(two, events[1..][1..], policy) == Run(three, [], policy) == three;
    assert Run(Start(), events, policy) == Run(one, events[1..], policy) == Run(two, events[1..][1..], policy);
  }

  /** After any ordered run, an event no earlier than it produces no active state past its own deadline. */
  ghost predicate AlwaysTimely(policy: Policy) {
    forall events: seq<Event>, e: Event | Ordered(events + [e]) ::
      var outcome := Transition(Run(Start(), events, policy).state, e, policy);
      outcome.To? ==> !BornExpired(outcome.state, e.now, policy)
  }

  /**
   The policies under which no session is activated or resumed already past its
   deadline are exactly those whose idle timeout exceeds the reconnect grace, or
   is no shorter than the whole lifetime.
   */
  lemma TimelyExactlyWhen(policy: Policy)
    requires Positive(policy)
    ensures AlwaysTimely(policy) <==> policy.reconnectGrace < policy.idleTimeout || policy.maxTtl <= policy.idleTimeout
  {
    if policy.reconnectGrace < policy.idleTimeout || policy.maxTtl <= policy.idleTimeout {
      forall events: seq<Event>, e: Event | Ordered(events + [e])
        ensures var outcome := Transition(Run(Start(), events, policy).state, e, policy);
                outcome.To? ==> !BornExpired(outcome.state, e.now, policy)
      {
        var t := Run(Start(), events, policy);
        EveryRunHasLineage(Start(), events, policy);
        PunctualAtNext(events, e, policy);
        NeverBornExpired(t, e, policy);
      }
    } else {
      LateResumeIsBornExpired(policy);
      var e := ResumeCommitted(policy.idleTimeout, 7);
      assert Ordered(LateResume(policy) + [e]);
    }
  }

  lemma PunctualAtNext(events: seq<Event>, e: Event, policy: Policy)
    requires Ordered(events + [e])
    ensures Punctual(Run(Start(), events, policy).state, e.now)
  {
    var all := events + [e];
    forall i | 0 <= i < |events| ensures events[i].now <= e.now {
      assert all[i] == events[i] && all[|events|] == e;
    }
    forall i, j | 0 <= i < j < |events| ensures events[i].now <= events[j].now {
      assert all[i] == events[i] && all[j] == events[j];
    }
    if events != [] {
      EveryRunIsPunctual(Start(), events, policy, events[0].now);
    }
  }
}
