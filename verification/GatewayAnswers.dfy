/**
 What the gateway answers to each carrier message and stream event, condition by
 condition, and who can move a session to another socket.
 */
module GatewayAnswers {
  import opened Options
  import opened SessionState
  import opened GatewaySessions
  import opened GatewaySafety

  // ------------------------------------------------------------------- HELLO

  /** A carrier that is connected and has not greeted yet. */
  ghost predicate Waiting(w: World, socket: Socket) {
    socket in w.carriers && w.carriers[socket].session.None?
  }

  /** Objects, routes and carriers are as they were, except for one of each. */
  ghost predicate SameExcept(w: World, next: World, sid: SessionId, tunnel: Tunnel, socket: Socket) {
    && next.objects - {sid} == w.objects - {sid}
    && next.routes - {tunnel} == w.routes - {tunnel}
    && next.carriers - {socket} == w.carriers - {socket}
  }

  /** A HELLO that creates: done exactly for a waiting carrier, a free tunnel and an admitted account. */
  lemma CreateAnswers(w: World, socket: Socket, tunnel: Tunnel, owner: Option<Account>, admitted: bool)
    ensures var e := Greet(w, socket, tunnel, owner, admitted);
            && (e.Done? <==> Waiting(w, socket) && tunnel !in w.routes && admitted)
            && (e == Rejected(w, NotConnected) <==> socket !in w.carriers)
            && (e == Rejected(w, AlreadyGreeted) <==> socket in w.carriers && w.carriers[socket].session.Some?)
            && (e == Rejected(w, TunnelTaken) <==> Waiting(w, socket) && tunnel in w.routes)
            && (e == Rejected(w, NotAdmitted) <==> Waiting(w, socket) && tunnel !in w.routes && !admitted)
            && (!e.Done? ==> e.world == w)
  {
  }

  lemma CreatedSession(w: World, socket: Socket, tunnel: Tunnel, owner: Option<Account>, admitted: bool)
    requires Greet(w, socket, tunnel, owner, admitted).Done?
    ensures var next := Greet(w, socket, tunnel, owner, admitted).world;
            var sid := w.nextSession;
            && SameExcept(w, next, sid, tunnel, socket)
            && tunnel in next.routes && next.routes[tunnel] == sid && sid in next.objects
            && var s := next.objects[sid];
               && s.tunnel == tunnel && s.owner == owner && s.lifecycle.Creating? && !s.terminal
               && s.streams == map[] && s.transport.socket == socket && s.transport.generation == 1
               && next.carriers[socket].session == Some(sid)
  {
  }

  /** What a HELLO that resumes must bring: the tunnel's session, waiting for it, in time, and a proof of its owner. */
  ghost predicate MayResume(
    w: World, socket: Socket, tunnel: Tunnel, checkedAt: int, authorized: bool, policy: Policy)
  {
    && Waiting(w, socket) && tunnel in w.routes && w.routes[tunnel] in w.objects
    && var s := w.objects[w.routes[tunnel]];
       && !s.terminal && s.lifecycle.Reconnecting?
       && s.lifecycle.disconnectedAt <= checkedAt <= s.lifecycle.disconnectedAt + policy.reconnectGrace
       && authorized
  }

  ghost predicate HasRunOut(lifecycle: State, now: int, policy: Policy)
    requires Live(lifecycle)
  {
    exists why :: RunsOut(lifecycle, now, policy, why)
  }

  lemma HasRunOutExactly(lifecycle: State, e: Event, policy: Policy)
    requires Live(lifecycle)
    ensures HasRunOut(lifecycle, e.now, policy)
            <==> Transition(lifecycle, e, policy).To? && Transition(lifecycle, e, policy).state.Expired?
    ensures !HasRunOut(lifecycle, e.now, policy) ==> forall why :: !RunsOut(lifecycle, e.now, policy, why)
  {
    ExpiryIsExact(lifecycle, e, policy, MaxTtl);
    ExpiryIsExact(lifecycle, e, policy, IdleTimeout);
    ExpiryIsExact(lifecycle, e, policy, ReconnectTimeout);
  }

  /**
   A HELLO that resumes: done exactly when it may, the session has not run out
   when the attempt starts, and no other attempt is open. A stranger, or anyone
   outside the grace period, changes nothing.
   */
  lemma ResumeAnswers(
    w: World, socket: Socket, tunnel: Tunnel, checkedAt: int, now: int, authorized: bool, policy: Policy)
    ensures var e := Resume(w, socket, tunnel, checkedAt, now, authorized, policy);
            var may := MayResume(w, socket, tunnel, checkedAt, authorized, policy);
            && (e == Rejected(w, NotConnected) <==> socket !in w.carriers)
            && (e == Rejected(w, AlreadyGreeted) <==> socket in w.carriers && w.carriers[socket].session.Some?)
            && (!may && Waiting(w, socket) ==> e == Rejected(w, ResumeRejected))
            && (may ==>
                  var lifecycle := w.objects[w.routes[tunnel]].lifecycle;
                  && (HasRunOut(lifecycle, now, policy) ==> e.Rejected? && e.rejection == ResumeRejected)
                  && (!HasRunOut(lifecycle, now, policy) && lifecycle.candidateAttemptId.Some? ==>
                        e == Rejected(w, Rejection.ResumeInProgress))
                  && (!HasRunOut(lifecycle, now, policy) && lifecycle.candidateAttemptId.None? ==> e.Done?))
            && (e.Done? ==> may)
  {
    if MayResume(w, socket, tunnel, checkedAt, authorized, policy) {
      var lifecycle := w.objects[w.routes[tunnel]].lifecycle;
      var start := StartResume(now, w.nextAttempt);
      HasRunOutExactly(lifecycle, start, policy);
      if !HasRunOut(lifecycle, now, policy) {
        ReconnectingAnswers(lifecycle, start, policy);
      }
    }
  }

  /** The session that was resumed, and nothing else, is on the new socket and the next generation. */
  lemma ResumedSession(
    w: World, socket: Socket, tunnel: Tunnel, checkedAt: int, now: int, authorized: bool, policy: Policy)
    requires Resume(w, socket, tunnel, checkedAt, now, authorized, policy).Done?
    ensures var next := Resume(w, socket, tunnel, checkedAt, now, authorized, policy).world;
            var sid := w.routes[tunnel];
            && SameExcept(w, next, sid, tunnel, socket) && next.routes == w.routes && sid in next.objects
            && var s, t := w.objects[sid], next.objects[sid];
               && t.transport.socket == socket && t.lifecycle.Reconnecting?
               && t.lifecycle.candidateGeneration == Some(t.transport.generation)
               && t.lifecycle.candidateAttemptId == Some(w.nextAttempt) == next.carriers[socket].attempt
               && next.carriers[socket].session == Some(sid)
               && t.tunnel == s.tunnel && t.owner == s.owner && t.streams == s.streams && !t.terminal
               && t.highestIssued == 0
  {
    var sid := w.routes[tunnel];
    var lifecycle := w.objects[sid].lifecycle;
    var start := StartResume(now, w.nextAttempt);
    ResumeAnswers(w, socket, tunnel, checkedAt, now, authorized, policy);
    HasRunOutExactly(lifecycle, start, policy);
    ReconnectingAnswers(lifecycle, start, policy);
  }

  // -------------------------------------------------------------- activation

  /** The probe's own carrier, speaking for a routed session that is not active, on the current generation. */
  ghost predicate MayActivate(w: World, socket: Socket, generation: int) {
    && socket in w.carriers && w.carriers[socket].session.Some? && w.carriers[socket].session.value in w.objects
    && var sid := w.carriers[socket].session.value;
       && generation == w.objects[sid].transport.generation
       && !w.objects[sid].terminal && Registered(w, sid) && !w.objects[sid].lifecycle.Active?
  }

  /** Activation of a new session. */
  lemma ActivationAnswers(w: World, socket: Socket, generation: int, now: int, admitted: bool, policy: Policy)
    requires MayActivate(w, socket, generation) && Accounted(w.objects[w.carriers[socket].session.value])
    requires w.objects[w.carriers[socket].session.value].lifecycle.Creating?
    ensures var e := Finish(w, socket, generation, now, admitted, policy);
            var sid := w.carriers[socket].session.value;
            if admitted
            then e == Done(Put(w, sid, w.objects[sid].(lifecycle := Active(now, 1, 0, now))))
            else e == Rejected(w, NotAdmitted)
  {
  }

  /** Commitment of a resume: done exactly for the attempt that is open, by its own carrier, in time. */
  lemma CommitmentAnswers(w: World, socket: Socket, generation: int, now: int, admitted: bool, policy: Policy)
    requires MayActivate(w, socket, generation) && Accounted(w.objects[w.carriers[socket].session.value])
    requires w.objects[w.carriers[socket].session.value].lifecycle.Reconnecting?
    ensures var e := Finish(w, socket, generation, now, admitted, policy);
            var sid := w.carriers[socket].session.value;
            var attempt, lifecycle := w.carriers[socket].attempt, w.objects[sid].lifecycle;
            && (!admitted <==> e == Rejected(w, NotAdmitted))
            && (admitted && attempt.None? <==> e == Rejected(w, NoAttempt))
            && (admitted && attempt.Some? && HasRunOut(lifecycle, now, policy) ==>
                  e.Rejected? && e.rejection == SessionExpired)
            && (admitted && attempt.Some? && !HasRunOut(lifecycle, now, policy) ==>
                  if lifecycle.candidateAttemptId == attempt
                  then
                    var next := Active(lifecycle.activatedAt, generation, 0, lifecycle.lastStreamClosedAt);
                    e == Done(Put(w, sid, w.objects[sid].(lifecycle := next)))
                  else e == Rejected(w, StaleAttempt))
  {
    var lifecycle := w.objects[w.carriers[socket].session.value].lifecycle;
    if w.carriers[socket].attempt.Some? {
      var commit := ResumeCommitted(now, w.carriers[socket].attempt.value);
      HasRunOutExactly(lifecycle, commit, policy);
      if !HasRunOut(lifecycle, now, policy) {
        ReconnectingAnswers(lifecycle, commit, policy);
      }
    }
  }

  /** Everyone else is turned away with the world as it was. */
  lemma StrangersDoNotActivate(w: World, socket: Socket, generation: int, now: int, admitted: bool, policy: Policy)
    requires !MayActivate(w, socket, generation)
    ensures var e := Finish(w, socket, generation, now, admitted, policy);
            && e.Rejected? && e.world == w
            && (e.rejection == NoSession <==>
                  || socket !in w.carriers || w.carriers[socket].session.None?
                  || w.carriers[socket].session.value !in w.objects)
            && (e.rejection == StaleGeneration ==>
                  generation != w.objects[w.carriers[socket].session.value].transport.generation)
  {
  }

  /** A probe gets the next stream id exactly for a routed session that is not active and has ids left. */
  lemma ProbeAnswers(w: World, socket: Socket)
    ensures var e := StartProbe(w, socket);
            var known := socket in w.carriers && w.carriers[socket].session.Some?
                         && w.carriers[socket].session.value in w.objects;
            && (e == Rejected(w, NoSession) <==> !known)
            && (known ==>
                  var sid := w.carriers[socket].session.value;
                  var s := w.objects[sid];
                  && (e == Rejected(w, NotCurrent) <==> !Registered(w, sid) || s.lifecycle.Active?)
                  && (e == Rejected(w, StreamIdsExhausted) <==>
                        Registered(w, sid) && !s.lifecycle.Active? && s.highestIssued > 0xffff_fffd)
                  && (e.Done? ==>
                        e.world == Put(w, sid, s.(
                                     highestIssued := if s.highestIssued == 0 then 1 else s.highestIssued + 2))))
  {
  }

  // ----------------------------------------------------------------- streams

  /** A stream opens exactly on a routed, active session that has ids left and has not run out. */
  lemma StreamAnswers(w: World, tunnel: Tunnel, now: int, policy: Policy)
    ensures var e := BeginStream(w, tunnel, now, policy);
            var online := tunnel in w.routes && w.routes[tunnel] in w.objects
                          && w.objects[w.routes[tunnel]].lifecycle.Active?;
            && (e == Rejected(w, TunnelOffline) <==> !online)
            && (online ==>
                  var s := w.objects[w.routes[tunnel]];
                  && (e == Rejected(w, StreamIdsExhausted) <==> !IdsLeft(s))
                  && (IdsLeft(s) && HasRunOut(s.lifecycle, now, policy) ==>
                        e.Rejected? && e.rejection == SessionExpired)
                  && (IdsLeft(s) && !HasRunOut(s.lifecycle, now, policy) ==> e.Done?))
  {
    if tunnel in w.routes && w.routes[tunnel] in w.objects && w.objects[w.routes[tunnel]].lifecycle.Active? {
      var lifecycle := w.objects[w.routes[tunnel]].lifecycle;
      HasRunOutExactly(lifecycle, SessionState.StreamOpen(now), policy);
      if !HasRunOut(lifecycle, now, policy) {
        ActiveAnswers(lifecycle, SessionState.StreamOpen(now), policy);
      }
    }
  }

  /** A new stream, on the session's transport, under the id it issued last, and one more in the lifecycle's count. */
  lemma OpenedStream(w: World, tunnel: Tunnel, now: int, policy: Policy)
    requires BeginStream(w, tunnel, now, policy).Done?
    ensures var next := BeginStream(w, tunnel, now, policy).world;
            var sid := w.routes[tunnel];
            && next.routes == w.routes && next.carriers == w.carriers
            && next.objects - {sid} == w.objects - {sid} && sid in next.objects
            && var s, t := w.objects[sid], next.objects[sid];
               && IdsLeft(s) && t.highestIssued == NextId(s)
               && t.streams == s.streams[NextId(s) := Stream(w.nextStream, s.transport)]
               && t.lifecycle == s.lifecycle.(activeStreamCount := s.lifecycle.activeStreamCount + 1)
               && t.transport == s.transport && t.owner == s.owner && t.tunnel == s.tunnel && t.terminal == s.terminal
  {
    StreamAnswers(w, tunnel, now, policy);
    var sid := w.routes[tunnel];
    HasRunOutExactly(w.objects[sid].lifecycle, SessionState.StreamOpen(now), policy);
    ActiveAnswers(w.objects[sid].lifecycle, SessionState.StreamOpen(now), policy);
  }

  // ----------------------------------------------------------------- endings

  /** A tick ends a live session exactly when it has run out or its owner may no longer have it. */
  lemma TickAnswers(w: World, tunnel: Tunnel, now: int, authorizationExpired: bool, policy: Policy)
    requires tunnel in w.routes && w.routes[tunnel] in w.objects && w.objects[w.routes[tunnel]].tunnel == tunnel
    ensures var next := Sweep(w, tunnel, now, authorizationExpired, policy).world;
            var s := w.objects[w.routes[tunnel]];
            if Live(s.lifecycle) && (authorizationExpired || HasRunOut(s.lifecycle, now, policy))
            then
              && tunnel !in next.routes && w.routes[tunnel] in next.objects
              && next.objects[w.routes[tunnel]].terminal && next.objects[w.routes[tunnel]].streams == map[]
              && next.objects - {w.routes[tunnel]} == w.objects - {w.routes[tunnel]}
              && next.routes == w.routes - {tunnel} && next.carriers == w.carriers
            else next == w
  {
    var s := w.objects[w.routes[tunnel]];
    if Live(s.lifecycle) {
      HasRunOutExactly(s.lifecycle, SessionState.Tick(now), policy);
      if !HasRunOut(s.lifecycle, now, policy) {
        if s.lifecycle.Active? {
          ActiveAnswers(s.lifecycle, SessionState.Tick(now), policy);
        } else {
          ReconnectingAnswers(s.lifecycle, SessionState.Tick(now), policy);
        }
      }
    }
  }

  /** A routed session that is terminated ends without streams and leaves its route; any other is left alone. */
  lemma TerminationAnswers(w: World, sid: SessionId, policy: Policy)
    ensures var next := Perform(w, Terminate(sid), policy).world;
            if sid in w.objects && Registered(w, sid)
            then
              && next.objects == w.objects[sid := w.objects[sid].(terminal := true, streams := map[])]
              && next.routes == w.routes - {w.objects[sid].tunnel} && next.carriers == w.carriers
            else next == w
  {
  }

  /** The socket that closes is the one that its session still sits on. */
  ghost predicate Carries(w: World, socket: Socket) {
    && socket in w.carriers && !w.carriers[socket].cleaned && w.carriers[socket].session.Some?
    && Registered(w, w.carriers[socket].session.value)
    && w.objects[w.carriers[socket].session.value].transport.socket == socket
  }

  /** Only the current socket's loss reaches the session. */
  lemma OtherLossesChangeNothing(w: World, socket: Socket, now: int, policy: Policy)
    requires !Carries(w, socket)
    ensures var next := Cleanup(w, socket, now, policy).world;
            next.objects == w.objects && next.routes == w.routes && next.carriers - {socket} == w.carriers - {socket}
  {
  }

  /**
   The loss of the current socket: a session being created is given up; an active
   one starts reconnecting, and a reconnecting one whose attempt this was is open
   to the next attempt, unless they have run out; the streams are gone in any case.
   */
  lemma LossAnswers(w: World, socket: Socket, now: int, policy: Policy)
    requires Carries(w, socket) && Accounted(w.objects[w.carriers[socket].session.value])
    ensures var next := Cleanup(w, socket, now, policy).world;
            var sid := w.carriers[socket].session.value;
            var s, attempt := w.objects[sid], w.carriers[socket].attempt;
            && sid in next.objects && next.objects[sid].streams == map[]
            && next.objects - {sid} == w.objects - {sid}
            && (s.lifecycle.Creating? ==> next.routes == w.routes - {s.tunnel})
            && (Live(s.lifecycle) && HasRunOut(s.lifecycle, now, policy)
                && (s.lifecycle.Active? || (attempt.Some? && s.lifecycle.candidateAttemptId == attempt)) ==>
                  next.objects[sid].terminal && next.routes == w.routes - {s.tunnel})
            && (s.lifecycle.Active? && !HasRunOut(s.lifecycle, now, policy) ==>
                  && next.routes == w.routes
                  && next.objects[sid].lifecycle
                     == Reconnecting(s.lifecycle.activatedAt, s.lifecycle.generation, now, now, None, None, None))
            && (s.lifecycle.Reconnecting? && !HasRunOut(s.lifecycle, now, policy) ==>
                  && next.routes == w.routes
                  && next.objects[sid].lifecycle
                     == if attempt.Some? && s.lifecycle.candidateAttemptId == attempt
                        then s.lifecycle.(candidateAttemptId := None, candidateGeneration := None)
                        else s.lifecycle)
  {
    var sid := w.carriers[socket].session.value;
    var s, attempt := w.objects[sid], w.carriers[socket].attempt;
    if s.lifecycle.Active? {
      HasRunOutExactly(s.lifecycle, CarrierLost(now), policy);
      if !HasRunOut(s.lifecycle, now, policy) {
        ActiveAnswers(s.lifecycle, CarrierLost(now), policy);
      }
    } else if s.lifecycle.Reconnecting? && attempt.Some? {
      HasRunOutExactly(s.lifecycle, ResumeFailed(now, attempt.value), policy);
      if !HasRunOut(s.lifecycle, now, policy) {
        ReconnectingAnswers(s.lifecycle, ResumeFailed(now, attempt.value), policy);
      }
    }
  }

  /** A stream that is not the session's own, or not any more, is not removed; one that is goes alone. */
  lemma RemovalAnswers(w: World, sid: SessionId, streamId: int, stream: Stream, now: int, policy: Policy)
    requires sid in w.objects && CurrentStream(w.objects[sid], streamId, stream) ==>
               Registered(w, sid) && Accounted(w.objects[sid])
    ensures var e := EndStream(w, sid, streamId, stream, now, policy);
            && (e == Rejected(w, NotCurrent) <==> sid !in w.objects || !CurrentStream(w.objects[sid], streamId, stream))
            && (!e.Rejected? ==>
                  var s, t := w.objects[sid], e.world.objects[sid];
                  && e.world.objects - {sid} == w.objects - {sid} && e.world.carriers == w.carriers
                  && s.lifecycle.Active? && t.transport == s.transport
                  && (HasRunOut(s.lifecycle, now, policy) ==> t.terminal && e.world.routes == w.routes - {s.tunnel})
                  && (!HasRunOut(s.lifecycle, now, policy) ==>
                        && e.world.routes == w.routes && !t.terminal && t.streams == s.streams - {streamId}
                        && t.lifecycle.Active?
                        && t.lifecycle.activeStreamCount == s.lifecycle.activeStreamCount - 1
                        && t.lifecycle.lastStreamClosedAt
                           == if s.lifecycle.activeStreamCount == 1 then now else s.lifecycle.lastStreamClosedAt))
  {
    if sid in w.objects && CurrentStream(w.objects[sid], streamId, stream) {
      var s := w.objects[sid];
      StreamsAreActive(s, streamId);
      HasRunOutExactly(s.lifecycle, SessionState.StreamClosed(now), policy);
      if !HasRunOut(s.lifecycle, now, policy) {
        ActiveAnswers(s.lifecycle, SessionState.StreamClosed(now), policy);
      }
    }
  }

  lemma StreamsAreActive(s: Session, streamId: int)
    requires Accounted(s) && streamId in s.streams
    ensures s.lifecycle.Active? && s.lifecycle.activeStreamCount > 0
  {
    assert s.lifecycle.Active? ==> |s.streams| > 0;
  }

  // --------------------------------------------------------- who moves a session

  /** The k-th step of the run is an authorized resume of the session's tunnel, and puts the session on its socket. */
  ghost predicate MovedBy(w: World, steps: seq<Step>, k: nat, policy: Policy, sid: SessionId)
    requires k < |steps|
  {
    var before := Serve(w, steps[..k], policy);
    && steps[k].HelloResume? && steps[k].authorized && sid in before.objects
    && steps[k].tunnel == before.objects[sid].tunnel
    && MayResume(before, steps[k].socket, steps[k].tunnel, steps[k].checkedAt, true, policy)
    && Perform(before, steps[k], policy).Done? && sid in Perform(before, steps[k], policy).world.objects
    && Perform(before, steps[k], policy).world.objects[sid].transport.socket == steps[k].socket
  }

  /** One step: the session stays where it is, unless the step is an authorized resume of its tunnel. */
  lemma StepMoves(w: World, step: Step, policy: Policy, sid: SessionId)
    requires Sound(w) && sid in w.objects
    ensures var next := Perform(w, step, policy).world;
            && sid in next.objects
            && (next.objects[sid].transport != w.objects[sid].transport ==>
                  && step.HelloResume? && Perform(w, step, policy).Done?
                  && step.tunnel == w.objects[sid].tunnel
                  && MayResume(w, step.socket, step.tunnel, step.checkedAt, step.authorized, policy)
                  && next.objects[sid].transport.socket == step.socket)
  {
    if step.HelloResume? {
      ResumeKeepsOthers(w, step.socket, step.tunnel, step.checkedAt, step.now, step.authorized, policy);
      ResumeAnswers(w, step.socket, step.tunnel, step.checkedAt, step.now, step.authorized, policy);
      if Perform(w, step, policy).Done? {
        ResumedSession(w, step.socket, step.tunnel, step.checkedAt, step.now, step.authorized, policy);
      } else {
        FailedResumeMovesNothing(w, step, policy);
      }
    } else {
      StepKeepsTransports(w, step, policy);
    }
  }

  lemma FailedResumeIs(
    w: World, socket: Socket, tunnel: Tunnel, checkedAt: int, now: int, authorized: bool, policy: Policy)
    requires !Resume(w, socket, tunnel, checkedAt, now, authorized, policy).Done?
    ensures var next := Resume(w, socket, tunnel, checkedAt, now, authorized, policy).world;
            || next == w
            || (&& tunnel in w.routes && w.routes[tunnel] in w.objects
                && exists lifecycle :: next == ApplyTransition(w, w.routes[tunnel], lifecycle))
  {
    if tunnel in w.routes && w.routes[tunnel] in w.objects && w.objects[w.routes[tunnel]].lifecycle.Reconnecting? {
      var outcome := Transition(w.objects[w.routes[tunnel]].lifecycle, StartResume(now, w.nextAttempt), policy);
      if outcome.To? {
        var stored := ApplyTransition(w, w.routes[tunnel], outcome.state);
        assert stored == ApplyTransition(w, w.routes[tunnel], outcome.state);
      }
    }
  }

  lemma FailedResumeMovesNothing(w: World, step: Step, policy: Policy)
    requires step.HelloResume? && !Perform(w, step, policy).Done?
    ensures TransportsStay(w, Perform(w, step, policy).world)
  {
    FailedResumeIs(w, step.socket, step.tunnel, step.checkedAt, step.now, step.authorized, policy);
    var next := Perform(w, step, policy).world;
    if next != w {
      var lifecycle :| next == ApplyTransition(w, w.routes[step.tunnel], lifecycle);
      StoreKeepsTransports(w, w.routes[step.tunnel], lifecycle);
    }
  }

  lemma {:induction false} ServeOfAppend(w: World, steps: seq<Step>, step: Step, policy: Policy)
    ensures Serve(w, steps + [step], policy) == Perform(Serve(w, steps, policy), step, policy).world
    decreases |steps|
  {
    if steps == [] {
      assert [step][1..] == [] && steps + [step] == [step];
    } else {
      assert (steps + [step])[1..] == steps[1..] + [step];
      ServeOfAppend(Perform(w, steps[0], policy).world, steps[1..], step, policy);
    }
  }

  lemma MovedEarlier(w: World, steps: seq<Step>, last: Step, k: nat, policy: Policy, sid: SessionId)
    requires k < |steps| && MovedBy(w, steps, k, policy, sid)
    ensures MovedBy(w, steps + [last], k, policy, sid) && (steps + [last])[k] == steps[k]
  {
    assert (steps + [last])[..k] == steps[..k];
  }

  lemma MovedLast(w: World, steps: seq<Step>, last: Step, policy: Policy, sid: SessionId)
    requires Sound(w) && sid in Serve(w, steps, policy).objects
    requires sid in Serve(w, steps + [last], policy).objects
    requires Serve(w, steps + [last], policy).objects[sid].transport != Serve(w, steps, policy).objects[sid].transport
    ensures MovedBy(w, steps + [last], |steps|, policy, sid)
    ensures last.HelloResume? && Serve(w, steps + [last], policy).objects[sid].transport.socket == last.socket
  {
    EveryRunIsSound(w, steps, policy);
    ServeOfAppend(w, steps, last, policy);
    StepMoves(Serve(w, steps, policy), last, policy, sid);
    assert (steps + [last])[..|steps|] == steps;
  }

  lemma StaysKnown(w: World, steps: seq<Step>, policy: Policy, sid: SessionId)
    requires Sound(w) && sid in w.objects
    ensures sid in Serve(w, steps, policy).objects
  {
    RunRaisesGenerations(w, steps, policy);
  }

  /** The run put the session on this socket by an authorized resume. */
  ghost predicate PutOn(w: World, steps: seq<Step>, policy: Policy, sid: SessionId, socket: Socket) {
    exists k | 0 <= k < |steps| :: MovedBy(w, steps, k, policy, sid) && steps[k].socket == socket
  }

  /**
   Whoever has a session has proved that it may: over any run, a session that ends
   on another transport than it started on was put on its last socket by a resume
   that was authorized for it.
   */
  lemma {:induction false} OnlyAuthorizedResumesMove(w: World, steps: seq<Step>, policy: Policy, sid: SessionId)
    requires Sound(w) && sid in w.objects
    ensures var end := Serve(w, steps, policy);
            && sid in end.objects
            && (end.objects[sid].transport != w.objects[sid].transport ==>
                  PutOn(w, steps, policy, sid, end.objects[sid].transport.socket))
    decreases |steps|
  {
    StaysKnown(w, steps, policy, sid);
    if steps != [] {
      var earlier, step := steps[..|steps| - 1], steps[|steps| - 1];
      assert steps == earlier + [step];
      OnlyAuthorizedResumesMove(w, earlier, policy, sid);
      var before, after := Serve(w, earlier, policy).objects[sid], Serve(w, steps, policy).objects[sid];
      if after.transport != before.transport {
        MovedLast(w, earlier, step, policy, sid);
      } else if before.transport != w.objects[sid].transport {
        var k :| 0 <= k < |earlier| && MovedBy(w, earlier, k, policy, sid)
                 && earlier[k].socket == before.transport.socket;
        MovedEarlier(w, earlier, step, k, policy, sid);
      }
    }
  }
}
