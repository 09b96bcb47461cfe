/** What holds of the gateway's sessions in every reachable state. */
module GatewaySafety {
  import opened Options
  import opened SessionState
  import opened GatewaySessions

  // -------------------------------------------------------------- invariants

  function Issued(lifecycle: State): int
    requires lifecycle.Reconnecting?
  {
    if lifecycle.lastIssuedGeneration.Some? then lifecycle.lastIssuedGeneration.value else lifecycle.generation
  }

  /** The stream map and the transport of a routed session agree with its lifecycle. */
  ghost predicate Accounted(s: Session) {
    && !s.terminal
    && match s.lifecycle
       case Creating => s.streams == map[] && s.transport.generation == 1
       case Active(_, generation, count, _) =>
         && generation == s.transport.generation
         && |s.streams| == count
         && (forall id | id in s.streams :: s.streams[id].transport == s.transport && id <= s.highestIssued)
       case Reconnecting(_, _, _, _, attempt, candidate, _) =>
         && s.streams == map[]
         && s.transport.generation == Issued(s.lifecycle)
         && (attempt.Some? <==> candidate.Some?)
         && (candidate.Some? ==> candidate.value == s.transport.generation)
       case _ => false
  }

  ghost predicate SessionsSound(w: World) {
    forall sid | sid in w.objects ::
      && sid < w.nextSession
      && (if Registered(w, sid) then Accounted(w.objects[sid]) else w.objects[sid].streams == map[])
  }

  ghost predicate RoutesSound(w: World) {
    forall tunnel | tunnel in w.routes :: w.routes[tunnel] in w.objects && w.objects[w.routes[tunnel]].tunnel == tunnel
  }

  /** Resume attempts are never shared between carriers. */
  ghost predicate AttemptsSound(w: World) {
    && (forall c | c in w.carriers && w.carriers[c].attempt.Some? :: w.carriers[c].attempt.value < w.nextAttempt)
    && (forall c, d | c in w.carriers && d in w.carriers && w.carriers[c].attempt.Some? ::
          w.carriers[c].attempt == w.carriers[d].attempt ==> c == d)
    && (forall c | c in w.carriers && w.carriers[c].attempt.Some? :: w.carriers[c].session.Some?)
  }

  /** The socket a session sits on belongs to the carrier that speaks for it, and holds its open attempt. */
  ghost predicate CarriersSound(w: World) {
    && (forall c | c in w.carriers && w.carriers[c].session.Some? :: w.carriers[c].session.value in w.objects)
    && (forall sid | sid in w.objects ::
          var s := w.objects[sid];
          && s.transport.socket in w.carriers
          && w.carriers[s.transport.socket].session == Some(sid)
          && (Registered(w, sid) && s.lifecycle.Reconnecting? && s.lifecycle.candidateAttemptId.Some? ==>
                w.carriers[s.transport.socket].attempt == s.lifecycle.candidateAttemptId))
  }

  ghost predicate Sound(w: World) {
    SessionsSound(w) && RoutesSound(w) && AttemptsSound(w) && CarriersSound(w)
  }

  // ----------------------------------------------------- one session changes

  /** Replacing a routed session by one that is still accounted for. */
  lemma PutKeepsSound(w: World, sid: SessionId, s: Session)
    requires Sound(w) && Registered(w, sid)
    requires s.tunnel == w.objects[sid].tunnel && s.transport == w.objects[sid].transport
    requires Accounted(s)
    requires s.lifecycle.Reconnecting? && s.lifecycle.candidateAttemptId.Some? ==>
               w.carriers[s.transport.socket].attempt == s.lifecycle.candidateAttemptId
    ensures Sound(Put(w, sid, s)) && Registered(Put(w, sid, s), sid)
  {
    var next := Put(w, sid, s);
    assert forall other | other in w.objects :: Registered(next, other) == Registered(w, other);
  }

  /** A session may hold anything when it is dropped from the routes, except streams. */
  lemma UnrouteKeepsSound(w: World, sid: SessionId, s: Session)
    requires Sound(w) && Registered(w, sid)
    requires s.tunnel == w.objects[sid].tunnel && s.transport == w.objects[sid].transport
    requires s.streams == map[]
    ensures Sound(Unroute(Put(w, sid, s), s.tunnel))
  {
    var next := Unroute(Put(w, sid, s), s.tunnel);
    assert forall other | other in w.objects && other != sid :: Registered(next, other) == Registered(w, other);
  }

  lemma StoredTwice(w: World, sid: SessionId, s: Session, last: Session)
    requires sid in w.objects
    ensures Put(Put(w, sid, s), sid, last) == Put(w, sid, last)
  {
    assert Put(Put(w, sid, s), sid, last).objects == Put(w, sid, last).objects;
  }

  /** What storing a transition's result leaves: the next state, or the session gone. */
  lemma AppliedIs(w: World, sid: SessionId, s: Session, next: State)
    requires Registered(w, sid) && s.tunnel == w.objects[sid].tunnel
    ensures var last := s.(lifecycle := next);
            ApplyTransition(Put(w, sid, s), sid, next)
            == if next.Expired?
               then Unroute(Put(w, sid, last.(terminal := true, streams := map[])), s.tunnel)
               else Put(w, sid, last)
  {
    var last := s.(lifecycle := next);
    StoredTwice(w, sid, s, last);
    StoredTwice(w, sid, last, last.(terminal := true, streams := map[]));
  }

  /** Storing a transition's result: the next state is accounted for, or the session is gone. */
  lemma ApplyKeepsSound(w: World, sid: SessionId, s: Session, next: State)
    requires Sound(w) && Registered(w, sid)
    requires s.tunnel == w.objects[sid].tunnel && s.transport == w.objects[sid].transport
    requires !next.Expired? ==> Accounted(s.(lifecycle := next))
    requires next.Reconnecting? && next.candidateAttemptId.Some? ==>
               w.carriers[s.transport.socket].attempt == next.candidateAttemptId
    ensures Sound(ApplyTransition(Put(w, sid, s), sid, next))
    ensures !next.Expired? ==> ApplyTransition(Put(w, sid, s), sid, next) == Put(w, sid, s.(lifecycle := next))
  {
    AppliedIs(w, sid, s, next);
    if next.Expired? {
      UnrouteKeepsSound(w, sid, s.(lifecycle := next, terminal := true, streams := map[]));
    } else {
      PutKeepsSound(w, sid, s.(lifecycle := next));
    }
  }

  lemma DisposeKeepsSound(w: World, sid: SessionId)
    requires Sound(w) && sid in w.objects
    ensures Sound(Dispose(w, sid))
  {
    if Registered(w, sid) {
      UnrouteKeepsSound(w, sid, w.objects[sid].(terminal := true, streams := map[]));
    }
  }

  lemma SameSession(w: World, sid: SessionId)
    requires sid in w.objects
    ensures Put(w, sid, w.objects[sid]) == w
  {
    assert w.objects[sid := w.objects[sid]] == w.objects;
  }

  // -------------------------------------------------------------- the steps

  lemma CreatedSessions(w: World, socket: Socket, tunnel: Tunnel, owner: Option<Account>)
    requires SessionsSound(w) && RoutesSound(w) && socket in w.carriers && tunnel !in w.routes
    ensures var next := CreateSession(w, socket, tunnel, owner); SessionsSound(next) && RoutesSound(next)
  {
    var next := CreateSession(w, socket, tunnel, owner);
    assert forall other | other in w.objects :: Registered(next, other) == Registered(w, other);
  }

  lemma CreatedCarriers(w: World, socket: Socket, tunnel: Tunnel, owner: Option<Account>)
    requires SessionsSound(w) && AttemptsSound(w) && CarriersSound(w)
    requires socket in w.carriers && w.carriers[socket].session.None? && tunnel !in w.routes
    ensures var next := CreateSession(w, socket, tunnel, owner); AttemptsSound(next) && CarriersSound(next)
  {
    var next := CreateSession(w, socket, tunnel, owner);
    assert forall other | other in w.objects :: Registered(next, other) == Registered(w, other);
  }

  lemma GreetIsSound(w: World, socket: Socket, tunnel: Tunnel, owner: Option<Account>, admitted: bool)
    requires Sound(w)
    ensures var effect := Greet(w, socket, tunnel, owner, admitted);
            !effect.Broken? && Sound(effect.world)
  {
    if Greet(w, socket, tunnel, owner, admitted).Done? {
      CreatedSessions(w, socket, tunnel, owner);
      CreatedCarriers(w, socket, tunnel, owner);
    }
  }

  /** The world after an accepted resume: the session sits on a fresh transport, its attempt on the new carrier. */
  ghost predicate Adopted(w: World, sid: SessionId, socket: Socket, s: Session, next: World) {
    && Registered(w, sid) && socket in w.carriers && w.carriers[socket].session.None?
    && s.tunnel == w.objects[sid].tunnel && s.transport.socket == socket
    && s.lifecycle.Reconnecting? && s.lifecycle.candidateAttemptId == Some(w.nextAttempt)
    && s.highestIssued == 0 && Accounted(s)
    && next.objects == w.objects[sid := s]
    && next.routes == w.routes
    && next.carriers == w.carriers[socket := w.carriers[socket].(session := Some(sid), attempt := Some(w.nextAttempt))]
    && next.nextSession == w.nextSession && next.nextAttempt == w.nextAttempt + 1
  }

  lemma AdoptedCarriers(w: World, sid: SessionId, socket: Socket, s: Session, next: World)
    requires Sound(w) && Adopted(w, sid, socket, s, next)
    ensures CarriersSound(next)
  {
    forall other | other in next.objects
      ensures var o := next.objects[other];
              && o.transport.socket in next.carriers
              && next.carriers[o.transport.socket].session == Some(other)
              && (Registered(next, other) && o.lifecycle.Reconnecting? && o.lifecycle.candidateAttemptId.Some? ==>
                    next.carriers[o.transport.socket].attempt == o.lifecycle.candidateAttemptId)
    {
      if other != sid {
        assert Registered(next, other) == Registered(w, other);
        assert w.carriers[w.objects[other].transport.socket].session == Some(other);
      }
    }
  }

  lemma AdoptedSessions(w: World, sid: SessionId, socket: Socket, s: Session, next: World)
    requires SessionsSound(w) && RoutesSound(w) && Adopted(w, sid, socket, s, next)
    ensures SessionsSound(next) && RoutesSound(next)
  {
    assert forall other | other in w.objects :: Registered(next, other) == Registered(w, other);
  }

  lemma AdoptedAttempts(w: World, sid: SessionId, socket: Socket, s: Session, next: World)
    requires AttemptsSound(w) && Adopted(w, sid, socket, s, next)
    ensures AttemptsSound(next)
  {
  }

  lemma AdoptedIsSound(w: World, sid: SessionId, socket: Socket, s: Session, next: World)
    requires Sound(w) && Adopted(w, sid, socket, s, next)
    ensures Sound(next)
  {
    AdoptedSessions(w, sid, socket, s, next);
    AdoptedAttempts(w, sid, socket, s, next);
    AdoptedCarriers(w, sid, socket, s, next);
  }

  lemma ResumeIsSound(
    w: World, socket: Socket, tunnel: Tunnel, checkedAt: int, now: int, authorized: bool, policy: Policy)
    requires Sound(w)
    ensures var effect := Resume(w, socket, tunnel, checkedAt, now, authorized, policy);
            !effect.Broken? && Sound(effect.world)
  {
    if socket in w.carriers && w.carriers[socket].session.None? && tunnel in w.routes {
      var sid := w.routes[tunnel];
      var s := w.objects[sid];
      if s.lifecycle.Reconnecting? {
        var outcome := Transition(s.lifecycle, StartResume(now, w.nextAttempt), policy);
        if outcome.To? && outcome.state.Expired? {
          SameSession(w, sid);
          ApplyKeepsSound(w, sid, s, outcome.state);
        } else if outcome.To? {
          var next := outcome.state;
          var stored := Put(w, sid, s.(lifecycle := next));
          var moved := stored.objects[sid].(
            transport := Transport(socket, next.candidateGeneration.value, w.nextFlow, w.nextFlow + 1),
            highestIssued := 0);
          var adopted := Adopt(stored, sid, socket, next.candidateGeneration.value);
          assert adopted.objects == w.objects[sid := moved];
          AdoptedIsSound(w, sid, socket, moved, adopted);
        }
      }
    }
  }

  lemma ProbeIsSound(w: World, socket: Socket)
    requires Sound(w)
    ensures var effect := StartProbe(w, socket);
            !effect.Broken? && Sound(effect.world)
  {
    var effect := StartProbe(w, socket);
    if effect.Done? {
      var sid := w.carriers[socket].session.value;
      var s := w.objects[sid];
      PutKeepsSound(w, sid, s.(highestIssued := NextId(s)));
    }
  }

  /** The new state is active on the session's generation, or expired. */
  lemma CommitIsSound(w: World, sid: SessionId, next: State)
    requires Sound(w) && Registered(w, sid) && w.objects[sid].streams == map[]
    requires next.Expired? || (next.Active? && next.generation == w.objects[sid].transport.generation
                               && next.activeStreamCount == 0)
    ensures !Commit(w, sid, next).Broken? && Sound(Commit(w, sid, next).world)
  {
    SameSession(w, sid);
    ApplyKeepsSound(w, sid, w.objects[sid], next);
  }

  lemma ActivatedIsCommitted(s: Session, now: int, policy: Policy)
    requires Accounted(s) && s.lifecycle.Creating?
    ensures var outcome := Transition(s.lifecycle, Activate(now), policy);
            && outcome.To? && outcome.state.Active? && outcome.state.generation == s.transport.generation
            && outcome.state.activeStreamCount == 0
  {
  }

  lemma ResumedIsCommitted(s: Session, now: int, attempt: AttemptId, policy: Policy)
    requires Accounted(s) && s.lifecycle.Reconnecting?
    ensures var outcome := Transition(s.lifecycle, ResumeCommitted(now, attempt), policy);
            && (outcome.Refused? ==> outcome.refusal.StaleResumeAttempt?)
            && (outcome.To? ==>
                  || outcome.state.Expired?
                  || (outcome.state.Active? && outcome.state.generation == s.transport.generation
                      && outcome.state.activeStreamCount == 0))
  {
  }

  lemma FinishIsSound(w: World, socket: Socket, generation: int, now: int, admitted: bool, policy: Policy)
    requires Sound(w)
    ensures var effect := Finish(w, socket, generation, now, admitted, policy);
            !effect.Broken? && Sound(effect.world)
  {
    if socket in w.carriers && w.carriers[socket].session.Some? && Registered(w, w.carriers[socket].session.value) {
      var sid := w.carriers[socket].session.value;
      var s := w.objects[sid];
      if s.lifecycle.Creating? {
        ActivatedIsCommitted(s, now, policy);
        CommitIsSound(w, sid, Transition(s.lifecycle, Activate(now), policy).state);
      } else if s.lifecycle.Reconnecting? && w.carriers[socket].attempt.Some? {
        var attempt := w.carriers[socket].attempt.value;
        ResumedIsCommitted(s, now, attempt, policy);
        var outcome := Transition(s.lifecycle, ResumeCommitted(now, attempt), policy);
        if outcome.To? {
          CommitIsSound(w, sid, outcome.state);
        }
      }
    }
  }

  lemma RemovalCounts(streams: map<int, Stream>, id: int)
    requires id in streams
    ensures |streams - {id}| == |streams| - 1
  {
    assert (streams - {id}).Keys == streams.Keys - {id};
    assert |streams.Keys| == |streams| && |(streams - {id}).Keys| == |streams - {id}|;
  }

  /** One more stream, under an id above all in the map, and one more in the count. */
  lemma AddingAccounts(s: Session, next: State, stream: Stream)
    requires Accounted(s) && s.lifecycle.Active? && IdsLeft(s) && stream.transport == s.transport
    requires next == s.lifecycle.(activeStreamCount := s.lifecycle.activeStreamCount + 1)
    ensures Accounted(s.(highestIssued := NextId(s), lifecycle := next, streams := s.streams[NextId(s) := stream]))
  {
    assert NextId(s) !in s.streams;
  }

  /** The world in which the stream has been begun and entered. */
  lemma OpenedIs(w: World, sid: SessionId, next: State)
    requires sid in w.objects && IdsLeft(w.objects[sid]) && next.Active?
    ensures var s := w.objects[sid];
            var id := NextId(s);
            AddStream(ApplyTransition(Put(w, sid, s.(highestIssued := id)), sid, next), sid, id)
            == Put(w, sid, s.(highestIssued := id, lifecycle := next,
                              streams := s.streams[id := Stream(w.nextStream, s.transport)]))
                   .(nextStream := w.nextStream + 1)
  {
    var s := w.objects[sid];
    var id := NextId(s);
    var last := s.(highestIssued := id, lifecycle := next,
                   streams := s.streams[id := Stream(w.nextStream, s.transport)]);
    assert AddStream(ApplyTransition(Put(w, sid, s.(highestIssued := id)), sid, next), sid, id).objects
        == Put(w, sid, last).objects;
  }

  lemma OpenedIsSound(w: World, sid: SessionId, next: State)
    requires Sound(w) && Registered(w, sid) && w.objects[sid].lifecycle.Active? && IdsLeft(w.objects[sid])
    requires next == w.objects[sid].lifecycle.(activeStreamCount := w.objects[sid].lifecycle.activeStreamCount + 1)
    ensures var s := w.objects[sid];
            Sound(AddStream(ApplyTransition(Put(w, sid, s.(highestIssued := NextId(s))), sid, next), sid, NextId(s)))
  {
    var s := w.objects[sid];
    var id := NextId(s);
    var stream := Stream(w.nextStream, s.transport);
    AddingAccounts(s, next, stream);
    var last := s.(highestIssued := id, lifecycle := next, streams := s.streams[id := stream]);
    PutKeepsSound(w, sid, last);
    SerialIsIrrelevant(Put(w, sid, last), w.nextStream + 1);
    OpenedIs(w, sid, next);
  }

  lemma OpeningOutcome(lifecycle: State, now: int, policy: Policy)
    requires lifecycle.Active?
    ensures var outcome := Transition(lifecycle, SessionState.StreamOpen(now), policy);
            outcome.To? && (outcome.state.Expired?
                            || outcome.state == lifecycle.(activeStreamCount := lifecycle.activeStreamCount + 1))
  {
  }

  lemma BeginIsSound(w: World, tunnel: Tunnel, now: int, policy: Policy)
    requires Sound(w)
    ensures var effect := BeginStream(w, tunnel, now, policy);
            !effect.Broken? && Sound(effect.world)
  {
    if tunnel in w.routes && w.objects[w.routes[tunnel]].lifecycle.Active? && IdsLeft(w.objects[w.routes[tunnel]]) {
      var sid := w.routes[tunnel];
      var s := w.objects[sid];
      OpeningOutcome(s.lifecycle, now, policy);
      var next := Transition(s.lifecycle, SessionState.StreamOpen(now), policy).state;
      if next.Expired? {
        ApplyKeepsSound(w, sid, s.(highestIssued := NextId(s)), next);
      } else {
        OpenedIsSound(w, sid, next);
      }
    }
  }

  lemma SerialIsIrrelevant(w: World, serial: nat)
    requires Sound(w)
    ensures Sound(w.(nextStream := serial))
  {
    assert forall sid | sid in w.objects :: Registered(w.(nextStream := serial), sid) == Registered(w, sid);
  }

  lemma EndIsSound(w: World, sid: SessionId, streamId: int, stream: Stream, now: int, policy: Policy)
    requires Sound(w)
    ensures var effect := EndStream(w, sid, streamId, stream, now, policy);
            !effect.Broken? && Sound(effect.world)
  {
    if sid in w.objects && CurrentStream(w.objects[sid], streamId, stream) {
      var s := w.objects[sid];
      var removed := s.(streams := s.streams - {streamId});
      RemovalCounts(s.streams, streamId);
      assert s.lifecycle.Active? && s.lifecycle.activeStreamCount > 0;
      ApplyKeepsSound(w, sid, removed, Transition(s.lifecycle, SessionState.StreamClosed(now), policy).state);
    }
  }

  lemma TickIsSound(w: World, tunnel: Tunnel, now: int, authorizationExpired: bool, policy: Policy)
    requires Sound(w)
    ensures var effect := Sweep(w, tunnel, now, authorizationExpired, policy);
            !effect.Broken? && Sound(effect.world)
  {
    if tunnel in w.routes && Live(w.objects[w.routes[tunnel]].lifecycle) {
      var sid := w.routes[tunnel];
      var s := w.objects[sid];
      var next := Transition(s.lifecycle, SessionState.Tick(now), policy).state;
      if next.Expired? || authorizationExpired {
        var gone := s.(lifecycle := next, terminal := true, streams := map[]);
        UnrouteKeepsSound(w, sid, gone);
        var stored := Put(w, sid, s.(lifecycle := next));
        assert Put(stored, sid, gone).objects == Put(w, sid, gone).objects;
        assert Dispose(stored, sid) == Unroute(Put(w, sid, gone), s.tunnel);
      }
    }
  }

  lemma LossIsSound(w: World, sid: SessionId, attempt: Option<AttemptId>, now: int, policy: Policy)
    requires Sound(w) && Registered(w, sid)
    ensures var effect := LoseSession(w, sid, attempt, now, policy);
            !effect.Broken? && Sound(effect.world)
  {
    var s := w.objects[sid];
    var emptied := s.(streams := map[]);
    match s.lifecycle {
      case Creating => UnrouteKeepsSound(w, sid, emptied);
      case Active(_, _, _, _) =>
        ApplyKeepsSound(w, sid, emptied, Transition(s.lifecycle, CarrierLost(now), policy).state);
      case Reconnecting(_, _, _, _, candidate, _, _) =>
        if attempt.Some? && candidate == attempt {
          ApplyKeepsSound(w, sid, emptied, Transition(s.lifecycle, ResumeFailed(now, attempt.value), policy).state);
        } else {
          PutKeepsSound(w, sid, emptied);
        }
    }
  }

  lemma CleanedIsSound(w: World, socket: Socket)
    requires Sound(w) && socket in w.carriers
    ensures Sound(w.(carriers := w.carriers[socket := w.carriers[socket].(cleaned := true)]))
  {
    var cleaned := w.(carriers := w.carriers[socket := w.carriers[socket].(cleaned := true)]);
    assert forall sid | sid in w.objects :: Registered(cleaned, sid) == Registered(w, sid);
  }

  lemma CleanupIsSound(w: World, socket: Socket, now: int, policy: Policy)
    requires Sound(w)
    ensures var effect := Cleanup(w, socket, now, policy);
            !effect.Broken? && Sound(effect.world)
  {
    if socket in w.carriers {
      var cleaned := w.(carriers := w.carriers[socket := w.carriers[socket].(cleaned := true)]);
      CleanedIsSound(w, socket);
      var sid := w.carriers[socket].session;
      if sid.Some? && Registered(cleaned, sid.value) {
        LossIsSound(cleaned, sid.value, w.carriers[socket].attempt, now, policy);
      }
    }
  }

  lemma ConnectIsSound(w: World, socket: Socket)
    requires Sound(w) && socket !in w.carriers
    ensures Sound(w.(carriers := w.carriers[socket := Carrier(None, None, false)]))
  {
    var next := w.(carriers := w.carriers[socket := Carrier(None, None, false)]);
    assert forall sid | sid in w.objects :: Registered(next, sid) == Registered(w, sid);
  }

  // -------------------------------------------------------------- every run

  /** The carrier's messages. */
  lemma CarrierIsSound(w: World, step: Step, policy: Policy)
    requires Sound(w)
    requires step.Connect? || step.HelloCreate? || step.HelloResume? || step.IssueProbe? || step.FinishProbe?
    ensures var effect := Perform(w, step, policy);
            !effect.Broken? && Sound(effect.world)
  {
    match step
    case Connect(socket) => if socket !in w.carriers { ConnectIsSound(w, socket); }
    case HelloCreate(socket, tunnel, owner, admitted) => GreetIsSound(w, socket, tunnel, owner, admitted);
    case HelloResume(socket, tunnel, checkedAt, now, authorized) =>
      ResumeIsSound(w, socket, tunnel, checkedAt, now, authorized, policy);
    case IssueProbe(socket) => ProbeIsSound(w, socket);
    case FinishProbe(socket, generation, now, admitted) => FinishIsSound(w, socket, generation, now, admitted, policy);
  }

  lemma OpenStreamIsSound(w: World, tunnel: Tunnel, now: int, policy: Policy)
    requires Sound(w)
    ensures var effect := Perform(w, OpenStream(tunnel, now), policy); !effect.Broken? && Sound(effect.world)
  {
    BeginIsSound(w, tunnel, now, policy);
  }

  lemma RemoveStreamIsSound(w: World, sid: SessionId, streamId: int, stream: Stream, now: int, policy: Policy)
    requires Sound(w)
    ensures var effect := Perform(w, RemoveStream(sid, streamId, stream, now), policy);
            !effect.Broken? && Sound(effect.world)
  {
    EndIsSound(w, sid, streamId, stream, now, policy);
  }

  lemma StreamIsSound(w: World, step: Step, policy: Policy)
    requires Sound(w) && (step.OpenStream? || step.RemoveStream?)
    ensures var effect := Perform(w, step, policy);
            !effect.Broken? && Sound(effect.world)
  {
    match step
    case OpenStream(tunnel, now) => OpenStreamIsSound(w, tunnel, now, policy);
    case RemoveStream(session, streamId, stream, now) => RemoveStreamIsSound(w, session, streamId, stream, now, policy);
  }

  lemma EndingIsSound(w: World, step: Step, policy: Policy)
    requires Sound(w) && (step.CarrierClosed? || step.TickSession? || step.Terminate?)
    ensures var effect := Perform(w, step, policy);
            !effect.Broken? && Sound(effect.world)
  {
    match step
    case CarrierClosed(socket, now) => CleanupIsSound(w, socket, now, policy);
    case TickSession(tunnel, now, authorizationExpired) => TickIsSound(w, tunnel, now, authorizationExpired, policy);
    case Terminate(session) => if session in w.objects { DisposeKeepsSound(w, session); }
  }

  lemma PerformIsSound(w: World, step: Step, policy: Policy)
    requires Sound(w)
    ensures var effect := Perform(w, step, policy);
            !effect.Broken? && Sound(effect.world)
  {
    if step.OpenStream? || step.RemoveStream? {
      StreamIsSound(w, step, policy);
    } else if step.CarrierClosed? || step.TickSession? || step.Terminate? {
      EndingIsSound(w, step, policy);
    } else {
      CarrierIsSound(w, step, policy);
    }
  }

  lemma {:induction false} EveryRunIsSound(w: World, steps: seq<Step>, policy: Policy)
    requires Sound(w)
    ensures Sound(Serve(w, steps, policy))
    decreases |steps|
  {
    if steps != [] {
      PerformIsSound(w, steps[0], policy);
      EveryRunIsSound(Perform(w, steps[0], policy).world, steps[1..], policy);
    }
  }

  /** No handler of any run hits an invalid transition, a generation mismatch or a failed resume start. */
  lemma NoRunBreaks(steps: seq<Step>, step: Step, policy: Policy)
    ensures !Perform(Serve(Boot(), steps, policy), step, policy).Broken?
  {
    EveryRunIsSound(Boot(), steps, policy);
    PerformIsSound(Serve(Boot(), steps, policy), step, policy);
  }

  /** The stream map of a routed session agrees with its lifecycle, and only routed sessions hold streams. */
  lemma StreamAccounting(steps: seq<Step>, policy: Policy, sid: SessionId)
    ensures var w := Serve(Boot(), steps, policy);
            sid in w.objects ==>
              var s := w.objects[sid];
              if Registered(w, sid) then
                && !s.terminal && (s.lifecycle.Creating? || Live(s.lifecycle))
                && (s.lifecycle.Active? ==>
                      && |s.streams| == s.lifecycle.activeStreamCount
                      && s.lifecycle.generation == s.transport.generation
                      && forall id | id in s.streams :: CurrentStream(s, id, s.streams[id]))
                && (!s.lifecycle.Active? ==> s.streams == map[])
              else s.streams == map[]
  {
    EveryRunIsSound(Boot(), steps, policy);
  }

  // ------------------------------------------------------------------ epochs

  /** No session object is forgotten and no transport moves back to an older generation. */
  ghost predicate GenerationsRise(w: World, next: World) {
    forall sid | sid in w.objects ::
      && sid in next.objects
      && w.objects[sid].transport.generation <= next.objects[sid].transport.generation
  }

  /** Every session object is there, with the transport, tunnel and owner it had. */
  ghost predicate TransportsStay(w: World, next: World) {
    forall sid | sid in w.objects ::
      && sid in next.objects
      && next.objects[sid].transport == w.objects[sid].transport
      && next.objects[sid].tunnel == w.objects[sid].tunnel && next.objects[sid].owner == w.objects[sid].owner
  }

  /** Storing a transition's result, with expiry or without, leaves every transport where it is. */
  lemma ApplyKeepsTransports(w: World, sid: SessionId, s: Session, next: State)
    requires sid in w.objects && s.transport == w.objects[sid].transport
    requires s.tunnel == w.objects[sid].tunnel && s.owner == w.objects[sid].owner
    ensures TransportsStay(w, ApplyTransition(Put(w, sid, s), sid, next))
  {
  }

  lemma StoreKeepsTransports(w: World, sid: SessionId, next: State)
    requires sid in w.objects
    ensures TransportsStay(w, ApplyTransition(w, sid, next))
  {
  }

  lemma ResumeKeepsOthers(
    w: World, socket: Socket, tunnel: Tunnel, checkedAt: int, now: int, authorized: bool, policy: Policy)
    requires Sound(w)
    ensures GenerationsRise(w, Resume(w, socket, tunnel, checkedAt, now, authorized, policy).world)
  {
    if tunnel in w.routes && w.objects[w.routes[tunnel]].lifecycle.Reconnecting? {
      var sid := w.routes[tunnel];
      var outcome := Transition(w.objects[sid].lifecycle, StartResume(now, w.nextAttempt), policy);
      if outcome.To? {
        StoreKeepsTransports(w, sid, outcome.state);
      }
    }
  }

  lemma FinishKeepsTransports(w: World, socket: Socket, generation: int, now: int, admitted: bool, policy: Policy)
    ensures TransportsStay(w, Finish(w, socket, generation, now, admitted, policy).world)
  {
    if socket in w.carriers && w.carriers[socket].session.Some? && w.carriers[socket].session.value in w.objects {
      var sid := w.carriers[socket].session.value;
      forall next ensures TransportsStay(w, Commit(w, sid, next).world) {
        StoreKeepsTransports(w, sid, next);
      }
    }
  }

  lemma BeginKeepsTransports(w: World, tunnel: Tunnel, now: int, policy: Policy)
    ensures TransportsStay(w, BeginStream(w, tunnel, now, policy).world)
  {
    if tunnel in w.routes && w.routes[tunnel] in w.objects && IdsLeft(w.objects[w.routes[tunnel]]) {
      var sid := w.routes[tunnel];
      var s := w.objects[sid];
      var outcome := Transition(s.lifecycle, SessionState.StreamOpen(now), policy);
      if outcome.To? {
        ApplyKeepsTransports(w, sid, s.(highestIssued := NextId(s)), outcome.state);
      }
    }
  }

  lemma EndKeepsTransports(w: World, sid: SessionId, streamId: int, stream: Stream, now: int, policy: Policy)
    ensures TransportsStay(w, EndStream(w, sid, streamId, stream, now, policy).world)
  {
    if sid in w.objects {
      var s := w.objects[sid];
      var outcome := Transition(s.lifecycle, SessionState.StreamClosed(now), policy);
      if outcome.To? {
        ApplyKeepsTransports(w, sid, s.(streams := s.streams - {streamId}), outcome.state);
      }
    }
  }

  lemma LossKeepsTransports(w: World, sid: SessionId, attempt: Option<AttemptId>, now: int, policy: Policy)
    requires sid in w.objects
    ensures TransportsStay(w, LoseSession(w, sid, attempt, now, policy).world)
  {
    var s := w.objects[sid];
    forall next ensures TransportsStay(w, ApplyTransition(Put(w, sid, s.(streams := map[])), sid, next)) {
      ApplyKeepsTransports(w, sid, s.(streams := map[]), next);
    }
  }

  lemma CleanupKeepsTransports(w: World, socket: Socket, now: int, policy: Policy)
    ensures TransportsStay(w, Cleanup(w, socket, now, policy).world)
  {
    if socket in w.carriers && w.carriers[socket].session.Some? && w.carriers[socket].session.value in w.objects {
      var cleaned := w.(carriers := w.carriers[socket := w.carriers[socket].(cleaned := true)]);
      LossKeepsTransports(cleaned, w.carriers[socket].session.value, w.carriers[socket].attempt, now, policy);
    }
  }

  lemma SweepKeepsTransports(w: World, tunnel: Tunnel, now: int, authorizationExpired: bool, policy: Policy)
    ensures TransportsStay(w, Sweep(w, tunnel, now, authorizationExpired, policy).world)
  {
  }

  lemma GreetKeepsTransports(w: World, socket: Socket, tunnel: Tunnel, owner: Option<Account>, admitted: bool)
    requires Sound(w)
    ensures TransportsStay(w, Greet(w, socket, tunnel, owner, admitted).world)
  {
  }

  lemma ProbeKeepsTransports(w: World, socket: Socket)
    ensures TransportsStay(w, StartProbe(w, socket).world)
  {
  }

  lemma TerminateKeepsTransports(w: World, sid: SessionId)
    requires sid in w.objects
    ensures TransportsStay(w, Dispose(w, sid))
  {
  }

  /** The carrier's messages. */
  lemma CarrierKeepsTransports(w: World, step: Step, policy: Policy)
    requires Sound(w)
    requires step.Connect? || step.HelloCreate? || step.IssueProbe? || step.FinishProbe?
    ensures TransportsStay(w, Perform(w, step, policy).world)
  {
    match step
    case Connect(_) =>
    case HelloCreate(socket, tunnel, owner, admitted) => GreetKeepsTransports(w, socket, tunnel, owner, admitted);
    case IssueProbe(socket) => ProbeKeepsTransports(w, socket);
    case FinishProbe(socket, generation, now, admitted) =>
      FinishKeepsTransports(w, socket, generation, now, admitted, policy);
  }

  lemma StreamKeepsTransports(w: World, step: Step, policy: Policy)
    requires step.OpenStream? || step.RemoveStream?
    ensures TransportsStay(w, Perform(w, step, policy).world)
  {
    match step
    case OpenStream(tunnel, now) => BeginKeepsTransports(w, tunnel, now, policy);
    case RemoveStream(session, streamId, stream, now) => EndKeepsTransports(w, session, streamId, stream, now, policy);
  }

  lemma EndingKeepsTransports(w: World, step: Step, policy: Policy)
    requires step.CarrierClosed? || step.TickSession? || step.Terminate?
    ensures TransportsStay(w, Perform(w, step, policy).world)
  {
    match step
    case CarrierClosed(socket, now) => CleanupKeepsTransports(w, socket, now, policy);
    case TickSession(tunnel, now, authorizationExpired) =>
      SweepKeepsTransports(w, tunnel, now, authorizationExpired, policy);
    case Terminate(session) => if session in w.objects { TerminateKeepsTransports(w, session); }
  }

  /** No step but a resume moves a session to another transport. */
  lemma StepKeepsTransports(w: World, step: Step, policy: Policy)
    requires Sound(w) && !step.HelloResume?
    ensures TransportsStay(w, Perform(w, step, policy).world)
  {
    if step.OpenStream? || step.RemoveStream? {
      StreamKeepsTransports(w, step, policy);
    } else if step.CarrierClosed? || step.TickSession? || step.Terminate? {
      EndingKeepsTransports(w, step, policy);
    } else {
      CarrierKeepsTransports(w, step, policy);
    }
  }

  lemma PerformRaisesGenerations(w: World, step: Step, policy: Policy)
    requires Sound(w)
    ensures GenerationsRise(w, Perform(w, step, policy).world)
  {
    if step.HelloResume? {
      ResumeKeepsOthers(w, step.socket, step.tunnel, step.checkedAt, step.now, step.authorized, policy);
    } else {
      StepKeepsTransports(w, step, policy);
    }
  }

  lemma {:induction false} RunRaisesGenerations(w: World, steps: seq<Step>, policy: Policy)
    requires Sound(w)
    ensures GenerationsRise(w, Serve(w, steps, policy))
    decreases |steps|
  {
    if steps != [] {
      PerformIsSound(w, steps[0], policy);
      PerformRaisesGenerations(w, steps[0], policy);
      RunRaisesGenerations(Perform(w, steps[0], policy).world, steps[1..], policy);
    }
  }

  /** A resume attempt that starts raises the session's generation. */
  lemma ResumeRaisesGeneration(w: World, step: Step, policy: Policy)
    requires Sound(w) && step.HelloResume? && Perform(w, step, policy).Done?
    ensures step.tunnel in w.routes && w.routes[step.tunnel] in w.objects
    ensures var sid := w.routes[step.tunnel];
            var next := Perform(w, step, policy).world;
            && sid in next.objects
            && w.objects[sid].transport.generation < next.objects[sid].transport.generation
  {
  }

  /**
   A transport captured at any time before a resume attempt started is never the
   session's current transport again, whatever happens afterwards.
   */
  lemma OldTransportNeverReturns(
    captured: seq<Step>, before: seq<Step>, resume: Step, after: seq<Step>, policy: Policy, sid: SessionId)
    requires var w := Serve(Boot(), captured, policy);
             var reached := Serve(w, before, policy);
             && sid in w.objects
             && resume.HelloResume? && Perform(reached, resume, policy).Done?
             && resume.tunnel in reached.routes && reached.routes[resume.tunnel] == sid
    ensures var w := Serve(Boot(), captured, policy);
            var next := Perform(Serve(w, before, policy), resume, policy).world;
            var last := Serve(next, after, policy);
            && sid in last.objects
            && w.objects[sid].transport.generation < last.objects[sid].transport.generation
            && last.objects[sid].transport != w.objects[sid].transport
            && forall id | id in last.objects[sid].streams ::
                 last.objects[sid].streams[id].transport != w.objects[sid].transport
  {
    var w := Serve(Boot(), captured, policy);
    EveryRunIsSound(Boot(), captured, policy);
    var reached := Serve(w, before, policy);
    EveryRunIsSound(w, before, policy);
    RunRaisesGenerations(w, before, policy);
    ResumeRaisesGeneration(reached, resume, policy);
    PerformIsSound(reached, resume, policy);
    var next := Perform(reached, resume, policy).world;
    RunRaisesGenerations(next, after, policy);
    EveryRunIsSound(next, after, policy);
  }

  /** A probe that activates a session came over the very socket the session sits on. */
  lemma OnlyCurrentCarrierCommits(steps: seq<Step>, step: Step, policy: Policy)
    requires step.FinishProbe?
    ensures var w := Serve(Boot(), steps, policy);
            var effect := Perform(w, step, policy);
            effect.Done? ==>
              && w.carriers[step.socket].session.Some?
              && var sid := w.carriers[step.socket].session.value;
                 && sid in w.objects && sid in effect.world.objects
                 && (w.objects[sid].lifecycle.Reconnecting? ==> w.objects[sid].transport.socket == step.socket)
                 && effect.world.objects[sid].lifecycle.Active?
                 && effect.world.objects[sid].lifecycle.generation == step.generation
  {
    EveryRunIsSound(Boot(), steps, policy);
    FinishedIsCurrent(Serve(Boot(), steps, policy), step.socket, step.generation, step.now, step.admitted, policy);
  }

  lemma FinishedIsCurrent(w: World, socket: Socket, generation: int, now: int, admitted: bool, policy: Policy)
    requires Sound(w)
    ensures var effect := Finish(w, socket, generation, now, admitted, policy);
            effect.Done? ==>
              && w.carriers[socket].session.Some?
              && var sid := w.carriers[socket].session.value;
                 && sid in w.objects && sid in effect.world.objects
                 && (w.objects[sid].lifecycle.Reconnecting? ==> w.objects[sid].transport.socket == socket)
                 && effect.world.objects[sid].lifecycle.Active?
                 && effect.world.objects[sid].lifecycle.generation == generation
  {
    if socket in w.carriers && w.carriers[socket].session.Some? && w.carriers[socket].attempt.Some? {
      var sid := w.carriers[socket].session.value;
      if Registered(w, sid) && w.objects[sid].lifecycle.Reconnecting? {
        ResumedIsCommitted(w.objects[sid], now, w.carriers[socket].attempt.value, policy);
      }
    }
  }
}
