/** The mutable registry and admission desk of the gateway, as the handlers update them. */
module GatewayRuntime {
  import opened Options
  import opened SessionState
  import opened GatewaySessions
  import opened GatewaySafety
  import opened Admission
  import opened Sets

  /**
   Sessions, routes and carriers as the handlers change them. Each handler
   performs one step of the model, and every step keeps the invariant that the
   handlers rely on.
   */
  class GatewayRegistry {
    const policy: Policy
    var sessions: map<SessionId, Session>
    var routes: map<Tunnel, SessionId>
    var carriers: map<Socket, Carrier>
    var nextSession: SessionId
    var nextFlow: nat
    var nextAttempt: AttemptId
    var nextStream: nat

    function Value(): World
      reads this
    {
      World(sessions, routes, carriers, nextSession, nextFlow, nextAttempt, nextStream)
    }

    constructor (policy: Policy)
      ensures this.policy == policy
      ensures Value() == Boot() && Sound(Value())
    {
      this.policy := policy;
      sessions, routes, carriers := map[], map[], map[];
      nextSession, nextFlow, nextAttempt, nextStream := 0, 0, 0, 0;
    }

    method DisposeSession(sid: SessionId) returns (disposed: bool)
      requires sid in sessions
      modifies this
      ensures Value() == Dispose(old(Value()), sid)
      ensures disposed == Registered(old(Value()), sid)
    {
      var s := sessions[sid];
      disposed := s.tunnel in routes && routes[s.tunnel] == sid;
      if disposed {
        sessions := sessions[sid := s.(terminal := true, streams := map[])];
        routes := routes - {s.tunnel};
      }
    }

    method ApplySessionTransition(sid: SessionId, next: State) returns (alive: bool)
      requires sid in sessions
      modifies this
      ensures Value() == ApplyTransition(old(Value()), sid, next)
      ensures alive == !next.Expired?
    {
      sessions := sessions[sid := sessions[sid].(lifecycle := next)];
      alive := !next.Expired?;
      if !alive {
        var _ := DisposeSession(sid);
      }
    }

    /** One pass over the registered sessions, leaving out terminal ones and the excepted one. */
    method CountSessions(except: Option<SessionId>, account: Option<Account>)
      returns (creating: nat, active: nat, owned: nat)
      requires RoutesSound(Value())
      ensures creating == |CreatingSet(Value()) - Excluded(Value(), except)|
      ensures active == |LiveSet(Value()) - Excluded(Value(), except)|
      ensures owned == |OwnedBy(Value(), account) - Excluded(Value(), except)|
    {
      ghost var without := Excluded(Value(), except);
      forall tunnel | tunnel in routes
        ensures InTally(sessions[routes[tunnel]], routes[tunnel], tunnel, except, account,
          CreatingSet(Value()) - without, LiveSet(Value()) - without, OwnedBy(Value(), account) - without)
      {
        Membership(Value(), tunnel, except, account);
      }
      creating, active, owned := Tally(sessions, routes, except, account,
        CreatingSet(Value()) - without, LiveSet(Value()) - without, OwnedBy(Value(), account) - without);
    }

    method RegisterSession(socket: Socket, tunnel: Tunnel, owner: Option<Account>)
      requires socket in carriers
      modifies this
      ensures Value() == CreateSession(old(Value()), socket, tunnel, owner)
    {
      var transport := Transport(socket, 1, nextFlow, nextFlow + 1);
      sessions := sessions[nextSession := Session(tunnel, owner, transport, map[], 0, Creating, false)];
      routes := routes[tunnel := nextSession];
      carriers := carriers[socket := carriers[socket].(session := Some(nextSession))];
      nextSession := nextSession + 1;
      nextFlow := nextFlow + 2;
    }

    method Provision(socket: Socket, tunnel: Tunnel, owner: Option<Account>, admitted: bool) returns (ok: bool)
      requires Sound(Value())
      modifies this
      ensures Sound(Value())
      ensures var effect := Greet(old(Value()), socket, tunnel, owner, admitted);
              Value() == effect.world && ok == effect.Done?
    {
      GreetIsSound(Value(), socket, tunnel, owner, admitted);
      ok := socket in carriers && carriers[socket].session.None? && tunnel !in routes && admitted;
      if ok {
        RegisterSession(socket, tunnel, owner);
      }
    }

    method AdoptSession(sid: SessionId, socket: Socket, generation: int)
      requires sid in sessions && socket in carriers
      modifies this
      ensures Value() == Adopt(old(Value()), sid, socket, generation)
    {
      var transport := Transport(socket, generation, nextFlow, nextFlow + 1);
      sessions := sessions[sid := sessions[sid].(transport := transport, highestIssued := 0)];
      carriers := carriers[socket := carriers[socket].(session := Some(sid), attempt := Some(nextAttempt))];
      nextFlow := nextFlow + 2;
      nextAttempt := nextAttempt + 1;
    }

    method StartResume(socket: Socket, tunnel: Tunnel, checkedAt: int, now: int, authorized: bool) returns (ok: bool)
      requires Sound(Value())
      modifies this
      ensures Sound(Value())
      ensures var effect := Resume(old(Value()), socket, tunnel, checkedAt, now, authorized, policy);
              Value() == effect.world && ok == effect.Done?
    {
      ResumeIsSound(Value(), socket, tunnel, checkedAt, now, authorized, policy);
      ok := false;
      if socket !in carriers || carriers[socket].session.Some? || tunnel !in routes {
        return;
      }
      var sid := routes[tunnel];
      var s := sessions[sid];
      if s.terminal || !s.lifecycle.Reconnecting? || !ResumeAllowed(checkedAt, s.lifecycle.disconnectedAt, policy)
         || !authorized {
        return;
      }
      var outcome := Transition(s.lifecycle, SessionState.StartResume(now, nextAttempt), policy);
      if outcome.Refused? {
        return;
      }
      ok := ApplySessionTransition(sid, outcome.state);
      if ok {
        AdoptSession(sid, socket, outcome.state.candidateGeneration.value);
      }
    }

    method CommitActivation(socket: Socket, generation: int, now: int, admitted: bool) returns (ok: bool)
      requires Sound(Value())
      modifies this
      ensures Sound(Value())
      ensures var effect := Finish(old(Value()), socket, generation, now, admitted, policy);
              Value() == effect.world && ok == effect.Done?
    {
      FinishIsSound(Value(), socket, generation, now, admitted, policy);
      ok := FinishActivation(socket, generation, now, admitted);
    }

    method FinishActivation(socket: Socket, generation: int, now: int, admitted: bool) returns (ok: bool)
      requires socket in carriers && carriers[socket].session.Some? ==> carriers[socket].session.value in sessions
      requires !Finish(Value(), socket, generation, now, admitted, policy).Broken?
      modifies this
      ensures var effect := Finish(old(Value()), socket, generation, now, admitted, policy);
              Value() == effect.world && ok == effect.Done?
    {
      ok := false;
      if socket !in carriers || carriers[socket].session.None? {
        return;
      }
      var sid := carriers[socket].session.value;
      var s := sessions[sid];
      if generation != s.transport.generation || s.terminal || s.tunnel !in routes || routes[s.tunnel] != sid
         || s.lifecycle.Active? || !admitted {
        return;
      }
      if s.lifecycle.Creating? {
        var outcome := Transition(s.lifecycle, Activate(now), policy);
        sessions := sessions[sid := s.(lifecycle := outcome.state)];
        ok := true;
      } else if carriers[socket].attempt.Some? {
        ok := CommitResume(sid, carriers[socket].attempt.value, now);
      }
    }

    method CommitResume(sid: SessionId, attempt: AttemptId, now: int) returns (alive: bool)
      requires sid in sessions
      modifies this
      ensures var outcome := Transition(old(sessions[sid]).lifecycle, ResumeCommitted(now, attempt), policy);
              if outcome.To?
              then Value() == ApplyTransition(old(Value()), sid, outcome.state) && alive == !outcome.state.Expired?
              else Value() == old(Value()) && !alive
    {
      alive := false;
      var outcome := Transition(sessions[sid].lifecycle, ResumeCommitted(now, attempt), policy);
      if outcome.To? {
        alive := ApplySessionTransition(sid, outcome.state);
      }
    }

    method IssueStreamId(sid: SessionId) returns (streamId: nat)
      requires sid in sessions && IdsLeft(sessions[sid])
      modifies this
      ensures streamId == NextId(old(sessions[sid]))
      ensures Value() == Put(old(Value()), sid, old(sessions[sid]).(highestIssued := streamId))
    {
      streamId := NextId(sessions[sid]);
      sessions := sessions[sid := sessions[sid].(highestIssued := streamId)];
    }

    method EnterStream(sid: SessionId, streamId: int)
      requires sid in sessions
      modifies this
      ensures Value() == AddStream(old(Value()), sid, streamId)
    {
      var s := sessions[sid];
      sessions := sessions[sid := s.(streams := s.streams[streamId := Stream(nextStream, s.transport)])];
      nextStream := nextStream + 1;
    }

    method BeginGatewayStream(tunnel: Tunnel, now: int) returns (opening: Option<int>)
      requires Sound(Value())
      modifies this
      ensures Sound(Value())
      ensures var effect := BeginStream(old(Value()), tunnel, now, policy);
              Value() == effect.world && opening.Some? == effect.Done?
      ensures opening.Some? ==>
                && tunnel in routes && routes[tunnel] in sessions
                && opening.value in sessions[routes[tunnel]].streams
                && opening.value !in old(sessions[routes[tunnel]].streams)
    {
      BeginIsSound(Value(), tunnel, now, policy);
      opening := None;
      if tunnel !in routes || !sessions[routes[tunnel]].lifecycle.Active? || !IdsLeft(sessions[routes[tunnel]]) {
        return;
      }
      var sid := routes[tunnel];
      var streamId := IssueStreamId(sid);
      var outcome := Transition(sessions[sid].lifecycle, StreamOpen(now), policy);
      var ok := ApplySessionTransition(sid, outcome.state);
      if ok {
        EnterStream(sid, streamId);
        opening := Some(streamId);
      }
    }

    method RemoveGatewayStream(sid: SessionId, streamId: int, stream: Stream, now: int) returns (ok: bool)
      requires Sound(Value())
      modifies this
      ensures Sound(Value())
      ensures var effect := EndStream(old(Value()), sid, streamId, stream, now, policy);
              Value() == effect.world && ok == effect.Done?
    {
      EndIsSound(Value(), sid, streamId, stream, now, policy);
      ok := sid in sessions && CurrentStream(sessions[sid], streamId, stream);
      if !ok {
        return;
      }
      var s := sessions[sid];
      sessions := sessions[sid := s.(streams := s.streams - {streamId})];
      if s.lifecycle.Active? {
        var outcome := Transition(s.lifecycle, StreamClosed(now), policy);
        var _ := ApplySessionTransition(sid, outcome.state);
      }
    }

    method IssueProbeStream(socket: Socket) returns (streamId: Option<nat>)
      requires Sound(Value())
      modifies this
      ensures Sound(Value())
      ensures var effect := StartProbe(old(Value()), socket);
              && Value() == effect.world && streamId.Some? == effect.Done?
              && (streamId.Some? ==>
                    var s := old(sessions)[old(carriers)[socket].session.value];
                    IdsLeft(s) && streamId.value == NextId(s))
    {
      ProbeIsSound(Value(), socket);
      streamId := None;
      if socket !in carriers || carriers[socket].session.None? {
        return;
      }
      var sid := carriers[socket].session.value;
      var s := sessions[sid];
      if s.tunnel !in routes || routes[s.tunnel] != sid || s.lifecycle.Active? || !IdsLeft(s) {
        return;
      }
      var issued := IssueStreamId(sid);
      streamId := Some(issued);
    }

    /** The periodic check of one session. */
    method TickSession(tunnel: Tunnel, now: int, authorizationExpired: bool)
      requires Sound(Value())
      modifies this
      ensures Sound(Value())
      ensures Value() == Sweep(old(Value()), tunnel, now, authorizationExpired, policy).world
    {
      TickIsSound(Value(), tunnel, now, authorizationExpired, policy);
      if tunnel !in routes {
        return;
      }
      var sid := routes[tunnel];
      var s := sessions[sid];
      if !s.lifecycle.Active? && !s.lifecycle.Reconnecting? {
        return;
      }
      var outcome := Transition(s.lifecycle, SessionState.Tick(now), policy);
      if outcome.state.Expired? || authorizationExpired {
        sessions := sessions[sid := s.(lifecycle := outcome.state)];
        var _ := DisposeSession(sid);
      }
    }

    method CleanupCarrier(socket: Socket, now: int)
      requires Sound(Value())
      modifies this
      ensures Sound(Value())
      ensures Value() == Cleanup(old(Value()), socket, now, policy).world
    {
      CleanupIsSound(Value(), socket, now, policy);
      if socket !in carriers || carriers[socket].cleaned {
        return;
      }
      var carrier := carriers[socket];
      carriers := carriers[socket := carrier.(cleaned := true)];
      if carrier.session.None? {
        return;
      }
      var sid := carrier.session.value;
      var s := sessions[sid];
      if s.tunnel !in routes || routes[s.tunnel] != sid || s.transport.socket != socket {
        return;
      }
      sessions := sessions[sid := s.(streams := map[])];
      if s.terminal || s.lifecycle.Creating? {
        routes := routes - {s.tunnel};
      } else if s.lifecycle.Active? {
        var outcome := Transition(s.lifecycle, CarrierLost(now), policy);
        var _ := ApplySessionTransition(sid, outcome.state);
      } else if s.lifecycle.Reconnecting? && carrier.attempt.Some?
                && s.lifecycle.candidateAttemptId == carrier.attempt {
        var outcome := Transition(s.lifecycle, ResumeFailed(now, carrier.attempt.value), policy);
        var _ := ApplySessionTransition(sid, outcome.state);
      }
    }
  }

  function Excluded(w: World, except: Option<SessionId>): set<Tunnel> {
    if except.Some? then SelfSet(w, except.value) else {}
  }

  function OwnedBy(w: World, account: Option<Account>): set<Tunnel> {
    if account.Some? then OwnedSet(w, account.value) else {}
  }

  ghost predicate InTally(
    s: Session, sid: SessionId, tunnel: Tunnel, except: Option<SessionId>, account: Option<Account>,
    pending: set<Tunnel>, live: set<Tunnel>, mine: set<Tunnel>)
  {
    var counted := except != Some(sid) && !s.terminal;
    && (tunnel in pending <==> counted && s.lifecycle.Creating?)
    && (tunnel in live <==> counted && Live(s.lifecycle))
    && (tunnel in mine <==> counted && account.Some? && s.owner == account)
  }

  /** The counting loop over the registered sessions. */
  method Tally(
    sessions: map<SessionId, Session>, routes: map<Tunnel, SessionId>, except: Option<SessionId>,
    account: Option<Account>,
    ghost pending: set<Tunnel>, ghost live: set<Tunnel>, ghost mine: set<Tunnel>)
    returns (creating: nat, active: nat, owned: nat)
    requires pending <= routes.Keys && live <= routes.Keys && mine <= routes.Keys
    requires forall tunnel | tunnel in routes ::
               && routes[tunnel] in sessions
               && InTally(sessions[routes[tunnel]], routes[tunnel], tunnel, except, account, pending, live, mine)
    ensures creating == |pending| && active == |live| && owned == |mine|
  {
    creating, active, owned := 0, 0, 0;
    var rest := routes.Keys;
    NothingCounted(pending, rest);
    NothingCounted(live, rest);
    NothingCounted(mine, rest);
    while rest != {}
      invariant rest <= routes.Keys
      invariant Tallied(pending, live, mine, rest, creating, active, owned)
      decreases |rest|
    {
      var tunnel := Pick(rest);
      var s := sessions[routes[tunnel]];
      TallyOne(pending, live, mine, rest, creating, active, owned, tunnel);
      assert InTally(s, routes[tunnel], tunnel, except, account, pending, live, mine);
      if except != Some(routes[tunnel]) && !s.terminal {
        if s.lifecycle.Creating? {
          creating := creating + 1;
        } else if s.lifecycle.Active? || s.lifecycle.Reconnecting? {
          active := active + 1;
        }
        if account.Some? && s.owner == account {
          owned := owned + 1;
        }
      }
      rest := rest - {tunnel};
    }
    AllCounted(pending, rest);
    AllCounted(live, rest);
    AllCounted(mine, rest);
  }

  lemma Membership(w: World, tunnel: Tunnel, except: Option<SessionId>, account: Option<Account>)
    requires tunnel in w.routes && w.routes[tunnel] in w.objects
    ensures var without := Excluded(w, except);
            InTally(Of(w, tunnel), w.routes[tunnel], tunnel, except, account,
              CreatingSet(w) - without, LiveSet(w) - without, OwnedBy(w, account) - without)
  {
  }

  class GatewayAdmission {
    const limits: Limits
    const registry: GatewayRegistry
    var reservations: seq<Reservation>
    var nextReservation: nat
    var pendingCarrierConnections: int
    /** Tokens whose release function has not yet been called. */
    var unreleased: set<nat>
    var nextToken: nat

    function Value(): Desk
      reads this
    {
      Desk(reservations, nextReservation, unreleased, nextToken)
    }

    ghost predicate Valid()
      reads this
    {
      && pendingCarrierConnections == |unreleased|
      && (forall token | token in unreleased :: token < nextToken)
    }

    constructor (registry: GatewayRegistry, limits: Limits)
      ensures this.registry == registry && this.limits == limits
      ensures Valid() && Value() == Desk([], 0, {}, 0)
    {
      this.registry, this.limits := registry, limits;
      reservations, nextReservation := [], 0;
      pendingCarrierConnections, unreleased, nextToken := 0, {}, 0;
    }

    method CleanupCredentialReservations(now: int)
      requires Valid()
      modifies this
      ensures Valid()
      ensures Value() == Clean(old(Value()), now)
    {
      var kept := [];
      for i := 0 to |reservations|
        invariant kept == Unexpired(reservations[..i], now)
      {
        assert reservations[..i + 1][..i] == reservations[..i];
        if reservations[i].expiresAt > now {
          kept := kept + [reservations[i]];
        }
      }
      assert reservations[..|reservations|] == reservations;
      reservations := kept;
    }

    method CountHeld(account: Account) returns (held: nat)
      ensures held == HeldBy(reservations, account)
    {
      held := 0;
      for i := 0 to |reservations|
        invariant held == HeldBy(reservations[..i], account)
      {
        assert reservations[..i + 1][..i] == reservations[..i];
        if reservations[i].account == account {
          held := held + 1;
        }
      }
      assert reservations[..|reservations|] == reservations;
    }

    method HasPendingTunnelCapacity() returns (room: bool)
      requires Valid() && RoutesSound(registry.Value())
      ensures room == (Occupied(registry.Value(), Value()) < limits.maxPending)
    {
      var creating, _, _ := registry.CountSessions(None, None);
      return pendingCarrierConnections + |reservations| + creating < limits.maxPending;
    }

    method CanAdmitNewTunnel(account: Option<Account>, now: int) returns (ok: bool)
      requires Valid() && RoutesSound(registry.Value())
      modifies this
      ensures Valid()
      ensures Value() == Clean(old(Value()), now)
      ensures ok == CanAdmit(registry.Value(), Value(), account, limits)
    {
      CleanupCredentialReservations(now);
      var creating, active, owned := registry.CountSessions(None, account);
      var pending := pendingCarrierConnections + creating + |reservations|;
      if account.Some? {
        var held := CountHeld(account.value);
        owned := owned + held;
      }
      return pending < limits.maxPending && active < limits.maxActive
        && (account.None? || owned < limits.maxPerAccount);
    }

    method CanActivateTunnel(candidate: SessionId) returns (ok: bool)
      requires RoutesSound(registry.Value()) && candidate in registry.sessions
      ensures ok == CanActivate(registry.Value(), candidate, limits)
    {
      var owner := registry.sessions[candidate].owner;
      var _, active, owned := registry.CountSessions(Some(candidate), owner);
      return active < limits.maxActive && (owner.None? || owned < limits.maxPerAccount);
    }

    method ReserveCarrierCredential(account: Account, purpose: Purpose, tunnel: Tunnel, now: int, rated: bool)
      returns (reservation: Option<nat>)
      requires Valid() && RoutesSound(registry.Value())
      modifies this
      ensures Valid()
      ensures Value() == Reserve(registry.Value(), old(Value()), account, purpose, tunnel, now, rated, limits)
      ensures reservation.Some? <==>
                Value() != Clean(old(Value()), now)
      ensures reservation.Some? ==>
                reservations == Clean(old(Value()), now).reservations
                                + [Reservation(reservation.value, account, purpose, tunnel, now + RESERVATION_TTL)]
    {
      CleanupCredentialReservations(now);
      reservation := None;
      var room := HasPendingTunnelCapacity();
      if !room {
        return;
      }
      if purpose.ForCreate? {
        CleaningTwice(reservations, old(reservations), now);
        var ok := CanAdmitNewTunnel(Some(account), now);
        if !ok {
          return;
        }
      }
      var held := CountHeld(account);
      if |reservations| >= limits.maxCredentials || held >= limits.maxCredentialsPerAccount || !rated {
        return;
      }
      reservation := Some(nextReservation);
      reservations := reservations + [Reservation(nextReservation, account, purpose, tunnel, now + RESERVATION_TTL)];
      nextReservation := nextReservation + 1;
    }

    method ConsumeCredentialReservation(account: Account, purpose: Purpose, tunnel: Tunnel, now: int)
      requires Valid()
      modifies this
      ensures Valid()
      ensures Value() == Consume(old(Value()), account, purpose, tunnel, now)
    {
      CleanupCredentialReservations(now);
      var i := 0;
      while i < |reservations|
        invariant 0 <= i <= |reservations|
        invariant forall j | 0 <= j < i :: !Matches(reservations[j], account, purpose, tunnel)
        invariant Value() == Clean(old(Value()), now)
      {
        if Matches(reservations[i], account, purpose, tunnel) {
          assert i == FirstMatch(reservations, account, purpose, tunnel);
          reservations := reservations[..i] + reservations[i + 1..];
          return;
        }
        i := i + 1;
      }
    }

    method ReservePendingCarrierConnection(now: int) returns (token: Option<nat>)
      requires Valid() && RoutesSound(registry.Value())
      modifies this
      ensures Valid()
      ensures Value() == TakeToken(registry.Value(), old(Value()), now, limits)
      ensures token == if HasRoom(registry.Value(), old(Value()), now, limits) then Some(old(nextToken)) else None
    {
      CleanupCredentialReservations(now);
      var room := HasPendingTunnelCapacity();
      if !room {
        return None;
      }
      pendingCarrierConnections := pendingCarrierConnections + 1;
      unreleased := unreleased + {nextToken};
      token := Some(nextToken);
      nextToken := nextToken + 1;
    }

    /** Releasing twice is the same as releasing once. */
    method ReleasePendingCarrier(token: nat)
      requires Valid()
      modifies this
      ensures Valid()
      ensures Value() == GiveBack(old(Value()), token)
    {
      if token in unreleased {
        unreleased := unreleased - {token};
        pendingCarrierConnections := pendingCarrierConnections - 1;
      }
    }
  }

  ghost predicate Tallied(
    pending: set<Tunnel>, live: set<Tunnel>, mine: set<Tunnel>, rest: set<Tunnel>, creating: nat, active: nat,
    owned: nat)
  {
    creating == |pending - rest| && active == |live - rest| && owned == |mine - rest|
  }

  lemma TallyOne(
    pending: set<Tunnel>, live: set<Tunnel>, mine: set<Tunnel>, rest: set<Tunnel>, creating: nat, active: nat,
    owned: nat,
    tunnel: Tunnel)
    requires tunnel in rest && Tallied(pending, live, mine, rest, creating, active, owned)
    ensures Tallied(pending, live, mine, rest - {tunnel},
              if tunnel in pending then creating + 1 else creating,
              if tunnel in live then active + 1 else active,
              if tunnel in mine then owned + 1 else owned)
  {
    OneLess(pending, rest, tunnel, creating);
    OneLess(live, rest, tunnel, active);
    OneLess(mine, rest, tunnel, owned);
  }

  lemma {:induction false} CleaningAgain(rs: seq<Reservation>, now: int)
    requires forall i | 0 <= i < |rs| :: rs[i].expiresAt > now
    ensures Unexpired(rs, now) == rs
  {
    if rs != [] {
      CleaningAgain(rs[..|rs| - 1], now);
      assert rs == rs[..|rs| - 1] + [rs[|rs| - 1]];
    }
  }

  lemma CleaningTwice(kept: seq<Reservation>, rs: seq<Reservation>, now: int)
    requires kept == Unexpired(rs, now)
    ensures Unexpired(kept, now) == kept
  {
    forall i | 0 <= i < |kept| ensures kept[i].expiresAt > now {
      assert kept[i] in kept;
    }
    CleaningAgain(kept, now);
  }
}
