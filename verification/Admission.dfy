/**
 Gateway admission: credential reservations, pending carrier connections and the
 sessions being created share one pending limit, live sessions another, and each
 account a third.
 */
module Admission {
  import opened Options
  import opened SessionState
  import opened GatewaySessions
  import opened GatewaySafety

  datatype Purpose = ForCreate | ForResume

  datatype Reservation = Reservation(id: nat, account: Account, purpose: Purpose, tunnel: Tunnel, expiresAt: int)

  datatype Limits = Limits(
    maxPending: nat, maxActive: nat, maxPerAccount: nat, maxCredentials: nat, maxCredentialsPerAccount: nat)

  const RESERVATION_TTL: int := 60_000

  /** A pending connection is a token that its holder may give back any number of times. */
  datatype Desk = Desk(reservations: seq<Reservation>, nextReservation: nat, pending: set<nat>, nextToken: nat)

  // ---------------------------------------------------------------- counting

  function Of(w: World, tunnel: Tunnel): Session
    requires tunnel in w.routes && w.routes[tunnel] in w.objects
  {
    w.objects[w.routes[tunnel]]
  }

  predicate Counts(w: World, tunnel: Tunnel) {
    tunnel in w.routes && w.routes[tunnel] in w.objects && !Of(w, tunnel).terminal
  }

  function CreatingSet(w: World): set<Tunnel> {
    set t | t in w.routes && Counts(w, t) && Of(w, t).lifecycle.Creating?
  }

  function LiveSet(w: World): set<Tunnel> {
    set t | t in w.routes && Counts(w, t) && Live(Of(w, t).lifecycle)
  }

  function OwnedSet(w: World, account: Account): set<Tunnel> {
    set t | t in w.routes && Counts(w, t) && Of(w, t).owner == Some(account)
  }

  function Unexpired(rs: seq<Reservation>, now: int): (kept: seq<Reservation>)
    ensures |kept| <= |rs|
    ensures forall r | r in kept :: r in rs && r.expiresAt > now
    ensures forall r | r in rs && r.expiresAt > now :: r in kept
  {
    if rs == [] then []
    else
      var kept := Unexpired(rs[..|rs| - 1], now);
      var last := rs[|rs| - 1];
      if last.expiresAt <= now then kept else kept + [last]
  }

  function HeldBy(rs: seq<Reservation>, account: Account): (n: nat)
    ensures n <= |rs|
  {
    if rs == [] then 0
    else HeldBy(rs[..|rs| - 1], account) + if rs[|rs| - 1].account == account then 1 else 0
  }

  // -------------------------------------------------------------- decisions

  function Clean(desk: Desk, now: int): Desk {
    desk.(reservations := Unexpired(desk.reservations, now))
  }

  function Occupied(w: World, desk: Desk): nat {
    |desk.pending| + |desk.reservations| + |CreatingSet(w)|
  }

  predicate CanAdmit(w: World, desk: Desk, account: Option<Account>, limits: Limits) {
    && Occupied(w, desk) < limits.maxPending
    && |LiveSet(w)| < limits.maxActive
    && (account.Some? ==>
          |OwnedSet(w, account.value)| + HeldBy(desk.reservations, account.value) < limits.maxPerAccount)
  }

  function SelfSet(w: World, sid: SessionId): set<Tunnel> {
    set t | t in w.routes && w.routes[t] == sid
  }

  predicate CanActivate(w: World, sid: SessionId, limits: Limits)
    requires sid in w.objects
  {
    var self := SelfSet(w, sid);
    && |LiveSet(w) - self| < limits.maxActive
    && (w.objects[sid].owner.Some? ==> |OwnedSet(w, w.objects[sid].owner.value) - self| < limits.maxPerAccount)
  }

  // ---------------------------------------------------------- desk operations

  function Reserve(
    w: World, desk: Desk, account: Account, purpose: Purpose, tunnel: Tunnel, now: int, rated: bool,
    limits: Limits): Desk
  {
    var clean := Clean(desk, now);
    if Occupied(w, clean) >= limits.maxPending then clean
    else if purpose.ForCreate? && !CanAdmit(w, clean, Some(account), limits) then clean
    else if |clean.reservations| >= limits.maxCredentials
         || HeldBy(clean.reservations, account) >= limits.maxCredentialsPerAccount
         || !rated
    then clean
    else clean.(
      reservations := clean.reservations
                      + [Reservation(clean.nextReservation, account, purpose, tunnel, now + RESERVATION_TTL)],
      nextReservation := clean.nextReservation + 1)
  }

  predicate Matches(r: Reservation, account: Account, purpose: Purpose, tunnel: Tunnel) {
    r.account == account && r.purpose == purpose && r.tunnel == tunnel
  }

  /** The position of the first matching reservation, or the length. */
  function FirstMatch(rs: seq<Reservation>, account: Account, purpose: Purpose, tunnel: Tunnel): (k: nat)
    ensures k <= |rs|
    ensures k < |rs| ==> Matches(rs[k], account, purpose, tunnel)
    ensures forall i | 0 <= i < k :: !Matches(rs[i], account, purpose, tunnel)
  {
    if rs == [] || Matches(rs[0], account, purpose, tunnel) then 0
    else 1 + FirstMatch(rs[1..], account, purpose, tunnel)
  }

  function Without(rs: seq<Reservation>, k: nat): (rest: seq<Reservation>)
    ensures |rest| <= |rs|
    ensures forall r | r in rest :: r in rs
  {
    if k < |rs| then rs[..k] + rs[k + 1..] else rs
  }

  function Consume(desk: Desk, account: Account, purpose: Purpose, tunnel: Tunnel, now: int): Desk {
    var clean := Clean(desk, now);
    clean.(reservations := Without(clean.reservations, FirstMatch(clean.reservations, account, purpose, tunnel)))
  }

  function PositionOf(rs: seq<Reservation>, id: nat): nat {
    if rs == [] || rs[0].id == id then 0 else 1 + PositionOf(rs[1..], id)
  }

  function DropReservation(desk: Desk, id: nat): Desk {
    desk.(reservations := Without(desk.reservations, PositionOf(desk.reservations, id)))
  }

  predicate HasRoom(w: World, desk: Desk, now: int, limits: Limits) {
    Occupied(w, Clean(desk, now)) < limits.maxPending
  }

  function TakeToken(w: World, desk: Desk, now: int, limits: Limits): Desk {
    var clean := Clean(desk, now);
    if HasRoom(w, desk, now, limits)
    then clean.(pending := clean.pending + {clean.nextToken}, nextToken := clean.nextToken + 1)
    else clean
  }

  function GiveBack(desk: Desk, token: nat): Desk {
    desk.(pending := desk.pending - {token})
  }

  // -------------------------------------------------------------- whole runs

  /** The gateway with its admission desk; each connected carrier knows its own token. */
  datatype Gate = Gate(world: World, desk: Desk, tokens: map<Socket, nat>)

  datatype Move =
    | ReserveCredential(account: Account, purpose: Purpose, tunnel: Tunnel, now: int, rated: bool)
    | ReleaseReservation(id: nat)
    | ConsumeReservation(account: Account, purpose: Purpose, tunnel: Tunnel, now: int)
    | ConnectCarrier(socket: Socket, now: int)
    | ReleaseConnection(token: nat)
    | CreateTunnel(socket: Socket, tunnel: Tunnel, owner: Option<Account>, now: int)
    | ResumeTunnel(socket: Socket, tunnel: Tunnel, checkedAt: int, now: int, authorized: bool)
    | ActivateTunnel(socket: Socket, generation: int, now: int, ready: bool)
    | Unguarded(step: Step)
    | CloseDesk

  function FreeToken(g: Gate, socket: Socket): Gate {
    if socket in g.tokens then g.(desk := GiveBack(g.desk, g.tokens[socket])) else g
  }

  /** A HELLO gives the pending connection back before it asks for admission. */
  function CreateAt(g: Gate, socket: Socket, tunnel: Tunnel, owner: Option<Account>, now: int, limits: Limits): Gate {
    if socket !in g.world.carriers || g.world.carriers[socket].session.Some? then g
    else
      var freed := FreeToken(g, socket);
      if tunnel in freed.world.routes then freed
      else
        var clean := freed.(desk := Clean(freed.desk, now));
        var admitted := CanAdmit(clean.world, clean.desk, owner, limits);
        clean.(world := Greet(clean.world, socket, tunnel, owner, admitted).world)
  }

  function ResumeAt(
    g: Gate, socket: Socket, tunnel: Tunnel, checkedAt: int, now: int, authorized: bool, policy: Policy): Gate
  {
    if socket !in g.world.carriers || g.world.carriers[socket].session.Some? then g
    else
      var freed := FreeToken(g, socket);
      freed.(world := Resume(freed.world, socket, tunnel, checkedAt, now, authorized, policy).world)
  }

  function ActivateAt(
    g: Gate, socket: Socket, generation: int, now: int, ready: bool, limits: Limits, policy: Policy): Gate
  {
    if socket !in g.world.carriers || g.world.carriers[socket].session.None?
       || g.world.carriers[socket].session.value !in g.world.objects
    then g
    else
      var admitted := ready && CanActivate(g.world, g.world.carriers[socket].session.value, limits);
      g.(world := Finish(g.world, socket, generation, now, admitted, policy).world)
  }

  function ConnectAt(g: Gate, socket: Socket, now: int, limits: Limits): Gate {
    if socket in g.world.carriers then g
    else
      var desk := TakeToken(g.world, g.desk, now, limits);
      if HasRoom(g.world, g.desk, now, limits)
      then Gate(g.world.(carriers := g.world.carriers[socket := Carrier(None, None, false)]),
                desk, g.tokens[socket := g.desk.nextToken])
      else g.(desk := desk)
  }

  /** Steps that admission has no say in. */
  predicate Free(step: Step) {
    !step.Connect? && !step.HelloCreate? && !step.HelloResume? && !step.FinishProbe?
  }

  function Play(g: Gate, move: Move, limits: Limits, policy: Policy): Gate {
    match move
    case ReserveCredential(account, purpose, tunnel, now, rated) =>
      g.(desk := Reserve(g.world, g.desk, account, purpose, tunnel, now, rated, limits))
    case ReleaseReservation(id) => g.(desk := DropReservation(g.desk, id))
    case ConsumeReservation(account, purpose, tunnel, now) =>
      g.(desk := Consume(g.desk, account, purpose, tunnel, now))
    case ConnectCarrier(socket, now) => ConnectAt(g, socket, now, limits)
    case ReleaseConnection(token) => g.(desk := GiveBack(g.desk, token))
    case CreateTunnel(socket, tunnel, owner, now) => CreateAt(g, socket, tunnel, owner, now, limits)
    case ResumeTunnel(socket, tunnel, checkedAt, now, authorized) =>
      ResumeAt(g, socket, tunnel, checkedAt, now, authorized, policy)
    case ActivateTunnel(socket, generation, now, ready) => ActivateAt(g, socket, generation, now, ready, limits, policy)
    case Unguarded(step) => if Free(step) then g.(world := Perform(g.world, step, policy).world) else g
    case CloseDesk => g.(desk := g.desk.(reservations := []))
  }

  function PlayAll(g: Gate, moves: seq<Move>, limits: Limits, policy: Policy): Gate
    decreases |moves|
  {
    if moves == [] then g else PlayAll(Play(g, moves[0], limits, policy), moves[1..], limits, policy)
  }

  function Doors(): Gate {
    Gate(Boot(), Desk([], 0, {}, 0), map[])
  }

  // ---------------------------------------------------------------- capacity

  ghost predicate Capacity(w: World, desk: Desk, limits: Limits) {
    && Occupied(w, desk) <= limits.maxPending
    && |LiveSet(w)| <= limits.maxActive
    && (forall account: Account :: |OwnedSet(w, account)| <= limits.maxPerAccount)
    && |desk.reservations| <= limits.maxCredentials
    && (forall account: Account :: HeldBy(desk.reservations, account) <= limits.maxCredentialsPerAccount)
  }

  ghost predicate Open(g: Gate, limits: Limits) {
    Sound(g.world) && Capacity(g.world, g.desk, limits)
  }

  /** No tunnel starts to count in any of the three sets. */
  ghost predicate Shrinks(w: World, next: World) {
    forall t | t in next.routes && Counts(next, t) ::
      && Counts(w, t)
      && Of(next, t).owner == Of(w, t).owner
      && (Of(next, t).lifecycle.Creating? ==> Of(w, t).lifecycle.Creating?)
      && (Live(Of(next, t).lifecycle) ==> Live(Of(w, t).lifecycle))
  }

  lemma SubsetIsSmaller(a: set<Tunnel>, b: set<Tunnel>)
    requires a <= b
    ensures |a| <= |b|
  {
    assert b == a + (b - a);
  }

  lemma ShrinkingKeepsCapacity(w: World, next: World, desk: Desk, limits: Limits)
    requires Capacity(w, desk, limits) && Shrinks(w, next)
    ensures Capacity(next, desk, limits)
  {
    SubsetIsSmaller(CreatingSet(next), CreatingSet(w));
    SubsetIsSmaller(LiveSet(next), LiveSet(w));
    forall account: Account ensures |OwnedSet(next, account)| <= limits.maxPerAccount {
      SubsetIsSmaller(OwnedSet(next, account), OwnedSet(w, account));
    }
  }

  /** One session changes, without starting to count where it did not. */
  ghost predicate Fades(s: Session, next: Session) {
    && next.tunnel == s.tunnel && next.owner == s.owner
    && (s.terminal ==> next.terminal)
    && (next.lifecycle.Creating? ==> s.lifecycle.Creating?)
    && (Live(next.lifecycle) ==> Live(s.lifecycle))
  }

  lemma PutShrinks(w: World, sid: SessionId, s: Session)
    requires sid in w.objects && Fades(w.objects[sid], s)
    ensures Shrinks(w, Put(w, sid, s)) && Shrinks(w, Unroute(Put(w, sid, s), s.tunnel))
  {
  }

  lemma ShrinksTransitively(a: World, b: World, c: World)
    requires Shrinks(a, b) && Shrinks(b, c)
    ensures Shrinks(a, c)
  {
  }

  lemma SameObjectsShrink(w: World, next: World)
    requires next.objects == w.objects && next.routes == w.routes
    ensures Shrinks(w, next)
  {
  }

  lemma ApplyShrinks(w: World, sid: SessionId, s: Session, next: State)
    requires sid in w.objects && Fades(w.objects[sid], s.(lifecycle := next))
    requires s.tunnel == w.objects[sid].tunnel
    ensures Shrinks(w, ApplyTransition(Put(w, sid, s), sid, next))
  {
    var stored := s.(lifecycle := next);
    assert Put(Put(w, sid, s), sid, stored).objects == Put(w, sid, stored).objects;
    PutShrinks(w, sid, stored);
    var gone := stored.(terminal := true, streams := map[]);
    assert Put(Put(w, sid, stored), sid, gone).objects == Put(w, sid, gone).objects;
    PutShrinks(w, sid, gone);
  }

  /** No transition but an activation makes a session count. */
  lemma TransitionFades(s: State, e: Event, policy: Policy)
    requires !e.Activate?
    ensures var outcome := Transition(s, e, policy);
            outcome.To? ==> !outcome.state.Creating? && (Live(outcome.state) ==> Live(s))
  {
  }

  lemma ResumeShrinks(
    w: World, socket: Socket, tunnel: Tunnel, checkedAt: int, now: int, authorized: bool, policy: Policy)
    requires Sound(w)
    ensures Shrinks(w, Resume(w, socket, tunnel, checkedAt, now, authorized, policy).world)
  {
    if tunnel in w.routes {
      var sid := w.routes[tunnel];
      var e := StartResume(now, w.nextAttempt);
      var outcome := Transition(w.objects[sid].lifecycle, e, policy);
      TransitionFades(w.objects[sid].lifecycle, e, policy);
      if outcome.To? {
        SameSession(w, sid);
        ApplyShrinks(w, sid, w.objects[sid], outcome.state);
        var stored := ApplyTransition(w, sid, outcome.state);
        if socket in w.carriers && sid in stored.objects && outcome.state.Reconnecting?
           && outcome.state.candidateGeneration.Some? {
          AdoptShrinks(stored, sid, socket, outcome.state.candidateGeneration.value);
          ShrinksTransitively(w, stored, Adopt(stored, sid, socket, outcome.state.candidateGeneration.value));
        }
      }
    }
  }

  lemma AdoptShrinks(w: World, sid: SessionId, socket: Socket, generation: int)
    requires sid in w.objects && socket in w.carriers
    ensures Shrinks(w, Adopt(w, sid, socket, generation))
  {
  }

  lemma AddShrinks(w: World, sid: SessionId, streamId: int)
    requires sid in w.objects
    ensures Shrinks(w, AddStream(w, sid, streamId))
  {
  }

  lemma BeginShrinks(w: World, tunnel: Tunnel, now: int, policy: Policy)
    requires Sound(w)
    ensures Shrinks(w, BeginStream(w, tunnel, now, policy).world)
  {
    if tunnel in w.routes && w.objects[w.routes[tunnel]].lifecycle.Active? && IdsLeft(w.objects[w.routes[tunnel]]) {
      var sid := w.routes[tunnel];
      var s := w.objects[sid];
      var issued := s.(highestIssued := NextId(s));
      OpeningOutcome(s.lifecycle, now, policy);
      var next := Transition(s.lifecycle, SessionState.StreamOpen(now), policy).state;
      ApplyShrinks(w, sid, issued, next);
      var stored := ApplyTransition(Put(w, sid, issued), sid, next);
      if !next.Expired? {
        AddShrinks(stored, sid, NextId(s));
        ShrinksTransitively(w, stored, AddStream(stored, sid, NextId(s)));
      }
    }
  }

  lemma EndShrinks(w: World, sid: SessionId, streamId: int, stream: Stream, now: int, policy: Policy)
    requires Sound(w)
    ensures Shrinks(w, EndStream(w, sid, streamId, stream, now, policy).world)
  {
    if sid in w.objects && CurrentStream(w.objects[sid], streamId, stream) {
      var s := w.objects[sid];
      var removed := s.(streams := s.streams - {streamId});
      var outcome := Transition(s.lifecycle, SessionState.StreamClosed(now), policy);
      TransitionFades(s.lifecycle, SessionState.StreamClosed(now), policy);
      PutShrinks(w, sid, removed);
      if outcome.To? {
        ApplyShrinks(w, sid, removed, outcome.state);
      }
    }
  }

  lemma LossShrinks(w: World, sid: SessionId, attempt: Option<AttemptId>, now: int, policy: Policy)
    requires Sound(w) && Registered(w, sid)
    ensures Shrinks(w, LoseSession(w, sid, attempt, now, policy).world)
  {
    var s := w.objects[sid];
    var emptied := s.(streams := map[]);
    PutShrinks(w, sid, emptied);
    var e := if s.lifecycle.Active? || attempt.None? then CarrierLost(now) else ResumeFailed(now, attempt.value);
    TransitionFades(s.lifecycle, e, policy);
    if Transition(s.lifecycle, e, policy).To? {
      ApplyShrinks(w, sid, emptied, Transition(s.lifecycle, e, policy).state);
    }
  }

  lemma CleanupShrinks(w: World, socket: Socket, now: int, policy: Policy)
    requires Sound(w)
    ensures Shrinks(w, Cleanup(w, socket, now, policy).world)
  {
    if socket in w.carriers {
      var cleaned := w.(carriers := w.carriers[socket := w.carriers[socket].(cleaned := true)]);
      CleanedIsSound(w, socket);
      SameObjectsShrink(w, cleaned);
      var sid := w.carriers[socket].session;
      if sid.Some? && Registered(cleaned, sid.value) {
        LossShrinks(cleaned, sid.value, w.carriers[socket].attempt, now, policy);
        ShrinksTransitively(w, cleaned, LoseSession(cleaned, sid.value, w.carriers[socket].attempt, now, policy).world);
      }
    }
  }

  lemma SweepShrinks(w: World, tunnel: Tunnel, now: int, authorizationExpired: bool, policy: Policy)
    requires Sound(w)
    ensures Shrinks(w, Sweep(w, tunnel, now, authorizationExpired, policy).world)
  {
    if tunnel in w.routes && Live(w.objects[w.routes[tunnel]].lifecycle) {
      var sid := w.routes[tunnel];
      var s := w.objects[sid];
      var next := Transition(s.lifecycle, SessionState.Tick(now), policy).state;
      TransitionFades(s.lifecycle, SessionState.Tick(now), policy);
      var gone := s.(lifecycle := next, terminal := true, streams := map[]);
      PutShrinks(w, sid, gone);
      var stored := Put(w, sid, s.(lifecycle := next));
      assert Put(stored, sid, gone).objects == Put(w, sid, gone).objects;
    }
  }

  lemma DisposeShrinks(w: World, sid: SessionId)
    requires sid in w.objects
    ensures Shrinks(w, Dispose(w, sid))
  {
  }

  lemma ProbeShrinks(w: World, socket: Socket)
    ensures Shrinks(w, StartProbe(w, socket).world)
  {
  }

  lemma FreeStepShrinks(w: World, step: Step, policy: Policy)
    requires Sound(w) && Free(step)
    ensures Shrinks(w, Perform(w, step, policy).world)
  {
    match step
    case IssueProbe(socket) => ProbeShrinks(w, socket);
    case OpenStream(tunnel, now) => BeginShrinks(w, tunnel, now, policy);
    case RemoveStream(session, streamId, stream, now) => EndShrinks(w, session, streamId, stream, now, policy);
    case CarrierClosed(socket, now) => CleanupShrinks(w, socket, now, policy);
    case TickSession(tunnel, now, authorizationExpired) => SweepShrinks(w, tunnel, now, authorizationExpired, policy);
    case Terminate(session) => if session in w.objects { DisposeShrinks(w, session); }
  }

  // -------------------------------------------------------- desk bookkeeping

  lemma {:induction false} CleaningHoldsLess(rs: seq<Reservation>, now: int, account: Account)
    ensures HeldBy(Unexpired(rs, now), account) <= HeldBy(rs, account)
  {
    if rs != [] {
      CleaningHoldsLess(rs[..|rs| - 1], now, account);
      var kept := Unexpired(rs[..|rs| - 1], now);
      assert (kept + [rs[|rs| - 1]])[..|kept|] == kept;
    }
  }

  lemma {:induction false} HeldByConcat(a: seq<Reservation>, b: seq<Reservation>, account: Account)
    ensures HeldBy(a + b, account) == HeldBy(a, account) + HeldBy(b, account)
    decreases |b|
  {
    if b == [] {
      assert a + b == a;
    } else {
      assert (a + b)[..|a + b| - 1] == a + b[..|b| - 1];
      HeldByConcat(a, b[..|b| - 1], account);
    }
  }

  lemma WithoutHoldsLess(rs: seq<Reservation>, k: nat, account: Account)
    ensures HeldBy(Without(rs, k), account) <= HeldBy(rs, account)
  {
    if k < |rs| {
      HeldByConcat(rs[..k], rs[k + 1..], account);
      HeldByConcat(rs[..k], rs[k..], account);
      HeldByConcat([rs[k]], rs[k + 1..], account);
      assert rs == rs[..k] + rs[k..] && rs[k..] == [rs[k]] + rs[k + 1..];
    }
  }

  lemma CleaningKeepsCapacity(w: World, desk: Desk, now: int, limits: Limits)
    requires Capacity(w, desk, limits)
    ensures Capacity(w, Clean(desk, now), limits)
  {
    forall account: Account ensures HeldBy(Clean(desk, now).reservations, account) <= limits.maxCredentialsPerAccount {
      CleaningHoldsLess(desk.reservations, now, account);
    }
  }

  lemma DroppingKeepsCapacity(w: World, desk: Desk, k: nat, limits: Limits)
    requires Capacity(w, desk, limits)
    ensures Capacity(w, desk.(reservations := Without(desk.reservations, k)), limits)
  {
    forall account: Account ensures HeldBy(Without(desk.reservations, k), account) <= limits.maxCredentialsPerAccount {
      WithoutHoldsLess(desk.reservations, k, account);
    }
  }

  lemma GivingBackKeepsCapacity(w: World, desk: Desk, token: nat, limits: Limits)
    requires Capacity(w, desk, limits)
    ensures Capacity(w, GiveBack(desk, token), limits)
  {
    assert desk.pending == (desk.pending - {token}) + (desk.pending * {token});
    assert |desk.pending| == |desk.pending - {token}| + |desk.pending * {token}|;
  }

  lemma ReservingKeepsCapacity(
    w: World, desk: Desk, account: Account, purpose: Purpose, tunnel: Tunnel, now: int, rated: bool, limits: Limits)
    requires Capacity(w, desk, limits)
    ensures Capacity(w, Reserve(w, desk, account, purpose, tunnel, now, rated, limits), limits)
  {
    CleaningKeepsCapacity(w, desk, now, limits);
    var clean := Clean(desk, now).reservations;
    var added := Reservation(desk.nextReservation, account, purpose, tunnel, now + RESERVATION_TTL);
    assert (clean + [added])[..|clean|] == clean;
    assert forall other: Account ::
        HeldBy(clean + [added], other) == HeldBy(clean, other) + if account == other then 1 else 0;
  }

  // -------------------------------------------------------- sessions counted

  /** The routed sessions before and after a HELLO that is admitted. */
  lemma GreetingKeepsOthers(w: World, socket: Socket, tunnel: Tunnel, owner: Option<Account>)
    requires Sound(w) && socket in w.carriers && tunnel !in w.routes
    ensures var next := CreateSession(w, socket, tunnel, owner);
            && (forall t | t in w.routes ::
                  t in next.routes && Counts(w, t) && Counts(next, t) && Of(next, t) == Of(w, t))
            && (forall t | t in next.routes :: t in w.routes || t == tunnel)
            && Counts(next, tunnel) && Of(next, tunnel).lifecycle.Creating? && Of(next, tunnel).owner == owner
  {
    var next := CreateSession(w, socket, tunnel, owner);
    forall t | t in w.routes ensures Counts(w, t) && Counts(next, t) && Of(next, t) == Of(w, t) {
      assert Registered(w, w.routes[t]);
    }
  }

  lemma GreetingAddsCreating(w: World, socket: Socket, tunnel: Tunnel, owner: Option<Account>)
    requires Sound(w) && socket in w.carriers && tunnel !in w.routes
    ensures CreatingSet(CreateSession(w, socket, tunnel, owner)) == CreatingSet(w) + {tunnel}
    ensures tunnel !in CreatingSet(w)
  {
    GreetingKeepsOthers(w, socket, tunnel, owner);
  }

  lemma GreetingKeepsLive(w: World, socket: Socket, tunnel: Tunnel, owner: Option<Account>)
    requires Sound(w) && socket in w.carriers && tunnel !in w.routes
    ensures LiveSet(CreateSession(w, socket, tunnel, owner)) == LiveSet(w)
  {
    GreetingKeepsOthers(w, socket, tunnel, owner);
  }

  lemma GreetingAddsOwned(w: World, socket: Socket, tunnel: Tunnel, owner: Option<Account>, account: Account)
    requires Sound(w) && socket in w.carriers && tunnel !in w.routes
    ensures OwnedSet(CreateSession(w, socket, tunnel, owner), account)
            == OwnedSet(w, account) + if owner == Some(account) then {tunnel} else {}
  {
    GreetingKeepsOthers(w, socket, tunnel, owner);
  }

  lemma OneMore(all: set<Tunnel>, tunnel: Tunnel)
    ensures |all + {tunnel}| == |all| + if tunnel in all then 0 else 1
  {
    if tunnel in all {
      assert all + {tunnel} == all;
    }
  }

  lemma GreetingKeepsCapacity(
    w: World, desk: Desk, socket: Socket, tunnel: Tunnel, owner: Option<Account>, limits: Limits)
    requires Sound(w) && socket in w.carriers && w.carriers[socket].session.None? && tunnel !in w.routes
    requires Capacity(w, desk, limits) && CanAdmit(w, desk, owner, limits)
    ensures Capacity(CreateSession(w, socket, tunnel, owner), desk, limits)
  {
    var next := CreateSession(w, socket, tunnel, owner);
    GreetingAddsCreating(w, socket, tunnel, owner);
    OneMore(CreatingSet(w), tunnel);
    GreetingKeepsLive(w, socket, tunnel, owner);
    forall account: Account ensures |OwnedSet(next, account)| <= limits.maxPerAccount {
      GreetingAddsOwned(w, socket, tunnel, owner, account);
      OneMore(OwnedSet(w, account), tunnel);
    }
  }

  lemma CreateKeepsOpen(g: Gate, socket: Socket, tunnel: Tunnel, owner: Option<Account>, now: int, limits: Limits)
    requires Open(g, limits)
    ensures Open(CreateAt(g, socket, tunnel, owner, now, limits), limits)
  {
    if socket in g.world.carriers && g.world.carriers[socket].session.None? {
      var freed := FreeToken(g, socket);
      if socket in g.tokens {
        GivingBackKeepsCapacity(g.world, g.desk, g.tokens[socket], limits);
      }
      CleaningKeepsCapacity(freed.world, freed.desk, now, limits);
      var desk := Clean(freed.desk, now);
      if tunnel !in freed.world.routes {
        GreetIsSound(freed.world, socket, tunnel, owner, CanAdmit(freed.world, desk, owner, limits));
        if CanAdmit(freed.world, desk, owner, limits) {
          GreetingKeepsCapacity(freed.world, desk, socket, tunnel, owner, limits);
        }
      }
    }
  }

  /** Activation moves at most the session's own tunnel into the live set. */
  ghost predicate Activates(w: World, next: World, sid: SessionId, admitted: bool) {
    forall t | t in next.routes && Counts(next, t) ::
      && Counts(w, t)
      && Of(next, t).owner == Of(w, t).owner
      && (Of(next, t).lifecycle.Creating? ==> Of(w, t).lifecycle.Creating?)
      && (Live(Of(next, t).lifecycle) ==> Live(Of(w, t).lifecycle) || (admitted && w.routes[t] == sid))
  }

  lemma StoringActivates(w: World, sid: SessionId, next: State)
    requires Sound(w) && Registered(w, sid) && !next.Creating?
    ensures Activates(w, ApplyTransition(w, sid, next), sid, true)
  {
    assert forall t | t in w.routes && w.routes[t] == sid :: t == w.objects[sid].tunnel;
  }

  lemma FinishingAddsOwn(
    w: World, socket: Socket, sid: SessionId, generation: int, now: int, admitted: bool, policy: Policy)
    requires Sound(w) && socket in w.carriers && w.carriers[socket].session == Some(sid)
    ensures Activates(w, Finish(w, socket, generation, now, admitted, policy).world, sid, admitted)
  {
    var s := w.objects[sid];
    if Registered(w, sid) && admitted {
      forall next: State | !next.Creating? ensures Activates(w, Commit(w, sid, next).world, sid, true) {
        StoringActivates(w, sid, next);
      }
      if s.lifecycle.Creating? {
        ActivatedIsCommitted(s, now, policy);
      } else if s.lifecycle.Reconnecting? && w.carriers[socket].attempt.Some? {
        ResumedIsCommitted(s, now, w.carriers[socket].attempt.value, policy);
      }
    }
  }

  lemma ActivationKeepsCapacity(w: World, next: World, desk: Desk, sid: SessionId, admitted: bool, limits: Limits)
    requires Sound(w) && Capacity(w, desk, limits) && sid in w.objects && Activates(w, next, sid, admitted)
    requires admitted ==> CanActivate(w, sid, limits)
    ensures Capacity(next, desk, limits)
  {
    SubsetIsSmaller(CreatingSet(next), CreatingSet(w));
    ActivationLive(w, next, sid, admitted, limits);
    forall account: Account ensures |OwnedSet(next, account)| <= limits.maxPerAccount {
      SubsetIsSmaller(OwnedSet(next, account), OwnedSet(w, account));
    }
  }

  lemma ActivationLive(w: World, next: World, sid: SessionId, admitted: bool, limits: Limits)
    requires RoutesSound(w) && sid in w.objects && |LiveSet(w)| <= limits.maxActive && Activates(w, next, sid, admitted)
    requires admitted ==> CanActivate(w, sid, limits)
    ensures |LiveSet(next)| <= limits.maxActive
  {
    var self := SelfSet(w, sid);
    if admitted {
      assert forall t | t in self :: t == w.objects[sid].tunnel;
      SubsetIsSmaller(LiveSet(next), (LiveSet(w) - self) + {w.objects[sid].tunnel});
    } else {
      SubsetIsSmaller(LiveSet(next), LiveSet(w));
    }
  }

  lemma ActivateKeepsOpen(
    g: Gate, socket: Socket, generation: int, now: int, ready: bool, limits: Limits, policy: Policy)
    requires Open(g, limits)
    ensures Open(ActivateAt(g, socket, generation, now, ready, limits, policy), limits)
  {
    if socket in g.world.carriers && g.world.carriers[socket].session.Some? {
      var w := g.world;
      var sid := w.carriers[socket].session.value;
      var admitted := ready && CanActivate(w, sid, limits);
      FinishIsSound(w, socket, generation, now, admitted, policy);
      FinishingAddsOwn(w, socket, sid, generation, now, admitted, policy);
      var next := Finish(w, socket, generation, now, admitted, policy).world;
      ActivationKeepsCapacity(w, next, g.desk, sid, admitted, limits);
    }
  }

  /** Moves that touch the desk alone. */
  lemma DeskKeepsOpen(g: Gate, move: Move, limits: Limits, policy: Policy)
    requires Open(g, limits)
    requires move.ReserveCredential? || move.ReleaseReservation? || move.ConsumeReservation? || move.ReleaseConnection?
             || move.CloseDesk?
    ensures Open(Play(g, move, limits, policy), limits)
  {
    match move
    case ReserveCredential(account, purpose, tunnel, now, rated) =>
      ReservingKeepsCapacity(g.world, g.desk, account, purpose, tunnel, now, rated, limits);
    case ReleaseReservation(id) => DroppingKeepsCapacity(g.world, g.desk, PositionOf(g.desk.reservations, id), limits);
    case ConsumeReservation(account, purpose, tunnel, now) =>
      CleaningKeepsCapacity(g.world, g.desk, now, limits);
      var clean := Clean(g.desk, now);
      DroppingKeepsCapacity(g.world, clean, FirstMatch(clean.reservations, account, purpose, tunnel), limits);
    case ReleaseConnection(token) => GivingBackKeepsCapacity(g.world, g.desk, token, limits);
    case CloseDesk =>
  }

  lemma ConnectKeepsOpen(g: Gate, socket: Socket, now: int, limits: Limits)
    requires Open(g, limits)
    ensures Open(ConnectAt(g, socket, now, limits), limits)
  {
    CleaningKeepsCapacity(g.world, g.desk, now, limits);
    if socket !in g.world.carriers {
      ConnectIsSound(g.world, socket);
      ConnectKeepsCapacity(g, socket, now, limits);
    }
  }

  lemma ResumeKeepsOpen(
    g: Gate, socket: Socket, tunnel: Tunnel, checkedAt: int, now: int, authorized: bool, limits: Limits, policy: Policy)
    requires Open(g, limits)
    ensures Open(ResumeAt(g, socket, tunnel, checkedAt, now, authorized, policy), limits)
  {
    if socket in g.tokens {
      GivingBackKeepsCapacity(g.world, g.desk, g.tokens[socket], limits);
    }
    var freed := FreeToken(g, socket);
    ResumeIsSound(freed.world, socket, tunnel, checkedAt, now, authorized, policy);
    ResumeShrinks(freed.world, socket, tunnel, checkedAt, now, authorized, policy);
    ShrinkingKeepsCapacity(freed.world, Resume(freed.world, socket, tunnel, checkedAt, now, authorized, policy).world,
      freed.desk, limits);
  }

  lemma FreeKeepsOpen(g: Gate, step: Step, limits: Limits, policy: Policy)
    requires Open(g, limits) && Free(step)
    ensures Open(g.(world := Perform(g.world, step, policy).world), limits)
  {
    PerformIsSound(g.world, step, policy);
    FreeStepShrinks(g.world, step, policy);
    ShrinkingKeepsCapacity(g.world, Perform(g.world, step, policy).world, g.desk, limits);
  }

  /** Play, by what each of these moves does. */
  lemma PlayIsOneCall(g: Gate, move: Move, limits: Limits, policy: Policy)
    ensures move.Unguarded? ==>
              Play(g, move, limits, policy)
              == if Free(move.step) then g.(world := Perform(g.world, move.step, policy).world) else g
    ensures move.ConnectCarrier? ==>
              Play(g, move, limits, policy) == ConnectAt(g, move.socket, move.now, limits)
    ensures move.CreateTunnel? ==>
              Play(g, move, limits, policy) == CreateAt(g, move.socket, move.tunnel, move.owner, move.now, limits)
    ensures move.ResumeTunnel? ==>
              Play(g, move, limits, policy)
              == ResumeAt(g, move.socket, move.tunnel, move.checkedAt, move.now, move.authorized, policy)
    ensures move.ActivateTunnel? ==>
              Play(g, move, limits, policy)
              == ActivateAt(g, move.socket, move.generation, move.now, move.ready, limits, policy)
  {
  }

  lemma UnguardedKeepsOpen(g: Gate, step: Step, limits: Limits, policy: Policy)
    requires Open(g, limits)
    ensures Open(Play(g, Unguarded(step), limits, policy), limits)
  {
    PlayIsOneCall(g, Unguarded(step), limits, policy);
    if Free(step) {
      FreeKeepsOpen(g, step, limits, policy);
    }
  }

  lemma GreetingsKeepOpen(g: Gate, move: Move, limits: Limits, policy: Policy)
    requires Open(g, limits) && (move.ConnectCarrier? || move.CreateTunnel?)
    ensures Open(Play(g, move, limits, policy), limits)
  {
    PlayIsOneCall(g, move, limits, policy);
    match move
    case ConnectCarrier(socket, now) => ConnectKeepsOpen(g, socket, now, limits);
    case CreateTunnel(socket, tunnel, owner, now) => CreateKeepsOpen(g, socket, tunnel, owner, now, limits);
  }

  lemma ReturnsKeepOpen(g: Gate, move: Move, limits: Limits, policy: Policy)
    requires Open(g, limits) && (move.ResumeTunnel? || move.ActivateTunnel?)
    ensures Open(Play(g, move, limits, policy), limits)
  {
    PlayIsOneCall(g, move, limits, policy);
    match move
    case ResumeTunnel(socket, tunnel, checkedAt, now, authorized) =>
      ResumeKeepsOpen(g, socket, tunnel, checkedAt, now, authorized, limits, policy);
    case ActivateTunnel(socket, generation, now, ready) =>
      ActivateKeepsOpen(g, socket, generation, now, ready, limits, policy);
  }

  lemma PlayKeepsOpen(g: Gate, move: Move, limits: Limits, policy: Policy)
    requires Open(g, limits)
    ensures Open(Play(g, move, limits, policy), limits)
  {
    if move.Unguarded? {
      UnguardedKeepsOpen(g, move.step, limits, policy);
    } else if move.ConnectCarrier? || move.CreateTunnel? {
      GreetingsKeepOpen(g, move, limits, policy);
    } else if move.ResumeTunnel? || move.ActivateTunnel? {
      ReturnsKeepOpen(g, move, limits, policy);
    } else {
      DeskKeepsOpen(g, move, limits, policy);
    }
  }

  lemma ConnectKeepsCapacity(g: Gate, socket: Socket, now: int, limits: Limits)
    requires Capacity(g.world, g.desk, limits) && socket !in g.world.carriers
    ensures var next := ConnectAt(g, socket, now, limits);
            Capacity(next.world, next.desk, limits)
  {
    CleaningKeepsCapacity(g.world, g.desk, now, limits);
    var next := ConnectAt(g, socket, now, limits);
    var clean := Clean(g.desk, now);
    assert Shrinks(g.world, next.world);
    ShrinkingKeepsCapacity(g.world, next.world, clean, limits);
    SubsetIsSmaller(CreatingSet(next.world), CreatingSet(g.world));
  }

  /** The three limits hold after any sequence of reservations, releases, expiries, HELLOs and activations. */
  lemma {:induction false} EveryRunIsWithinCapacity(g: Gate, moves: seq<Move>, limits: Limits, policy: Policy)
    requires Open(g, limits)
    ensures Open(PlayAll(g, moves, limits, policy), limits)
    decreases |moves|
  {
    if moves != [] {
      PlayKeepsOpen(g, moves[0], limits, policy);
      EveryRunIsWithinCapacity(Play(g, moves[0], limits, policy), moves[1..], limits, policy);
    }
  }

  /** In the source's terms, and without leaving terminal sessions out: every routed session is counted. */
  lemma CapacityOverWholeRuns(moves: seq<Move>, limits: Limits, policy: Policy, account: Account)
    ensures var g := PlayAll(Doors(), moves, limits, policy);
            var w := g.world;
            && (forall t | t in w.routes :: w.routes[t] in w.objects)
            && |g.desk.pending| + |g.desk.reservations|
               + |set t | t in w.routes && Of(w, t).lifecycle.Creating?| <= limits.maxPending
            && |set t | t in w.routes && (Of(w, t).lifecycle.Active? || Of(w, t).lifecycle.Reconnecting?)|
               <= limits.maxActive
            && |set t | t in w.routes && Of(w, t).owner == Some(account)| <= limits.maxPerAccount
            && HeldBy(g.desk.reservations, account) <= limits.maxCredentialsPerAccount
  {
    EveryRunIsWithinCapacity(Doors(), moves, limits, policy);
    RoutedAreCounted(PlayAll(Doors(), moves, limits, policy).world, account);
  }

  /** No registered session is terminal, so the sets that admission counts leave none out. */
  lemma RoutedAreCounted(w: World, account: Account)
    requires Sound(w)
    ensures forall t | t in w.routes :: w.routes[t] in w.objects
    ensures (set t | t in w.routes && Of(w, t).lifecycle.Creating?) == CreatingSet(w)
    ensures (set t | t in w.routes && (Of(w, t).lifecycle.Active? || Of(w, t).lifecycle.Reconnecting?)) == LiveSet(w)
    ensures (set t | t in w.routes && Of(w, t).owner == Some(account)) == OwnedSet(w, account)
  {
    assert forall t | t in w.routes :: Registered(w, w.routes[t]) && Counts(w, t);
  }
}
