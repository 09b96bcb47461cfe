/**
 The gateway's session registry: who is routed to, over which transport, with
 which streams. Every handler of the carrier and of the stream code is one step;
 a step says whether it completed, was rejected by one of the guards the code
 answers with an error frame, or hit an error that only a broken invariant can
 raise.
 */
module GatewaySessions {
  import opened Options
  import opened SessionState
  import StreamIds

  type Tunnel = int
  type Account = int
  type Socket = int
  type SessionId = nat

  datatype Transport = Transport(socket: Socket, generation: int, outboundFlow: nat, inboundFlow: nat)

  /** A proxied stream; the serial number stands for the object's identity. */
  datatype Stream = Stream(serial: nat, transport: Transport)

  datatype Session = Session(
    tunnel: Tunnel,
    owner: Option<Account>,
    transport: Transport,
    streams: map<int, Stream>,
    highestIssued: nat,
    lifecycle: State,
    terminal: bool)

  /** What one attached socket remembers between messages. */
  datatype Carrier = Carrier(session: Option<SessionId>, attempt: Option<AttemptId>, cleaned: bool)

  datatype World = World(
    objects: map<SessionId, Session>,
    routes: map<Tunnel, SessionId>,
    carriers: map<Socket, Carrier>,
    nextSession: SessionId,
    nextFlow: nat,
    nextAttempt: AttemptId,
    nextStream: nat)

  datatype Step =
    | Connect(socket: Socket)
    | HelloCreate(socket: Socket, tunnel: Tunnel, owner: Option<Account>, admitted: bool)
    | HelloResume(socket: Socket, tunnel: Tunnel, checkedAt: int, now: int, authorized: bool)
    | IssueProbe(socket: Socket)
    | FinishProbe(socket: Socket, generation: int, now: int, admitted: bool)
    | OpenStream(tunnel: Tunnel, now: int)
    | RemoveStream(session: SessionId, streamId: int, stream: Stream, now: int)
    | CarrierClosed(socket: Socket, now: int)
    | TickSession(tunnel: Tunnel, now: int, authorizationExpired: bool)
    | Terminate(session: SessionId)

  datatype Rejection =
    | NotConnected | AlreadyGreeted | TunnelTaken | NotAdmitted | ResumeRejected | ResumeInProgress | NoSession
    | StaleGeneration | AlreadyActive | NoAttempt | StaleAttempt | SessionExpired | TunnelOffline | StreamIdsExhausted
    | NotCurrent

  datatype Fault =
    | BadTransition | GenerationMismatch | NotReconnectingAfterStart | CandidateWithoutGeneration | NotActiveAfterOpen

  datatype Effect =
    | Done(world: World)
    | Rejected(world: World, rejection: Rejection)
    | Broken(world: World, fault: Fault)

  // ------------------------------------------------------------ the registry

  function Boot(): World {
    World(map[], map[], map[], 0, 0, 0, 0)
  }

  predicate Registered(w: World, sid: SessionId) {
    && sid in w.objects
    && w.objects[sid].tunnel in w.routes
    && w.routes[w.objects[sid].tunnel] == sid
  }

  predicate CurrentStream(s: Session, streamId: int, stream: Stream) {
    s.transport == stream.transport && streamId in s.streams && s.streams[streamId] == stream
  }

  function Put(w: World, sid: SessionId, s: Session): World {
    w.(objects := w.objects[sid := s])
  }

  function Unroute(w: World, tunnel: Tunnel): World {
    w.(routes := w.routes - {tunnel})
  }

  function Dispose(w: World, sid: SessionId): World
    requires sid in w.objects
  {
    if Registered(w, sid)
    then Unroute(Put(w, sid, w.objects[sid].(terminal := true, streams := map[])), w.objects[sid].tunnel)
    else w
  }

  /** Store the next lifecycle state; an expired session is disposed of on the spot. */
  function ApplyTransition(w: World, sid: SessionId, next: State): World
    requires sid in w.objects
  {
    var stored := Put(w, sid, w.objects[sid].(lifecycle := next));
    if next.Expired? then Dispose(stored, sid) else stored
  }

  // ------------------------------------------------------------------- HELLO

  function CreateSession(w: World, socket: Socket, tunnel: Tunnel, owner: Option<Account>): World
    requires socket in w.carriers
  {
    var sid := w.nextSession;
    var s := Session(tunnel, owner, Transport(socket, 1, w.nextFlow, w.nextFlow + 1), map[], 0, Creating, false);
    w.(objects := w.objects[sid := s],
       routes := w.routes[tunnel := sid],
       carriers := w.carriers[socket := w.carriers[socket].(session := Some(sid))],
       nextSession := sid + 1,
       nextFlow := w.nextFlow + 2)
  }

  function Greet(w: World, socket: Socket, tunnel: Tunnel, owner: Option<Account>, admitted: bool): Effect {
    if socket !in w.carriers then Rejected(w, NotConnected)
    else if w.carriers[socket].session.Some? then Rejected(w, AlreadyGreeted)
    else if tunnel in w.routes then Rejected(w, TunnelTaken)
    else if !admitted then Rejected(w, NotAdmitted)
    else Done(CreateSession(w, socket, tunnel, owner))
  }

  /** The session moves to a new socket, new windows, new stream ids and the candidate generation. */
  function Adopt(w: World, sid: SessionId, socket: Socket, generation: int): World
    requires sid in w.objects && socket in w.carriers
  {
    var s := w.objects[sid].(
      transport := Transport(socket, generation, w.nextFlow, w.nextFlow + 1),
      highestIssued := 0);
    w.(objects := w.objects[sid := s],
       carriers := w.carriers[socket := w.carriers[socket].(session := Some(sid), attempt := Some(w.nextAttempt))],
       nextFlow := w.nextFlow + 2,
       nextAttempt := w.nextAttempt + 1)
  }

  function Resume(
    w: World, socket: Socket, tunnel: Tunnel, checkedAt: int, now: int, authorized: bool, policy: Policy): Effect
  {
    if socket !in w.carriers then Rejected(w, NotConnected)
    else if w.carriers[socket].session.Some? then Rejected(w, AlreadyGreeted)
    else if tunnel !in w.routes || w.routes[tunnel] !in w.objects then Rejected(w, ResumeRejected)
    else
      var sid := w.routes[tunnel];
      var s := w.objects[sid];
      if s.terminal || !s.lifecycle.Reconnecting? || !ResumeAllowed(checkedAt, s.lifecycle.disconnectedAt, policy)
         || !authorized
      then Rejected(w, ResumeRejected)
      else
        match Transition(s.lifecycle, StartResume(now, w.nextAttempt), policy)
        case Refused(why) =>
          if why.ResumeInProgress? then Rejected(w, Rejection.ResumeInProgress) else Broken(w, BadTransition)
        case To(next) =>
          var stored := ApplyTransition(w, sid, next);
          if next.Expired? then Rejected(stored, ResumeRejected)
          else if !next.Reconnecting? then Broken(stored, NotReconnectingAfterStart)
          else if next.candidateGeneration.None? then Broken(stored, CandidateWithoutGeneration)
          else Done(Adopt(stored, sid, socket, next.candidateGeneration.value))
  }

  // -------------------------------------------------------------- activation

  predicate IdsLeft(s: Session) {
    StreamIds.NextIssue(s.highestIssued).Issued?
  }

  /** The stream id the session issues next. */
  function NextId(s: Session): (id: nat)
    requires IdsLeft(s)
    ensures id > s.highestIssued
  {
    StreamIds.NextIssue(s.highestIssued).id
  }

  function StartProbe(w: World, socket: Socket): Effect {
    if socket !in w.carriers || w.carriers[socket].session.None? || w.carriers[socket].session.value !in w.objects
    then Rejected(w, NoSession)
    else
      var sid := w.carriers[socket].session.value;
      var s := w.objects[sid];
      if !Registered(w, sid) || s.lifecycle.Active? then Rejected(w, NotCurrent)
      else if !IdsLeft(s) then Rejected(w, StreamIdsExhausted)
      else Done(Put(w, sid, s.(highestIssued := NextId(s))))
  }

  /** The probe came back intact: the session becomes active on the generation its transport carries. */
  function Commit(w: World, sid: SessionId, next: State): Effect
    requires sid in w.objects
  {
    var stored := ApplyTransition(w, sid, next);
    if next.Expired? then Rejected(stored, SessionExpired)
    else if next.Active? && next.generation == w.objects[sid].transport.generation then Done(stored)
    else Broken(stored, GenerationMismatch)
  }

  function Finish(w: World, socket: Socket, generation: int, now: int, admitted: bool, policy: Policy): Effect {
    if socket !in w.carriers || w.carriers[socket].session.None? || w.carriers[socket].session.value !in w.objects
    then Rejected(w, NoSession)
    else
      var sid := w.carriers[socket].session.value;
      var s := w.objects[sid];
      if generation != s.transport.generation then Rejected(w, StaleGeneration)
      else if s.terminal || !Registered(w, sid) then Rejected(w, NotCurrent)
      else if s.lifecycle.Active? then Rejected(w, AlreadyActive)
      else if !admitted then Rejected(w, NotAdmitted)
      else if s.lifecycle.Creating? then
        match Transition(s.lifecycle, Activate(now), policy)
        case Refused(_) => Broken(w, BadTransition)
        case To(next) => Commit(w, sid, next)
      else if w.carriers[socket].attempt.None? then Rejected(w, NoAttempt)
      else
        match Transition(s.lifecycle, ResumeCommitted(now, w.carriers[socket].attempt.value), policy)
        case Refused(why) => if why.StaleResumeAttempt? then Rejected(w, StaleAttempt) else Broken(w, BadTransition)
        case To(next) => Commit(w, sid, next)
  }

  // ----------------------------------------------------------------- streams

  function AddStream(w: World, sid: SessionId, streamId: int): World
    requires sid in w.objects
  {
    var s := w.objects[sid];
    Put(w, sid, s.(streams := s.streams[streamId := Stream(w.nextStream, s.transport)]))
      .(nextStream := w.nextStream + 1)
  }

  function BeginStream(w: World, tunnel: Tunnel, now: int, policy: Policy): Effect {
    if tunnel !in w.routes || w.routes[tunnel] !in w.objects || !w.objects[w.routes[tunnel]].lifecycle.Active?
    then Rejected(w, TunnelOffline)
    else
      var sid := w.routes[tunnel];
      var s := w.objects[sid];
      if !IdsLeft(s) then Rejected(w, StreamIdsExhausted)
      else
        var issued := Put(w, sid, s.(highestIssued := NextId(s)));
        match Transition(s.lifecycle, SessionState.StreamOpen(now), policy)
        case Refused(_) => Broken(issued, BadTransition)
        case To(next) =>
          var stored := ApplyTransition(issued, sid, next);
          if next.Expired? then Rejected(stored, SessionExpired)
          else if !next.Active? then Broken(stored, NotActiveAfterOpen)
          else Done(AddStream(stored, sid, NextId(s)))
  }

  function EndStream(w: World, sid: SessionId, streamId: int, stream: Stream, now: int, policy: Policy): Effect {
    if sid !in w.objects || !CurrentStream(w.objects[sid], streamId, stream) then Rejected(w, NotCurrent)
    else
      var s := w.objects[sid];
      var removed := Put(w, sid, s.(streams := s.streams - {streamId}));
      if !s.lifecycle.Active? then Done(removed)
      else
        match Transition(s.lifecycle, SessionState.StreamClosed(now), policy)
        case Refused(_) => Broken(removed, BadTransition)
        case To(next) => Done(ApplyTransition(removed, sid, next))
  }

  // ----------------------------------------------------------------- endings

  function Sweep(w: World, tunnel: Tunnel, now: int, authorizationExpired: bool, policy: Policy): Effect {
    if tunnel !in w.routes || w.routes[tunnel] !in w.objects then Done(w)
    else
      var sid := w.routes[tunnel];
      var s := w.objects[sid];
      if !Live(s.lifecycle) then Done(w)
      else
        match Transition(s.lifecycle, SessionState.Tick(now), policy)
        case Refused(_) => Broken(w, BadTransition)
        case To(next) =>
          if next.Expired? || authorizationExpired
          then Done(Dispose(Put(w, sid, s.(lifecycle := next)), sid))
          else Done(w)
  }

  /** Streams of a lost carrier are closed before the lifecycle hears of the loss. */
  function LoseSession(w: World, sid: SessionId, attempt: Option<AttemptId>, now: int, policy: Policy): Effect
    requires sid in w.objects
  {
    var s := w.objects[sid];
    var emptied := Put(w, sid, s.(streams := map[]));
    if s.terminal || s.lifecycle.Creating? then Done(Unroute(emptied, s.tunnel))
    else if s.lifecycle.Active? then
      match Transition(s.lifecycle, CarrierLost(now), policy)
      case Refused(_) => Broken(emptied, BadTransition)
      case To(next) => Done(ApplyTransition(emptied, sid, next))
    else if s.lifecycle.Reconnecting? && attempt.Some? && s.lifecycle.candidateAttemptId == attempt then
      match Transition(s.lifecycle, ResumeFailed(now, attempt.value), policy)
      case Refused(_) => Broken(emptied, BadTransition)
      case To(next) => Done(ApplyTransition(emptied, sid, next))
    else Done(emptied)
  }

  function Cleanup(w: World, socket: Socket, now: int, policy: Policy): Effect {
    if socket !in w.carriers || w.carriers[socket].cleaned then Done(w)
    else
      var carrier := w.carriers[socket];
      var cleaned := w.(carriers := w.carriers[socket := carrier.(cleaned := true)]);
      if carrier.session.None? || !Registered(w, carrier.session.value)
         || w.objects[carrier.session.value].transport.socket != socket
      then Done(cleaned)
      else LoseSession(cleaned, carrier.session.value, carrier.attempt, now, policy)
  }

  // -------------------------------------------------------------------- runs

  function Perform(w: World, step: Step, policy: Policy): Effect {
    match step
    case Connect(socket) =>
      if socket in w.carriers then Rejected(w, AlreadyGreeted)
      else Done(w.(carriers := w.carriers[socket := Carrier(None, None, false)]))
    case HelloCreate(socket, tunnel, owner, admitted) => Greet(w, socket, tunnel, owner, admitted)
    case HelloResume(socket, tunnel, checkedAt, now, authorized) =>
      Resume(w, socket, tunnel, checkedAt, now, authorized, policy)
    case IssueProbe(socket) => StartProbe(w, socket)
    case FinishProbe(socket, generation, now, admitted) => Finish(w, socket, generation, now, admitted, policy)
    case OpenStream(tunnel, now) => BeginStream(w, tunnel, now, policy)
    case RemoveStream(session, streamId, stream, now) => EndStream(w, session, streamId, stream, now, policy)
    case CarrierClosed(socket, now) => Cleanup(w, socket, now, policy)
    case TickSession(tunnel, now, authorizationExpired) => Sweep(w, tunnel, now, authorizationExpired, policy)
    case Terminate(session) => if session in w.objects then Done(Dispose(w, session)) else Done(w)
  }

  function Serve(w: World, steps: seq<Step>, policy: Policy): World
    decreases |steps|
  {
    if steps == [] then w else Serve(Perform(w, steps[0], policy).world, steps[1..], policy)
  }
}
