/**
 When the gateway admits, reserves and activates, in counts of what is there: no
 request is turned away while there is room.
 */
module AdmissionAnswers {
  import opened Options
  import opened SessionState
  import opened GatewaySessions
  import opened GatewaySafety
  import opened GatewayAnswers
  import opened Admission

  // ---------------------------------------------------------------- counting

  /** The reservations that have not expired, and those of one account, by their places in the list. */
  ghost function LiveReservations(rs: seq<Reservation>, now: int): set<int> {
    set i | 0 <= i < |rs| && rs[i].expiresAt > now
  }

  ghost function ReservationsOf(rs: seq<Reservation>, now: int, account: Account): set<int> {
    set i | 0 <= i < |rs| && rs[i].expiresAt > now && rs[i].account == account
  }

  lemma OneMore(all: set<int>, fewer: set<int>, last: int, counts: bool)
    requires last !in fewer && all == if counts then fewer + {last} else fewer
    ensures |all| == |fewer| + if counts then 1 else 0
  {
  }

  lemma LastLive(rs: seq<Reservation>, now: int)
    requires rs != []
    ensures |LiveReservations(rs, now)|
            == |LiveReservations(rs[..|rs| - 1], now)| + if rs[|rs| - 1].expiresAt > now then 1 else 0
  {
    var all, fewer, last := LiveReservations(rs, now), LiveReservations(rs[..|rs| - 1], now), |rs| - 1;
    forall i ensures i in all <==> i in fewer || (i == last && rs[last].expiresAt > now) {
    }
    OneMore(all, fewer, last, rs[last].expiresAt > now);
  }

  lemma LastHeld(rs: seq<Reservation>, now: int, account: Account)
    requires rs != []
    ensures |ReservationsOf(rs, now, account)|
            == |ReservationsOf(rs[..|rs| - 1], now, account)|
               + if rs[|rs| - 1].expiresAt > now && rs[|rs| - 1].account == account then 1 else 0
  {
    var all, fewer := ReservationsOf(rs, now, account), ReservationsOf(rs[..|rs| - 1], now, account);
    var last := |rs| - 1;
    var counts := rs[last].expiresAt > now && rs[last].account == account;
    forall i ensures i in all <==> i in fewer || (i == last && counts) {
    }
    OneMore(all, fewer, last, counts);
  }

  lemma HeldWithLast(kept: seq<Reservation>, last: Reservation, account: Account)
    ensures HeldBy(kept + [last], account) == HeldBy(kept, account) + if last.account == account then 1 else 0
  {
    assert (kept + [last])[..|kept|] == kept;
  }

  lemma {:induction false} ReservationsCount(rs: seq<Reservation>, now: int, account: Account)
    ensures |Unexpired(rs, now)| == |LiveReservations(rs, now)|
    ensures HeldBy(Unexpired(rs, now), account) == |ReservationsOf(rs, now, account)|
  {
    if rs != [] {
      ReservationsCount(rs[..|rs| - 1], now, account);
      LastLive(rs, now);
      LastHeld(rs, now, account);
      HeldWithLast(Unexpired(rs[..|rs| - 1], now), rs[|rs| - 1], account);
    }
  }

  /** The tunnels whose session is there and not ended. */
  ghost predicate Routed(w: World, t: Tunnel) {
    t in w.routes && w.routes[t] in w.objects && !w.objects[w.routes[t]].terminal
  }

  ghost function CreatingTunnels(w: World): set<Tunnel> {
    set t | t in w.routes && Routed(w, t) && w.objects[w.routes[t]].lifecycle.Creating?
  }

  ghost function LiveTunnels(w: World): set<Tunnel> {
    set t | t in w.routes && Routed(w, t)
            && (w.objects[w.routes[t]].lifecycle.Active? || w.objects[w.routes[t]].lifecycle.Reconnecting?)
  }

  ghost function TunnelsOf(w: World, account: Account): set<Tunnel> {
    set t | t in w.routes && Routed(w, t) && w.objects[w.routes[t]].owner == Some(account)
  }

  lemma TunnelsAreCounted(w: World, account: Account)
    ensures CreatingSet(w) == CreatingTunnels(w) && LiveSet(w) == LiveTunnels(w)
    ensures OwnedSet(w, account) == TunnelsOf(w, account)
  {
    assert forall t | t in w.routes :: Counts(w, t) == Routed(w, t);
  }

  // --------------------------------------------------------------- admission

  /** Connections, reservations and sessions being created leave one of the pending places free. */
  ghost predicate PendingRoom(w: World, desk: Desk, now: int, limits: Limits) {
    |desk.pending| + |LiveReservations(desk.reservations, now)| + |CreatingTunnels(w)| < limits.maxPending
  }

  /** A pending place, a live place, and a place of the account's own are free. */
  ghost predicate Admissible(w: World, desk: Desk, account: Option<Account>, now: int, limits: Limits) {
    && PendingRoom(w, desk, now, limits)
    && |LiveTunnels(w)| < limits.maxActive
    && forall a: Account :: account == Some(a) ==>
         |TunnelsOf(w, a)| + |ReservationsOf(desk.reservations, now, a)| < limits.maxPerAccount
  }

  lemma RoomIsExact(w: World, desk: Desk, now: int, limits: Limits)
    ensures HasRoom(w, desk, now, limits) <==> PendingRoom(w, desk, now, limits)
    ensures Occupied(w, Clean(desk, now)) < limits.maxPending <==> PendingRoom(w, desk, now, limits)
  {
    ReservationsCount(desk.reservations, now, 0);
    TunnelsAreCounted(w, 0);
  }

  /** A new tunnel is admitted if and only if there is room for it. */
  lemma AdmissionIsExact(w: World, desk: Desk, account: Option<Account>, now: int, limits: Limits)
    ensures CanAdmit(w, Clean(desk, now), account, limits) <==> Admissible(w, desk, account, now, limits)
  {
    RoomIsExact(w, desk, now, limits);
    var a := if account.Some? then account.value else 0;
    ReservationsCount(desk.reservations, now, a);
    TunnelsAreCounted(w, a);
  }

  /** A pending connection gets its token if and only if there is a pending place. */
  lemma ConnectionIsExact(g: Gate, socket: Socket, now: int, limits: Limits)
    requires socket !in g.world.carriers
    ensures var next := ConnectAt(g, socket, now, limits);
            && (socket in next.world.carriers <==> PendingRoom(g.world, g.desk, now, limits))
            && next.desk.reservations == Unexpired(g.desk.reservations, now)
            && next.desk.pending
               == g.desk.pending + if PendingRoom(g.world, g.desk, now, limits) then {g.desk.nextToken} else {}
  {
    RoomIsExact(g.world, g.desk, now, limits);
  }

  /** A credential is reserved if and only if a place is free for its tunnel and both credential quotas allow it. */
  lemma ReservationIsExact(
    w: World, desk: Desk, account: Account, purpose: Purpose, tunnel: Tunnel, now: int, rated: bool, limits: Limits)
    ensures var next := Reserve(w, desk, account, purpose, tunnel, now, rated, limits);
            var free := && PendingRoom(w, desk, now, limits)
                        && (purpose.ForCreate? ==> Admissible(w, desk, Some(account), now, limits))
                        && |LiveReservations(desk.reservations, now)| < limits.maxCredentials
                        && |ReservationsOf(desk.reservations, now, account)| < limits.maxCredentialsPerAccount
                        && rated;
            && next.pending == desk.pending
            && next.reservations
               == Unexpired(desk.reservations, now)
                  + if free then [Reservation(desk.nextReservation, account, purpose, tunnel, now + 60_000)] else []
  {
    RoomIsExact(w, desk, now, limits);
    AdmissionIsExact(w, desk, Some(account), now, limits);
    ReservationsCount(desk.reservations, now, account);
  }

  /** A HELLO that creates gets its session if and only if its carrier waits, the tunnel is free and there is room. */
  lemma CreationIsExact(
    g: Gate, socket: Socket, tunnel: Tunnel, owner: Option<Account>, now: int, limits: Limits)
    ensures var freed, next := FreeToken(g, socket).desk, CreateAt(g, socket, tunnel, owner, now, limits);
            if Waiting(g.world, socket) && tunnel !in g.world.routes && Admissible(g.world, freed, owner, now, limits)
            then next.world == CreateSession(g.world, socket, tunnel, owner)
            else next.world == g.world
  {
    if Waiting(g.world, socket) && tunnel !in g.world.routes {
      var freed := FreeToken(g, socket);
      AdmissionIsExact(g.world, freed.desk, owner, now, limits);
      CreateAnswers(g.world, socket, tunnel, owner, CanAdmit(g.world, Clean(freed.desk, now), owner, limits));
    }
  }

  /** A session is activated if and only if the others leave a live place, and a place of its owner's. */
  lemma ActivationIsExact(w: World, sid: SessionId, limits: Limits)
    requires sid in w.objects
    ensures var others := set t | t in w.routes && w.routes[t] != sid;
            CanActivate(w, sid, limits) <==>
              && |LiveTunnels(w) * others| < limits.maxActive
              && forall a: Account :: w.objects[sid].owner == Some(a) ==>
                   |TunnelsOf(w, a) * others| < limits.maxPerAccount
  {
    var others := set t | t in w.routes && w.routes[t] != sid;
    var a := if w.objects[sid].owner.Some? then w.objects[sid].owner.value else 0;
    TunnelsAreCounted(w, a);
    assert LiveSet(w) - SelfSet(w, sid) == LiveTunnels(w) * others;
    assert OwnedSet(w, a) - SelfSet(w, sid) == TunnelsOf(w, a) * others;
  }

  /** Using a reservation takes the first unexpired one that matches, and no other. */
  lemma ConsumptionIsExact(desk: Desk, account: Account, purpose: Purpose, tunnel: Tunnel, now: int)
    ensures var kept, next := Unexpired(desk.reservations, now), Consume(desk, account, purpose, tunnel, now);
            && next.pending == desk.pending
            && ((forall i | 0 <= i < |kept| ::
                   !(kept[i].account == account && kept[i].purpose == purpose && kept[i].tunnel == tunnel)) ==>
                  next.reservations == kept)
            && forall k | 0 <= k < |kept| && kept[k].account == account && kept[k].purpose == purpose
                          && kept[k].tunnel == tunnel
                          && (forall i | 0 <= i < k :: !Matches(kept[i], account, purpose, tunnel)) ::
                 next.reservations == kept[..k] + kept[k + 1..]
  {
  }
}
