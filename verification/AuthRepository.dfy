/** The repository as the application holds it: maps changed in place, with deletion and counting loops. */
module AuthRepository {
  import opened Options
  import opened AuthStore
  import opened Sets

  const THROTTLE_AGE: int := 15 * 60_000

  lemma SameShelf(kept: Shelf, shelf: Shelf, other: Shelf)
    requires Part(kept, shelf) && Part(other, shelf) && kept.Keys == other.Keys
    ensures kept == other
  {
  }

  /** Deleting while iterating: what has expired goes, the rest stays as it was. */
  method DropExpired(shelf: Shelf, now: int) returns (kept: Shelf)
    ensures kept == Unexpired(shelf, now)
  {
    kept := shelf;
    var rest := shelf.Keys;
    while rest != {}
      invariant rest <= kept.Keys && Part(kept, shelf)
      invariant forall key | key in shelf && key !in kept :: shelf[key].expiresAt <= now
      invariant forall key | key in kept && key !in rest :: shelf[key].expiresAt > now
      decreases |rest|
    {
      var key := Pick(rest);
      rest := rest - {key};
      if shelf[key].expiresAt <= now {
        kept := kept - {key};
      }
    }
    SameShelf(kept, shelf, Unexpired(shelf, now));
  }

  method DropOwned(shelf: Shelf, account: AccountId) returns (kept: Shelf)
    ensures kept == Disown(shelf, account)
  {
    kept := shelf;
    var rest := shelf.Keys;
    while rest != {}
      invariant rest <= kept.Keys && Part(kept, shelf)
      invariant forall key | key in shelf && key !in kept :: shelf[key].account == account
      invariant forall key | key in kept && key !in rest :: shelf[key].account != account
      decreases |rest|
    {
      var key := Pick(rest);
      rest := rest - {key};
      if shelf[key].account == account {
        kept := kept - {key};
      }
    }
    SameShelf(kept, shelf, Disown(shelf, account));
  }

  function ExpiryOf(artifact: Artifact): int {
    artifact.expiresAt
  }

  /** A login intent or throttle is kept here as the one time that its sweep looks at. */
  function TimeOf(time: int): int {
    time
  }

  /** Only what is due goes, at most the budget of it, and all of it if there is less. */
  ghost predicate Swept<V(!new)>(before: map<Key, V>, after: map<Key, V>, at: V -> int, now: int, budget: int) {
    var dropped := |before| - |after|;
    && after.Keys <= before.Keys && (forall key | key in after :: after[key] == before[key])
    && 0 <= dropped <= budget
    && (forall key | key in before && key !in after :: at(before[key]) <= now)
    && (dropped < budget ==> forall key | key in after :: at(after[key]) > now)
  }

  lemma SweptIsUnexpired(before: Shelf, after: Shelf, now: int, budget: int)
    requires Swept(before, after, ExpiryOf, now, budget) && |before| - |after| < budget
    ensures after == Unexpired(before, now)
  {
    SameShelf(after, before, Unexpired(before, now));
  }

  method DropSome<V(!new)>(shelf: map<Key, V>, at: V -> int, now: int, budget: nat)
    returns (kept: map<Key, V>, dropped: nat)
    ensures Swept(shelf, kept, at, now, budget) && |shelf| == |kept| + dropped
  {
    kept, dropped := shelf, 0;
    var rest := shelf.Keys;
    while rest != {} && dropped < budget
      invariant rest <= kept.Keys <= shelf.Keys && dropped <= budget
      invariant |shelf.Keys| == |kept.Keys| + dropped
      invariant forall key | key in kept :: kept[key] == shelf[key]
      invariant forall key | key in shelf && key !in kept :: at(shelf[key]) <= now
      invariant forall key | key in kept && key !in rest :: at(shelf[key]) > now
      decreases |rest|
    {
      var key := Pick(rest);
      rest := rest - {key};
      if at(shelf[key]) <= now {
        assert (kept - {key}).Keys == kept.Keys - {key};
        kept := kept - {key};
        dropped := dropped + 1;
      }
    }
    assert |shelf.Keys| == |shelf| && |kept.Keys| == |kept|;
  }

  /** Everything that a sweep looks at. */
  datatype Stock = Stock(
    sessions: Shelf, intents: map<Key, int>, exchanges: Shelf, credentials: Shelf, throttles: map<Key, int>)

  function Size(stock: Stock): nat {
    |stock.sessions| + |stock.intents| + |stock.exchanges| + |stock.credentials| + |stock.throttles|
  }

  /** Each kind has what the kinds before it left of the batch. */
  ghost predicate SweptInOrder(before: Stock, after: Stock, now: int, batch: int) {
    var forIntents := batch - (|before.sessions| - |after.sessions|);
    var forExchanges := forIntents - (|before.intents| - |after.intents|);
    var forCredentials := forExchanges - (|before.exchanges| - |after.exchanges|);
    var forThrottles := forCredentials - (|before.credentials| - |after.credentials|);
    && Swept(before.sessions, after.sessions, ExpiryOf, now, batch)
    && Swept(before.intents, after.intents, TimeOf, now, forIntents)
    && Swept(before.exchanges, after.exchanges, ExpiryOf, now, forExchanges)
    && Swept(before.credentials, after.credentials, ExpiryOf, now, forCredentials)
    && Swept(before.throttles, after.throttles, TimeOf, now - THROTTLE_AGE, forThrottles)
  }

  method SweepInOrder(before: Stock, now: int, batch: nat) returns (after: Stock, deleted: nat)
    ensures SweptInOrder(before, after, now, batch) && Size(before) == Size(after) + deleted && deleted <= batch
  {
    var sessions, first := DropSome(before.sessions, ExpiryOf, now, batch);
    var intents, second := DropSome(before.intents, TimeOf, now, batch - first);
    var exchanges, third := DropSome(before.exchanges, ExpiryOf, now, batch - first - second);
    var credentials, fourth := DropSome(before.credentials, ExpiryOf, now, batch - first - second - third);
    var throttles, fifth :=
      DropSome(before.throttles, TimeOf, now - THROTTLE_AGE, batch - first - second - third - fourth);
    after := Stock(sessions, intents, exchanges, credentials, throttles);
    deleted := first + second + third + fourth + fifth;
  }

  /** A sweep that stops short of its batch has removed all that was due. */
  lemma ShortSweepIsComplete(before: Stock, after: Stock, now: int, batch: int)
    requires SweptInOrder(before, after, now, batch) && Size(before) - Size(after) < batch
    ensures after.sessions == Unexpired(before.sessions, now)
    ensures after.exchanges == Unexpired(before.exchanges, now)
    ensures after.credentials == Unexpired(before.credentials, now)
    ensures forall key | key in after.intents :: after.intents[key] > now
    ensures forall key | key in after.throttles :: after.throttles[key] > now - THROTTLE_AGE
  {
    SweptIsUnexpired(before.sessions, after.sessions, now, batch);
    var forExchanges := batch - (|before.sessions| - |after.sessions|) - (|before.intents| - |after.intents|);
    SweptIsUnexpired(before.exchanges, after.exchanges, now, forExchanges);
    var forCredentials := forExchanges - (|before.exchanges| - |after.exchanges|);
    SweptIsUnexpired(before.credentials, after.credentials, now, forCredentials);
    assert forall key | key in after.intents :: TimeOf(after.intents[key]) > now;
    assert forall key | key in after.throttles :: TimeOf(after.throttles[key]) > now - THROTTLE_AGE;
  }

  method CountOwned(shelf: Shelf, account: AccountId, except: Key) returns (count: nat)
    ensures count == |OwnedKeys(shelf, account) - {except}|
  {
    count := CountThose(shelf, account, except, OwnedKeys(shelf, account) - {except});
  }

  /** The filter-and-count loop, against the set it counts. */
  method CountThose(shelf: Shelf, account: AccountId, except: Key, ghost owned: set<Key>) returns (count: nat)
    requires owned <= shelf.Keys
    requires forall key | key in shelf :: key in owned <==> key != except && shelf[key].account == account
    ensures count == |owned|
  {
    count := 0;
    var rest := shelf.Keys;
    assert owned - rest == {};
    while rest != {}
      invariant rest <= shelf.Keys
      invariant count == |owned - rest|
      decreases |rest|
    {
      var key := Pick(rest);
      OneLess(owned, rest, key, count);
      if key != except && shelf[key].account == account {
        count := count + 1;
      }
      rest := rest - {key};
    }
  }

  lemma OthersCount(shelf: Shelf, key: Key)
    ensures |shelf.Keys - {key}| == |shelf| - if key in shelf then 1 else 0
  {
    assert shelf.Keys == (shelf.Keys - {key}) + (shelf.Keys * {key}) && |shelf.Keys| == |shelf|;
    if key in shelf {
      assert shelf.Keys * {key} == {key};
    }
  }

  method SaveOn(shelf: Shelf, key: Key, artifact: Artifact, now: int, limits: Limits) returns (next: Shelf, saved: bool)
    ensures var kept := Unexpired(shelf, now);
            && saved == HasRoom(kept, key, artifact.account, limits)
            && next == if saved then kept[key := artifact] else kept
  {
    next := DropExpired(shelf, now);
    var total := |next| - (if key in next then 1 else 0);
    OthersCount(next, key);
    var owned := CountOwned(next, artifact.account, key);
    saved := total < limits.global && owned < limits.perAccount;
    if saved {
      next := next[key := artifact];
    }
  }

  class InMemoryAuthRepository {
    const auditLimits: AuditLimits
    var accounts: map<AccountId, Account>
    var sessions: Shelf
    var sessionExchanges: Shelf
    var carrierCredentials: Shelf
    var auditEvents: seq<int>

    function Value(): Repository
      reads this
    {
      Repository(accounts, sessions, sessionExchanges, carrierCredentials, auditEvents)
    }

    constructor (auditLimits: AuditLimits)
      ensures this.auditLimits == auditLimits
      ensures Value() == Empty() && Fresh(Value())
    {
      this.auditLimits := auditLimits;
      accounts, sessions, sessionExchanges, carrierCredentials, auditEvents := map[], map[], map[], map[], [];
    }

    method EnabledAdministratorCount() returns (count: nat)
      ensures count == |Administrators(accounts)|
    {
      count := 0;
      var rest := accounts.Keys;
      ghost var admins := Administrators(accounts);
      assert admins - rest == {};
      while rest != {}
        invariant rest <= accounts.Keys
        invariant count == |admins - rest|
        decreases |rest|
      {
        var id := Pick(rest);
        OneLess(admins, rest, id, count);
        if Administers(accounts[id]) {
          count := count + 1;
        }
        rest := rest - {id};
      }
    }

    method DeleteAccountAuthArtifacts(id: AccountId)
      modifies this
      ensures accounts == old(accounts) && auditEvents == old(auditEvents)
      ensures sessions == Disown(old(sessions), id)
      ensures sessionExchanges == Disown(old(sessionExchanges), id)
      ensures carrierCredentials == Disown(old(carrierCredentials), id)
    {
      sessions := DropOwned(sessions, id);
      sessionExchanges := DropOwned(sessionExchanges, id);
      carrierCredentials := DropOwned(carrierCredentials, id);
    }

    method CreateFirstAccount(id: AccountId, account: Account, event: int) returns (answer: Answer)
      modifies this
      ensures Result(Value(), answer) == Perform(old(Value()), CreateFirst(id, account, event), auditLimits)
    {
      if |accounts| != 0 {
        return NotFirst;
      }
      var refusal := AuditRefusal(Value(), event, auditLimits);
      if refusal.Some? {
        return refusal.value;
      }
      accounts := accounts[id := account];
      auditEvents := auditEvents + [event];
      return Accepted;
    }

    method CreateAccount(
      id: AccountId, account: Account, authorization: Authorization, event: int)
      returns (answer: Answer)
      modifies this
      ensures Result(Value(), answer) == Perform(old(Value()), Create(id, account, authorization, event), auditLimits)
    {
      if !Authorized(Value(), authorization) {
        return NotAuthorized;
      }
      if UsernameTaken(Value(), account.username) || id in accounts {
        return AlreadyExists;
      }
      var refusal := AuditRefusal(Value(), event, auditLimits);
      if refusal.Some? {
        return refusal.value;
      }
      accounts := accounts[id := account];
      auditEvents := auditEvents + [event];
      return Accepted;
    }

    /** The common tail of every account mutation. */
    method StoreMutation(id: AccountId, change: Change, event: int) returns (answer: Answer)
      requires id in accounts
      modifies this
      ensures var refusal := AuditRefusal(old(Value()), event, auditLimits);
              if refusal.Some? then Value() == old(Value()) && answer == refusal.value
              else Value() == Rewrite(old(Value()), id, Changed(old(accounts[id]), change), event) && answer == Accepted
    {
      var refusal := AuditRefusal(Value(), event, auditLimits);
      if refusal.Some? {
        return refusal.value;
      }
      accounts := accounts[id := Changed(accounts[id], change)];
      DeleteAccountAuthArtifacts(id);
      auditEvents := auditEvents + [event];
      return Accepted;
    }

    method SetAccountEnabled(
      id: AccountId, enabled: bool, authorization: Authorization, event: int)
      returns (answer: Answer)
      modifies this
      ensures Result(Value(), answer)
              == Perform(old(Value()), Mutate(id, SetEnabled(enabled), authorization, event), auditLimits)
    {
      if !Authorized(Value(), authorization) {
        return NotAuthorized;
      }
      if id !in accounts {
        return NotFound;
      }
      var administrators := EnabledAdministratorCount();
      if !enabled && Administers(accounts[id]) && administrators <= 1 {
        return LastAdministrator;
      }
      answer := StoreMutation(id, SetEnabled(enabled), event);
    }

    method SetAccountRoles(
      id: AccountId, roles: set<Role>, authorization: Authorization, event: int)
      returns (answer: Answer)
      modifies this
      ensures Result(Value(), answer)
              == Perform(old(Value()), Mutate(id, SetRoles(roles), authorization, event), auditLimits)
    {
      if !Authorized(Value(), authorization) {
        return NotAuthorized;
      }
      if id !in accounts {
        return NotFound;
      }
      var administrators := EnabledAdministratorCount();
      if Administers(accounts[id]) && Admin !in roles && administrators <= 1 {
        return LastAdministrator;
      }
      answer := StoreMutation(id, SetRoles(roles), event);
    }

    method ReplaceAccountPassword(
      id: AccountId, passwordHash: int, mustChangePassword: bool, expectedAuthVersion: int,
      authorization: Authorization,
      event: int) returns (answer: Answer)
      modifies this
      ensures var change := ReplacePassword(passwordHash, mustChangePassword, expectedAuthVersion);
              Result(Value(), answer) == Perform(old(Value()), Mutate(id, change, authorization, event), auditLimits)
    {
      if !Authorized(Value(), authorization) {
        return NotAuthorized;
      }
      if id !in accounts {
        return NotFound;
      }
      if expectedAuthVersion != accounts[id].authVersion {
        return Conflict;
      }
      answer := StoreMutation(id, ReplacePassword(passwordHash, mustChangePassword, expectedAuthVersion), event);
    }

    method RevokeAccountSessions(id: AccountId, authorization: Authorization, event: int) returns (answer: Answer)
      modifies this
      ensures Result(Value(), answer)
              == Perform(old(Value()), Mutate(id, RevokeSessions, authorization, event), auditLimits)
    {
      if !Authorized(Value(), authorization) {
        return NotAuthorized;
      }
      if id !in accounts {
        return NotFound;
      }
      answer := StoreMutation(id, RevokeSessions, event);
    }

    method SaveSession(key: Key, artifact: Artifact, now: int, limits: Limits) returns (saved: bool)
      modifies this
      ensures var result := Perform(old(Value()), Save(Sessions, key, artifact, now, limits), auditLimits);
              Value() == result.repository && saved == result.answer.Accepted?
    {
      saved := Current(Value(), artifact);
      if saved {
        sessions, saved := SaveOn(sessions, key, artifact, now, limits);
      }
    }

    method SaveSessionExchange(key: Key, artifact: Artifact, now: int, limits: Limits) returns (saved: bool)
      modifies this
      ensures var result := Perform(old(Value()), Save(Exchanges, key, artifact, now, limits), auditLimits);
              Value() == result.repository && saved == result.answer.Accepted?
    {
      saved := Current(Value(), artifact);
      if saved {
        sessionExchanges, saved := SaveOn(sessionExchanges, key, artifact, now, limits);
      }
    }

    method SaveCarrierCredential(key: Key, artifact: Artifact, now: int, limits: Limits) returns (saved: bool)
      modifies this
      ensures var result := Perform(old(Value()), Save(Credentials, key, artifact, now, limits), auditLimits);
              Value() == result.repository && saved == result.answer.Accepted?
    {
      saved := Current(Value(), artifact);
      if saved {
        carrierCredentials, saved := SaveOn(carrierCredentials, key, artifact, now, limits);
      }
    }

    method ConsumeSessionExchange(key: Key, targetHost: int, now: int) returns (answer: Answer)
      modifies this
      ensures Result(Value(), answer) == Perform(old(Value()), Consume(Exchanges, key, targetHost, now), auditLimits)
    {
      if key !in sessionExchanges || sessionExchanges[key].proof != targetHost
         || sessionExchanges[key].expiresAt <= now {
        return Nothing;
      }
      answer := Consumed(sessionExchanges[key]);
      sessionExchanges := sessionExchanges - {key};
    }

    method ConsumeCarrierCredential(key: Key, secretDigest: int, now: int) returns (answer: Answer)
      modifies this
      ensures Result(Value(), answer)
              == Perform(old(Value()), Consume(Credentials, key, secretDigest, now), auditLimits)
    {
      if key !in carrierCredentials || carrierCredentials[key].proof != secretDigest
         || carrierCredentials[key].expiresAt <= now {
        return Nothing;
      }
      answer := Consumed(carrierCredentials[key]);
      carrierCredentials := carrierCredentials - {key};
    }

    ghost function StockWith(intents: map<Key, int>, throttles: map<Key, int>): Stock
      reads this
    {
      Stock(sessions, intents, sessionExchanges, carrierCredentials, throttles)
    }

    /**
     A bounded sweep of sessions, login intents, exchanges, credentials and throttles,
     in this order: nothing live goes, and a sweep that stops short of its batch has
     removed all that was due. The intents and throttles, which nothing else here
     touches, are handed in and out.
     */
    method DeleteExpiredAuthArtifacts(now: int, batchSize: int, intents: map<Key, int>, throttles: map<Key, int>)
      returns (deleted: Option<nat>, keptIntents: map<Key, int>, keptThrottles: map<Key, int>)
      modifies this
      ensures accounts == old(accounts) && auditEvents == old(auditEvents)
      ensures deleted.None? <==> batchSize < 1
      ensures deleted.None? ==> Value() == old(Value()) && keptIntents == intents && keptThrottles == throttles
      ensures deleted.Some? ==>
                var before, after := old(StockWith(intents, throttles)), StockWith(keptIntents, keptThrottles);
                && SweptInOrder(before, after, now, batchSize)
                && Size(before) == Size(after) + deleted.value && deleted.value <= batchSize
                && (deleted.value < batchSize ==>
                      && sessions == Unexpired(old(sessions), now)
                      && sessionExchanges == Unexpired(old(sessionExchanges), now)
                      && carrierCredentials == Unexpired(old(carrierCredentials), now)
                      && (forall key | key in keptIntents :: keptIntents[key] > now)
                      && (forall key | key in keptThrottles :: keptThrottles[key] > now - THROTTLE_AGE))
    {
      if batchSize < 1 {
        return None, intents, throttles;
      }
      var before := Stock(sessions, intents, sessionExchanges, carrierCredentials, throttles);
      var after, count := SweepInOrder(before, now, batchSize);
      if count < batchSize {
        ShortSweepIsComplete(before, after, now, batchSize);
      }
      sessions, sessionExchanges, carrierCredentials := after.sessions, after.exchanges, after.credentials;
      return Some(count), after.intents, after.throttles;
    }
  }
}
