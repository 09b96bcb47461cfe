/**
 The in-memory account repository: account mutations under an authorization,
 three shelves of artifacts that expire, and a bounded audit log.
 */
module AuthStore {
  import opened Options

  type AccountId(==, !new)
  type Key(==, !new)

  datatype Role = Admin | Developer | Reviewer

  datatype Account = Account(
    username: int, roles: set<Role>, passwordHash: int, enabled: bool, mustChangePassword: bool, authVersion: int)

  /** A session, an exchange or a carrier credential; the proof is its token digest, target host or secret digest. */
  datatype Artifact = Artifact(account: AccountId, authVersion: int, proof: int, expiresAt: int)

  type Shelf = map<Key, Artifact>

  datatype Limits = Limits(global: nat, perAccount: nat)

  datatype AuditLimits = AuditLimits(global: nat, operationalReserve: nat)

  datatype Repository = Repository(
    accounts: map<AccountId, Account>, sessions: Shelf, exchanges: Shelf, credentials: Shelf, audit: seq<int>)

  datatype Authorization = Authorization(
    account: AccountId, authVersion: int, allowPasswordChangeRequired: bool, requiredRole: Option<Role>)

  datatype Kind = Sessions | Exchanges | Credentials

  datatype Change =
    | SetEnabled(enabled: bool)
    | SetRoles(roles: set<Role>)
    | ReplacePassword(passwordHash: int, mustChangePassword: bool, expectedAuthVersion: int)
    | RevokeSessions

  datatype Operation =
    | CreateFirst(id: AccountId, account: Account, event: int)
    | Create(id: AccountId, account: Account, authorization: Authorization, event: int)
    | Mutate(id: AccountId, change: Change, authorization: Authorization, event: int)
    | Save(kind: Kind, key: Key, artifact: Artifact, now: int, limits: Limits)
    | Consume(kind: Kind, key: Key, proof: int, now: int)
    | Discard(kind: Kind, keep: set<Key>)

  datatype Answer =
    | Accepted
    | NotFirst
    | NotAuthorized
    | AlreadyExists
    | NotFound
    | Conflict
    | LastAdministrator
    | AuditFull
    | AuditRepeated
    | NotSaved
    | Nothing
    | Consumed(artifact: Artifact)

  datatype Result = Result(repository: Repository, answer: Answer)

  // ---------------------------------------------------------------- accounts

  predicate Administers(account: Account) {
    account.enabled && Admin in account.roles
  }

  function Administrators(accounts: map<AccountId, Account>): set<AccountId> {
    set id | id in accounts && Administers(accounts[id])
  }

  predicate Authorized(r: Repository, a: Authorization) {
    && a.account in r.accounts
    && r.accounts[a.account].enabled
    && r.accounts[a.account].authVersion == a.authVersion
    && (a.allowPasswordChangeRequired || !r.accounts[a.account].mustChangePassword)
    && (a.requiredRole.Some? ==> a.requiredRole.value in r.accounts[a.account].roles)
  }

  predicate UsernameTaken(r: Repository, username: int) {
    exists id | id in r.accounts :: r.accounts[id].username == username
  }

  function AuditRefusal(r: Repository, event: int, audit: AuditLimits): Option<Answer> {
    if |r.audit| >= audit.global - audit.operationalReserve then Some(AuditFull)
    else if event in r.audit then Some(AuditRepeated)
    else None
  }

  function AddAccount(r: Repository, id: AccountId, account: Account, event: int, audit: AuditLimits): Result {
    if UsernameTaken(r, account.username) || id in r.accounts then Result(r, AlreadyExists)
    else if AuditRefusal(r, event, audit).Some? then Result(r, AuditRefusal(r, event, audit).value)
    else Result(r.(accounts := r.accounts[id := account], audit := r.audit + [event]), Accepted)
  }

  function Changed(account: Account, change: Change): Account {
    var next := account.(authVersion := account.authVersion + 1);
    match change
    case SetEnabled(enabled) => next.(enabled := enabled)
    case SetRoles(roles) => next.(roles := roles)
    case ReplacePassword(passwordHash, mustChangePassword, _) =>
      next.(passwordHash := passwordHash, mustChangePassword := mustChangePassword)
    case RevokeSessions => next
  }

  function Disown(shelf: Shelf, id: AccountId): Shelf {
    map key | key in shelf && shelf[key].account != id :: shelf[key]
  }

  /** Store the changed account and drop everything issued to it. */
  function Rewrite(r: Repository, id: AccountId, account: Account, event: int): Repository {
    Repository(
      r.accounts[id := account],
      Disown(r.sessions, id), Disown(r.exchanges, id), Disown(r.credentials, id),
      r.audit + [event])
  }

  predicate EndsAdministration(r: Repository, account: Account, change: Change) {
    && Administers(account)
    && |Administrators(r.accounts)| <= 1
    && match change
       case SetEnabled(enabled) => !enabled
       case SetRoles(roles) => Admin !in roles
       case _ => false
  }

  function MutateAccount(
    r: Repository, id: AccountId, change: Change, authorization: Authorization, event: int, audit: AuditLimits): Result
  {
    if !Authorized(r, authorization) then Result(r, NotAuthorized)
    else if id !in r.accounts then Result(r, NotFound)
    else if EndsAdministration(r, r.accounts[id], change) then Result(r, LastAdministrator)
    else if change.ReplacePassword? && change.expectedAuthVersion != r.accounts[id].authVersion then Result(r, Conflict)
    else if AuditRefusal(r, event, audit).Some? then Result(r, AuditRefusal(r, event, audit).value)
    else Result(Rewrite(r, id, Changed(r.accounts[id], change), event), Accepted)
  }

  // --------------------------------------------------------------- artifacts

  function ShelfOf(r: Repository, kind: Kind): Shelf {
    match kind
    case Sessions => r.sessions
    case Exchanges => r.exchanges
    case Credentials => r.credentials
  }

  function WithShelf(r: Repository, kind: Kind, shelf: Shelf): (next: Repository)
    ensures next.accounts == r.accounts && next.audit == r.audit
    ensures forall other: Kind :: ShelfOf(next, other) == if other == kind then shelf else ShelfOf(r, other)
  {
    match kind
    case Sessions => r.(sessions := shelf)
    case Exchanges => r.(exchanges := shelf)
    case Credentials => r.(credentials := shelf)
  }

  function Unexpired(shelf: Shelf, now: int): Shelf {
    map key | key in shelf && shelf[key].expiresAt > now :: shelf[key]
  }

  function OwnedKeys(shelf: Shelf, id: AccountId): set<Key> {
    set key | key in shelf && shelf[key].account == id
  }

  predicate Current(r: Repository, artifact: Artifact) {
    && artifact.account in r.accounts
    && r.accounts[artifact.account].enabled
    && r.accounts[artifact.account].authVersion == artifact.authVersion
  }

  predicate HasRoom(shelf: Shelf, key: Key, account: AccountId, limits: Limits) {
    && |shelf.Keys - {key}| < limits.global
    && |OwnedKeys(shelf, account) - {key}| < limits.perAccount
  }

  /** Expired artifacts of the kind go whether or not the new one then fits. */
  function SaveArtifact(
    r: Repository, kind: Kind, key: Key, artifact: Artifact, now: int, limits: Limits): (result: Result)
    ensures result.repository.accounts == r.accounts && result.repository.audit == r.audit
    ensures result.answer.Accepted? ==>
              && Current(r, artifact) && key in ShelfOf(result.repository, kind)
              && ShelfOf(result.repository, kind)[key] == artifact
  {
    if !Current(r, artifact) then Result(r, NotSaved)
    else
      var kept := Unexpired(ShelfOf(r, kind), now);
      if HasRoom(kept, key, artifact.account, limits)
      then Result(WithShelf(r, kind, kept[key := artifact]), Accepted)
      else Result(WithShelf(r, kind, kept), NotSaved)
  }

  /** One-time use: the artifact leaves the shelf with its proof. */
  function ConsumeArtifact(r: Repository, kind: Kind, key: Key, proof: int, now: int): Result {
    var shelf := ShelfOf(r, kind);
    if key !in shelf || shelf[key].proof != proof || shelf[key].expiresAt <= now then Result(r, Nothing)
    else Result(WithShelf(r, kind, shelf - {key}), Consumed(shelf[key]))
  }

  function Keep(shelf: Shelf, keep: set<Key>): Shelf {
    map key | key in shelf && key in keep :: shelf[key]
  }

  function Perform(r: Repository, op: Operation, audit: AuditLimits): Result {
    match op
    case CreateFirst(id, account, event) =>
      if r.accounts != map[] then Result(r, NotFirst) else AddAccount(r, id, account, event, audit)
    case Create(id, account, authorization, event) =>
      if !Authorized(r, authorization) then Result(r, NotAuthorized) else AddAccount(r, id, account, event, audit)
    case Mutate(id, change, authorization, event) => MutateAccount(r, id, change, authorization, event, audit)
    case Save(kind, key, artifact, now, limits) => SaveArtifact(r, kind, key, artifact, now, limits)
    case Consume(kind, key, proof, now) => ConsumeArtifact(r, kind, key, proof, now)
    case Discard(kind, keep) => Result(WithShelf(r, kind, Keep(ShelfOf(r, kind), keep)), Accepted)
  }

  function Run(r: Repository, ops: seq<Operation>, audit: AuditLimits): Repository
    decreases |ops|
  {
    if ops == [] then r else Run(Perform(r, ops[0], audit).repository, ops[1..], audit)
  }

  function Empty(): Repository {
    Repository(map[], map[], map[], map[], [])
  }

  // ------------------------------------------------------ last administrator

  ghost predicate HasAdministrator(r: Repository) {
    exists id | id in r.accounts :: Administers(r.accounts[id])
  }

  lemma AdministratorIsCounted(accounts: map<AccountId, Account>, id: AccountId)
    requires id in accounts && Administers(accounts[id])
    requires |Administrators(accounts)| > 1
    ensures exists other | other in accounts :: other != id && Administers(accounts[other])
  {
    assert (forall other | other in accounts && other != id :: !Administers(accounts[other])) ==>
        Administrators(accounts) == {id};
  }

  lemma SoleAdministrator(accounts: map<AccountId, Account>, id: AccountId)
    requires id in accounts && Administers(accounts[id])
    requires |Administrators(accounts)| <= 1
    ensures forall other | other in accounts && Administers(accounts[other]) :: other == id
  {
    assert id in Administrators(accounts);
    forall other | other in accounts && Administers(accounts[other]) ensures other == id {
      assert other in Administrators(accounts);
      var rest := Administrators(accounts) - {id};
      assert Administrators(accounts) == rest + {id};
      assert rest == {};
    }
  }

  lemma MutationKeepsAdministrator(
    r: Repository, id: AccountId, change: Change, authorization: Authorization, event: int, audit: AuditLimits)
    requires HasAdministrator(r)
    ensures HasAdministrator(MutateAccount(r, id, change, authorization, event, audit).repository)
  {
    var result := MutateAccount(r, id, change, authorization, event, audit);
    if result.answer.Accepted? {
      var next := result.repository.accounts;
      assert forall other | other in r.accounts && other != id :: next[other] == r.accounts[other];
      var admin :| admin in r.accounts && Administers(r.accounts[admin]);
      if admin != id {
        assert Administers(next[admin]);
      } else if !Administers(next[id]) {
        AdministratorIsCounted(r.accounts, id);
        var other :| other in r.accounts && other != id && Administers(r.accounts[other]);
        assert Administers(next[other]);
      } else {
        assert id in next;
      }
    }
  }

  /** Only a mutation touches an account that exists. */
  lemma OthersKeepAccounts(r: Repository, op: Operation, audit: AuditLimits, id: AccountId)
    requires !op.Mutate? && id in r.accounts
    ensures id in Perform(r, op, audit).repository.accounts
    ensures Perform(r, op, audit).repository.accounts[id] == r.accounts[id]
  {
  }

  lemma PerformKeepsAdministrator(r: Repository, op: Operation, audit: AuditLimits)
    requires HasAdministrator(r)
    ensures HasAdministrator(Perform(r, op, audit).repository)
  {
    if op.Mutate? {
      MutationKeepsAdministrator(r, op.id, op.change, op.authorization, op.event, audit);
    } else {
      var admin :| admin in r.accounts && Administers(r.accounts[admin]);
      OthersKeepAccounts(r, op, audit, admin);
    }
  }

  /** Whatever is created, enabled, disabled, promoted, demoted or revoked, an enabled administrator remains. */
  lemma {:induction false} AdministratorIsNeverLost(r: Repository, ops: seq<Operation>, audit: AuditLimits)
    requires HasAdministrator(r)
    ensures HasAdministrator(Run(r, ops, audit))
    decreases |ops|
  {
    if ops != [] {
      PerformKeepsAdministrator(r, ops[0], audit);
      AdministratorIsNeverLost(Perform(r, ops[0], audit).repository, ops[1..], audit);
    }
  }

  /** The store as bootstrapped: an empty one whose first account is an enabled administrator. */
  lemma BootstrapKeepsAdministrator(
    id: AccountId, account: Account, event: int, ops: seq<Operation>, audit: AuditLimits)
    requires Administers(account)
    ensures var first := Perform(Empty(), CreateFirst(id, account, event), audit);
            first.answer.Accepted? ==> HasAdministrator(Run(first.repository, ops, audit))
  {
    var first := Perform(Empty(), CreateFirst(id, account, event), audit);
    if first.answer.Accepted? {
      assert id in first.repository.accounts;
      AdministratorIsNeverLost(first.repository, ops, audit);
    }
  }

  /** The refusal is exact: it is given precisely when carrying the change out would leave no administrator. */
  lemma LastAdministratorIsExact(
    r: Repository, id: AccountId, change: Change, authorization: Authorization, event: int, audit: AuditLimits)
    requires HasAdministrator(r) && Authorized(r, authorization) && id in r.accounts
    ensures MutateAccount(r, id, change, authorization, event, audit).answer.LastAdministrator?
            <==> !HasAdministrator(Rewrite(r, id, Changed(r.accounts[id], change), event))
  {
    var next := Rewrite(r, id, Changed(r.accounts[id], change), event);
    assert forall other | other in r.accounts && other != id :: next.accounts[other] == r.accounts[other];
    if EndsAdministration(r, r.accounts[id], change) {
      SoleAdministrator(r.accounts, id);
    } else {
      var admin :| admin in r.accounts && Administers(r.accounts[admin]);
      if admin != id {
        assert Administers(next.accounts[admin]);
      } else if !Administers(next.accounts[id]) {
        AdministratorIsCounted(r.accounts, id);
        var other :| other in r.accounts && other != id && Administers(r.accounts[other]);
        assert Administers(next.accounts[other]);
      } else {
        assert id in next.accounts;
      }
    }
  }

  // --------------------------------------------------------------- freshness

  ghost predicate FreshShelf(r: Repository, shelf: Shelf) {
    forall key | key in shelf :: Current(r, shelf[key])
  }

  ghost predicate Fresh(r: Repository) {
    forall kind: Kind :: FreshShelf(r, ShelfOf(r, kind))
  }

  /** Accounts are never removed and their versions never fall. */
  ghost predicate VersionsRise(r: Repository, next: Repository) {
    forall id | id in r.accounts :: id in next.accounts && r.accounts[id].authVersion <= next.accounts[id].authVersion
  }

  lemma AddingKeepsFresh(r: Repository, id: AccountId, account: Account, event: int, audit: AuditLimits)
    requires Fresh(r)
    ensures Fresh(AddAccount(r, id, account, event, audit).repository)
  {
    var next := AddAccount(r, id, account, event, audit).repository;
    forall kind: Kind ensures FreshShelf(next, ShelfOf(next, kind)) {
      assert ShelfOf(next, kind) == ShelfOf(r, kind) && FreshShelf(r, ShelfOf(r, kind));
    }
  }

  lemma RewritingKeepsFresh(r: Repository, id: AccountId, account: Account, event: int)
    requires Fresh(r)
    ensures Fresh(Rewrite(r, id, account, event))
  {
    var next := Rewrite(r, id, account, event);
    forall kind: Kind ensures FreshShelf(next, ShelfOf(next, kind)) {
      assert ShelfOf(next, kind) == Disown(ShelfOf(r, kind), id) && FreshShelf(r, ShelfOf(r, kind));
    }
  }

  lemma ShelvingKeepsFresh(r: Repository, kind: Kind, shelf: Shelf)
    requires Fresh(r) && FreshShelf(r, shelf)
    ensures Fresh(WithShelf(r, kind, shelf))
  {
    var next := WithShelf(r, kind, shelf);
    forall other: Kind ensures FreshShelf(next, ShelfOf(next, other)) {
      assert ShelfOf(next, other) == if other == kind then shelf else ShelfOf(r, other);
      assert FreshShelf(r, ShelfOf(r, other));
    }
  }

  ghost predicate Part(part: Shelf, shelf: Shelf) {
    part.Keys <= shelf.Keys && forall key | key in part :: part[key] == shelf[key]
  }

  lemma PartsKeepFresh(r: Repository, kind: Kind, part: Shelf)
    requires Fresh(r) && Part(part, ShelfOf(r, kind))
    ensures Fresh(WithShelf(r, kind, part)) && FreshShelf(r, part)
  {
    assert FreshShelf(r, ShelfOf(r, kind));
    ShelvingKeepsFresh(r, kind, part);
  }

  lemma SavingKeepsFresh(r: Repository, kind: Kind, key: Key, artifact: Artifact, now: int, limits: Limits)
    requires Fresh(r)
    ensures Fresh(SaveArtifact(r, kind, key, artifact, now, limits).repository)
  {
    var kept := Unexpired(ShelfOf(r, kind), now);
    PartsKeepFresh(r, kind, kept);
    if Current(r, artifact) {
      ShelvingKeepsFresh(r, kind, kept[key := artifact]);
    }
  }

  lemma PerformRaisesVersions(r: Repository, op: Operation, audit: AuditLimits)
    ensures VersionsRise(r, Perform(r, op, audit).repository)
  {
    forall id | id in r.accounts
      ensures var next := Perform(r, op, audit).repository;
              id in next.accounts && r.accounts[id].authVersion <= next.accounts[id].authVersion
    {
      if !op.Mutate? {
        OthersKeepAccounts(r, op, audit, id);
      }
    }
  }

  lemma PerformKeepsFresh(r: Repository, op: Operation, audit: AuditLimits)
    requires Fresh(r)
    ensures Fresh(Perform(r, op, audit).repository)
  {
    match op
    case CreateFirst(id, account, event) => AddingKeepsFresh(r, id, account, event, audit);
    case Create(id, account, _, event) => AddingKeepsFresh(r, id, account, event, audit);
    case Mutate(id, change, _, event) =>
      if id in r.accounts {
        RewritingKeepsFresh(r, id, Changed(r.accounts[id], change), event);
      }
    case Save(kind, key, artifact, now, limits) => SavingKeepsFresh(r, kind, key, artifact, now, limits);
    case Consume(kind, key, _, _) => PartsKeepFresh(r, kind, ShelfOf(r, kind) - {key});
    case Discard(kind, keep) => PartsKeepFresh(r, kind, Keep(ShelfOf(r, kind), keep));
  }

  lemma {:induction false} EveryRunIsFresh(r: Repository, ops: seq<Operation>, audit: AuditLimits)
    requires Fresh(r)
    ensures Fresh(Run(r, ops, audit)) && VersionsRise(r, Run(r, ops, audit))
    decreases |ops|
  {
    if ops != [] {
      PerformKeepsFresh(r, ops[0], audit);
      PerformRaisesVersions(r, ops[0], audit);
      EveryRunIsFresh(Perform(r, ops[0], audit).repository, ops[1..], audit);
    }
  }

  /**
   Nothing that was stored when an account was changed, nor anything of that
   account's that was stored earlier, can be consumed after the change.
   */
  lemma NothingOldIsConsumed(
    stored: seq<Operation>, before: seq<Operation>, mutation: Operation, after: seq<Operation>, consume: Operation,
    audit: AuditLimits, kind: Kind, key: Key)
    requires mutation.Mutate? && consume.Consume?
    requires Perform(Run(Run(Empty(), stored, audit), before, audit), mutation, audit).answer.Accepted?
    requires key in ShelfOf(Run(Empty(), stored, audit), kind)
    requires ShelfOf(Run(Empty(), stored, audit), kind)[key].account == mutation.id
    ensures var artifact := ShelfOf(Run(Empty(), stored, audit), kind)[key];
            var changed := Perform(Run(Run(Empty(), stored, audit), before, audit), mutation, audit).repository;
            var last := Perform(Run(changed, after, audit), consume, audit);
            last.answer != Consumed(artifact)
  {
    var first := Run(Empty(), stored, audit);
    EveryRunIsFresh(Empty(), stored, audit);
    var second := Run(first, before, audit);
    EveryRunIsFresh(first, before, audit);
    var changed := Perform(second, mutation, audit).repository;
    PerformKeepsFresh(second, mutation, audit);
    EveryRunIsFresh(changed, after, audit);
    MutationOutdates(first, second, mutation, Run(changed, after, audit), audit, kind, key, consume);
  }

  lemma MutationOutdates(
    first: Repository, second: Repository, mutation: Operation, last: Repository, audit: AuditLimits, kind: Kind,
    key: Key,
    consume: Operation)
    requires Fresh(first) && VersionsRise(first, second) && mutation.Mutate?
    requires Perform(second, mutation, audit).answer.Accepted?
    requires Fresh(last) && VersionsRise(Perform(second, mutation, audit).repository, last)
    requires key in ShelfOf(first, kind) && ShelfOf(first, kind)[key].account == mutation.id && consume.Consume?
    ensures Perform(last, consume, audit).answer != Consumed(ShelfOf(first, kind)[key])
  {
    assert FreshShelf(first, ShelfOf(first, kind));
    assert FreshShelf(last, ShelfOf(last, consume.kind));
    var changed := Perform(second, mutation, audit).repository;
    assert changed.accounts[mutation.id].authVersion == second.accounts[mutation.id].authVersion + 1;
  }

  /** Whatever is consumed belongs to an enabled account and carries its version of that moment. */
  lemma ConsumedIsCurrent(ops: seq<Operation>, consume: Operation, audit: AuditLimits)
    requires consume.Consume?
    ensures var r := Run(Empty(), ops, audit);
            var result := Perform(r, consume, audit);
            result.answer.Consumed? ==>
              && Current(r, result.answer.artifact)
              && result.answer.artifact.proof == consume.proof
              && consume.now < result.answer.artifact.expiresAt
              && consume.key !in ShelfOf(result.repository, consume.kind)
  {
    var r := Run(Empty(), ops, audit);
    EveryRunIsFresh(Empty(), ops, audit);
    assert FreshShelf(r, ShelfOf(r, consume.kind));
  }

  // ------------------------------------------------------------------ quotas

  /** The limits an application passes with every save of one kind. */
  datatype Quotas = Quotas(sessions: Limits, exchanges: Limits, credentials: Limits)

  function QuotaOf(q: Quotas, kind: Kind): Limits {
    match kind
    case Sessions => q.sessions
    case Exchanges => q.exchanges
    case Credentials => q.credentials
  }

  ghost predicate ShelfWithin(shelf: Shelf, limits: Limits) {
    && |shelf| <= limits.global
    && forall id: AccountId :: |OwnedKeys(shelf, id)| <= limits.perAccount
  }

  ghost predicate Within(r: Repository, q: Quotas, audit: AuditLimits) {
    && (forall kind: Kind :: ShelfWithin(ShelfOf(r, kind), QuotaOf(q, kind)))
    && |r.audit| <= audit.global - audit.operationalReserve
    && forall i, j | 0 <= i < j < |r.audit| :: r.audit[i] != r.audit[j]
  }

  lemma FewerKeys(a: set<Key>, b: set<Key>)
    requires a <= b
    ensures |a| <= |b|
  {
    assert b == a + (b - a);
  }

  lemma SmallerShelf(shelf: Shelf, part: Shelf, limits: Limits)
    requires ShelfWithin(shelf, limits)
    requires Part(part, shelf)
    ensures ShelfWithin(part, limits)
  {
    FewerKeys(part.Keys, shelf.Keys);
    assert |part.Keys| == |part| && |shelf.Keys| == |shelf|;
    forall id: AccountId ensures |OwnedKeys(part, id)| <= limits.perAccount {
      assert forall key | key in OwnedKeys(part, id) :: key in shelf.Keys && part[key] == shelf[key];
      FewerKeys(OwnedKeys(part, id), OwnedKeys(shelf, id));
    }
  }

  lemma OwnedAfterSaving(shelf: Shelf, key: Key, artifact: Artifact, id: AccountId)
    ensures OwnedKeys(shelf[key := artifact], id)
            == (OwnedKeys(shelf, id) - {key}) + if id == artifact.account then {key} else {}
  {
  }

  lemma SavingStaysWithin(shelf: Shelf, key: Key, artifact: Artifact, limits: Limits)
    requires ShelfWithin(shelf, limits) && HasRoom(shelf, key, artifact.account, limits)
    ensures ShelfWithin(shelf[key := artifact], limits)
  {
    var next := shelf[key := artifact];
    assert next.Keys == (shelf.Keys - {key}) + {key};
    assert |next.Keys| == |next|;
    forall id: AccountId ensures |OwnedKeys(next, id)| <= limits.perAccount {
      OwnedAfterSaving(shelf, key, artifact, id);
      FewerKeys(OwnedKeys(shelf, id) - {key}, OwnedKeys(shelf, id));
    }
  }

  lemma ShelvingStaysWithin(r: Repository, kind: Kind, shelf: Shelf, q: Quotas, audit: AuditLimits)
    requires Within(r, q, audit) && ShelfWithin(shelf, QuotaOf(q, kind))
    ensures Within(WithShelf(r, kind, shelf), q, audit)
  {
    var next := WithShelf(r, kind, shelf);
    forall other: Kind ensures ShelfWithin(ShelfOf(next, other), QuotaOf(q, other)) {
      assert ShelfOf(next, other) == if other == kind then shelf else ShelfOf(r, other);
    }
  }

  lemma MutatingStaysWithin(r: Repository, id: AccountId, account: Account, event: int, q: Quotas, audit: AuditLimits)
    requires Within(r, q, audit) && AuditRefusal(r, event, audit).None?
    ensures Within(Rewrite(r, id, account, event), q, audit)
  {
    var next := Rewrite(r, id, account, event);
    forall kind: Kind ensures ShelfWithin(ShelfOf(next, kind), QuotaOf(q, kind)) {
      assert ShelfOf(next, kind) == Disown(ShelfOf(r, kind), id);
      SmallerShelf(ShelfOf(r, kind), ShelfOf(next, kind), QuotaOf(q, kind));
    }
  }

  lemma AddingStaysWithin(r: Repository, id: AccountId, account: Account, event: int, q: Quotas, audit: AuditLimits)
    requires Within(r, q, audit)
    ensures Within(AddAccount(r, id, account, event, audit).repository, q, audit)
  {
    var next := AddAccount(r, id, account, event, audit).repository;
    forall kind: Kind ensures ShelfWithin(ShelfOf(next, kind), QuotaOf(q, kind)) {
      assert ShelfOf(next, kind) == ShelfOf(r, kind);
    }
  }

  lemma PartsStayWithin(r: Repository, kind: Kind, part: Shelf, q: Quotas, audit: AuditLimits)
    requires Within(r, q, audit) && Part(part, ShelfOf(r, kind))
    ensures Within(WithShelf(r, kind, part), q, audit) && ShelfWithin(part, QuotaOf(q, kind))
  {
    SmallerShelf(ShelfOf(r, kind), part, QuotaOf(q, kind));
    ShelvingStaysWithin(r, kind, part, q, audit);
  }

  lemma SaveStaysWithin(
    r: Repository, kind: Kind, key: Key, artifact: Artifact, now: int, limits: Limits, q: Quotas, audit: AuditLimits)
    requires Within(r, q, audit) && limits == QuotaOf(q, kind)
    ensures Within(SaveArtifact(r, kind, key, artifact, now, limits).repository, q, audit)
  {
    var kept := Unexpired(ShelfOf(r, kind), now);
    PartsStayWithin(r, kind, kept, q, audit);
    if HasRoom(kept, key, artifact.account, limits) {
      SavingStaysWithin(kept, key, artifact, limits);
      ShelvingStaysWithin(r, kind, kept[key := artifact], q, audit);
    }
  }

  lemma PerformStaysWithin(r: Repository, op: Operation, q: Quotas, audit: AuditLimits)
    requires Within(r, q, audit)
    requires op.Save? ==> op.limits == QuotaOf(q, op.kind)
    ensures Within(Perform(r, op, audit).repository, q, audit)
  {
    match op
    case CreateFirst(id, account, event) => AddingStaysWithin(r, id, account, event, q, audit);
    case Create(id, account, _, event) => AddingStaysWithin(r, id, account, event, q, audit);
    case Mutate(id, change, _, event) =>
      if id in r.accounts && AuditRefusal(r, event, audit).None? {
        MutatingStaysWithin(r, id, Changed(r.accounts[id], change), event, q, audit);
      }
    case Save(kind, key, artifact, now, limits) => SaveStaysWithin(r, kind, key, artifact, now, limits, q, audit);
    case Consume(kind, key, _, _) => PartsStayWithin(r, kind, ShelfOf(r, kind) - {key}, q, audit);
    case Discard(kind, keep) => PartsStayWithin(r, kind, Keep(ShelfOf(r, kind), keep), q, audit);
  }

  /** With fixed limits, no shelf ever exceeds its total or per-account quota, nor the audit log its own. */
  lemma {:induction false} EveryRunStaysWithin(r: Repository, ops: seq<Operation>, q: Quotas, audit: AuditLimits)
    requires Within(r, q, audit)
    requires forall i | 0 <= i < |ops| && ops[i].Save? :: ops[i].limits == QuotaOf(q, ops[i].kind)
    ensures Within(Run(r, ops, audit), q, audit)
    decreases |ops|
  {
    if ops != [] {
      PerformStaysWithin(r, ops[0], q, audit);
      EveryRunStaysWithin(Perform(r, ops[0], audit).repository, ops[1..], q, audit);
    }
  }

  lemma EmptyIsWithin(q: Quotas, audit: AuditLimits)
    requires audit.operationalReserve <= audit.global
    ensures Within(Empty(), q, audit) && Fresh(Empty())
  {
    var r := Empty();
    forall kind: Kind ensures ShelfWithin(ShelfOf(r, kind), QuotaOf(q, kind)) {
      assert forall id: AccountId :: OwnedKeys(ShelfOf(r, kind), id) == {};
    }
  }
}
